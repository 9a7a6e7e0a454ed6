/** The site's navigation bar, src/components/Navbar.tsx: which links it
    shows on which page, and the mobile menu's open/closed state with the
    page-scroll lock it sets on the body. The window's scroll, resize and
    hash-change events are the methods' inputs. */
module Navbar {
  import opened Strings

  /** `pathname.includes('/proyectos/') || pathname.includes('/projects/')` */
  predicate IsProjectDetail(pathname: string): (b: bool)
    ensures StartsWith(pathname, "/proyectos/") || StartsWith(pathname, "/projects/") ==> b
    ensures b ==> |pathname| >= |"/projects/"|
  {
    Contains(pathname, "/proyectos/") || Contains(pathname, "/projects/")
  }

  /** Both spellings of a project's page are detail pages, whatever the slug. */
  lemma DetailPages(slug: string)
    ensures IsProjectDetail("/proyectos/" + slug)
    ensures IsProjectDetail("/projects/" + slug)
  {
    ContainsAt("/proyectos/" + slug, "/proyectos/", 0);
    ContainsAt("/projects/" + slug, "/projects/", 0);
  }

  /** The home page and its section routes are not. */
  lemma SectionPagesAreNotDetail()
    ensures !IsProjectDetail("/")
    ensures !IsProjectDetail("/servicios")
    ensures !IsProjectDetail("/contacto")
  {
    NotContainedUnlessLonger("/", "/proyectos/");
    NotContainedUnlessLonger("/", "/projects/");
    NotContainedUnlessLonger("/servicios", "/proyectos/");
    NotContainedUnlessLonger("/servicios", "/projects/");
    NotContainedUnlessLonger("/contacto", "/proyectos/");
    NotContainedUnlessLonger("/contacto", "/projects/");
  }

  /** A string contains no longer string, and a string of the same length
      only if the two are equal. */
  lemma NotContainedUnlessLonger(s: string, p: string)
    requires |s| <= |p| && s != p
    ensures !Contains(s, p)
  {
    if Contains(s, p) {
      var k := ContainsWitness(s, p);
    }
  }

  /** The page sections the links point at, in link order. */
  const SectionIds: seq<string> := ["home", "about", "services", "projects", "contact"]

  const Labels: seq<string> := ["Inicio", "Sobre Nosotros", "Servicios", "Proyectos", "Contacto"]

  datatype NavLink = NavLink(href: string, text: string)

  /** The link table, the same for the mobile and the desktop menus. */
  function NavLinks(projectDetail: bool): (links: seq<NavLink>)
    ensures |links| == |SectionIds| == |Labels|
    ensures forall i :: 0 <= i < |links| ==> links[i].text == Labels[i]
    ensures !projectDetail ==> forall i :: 0 <= i < |links| ==> links[i].href == "#" + SectionIds[i]
    ensures projectDetail ==> links[0].href == "/"
    ensures projectDetail ==> forall i :: 1 <= i < |links| ==> links[i].href == "/#" + SectionIds[i]
  {
    if projectDetail then
      [NavLink("/", "Inicio"), NavLink("/#about", "Sobre Nosotros"), NavLink("/#services", "Servicios"),
       NavLink("/#projects", "Proyectos"), NavLink("/#contact", "Contacto")]
    else
      [NavLink("#home", "Inicio"), NavLink("#about", "Sobre Nosotros"), NavLink("#services", "Servicios"),
       NavLink("#projects", "Proyectos"), NavLink("#contact", "Contacto")]
  }

  /** Off the home page every link but the first is the home page's own
      anchor with the root path in front. */
  lemma DetailLinksLeadHome(i: nat)
    requires 1 <= i < 5
    ensures NavLinks(true)[i].href == "/" + NavLinks(false)[i].href
    ensures NavLinks(true)[i].text == NavLinks(false)[i].text
  {
  }

  class Menu {
    var isMenuOpen: bool
    var scrolled: bool
    /** `document.body.style.overflow` */
    var bodyOverflow: string

    /** The page scroll is locked exactly while the menu is open. The menu's
        own handlers establish this, but the image gallery writes the same
        body style (it locks the page while its lightbox is open and nothing
        restores it on unmount), so the handlers do not rely on it. */
    ghost predicate Valid()
      reads this
    {
      isMenuOpen <==> bodyOverflow == "hidden"
    }

    /** Mounting reads nothing from the body: `overflow` is whatever an
        earlier page left there, `hidden` included. */
    constructor (overflow: string)
      ensures Valid() <==> overflow != "hidden"
      ensures !isMenuOpen && !scrolled && bodyOverflow == overflow
    {
      isMenuOpen, scrolled, bodyOverflow := false, false, overflow;
    }

    /** `toggleMenu`: flips the menu and locks or unlocks the page. */
    method ToggleMenu()
      modifies this
      ensures Valid()
      ensures isMenuOpen == !old(isMenuOpen)
      ensures bodyOverflow == if isMenuOpen then "hidden" else ""
      ensures scrolled == old(scrolled)
    {
      var newMenuState := !isMenuOpen;
      isMenuOpen := newMenuState;
      if newMenuState {
        bodyOverflow := "hidden";
      } else {
        bodyOverflow := "";
      }
    }

    /** `closeMenu`, also what each mobile link and the overlay do: the menu
        ends closed and unlocked whatever it was, so closing is idempotent. */
    method CloseMenu()
      modifies this
      ensures Valid()
      ensures !isMenuOpen && bodyOverflow == ""
      ensures scrolled == old(scrolled)
    {
      isMenuOpen := false;
      bodyOverflow := "";
    }

    /** The scroll listener. */
    method OnScroll(scrollY: real)
      modifies this
      ensures scrolled <==> scrollY > 20.0
      ensures isMenuOpen == old(isMenuOpen) && bodyOverflow == old(bodyOverflow)
    {
      if scrollY > 20.0 {
        scrolled := true;
      } else {
        scrolled := false;
      }
    }

    /** The resize listener: growing to the desktop layout closes an open
        menu; anything else leaves the state alone. */
    method OnResize(innerWidth: int)
      modifies this
      ensures innerWidth >= 1024 && old(isMenuOpen) ==> !isMenuOpen && bodyOverflow == ""
      ensures !(innerWidth >= 1024 && old(isMenuOpen)) ==>
        isMenuOpen == old(isMenuOpen) && bodyOverflow == old(bodyOverflow)
      ensures scrolled == old(scrolled)
    {
      if innerWidth >= 1024 && isMenuOpen {
        CloseMenu();
      }
    }

    /** The hash-change listener: following an anchor closes an open menu. */
    method OnHashChange()
      modifies this
      ensures old(isMenuOpen) ==> !isMenuOpen && bodyOverflow == ""
      ensures !old(isMenuOpen) ==> isMenuOpen == old(isMenuOpen) && bodyOverflow == old(bodyOverflow)
      ensures scrolled == old(scrolled)
    {
      if isMenuOpen {
        CloseMenu();
      }
    }
  }

  /** Opening the menu and following a link leaves it closed with the page
      scrollable again. */
  method OpenThenFollowLink() returns (open: bool, overflow: string)
    ensures !open && overflow == ""
  {
    var menu := new Menu("");
    menu.ToggleMenu();
    assert menu.isMenuOpen;
    menu.OnHashChange();
    open, overflow := menu.isMenuOpen, menu.bodyOverflow;
  }

  /** The bar mounted on a page the lightbox left locked: the menu is closed
      yet the page cannot scroll, a hash change leaves it so, and opening and
      closing the menu is what unlocks it. */
  method MountAfterLightbox() returns (open: bool, afterHash: string, afterToggles: string)
    ensures !open && afterHash == "hidden" && afterToggles == ""
  {
    var menu := new Menu("hidden");
    open := menu.isMenuOpen;
    menu.OnHashChange();
    afterHash := menu.bodyOverflow;
    menu.ToggleMenu();
    menu.ToggleMenu();
    afterToggles := menu.bodyOverflow;
  }
}
