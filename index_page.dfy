/** The home page's scroll-on-arrival rule, src/pages/Index.tsx: which
    section, if any, the page scrolls to for a given `scrollTo` query value,
    path and set of element ids on the page. The 300 ms delay and the smooth
    scrolling itself are not modelled. */
module IndexPage {
  import opened Wrappers

  /** A `scrollTo` value is used when it is truthy and names an element. */
  predicate Usable(scrollTo: Option<string>, ids: set<string>) {
    scrollTo.Some? && scrollTo.value != "" && scrollTo.value in ids
  }

  /** `scrollToSection`'s choice of element. */
  function ScrollTarget(scrollTo: Option<string>, pathname: string, ids: set<string>): (target: Option<string>)
    ensures target.Some? ==> target.value in ids
    ensures Usable(scrollTo, ids) ==> target == scrollTo
    ensures !Usable(scrollTo, ids) && target.Some? ==>
      (pathname == "/servicios" && target.value == "services") || (pathname == "/contacto" && target.value == "contact")
    ensures !Usable(scrollTo, ids) && pathname == "/servicios" && "services" in ids ==> target == Some("services")
    ensures !Usable(scrollTo, ids) && pathname == "/contacto" && "contact" in ids ==> target == Some("contact")
  {
    if scrollTo.Some? && scrollTo.value != "" && scrollTo.value in ids then scrollTo
    else if pathname == "/servicios" then (if "services" in ids then Some("services") else None)
    else if pathname == "/contacto" then (if "contact" in ids then Some("contact") else None)
    else None
  }

  /** A usable query value wins over the path; with none, only the two
      section routes scroll, and every other path stays where it is. */
  lemma QueryBeatsPath(scrollTo: string, pathname: string, ids: set<string>)
    requires scrollTo != "" && scrollTo in ids
    ensures ScrollTarget(Some(scrollTo), pathname, ids) == Some(scrollTo)
    ensures ScrollTarget(Some(scrollTo), "/", ids) == ScrollTarget(Some(scrollTo), "/contacto", ids)
  {
  }

  /** A `scrollTo` naming no element is the same as none at all. */
  lemma MissingTargetFallsBack(scrollTo: Option<string>, pathname: string, ids: set<string>)
    requires scrollTo.Some? ==> scrollTo.value !in ids
    ensures ScrollTarget(scrollTo, pathname, ids) == ScrollTarget(None, pathname, ids)
  {
  }
}
