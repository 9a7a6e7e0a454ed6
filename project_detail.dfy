/** A project's page, src/pages/ProjectDetailPage.tsx: the effect that
    redirects the English route to the Spanish one or loads the project by
    its slug, and which of the three views the state selects. The fetch's
    outcome is an input. */
module ProjectDetail {
  import opened Wrappers
  import opened Strings
  import Api

  const LoadError: string := "No se pudo cargar el proyecto"

  /** What the effect does for a path and route slug. */
  datatype Action = Redirect(to: string) | Fetch(slug: string) | Nothing

  /** The slug from the route, when it is truthy. */
  predicate HasSlug(slug: Option<string>) {
    slug.Some? && slug.value != ""
  }

  /** The effect's decision: an English path with a slug is replaced by the
      Spanish one; otherwise a slug is fetched; without one nothing happens. */
  function Decide(path: string, slug: Option<string>): (a: Action)
    ensures a.Redirect? <==> StartsWith(path, "/projects/") && HasSlug(slug)
    ensures a.Redirect? ==> a.to == "/proyectos/" + slug.value
    ensures a.Fetch? <==> !StartsWith(path, "/projects/") && HasSlug(slug)
    ensures a.Fetch? ==> a.slug == slug.value
    ensures a.Nothing? <==> !HasSlug(slug)
  {
    if StartsWith(path, "/projects/") && HasSlug(slug) then Redirect("/proyectos/" + slug.value)
    else if !HasSlug(slug) then Nothing
    else Fetch(slug.value)
  }

  /** The page a redirect leads to fetches the same slug: redirecting never
      loops. */
  lemma RedirectThenFetch(slug: string)
    requires slug != ""
    ensures Decide("/projects/" + slug, Some(slug)) == Redirect("/proyectos/" + slug)
    ensures Decide("/proyectos/" + slug, Some(slug)) == Fetch(slug)
  {
    assert ("/projects/" + slug)[..|"/projects/"|] == "/projects/";
    assert ("/proyectos/" + slug)[4] != "/projects/"[4];
  }

  datatype View = Loading | NotFound | Detail(project: Api.Project)

  class Page {
    var project: Option<Api.Project>
    var loading: bool
    var error: Option<string>
    var selectedImage: Option<string>

    /** The first render. */
    constructor ()
      ensures project.None? && loading && error.None? && selectedImage.None?
    {
      project, loading, error, selectedImage := None, true, None, None;
    }

    /** Which view renders: the spinner while loading, the not-found page
        after an error or without a project, and the project otherwise. */
    function CurrentView(): (v: View)
      reads this
      ensures loading ==> v == Loading
      ensures !loading && (error.Some? || project.None?) ==> v == NotFound
      ensures v.Detail? <==> !loading && error.None? && project.Some?
      ensures v.Detail? ==> v.project == project.value
    {
      if loading then Loading
      else if error.Some? || project.None? then NotFound
      else Detail(project.value)
    }

    /** The effect, run for `path` and the route's `slug`; `fetched` is what
        the request by slug returns when one is made (none when it throws). */
    method Effect(path: string, slug: Option<string>, fetched: Option<Api.Project>) returns (action: Action)
      modifies this
      ensures action == Decide(path, slug)
      ensures !action.Fetch? ==>
        && project == old(project) && loading == old(loading)
        && error == old(error) && selectedImage == old(selectedImage)
      ensures action.Fetch? ==> !loading
      ensures action.Fetch? && fetched.Some? ==>
        && project == fetched && error.None?
        && selectedImage == (if |fetched.value.images| > 0 then Some(fetched.value.images[0]) else None)
      ensures action.Fetch? && fetched.None? ==>
        && error == Some(LoadError) && project == old(project) && selectedImage == old(selectedImage)
    {
      action := Decide(path, slug);
      if !action.Fetch? {
        return;
      }
      loading := true;
      if fetched.Some? {
        var data := fetched.value;
        project := Some(data);
        selectedImage := if |data.images| > 0 then Some(data.images[0]) else None;
        error := None;
      } else {
        error := Some(LoadError);
      }
      loading := false;
    }
  }

  /** A route without a slug never leaves the spinner, since the fetch
      returns before the step that clears `loading`. */
  method NoSlugSpinsForever(path: string) returns (v: View)
    ensures v == Loading
  {
    var page := new Page();
    var _ := page.Effect(path, None, None);
    v := page.CurrentView();
  }

  /** A failed first load shows the not-found page, and a successful one
      the project, opened on its first image. */
  method FirstLoad(slug: string, fetched: Option<Api.Project>) returns (v: View, first: Option<string>)
    requires slug != ""
    ensures fetched.None? ==> v == NotFound
    ensures fetched.Some? ==> v == Detail(fetched.value)
    ensures fetched.Some? && |fetched.value.images| > 0 ==> first == Some(fetched.value.images[0])
  {
    var page := new Page();
    RedirectThenFetch(slug);
    var _ := page.Effect("/proyectos/" + slug, Some(slug), fetched);
    v := page.CurrentView();
    first := page.selectedImage;
  }
}
