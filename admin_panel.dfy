/** The admin page's project list, src/pages/AdminPanel.tsx: the handlers
    that add, edit and delete projects and delete one image of the project
    being edited, each after its API call. Every API outcome is an input; a
    failure only raises a toast, which is not modelled. */
module AdminPanel {
  import opened Wrappers
  import opened Strings
  import opened Lists
  import Api
  import ServerStore
  import opened ProjectForm

  type Project = Api.Project

  /** `projects.map(p => p.id === id ? updated : p)` */
  function ReplaceById(ps: seq<Project>, id: nat, updated: Project): (r: seq<Project>)
    ensures |r| == |ps|
    ensures forall i :: 0 <= i < |ps| ==> r[i] == (if ps[i].id == id then updated else ps[i])
  {
    seq(|ps|, i requires 0 <= i < |ps| => if ps[i].id == id then updated else ps[i])
  }

  /** `projects.map(p => p.id === id ? { ...p, images } : p)` */
  function ReplaceImagesById(ps: seq<Project>, id: nat, images: seq<string>): (r: seq<Project>)
    ensures |r| == |ps|
    ensures forall i :: 0 <= i < |ps| ==> r[i] == (if ps[i].id == id then ps[i].(images := images) else ps[i])
  {
    seq(|ps|, i requires 0 <= i < |ps| => if ps[i].id == id then ps[i].(images := images) else ps[i])
  }

  /** `projects.filter(project => project.id !== id)` */
  function RemoveById(ps: seq<Project>, id: nat): (r: seq<Project>)
    ensures |r| <= |ps|
    ensures forall p :: p in r <==> p in ps && p.id != id
  {
    Filter(ps, (p: Project) => p.id != id)
  }

  /** Deleting a project keeps the others in order, removes every entry
      with that id, and deleting again changes nothing. */
  lemma RemoveByIdOrdered(a: seq<Project>, b: seq<Project>, id: nat)
    ensures RemoveById(a + b, id) == RemoveById(a, id) + RemoveById(b, id)
    ensures RemoveById(RemoveById(a, id), id) == RemoveById(a, id)
  {
    FilterAppend(a, b, (p: Project) => p.id != id);
    FilterIdempotent(a, (p: Project) => p.id != id);
  }

  // ----- looking up the database id of an image (as written) -----

  /** `list.findIndex(img => img === url)`: the first position, or -1. */
  function FindIndex(list: seq<string>, url: string): (k: int)
    ensures -1 <= k < |list|
    ensures k >= 0 ==> list[k] == url && forall j :: 0 <= j < k ==> list[j] != url
    ensures k == -1 <==> url !in list
  {
    if list == [] then -1
    else if list[0] == url then 0
    else
      var k := FindIndex(list[1..], url);
      if k == -1 then -1 else k + 1
  }

  /** `projectImages.findIndex(img => img === imageUrl) + 1`, the id the
      panel sends, computed from the project's image list exactly as the
      server's GET answers it. */
  function AsWrittenImageId(fetched: seq<string>, imageUrl: string): (id: nat)
    ensures id <= |fetched|
    ensures id == 0 <==> imageUrl !in fetched
    ensures id > 0 ==> fetched[id - 1] == imageUrl
  {
    FindIndex(fetched, imageUrl) + 1
  }

  /** The editor shows normalised URLs, but the server answers the stored
      ones, which for every upload are relative: no uploaded image is ever
      found, the id is 0, and nothing is deleted. */
  lemma UploadedImagesNeverFound(rows: seq<ServerStore.ImageRow>, projectId: nat, k: nat)
    requires k < |ServerStore.UrlsOf(rows, projectId)|
    requires forall u :: u in ServerStore.UrlsOf(rows, projectId) ==> !StartsWith(u, "http")
    ensures AsWrittenImageId(ServerStore.UrlsOf(rows, projectId),
                             Api.NormalizeImageUrl(ServerStore.UrlsOf(rows, projectId)[k])) == 0
  {
    var fetched := ServerStore.UrlsOf(rows, projectId);
    var shown := Api.NormalizeImageUrl(fetched[k]);
    assert StartsWith(shown, "http");
  }

  /** Even when a URL is found, its position plus one is not its row id:
      with rows 2 and 3 holding a project's two images, asking to delete the
      second one sends id 2, and the server deletes the first one. */
  lemma PositionIsNotRowId()
    ensures var rows := [ServerStore.ImageRow(2, 1, "http://a.example/x.jpg"),
                         ServerStore.ImageRow(3, 1, "http://a.example/y.jpg")];
            var id := AsWrittenImageId(ServerStore.UrlsOf(rows, 1), "http://a.example/y.jpg");
            && id == 2
            && ServerStore.WithoutImageId(rows, id) == [rows[1]]
  {
    var rows := [ServerStore.ImageRow(2, 1, "http://a.example/x.jpg"),
                 ServerStore.ImageRow(3, 1, "http://a.example/y.jpg")];
    assert rows[1..][1..] == [];
    assert ServerStore.UrlsOf(rows, 1) == ["http://a.example/x.jpg", "http://a.example/y.jpg"];
    assert "http://a.example/x.jpg"[7] != "http://a.example/y.jpg"[7] || "http://a.example/x.jpg"[17] != "http://a.example/y.jpg"[17];
    assert ServerStore.WithoutImageId(rows, 2) == [rows[1]];
  }

  /** As written, `handleDeleteImage` catches every error, so the promise the
      form awaits always resolves, even when no id was found and nothing was
      sent. Removing an uploaded image of a project loaded from the server
      therefore sends no request, yet the form drops the image from its list
      while its row stays in the database. */
  method UploadedImageDroppedAnyway(p: Project, rows: seq<ServerStore.ImageRow>, k: nat)
    returns (sentId: nat, call: Option<(string, int)>, before: seq<string>, after: seq<string>)
    requires forall u :: u in ServerStore.UrlsOf(rows, p.id) ==> !StartsWith(u, "http")
    requires p.images == Api.NormalizeImages(Some(ServerStore.UrlsOf(rows, p.id)))
    requires k < |p.images|
    ensures sentId == 0
    ensures before == p.images && after == RemoveAt(before, k) && |after| == |before| - 1
    ensures call == Some((p.images[k], k))
  {
    var form := new Form(true, Some(p), true);
    before := form.images;
    var fetched := ServerStore.UrlsOf(rows, p.id);
    UploadedImagesNeverFound(rows, p.id, k);
    sentId := AsWrittenImageId(fetched, form.images[k]);
    call := form.RemoveImage(k, true);
    after := form.images;
  }

  // ----- looking up the database id of an image (corrected) -----

  /** The id of the first of the project's image rows whose URL, normalised
      the way the editor shows it, is the clicked URL. */
  function ImageIdFor(rows: seq<ServerStore.ImageRow>, imageUrl: string): (id: Option<nat>)
    ensures id.Some? <==> exists i :: 0 <= i < |rows| && Api.NormalizeImageUrl(rows[i].url) == imageUrl
    ensures id.Some? ==> exists i :: 0 <= i < |rows| && rows[i].id == id.value
                          && Api.NormalizeImageUrl(rows[i].url) == imageUrl
  {
    if rows == [] then None
    else if Api.NormalizeImageUrl(rows[0].url) == imageUrl then Some(rows[0].id)
    else
      var rest := ImageIdFor(rows[1..], imageUrl);
      assert forall i :: 0 <= i < |rows[1..]| ==> rows[1..][i] == rows[i + 1];
      rest
  }

  /** Every image the editor shows, upload or external, is found, and the
      id found is the row of an image shown under that very URL. */
  lemma ShownImagesFound(rows: seq<ServerStore.ImageRow>, projectId: nat, k: nat)
    requires forall i :: 0 <= i < |rows| ==> rows[i].projectId == projectId
    requires k < |rows|
    ensures ImageIdFor(rows, Api.NormalizeImageUrl(rows[k].url)).Some?
    ensures var id := ImageIdFor(rows, Api.NormalizeImageUrl(rows[k].url)).value;
            exists i :: 0 <= i < |rows| && rows[i].id == id && rows[i].projectId == projectId
              && Api.NormalizeImageUrl(rows[i].url) == Api.NormalizeImageUrl(rows[k].url)
  {
  }

  /** `!project.id`: a missing id and id 0 both stop the edit. */
  predicate HasId(s: Submission) {
    s.id.Some? && s.id.value != 0
  }

  class Panel {
    var projects: seq<Project>
    var selectedProject: Option<Project>

    constructor (loaded: seq<Project>)
      ensures projects == loaded && selectedProject.None?
    {
      projects := loaded;
      selectedProject := None;
    }

    /** `handleAddProject`: the created project goes at the end. */
    method HandleAddProject(created: Result<Project, string>)
      modifies this
      ensures created.Success? ==> projects == old(projects) + [created.value]
      ensures created.Failure? ==> projects == old(projects)
      ensures selectedProject == old(selectedProject)
    {
      if created.Success? {
        projects := projects + [created.value];
      }
    }

    /** `handleEditProject(project, files)` with what the form submits:
        without an id nothing is sent and nothing changes. Otherwise the id,
        the draft and the files are sent, and on success every entry with
        that id is replaced and the editor closes. */
    method HandleEditProject(edited: Submission, updated: Result<Project, string>)
      returns (sent: Option<Submission>)
      modifies this
      ensures !HasId(edited) ==>
        sent.None? && projects == old(projects) && selectedProject == old(selectedProject)
      ensures HasId(edited) ==> sent == Some(edited)
      ensures HasId(edited) && updated.Success? ==>
        projects == ReplaceById(old(projects), edited.id.value, updated.value) && selectedProject.None?
      ensures HasId(edited) && updated.Failure? ==>
        projects == old(projects) && selectedProject == old(selectedProject)
    {
      if !HasId(edited) {
        return None;
      }
      sent := Some(edited);
      if updated.Success? {
        projects := ReplaceById(projects, edited.id.value, updated.value);
        selectedProject := None;
      }
    }

    /** `handleDeleteProject` */
    method HandleDeleteProject(id: nat, deleted: bool)
      modifies this
      ensures deleted ==> projects == RemoveById(old(projects), id)
      ensures !deleted ==> projects == old(projects)
      ensures selectedProject == old(selectedProject)
    {
      if deleted {
        projects := RemoveById(projects, id);
      }
    }

    /** `handleDeleteImage(imageUrl, imageIndex)` with the corrected lookup:
        `rows` are the edited project's image rows as fetched (none when the
        fetch fails). When the image is found and its deletion succeeds, the
        editor's list loses position `imageIndex` and the same list replaces
        that project's images in `projects`. */
    method HandleDeleteImage(imageUrl: string, imageIndex: int,
                             rows: Option<seq<ServerStore.ImageRow>>, deleted: bool)
      returns (request: Option<(nat, nat)>)
      modifies this
      ensures old(selectedProject).None? || rows.None? || ImageIdFor(rows.value, imageUrl).None? ==>
        request.None? && projects == old(projects) && selectedProject == old(selectedProject)
      ensures old(selectedProject).Some? && rows.Some? && ImageIdFor(rows.value, imageUrl).Some? ==>
        request == Some((old(selectedProject).value.id, ImageIdFor(rows.value, imageUrl).value))
      ensures request.Some? && !deleted ==>
        projects == old(projects) && selectedProject == old(selectedProject)
      ensures request.Some? && deleted ==>
        var sel := old(selectedProject).value;
        var images := SpliceOne(sel.images, imageIndex);
        && selectedProject == Some(sel.(images := images))
        && projects == ReplaceImagesById(old(projects), sel.id, images)
    {
      if selectedProject.None? || rows.None? {
        return None;
      }
      var sel := selectedProject.value;
      var imageId := ImageIdFor(rows.value, imageUrl);
      if imageId.None? {
        return None;
      }
      request := Some((sel.id, imageId.value));
      if deleted {
        var images := SpliceOne(sel.images, imageIndex);
        selectedProject := Some(sel.(images := images));
        projects := ReplaceImagesById(projects, sel.id, images);
      }
    }
  }
}
