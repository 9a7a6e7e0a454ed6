/** The REST handlers of server.js that write: create and update a project,
    delete one image or a whole project, and store, mark and delete contact
    messages. The MySQL tables and the upload directory are the fields of one
    `Server` object: three tables of rows in insertion order with their
    AUTO_INCREMENT counters, and the set of file paths present on disk.

    Database failures other than the UNIQUE constraint on `projects.slug` are
    not modelled; an unlink that throws is modelled by the input `failing`,
    the set of paths whose removal fails. */
module ServerStore {
  import opened Wrappers
  import opened Strings
  import opened ProjectSlug
  import opened Upload
  import opened Auth
  import opened Paths

  datatype ProjectRow = ProjectRow(
    id: nat, title: string, slug: string, location: string,
    completionDate: string, description: string)

  datatype ImageRow = ImageRow(id: nat, projectId: nat, url: string)

  datatype MessageRow = MessageRow(
    id: nat, name: string, email: string, phone: string,
    subject: string, message: string, isRead: bool)

  /** A request body field: absent, or the text sent. */
  predicate Truthy(field: Option<string>) {
    field.Some? && field.value != ""
  }

  /** What `[...JSON.parse(req.body.imageUrls)]` makes of a non-empty text: a
      JSON array of strings gives its elements, a JSON string is spread one
      character per element, and anything else throws (malformed JSON in the
      parse; `null`, a number, a boolean or an object in the spread). */
  datatype ImageUrlsText = UrlArray(urls: seq<string>) | UrlString(text: string) | Unspreadable

  /** The body of a create or update request; `imageUrls` is None when the
      field is absent or empty (falsy). */
  datatype ProjectBody = ProjectBody(
    title: Option<string>, location: Option<string>,
    completionDate: Option<string>, description: Option<string>,
    imageUrls: Option<ImageUrlsText>)

  /** The handlers' guard: every one of the four fields was sent non-empty. */
  predicate HasProjectFields(body: ProjectBody)
    ensures HasProjectFields(body) ==>
      body.title.Some? && body.location.Some? && body.completionDate.Some? && body.description.Some?
    ensures body.title == Some("") ==> !HasProjectFields(body)
  {
    Truthy(body.title) && Truthy(body.location) && Truthy(body.completionDate) && Truthy(body.description)
  }

  datatype ContactBody = ContactBody(
    name: Option<string>, email: Option<string>, phone: Option<string>,
    subject: Option<string>, message: Option<string>)

  /** The contact guard: name, email, subject and message were sent
      non-empty; the phone is optional. */
  predicate HasContactFields(body: ContactBody)
    ensures HasContactFields(body) ==>
      body.name.Some? && body.email.Some? && body.subject.Some? && body.message.Some?
    ensures body.message == Some("") ==> !HasContactFields(body)
  {
    Truthy(body.name) && Truthy(body.email) && Truthy(body.subject) && Truthy(body.message)
  }

  /** The project as the handlers answer it. The key names differ between
      routes (`completionDate` in a create's answer, the table's
      `completion_date` with `created_at` and `updated_at` in a GET); this
      record keeps the values only. */
  datatype ProjectJson = ProjectJson(
    id: nat, title: string, slug: string, location: string,
    completionDate: string, description: string, images: seq<string>)

  datatype Reply =
    | ProjectReply(status: int, project: ProjectJson)
    | MessageReply(status: int, message: string)
    | ImageDeletedReply(status: int, imageId: nat)
    | ContactReply(status: int, id: nat)
    | NoReply  // the handler threw before answering
    | ErrorPage(status: int)  // Express's default error handler: an HTML page, no JSON

  const FieldsRequired: string := "All fields are required"
  const ServerError: string := "Server error"

  /** A URL of the shape the server gives its own uploads: `/uploads/` and a
      plain file name. */
  predicate IsUploadUrl(url: string) {
    StartsWith(url, "/uploads/") && Plain(url[9..])
  }

  /** `/uploads/${file.filename}`: the public URL stored for an upload; a
      plain file name gives an upload URL that names it. */
  function UploadUrl(d: Descriptor): (url: string)
    ensures StartsWith(url, "/uploads/") && url[9..] == d.filename
    ensures Plain(d.filename) ==> IsUploadUrl(url)
  {
    var url := "/uploads/" + d.filename;
    assert url[..9] == "/uploads/" && url[9..] == d.filename;
    url
  }

  function UploadUrls(ds: seq<Descriptor>): (urls: seq<string>)
    ensures |urls| == |ds|
    ensures forall i :: 0 <= i < |ds| ==> urls[i] == UploadUrl(ds[i])
  {
    seq(|ds|, i requires 0 <= i < |ds| => UploadUrl(ds[i]))
  }

  /** Spreading a string: one one-character string per character. */
  function Characters(text: string): (cs: seq<string>)
    ensures |cs| == |text|
    ensures forall i :: 0 <= i < |text| ==> cs[i] == [text[i]]
  {
    seq(|text|, i requires 0 <= i < |text| => [text[i]])
  }

  /** The image list a create stores: the uploads' URLs first, then what the
      body's `imageUrls` spreads into; None when parsing or spreading it
      throws. */
  function CreateImageUrls(uploads: seq<Descriptor>, body: ProjectBody): (urls: Option<seq<string>>)
    ensures urls.None? <==> body.imageUrls == Some(Unspreadable)
  {
    match body.imageUrls
    case None => Some(UploadUrls(uploads))
    case Some(UrlArray(more)) => Some(UploadUrls(uploads) + more)
    case Some(UrlString(text)) => Some(UploadUrls(uploads) + Characters(text))
    case Some(Unspreadable) => None
  }

  /** What the stored list holds: the uploads' URLs first, then the parsed
      array, or a parsed string's characters one by one, or nothing. */
  lemma CreateImageUrlsMeaning(uploads: seq<Descriptor>, body: ProjectBody)
    ensures var urls := CreateImageUrls(uploads, body);
      urls.Some? ==> |urls.value| >= |uploads| && urls.value[..|uploads|] == UploadUrls(uploads)
    ensures body.imageUrls.None? ==> CreateImageUrls(uploads, body) == Some(UploadUrls(uploads))
    ensures body.imageUrls.Some? && body.imageUrls.value.UrlArray? ==>
      CreateImageUrls(uploads, body) == Some(UploadUrls(uploads) + body.imageUrls.value.urls)
    ensures body.imageUrls.Some? && body.imageUrls.value.UrlString? ==>
      var urls := CreateImageUrls(uploads, body);
      var text := body.imageUrls.value.text;
      urls.Some? && |urls.value| == |uploads| + |text|
      && forall i :: 0 <= i < |text| ==> urls.value[|uploads| + i] == [text[i]]
  {
    var urls := CreateImageUrls(uploads, body);
    if urls.Some? {
      assert urls.value[..|uploads|] == UploadUrls(uploads);
    }
  }

  /** `path.join(__dirname, 'public', url)`, relative to the server
      directory: an upload URL leads into public/uploads. */
  function DiskPath(url: string): (p: string)
    ensures IsUploadUrl(url) ==> p == "public/uploads/" + url[9..]
  {
    if IsUploadUrl(url) then
      UploadUrlJoins(url);
      JoinPath("public", url)
    else JoinPath("public", url)
  }

  lemma UploadUrlJoins(url: string)
    requires IsUploadUrl(url)
    ensures JoinPath("public", url) == "public/uploads/" + url[9..]
  {
    var name := url[9..];
    assert url == "/" + "uploads" + "/" + name by {
      assert url[..9] == "/uploads/";
      assert url == url[..9] + url[9..];
    }
    JoinPlain("public", "uploads", name);
  }

  /** The file a deletion removes for a stored URL: an upload URL's file,
      and nothing for any other URL. */
  function CleanupPath(url: string): (p: Option<string>)
    ensures p.Some? <==> IsUploadUrl(url)
    ensures p.Some? ==> p.value == DiskPath(url) && p.value == "public/uploads/" + url[9..]
  {
    if IsUploadUrl(url) then Some(DiskPath(url)) else None
  }

  /** The stored URL of an upload leads a deletion back to the very file
      `processImages` wrote (multer's field name, `images`, has no slash). */
  lemma UploadUrlFindsFile(file: UploadedFile, stamp: Stamp)
    requires '/' !in file.fieldname
    ensures IsUploadUrl(UploadUrl(Describe(file, stamp)))
    ensures CleanupPath(UploadUrl(Describe(file, stamp))) == Some(Describe(file, stamp).path)
  {
  }

  /** The rows inserted for `urls` under one project, ids counted from `firstId`. */
  function NewImageRows(projectId: nat, urls: seq<string>, firstId: nat): (rows: seq<ImageRow>)
    ensures |rows| == |urls|
    ensures forall i :: 0 <= i < |rows| ==> rows[i] == ImageRow(firstId + i, projectId, urls[i])
  {
    seq(|urls|, i requires 0 <= i < |urls| => ImageRow(firstId + i, projectId, urls[i]))
  }

  /** `SELECT * FROM project_images WHERE project_id = ?` mapped to
      `img.image_url`, in row order. */
  function UrlsOf(images: seq<ImageRow>, projectId: nat): (urls: seq<string>)
    ensures |urls| <= |images|
  {
    if images == [] then []
    else if images[0].projectId == projectId then [images[0].url] + UrlsOf(images[1..], projectId)
    else UrlsOf(images[1..], projectId)
  }

  /** A URL is among a project's URLs exactly when some row of that project
      holds it. */
  lemma {:induction false} UrlsOfMembers(images: seq<ImageRow>, projectId: nat)
    ensures forall u :: u in UrlsOf(images, projectId) <==>
      exists i :: 0 <= i < |images| && images[i].projectId == projectId && images[i].url == u
  {
    if images != [] {
      UrlsOfMembers(images[1..], projectId);
      forall u | u in UrlsOf(images[1..], projectId)
        ensures exists i :: 1 <= i < |images| && images[i].projectId == projectId && images[i].url == u {
        var j :| 0 <= j < |images[1..]| && images[1..][j].projectId == projectId && images[1..][j].url == u;
        assert images[j + 1] == images[1..][j];
      }
      forall u | exists i :: 1 <= i < |images| && images[i].projectId == projectId && images[i].url == u
        ensures u in UrlsOf(images[1..], projectId) {
        var i :| 1 <= i < |images| && images[i].projectId == projectId && images[i].url == u;
        assert images[1..][i - 1] == images[i];
      }
    }
  }

  lemma {:induction false} UrlsOfAppend(a: seq<ImageRow>, b: seq<ImageRow>, projectId: nat)
    ensures UrlsOf(a + b, projectId) == UrlsOf(a, projectId) + UrlsOf(b, projectId)
  {
    if a == [] {
      assert a + b == b;
    } else {
      assert (a + b)[1..] == a[1..] + b;
      UrlsOfAppend(a[1..], b, projectId);
    }
  }

  lemma {:induction false} UrlsOfNone(images: seq<ImageRow>, projectId: nat)
    requires forall i :: 0 <= i < |images| ==> images[i].projectId != projectId
    ensures UrlsOf(images, projectId) == []
  {
    if images != [] {
      UrlsOfNone(images[1..], projectId);
    }
  }

  lemma {:induction false} UrlsOfNewRows(projectId: nat, urls: seq<string>, firstId: nat)
    ensures UrlsOf(NewImageRows(projectId, urls, firstId), projectId) == urls
  {
    if urls != [] {
      var rows := NewImageRows(projectId, urls, firstId);
      assert rows[1..] == NewImageRows(projectId, urls[1..], firstId + 1);
      UrlsOfNewRows(projectId, urls[1..], firstId + 1);
      assert [urls[0]] + urls[1..] == urls;
    }
  }

  /** Reading back a project's images after inserting rows for a new project
      id gives exactly the inserted list, in order. */
  lemma ReadBackInserted(images: seq<ImageRow>, projectId: nat, urls: seq<string>, firstId: nat)
    requires forall i :: 0 <= i < |images| ==> images[i].projectId != projectId
    ensures UrlsOf(images + NewImageRows(projectId, urls, firstId), projectId) == urls
  {
    UrlsOfAppend(images, NewImageRows(projectId, urls, firstId), projectId);
    UrlsOfNone(images, projectId);
    UrlsOfNewRows(projectId, urls, firstId);
  }

  /** Appending rows for a project adds their URLs after the ones it had. */
  lemma ReadBackAppended(images: seq<ImageRow>, projectId: nat, urls: seq<string>, firstId: nat)
    ensures UrlsOf(images + NewImageRows(projectId, urls, firstId), projectId) == UrlsOf(images, projectId) + urls
  {
    UrlsOfAppend(images, NewImageRows(projectId, urls, firstId), projectId);
    UrlsOfNewRows(projectId, urls, firstId);
  }

  function DiskPaths(urls: seq<string>): (paths: seq<string>)
    ensures |paths| == |urls|
    ensures forall i :: 0 <= i < |urls| ==> paths[i] == DiskPath(urls[i])
  {
    seq(|urls|, i requires 0 <= i < |urls| => DiskPath(urls[i]))
  }

  /** The files a deletion removes for `urls`, in order: those of the
      upload URLs, at most one per URL. */
  function CleanupPaths(urls: seq<string>): (paths: seq<string>)
    ensures |paths| <= |urls|
  {
    if urls == [] then []
    else
      match CleanupPath(urls[0])
      case None => CleanupPaths(urls[1..])
      case Some(p) => [p] + CleanupPaths(urls[1..])
  }

  /** Every file the clean-up removes lies directly in public/uploads and
      comes from one of the URLs, and every upload URL's file is among
      them. */
  lemma {:induction false} CleanupPathsMeaning(urls: seq<string>)
    ensures forall p :: p in CleanupPaths(urls) ==> StartsWith(p, "public/uploads/") && Plain(p[15..])
    ensures forall i :: 0 <= i < |urls| && IsUploadUrl(urls[i]) ==> DiskPath(urls[i]) in CleanupPaths(urls)
    ensures forall p :: p in CleanupPaths(urls) ==> exists i :: 0 <= i < |urls| && CleanupPath(urls[i]) == Some(p)
  {
    if urls != [] {
      var rest := CleanupPaths(urls[1..]);
      CleanupPathsMeaning(urls[1..]);
      forall p | p in rest ensures exists i :: 0 <= i < |urls| && CleanupPath(urls[i]) == Some(p) {
        var i :| 0 <= i < |urls[1..]| && CleanupPath(urls[1..][i]) == Some(p);
        assert CleanupPath(urls[i + 1]) == Some(p);
      }
      forall i | 0 <= i < |urls| && IsUploadUrl(urls[i]) ensures DiskPath(urls[i]) in CleanupPaths(urls) {
        if i > 0 {
          assert urls[1..][i - 1] == urls[i];
        }
      }
      match CleanupPath(urls[0]) {
        case None =>
        case Some(p) =>
          assert p[..15] == "public/uploads/";
      }
    }
  }

  /** As written, a deletion joins each stored URL onto public/ and unlinks
      what that names. A URL a create took from its `imageUrls` may climb
      out: `/../x` names x beside public/ (server.js itself, say), which the
      clean-up then removes, and `/../../x` leaves the application
      directory. */
  lemma StoredUrlEscapes(name: string)
    requires Plain(name)
    ensures DiskPath("/../" + name) == name && !StartsWith(name, "public/")
    ensures DiskPath("/../../" + name) == "../" + name
    ensures Unlinked({name}, DiskPaths(["/../" + name]), {}) == {}
  {
    JoinClimbsOut("public", name);
    JoinClimbsTwice("public", name);
    if |name| >= 7 {
      assert name[..7][6] == name[6] != '/' == "public/"[6];
    }
    assert DiskPaths(["/../" + name]) == [name];
  }

  /** As written, a `.` segment gives an upload's file a second URL, so a
      project storing it removes the other project's file when deleted. */
  lemma DottedUrlSharesFile(name: string)
    requires Plain(name)
    ensures "/uploads/./" + name != "/uploads/" + name
    ensures DiskPath("/uploads/./" + name) == DiskPath("/uploads/" + name)
  {
    JoinSkipsDot("public", "uploads", name);
    JoinPlain("public", "uploads", name);
    assert "/" + "uploads" + "/./" + name == "/uploads/./" + name;
    assert "/" + "uploads" + "/" + name == "/uploads/" + name;
    assert |"/uploads/./" + name| != |"/uploads/" + name|;
  }

  /** The corrected clean-up only ever removes files directly in
      public/uploads: any other file survives a deletion, whatever URLs the
      project holds. */
  lemma CleanupStaysInUploads(disk: set<string>, urls: seq<string>, failing: set<string>)
    ensures forall f :: f in disk && !StartsWith(f, "public/uploads/") ==>
      f in Unlinked(disk, CleanupPaths(urls), failing)
  {
    CleanupPathsMeaning(urls);
  }

  /** The corrected clean-up refuses climbing and dotted URLs, and still finds
      the file of an upload URL. */
  lemma CleanupRefusesTraversal(name: string)
    requires Plain(name)
    ensures CleanupPath("/../" + name) == None
    ensures CleanupPath("/../../" + name) == None
    ensures CleanupPath("/uploads/./" + name) == None
    ensures CleanupPath("/uploads/" + name) == Some("public/uploads/" + name)
  {
    assert ("/../" + name)[1] == '.';
    assert ("/../../" + name)[1] == '.';
    assert ("/uploads/./" + name)[9..] == "./" + name;
    assert '/' in "./" + name by {
      assert ("./" + name)[1] == '/';
    }
    assert ("/uploads/" + name)[..9] == "/uploads/" && ("/uploads/" + name)[9..] == name;
  }

  /** The paths of some descriptors, as a set. */
  lemma PathsCoverDescriptors(ds: seq<Descriptor>)
    ensures (set p | p in PathsOf(ds)) == set d | d in ds :: d.path
  {
    var ps := PathsOf(ds);
    forall p | p in ps ensures p in set d | d in ds :: d.path {
      var j :| 0 <= j < |ps| && ps[j] == p;
      assert ds[j] in ds;
    }
    forall d | d in ds ensures d.path in ps {
      var j :| 0 <= j < |ds| && ds[j] == d;
      assert ps[j] == d.path;
    }
  }

  /** The disk after best-effort removal of `paths`: each one present is gone
      unless its unlink fails; nothing else is touched. */
  function Unlinked(disk: set<string>, paths: seq<string>, failing: set<string>): (after: set<string>)
    ensures after <= disk
    ensures forall p :: p in paths && p !in failing ==> p !in after
    ensures forall p :: p in disk && (p !in paths || p in failing) ==> p in after
  {
    disk - (set p | p in paths && p !in failing)
  }

  /** The clean-up of a single URL: its upload file goes unless the unlink
      fails; a URL that is not an upload's removes nothing. */
  lemma UnlinkedOne(disk: set<string>, url: string, failing: set<string>)
    ensures CleanupPath(url).None? ==> Unlinked(disk, CleanupPaths([url]), failing) == disk
    ensures CleanupPath(url).Some? ==>
      var p := CleanupPath(url).value;
      Unlinked(disk, CleanupPaths([url]), failing) == if p in disk && p !in failing then disk - {p} else disk
  {
    assert [url][1..] == [];
  }

  /** Running the clean-up twice removes nothing more and fails no more. */
  lemma UnlinkedIdempotent(disk: set<string>, paths: seq<string>, failing: set<string>)
    ensures Unlinked(Unlinked(disk, paths, failing), paths, failing) == Unlinked(disk, paths, failing)
  {
  }

  /** The rows of `images` whose id is not `imageId`, in order. */
  function WithoutImageId(images: seq<ImageRow>, imageId: nat): (r: seq<ImageRow>)
    ensures forall x :: x in r <==> x in images && x.id != imageId
    ensures ImageIdsIncreasing(images) ==> ImageIdsIncreasing(r)
  {
    if images == [] then []
    else if images[0].id == imageId then WithoutImageId(images[1..], imageId)
    else
      var rest := WithoutImageId(images[1..], imageId);
      assert forall x :: x in rest ==> x in images[1..];
      [images[0]] + rest
  }

  /** The rows of `images` that do not belong to `projectId`, in order. */
  function WithoutProject(images: seq<ImageRow>, projectId: nat): (r: seq<ImageRow>)
    ensures forall x :: x in r <==> x in images && x.projectId != projectId
    ensures ImageIdsIncreasing(images) ==> ImageIdsIncreasing(r)
  {
    if images == [] then []
    else if images[0].projectId == projectId then WithoutProject(images[1..], projectId)
    else
      var rest := WithoutProject(images[1..], projectId);
      assert forall x :: x in rest ==> x in images[1..];
      [images[0]] + rest
  }

  /** The messages whose id is not `id`, in order. */
  function WithoutMessage(messages: seq<MessageRow>, id: nat): (r: seq<MessageRow>)
    ensures forall x :: x in r <==> x in messages && x.id != id
    ensures MessageIdsIncreasing(messages) ==> MessageIdsIncreasing(r)
  {
    if messages == [] then []
    else if messages[0].id == id then WithoutMessage(messages[1..], id)
    else
      var rest := WithoutMessage(messages[1..], id);
      assert forall x :: x in rest ==> x in messages[1..];
      [messages[0]] + rest
  }

  /** `UPDATE contact_messages SET is_read = 1 WHERE id = ?` */
  function MarkedRead(messages: seq<MessageRow>, id: nat): (r: seq<MessageRow>)
    ensures |r| == |messages|
    ensures forall i :: 0 <= i < |r| ==>
      r[i] == if messages[i].id == id then messages[i].(isRead := true) else messages[i]
  {
    seq(|messages|, i requires 0 <= i < |messages| =>
      if messages[i].id == id then messages[i].(isRead := true) else messages[i])
  }

  predicate ProjectIdsIncreasing(ps: seq<ProjectRow>) {
    forall i, j :: 0 <= i < j < |ps| ==> ps[i].id < ps[j].id
  }

  predicate ImageIdsIncreasing(rows: seq<ImageRow>) {
    forall i, j :: 0 <= i < j < |rows| ==> rows[i].id < rows[j].id
  }

  predicate MessageIdsIncreasing(ms: seq<MessageRow>) {
    forall i, j :: 0 <= i < j < |ms| ==> ms[i].id < ms[j].id
  }

  function ProjectIds(ps: seq<ProjectRow>): set<nat> {
    set p | p in ps :: p.id
  }

  /** The `projects` table: AUTO_INCREMENT ids (positive, increasing, below
      the counter) and the UNIQUE constraint on `slug`. */
  predicate ProjectsOk(ps: seq<ProjectRow>, next: nat) {
    && 0 < next
    && ProjectIdsIncreasing(ps)
    && (forall i :: 0 <= i < |ps| ==> 0 < ps[i].id < next)
    && (forall i, j :: 0 <= i < j < |ps| ==> ps[i].slug != ps[j].slug)
  }

  /** The `project_images` table: AUTO_INCREMENT ids and the foreign key
      into `projects` (`ids` are the project ids present). */
  predicate ImagesOk(rows: seq<ImageRow>, next: nat, ids: set<nat>) {
    && 0 < next
    && ImageIdsIncreasing(rows)
    && (forall i :: 0 <= i < |rows| ==> 0 < rows[i].id < next && rows[i].projectId in ids)
  }

  predicate MessagesOk(ms: seq<MessageRow>, next: nat) {
    && 0 < next
    && MessageIdsIncreasing(ms)
    && (forall i :: 0 <= i < |ms| ==> 0 < ms[i].id < next)
  }

  /** The position of the project row with this id, if any. */
  function ProjectIndex(ps: seq<ProjectRow>, id: nat): (k: Option<nat>)
    ensures k.Some? ==> k.value < |ps| && ps[k.value].id == id
    ensures k.None? ==> forall i :: 0 <= i < |ps| ==> ps[i].id != id
    ensures k.None? <==> id !in ProjectIds(ps)
  {
    if ps == [] then None
    else if ps[0].id == id then Some(0)
    else match ProjectIndex(ps[1..], id)
      case None => None
      case Some(j) => Some(j + 1)
  }

  /** With increasing ids, looking up the id of row k finds row k. */
  lemma ProjectIndexOfRow(ps: seq<ProjectRow>, k: nat)
    requires ProjectIdsIncreasing(ps) && k < |ps|
    ensures ProjectIndex(ps, ps[k].id) == Some(k)
  {
    assert ps[k].id in ProjectIds(ps);
  }

  /** The position of the first image row with this id in this project. */
  function ImageIndex(rows: seq<ImageRow>, imageId: nat, projectId: nat): (k: Option<nat>)
    ensures k.Some? ==> k.value < |rows| && rows[k.value].id == imageId && rows[k.value].projectId == projectId
    ensures k.None? ==> forall i :: 0 <= i < |rows| ==> !(rows[i].id == imageId && rows[i].projectId == projectId)
  {
    if rows == [] then None
    else if rows[0].id == imageId && rows[0].projectId == projectId then Some(0)
    else match ImageIndex(rows[1..], imageId, projectId)
      case None => None
      case Some(j) => Some(j + 1)
  }

  /** Inserting a project under the next id with a fresh slug keeps the table
      well formed and adds exactly that id. */
  lemma AppendProject(ps: seq<ProjectRow>, next: nat, row: ProjectRow)
    requires ProjectsOk(ps, next) && row.id == next
    requires forall i :: 0 <= i < |ps| ==> ps[i].slug != row.slug
    ensures ProjectsOk(ps + [row], next + 1)
    ensures ProjectIds(ps + [row]) == ProjectIds(ps) + {next}
  {
    var qs := ps + [row];
    assert forall i :: 0 <= i < |ps| ==> qs[i] == ps[i];
    assert qs[|ps|] == row;
    forall x | x in ProjectIds(qs) ensures x in ProjectIds(ps) + {next} {
      var p :| p in qs && p.id == x;
      if p != row {
        assert p in ps;
      }
    }
    assert row in qs;
    forall x | x in ProjectIds(ps) ensures x in ProjectIds(qs) {
      var p :| p in ps && p.id == x;
      assert p in qs;
    }
  }

  /** Replacing a row by one with the same id and a slug no other row has
      keeps the table well formed and its ids. */
  lemma ReplaceProject(ps: seq<ProjectRow>, next: nat, k: nat, row: ProjectRow)
    requires ProjectsOk(ps, next) && k < |ps| && row.id == ps[k].id
    requires forall i :: 0 <= i < |ps| && i != k ==> ps[i].slug != row.slug
    ensures ProjectsOk(ps[k := row], next)
    ensures ProjectIds(ps[k := row]) == ProjectIds(ps)
  {
    var qs := ps[k := row];
    forall x | x in ProjectIds(ps) ensures x in ProjectIds(qs) {
      var p :| p in ps && p.id == x;
      var j :| 0 <= j < |ps| && ps[j] == p;
      assert qs[j] in qs && qs[j].id == x;
    }
    forall x | x in ProjectIds(qs) ensures x in ProjectIds(ps) {
      var p :| p in qs && p.id == x;
      var j :| 0 <= j < |qs| && qs[j] == p;
      assert ps[j] in ps && ps[j].id == x;
    }
  }

  /** Deleting row k keeps the table well formed and removes just its id. */
  lemma RemoveProject(ps: seq<ProjectRow>, next: nat, k: nat)
    requires ProjectsOk(ps, next) && k < |ps|
    ensures ProjectsOk(ps[..k] + ps[k + 1..], next)
    ensures ProjectIds(ps[..k] + ps[k + 1..]) == ProjectIds(ps) - {ps[k].id}
  {
    var qs := ps[..k] + ps[k + 1..];
    assert |qs| == |ps| - 1;
    assert forall i :: 0 <= i < k ==> qs[i] == ps[i];
    assert forall i :: k <= i < |qs| ==> qs[i] == ps[i + 1];
    RemovedIds(ps, k, qs);
  }

  lemma RemovedIds(ps: seq<ProjectRow>, k: nat, qs: seq<ProjectRow>)
    requires ProjectIdsIncreasing(ps) && k < |ps| && |qs| == |ps| - 1
    requires forall i :: 0 <= i < k ==> qs[i] == ps[i]
    requires forall i :: k <= i < |qs| ==> qs[i] == ps[i + 1]
    ensures ProjectIds(qs) == ProjectIds(ps) - {ps[k].id}
  {
    forall x | x in ProjectIds(qs) ensures x in ProjectIds(ps) - {ps[k].id} {
      var p :| p in qs && p.id == x;
      var j :| 0 <= j < |qs| && qs[j] == p;
      if j < k {
        assert ps[j] in ps;
      } else {
        assert ps[j + 1] in ps;
      }
    }
    forall x | x in ProjectIds(ps) - {ps[k].id} ensures x in ProjectIds(qs) {
      var p :| p in ps && p.id == x;
      var j :| 0 <= j < |ps| && ps[j] == p;
      if j < k {
        assert qs[j] == p;
      } else {
        assert qs[j - 1] == p;
      }
      assert p in qs;
    }
  }

  /** No image row points at the id the next project will get. */
  lemma FreshProjectHasNoImages(rows: seq<ImageRow>, next: nat, ps: seq<ProjectRow>, nextProject: nat)
    requires ImagesOk(rows, next, ProjectIds(ps)) && ProjectsOk(ps, nextProject)
    ensures forall i :: 0 <= i < |rows| ==> rows[i].projectId != nextProject
  {
    forall i | 0 <= i < |rows| ensures rows[i].projectId != nextProject {
      var p :| p in ps && p.id == rows[i].projectId;
      var j :| 0 <= j < |ps| && ps[j] == p;
    }
  }

  /** Inserting rows for an existing project under the next ids keeps the
      image table well formed, also against a larger set of project ids. */
  lemma AppendImages(rows: seq<ImageRow>, next: nat, ids: set<nat>, newIds: set<nat>,
                     projectId: nat, urls: seq<string>)
    requires ImagesOk(rows, next, ids) && ids <= newIds && projectId in newIds
    ensures ImagesOk(rows + NewImageRows(projectId, urls, next), next + |urls|, newIds)
    ensures urls == [] ==> ImagesOk(rows, next, newIds)
  {
    var added := NewImageRows(projectId, urls, next);
    var qs := rows + added;
    assert forall i :: 0 <= i < |qs| ==> qs[i] == if i < |rows| then rows[i] else added[i - |rows|];
  }

  lemma WithoutImageIdOk(rows: seq<ImageRow>, next: nat, ids: set<nat>, imageId: nat)
    requires ImagesOk(rows, next, ids)
    ensures ImagesOk(WithoutImageId(rows, imageId), next, ids)
  {
    var qs := WithoutImageId(rows, imageId);
    forall i | 0 <= i < |qs| ensures 0 < qs[i].id < next && qs[i].projectId in ids {
      assert qs[i] in rows;
    }
  }

  /** The cascade: dropping a project's image rows leaves a table whose rows
      all point at the remaining projects. */
  lemma WithoutProjectOk(rows: seq<ImageRow>, next: nat, ids: set<nat>, projectId: nat)
    requires ImagesOk(rows, next, ids)
    ensures ImagesOk(WithoutProject(rows, projectId), next, ids - {projectId})
  {
    var qs := WithoutProject(rows, projectId);
    forall i | 0 <= i < |qs| ensures 0 < qs[i].id < next && qs[i].projectId in ids - {projectId} {
      assert qs[i] in rows;
    }
  }

  lemma WithoutMessageOk(ms: seq<MessageRow>, next: nat, id: nat)
    requires MessagesOk(ms, next)
    ensures MessagesOk(WithoutMessage(ms, id), next)
  {
    var qs := WithoutMessage(ms, id);
    forall i | 0 <= i < |qs| ensures 0 < qs[i].id < next {
      assert qs[i] in ms;
    }
  }

  /** A create's two INSERTs keep both tables well formed, and the new
      project's row and images read back. */
  lemma Inserted(ps: seq<ProjectRow>, nextProject: nat, rows: seq<ImageRow>, nextImage: nat,
                 row: ProjectRow, urls: seq<string>)
    requires ProjectsOk(ps, nextProject) && ImagesOk(rows, nextImage, ProjectIds(ps))
    requires row.id == nextProject && !SlugClash(ps, -1, row.slug)
    ensures ProjectsOk(ps + [row], nextProject + 1)
    ensures ImagesOk(rows + NewImageRows(row.id, urls, nextImage), nextImage + |urls|, ProjectIds(ps + [row]))
    ensures ProjectIndex(ps + [row], row.id) == Some(|ps|)
    ensures UrlsOf(rows + NewImageRows(row.id, urls, nextImage), row.id) == urls
  {
    var qs := ps + [row];
    AppendProject(ps, nextProject, row);
    FreshProjectHasNoImages(rows, nextImage, ps, nextProject);
    ReadBackInserted(rows, row.id, urls, nextImage);
    AppendImages(rows, nextImage, ProjectIds(ps), ProjectIds(qs), row.id, urls);
    ProjectIndexOfRow(qs, |ps|);
  }

  function ProjectJsonOf(row: ProjectRow, images: seq<string>): ProjectJson {
    ProjectJson(row.id, row.title, row.slug, row.location, row.completionDate, row.description, images)
  }

  /** The row a create or update writes for a body that has every field: the
      body's values, with the slug derived from the title. */
  function RowOf(id: nat, body: ProjectBody): (row: ProjectRow)
    requires HasProjectFields(body)
    ensures row.id == id && row.title == body.title.value && row.slug == Slug(row.title)
    ensures row.location == body.location.value && row.completionDate == body.completionDate.value
    ensures row.description == body.description.value
  {
    ProjectRow(id, body.title.value, Slug(body.title.value), body.location.value,
               body.completionDate.value, body.description.value)
  }

  /** Some row other than row k already uses the slug: the UNIQUE violation.
      In a table whose slugs are unique, a row never clashes with itself. */
  predicate SlugClash(ps: seq<ProjectRow>, k: int, slug: string)
    ensures (0 <= k < |ps| && slug == ps[k].slug
             && forall i, j :: 0 <= i < j < |ps| ==> ps[i].slug != ps[j].slug) ==> !SlugClash(ps, k, slug)
  {
    exists i :: 0 <= i < |ps| && i != k && ps[i].slug == slug
  }

  /** The two project tables with their AUTO_INCREMENT counters. */
  datatype Tables = Tables(projects: seq<ProjectRow>, images: seq<ImageRow>, nextProjectId: nat, nextImageId: nat)

  predicate TablesOk(t: Tables) {
    ProjectsOk(t.projects, t.nextProjectId) && ImagesOk(t.images, t.nextImageId, ProjectIds(t.projects))
  }

  /** `GET /api/projects/:id`: 404 or the row with its image URLs. */
  function GetProject(t: Tables, id: nat): (reply: Reply)
    ensures reply.MessageReply? <==> id !in ProjectIds(t.projects)
    ensures reply.MessageReply? ==> reply == MessageReply(404, "Proyecto no encontrado")
    ensures reply.ProjectReply? ==>
      && reply.status == 200 && reply.project.id == id && reply.project.images == UrlsOf(t.images, id)
      && exists k :: 0 <= k < |t.projects| && t.projects[k].id == id
                     && reply.project == ProjectJsonOf(t.projects[k], UrlsOf(t.images, id))
    ensures reply.MessageReply? || reply.ProjectReply?
  {
    match ProjectIndex(t.projects, id)
    case None => MessageReply(404, "Proyecto no encontrado")
    case Some(k) => ProjectReply(200, ProjectJsonOf(t.projects[k], UrlsOf(t.images, id)))
  }

  /** The create handler on the tables. A missing field is a 400 and a
      clashing slug makes the project INSERT fail (500); otherwise the
      project row goes in. If the body's `imageUrls` then throws in its
      callback, no image row is written and no answer is sent; otherwise
      the image rows go in and the answer is 201 with the project. */
  function CreateEffect(t: Tables, body: ProjectBody, uploads: seq<Descriptor>): (Reply, Tables) {
    if !HasProjectFields(body) then (MessageReply(400, FieldsRequired), t)
    else
      var row := RowOf(t.nextProjectId, body);
      if SlugClash(t.projects, -1, row.slug) then (MessageReply(500, ServerError), t)
      else
        var stored := t.(projects := t.projects + [row], nextProjectId := t.nextProjectId + 1);
        match CreateImageUrls(uploads, body)
        case None => (NoReply, stored)
        case Some(urls) =>
          (ProjectReply(201, ProjectJsonOf(row, urls)),
           stored.(images := t.images + NewImageRows(row.id, urls, t.nextImageId),
                   nextImageId := t.nextImageId + |urls|))
  }

  /** A create that gets past its checks: the row is stored, the image rows
      of the URL list follow (none when it throws), and the answer is 201
      with the project, or none at all. */
  lemma CreateEffectStores(t: Tables, body: ProjectBody, uploads: seq<Descriptor>)
    requires HasProjectFields(body) && !SlugClash(t.projects, -1, RowOf(t.nextProjectId, body).slug)
    ensures
      var row := RowOf(t.nextProjectId, body);
      var urls := CreateImageUrls(uploads, body);
      var added := urls.GetOr([]);
      && CreateEffect(t, body, uploads).1
         == Tables(t.projects + [row], t.images + NewImageRows(row.id, added, t.nextImageId),
                   t.nextProjectId + 1, t.nextImageId + |added|)
      && CreateEffect(t, body, uploads).0
         == if urls.Some? then ProjectReply(201, ProjectJsonOf(row, urls.value)) else NoReply
  {
    var row := RowOf(t.nextProjectId, body);
    if CreateImageUrls(uploads, body).None? {
      assert NewImageRows(row.id, [], t.nextImageId) == [];
      assert t.images + [] == t.images;
    }
  }

  /** A create keeps both tables well formed and changes them only when it
      inserts. A 201 answer is exactly what a GET of the new id then returns;
      when the URL list throws, the new project is there without images. */
  lemma CreateKeepsTables(t: Tables, body: ProjectBody, uploads: seq<Descriptor>)
    requires TablesOk(t)
    ensures TablesOk(CreateEffect(t, body, uploads).1)
    ensures CreateEffect(t, body, uploads).0.MessageReply? ==> CreateEffect(t, body, uploads).1 == t
    ensures CreateEffect(t, body, uploads).0.ProjectReply? ==>
      var (reply, u) := CreateEffect(t, body, uploads);
      reply.status == 201 && reply.project.id == t.nextProjectId
      && GetProject(u, reply.project.id) == ProjectReply(200, reply.project)
    ensures CreateEffect(t, body, uploads).0 == NoReply ==>
      var u := CreateEffect(t, body, uploads).1;
      && u.images == t.images && |u.projects| == |t.projects| + 1
      && GetProject(u, t.nextProjectId).ProjectReply?
      && GetProject(u, t.nextProjectId).project.images == []
  {
    if HasProjectFields(body) {
      var row := RowOf(t.nextProjectId, body);
      if !SlugClash(t.projects, -1, row.slug) {
        var urls := CreateImageUrls(uploads, body).GetOr([]);
        Inserted(t.projects, t.nextProjectId, t.images, t.nextImageId, row, urls);
        var u := CreateEffect(t, body, uploads).1;
        if CreateImageUrls(uploads, body).None? {
          assert t.images + NewImageRows(row.id, [], t.nextImageId) == t.images;
        }
        assert ProjectIndex(u.projects, row.id) == Some(|t.projects|);
      }
    }
  }

  class Server {
    var projects: seq<ProjectRow>
    var images: seq<ImageRow>
    var messages: seq<MessageRow>
    var disk: set<string>
    var nextProjectId: nat
    var nextImageId: nat
    var nextMessageId: nat

    /** The three tables are well formed and every image row belongs to a
        project. */
    ghost predicate Valid()
      reads this
    {
      && ProjectsOk(projects, nextProjectId)
      && ImagesOk(images, nextImageId, ProjectIds(projects))
      && MessagesOk(messages, nextMessageId)
    }

    /** Empty tables, AUTO_INCREMENT counters at 1, whatever files are on disk. */
    constructor (files: set<string>)
      ensures Valid()
      ensures projects == [] && images == [] && messages == [] && disk == files
      ensures nextProjectId == 1 && nextImageId == 1 && nextMessageId == 1
    {
      projects, images, messages := [], [], [];
      disk := files;
      nextProjectId, nextImageId, nextMessageId := 1, 1, 1;
    }

    /** The project tables as they stand. */
    function Snapshot(): Tables
      reads this
    {
      Tables(projects, images, nextProjectId, nextImageId)
    }

    /** `POST /api/projects` after authentication and `processImages`: the
        tables and the answer are those CreateEffect gives (so, by
        CreateKeepsTables, a 201 answer is what a GET of the new id returns). */
    method CreateProject(body: ProjectBody, uploads: seq<Descriptor>) returns (reply: Reply)
      requires Valid()
      modifies this
      ensures Valid()
      ensures messages == old(messages) && disk == old(disk) && nextMessageId == old(nextMessageId)
      ensures (reply, Snapshot()) == CreateEffect(old(Snapshot()), body, uploads)
    {
      ghost var t := Snapshot();
      if !HasProjectFields(body) {
        return MessageReply(400, FieldsRequired);
      }
      var row := RowOf(nextProjectId, body);
      if SlugClash(projects, -1, row.slug) {
        return MessageReply(500, ServerError);
      }
      var urls := CreateImageUrls(uploads, body);
      CreateEffectStores(t, body, uploads);
      // When the URL list throws, the image INSERT never runs.
      InsertProject(row, urls.GetOr([]));
      reply := if urls.Some? then ProjectReply(201, ProjectJsonOf(row, urls.value)) else NoReply;
    }

    /** The INSERT into `projects` followed by the one multi-row INSERT into
        `project_images` (skipped when there are no URLs). */
    method InsertProject(row: ProjectRow, urls: seq<string>)
      requires Valid() && row.id == nextProjectId && !SlugClash(projects, -1, row.slug)
      modifies this
      ensures Valid()
      ensures messages == old(messages) && disk == old(disk)
      ensures projects == old(projects) + [row]
      ensures images == old(images) + NewImageRows(row.id, urls, old(nextImageId))
      ensures nextProjectId == old(nextProjectId) + 1 && nextImageId == old(nextImageId) + |urls|
      ensures nextMessageId == old(nextMessageId)
    {
      Inserted(projects, nextProjectId, images, nextImageId, row, urls);
      projects, nextProjectId := projects + [row], nextProjectId + 1;
      images, nextImageId := images + NewImageRows(row.id, urls, nextImageId), nextImageId + |urls|;
    }

    /** `PUT /api/projects/:id` after authentication and `processImages`:
        the row is rewritten in place, the new uploads are added after the
        project's existing images, and the answer is what reading the
        project back gives. */
    method UpdateProject(id: nat, body: ProjectBody, uploads: seq<Descriptor>) returns (reply: Reply)
      requires Valid()
      modifies this
      ensures Valid()
      ensures messages == old(messages) && disk == old(disk) && nextProjectId == old(nextProjectId)
      ensures nextMessageId == old(nextMessageId)
      ensures !HasProjectFields(body) ==>
        reply == MessageReply(400, FieldsRequired) && Snapshot() == old(Snapshot())
      ensures HasProjectFields(body) && id !in ProjectIds(old(projects)) ==>
        reply == MessageReply(404, "Project not found") && Snapshot() == old(Snapshot())
      ensures (HasProjectFields(body) && id in ProjectIds(old(projects))
               && SlugClash(old(projects), ProjectIndex(old(projects), id).value, Slug(body.title.value))) ==>
        reply == MessageReply(500, ServerError) && Snapshot() == old(Snapshot())
      ensures (HasProjectFields(body) && id in ProjectIds(old(projects))
               && !SlugClash(old(projects), ProjectIndex(old(projects), id).value, Slug(body.title.value))) ==>
        var k := ProjectIndex(old(projects), id).value;
        && projects == old(projects)[k := RowOf(id, body)]
        && images == old(images) + NewImageRows(id, UploadUrls(uploads), old(nextImageId))
        && nextImageId == old(nextImageId) + |uploads|
        && reply == ProjectReply(200, ProjectJsonOf(RowOf(id, body), UrlsOf(old(images), id) + UploadUrls(uploads)))
        && reply == GetProject(Snapshot(), id)
    {
      if !HasProjectFields(body) {
        return MessageReply(400, FieldsRequired);
      }
      var slug := Slug(body.title.value);
      var found := ProjectIndex(projects, id);
      if found.None? {
        return MessageReply(404, "Project not found");
      }
      var k := found.value;
      if SlugClash(projects, k, slug) {
        return MessageReply(500, ServerError);
      }
      var row := RowOf(id, body);
      var urls := UploadUrls(uploads);
      RewriteProject(k, row, urls);
      reply := ProjectReply(200, ProjectJsonOf(row, UrlsOf(images, id)));
    }

    /** The UPDATE of row k, then the INSERT of the new uploads' rows (skipped
        when there are none). */
    method RewriteProject(k: nat, row: ProjectRow, urls: seq<string>)
      requires Valid() && k < |projects| && row.id == projects[k].id && !SlugClash(projects, k, row.slug)
      modifies this
      ensures Valid()
      ensures messages == old(messages) && disk == old(disk) && nextProjectId == old(nextProjectId)
      ensures projects == old(projects)[k := row]
      ensures images == old(images) + NewImageRows(row.id, urls, old(nextImageId))
      ensures nextImageId == old(nextImageId) + |urls| && nextMessageId == old(nextMessageId)
      ensures ProjectIndex(projects, row.id) == Some(k)
      ensures UrlsOf(images, row.id) == UrlsOf(old(images), row.id) + urls
    {
      var id := row.id;
      var newProjects := projects[k := row];
      var added := NewImageRows(id, urls, nextImageId);
      ReplaceProject(projects, nextProjectId, k, row);
      ReadBackAppended(images, id, urls, nextImageId);
      AppendImages(images, nextImageId, ProjectIds(projects), ProjectIds(newProjects), id, urls);
      ProjectIndexOfRow(newProjects, k);
      if |urls| == 0 {
        assert images + added == images;
      }
      projects := newProjects;
      images, nextImageId := images + added, nextImageId + |urls|;
    }

    /** `DELETE /api/projects/:projectId/images/:imageId`: 404 unless a row
        matches both ids; otherwise its file is removed if present (an unlink
        that fails is only logged) and the row is deleted regardless. The
        file is found with CleanupPath, so a URL that is not an upload's
        removes nothing. */
    method DeleteImage(projectId: nat, imageId: nat, failing: set<string>) returns (reply: Reply)
      requires Valid()
      modifies this
      ensures Valid()
      ensures projects == old(projects) && messages == old(messages)
      ensures nextProjectId == old(nextProjectId) && nextImageId == old(nextImageId)
      ensures nextMessageId == old(nextMessageId)
      ensures ImageIndex(old(images), imageId, projectId).None? ==>
        reply == MessageReply(404, "Image not found") && images == old(images) && disk == old(disk)
      ensures ImageIndex(old(images), imageId, projectId).Some? ==>
        var row := old(images)[ImageIndex(old(images), imageId, projectId).value];
        && reply == ImageDeletedReply(200, imageId)
        && images == WithoutImageId(old(images), imageId)
        && disk == Unlinked(old(disk), CleanupPaths([row.url]), failing)
    {
      var found := ImageIndex(images, imageId, projectId);
      if found.None? {
        return MessageReply(404, "Image not found");
      }
      var row := images[found.value];
      UnlinkedOne(disk, row.url, failing);
      match CleanupPath(row.url) {
        case None =>
        case Some(path) =>
          if path in disk && path !in failing {
            disk := disk - {path};
          }
      }
      WithoutImageIdOk(images, nextImageId, ProjectIds(projects), imageId);
      images := WithoutImageId(images, imageId);
      reply := ImageDeletedReply(200, imageId);
    }

    /** The clean-up loop of the project deletion: each path present is
        removed unless its unlink fails. */
    method UnlinkAll(paths: seq<string>, failing: set<string>)
      modifies this
      ensures disk == Unlinked(old(disk), paths, failing)
      ensures projects == old(projects) && images == old(images) && messages == old(messages)
      ensures nextProjectId == old(nextProjectId) && nextImageId == old(nextImageId)
      ensures nextMessageId == old(nextMessageId)
    {
      var i := 0;
      while i < |paths|
        invariant 0 <= i <= |paths|
        invariant disk == Unlinked(old(disk), paths[..i], failing)
        invariant projects == old(projects) && images == old(images) && messages == old(messages)
        invariant nextProjectId == old(nextProjectId) && nextImageId == old(nextImageId)
        invariant nextMessageId == old(nextMessageId)
      {
        var path := paths[i];
        if path in disk && path !in failing {
          disk := disk - {path};
        }
        assert paths[..i + 1] == paths[..i] + [path];
        i := i + 1;
      }
      assert paths[..i] == paths;
    }

    /** `DELETE /api/projects/:id`: each image file of the project is removed
        if present (failures only logged; a failed image lookup skips the
        clean-up), then the project row is deleted and its image rows go with
        it (ON DELETE CASCADE). The files are found with CleanupPaths. */
    method DeleteProject(projectId: nat, lookupFails: bool, failing: set<string>) returns (reply: Reply)
      requires Valid()
      modifies this
      ensures Valid()
      ensures messages == old(messages)
      ensures nextProjectId == old(nextProjectId) && nextImageId == old(nextImageId)
      ensures nextMessageId == old(nextMessageId)
      ensures lookupFails ==> disk == old(disk)
      ensures !lookupFails ==> disk == Unlinked(old(disk), CleanupPaths(UrlsOf(old(images), projectId)), failing)
      ensures projectId !in ProjectIds(old(projects)) ==>
        reply == MessageReply(404, "Project not found") && projects == old(projects) && images == old(images)
      ensures projectId in ProjectIds(old(projects)) ==>
        var k := ProjectIndex(old(projects), projectId).value;
        && reply == MessageReply(200, "Project deleted successfully")
        && projects == old(projects)[..k] + old(projects)[k + 1..]
        && images == WithoutProject(old(images), projectId)
    {
      ghost var t, ms := Snapshot(), messages;
      if !lookupFails {
        UnlinkAll(CleanupPaths(UrlsOf(images, projectId)), failing);
      }
      assert Snapshot() == t && messages == ms;
      reply := DeleteProjectRow(projectId);
    }

    /** The `DELETE FROM projects` that ends the project deletion, with its
        ON DELETE CASCADE on the image rows. */
    method DeleteProjectRow(projectId: nat) returns (reply: Reply)
      requires Valid()
      modifies this
      ensures Valid()
      ensures messages == old(messages) && disk == old(disk)
      ensures nextProjectId == old(nextProjectId) && nextImageId == old(nextImageId)
      ensures nextMessageId == old(nextMessageId)
      ensures projectId !in ProjectIds(old(projects)) ==>
        reply == MessageReply(404, "Project not found") && projects == old(projects) && images == old(images)
      ensures projectId in ProjectIds(old(projects)) ==>
        var k := ProjectIndex(old(projects), projectId).value;
        && reply == MessageReply(200, "Project deleted successfully")
        && projects == old(projects)[..k] + old(projects)[k + 1..]
        && images == WithoutProject(old(images), projectId)
    {
      var found := ProjectIndex(projects, projectId);
      if found.None? {
        return MessageReply(404, "Project not found");
      }
      var k := found.value;
      RemoveProject(projects, nextProjectId, k);
      WithoutProjectOk(images, nextImageId, ProjectIds(projects), projectId);
      projects := projects[..k] + projects[k + 1..];
      images := WithoutProject(images, projectId);
      reply := MessageReply(200, "Project deleted successfully");
    }

    /** `POST /api/contact`: 400 without name, email, subject and message; a
        missing phone is stored as the empty string. */
    method SubmitContact(body: ContactBody) returns (reply: Reply)
      requires Valid()
      modifies this
      ensures Valid()
      ensures projects == old(projects) && images == old(images) && disk == old(disk)
      ensures nextProjectId == old(nextProjectId) && nextImageId == old(nextImageId)
      ensures !HasContactFields(body) ==>
        reply == MessageReply(400, "Name, email, subject, and message are required")
        && messages == old(messages) && nextMessageId == old(nextMessageId)
      ensures HasContactFields(body) ==>
        && reply == ContactReply(201, old(nextMessageId))
        && nextMessageId == old(nextMessageId) + 1
        && messages == old(messages) + [MessageRow(old(nextMessageId), body.name.value, body.email.value,
             if Truthy(body.phone) then body.phone.value else "",
             body.subject.value, body.message.value, false)]
    {
      if !HasContactFields(body) {
        return MessageReply(400, "Name, email, subject, and message are required");
      }
      var phone := if Truthy(body.phone) then body.phone.value else "";
      var row := MessageRow(nextMessageId, body.name.value, body.email.value, phone,
                            body.subject.value, body.message.value, false);
      var ms := messages + [row];
      assert forall i :: 0 <= i < |ms| ==> ms[i] == if i < |messages| then messages[i] else row;
      messages := ms;
      reply := ContactReply(201, nextMessageId);
      nextMessageId := nextMessageId + 1;
    }

    /** `PUT /api/contact/:id/read` */
    method MarkMessageRead(id: nat) returns (reply: Reply)
      requires Valid()
      modifies this
      ensures Valid()
      ensures projects == old(projects) && images == old(images) && disk == old(disk)
      ensures nextProjectId == old(nextProjectId) && nextImageId == old(nextImageId)
      ensures nextMessageId == old(nextMessageId)
      ensures messages == MarkedRead(old(messages), id)
      ensures reply == if exists i :: 0 <= i < |old(messages)| && old(messages)[i].id == id
                       then MessageReply(200, "Message marked as read")
                       else MessageReply(404, "Message not found")
    {
      var present := exists i :: 0 <= i < |messages| && messages[i].id == id;
      messages := MarkedRead(messages, id);
      reply := if present then MessageReply(200, "Message marked as read")
               else MessageReply(404, "Message not found");
    }

    /** `DELETE /api/contact/:id` */
    method DeleteMessage(id: nat) returns (reply: Reply)
      requires Valid()
      modifies this
      ensures Valid()
      ensures projects == old(projects) && images == old(images) && disk == old(disk)
      ensures nextProjectId == old(nextProjectId) && nextImageId == old(nextImageId)
      ensures nextMessageId == old(nextMessageId)
      ensures messages == WithoutMessage(old(messages), id)
      ensures reply == if exists i :: 0 <= i < |old(messages)| && old(messages)[i].id == id
                       then MessageReply(200, "Contact message deleted successfully")
                       else MessageReply(404, "Message not found")
    {
      var present := exists i :: 0 <= i < |messages| && messages[i].id == id;
      WithoutMessageOk(messages, nextMessageId, id);
      messages := WithoutMessage(messages, id);
      reply := if present then MessageReply(200, "Contact message deleted successfully")
               else MessageReply(404, "Message not found");
    }

    /** The `processImages` middleware's effect on the upload directory. */
    method ProcessUploads(files: seq<UploadedFile>, stamps: seq<Stamp>, encoded: seq<bool>)
      returns (outcome: ProcessOutcome)
      requires Valid()
      requires |stamps| == |files| && |encoded| == |files|
      modifies this
      ensures Valid()
      ensures projects == old(projects) && images == old(images) && messages == old(messages)
      ensures nextProjectId == old(nextProjectId) && nextImageId == old(nextImageId)
      ensures nextMessageId == old(nextMessageId)
      ensures outcome.PassThrough? <==> files == []
      ensures outcome.PassThrough? ==> disk == old(disk)
      ensures outcome.Processed? <==> files != [] && FirstFailure(encoded) == |files|
      ensures outcome.Processed? ==> outcome.files == DescribeAll(files, stamps)
      ensures outcome.Processed? ==> disk == old(disk) + set d | d in outcome.files :: d.path
      ensures outcome.Failed? ==> outcome == Failed(500, ProcessErrorMessage)
      ensures outcome.Failed? ==>
        disk == old(disk) + set p | p in PathsOf(DescribeAll(files, stamps)[..FirstFailure(encoded)])
    {
      var written: seq<string>;
      outcome, written := ProcessImages(files, stamps, encoded);
      if outcome.Processed? {
        PathsCoverDescriptors(outcome.files);
      }
      if outcome.PassThrough? {
        assert (set p | p in written) == {};
      }
      disk := disk + set p | p in written;
    }

    /** The whole `POST /api/projects` route: authenticateToken, multer with
        `upload.array('images', 10)`, processImages, then the handler. A file
        multer stops (under another field, an eleventh one, or not an image)
        is an error passed to Express, whose default handler answers with a
        500 error page.
        A failed conversion answers 500 and leaves the files converted before
        it on disk. Otherwise every file is on disk and the handler runs as
        CreateEffect says, with the descriptors (none without files); even
        when it then answers 400, the converted files stay. */
    method PostProject(header: Option<string>, isValid: string -> bool,
                       files: seq<UploadedFile>, stamps: seq<Stamp>, encoded: seq<bool>,
                       body: ProjectBody)
      returns (reply: Reply)
      requires Valid()
      requires |stamps| == |files| && |encoded| == |files|
      modifies this
      ensures Valid()
      ensures messages == old(messages) && nextMessageId == old(nextMessageId)
      ensures !Authenticate(header, isValid).Authorized? ==>
        reply.MessageReply? && reply.status in {401, 403}
        && Snapshot() == old(Snapshot()) && disk == old(disk)
      ensures Authenticate(header, isValid).Authorized? && IntakeFiles(files).Rejected? ==>
        reply == ErrorPage(500) && Snapshot() == old(Snapshot()) && disk == old(disk)
      ensures (Authenticate(header, isValid).Authorized? && IntakeFiles(files).Admitted?
               && FirstFailure(encoded) < |files|) ==>
        reply == MessageReply(500, ProcessErrorMessage)
        && Snapshot() == old(Snapshot())
        && disk == old(disk) + set p | p in PathsOf(DescribeAll(files, stamps)[..FirstFailure(encoded)])
      ensures (Authenticate(header, isValid).Authorized? && IntakeFiles(files).Admitted?
               && FirstFailure(encoded) == |files|) ==>
        && (reply, Snapshot()) == CreateEffect(old(Snapshot()), body, DescribeAll(files, stamps))
        && disk == old(disk) + set d | d in DescribeAll(files, stamps) :: d.path
    {
      match Authenticate(header, isValid) {
        case Unauthorized(status, message) => return MessageReply(status, message);
        case Forbidden(status, message) => return MessageReply(status, message);
        case Authorized(_) =>
      }
      if IntakeFiles(files).Rejected? {
        return ErrorPage(500);
      }
      var outcome := ProcessUploads(files, stamps, encoded);
      if outcome.Failed? {
        return MessageReply(outcome.status, outcome.message);
      }
      var uploads := if outcome.Processed? then outcome.files else [];
      assert uploads == DescribeAll(files, stamps);
      assert Snapshot() == old(Snapshot());
      reply := CreateProject(body, uploads);
    }
  }
}
