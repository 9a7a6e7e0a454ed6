/** The client's API layer, src/services/api.ts: it normalises image URLs
    against the server origin, maps the server's project records to the
    client's `Project`, keeps the admin session in sessionStorage, adds the
    bearer header to authenticated requests and assembles the multipart
    bodies of create and update. The network is not modelled: each response
    is an input. */
module Api {
  import opened Wrappers
  import opened Strings

  const ServerUrl: string := "http://localhost:3000"
  const ApiUrl: string := "http://localhost:3000/api"

  /** `img.startsWith('http') ? img : `${SERVER_URL}${img}``: absolute URLs
      are kept, any other URL gets the server origin in front. */
  function NormalizeImageUrl(img: string): (r: string)
    ensures StartsWith(r, "http")
    ensures r == img <==> StartsWith(img, "http")
    ensures r != img ==> r == ServerUrl + img
  {
    if StartsWith(img, "http") then img
    else
      assert (ServerUrl + img)[..4] == ServerUrl[..4];
      ServerUrl + img
  }

  /** Normalising twice gives what normalising once gave. */
  lemma NormalizeIdempotent(img: string)
    ensures NormalizeImageUrl(NormalizeImageUrl(img)) == NormalizeImageUrl(img)
  {
  }

  /** `data.images ? data.images.map(...) : []`: a missing list becomes
      empty, a present one keeps its length and order. */
  function NormalizeImages(images: Option<seq<string>>): (r: seq<string>)
    ensures images.None? ==> r == []
    ensures images.Some? ==>
      |r| == |images.value| && forall i :: 0 <= i < |r| ==> r[i] == NormalizeImageUrl(images.value[i])
  {
    match images
    case None => []
    case Some(urls) => seq(|urls|, i requires 0 <= i < |urls| => NormalizeImageUrl(urls[i]))
  }

  lemma NormalizeImagesIdempotent(images: Option<seq<string>>)
    ensures NormalizeImages(Some(NormalizeImages(images))) == NormalizeImages(images)
  {
    var once := NormalizeImages(images);
    forall i | 0 <= i < |once|
      ensures NormalizeImages(Some(once))[i] == once[i]
    {
      NormalizeIdempotent(images.value[i]);
    }
  }

  /** The client's `Project` type. */
  datatype Project = Project(
    id: nat, title: string, slug: string, location: string,
    completionDate: string, description: string, images: seq<string>)

  /** A project as the server's GET endpoints send it: the database row with
      its snake_case column names, plus the image list when there is one. */
  datatype StoredProject = StoredProject(
    id: nat, title: string, slug: string, location: string,
    completion_date: string, description: string, images: Option<seq<string>>)

  /** A project as the server answers a create or an update, with camelCase
      `completionDate`. */
  datatype SavedProject = SavedProject(
    id: nat, title: string, slug: string, location: string,
    completionDate: string, description: string, images: Option<seq<string>>)

  /** The mapping in `getAll`, `getById` and `getBySlug`. */
  function FromStored(s: StoredProject): (p: Project)
    ensures p.id == s.id && p.title == s.title && p.slug == s.slug && p.location == s.location
    ensures p.completionDate == s.completion_date && p.description == s.description
    ensures p.images == NormalizeImages(s.images)
  {
    Project(s.id, s.title, s.slug, s.location, s.completion_date, s.description, NormalizeImages(s.images))
  }

  /** The mapping in `create` and `update`. */
  function FromSaved(s: SavedProject): (p: Project)
    ensures p == FromStored(StoredProject(s.id, s.title, s.slug, s.location, s.completionDate, s.description, s.images))
  {
    Project(s.id, s.title, s.slug, s.location, s.completionDate, s.description, NormalizeImages(s.images))
  }

  /** `getAll`: one project per record, in order. */
  function FromStoredAll(data: seq<StoredProject>): (ps: seq<Project>)
    ensures |ps| == |data|
    ensures forall i :: 0 <= i < |ps| ==> ps[i] == FromStored(data[i])
  {
    seq(|data|, i requires 0 <= i < |data| => FromStored(data[i]))
  }

  predicate AllAbsolute(images: seq<string>) {
    forall i :: 0 <= i < |images| ==> StartsWith(images[i], "http")
  }

  /** The record a client project would be stored as. A client project whose
      images are already absolute maps back to itself: the field mapping
      loses nothing. */
  function ToStored(p: Project): (s: StoredProject)
    ensures AllAbsolute(p.images) ==> FromStored(s) == p
  {
    var s := StoredProject(p.id, p.title, p.slug, p.location, p.completionDate, p.description, Some(p.images));
    assert AllAbsolute(p.images) ==> NormalizeImages(Some(p.images)) == p.images by {
      if AllAbsolute(p.images) {
        var r := NormalizeImages(Some(p.images));
        assert forall i :: 0 <= i < |r| ==> r[i] == p.images[i];
      }
    }
    s
  }

  /** The mapped images are always absolute. */
  lemma FromStoredAbsolute(s: StoredProject)
    ensures AllAbsolute(FromStored(s).images)
  {
  }

  // ----- session storage -----

  const TokenKey: string := "adminToken"
  const AuthKey: string := "adminAuthenticated"

  /** `sessionStorage.getItem('adminAuthenticated') === 'true'` */
  predicate Authenticated(storage: map<string, string>) {
    AuthKey in storage && storage[AuthKey] == "true"
  }

  /** `getToken()`: the stored token, or none. */
  function StoredToken(storage: map<string, string>): Option<string> {
    if TokenKey in storage then Some(storage[TokenKey]) else None
  }

  /** The storage after a successful login. */
  function LoggedIn(storage: map<string, string>, token: string): (r: map<string, string>)
    ensures Authenticated(r) && StoredToken(r) == Some(token)
    ensures forall k :: k != TokenKey && k != AuthKey ==> (k in r <==> k in storage)
    ensures forall k :: k in r && k != TokenKey && k != AuthKey ==> r[k] == storage[k]
  {
    storage[TokenKey := token][AuthKey := "true"]
  }

  /** The storage after logout. */
  function LoggedOut(storage: map<string, string>): (r: map<string, string>)
    ensures !Authenticated(r) && StoredToken(r) == None
    ensures forall k :: k != TokenKey && k != AuthKey ==> (k in r <==> k in storage)
    ensures forall k :: k in r ==> k in storage && r[k] == storage[k]
  {
    storage - {TokenKey, AuthKey}
  }

  /** Logging out after a login leaves the storage as a plain logout would:
      nothing of the session survives. */
  lemma LoginThenLogout(storage: map<string, string>, token: string)
    ensures LoggedOut(LoggedIn(storage, token)) == LoggedOut(storage)
  {
  }

  /** The body of the login answer: the token when the status is ok, the
      error message otherwise. */
  datatype LoginResponse = LoginResponse(ok: bool, token: string, message: Option<string>)

  /** `data.message || fallback` */
  function MessageOr(message: Option<string>, fallback: string): (r: string)
    ensures message.Some? && message.value != "" ==> r == message.value
    ensures (message.None? || message.value == "") ==> r == fallback
  {
    if message.Some? && message.value != "" then message.value else fallback
  }

  /** The browser's sessionStorage as `authAPI` uses it. */
  class Session {
    var storage: map<string, string>

    constructor (initial: map<string, string>)
      ensures storage == initial
    {
      storage := initial;
    }

    function Token(): Option<string>
      reads this
    {
      StoredToken(storage)
    }

    predicate IsAuthenticated()
      reads this
    {
      Authenticated(storage)
    }

    /** `authAPI.login`: an error answer throws and stores nothing; an ok one
        stores the token and the flag. */
    method Login(response: LoginResponse) returns (r: Result<string, string>)
      modifies this
      ensures response.ok ==> storage == LoggedIn(old(storage), response.token) && r == Success(response.token)
      ensures response.ok ==> IsAuthenticated() && Token() == Some(response.token)
      ensures !response.ok ==> storage == old(storage) && r == Failure(MessageOr(response.message, "Login failed"))
    {
      if !response.ok {
        return Failure(MessageOr(response.message, "Login failed"));
      }
      storage := storage[TokenKey := response.token];
      storage := storage[AuthKey := "true"];
      r := Success(response.token);
    }

    /** `authAPI.logout` */
    method Logout()
      modifies this
      ensures storage == LoggedOut(old(storage))
      ensures !IsAuthenticated() && Token() == None
    {
      storage := storage - {TokenKey};
      storage := storage - {AuthKey};
    }
  }

  // ----- authenticated requests -----

  const AuthorizationHeader: string := "Authorization"

  /** `options.headers` after `fetchWithAuth` looked at the token: a truthy
      token adds `Authorization: Bearer <token>` and keeps every other
      header; no token, or an empty one, leaves the headers alone. */
  function WithBearer(headers: map<string, string>, token: Option<string>): (r: map<string, string>)
    ensures token.Some? && token.value != "" ==>
      AuthorizationHeader in r && r[AuthorizationHeader] == "Bearer " + token.value
    ensures (token.None? || token.value == "") ==> r == headers
    ensures forall k :: k != AuthorizationHeader ==> (k in r <==> k in headers)
    ensures forall k :: k in headers && k != AuthorizationHeader ==> r[k] == headers[k]
  {
    if token.Some? && token.value != "" then headers[AuthorizationHeader := "Bearer " + token.value]
    else headers
  }

  /** A fetch answer: an ok status with its JSON body, or an error status
      with the `message` of its body (none when the body has none or is not
      JSON). */
  datatype HttpResponse<T> = Ok(body: T) | NotOk(message: Option<string>)

  /** The `options` object a request is made with. */
  class RequestOptions {
    var headers: map<string, string>

    constructor (initial: map<string, string>)
      ensures headers == initial
    {
      headers := initial;
    }
  }

  /** `fetchWithAuth`: the token goes into the headers, then an error
      status throws with the server's message or 'An error occurred'. */
  method FetchWithAuth<T>(session: Session, options: RequestOptions, response: HttpResponse<T>)
    returns (r: Result<T, string>)
    modifies options
    ensures options.headers == WithBearer(old(options.headers), session.Token())
    ensures response.Ok? ==> r == Success(response.body)
    ensures response.NotOk? ==> r == Failure(MessageOr(response.message, "An error occurred"))
  {
    var token := session.Token();
    if token.Some? && token.value != "" {
      options.headers := options.headers[AuthorizationHeader := "Bearer " + token.value];
    }
    match response
    case Ok(body) => r := Success(body);
    case NotOk(message) => r := Failure(MessageOr(message, "An error occurred"));
  }

  // ----- multipart bodies -----

  /** A browser `File`, as far as the server looks at it. */
  datatype File = File(name: string, mimetype: string)

  /** A FormData value: plain text, the JSON text of a URL list, or a file. */
  datatype FormValue = Text(text: string) | JsonList(urls: seq<string>) | Blob(file: File)

  datatype FormEntry = FormEntry(name: string, value: FormValue)

  /** `FormData`, an ordered list of named entries that only grows. */
  class FormData {
    var entries: seq<FormEntry>

    constructor ()
      ensures entries == []
    {
      entries := [];
    }

    method Append(name: string, value: FormValue)
      modifies this
      ensures entries == old(entries) + [FormEntry(name, value)]
    {
      entries := entries + [FormEntry(name, value)];
    }
  }

  /** What `create` is given: a project without id and slug. */
  datatype Draft = Draft(
    title: string, location: string, completionDate: string,
    description: string, images: seq<string>)

  function FieldEntries(d: Draft): (es: seq<FormEntry>)
    ensures |es| == 4
    ensures forall i :: 0 <= i < |es| ==> es[i].value.Text? && es[i].name != "images" && es[i].name != "imageUrls"
  {
    [FormEntry("title", Text(d.title)), FormEntry("location", Text(d.location)),
     FormEntry("completionDate", Text(d.completionDate)), FormEntry("description", Text(d.description))]
  }

  function FileEntries(files: seq<File>): (es: seq<FormEntry>)
    ensures |es| == |files|
    ensures forall i :: 0 <= i < |files| ==> es[i] == FormEntry("images", Blob(files[i]))
  {
    seq(|files|, i requires 0 <= i < |files| => FormEntry("images", Blob(files[i])))
  }

  /** The entries `create` sends. */
  function CreateEntries(d: Draft, files: seq<File>): (es: seq<FormEntry>)
    ensures |es| >= 4 && es[..4] == FieldEntries(d)
    ensures |d.images| > 0 ==> |es| == 5 + |files| && es[4] == FormEntry("imageUrls", JsonList(d.images))
    ensures |d.images| == 0 ==> |es| == 4 + |files| && forall i :: 0 <= i < |es| ==> es[i].name != "imageUrls"
  {
    FieldEntries(d)
    + (if |d.images| > 0 then [FormEntry("imageUrls", JsonList(d.images))] else [])
    + FileEntries(files)
  }

  /** The entries `update` sends. */
  function UpdateEntries(d: Draft, files: seq<File>): (es: seq<FormEntry>)
    ensures |es| == 4 + |files| && es[..4] == FieldEntries(d)
    ensures forall i :: 0 <= i < |es| ==> es[i].name != "imageUrls"
  {
    FieldEntries(d) + FileEntries(files)
  }

  method AppendFiles(form: FormData, files: seq<File>)
    modifies form
    ensures form.entries == old(form.entries) + FileEntries(files)
  {
    var i := 0;
    while i < |files|
      invariant 0 <= i <= |files|
      invariant form.entries == old(form.entries) + FileEntries(files[..i])
    {
      assert FileEntries(files[..i + 1]) == FileEntries(files[..i]) + [FormEntry("images", Blob(files[i]))];
      form.Append("images", Blob(files[i]));
      i := i + 1;
    }
    assert files[..i] == files;
  }

  method AppendFields(form: FormData, d: Draft)
    modifies form
    ensures form.entries == old(form.entries) + FieldEntries(d)
  {
    form.Append("title", Text(d.title));
    form.Append("location", Text(d.location));
    form.Append("completionDate", Text(d.completionDate));
    form.Append("description", Text(d.description));
  }

  /** The FormData built by `projectsAPI.create`. */
  method BuildCreateForm(d: Draft, files: seq<File>) returns (form: FormData)
    ensures fresh(form)
    ensures form.entries == CreateEntries(d, files)
  {
    form := new FormData();
    AppendFields(form, d);
    if |d.images| > 0 {
      form.Append("imageUrls", JsonList(d.images));
    }
    AppendFiles(form, files);
  }

  /** The FormData built by `projectsAPI.update`. */
  method BuildUpdateForm(d: Draft, files: seq<File>) returns (form: FormData)
    ensures fresh(form)
    ensures form.entries == UpdateEntries(d, files)
  {
    form := new FormData();
    AppendFields(form, d);
    AppendFiles(form, files);
  }

  /** The text value of the first entry with this name. */
  function TextField(entries: seq<FormEntry>, name: string): Option<string> {
    if entries == [] then None
    else if entries[0].name == name && entries[0].value.Text? then Some(entries[0].value.text)
    else TextField(entries[1..], name)
  }

  /** The URL list of the first entry with this name. */
  function JsonField(entries: seq<FormEntry>, name: string): Option<seq<string>> {
    if entries == [] then None
    else if entries[0].name == name && entries[0].value.JsonList? then Some(entries[0].value.urls)
    else JsonField(entries[1..], name)
  }

  /** The files sent under this name, in order. */
  function FilesField(entries: seq<FormEntry>, name: string): seq<File> {
    if entries == [] then []
    else if entries[0].name == name && entries[0].value.Blob? then [entries[0].value.file] + FilesField(entries[1..], name)
    else FilesField(entries[1..], name)
  }

  lemma {:induction false} TextFieldAppend(a: seq<FormEntry>, b: seq<FormEntry>, name: string)
    ensures TextField(a + b, name) == if TextField(a, name).Some? then TextField(a, name) else TextField(b, name)
  {
    if a == [] {
      assert a + b == b;
    } else {
      assert (a + b)[0] == a[0] && (a + b)[1..] == a[1..] + b;
      TextFieldAppend(a[1..], b, name);
    }
  }

  lemma {:induction false} JsonFieldAppend(a: seq<FormEntry>, b: seq<FormEntry>, name: string)
    ensures JsonField(a + b, name) == if JsonField(a, name).Some? then JsonField(a, name) else JsonField(b, name)
  {
    if a == [] {
      assert a + b == b;
    } else {
      assert (a + b)[0] == a[0] && (a + b)[1..] == a[1..] + b;
      JsonFieldAppend(a[1..], b, name);
    }
  }

  lemma {:induction false} FilesFieldAppend(a: seq<FormEntry>, b: seq<FormEntry>, name: string)
    ensures FilesField(a + b, name) == FilesField(a, name) + FilesField(b, name)
  {
    if a == [] {
      assert a + b == b;
    } else {
      assert (a + b)[0] == a[0] && (a + b)[1..] == a[1..] + b;
      FilesFieldAppend(a[1..], b, name);
    }
  }

  lemma FieldsAppend(a: seq<FormEntry>, b: seq<FormEntry>, name: string)
    ensures TextField(a + b, name) == if TextField(a, name).Some? then TextField(a, name) else TextField(b, name)
    ensures JsonField(a + b, name) == if JsonField(a, name).Some? then JsonField(a, name) else JsonField(b, name)
    ensures FilesField(a + b, name) == FilesField(a, name) + FilesField(b, name)
  {
    TextFieldAppend(a, b, name);
    JsonFieldAppend(a, b, name);
    FilesFieldAppend(a, b, name);
  }

  lemma {:induction false} FileEntriesOnlyFiles(files: seq<File>, name: string)
    ensures TextField(FileEntries(files), name) == None
    ensures JsonField(FileEntries(files), name) == None
    ensures FilesField(FileEntries(files), name) == if name == "images" then files else []
  {
    if files != [] {
      assert FileEntries(files)[1..] == FileEntries(files[1..]);
      FileEntriesOnlyFiles(files[1..], name);
    }
  }

  /** The four text fields read back from their entries. */
  lemma FieldEntriesRead(d: Draft)
    ensures TextField(FieldEntries(d), "title") == Some(d.title)
    ensures TextField(FieldEntries(d), "location") == Some(d.location)
    ensures TextField(FieldEntries(d), "completionDate") == Some(d.completionDate)
    ensures TextField(FieldEntries(d), "description") == Some(d.description)
    ensures JsonField(FieldEntries(d), "imageUrls") == None
    ensures FilesField(FieldEntries(d), "images") == []
  {
    var es := FieldEntries(d);
    var e1, e2, e3 := es[1..], es[2..], es[3..];
    assert e1[1..] == e2 && e2[1..] == e3 && e3[1..] == [];
    assert TextField(e3, "description") == Some(d.description);
    assert TextField(e2, "completionDate") == Some(d.completionDate);
    assert TextField(e2, "description") == Some(d.description);
    assert TextField(e1, "location") == Some(d.location);
    assert JsonField(e3, "imageUrls") == None && FilesField(e3, "images") == [];
    assert JsonField(e2, "imageUrls") == None && FilesField(e2, "images") == [];
    assert JsonField(e1, "imageUrls") == None && FilesField(e1, "images") == [];
  }

  /** What one name reads from `head + FileEntries(files)`. */
  lemma ReadPastFiles(head: seq<FormEntry>, files: seq<File>, name: string)
    ensures TextField(head + FileEntries(files), name) == TextField(head, name)
    ensures JsonField(head + FileEntries(files), name) == JsonField(head, name)
    ensures FilesField(head + FileEntries(files), name) == FilesField(head, name) + (if name == "images" then files else [])
  {
    FieldsAppend(head, FileEntries(files), name);
    FileEntriesOnlyFiles(files, name);
  }

  /** Reading the create body back gives the four fields, the URL list when
      the draft had images (and nothing otherwise), and the files in order. */
  lemma CreateFormReadBack(d: Draft, files: seq<File>)
    ensures TextField(CreateEntries(d, files), "title") == Some(d.title)
    ensures TextField(CreateEntries(d, files), "location") == Some(d.location)
    ensures TextField(CreateEntries(d, files), "completionDate") == Some(d.completionDate)
    ensures TextField(CreateEntries(d, files), "description") == Some(d.description)
    ensures JsonField(CreateEntries(d, files), "imageUrls") == if |d.images| > 0 then Some(d.images) else None
    ensures FilesField(CreateEntries(d, files), "images") == files
  {
    var urls: seq<FormEntry> := if |d.images| > 0 then [FormEntry("imageUrls", JsonList(d.images))] else [];
    var head := FieldEntries(d) + urls;
    FieldEntriesRead(d);
    FieldsAppend(FieldEntries(d), urls, "title");
    FieldsAppend(FieldEntries(d), urls, "location");
    FieldsAppend(FieldEntries(d), urls, "completionDate");
    FieldsAppend(FieldEntries(d), urls, "description");
    FieldsAppend(FieldEntries(d), urls, "imageUrls");
    FieldsAppend(FieldEntries(d), urls, "images");
    ReadPastFiles(head, files, "title");
    ReadPastFiles(head, files, "location");
    ReadPastFiles(head, files, "completionDate");
    ReadPastFiles(head, files, "description");
    ReadPastFiles(head, files, "imageUrls");
    ReadPastFiles(head, files, "images");
  }

  /** The update body carries the four fields and the files, and never an
      image URL list, whatever the draft's images. */
  lemma UpdateFormReadBack(d: Draft, files: seq<File>)
    ensures TextField(UpdateEntries(d, files), "title") == Some(d.title)
    ensures TextField(UpdateEntries(d, files), "location") == Some(d.location)
    ensures TextField(UpdateEntries(d, files), "completionDate") == Some(d.completionDate)
    ensures TextField(UpdateEntries(d, files), "description") == Some(d.description)
    ensures JsonField(UpdateEntries(d, files), "imageUrls") == None
    ensures FilesField(UpdateEntries(d, files), "images") == files
  {
    FieldEntriesRead(d);
    ReadPastFiles(FieldEntries(d), files, "title");
    ReadPastFiles(FieldEntries(d), files, "location");
    ReadPastFiles(FieldEntries(d), files, "completionDate");
    ReadPastFiles(FieldEntries(d), files, "description");
    ReadPastFiles(FieldEntries(d), files, "imageUrls");
    ReadPastFiles(FieldEntries(d), files, "images");
  }

  /** `projectsAPI.create`: build the body, send it with the token, map the
      answer. */
  method Create(session: Session, d: Draft, files: seq<File>, response: HttpResponse<SavedProject>)
    returns (sent: seq<FormEntry>, headers: map<string, string>, r: Result<Project, string>)
    ensures sent == CreateEntries(d, files)
    ensures headers == WithBearer(map[], session.Token())
    ensures response.Ok? ==> r == Success(FromSaved(response.body))
    ensures response.NotOk? ==> r == Failure(MessageOr(response.message, "An error occurred"))
  {
    var form := BuildCreateForm(d, files);
    var options := new RequestOptions(map[]);
    var data := FetchWithAuth(session, options, response);
    sent, headers := form.entries, options.headers;
    r := match data
      case Success(saved) => Success(FromSaved(saved))
      case Failure(e) => Failure(e);
  }

  /** `projectsAPI.update` */
  method Update(session: Session, d: Draft, files: seq<File>, response: HttpResponse<SavedProject>)
    returns (sent: seq<FormEntry>, headers: map<string, string>, r: Result<Project, string>)
    ensures sent == UpdateEntries(d, files)
    ensures headers == WithBearer(map[], session.Token())
    ensures response.Ok? ==> r == Success(FromSaved(response.body))
    ensures response.NotOk? ==> r == Failure(MessageOr(response.message, "An error occurred"))
  {
    var form := BuildUpdateForm(d, files);
    var options := new RequestOptions(map[]);
    var data := FetchWithAuth(session, options, response);
    sent, headers := form.entries, options.headers;
    r := match data
      case Success(saved) => Success(FromSaved(saved))
      case Failure(e) => Failure(e);
  }
}
