/** Where the client's requests meet the server's handlers: the multipart
    body `projectsAPI.create`/`update` builds is what the project handlers
    read, and the bearer header `fetchWithAuth` adds is what
    `authenticateToken` parses. Body parsing by multer is taken to hand each
    text entry to `req.body` and each `images` file to `req.files`. */
module Wire {
  import opened Wrappers
  import opened Strings
  import Api
  import Auth
  import Upload
  import ServerStore
  import ContactSection

  /** `req.body` as the handlers see it: `JSON.stringify` of a list of
      strings parses back to that list. */
  function ServerBody(entries: seq<Api.FormEntry>): ServerStore.ProjectBody {
    var urls := Api.JsonField(entries, "imageUrls");
    ServerStore.ProjectBody(
      Api.TextField(entries, "title"), Api.TextField(entries, "location"),
      Api.TextField(entries, "completionDate"), Api.TextField(entries, "description"),
      if urls.Some? then Some(ServerStore.UrlArray(urls.value)) else None)
  }

  /** `req.files` as multer hands it to the filter. */
  function ServerFiles(entries: seq<Api.FormEntry>): (files: seq<Upload.UploadedFile>)
    ensures |files| == |Api.FilesField(entries, "images")|
  {
    var fs := Api.FilesField(entries, "images");
    seq(|fs|, i requires 0 <= i < |fs| => Upload.UploadedFile("images", fs[i].name, fs[i].mimetype))
  }

  /** A create from the admin form passes validation exactly when its four
      fields are non-empty, and the server then stores the uploads' URLs
      followed by the draft's own URLs. */
  lemma CreateRequestArrives(d: Api.Draft, files: seq<Api.File>, uploads: seq<Upload.Descriptor>)
    ensures ServerStore.HasProjectFields(ServerBody(Api.CreateEntries(d, files)))
      <==> d.title != "" && d.location != "" && d.completionDate != "" && d.description != ""
    ensures ServerStore.CreateImageUrls(uploads, ServerBody(Api.CreateEntries(d, files)))
      == Some(ServerStore.UploadUrls(uploads) + d.images)
    ensures ServerFiles(Api.CreateEntries(d, files))
      == seq(|files|, i requires 0 <= i < |files| => Upload.UploadedFile("images", files[i].name, files[i].mimetype))
  {
    Api.CreateFormReadBack(d, files);
    if |d.images| == 0 {
      assert ServerStore.UploadUrls(uploads) + d.images == ServerStore.UploadUrls(uploads);
    }
  }

  /** An update sends no URL list, so the server adds only the uploads. */
  lemma UpdateRequestArrives(d: Api.Draft, files: seq<Api.File>)
    ensures ServerStore.HasProjectFields(ServerBody(Api.UpdateEntries(d, files)))
      <==> d.title != "" && d.location != "" && d.completionDate != "" && d.description != ""
    ensures ServerBody(Api.UpdateEntries(d, files)).imageUrls == None
  {
    Api.UpdateFormReadBack(d, files);
  }

  /** The token a logged-in client holds is the token the server reads from
      the header, provided it is non-empty and has no space (a JWT has none). */
  lemma BearerArrives(headers: map<string, string>, token: string)
    requires token != "" && ' ' !in token
    ensures Api.AuthorizationHeader in Api.WithBearer(headers, Some(token))
    ensures Auth.HeaderToken(Some(Api.WithBearer(headers, Some(token))[Api.AuthorizationHeader])) == Some(token)
  {
    Auth.BearerRoundTrip(token);
    assert Api.WithBearer(headers, Some(token))[Api.AuthorizationHeader] == Auth.BearerHeader(token);
  }

  /** Without a stored token no header is sent, and the server answers 401. */
  lemma NoTokenIsUnauthorized(headers: map<string, string>, isValid: string -> bool)
    requires Api.AuthorizationHeader !in headers
    ensures Api.AuthorizationHeader !in Api.WithBearer(headers, None)
    ensures Auth.Authenticate(None, isValid).Unauthorized?
  {
  }

  /** The JSON body the contact form sends: all five fields as strings. */
  function ContactBodyOf(f: ContactSection.FormData): ServerStore.ContactBody {
    ServerStore.ContactBody(Some(f.name), Some(f.email), Some(f.phone), Some(f.subject), Some(f.message))
  }

  /** A form the browser lets through always passes the server's check, and
      an empty phone is stored as the empty string. */
  lemma ContactArrives(f: ContactSection.FormData)
    ensures ServerStore.HasContactFields(ContactBodyOf(f)) <==> ContactSection.Submittable(f)
    ensures ServerStore.Truthy(ContactBodyOf(f).phone) <==> f.phone != ""
  {
  }
}
