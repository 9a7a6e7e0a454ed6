# Estudio Javier Calamante portfolio — a Dafny model of its request and state logic

The system is an architecture studio's portfolio site. An Express/MySQL
server (`server.js`) stores projects, their image rows and the contact
messages. It converts uploaded pictures to WebP files under
`public/uploads` and protects the admin routes with a bearer JWT. A
React/TypeScript client shows the projects and runs an admin panel.

This model covers the deterministic logic of both halves, one Dafny module
per source file:

- **Server** (`server.js`):
  - `ProjectSlug`: the slug expression.
  - `Upload`: multer's intake for `upload.array('images', 10)` (the field, the count and the file filter) and the `processImages` middleware with its generated file names.
  - `Auth`: `authenticateToken`'s header parsing.
  - `ServerStore`: the project, image and contact handlers, over an abstract store. The store is three tables, each with its auto-increment counter, plus the set of files on disk.
- **Client API** (`src/services/api.ts`): module `Api`. It covers URL normalisation, the snake_case mapping, the sessionStorage login state, `fetchWithAuth` and the FormData bodies of `create`/`update`.
- **UI state**:
  - `Gallery`: the image gallery and its lightbox.
  - `Hero`: the hero carousel.
  - `Navbar`: the navigation bar and its mobile menu.
  - `ContactSection`: the public contact form.
  - `IndexPage`: the home page's scroll target.
  - `ProjectDetail`: the project page's load/redirect effect.
- **Admin** (the admin panel, its project form and its inbox):
  - `AdminPanel`, `ProjectForm` and `ContactMessages`.
  - They share the list operations of `Lists`: filter, remove-at and a one-element `splice`.
- **`Wire`**: where the client's requests meet the server's handlers.
  - What the form body and the bearer header look like once the server reads them.
  - What the contact form sends.
- **Helpers**:
  - `Strings`: the JavaScript string operations the code relies on (`startsWith`, `includes`, `trim`, `split(' ')`, decimal printing).
  - `Paths`: Node's `path.normalize` and `path.join`, which turn a stored image URL into the file a deletion removes.
  - `Wrappers`: `Option`/`Result`.

Component state that React updates through `setX` is a class whose fields the handler methods reassign. A network call, a clock reading, a random draw or a library verdict (JWT, sharp) is a parameter of the method that uses it.

## Model

| member | source | states |
|---|---|---|
| `Strings.TrimEmptyIff` | src/components/admin/AdminProjectForm.tsx:54 | `s.trim()` is empty exactly when every character of s is ECMAScript whitespace |
| `Strings.Trim` | src/components/admin/AdminProjectForm.tsx:54 | the result is no longer than the input and neither starts nor ends with whitespace |
| `Strings.Contains` | src/components/Navbar.tsx:94 | a string that includes a pattern is at least as long as it |
| `Strings.ContainsAt` | src/components/Navbar.tsx:94 | an occurrence of the pattern at any position makes `includes` true |
| `Strings.ContainsWitness` | src/components/Navbar.tsx:94 | conversely, when `includes` is true there is a position where the pattern occurs |
| `Strings.Split` | server.js:225 | `split` gives at least one part, and no part holds the separator |
| `Strings.SplitJoin` | server.js:225 | joining the parts of `split(' ')` with spaces gives back the string |
| `Strings.DecimalRoundTrip` | server.js:67 | the decimal text of a number parses back to that number |
| `Strings.DecimalInjective` | server.js:67 | different numbers print differently |
| `Paths.Resolve` | server.js:530 | resolved segments hold no empty or `.` segment, every `..` leads, and there are never more segments than went in |
| `Paths.Normalize` | server.js:530 | `path.normalize` never gives the empty string; `.` stands for nothing left |
| `Paths.ResolvePlain` | server.js:69 | segments that name entries are all kept, in order |
| `Paths.ResolvePush` | server.js:530 | a segment that names an entry is pushed onto what was resolved so far |
| `Paths.ResolveSkip` | server.js:530 | an empty or `.` segment is dropped |
| `Paths.ResolveKeepsClimb` | server.js:530 | a `..` with nothing before it to cancel stays |
| `Paths.NormalizeJoined` | server.js:530 | normalising a slash-joined path gives its resolved segments joined by slashes, or `.` when none is left |
| `Paths.JoinPlainName` | server.js:69 | `path.join('public/uploads', name)` of a plain name is `public/uploads/` + name |
| `Paths.JoinPlain` | server.js:530 | `path.join('public', '/uploads/' + name)` of a plain name is `public/uploads/` + name |
| `Paths.JoinClimbsOut` | server.js:530 | `path.join('public', '/../' + name)` is name itself, outside `public` |
| `Paths.JoinClimbsTwice` | server.js:530 | `path.join('public', '/../../' + name)` is `../` + name, outside the server directory |
| `Paths.JoinSkipsDot` | server.js:530 | a `.` segment in the URL changes nothing |
| `ProjectSlug.ToLower` | server.js:385 | `toLowerCase()` on ASCII: same length, and position by position the character is lowered (`LowerChar`: no upper-case letter is left, every other character is kept) |
| `ProjectSlug.DashRuns` | server.js:385 | `replace(/\s+/g, '-')` never lengthens the string; what it keeps and replaces is stated by the three lemmas below |
| `ProjectSlug.DashRunsAlphabet` | server.js:385 | `replace(/\s+/g, '-')` leaves no whitespace: every character is a dash or a non-whitespace character of the input |
| `ProjectSlug.WordPassesDashRuns` | server.js:385 | characters other than whitespace pass through unchanged and in order, whatever follows them |
| `ProjectSlug.WhitespaceRunIsOneDash` | server.js:385 | a whole whitespace run, followed by a non-space or the end, becomes exactly one dash |
| `ProjectSlug.DropNonWord` | server.js:385 | `replace(/[^\w-]+/g, '')` keeps only word characters and dashes of the input |
| `ProjectSlug.DropNonWordIsFilter` | server.js:385 | `replace(/[^\w-]+/g, '')` is the filter that keeps `[A-Za-z0-9_-]`: each such character survives, in order, and no other does |
| `ProjectSlug.DropNonWordAppend` | server.js:385 | the drop works piece by piece: on a concatenation it is the concatenation of the drops |
| `ProjectSlug.Slug` | server.js:385 | every slug holds only a-z, 0-9, `_` and `-` and is no longer than the title |
| `ProjectSlug.SlugOfWord` | server.js:385 | a title without whitespace slugs to its lowered characters that are letters, digits, `_` or `-`, in order |
| `ProjectSlug.SlugSplitsAtRun` | server.js:385 | a whitespace run between a word (possibly empty) and the rest of the title becomes one dash between their slugs; with `SlugOfWord` this fixes the slug of every title |
| `ProjectSlug.SlugExample` | server.js:385 | `"Casa  Azul!"` slugs to `"casa-azul"` |
| `ProjectSlug.SlugIdempotent` | server.js:455 | slugging a slug changes nothing |
| `Upload.FileFilter` | server.js:37-44 | a file passes iff its MIME type starts with `image/`; otherwise the error is "¡Solo se permiten archivos de imagen!" |
| `Upload.FirstRejectedFrom` | server.js:37-53 | from a start index on, the parts before the result get through multer (under `images`, fewer than ten before them, image MIME type) and the part at it does not |
| `Upload.FirstRejected` | server.js:37-53 | the parts before the index get through multer and the part at it is stopped |
| `Upload.IntakeFiles` | server.js:47-53 | `upload.array('images', 10)` (server.js:377): the request is admitted with its files unchanged iff there are at most ten, all under `images` and all images; otherwise the first stopped part decides: an unexpected file naming its field when it is under another field or past the tenth, else the filter's message |
| `Upload.FirstFailure` | server.js:72-80 | every encode before the index succeeded and the one at it failed |
| `Upload.UploadFilename` | server.js:66-67 | for a field name without a slash, the generated name is a single plain path segment: non-empty, not `.` or `..`, no slash |
| `Upload.OutputPath` | server.js:69 | `path.join('public/uploads', filename)` of a plain name is `public/uploads/` + name |
| `Upload.Describe` | server.js:64-89 | the descriptor keeps the original name, says `image/webp` with destination public/uploads; for a slash-free field name its file name is plain and its path is `public/uploads/` + file name |
| `Upload.DescribeAll` | server.js:64-89 | one descriptor per file, in order, each that file's under its own stamp |
| `Upload.ProcessImages` | server.js:56-99 | no files: pass through untouched. All encodes succeed: one descriptor per file in input order (`DescribeAll`), and exactly their paths written. The k-th encode fails: 500 "Error al procesar las imágenes subidas", with only the first k paths written |
| `Upload.PathsOf` | server.js:69 | one path per descriptor, in order |
| `Upload.FilenameShape` | server.js:67-69 | a generated name starts with `fieldname-` and ends in `.webp`; for a slash-free field name its path is `public/uploads/` + name |
| `Upload.FilenameDeterminesStamp` | server.js:67-68 | two files of one field get the same name only if they drew the same clock and random values |
| `Upload.DescriptorsFaithful` | server.js:83-89 | each descriptor keeps its file's original name, says `image/webp`, and lies under public/uploads; files with different stamps get different names |
| `Auth.HeaderToken` | server.js:224-225 | a token is found only in a present header, is non-empty, has no space, and follows a space in the header |
| `Auth.HeaderTokenIsSecondWord` | server.js:225 | the token is the second space-separated word whatever follows it; a one-word header, or two spaces in a row, give none |
| `Auth.Authenticate` | server.js:223-238 | 401 "Se requiere autenticación" iff no token; 403 "Token inválido o expirado" iff the token does not verify; otherwise the verified token |
| `Auth.BearerRoundTrip` | server.js:225 | the server reads back the token of `Bearer <token>` iff the token is non-empty and has no space |
| `ServerStore.UploadUrls` | server.js:401 | one `/uploads/<filename>` URL per upload, in order |
| `ServerStore.HasProjectFields` | server.js:380-382 | a body passes only with all four fields present, and an empty title fails it |
| `ServerStore.HasContactFields` | server.js:605-607 | a contact passes only with name, email, subject and message present, and an empty message fails it |
| `ServerStore.UploadUrl` | server.js:401 | `/uploads/` followed by the file name; a plain file name gives an upload URL |
| `ServerStore.Characters` | server.js:405 | spreading a string gives one one-character string per character, in order |
| `ServerStore.CreateImageUrls` | server.js:400-405 | none (the handler throws) iff `imageUrls` parses to a value that cannot be spread |
| `ServerStore.CreateImageUrlsMeaning` | server.js:400-405 | the uploads' URLs come first, followed by the parsed array, or a parsed string's characters one by one, or nothing when the field is absent or empty |
| `ServerStore.UploadUrlFindsFile` | server.js:530 | for a slash-free field name, the URL stored for an upload is an upload URL, and the clean-up path derived from it is the path the upload was written to |
| `ServerStore.NewImageRows` | server.js:420-423 | one image row per URL, in order, with consecutive ids |
| `ServerStore.UrlsOf` | server.js:342 | a project's URLs are drawn from the image rows |
| `ServerStore.UrlsOfMembers` | server.js:342 | a URL is read for a project iff some image row of that project holds it |
| `ServerStore.UrlsOfAppend` | server.js:342 | reading a project's URLs distributes over appended rows |
| `ServerStore.UrlsOfNone` | server.js:342 | a project with no rows reads no URLs |
| `ServerStore.UrlsOfNewRows` | server.js:420-423 | inserted rows read back as the inserted URLs |
| `ServerStore.ReadBackInserted` | server.js:336-342 | after inserting a new project's URLs, reading its images gives exactly those URLs |
| `ServerStore.ReadBackAppended` | server.js:491-505 | after an update inserts URLs, the project's images are the old ones followed by the new ones |
| `ServerStore.DiskPaths` | server.js:572 | as written: one `path.join('public', url)` per URL, in order |
| `ServerStore.DiskPath` | server.js:530 | as written, relative to the server directory: an upload URL leads to `public/uploads/` + its file name |
| `ServerStore.StoredUrlEscapes` | server.js:530 | as written, a stored `/../name` resolves to `name` outside `public`, `/../../name` to `../name`; cleaning up the first removes that file |
| `ServerStore.DottedUrlSharesFile` | server.js:530 | as written, the different stored URLs `/uploads/name` and `/uploads/./name` lead to the same file |
| `ServerStore.CleanupPath` | server.js:529-535 | corrected: a path is given exactly for upload URLs, and it is their DiskPath, directly inside public/uploads |
| `ServerStore.CleanupPaths` | server.js:569-576 | corrected: at most one file per URL |
| `ServerStore.CleanupPathsMeaning` | server.js:569-576 | corrected: every path lies directly in public/uploads; each upload URL's file is among them, and each path comes from one of the URLs |
| `ServerStore.CleanupStaysInUploads` | server.js:569-582 | corrected: the clean-up never removes a file outside public/uploads |
| `ServerStore.CleanupRefusesTraversal` | server.js:529-535 | corrected: `/../name`, `/../../name` and `/uploads/./name` remove nothing, while `/uploads/name` removes `public/uploads/name` |
| `ServerStore.PathsCoverDescriptors` | server.js:69-89 | the written paths are exactly the descriptors' paths |
| `ServerStore.Unlinked` | server.js:571-582 | every listed path whose unlink does not fail is gone; every other file stays; nothing is added |
| `ServerStore.UnlinkedOne` | server.js:529-535 | for one image, the upload file goes unless its unlink fails, and a URL that is not an upload's removes nothing |
| `ServerStore.UnlinkedIdempotent` | server.js:571-582 | running the clean-up twice is running it once |
| `ServerStore.WithoutImageId` | server.js:542 | exactly the rows with that id are deleted and id order is kept |
| `ServerStore.WithoutProject` | server.js:188 | the cascade deletes exactly the project's image rows and keeps id order |
| `ServerStore.WithoutMessage` | server.js:665 | exactly the messages with that id are deleted and id order is kept |
| `ServerStore.MarkedRead` | server.js:647 | only messages with that id get `is_read`; all else is unchanged |
| `ServerStore.ProjectIndex` | server.js:324 | the lookup finds a row with that id, or none exists |
| `ServerStore.ProjectIndexOfRow` | server.js:164 | with increasing ids, a row's own id finds that row |
| `ServerStore.ImageIndex` | server.js:517 | the lookup finds a row matching both ids, or none does |
| `ServerStore.AppendProject` | server.js:164-166 | inserting under the next id with a fresh slug keeps ids increasing and below the counter, and slugs unique |
| `ServerStore.ReplaceProject` | server.js:458-460 | rewriting a row in place under its id with a non-clashing slug keeps the table well formed |
| `ServerStore.RemoveProject` | server.js:586 | deleting a row keeps the table well formed and removes exactly its id |
| `ServerStore.RemovedIds` | server.js:586 | the ids left after deleting a row are the old ids minus its id |
| `ServerStore.FreshProjectHasNoImages` | server.js:184-188 | no image row refers to the id the next project will get |
| `ServerStore.AppendImages` | server.js:420-423 | appending new image rows of an existing project keeps the image table well formed |
| `ServerStore.WithoutImageIdOk` | server.js:542 | deleting an image row keeps the image table well formed |
| `ServerStore.WithoutProjectOk` | server.js:188 | after the cascade, every image row still belongs to a remaining project |
| `ServerStore.WithoutMessageOk` | server.js:665 | deleting a message keeps the message table well formed |
| `ServerStore.Inserted` | server.js:388-423 | a create's two inserts keep both tables well formed; the new row is found under its id and its images read back as the inserted URLs |
| `ServerStore.RowOf` | server.js:385-390 | the row holds the given id, the body's four values and the slug of the title |
| `ServerStore.SlugClash` | server.js:166 | in a table whose slugs are unique, a row never clashes with its own slug |
| `ServerStore.GetProject` | server.js:321-346 | 404 "Proyecto no encontrado" iff no row has the id; otherwise 200 with that row and exactly the URLs of its image rows |
| `ServerStore.CreateKeepsTables` | server.js:377-443 | a create keeps both tables well formed; a 400 or 500 changes nothing; a 201 answer is what a GET of the new id returns; when `imageUrls` throws, no answer is sent and the project is stored without images |
| `ServerStore.CreateEffectStores` | server.js:388-436 | past the checks, the project row is appended, the image rows of the URL list follow (none when it throws), the counters advance, and the answer is 201 with the project or none |
| `ServerStore.Server.constructor` | server.js:162-209 | the tables start empty with counters at 1 |
| `ServerStore.Server.CreateProject` | server.js:377-443 | the answer and the new tables are those of `CreateEffect` (400 "All fields are required", 500 "Server error" on a clashing slug, 201, or no answer when `imageUrls` throws); messages and files are untouched |
| `ServerStore.Server.InsertProject` | server.js:388-423 | the row goes at the end and one image row per URL follows, with consecutive ids; each counter advances by what was inserted; messages and files are untouched |
| `ServerStore.Server.UpdateProject` | server.js:446-510 | 400, 404 "Project not found" or 500 leave the tables and counters alone; otherwise the row is replaced in place, only the uploads are added, the image id counter advances by their number, and the reply equals a GET of the id; messages and the other counters are untouched |
| `ServerStore.Server.RewriteProject` | server.js:458-491 | the row is replaced in place and the project's images become the old ones plus the new ones |
| `ServerStore.Server.DeleteImage` | server.js:513-558 | 404 "Image not found" unless a row matches both ids; otherwise the file of an upload URL is unlinked if possible (no file for any other URL) and the row is deleted regardless; no id counter changes, so no id is reused |
| `ServerStore.Server.UnlinkAll` | server.js:571-582 | the loop removes every path whose unlink does not fail and changes nothing else |
| `ServerStore.Server.DeleteProject` | server.js:561-599 | the files of the project's upload URLs go unless the lookup failed; then 404 "Project not found", or 200 "Project deleted successfully" with the row and its image rows gone; no id counter changes |
| `ServerStore.Server.DeleteProjectRow` | server.js:586-598 | 404 "Project not found" iff no row has the id; otherwise 200 "Project deleted successfully", the row removed in place and its image rows cascaded; files and every id counter untouched, so a deleted id is never handed out again |
| `ServerStore.Server.SubmitContact` | server.js:602-629 | 400 without name, email, subject or message, changing nothing; otherwise 201 with the next message id, a new unread message, phone `''` when missing, and the message counter advanced by one; projects, images and their counters untouched |
| `ServerStore.Server.MarkMessageRead` | server.js:644-659 | 200 "Message marked as read" iff the id exists (404 "Message not found" otherwise); only that message changes, and no id counter |
| `ServerStore.Server.DeleteMessage` | server.js:662-677 | 200 "Contact message deleted successfully" iff the id exists; exactly that message goes, and no id counter changes |
| `ServerStore.Server.ProcessUploads` | server.js:56-99 | the outcome is pass-through iff no files (disk untouched) and processed iff every encode succeeds; the disk gains exactly the paths written; the tables are untouched |
| `ServerStore.Server.PostProject` | server.js:377-443 | the route chain: 401/403 before anything, changing nothing; a part multer stops (another field, an eleventh file, a non-image) gives Express's 500 error page, with nothing stored or written; a failed encode gives 500 "Error al procesar las imágenes subidas" with the tables unchanged and the earlier files left on disk; otherwise the answer and tables are `CreateEffect`'s on the descriptors and every converted file is on disk; messages and their counter are untouched in every case |
| `Api.NormalizeImageUrl` | src/services/api.ts:77-79 | the result is absolute; it equals the input iff the input starts with `http`, and is `SERVER_URL` + input otherwise |
| `Api.NormalizeIdempotent` | src/services/api.ts:4 | normalising twice is normalising once |
| `Api.NormalizeImages` | src/services/api.ts:77-80 | a missing list becomes `[]`; otherwise same length, and each URL is normalised in place |
| `Api.NormalizeImagesIdempotent` | src/services/api.ts:93-95 | normalising a normalised list changes nothing |
| `Api.FromStored` | src/services/api.ts:70-80 | `completion_date` becomes `completionDate`; id, title, slug, location and description are copied; the images are normalised |
| `Api.FromSaved` | src/services/api.ts:141-151 | the create/update answer maps like a stored record |
| `Api.FromStoredAll` | src/services/api.ts:66-81 | one client project per record, in order |
| `Api.ToStored` | src/services/api.ts:70-80 | a client project with absolute images maps back to itself through its stored form |
| `Api.FromStoredAbsolute` | src/services/api.ts:77-79 | every mapped image URL is absolute |
| `Api.LoggedIn` | src/services/api.ts:47-49 | after login the storage is authenticated and holds the token; other keys are untouched |
| `Api.LoggedOut` | src/services/api.ts:54-57 | after logout it is neither authenticated nor holds a token; other keys are untouched |
| `Api.LoginThenLogout` | src/services/api.ts:47-57 | login followed by logout leaves the storage as a plain logout would |
| `Api.MessageOr` | src/services/api.ts:24 | a non-empty message wins, otherwise the fallback |
| `Api.Session.constructor` | src/services/api.ts:7 | the session starts from the given storage |
| `Api.Session.Login` | src/services/api.ts:32-52 | an ok answer stores the token and sets the flag, after which the session is authenticated; an error stores nothing and fails with the message or "Login failed" |
| `Api.Session.Logout` | src/services/api.ts:54-61 | both keys are removed and the session is no longer authenticated |
| `Api.WithBearer` | src/services/api.ts:13-18 | `Authorization: Bearer <token>` is added only for a truthy token; every other header is kept |
| `Api.RequestOptions.constructor` | src/services/api.ts:10 | the options start with the caller's headers |
| `Api.FetchWithAuth` | src/services/api.ts:10-28 | the headers gain the bearer; an ok answer yields its body; an error yields its message or "An error occurred" |
| `Api.FormData.constructor` | src/services/api.ts:116 | a new FormData is empty |
| `Api.FormData.Append` | src/services/api.ts:119 | an append adds one entry at the end |
| `Api.FileEntries` | src/services/api.ts:131-133 | one `images` entry per file, in order |
| `Api.FieldEntries` | src/services/api.ts:119-122 | four text entries, none named `images` or `imageUrls` |
| `Api.CreateEntries` | src/services/api.ts:115-134 | the four fields first; with URLs, one `imageUrls` entry carrying them and then the files; without, no `imageUrls` entry at all |
| `Api.UpdateEntries` | src/services/api.ts:154-168 | the four fields and then the files, and never an `imageUrls` entry |
| `Api.AppendFiles` | src/services/api.ts:130-134 | the loop appends exactly the file entries |
| `Api.AppendFields` | src/services/api.ts:119-122 | the four text fields are appended in order |
| `Api.BuildCreateForm` | src/services/api.ts:115-134 | the body is the fields, then `imageUrls` only when the list is non-empty, then the files |
| `Api.BuildUpdateForm` | src/services/api.ts:154-168 | the body is the fields, then the files, with no `imageUrls` |
| `Api.FieldsAppend` | src/services/api.ts:119-133 | reading a field of a concatenated body reads the first part first |
| `Api.FileEntriesOnlyFiles` | src/services/api.ts:131-133 | file entries carry no text and no URL list |
| `Api.FieldEntriesRead` | src/services/api.ts:119-122 | the four text entries read back as the draft's fields |
| `Api.ReadPastFiles` | src/services/api.ts:130-134 | appending files changes only what `images` reads |
| `Api.CreateFormReadBack` | src/services/api.ts:115-134 | the create body reads back as the four fields, the URL list iff non-empty, and the files in order |
| `Api.UpdateFormReadBack` | src/services/api.ts:154-168 | the update body reads back as the four fields and the files, never a URL list |
| `Api.Create` | src/services/api.ts:115-152 | sends the create body with the bearer headers and maps the answer, or fails with its message |
| `Api.Update` | src/services/api.ts:154-186 | sends the update body with the bearer headers and maps the answer, or fails with its message |
| `Wire.ServerFiles` | server.js:377 | the server sees one file per `images` entry |
| `Wire.CreateRequestArrives` | server.js:378-405 | a create from the client passes validation iff its four fields are non-empty; the stored list is the uploads' URLs then the draft's |
| `Wire.UpdateRequestArrives` | server.js:448-474 | an update passes validation iff the fields are non-empty and never carries body URLs |
| `Wire.BearerArrives` | server.js:224-225 | the header the client adds yields its token at the server |
| `Wire.NoTokenIsUnauthorized` | server.js:227-229 | without a stored token no header is sent and the server answers 401 |
| `Wire.ContactArrives` | server.js:605-611 | the contact JSON passes the server's check iff the four required controls are filled; the phone is truthy iff typed |
| `Lists.RemoveAt` | src/components/admin/AdminProjectForm.tsx:75 | dropping position i keeps the elements before and after it; an index out of range changes nothing |
| `Lists.RemoveAtKeepsOthers` | src/components/admin/AdminProjectForm.tsx:87 | one element fewer, the others shifted in order |
| `Lists.SpliceOne` | src/pages/AdminPanel.tsx:170-171 | `splice(i, 1)` on a copy: position i for 0 <= i < len, from the end for a negative i, nothing past the end |
| `Lists.Filter` | src/pages/AdminPanel.tsx:116 | the survivors are exactly the elements that pass |
| `Lists.FilterAppend` | src/pages/AdminPanel.tsx:116 | filtering keeps the survivors in order |
| `Lists.FilterIdempotent` | src/components/admin/AdminContactMessages.tsx:104 | filtering twice is filtering once |
| `Lists.FilterAllKept` | src/components/admin/AdminContactMessages.tsx:104 | a list whose elements all pass is unchanged |
| `Gallery.Next` | src/components/ImageGallery.tsx:79 | in range, next is `(i + 1) mod len`, so it stays in range |
| `Gallery.Prev` | src/components/ImageGallery.tsx:77 | in range, prev is `(i + len - 1) mod len` |
| `Gallery.NextPrevInverse` | src/components/ImageGallery.tsx:75-97 | next and prev undo each other |
| `Gallery.AdvanceCompose` | src/components/ImageGallery.tsx:79 | a + b presses of next are a presses then b |
| `Gallery.AdvanceStraight` | src/components/ImageGallery.tsx:79 | short of the end, n presses move n places |
| `Gallery.FullCircle` | src/components/ImageGallery.tsx:79 | len presses of next return to the start |
| `Gallery.Thumbnails` | src/components/ImageGallery.tsx:159 | at most eight thumbnails, a prefix of the images |
| `Gallery.ShowAllVisible` | src/components/ImageGallery.tsx:179 | "show all" appears iff some image has no thumbnail |
| `Gallery.ImageGallery.constructor` | src/components/ImageGallery.tsx:10-13 | first image, lightbox closed, compact view |
| `Gallery.ImageGallery.OpenLightbox` | src/components/ImageGallery.tsx:45-50 | the lightbox shows image i at index i and the page stops scrolling |
| `Gallery.ImageGallery.ShowAll` | src/components/ImageGallery.tsx:179-182 | the lightbox opens on the current main image |
| `Gallery.ImageGallery.CloseLightbox` | src/components/ImageGallery.tsx:52-56 | the selection clears and overflow is `auto`; both indices and the view mode are kept |
| `Gallery.ImageGallery.ToggleExpandedView` | src/components/ImageGallery.tsx:58-69 | flips the expanded view and nothing else |
| `Gallery.ImageGallery.CloseExpandedView` | src/components/ImageGallery.tsx:71-73 | leaves the expanded view closed and nothing else changed |
| `Gallery.ImageGallery.SelectThumbnail` | src/components/ImageGallery.tsx:165 | the clicked thumbnail becomes the main image |
| `Gallery.ImageGallery.NavigateMain` | src/components/ImageGallery.tsx:75-81 | the main index steps cyclically and stays in range |
| `Gallery.ImageGallery.NavigateLightbox` | src/components/ImageGallery.tsx:83-97 | the lightbox index steps cyclically and the shown image is the one at it |
| `Gallery.ImageGallery.KeyDown` | src/components/ImageGallery.tsx:17-37 | keys are ignored unless the lightbox or the expanded view is open; Escape closes the lightbox first, else the expanded view; the arrows drive the lightbox first, else the main image; every field a key does not act on is kept |
| `Hero.Tick` | src/components/sections/HeroSection.tsx:38 | the next index is in [0, 4): one more, or 0 after the last |
| `Hero.TicksStraight` | src/components/sections/HeroSection.tsx:38 | short of the last background, n firings move n places |
| `Hero.TicksCompose` | src/components/sections/HeroSection.tsx:38 | a + b firings are a firings then b |
| `Hero.FullCycle` | src/components/sections/HeroSection.tsx:36-42 | every firing stays in range, and four firings return to the start |
| `Hero.Opacity` | src/components/sections/HeroSection.tsx:57 | opacity is 1 exactly for the current background, else 0 |
| `Hero.ExactlyOneVisible` | src/components/sections/HeroSection.tsx:51-57 | the set of visible backgrounds is exactly the current one |
| `Hero.Carousel.constructor` | src/components/sections/HeroSection.tsx:18-19 | index 0 and four false flags |
| `Hero.Carousel.OnInterval` | src/components/sections/HeroSection.tsx:36-38 | one firing advances the index by `Tick` |
| `Hero.Carousel.OnLoad` | src/components/sections/HeroSection.tsx:26-31 | only flag k is set and the length is kept |
| `Hero.LoadAll` | src/components/sections/HeroSection.tsx:22-34 | in any completion order, all four flags end up set |
| `Navbar.DetailPages` | src/components/Navbar.tsx:94 | `/proyectos/<slug>` and `/projects/<slug>` are detail pages |
| `Navbar.IsProjectDetail` | src/components/Navbar.tsx:94 | a path starting `/proyectos/` or `/projects/` is a detail page, and a detail path is at least as long as `/projects/` |
| `Navbar.SectionPagesAreNotDetail` | src/components/Navbar.tsx:94 | `/`, `/servicios` and `/contacto` are not |
| `Navbar.NotContainedUnlessLonger` | src/components/Navbar.tsx:94 | a path shorter than the pattern, or as long but different, does not contain it |
| `Navbar.NavLinks` | src/components/Navbar.tsx:60-64 | five links labelled Inicio … Contacto: `#id` anchors on the home page, and `/` then `/#id` on detail pages |
| `Navbar.DetailLinksLeadHome` | src/components/Navbar.tsx:207-211 | off the home page each link but the first is the home anchor behind `/` |
| `Navbar.Menu.constructor` | src/components/Navbar.tsx:89-90 | the menu starts closed and not scrolled, with whatever body overflow an earlier page left; the menu and the page lock agree iff that is not `hidden` |
| `Navbar.Menu.ToggleMenu` | src/components/Navbar.tsx:96-106 | the menu flips and overflow becomes `hidden` when opening, `''` when closing |
| `Navbar.Menu.CloseMenu` | src/components/Navbar.tsx:108-111 | the menu ends closed with overflow `''` whatever it was, so closing is idempotent |
| `Navbar.Menu.OnScroll` | src/components/Navbar.tsx:114-120 | `scrolled` iff scrollY > 20 |
| `Navbar.Menu.OnResize` | src/components/Navbar.tsx:123-127 | a width of at least 1024 closes an open menu; anything else changes nothing |
| `Navbar.Menu.OnHashChange` | src/components/Navbar.tsx:130-134 | a hash change closes an open menu |
| `Navbar.OpenThenFollowLink` | src/components/Navbar.tsx:96-134 | opening the menu and following an anchor leaves it closed and the page scrollable |
| `Navbar.MountAfterLightbox` | src/components/Navbar.tsx:96-134 | mounted on a page the gallery left `hidden`, the closed menu leaves the page locked through a hash change, and opening and closing the menu unlocks it |
| `ContactSection.With` | src/components/sections/ContactSection.tsx:21-24 | only the named field takes the new value |
| `ContactSection.WithLaws` | src/components/sections/ContactSection.tsx:21-24 | the last write wins, and writing back a field's value changes nothing |
| `ContactSection.ContactForm.constructor` | src/components/sections/ContactSection.tsx:10-18 | five empty fields, not submitting |
| `ContactSection.ContactForm.HandleChange` | src/components/sections/ContactSection.tsx:21-24 | only the named field changes |
| `ContactSection.ContactForm.StartSubmit` | src/components/sections/ContactSection.tsx:27-32 | the form's data is sent and the button disables |
| `ContactSection.ContactForm.FinishSubmit` | src/components/sections/ContactSection.tsx:42-60 | success resets all five fields, failure keeps them, and the button is enabled either way |
| `ContactSection.ContactForm.HandleSubmit` | src/components/sections/ContactSection.tsx:27-61 | a whole submit: sends the data, resets on success, and ends enabled |
| `ContactSection.TypingDuringSubmit` | src/components/sections/ContactSection.tsx:27-61 | text typed while a submit is in flight is lost on success and kept on failure |
| `IndexPage.ScrollTarget` | src/pages/Index.tsx:34-60 | a usable `scrollTo` wins; otherwise `/servicios` gives `services` and `/contacto` gives `contact` when present; anything else gives nothing |
| `IndexPage.QueryBeatsPath` | src/pages/Index.tsx:36-45 | with a usable `scrollTo` the path is ignored |
| `IndexPage.MissingTargetFallsBack` | src/pages/Index.tsx:39-54 | a `scrollTo` naming no element is the same as none |
| `ProjectDetail.Decide` | src/pages/ProjectDetailPage.tsx:21-28 | redirect iff an English path has a slug; fetch iff a slug is on any other path; nothing without a slug |
| `ProjectDetail.RedirectThenFetch` | src/pages/ProjectDetailPage.tsx:21-25 | the redirect target fetches the same slug, so redirecting never loops |
| `ProjectDetail.Page.constructor` | src/pages/ProjectDetailPage.tsx:14-17 | no project, loading, no error, no image |
| `ProjectDetail.Page.CurrentView` | src/pages/ProjectDetailPage.tsx:47-74 | spinner while loading, not found on an error or no project, the project otherwise |
| `ProjectDetail.Page.Effect` | src/pages/ProjectDetailPage.tsx:19-45 | no fetch leaves the state alone. A success stores the project, selects its first image and clears the error; a failure sets "No se pudo cargar el proyecto". Loading ends either way |
| `ProjectDetail.NoSlugSpinsForever` | src/pages/ProjectDetailPage.tsx:28 | without a slug the page stays on the spinner |
| `ProjectDetail.FirstLoad` | src/pages/ProjectDetailPage.tsx:30-41 | a failed first load shows not-found; a successful one shows the project on its first image |
| `AdminPanel.ReplaceById` | src/pages/AdminPanel.tsx:94 | same length; exactly the entries with that id are replaced |
| `AdminPanel.ReplaceImagesById` | src/pages/AdminPanel.tsx:179-183 | same length; only the images of entries with that id change |
| `AdminPanel.RemoveById` | src/pages/AdminPanel.tsx:116 | the survivors are exactly the entries without that id |
| `AdminPanel.RemoveByIdOrdered` | src/pages/AdminPanel.tsx:116 | deleting keeps the others in order, and deleting twice is deleting once |
| `AdminPanel.FindIndex` | src/pages/AdminPanel.tsx:162 | the first position holding the URL, or -1 iff absent |
| `AdminPanel.AsWrittenImageId` | src/pages/AdminPanel.tsx:162 | the id sent is 0 iff the URL is absent, else its position plus one |
| `AdminPanel.UploadedImagesNeverFound` | src/pages/AdminPanel.tsx:157-164 | a shown (normalised) upload URL is never in the fetched raw list, so the id is 0 |
| `AdminPanel.PositionIsNotRowId` | src/pages/AdminPanel.tsx:162-166 | with rows 2 and 3, the second image's id comes out as 2, and the server deletes the first |
| `AdminPanel.UploadedImageDroppedAnyway` | src/pages/AdminPanel.tsx:139-199 | as written, an uploaded image sends id 0, yet the form still drops it from its list |
| `AdminPanel.ImageIdFor` | src/pages/AdminPanel.tsx:157-162 | an id is found iff some row's normalised URL is the clicked one, and it is that row's id |
| `AdminPanel.ShownImagesFound` | src/pages/AdminPanel.tsx:157-162 | every image the editor shows is found, as a row of that project |
| `AdminPanel.Panel.constructor` | src/pages/AdminPanel.tsx:15-16 | the loaded projects, nothing selected |
| `AdminPanel.Panel.HandleAddProject` | src/pages/AdminPanel.tsx:48-64 | the created project is appended; a failure changes nothing |
| `AdminPanel.Panel.HandleEditProject` | src/pages/AdminPanel.tsx:66-111 | no id: no call, no change. On success the matching entries are replaced and the selection cleared; a failure changes nothing |
| `AdminPanel.Panel.HandleDeleteProject` | src/pages/AdminPanel.tsx:113-129 | on success every entry with that id goes; a failure changes nothing |
| `AdminPanel.Panel.HandleDeleteImage` | src/pages/AdminPanel.tsx:139-199 | nothing without a selection or an id. On success the selected project loses exactly position `imageIndex`, and the same list replaces its images in `projects` |
| `ProjectForm.AddFiles` | src/components/admin/AdminProjectForm.tsx:79-84 | the picked files follow the earlier ones; an empty pick changes nothing |
| `ProjectForm.Form.constructor` | src/components/admin/AdminProjectForm.tsx:44-50 | the project's values, or empty fields |
| `ProjectForm.Form.TypeImageUrl` | src/components/admin/AdminProjectForm.tsx:48 | only the URL input changes |
| `ProjectForm.Form.AddImage` | src/components/admin/AdminProjectForm.tsx:53-58 | a non-blank URL is appended untrimmed and the input clears; a blank one changes nothing |
| `ProjectForm.Form.RemoveImage` | src/components/admin/AdminProjectForm.tsx:60-77 | when editing with the callback, the callback is asked first and position i goes only on success; otherwise position i goes at once |
| `ProjectForm.Form.HandleFileChange` | src/components/admin/AdminProjectForm.tsx:79-84 | the files become `AddFiles` of the old ones and the pick |
| `ProjectForm.Form.RemoveFile` | src/components/admin/AdminProjectForm.tsx:86-88 | exactly position i of the files goes |
| `ProjectForm.Form.HandleSubmit` | src/components/admin/AdminProjectForm.tsx:90-119 | hands over the values, with the id only when editing; a new-project form resets every field but the URL input, while an edit form keeps them |
| `ProjectForm.EditUnchanged` | src/components/admin/AdminProjectForm.tsx:44-106 | an edit form submitted at once returns its project's own values and id |
| `ProjectForm.AddThenRemove` | src/components/admin/AdminProjectForm.tsx:53-75 | adding a URL and removing it again restores the list |
| `ContactMessages.MarkReadById` | src/components/admin/AdminContactMessages.tsx:79-81 | same length; only messages with that id get the flag |
| `ContactMessages.MarkReadByIdMeaning` | src/components/admin/AdminContactMessages.tsx:79-81 | marking changes only the read flag, sets it exactly for that id, and marking twice is marking once |
| `ContactMessages.RemoveById` | src/components/admin/AdminContactMessages.tsx:104 | the survivors are exactly the messages without that id |
| `ContactMessages.RemoveByIdOrdered` | src/components/admin/AdminContactMessages.tsx:104 | deleting keeps the others in order, and a list without the id is unchanged |
| `ContactMessages.Inbox.constructor` | src/components/admin/AdminContactMessages.tsx:39-42 | empty, loading, nothing selected, dialog closed |
| `ContactMessages.Inbox.FetchMessages` | src/components/admin/AdminContactMessages.tsx:49-64 | a success replaces the list, a failure keeps it, and loading ends |
| `ContactMessages.Inbox.MarkAsRead` | src/components/admin/AdminContactMessages.tsx:76-99 | on success the list is marked, and the selection too when it has that id; a failure changes nothing |
| `ContactMessages.Inbox.ViewMessage` | src/components/admin/AdminContactMessages.tsx:66-74 | the message is selected and the dialog opens. An unread one is marked read in the list, and the selection test uses the previous selection |
| `ContactMessages.Inbox.DeleteMessage` | src/components/admin/AdminContactMessages.tsx:101-117 | on success every message with that id goes; a failure changes nothing |
| `ContactMessages.ViewFreshMessage` | src/components/admin/AdminContactMessages.tsx:66-85 | viewing an unread message marks it read in the list while the dialog's copy stays unread |

## Left out

- Image decoding, resizing and WebP encoding by sharp: a foreign library. Whether encoding file i succeeds is the input `encoded[i]`.
- `Date.now()` and `Math.random()`: the input `stamps[i]`.
- bcrypt, JWT signing and verification: the token verdict is the input `isValid`.
- MySQL:
  - The tables are sequences of rows with auto-increment counters.
  - Database errors are not modelled, apart from the unique-slug violation, which becomes the handlers' 500 "Server error".
  - The `affectedRows === 0` branch after an image row was just found (server.js:548-550) cannot occur without concurrency.
  - The `ORDER BY created_at` listing and the GET-all/GET-by-slug routes only read and are not modelled.
- Multer:
  - Only its hand-over of the text fields and the `images` files is modelled.
  - Its field-name check and 10-file limit are modelled (`Upload.IntakeFiles`); its 10 MB file-size limit is not, since file contents are left out.
  - The multipart parsing itself is not.
- ServerStore.Server.UpdateProject: the image insert is not awaited before the select (server.js:478-491). The model treats the insert as done first, so the reply lists the new images. Request concurrency and promise ordering in general are left out.
- ServerStore.Server.PostProject: a part multer stops is an error passed to Express's default handler, which answers 500 with an HTML error page; the model keeps only the status (`Reply.ErrorPage(500)`), not the page's text.
- ServerStore.Server.UpdateProject: the PUT route's authentication, multer and `processImages` steps (server.js:446) are the same as the POST route's and are composed only for the POST route (`ServerStore.Server.PostProject`).
- ServerStore.UploadUrlFindsFile: it assumes a field name without a slash; multer accepts only the field `images`.
- ServerStore.Server.CreateProject: when `imageUrls` throws inside the database callback, the model records that no answer is sent and no image row is written. What the uncaught exception does to the process (a crash, a restart) is not modelled.
- ServerStore.CreateImageUrls: a parsed array's elements are taken to be strings; other JSON values inside the array are not modelled.
- ServerStore.Server.CreateProject: the read-back of a 201 answer is stated by `ServerStore.CreateKeepsTables` on `CreateEffect`, not in the method's own contract.
- ServerStore.ProjectJson: the JSON key names are not modelled, only the values. They differ between routes: `completionDate` in a create's answer, `completion_date` with `created_at`/`updated_at` in a GET.
- Paths.Normalize: paths are taken relative to the server directory. The filesystem root, where an absolute path stops climbing, is not modelled.
- ServerStore.CleanupPaths: an upload URL stored for two projects still loses its file when either project is deleted.
- Express routing, static serving, CORS, and the login route's user lookup are not modelled.
- `fetch` itself: every answer is an input, either ok with a body or not ok with an optional message.
- The client's `VITE_API_URL` base in `handleDeleteImage` is taken to be the same server as `API_URL`.
- Toasts, console logging, JSX rendering, CSS classes and animations are not modelled.
- Also not modelled: `setTimeout`/`setInterval` timing, `scrollIntoView`, `getBoundingClientRect`, and listener registration.
- ScrollReveal.tsx, `formatDate` and the purely presentational pages are not part of this model.
- `URLSearchParams` parsing: the `scrollTo` value is an input.
- `toLowerCase` is modelled on ASCII letters only; the Unicode case mapping of other letters is not modelled.
- `type="email"` browser validation of the contact form is not modelled; only the `required` controls are.
- ProjectForm.Form.RemoveImage: the index is that of a rendered image, so it is required to be in range.
- AdminPanel.Panel.HandleDeleteImage: this handler uses the corrected image-id lookup (see Findings).
- ServerStore.Server.DeleteImage and ServerStore.Server.DeleteProject: these handlers use the corrected clean-up path (see Findings); `ServerStore.DiskPath` keeps the code as written.
- In-flight React updates: a handler's later `setX` from an earlier render's closure that overwrites a newer state is modelled only where the source calls one handler from another in the same render (`ViewMessage`).

## Findings

| source | as written | input that shows it | evidently intended | confidence | as-written member | corrected member |
|---|---|---|---|---|---|---|
| src/pages/AdminPanel.tsx:157-164 | The clicked URL is the normalised one (`http://localhost:3000/uploads/…`), but it is looked up in the raw list the server answers (`/uploads/…`). The id sent is its position plus one, not the row's id | Any uploaded image: the URL is never found, so the id is 0 and nothing is deleted, yet the form still drops the image from its list. With rows 2 and 3 holding two external URLs, deleting the second sends id 2, and the server deletes the first | Find the image row whose URL, normalised as the editor shows it, is the clicked one, and send that row's id. This needs the server's answer to carry image ids | not executed | `AdminPanel.AsWrittenImageId` (with `AdminPanel.UploadedImagesNeverFound`, `AdminPanel.PositionIsNotRowId` and `AdminPanel.UploadedImageDroppedAnyway`) | `AdminPanel.ImageIdFor` (with `AdminPanel.ShownImagesFound`), used by `AdminPanel.Panel.HandleDeleteImage` |
| server.js:529-582 | A deletion removes `path.join(__dirname, 'public', image_url)` for whatever URL the image row holds. A row can hold any URL: the body's `imageUrls` is stored as given. The joined path is normalised, so `..` segments climb out of `public` | A project created with `imageUrls` `["/../server.js"]` and then deleted: the clean-up unlinks `server.js` in the server directory. `/../../x` reaches the directory above it. `/uploads/./a.webp` removes the same file as `/uploads/a.webp` | Remove a file only for a URL of the server's own upload shape, `/uploads/<file name>`, and so only inside public/uploads | not executed | `ServerStore.DiskPath` (with `ServerStore.StoredUrlEscapes` and `ServerStore.DottedUrlSharesFile`) | `ServerStore.CleanupPath` and `ServerStore.CleanupPaths` (with `ServerStore.CleanupPathsMeaning`, `ServerStore.CleanupStaysInUploads` and `ServerStore.CleanupRefusesTraversal`), used by `ServerStore.Server.DeleteImage` and `ServerStore.Server.DeleteProject` |
