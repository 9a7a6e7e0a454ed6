/** The admin's project form, src/components/admin/AdminProjectForm.tsx: its
    text fields, the image-URL list it edits, the files picked for upload,
    and what it hands to the panel on submit. */
module ProjectForm {
  import opened Wrappers
  import opened Strings
  import opened Lists
  import Api

  /** What `onSubmit` receives: the draft, the project's id when editing,
      and the picked files. */
  datatype Submission = Submission(draft: Api.Draft, id: Option<nat>, files: seq<Api.File>)

  /** `[...files, ...newFiles]`, or nothing when the picker returned none. */
  function AddFiles(files: seq<Api.File>, picked: Option<seq<Api.File>>): (r: seq<Api.File>)
    ensures picked.Some? ==> |r| == |files| + |picked.value|
    ensures |r| >= |files| && r[..|files|] == files
    ensures picked.Some? ==> r[|files|..] == picked.value
    ensures picked.None? ==> r == files
  {
    if picked.Some? && |picked.value| > 0 then files + picked.value else files
  }

  class Form {
    const isEditing: bool
    /** The project being edited, if any. */
    const project: Option<Api.Project>
    /** Whether the panel passed `onDeleteImage`. */
    const hasDeleteImage: bool

    var title: string
    var location: string
    var completionDate: string
    var description: string
    var imageUrl: string
    var images: seq<string>
    var files: seq<Api.File>

    /** The initial state: the project's values, or empty fields. */
    constructor (isEditing: bool, project: Option<Api.Project>, hasDeleteImage: bool)
      ensures this.isEditing == isEditing && this.project == project && this.hasDeleteImage == hasDeleteImage
      ensures project.Some? ==>
        && title == project.value.title && location == project.value.location
        && completionDate == project.value.completionDate && description == project.value.description
        && images == project.value.images
      ensures project.None? ==>
        title == "" && location == "" && completionDate == "" && description == "" && images == []
      ensures imageUrl == "" && files == []
    {
      this.isEditing := isEditing;
      this.project := project;
      this.hasDeleteImage := hasDeleteImage;
      if project.Some? {
        title, location := project.value.title, project.value.location;
        completionDate, description := project.value.completionDate, project.value.description;
        images := project.value.images;
      } else {
        title, location, completionDate, description := "", "", "", "";
        images := [];
      }
      imageUrl := "";
      files := [];
    }

    /** Typing in the image-URL input. */
    method TypeImageUrl(text: string)
      modifies this
      ensures imageUrl == text
      ensures images == old(images) && files == old(files)
      ensures title == old(title) && location == old(location)
      ensures completionDate == old(completionDate) && description == old(description)
    {
      imageUrl := text;
    }

    /** `addImage`: a URL that is not all whitespace is appended as typed
        (untrimmed) and the input clears; a blank one is ignored. */
    method AddImage()
      modifies this
      ensures !AllWhitespace(old(imageUrl)) ==> images == old(images) + [old(imageUrl)] && imageUrl == ""
      ensures AllWhitespace(old(imageUrl)) ==> images == old(images) && imageUrl == old(imageUrl)
      ensures files == old(files) && title == old(title) && location == old(location)
      ensures completionDate == old(completionDate) && description == old(description)
    {
      TrimEmptyIff(imageUrl);
      if Trim(imageUrl) != [] {
        images := images + [imageUrl];
        imageUrl := "";
      }
    }

    /** `removeImage(index)`, from the remove button of image `index`. When
        editing with a deletion callback, the callback is asked to delete the
        image and the list loses it only if that succeeds; otherwise the
        list loses it at once. */
    method RemoveImage(index: int, deleted: bool) returns (call: Option<(string, int)>)
      requires 0 <= index < |images|
      modifies this
      ensures isEditing && project.Some? && hasDeleteImage ==> call == Some((old(images)[index], index))
      ensures !(isEditing && project.Some? && hasDeleteImage) ==> call.None?
      ensures call.None? || deleted ==> images == RemoveAt(old(images), index)
      ensures call.Some? && !deleted ==> images == old(images)
      ensures |images| == |old(images)| || |images| == |old(images)| - 1
      ensures files == old(files) && imageUrl == old(imageUrl)
      ensures title == old(title) && location == old(location)
      ensures completionDate == old(completionDate) && description == old(description)
    {
      if isEditing && project.Some? && hasDeleteImage {
        call := Some((images[index], index));
        if deleted {
          images := RemoveAt(images, index);
        }
      } else {
        call := None;
        images := RemoveAt(images, index);
      }
    }

    /** `handleFileChange`: newly picked files go after the earlier ones. */
    method HandleFileChange(picked: Option<seq<Api.File>>)
      modifies this
      ensures files == AddFiles(old(files), picked)
      ensures images == old(images) && imageUrl == old(imageUrl)
      ensures title == old(title) && location == old(location)
      ensures completionDate == old(completionDate) && description == old(description)
    {
      files := AddFiles(files, picked);
    }

    /** `removeFile(index)` */
    method RemoveFile(index: int)
      modifies this
      ensures files == RemoveAt(old(files), index)
      ensures images == old(images) && imageUrl == old(imageUrl)
      ensures title == old(title) && location == old(location)
      ensures completionDate == old(completionDate) && description == old(description)
    {
      files := RemoveAt(files, index);
    }

    /** `handleSubmit`: hands over the current values, with the project's id
        when editing; a new-project form then clears everything but the
        image-URL input, while an edit form keeps its values. */
    method HandleSubmit() returns (s: Submission)
      modifies this
      ensures s.draft == Api.Draft(old(title), old(location), old(completionDate), old(description), old(images))
      ensures s.files == old(files)
      ensures s.id == if isEditing && project.Some? then Some(project.value.id) else None
      ensures !isEditing ==>
        && title == "" && location == "" && completionDate == "" && description == ""
        && images == [] && files == []
      ensures isEditing ==>
        && title == old(title) && location == old(location) && completionDate == old(completionDate)
        && description == old(description) && images == old(images) && files == old(files)
      ensures imageUrl == old(imageUrl)
    {
      var id := if isEditing && project.Some? then Some(project.value.id) else None;
      s := Submission(Api.Draft(title, location, completionDate, description, images), id, files);
      if !isEditing {
        title, location, completionDate, description := "", "", "", "";
        images := [];
        files := [];
      }
    }
  }

  /** Opening the form on a project and submitting at once hands back the
      project's own values: the edit form round-trips its project. */
  method EditUnchanged(p: Api.Project) returns (s: Submission)
    ensures s == Submission(Api.Draft(p.title, p.location, p.completionDate, p.description, p.images),
                            Some(p.id), [])
  {
    var form := new Form(true, Some(p), true);
    s := form.HandleSubmit();
  }

  /** Adding an image URL and then removing it again, on a form with no
      deletion callback, restores the list. */
  method AddThenRemove(text: string) returns (before: seq<string>, after: seq<string>)
    requires !AllWhitespace(text)
    ensures after == before
  {
    var form := new Form(false, None, false);
    before := form.images;
    form.TypeImageUrl(text);
    form.AddImage();
    var _ := form.RemoveImage(|form.images| - 1, true);
    after := form.images;
    assert RemoveAt(before + [text], |before|) == before;
  }
}
