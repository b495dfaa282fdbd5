/** The project editor of src/components/ProjectForm.tsx: the form record, the updaters its
    handlers apply to it, and the component state those handlers change. */
module ProjectFormState {
  import opened Wrappers
  import opened Text
  import opened Lists

  datatype ProjectStatus = Draft | Published | Completed | InProgress

  /** An uploaded file, by the two properties the form looks at. */
  datatype FileRef = FileRef(name: string, mimeType: string)

  datatype ProjectData = ProjectData(
    titleAr: string, titleEn: string, descriptionAr: string, descriptionEn: string,
    coverImage: Option<FileRef>, gallery: seq<FileRef>, status: ProjectStatus)

  /** The form's initial value, and the value it is reset to after a submission. */
  const EmptyProject := ProjectData("", "", "", "", None, [], Draft)

  /** The most images the gallery keeps. */
  const GalleryLimit: nat := 10

  /** The text fields the inputs edit through `handleInputChange`. */
  datatype TextField = TitleAr | TitleEn | DescriptionAr | DescriptionEn

  function FieldValue(d: ProjectData, field: TextField): string {
    match field
    case TitleAr => d.titleAr
    case TitleEn => d.titleEn
    case DescriptionAr => d.descriptionAr
    case DescriptionEn => d.descriptionEn
  }

  /** `file.type.startsWith('image/')`. */
  predicate IsImage(f: FileRef) {
    StartsWith(f.mimeType, "image/")
  }

  /** The `handleInputChange` updater: the named field takes the value and nothing else changes. */
  function WithInput(d: ProjectData, field: TextField, value: string): (r: ProjectData)
    ensures FieldValue(r, field) == value
    ensures forall g :: g != field ==> FieldValue(r, g) == FieldValue(d, g)
    ensures r.coverImage == d.coverImage && r.gallery == d.gallery && r.status == d.status
  {
    match field
    case TitleAr => d.(titleAr := value)
    case TitleEn => d.(titleEn := value)
    case DescriptionAr => d.(descriptionAr := value)
    case DescriptionEn => d.(descriptionEn := value)
  }

  /** The `handleCoverImageUpload` updater: an image becomes the cover; any other file leaves
      the form as it was. */
  function WithCover(d: ProjectData, f: FileRef): (r: ProjectData)
    ensures r.coverImage == (if IsImage(f) then Some(f) else d.coverImage)
    ensures r.(coverImage := d.coverImage) == d
  {
    if IsImage(f) then d.(coverImage := Some(f)) else d
  }

  /** The `handleGalleryUpload` updater: the image files appended after the current gallery, in
      their order, and the first ten kept. */
  function WithUpload(d: ProjectData, files: seq<FileRef>): (r: ProjectData)
    ensures |r.gallery| == if |d.gallery + Filter(files, IsImage)| <= GalleryLimit
                           then |d.gallery + Filter(files, IsImage)| else GalleryLimit
    ensures r.gallery <= d.gallery + Filter(files, IsImage)
    ensures |d.gallery + Filter(files, IsImage)| <= GalleryLimit ==> r.gallery == d.gallery + Filter(files, IsImage)
    ensures |d.gallery| <= GalleryLimit ==> d.gallery <= r.gallery
    ensures forall i :: 0 <= i < |r.gallery| ==> r.gallery[i] in d.gallery || (r.gallery[i] in files && IsImage(r.gallery[i]))
    ensures r.(gallery := d.gallery) == d
  {
    var images := Filter(files, IsImage);
    FilterMembers(files, IsImage);
    var r := d.(gallery := Take(d.gallery + images, GalleryLimit));
    assert forall i :: 0 <= i < |r.gallery| ==> r.gallery[i] == (d.gallery + images)[i];
    r
  }

  /** The `removeGalleryImage` updater: the image at `index` removed and the rest kept in order;
      an index outside the gallery changes nothing. */
  function WithoutImage(d: ProjectData, index: int): (r: ProjectData)
    ensures |r.gallery| <= |d.gallery|
    ensures 0 <= index < |d.gallery| ==>
              |r.gallery| == |d.gallery| - 1 &&
              (forall i :: 0 <= i < index ==> r.gallery[i] == d.gallery[i]) &&
              (forall i :: index <= i < |r.gallery| ==> r.gallery[i] == d.gallery[i + 1])
    ensures !(0 <= index < |d.gallery|) ==> r == d
    ensures r.(gallery := d.gallery) == d
  {
    d.(gallery := RemoveIndex(d.gallery, index))
  }

  /** `isFormValid`: both titles and both descriptions are filled in. */
  predicate IsFormValid(d: ProjectData) {
    d.titleAr != "" && d.titleEn != "" && d.descriptionAr != "" && d.descriptionEn != ""
  }

  /** The empty form is not valid, and filling in the four text fields with non-empty text
      makes any form valid. Images and status play no part. */
  lemma ValidityIsTheFourTexts(d: ProjectData, ta: string, te: string, da: string, de: string,
                               cover: FileRef, files: seq<FileRef>, index: int)
    requires ta != "" && te != "" && da != "" && de != ""
    ensures !IsFormValid(EmptyProject)
    ensures IsFormValid(WithInput(WithInput(WithInput(WithInput(d, TitleAr, ta), TitleEn, te), DescriptionAr, da), DescriptionEn, de))
    ensures IsFormValid(WithCover(d, cover)) == IsFormValid(d)
    ensures IsFormValid(WithUpload(d, files)) == IsFormValid(d)
    ensures IsFormValid(WithoutImage(d, index)) == IsFormValid(d)
  {
    var a := WithInput(d, TitleAr, ta);
    var b := WithInput(a, TitleEn, te);
    var c := WithInput(b, DescriptionAr, da);
    var e := WithInput(c, DescriptionEn, de);
    assert FieldValue(e, TitleAr) == FieldValue(c, TitleAr) == FieldValue(b, TitleAr) == ta;
    assert FieldValue(e, TitleEn) == FieldValue(c, TitleEn) == te;
    assert FieldValue(e, DescriptionAr) == da;
  }

  /** The form's component state: the record and the two flags. */
  class ProjectForm {
    var projectData: ProjectData
    var dragActive: bool
    var isSubmitting: bool

    /** The gallery never holds more than ten images. */
    ghost predicate Valid()
      reads this
    {
      |projectData.gallery| <= GalleryLimit
    }

    constructor ()
      ensures projectData == EmptyProject && !dragActive && !isSubmitting
      ensures Valid()
    {
      projectData, dragActive, isSubmitting := EmptyProject, false, false;
    }

    /** The submit buttons are disabled while a submission runs or while any of the four text
        fields is empty. */
    function SubmitDisabled(): (disabled: bool)
      reads this
      ensures disabled <==> isSubmitting || exists f :: FieldValue(projectData, f) == ""
    {
      assert FieldValue(projectData, TitleAr) == projectData.titleAr;
      assert FieldValue(projectData, TitleEn) == projectData.titleEn;
      assert FieldValue(projectData, DescriptionAr) == projectData.descriptionAr;
      assert FieldValue(projectData, DescriptionEn) == projectData.descriptionEn;
      !IsFormValid(projectData) || isSubmitting
    }

    method HandleInputChange(field: TextField, value: string)
      modifies this`projectData
      requires Valid()
      ensures Valid()
      ensures projectData == WithInput(old(projectData), field, value)
    {
      projectData := WithInput(projectData, field, value);
    }

    method HandleCoverImageUpload(file: FileRef)
      modifies this`projectData
      requires Valid()
      ensures Valid()
      ensures projectData == WithCover(old(projectData), file)
    {
      if IsImage(file) {
        projectData := projectData.(coverImage := Some(file));
      }
    }

    method HandleGalleryUpload(files: seq<FileRef>)
      modifies this`projectData
      ensures Valid()
      ensures projectData == WithUpload(old(projectData), files)
    {
      var imageFiles := Filter(files, IsImage);
      projectData := projectData.(gallery := Take(projectData.gallery + imageFiles, GalleryLimit));
    }

    method RemoveGalleryImage(index: int)
      modifies this`projectData
      requires Valid()
      ensures Valid()
      ensures projectData == WithoutImage(old(projectData), index)
    {
      projectData := projectData.(gallery := RemoveIndex(projectData.gallery, index));
    }

    /** `handleDrag`: entering or moving over the drop zone activates it, leaving deactivates
        it, and any other event type changes nothing. */
    method HandleDrag(eventType: string)
      modifies this`dragActive
      ensures dragActive == if eventType == "dragenter" || eventType == "dragover" then true
                            else if eventType == "dragleave" then false
                            else old(dragActive)
    {
      if eventType == "dragenter" || eventType == "dragover" {
        dragActive := true;
      } else if eventType == "dragleave" {
        dragActive := false;
      }
    }

    /** `handleDrop`: the zone is deactivated, and the dropped files are uploaded when there is
        at least one. */
    method HandleDrop(files: seq<FileRef>)
      modifies this`dragActive, this`projectData
      requires Valid()
      ensures Valid()
      ensures !dragActive
      ensures projectData == if files != [] then WithUpload(old(projectData), files) else old(projectData)
    {
      dragActive := false;
      if files != [] {
        HandleGalleryUpload(files);
      }
    }

    /** `handleSubmit`: the chosen status goes only into the log line; afterwards the form is
        back to its empty defaults with status draft, and no submission is running. */
    method HandleSubmit(status: ProjectStatus)
      modifies this`projectData, this`isSubmitting
      ensures Valid()
      ensures projectData == EmptyProject && projectData.status == Draft
      ensures !isSubmitting
    {
      isSubmitting := true;
      projectData := EmptyProject;
      isSubmitting := false;
    }
  }
}
