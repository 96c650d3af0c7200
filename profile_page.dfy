/**
 * The guards of the profile page: which picked files are accepted, when a
 * photo upload is sent, and what the two cancel buttons restore. Alerts are
 * returned as their text; the request itself and its answer are not modelled.
 */
module ProfilePage {
  import opened Wrappers
  import opened Strings
  import opened ProfileController

  /** What the browser reports of a picked file. */
  datatype PickedFile = PickedFile(mimeType: string, size: nat)

  /** The edit form's four fields. */
  datatype FormData = FormData(name: string, age: string, gender: string, citizen: string)

  /** The 5 MB limit, in bytes. */
  const MaxBytes: nat := 5 * 1024 * 1024

  predicate IsImageType(mimeType: string) {
    StartsWith(mimeType, "image/")
  }

  /**
   * The checks of `handleFileChange`, type first: the text of the alert that
   * rejects the file, or None when it is accepted.
   */
  function FileRejection(f: PickedFile): (r: Option<string>)
    ensures r.None? <==> IsImageType(f.mimeType) && f.size <= MaxBytes
    ensures !IsImageType(f.mimeType) ==> r == Some("Please select an image file")
    ensures IsImageType(f.mimeType) && f.size > MaxBytes ==> r == Some("File size must be less than 5MB")
  {
    if !IsImageType(f.mimeType) then Some("Please select an image file")
    else if f.size > MaxBytes then Some("File size must be less than 5MB")
    else None
  }

  /** The limit is inclusive: exactly 5 MiB passes, one byte more does not. */
  lemma SizeLimitInclusive(mimeType: string)
    requires IsImageType(mimeType)
    ensures FileRejection(PickedFile(mimeType, 5242880)).None?
    ensures FileRejection(PickedFile(mimeType, 5242881)) == Some("File size must be less than 5MB")
  {
  }

  /** The type check compares the prefix exactly, so neither case nor a missing slash passes. */
  lemma TypePrefixExact()
    ensures FileRejection(PickedFile("image/png", 10)).None?
    ensures FileRejection(PickedFile("Image/png", 10)).Some?
    ensures FileRejection(PickedFile("image", 10)).Some?
  {
    assert "Image/png"[..6][0] == 'I';
  }

  /** The first step of `handleUploadPhoto`: an alert, or the PATCH it sends. */
  datatype UploadStep = UploadAlert(text: string) | SendPatch(path: string, file: PickedFile)

  /** `` `/profiles/${profile.id}/profilePict` `` */
  function PicturePath(id: nat): (p: string)
    ensures StartsWith(p, "/profiles/")
  {
    "/profiles/" + NatToString(id) + "/profilePict"
  }

  /** Distinct profiles upload to distinct paths: the id can be read back from the path. */
  lemma {:induction false} PicturePathInjective(m: nat, n: nat)
    requires PicturePath(m) == PicturePath(n)
    ensures m == n
  {
    var a, b := NatToString(m), NatToString(n);
    var pre := "/profiles/";
    assert |a| == |b|;
    assert a == PicturePath(m)[|pre|..|pre| + |a|];
    assert b == PicturePath(n)[|pre|..|pre| + |b|];
    NatToStringInjective(m, n);
  }

  /** The profile page's state. */
  class ProfilePageState {
    var profile: Option<Profile>
    var selectedFile: Option<PickedFile>
    var previewUrl: Option<string>
    /** The value of the `photoInput` element; clearing it is assigning "". */
    var inputValue: string
    var isUploading: bool
    var isEditing: bool
    var formData: FormData

    constructor ()
      ensures profile.None? && selectedFile.None? && previewUrl.None? && inputValue == ""
      ensures !isUploading && !isEditing && formData == FormData("", "", "", "")
    {
      profile := None;
      selectedFile := None;
      previewUrl := None;
      inputValue := "";
      isUploading := false;
      isEditing := false;
      formData := FormData("", "", "", "");
    }

    /**
     * `handleFileChange`: no file changes nothing; a rejected file clears the
     * input and keeps the previous selection; an accepted one is selected.
     */
    method HandleFileChange(file: Option<PickedFile>) returns (alert: Option<string>)
      modifies this
      ensures profile == old(profile) && previewUrl == old(previewUrl)
      ensures isUploading == old(isUploading) && isEditing == old(isEditing) && formData == old(formData)
      ensures file.None? ==> alert.None? && selectedFile == old(selectedFile) && inputValue == old(inputValue)
      ensures file.Some? ==> alert == FileRejection(file.value)
      ensures file.Some? && alert.Some? ==> selectedFile == old(selectedFile) && inputValue == ""
      ensures file.Some? && alert.None? ==> selectedFile == file && inputValue == old(inputValue)
    {
      alert := None;
      if file.Some? {
        var f := file.value;
        if !IsImageType(f.mimeType) {
          alert := Some("Please select an image file");
          inputValue := "";
          return;
        }
        if f.size > MaxBytes {
          alert := Some("File size must be less than 5MB");
          inputValue := "";
          return;
        }
        selectedFile := Some(f);
      }
    }

    /** The `FileReader` finishing: the preview shows the file's data URL. */
    method PreviewLoaded(dataUrl: string)
      modifies this
      ensures previewUrl == Some(dataUrl)
      ensures profile == old(profile) && selectedFile == old(selectedFile) && inputValue == old(inputValue)
      ensures isUploading == old(isUploading) && isEditing == old(isEditing) && formData == old(formData)
    {
      previewUrl := Some(dataUrl);
    }

    /**
     * `handleUploadPhoto` up to the request: a profile with a (truthy) id is
     * required first, a selected file second; only then is the PATCH sent.
     */
    method HandleUploadPhoto() returns (step: UploadStep)
      modifies this
      ensures profile == old(profile) && selectedFile == old(selectedFile) && previewUrl == old(previewUrl)
      ensures inputValue == old(inputValue) && isEditing == old(isEditing) && formData == old(formData)
      ensures (old(profile).None? || old(profile).value.id == 0) ==>
        step == UploadAlert("Profile data not found") && isUploading == old(isUploading)
      ensures old(profile).Some? && old(profile).value.id != 0 && old(selectedFile).None? ==>
        step == UploadAlert("Please select a photo first") && isUploading == old(isUploading)
      ensures step.SendPatch? <==> old(profile).Some? && old(profile).value.id != 0 && old(selectedFile).Some?
      ensures step.SendPatch? ==>
        step == SendPatch(PicturePath(old(profile).value.id), old(selectedFile).value) && isUploading
    {
      if profile.None? || profile.value.id == 0 {
        return UploadAlert("Profile data not found");
      }
      if selectedFile.None? {
        return UploadAlert("Please select a photo first");
      }
      isUploading := true;
      step := SendPatch(PicturePath(profile.value.id), selectedFile.value);
    }

    /** `handleCancelUpload`: no selection, the stored picture as preview, an empty input. */
    method HandleCancelUpload()
      modifies this
      ensures selectedFile.None? && inputValue == ""
      ensures previewUrl == if old(profile).Some? then old(profile).value.profilePict else None
      ensures profile == old(profile) && isUploading == old(isUploading)
      ensures isEditing == old(isEditing) && formData == old(formData)
    {
      selectedFile := None;
      previewUrl := if profile.Some? then profile.value.profilePict else None;
      inputValue := "";
    }

    /** `handleCancelEdit`: the form shows the stored profile again and editing ends. */
    method HandleCancelEdit()
      requires profile.Some?
      modifies this
      ensures profile == old(profile) && selectedFile == old(selectedFile) && previewUrl == old(previewUrl)
      ensures formData == FormData(profile.value.name, profile.value.age, profile.value.gender, profile.value.citizen)
      ensures !isEditing
      ensures inputValue == old(inputValue) && isUploading == old(isUploading)
    {
      var p := profile.value;
      formData := FormData(p.name, p.age, p.gender, p.citizen);
      isEditing := false;
    }
  }
}
