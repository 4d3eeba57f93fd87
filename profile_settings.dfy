/**
 * The profile page: picking a new photo (an image of at most 5 MiB), putting
 * it back, uploading it to the user's folder of the file store, and saving a
 * trimmed, non-blank display name together with the photo's address.
 */
module ProfileSettings {
  import opened Wrappers
  import opened Text
  import opened Habits

  /** 5 MiB, the largest photo accepted. */
  const MaxPhotoBytes: nat := 5 * 1024 * 1024

  const NotAnImage: string := "Please select an image file"
  const TooLarge: string := "Image size must be less than 5MB"
  const NameMissing: string := "Please enter your name"
  const UploadFailedMessage: string := "Failed to upload photo"
  const UpdateFailedMessage: string := "Failed to update profile. Please try again."

  /** Why `handlePhotoChange` refuses a file, if it does: the type is checked before the size. */
  function PhotoRejection(file: File): (r: Option<string>)
    ensures r.None? <==> StartsWith(file.mimeType, "image/") && file.size <= MaxPhotoBytes
    ensures !StartsWith(file.mimeType, "image/") ==> r == Some(NotAnImage)
    ensures StartsWith(file.mimeType, "image/") && file.size > MaxPhotoBytes ==> r == Some(TooLarge)
  {
    if !StartsWith(file.mimeType, "image/") then Some(NotAnImage)
    else if file.size > MaxPhotoBytes then Some(TooLarge)
    else None
  }

  /** The size limit is inclusive: an image of exactly 5 MiB is accepted, one byte more is not. */
  lemma FiveMiBBoundary(name: string)
    ensures PhotoRejection(File(name, "image/png", MaxPhotoBytes)).None?
    ensures PhotoRejection(File(name, "image/png", MaxPhotoBytes + 1)) == Some(TooLarge)
  {
    assert StartsWith("image/png", "image/");
  }

  // ---------------------------------------------------------------------------
  // The storage path

  const PhotoFolder: string := "profile-photos/"

  /** The storage object name `profile-photos/<uid>/<timestamp>_<file name>`. */
  function StoragePath(uid: string, timestamp: nat, name: string): (r: string)
    ensures |PhotoFolder + uid + "/"| < |r| && r[..|PhotoFolder + uid + "/"|] == PhotoFolder + uid + "/"
    ensures |name| < |r| && r[|r| - |name|..] == name
  {
    PhotoFolder + uid + "/" + NatToString(timestamp) + "_" + name
  }

  datatype StorageKey = StorageKey(uid: string, timestamp: nat, name: string)

  /** Reads a storage path back into its owner, its upload time and its file name. */
  function ParseStoragePath(path: string): (r: Option<StorageKey>)
    ensures r.Some? ==> '/' !in r.value.uid && StoragePath(r.value.uid, r.value.timestamp, r.value.name) == path
  {
    if !StartsWith(path, PhotoFolder) then None
    else
      match SplitOnce(path[|PhotoFolder|..], '/')
      case None => None
      case Some((uid, after)) =>
        match SplitOnce(after, '_')
        case None => None
        case Some((digits, name)) =>
          if !AllDigits(digits) then None
          else
            var ts := DigitsValue(digits);
            if NatToString(ts) != digits then None
            else
              StoragePathShape(path, uid, after, ts, name);
              Some(StorageKey(uid, ts, name))
  }

  /** A path that starts with the folder and splits as `uid/digits_name` is the path built from those parts. */
  lemma StoragePathShape(path: string, uid: string, after: string, ts: nat, name: string)
    requires StartsWith(path, PhotoFolder)
    requires path[|PhotoFolder|..] == uid + ['/'] + after
    requires after == NatToString(ts) + ['_'] + name
    ensures StoragePath(uid, ts, name) == path
  {
    assert path == path[..|PhotoFolder|] + path[|PhotoFolder|..];
  }

  /**
   * Every photo lands in its owner's folder: the path gives back the uid,
   * the upload time and the file name it was built from (file names may
   * themselves contain '/' or '_').
   */
  lemma StoragePathRoundTrip(uid: string, timestamp: nat, name: string)
    requires '/' !in uid
    ensures ParseStoragePath(StoragePath(uid, timestamp, name)) == Some(StorageKey(uid, timestamp, name))
  {
    var path := StoragePath(uid, timestamp, name);
    var digits := NatToString(timestamp);
    assert path == PhotoFolder + (uid + ['/'] + (digits + ['_'] + name));
    assert path[..|PhotoFolder|] == PhotoFolder;
    assert path[|PhotoFolder|..] == uid + ['/'] + (digits + ['_'] + name);
    SplitOnceJoin(uid, '/', digits + ['_'] + name);
    assert '_' !in digits by {
      assert forall k :: 0 <= k < |digits| ==> IsDigit(digits[k]);
    }
    SplitOnceJoin(digits, '_', name);
    NatToStringRoundTrip(timestamp);
  }

  // ---------------------------------------------------------------------------
  // The page

  /** How the two storage calls of an upload settle. */
  datatype StorageReply =
    | UploadFailed
    | UrlFailed
    | Uploaded(url: string)

  /** How `uploadPhoto` ends: with a photo address (possibly none) or by throwing. */
  datatype UploadResult =
    | Url(url: Option<string>)
    | UploadError(message: string)

  /** What the profile update call receives. */
  datatype ProfileUpdate = ProfileUpdate(displayName: string, photoURL: Option<string>)

  datatype SubmitOutcome =
    | Rejected(message: string)
    | Saved
    | SaveFailed(message: string)

  class ProfileSettingsPage {
    const user: Option<User>
    var displayName: string
    var photoFile: Option<File>
    var photoPreview: string
    var loading: bool
    var uploadProgress: int
    /** Set when a successful save reloads the page. */
    var reloaded: bool

    /** The fields start from the signed-in user's profile, '' for whatever is missing. */
    constructor (user: Option<User>)
      ensures this.user == user
      ensures displayName == (if user.Some? && Truthy(user.value.displayName) then user.value.displayName.value else "")
      ensures photoPreview == (if user.Some? && Truthy(user.value.photoURL) then user.value.photoURL.value else "")
      ensures photoFile.None? && !loading && uploadProgress == 0 && !reloaded
    {
      this.user := user;
      displayName := if user.Some? && Truthy(user.value.displayName) then user.value.displayName.value else "";
      photoPreview := if user.Some? && Truthy(user.value.photoURL) then user.value.photoURL.value else "";
      photoFile := None;
      loading := false;
      uploadProgress := 0;
      reloaded := false;
    }

    /** The user's current photo address, '' when there is none. */
    function CurrentPhoto(): string
      reads this
    {
      if user.Some? && Truthy(user.value.photoURL) then user.value.photoURL.value else ""
    }

    /**
     * `handlePhotoChange`: no file changes nothing; a file that is not an
     * image or is over 5 MiB is refused with a notice; any other file is kept.
     */
    method HandlePhotoChange(file: Option<File>) returns (notice: Option<string>)
      modifies this`photoFile
      ensures file.None? ==> photoFile == old(photoFile) && notice.None?
      ensures file.Some? ==> notice == PhotoRejection(file.value)
      ensures file.Some? && notice.None? ==> photoFile == file
      ensures file.Some? && notice.Some? ==> photoFile == old(photoFile)
    {
      notice := None;
      if file.Some? {
        notice := PhotoRejection(file.value);
        if notice.None? {
          photoFile := file;
        }
      }
    }

    /** `handleRemovePhoto`: the chosen file is dropped and the preview shows the current photo again. */
    method HandleRemovePhoto()
      modifies this`photoFile, this`photoPreview
      ensures photoFile.None? && photoPreview == CurrentPhoto()
    {
      photoFile := None;
      photoPreview := CurrentPhoto();
    }

    /**
     * `uploadPhoto`: without a chosen file the current address (possibly
     * none) comes back and nothing is stored. Otherwise the file is stored
     * under the user's folder, progress moving to 10, 80 and 100 as the
     * store, the address lookup and the whole upload finish; any failure, a
     * missing user included, ends in the one upload error.
     */
    method UploadPhoto(now: nat, reply: StorageReply) returns (result: UploadResult, path: Option<string>)
      modifies this`uploadProgress
      ensures photoFile.None? ==>
                result == Url(if user.Some? then user.value.photoURL else None)
                && path.None? && uploadProgress == old(uploadProgress)
      ensures photoFile.Some? && user.None? ==>
                result == UploadError(UploadFailedMessage) && path.None? && uploadProgress == old(uploadProgress)
      ensures photoFile.Some? && user.Some? ==>
                path == Some(StoragePath(user.value.uid, now, photoFile.value.name))
      ensures photoFile.Some? && user.Some? ==>
                match reply
                case UploadFailed => result == UploadError(UploadFailedMessage) && uploadProgress == 10
                case UrlFailed => result == UploadError(UploadFailedMessage) && uploadProgress == 80
                case Uploaded(url) => result == Url(Some(url)) && uploadProgress == 100
    {
      if photoFile.None? {
        return Url(if user.Some? then user.value.photoURL else None), None;
      }
      if user.None? {
        return UploadError(UploadFailedMessage), None;
      }
      path := Some(StoragePath(user.value.uid, now, photoFile.value.name));
      uploadProgress := 10;
      if reply.UploadFailed? {
        return UploadError(UploadFailedMessage), path;
      }
      uploadProgress := 80;
      if reply.UrlFailed? {
        return UploadError(UploadFailedMessage), path;
      }
      uploadProgress := 100;
      result := Url(Some(reply.url));
    }

    /**
     * The saving part of `handleSubmit`, for an accepted `name`: the new
     * photo is uploaded when one was chosen (a failed upload fails the save
     * before any update), the update carries the name and the photo's
     * address, and a successful update clears the chosen file and the
     * progress and reloads the page; `loading` ends false either way.
     */
    method Save(name: string, now: nat, storage: StorageReply, updateSucceeds: bool)
      returns (update: Option<ProfileUpdate>, outcome: SubmitOutcome, path: Option<string>)
      requires name != ""
      modifies this`photoFile, this`uploadProgress, this`loading, this`reloaded
      ensures !loading && !outcome.Rejected?
      ensures old(photoFile).None? ==>
                update == Some(ProfileUpdate(name, if user.Some? then user.value.photoURL else None))
      ensures old(photoFile).Some? && user.Some? && storage.Uploaded? ==>
                update == Some(ProfileUpdate(name, Some(storage.url)))
      ensures old(photoFile).Some? && (user.None? || !storage.Uploaded?) ==> update.None?
      ensures old(photoFile).Some? && user.Some? ==>
                path == Some(StoragePath(user.value.uid, now, old(photoFile).value.name))
      ensures old(photoFile).None? || user.None? ==> path.None?
      ensures old(photoFile).Some? && user.Some? && storage.UploadFailed? ==> uploadProgress == 10
      ensures old(photoFile).Some? && user.Some? && storage.UrlFailed? ==> uploadProgress == 80
      ensures old(photoFile).Some? && user.Some? && storage.Uploaded? && !updateSucceeds ==> uploadProgress == 100
      ensures (old(photoFile).None? || user.None?) && !updateSucceeds ==> uploadProgress == old(uploadProgress)
      ensures update.Some? ==> update.value.displayName == name
      ensures update.None? ==> reloaded == old(reloaded) && outcome == SaveFailed(UpdateFailedMessage)
      ensures outcome == Saved <==> update.Some? && updateSucceeds
      ensures outcome == Saved ==> photoFile.None? && uploadProgress == 0 && reloaded
      ensures outcome.SaveFailed? ==> outcome.message == UpdateFailedMessage && photoFile == old(photoFile)
      ensures outcome.SaveFailed? ==> reloaded == old(reloaded)
    {
      path, update := None, None;
      loading := true;
      var photoURL := if user.Some? then user.value.photoURL else None;
      if photoFile.Some? {
        var uploaded;
        uploaded, path := UploadPhoto(now, storage);
        if uploaded.UploadError? {
          loading := false;
          return None, SaveFailed(UpdateFailedMessage), path;
        }
        photoURL := uploaded.url;
      }
      update := Some(ProfileUpdate(name, photoURL));
      if updateSucceeds {
        photoFile := None;
        uploadProgress := 0;
        reloaded := true;
        outcome := Saved;
      } else {
        outcome := SaveFailed(UpdateFailedMessage);
      }
      loading := false;
    }

    /**
     * `handleSubmit`: a name that is blank after trimming is refused and
     * nothing changes; any other name is saved trimmed.
     */
    method Submit(now: nat, storage: StorageReply, updateSucceeds: bool)
      returns (update: Option<ProfileUpdate>, outcome: SubmitOutcome, path: Option<string>)
      modifies this`photoFile, this`uploadProgress, this`loading, this`reloaded
      ensures AllWhitespace(displayName) ==>
                outcome == Rejected(NameMissing) && update.None? && path.None?
                && photoFile == old(photoFile) && uploadProgress == old(uploadProgress)
                && loading == old(loading) && reloaded == old(reloaded)
      ensures !AllWhitespace(displayName) ==> !loading && !outcome.Rejected?
      ensures update.Some? ==> update.value.displayName == Trim(displayName) && update.value.displayName != ""
      ensures !AllWhitespace(displayName) && old(photoFile).None? ==>
                update == Some(ProfileUpdate(Trim(displayName), if user.Some? then user.value.photoURL else None))
      ensures !AllWhitespace(displayName) && old(photoFile).Some? && user.Some? && storage.Uploaded? ==>
                update == Some(ProfileUpdate(Trim(displayName), Some(storage.url)))
      ensures old(photoFile).Some? && (user.None? || !storage.Uploaded?) ==> update.None?
      ensures !AllWhitespace(displayName) && old(photoFile).Some? && user.Some? ==>
                path == Some(StoragePath(user.value.uid, now, old(photoFile).value.name))
      ensures old(photoFile).None? || user.None? ==> path.None?
      ensures update.None? ==> reloaded == old(reloaded)
      ensures outcome == Saved <==> update.Some? && updateSucceeds
      ensures outcome == Saved ==> photoFile.None? && uploadProgress == 0 && reloaded
      ensures outcome.SaveFailed? ==> outcome.message == UpdateFailedMessage && photoFile == old(photoFile)
      ensures outcome.SaveFailed? ==> reloaded == old(reloaded)
    {
      var name := Trim(displayName);
      TrimEmptyIffBlank(displayName);
      if name == "" {
        return None, Rejected(NameMissing), None;
      }
      update, outcome, path := Save(name, now, storage, updateSucceeds);
    }
  }
}
