/**
 * The media post composer: picking an image or an audio file under a size limit, removing
 * them, and a submit that uploads each picked file to its storage bucket before inserting
 * the post row that links to the uploads.
 */
module NewPostForm {
  import opened Wrappers
  import opened Records
  import opened JsStrings
  import opened Seqs

  const ImageLimit: nat := 5 * 1024 * 1024
  const AudioLimit: nat := 10 * 1024 * 1024
  const ImageTooLarge := "Image size must be less than 5MB"
  const AudioTooLarge := "Audio size must be less than 10MB"
  const NothingToSubmit := "Please add some content, image, or audio"
  const ImageBucket := "images"
  const AudioBucket := "audio"

  /** The row the composer inserts: the URL columns are null for a file that was not picked. */
  datatype MediaPostDraft = MediaPostDraft(userId: Id, content: string, imageUrl: Option<string>, audioUrl: Option<string>)

  /** The backend calls a submit makes. */
  datatype Call = UploadFile(bucket: string, path: string) | InsertPost(draft: MediaPostDraft)

  /** `${user.id}/${Date.now()}_${file.name}`: the storage path of an upload. */
  function UploadPath(userId: Id, timestamp: nat, fileName: string): string {
    userId + "/" + NatToString(timestamp) + "_" + fileName
  }

  /** The public URL of an uploaded object under the project's base URL. */
  function PublicUrl(baseUrl: string, bucket: string, path: string): (url: string)
    ensures |baseUrl| + |path| <= |url| && url[|url| - |path|..] == path
  {
    baseUrl + "/storage/v1/object/public/" + bucket + "/" + path
  }

  /**
   * The path can be read back: the owner is what precedes the first '/', and the
   * timestamp's digits run from there to the next '_'.
   */
  lemma UploadPathParts(userId: Id, timestamp: nat, fileName: string)
    requires '/' !in userId
    ensures var path := UploadPath(userId, timestamp, fileName);
            && IndexOf(path, '/') == |userId|
            && path[..|userId|] == userId
    ensures var rest := UploadPath(userId, timestamp, fileName)[|userId| + 1..];
            var stamp := NatToString(timestamp);
            && IndexOf(rest, '_') == |stamp|
            && DecimalValue(rest[..|stamp|]) == timestamp
            && rest[|stamp| + 1..] == fileName
  {
    var stamp := NatToString(timestamp);
    var rest := stamp + "_" + fileName;
    assert UploadPath(userId, timestamp, fileName) == userId + "/" + rest;
    SplitAtFirst(userId, '/', rest);
    StampParts(stamp, fileName);
    DecimalRoundTrip(timestamp);
  }

  lemma StampParts(stamp: string, fileName: string)
    requires forall i :: 0 <= i < |stamp| ==> IsDigit(stamp[i])
    ensures IndexOf(stamp + "_" + fileName, '_') == |stamp|
    ensures (stamp + "_" + fileName)[..|stamp|] == stamp
    ensures (stamp + "_" + fileName)[|stamp| + 1..] == fileName
  {
    SplitAtFirst(stamp, '_', fileName);
  }

  /** The composer has neither text nor a file to post. */
  predicate NothingToPost(content: string, imageFile: Option<File>, audioFile: Option<File>) {
    IsBlank(content) && imageFile.None? && audioFile.None?
  }

  /** The submit button's `disabled` expression. */
  predicate SubmitDisabled(loading: bool, content: string, imageFile: Option<File>, audioFile: Option<File>) {
    loading || NothingToPost(content, imageFile, audioFile)
  }

  /** While idle, the button is disabled exactly when the submit guard would refuse. */
  lemma DisabledMatchesGuard(content: string, imageFile: Option<File>, audioFile: Option<File>)
    ensures SubmitDisabled(false, content, imageFile, audioFile) <==> NothingToPost(content, imageFile, audioFile)
    ensures SubmitDisabled(true, content, imageFile, audioFile)
  {
  }

  /** What a submit that passed the guard does: its calls, the message it leaves, and whether it posted. */
  datatype Submission = Submission(calls: seq<Call>, error: string, posted: bool)

  /** The upload call for a picked file, or none. */
  function UploadOf(bucket: string, userId: Id, time: nat, file: Option<File>): seq<Call> {
    if file.Some? then [UploadFile(bucket, UploadPath(userId, time, file.value.name))] else []
  }

  /** The public URL a picked file is uploaded to, or null. */
  function UrlOf(baseUrl: string, bucket: string, userId: Id, time: nat, file: Option<File>): Option<string> {
    if file.Some? then Some(PublicUrl(baseUrl, bucket, UploadPath(userId, time, file.value.name))) else None
  }

  /** The upload-then-insert sequence, for a submit that passed the guard. */
  function Submit(
    userId: Id, content: string, imageFile: Option<File>, audioFile: Option<File>,
    baseUrl: string, imageTime: nat, audioTime: nat,
    imageError: Option<string>, audioError: Option<string>, insertError: Option<string>): Submission
  {
    var imageUpload := UploadOf(ImageBucket, userId, imageTime, imageFile);
    var audioUpload := UploadOf(AudioBucket, userId, audioTime, audioFile);
    if imageFile.Some? && imageError.Some? then
      Submission(imageUpload, imageError.value, false)
    else if audioFile.Some? && audioError.Some? then
      Submission(imageUpload + audioUpload, audioError.value, false)
    else
      var draft := MediaPostDraft(userId, Trim(content),
        UrlOf(baseUrl, ImageBucket, userId, imageTime, imageFile),
        UrlOf(baseUrl, AudioBucket, userId, audioTime, audioFile));
      Submission(imageUpload + audioUpload + [InsertPost(draft)], insertError.GetOr(""), insertError.None?)
  }

  /**
   * How a submit ends: it posts exactly when every upload and the insert succeed, leaving no
   * message; a failed image upload is the only call made; only uploads precede the last call.
   */
  lemma SubmitOutcome(
    userId: Id, content: string, imageFile: Option<File>, audioFile: Option<File>,
    baseUrl: string, imageTime: nat, audioTime: nat,
    imageError: Option<string>, audioError: Option<string>, insertError: Option<string>)
    ensures var r := Submit(userId, content, imageFile, audioFile, baseUrl, imageTime, audioTime, imageError, audioError, insertError);
      && (r.posted <==> (imageFile.None? || imageError.None?) && (audioFile.None? || audioError.None?) && insertError.None?)
      && (r.posted ==> r.error == "")
      && 1 <= |r.calls| <= 3
      && (forall k :: 0 <= k < |r.calls| - 1 ==> r.calls[k].UploadFile?)
      && (imageFile.Some? && imageError.Some? ==>
            r.calls == [UploadFile(ImageBucket, UploadPath(userId, imageTime, imageFile.value.name))] && r.error == imageError.value)
  {
  }

  /**
   * The insert is the last call exactly when no upload failed, and it carries the trimmed
   * text and the public URL of each upload, or null where no file was picked.
   */
  lemma SubmitPayload(
    userId: Id, content: string, imageFile: Option<File>, audioFile: Option<File>,
    baseUrl: string, imageTime: nat, audioTime: nat,
    imageError: Option<string>, audioError: Option<string>, insertError: Option<string>)
    ensures var r := Submit(userId, content, imageFile, audioFile, baseUrl, imageTime, audioTime, imageError, audioError, insertError);
      && r.calls != []
      && (r.calls[|r.calls| - 1].InsertPost? <==> (imageFile.None? || imageError.None?) && (audioFile.None? || audioError.None?))
      && (r.calls[|r.calls| - 1].InsertPost? ==>
            var d := r.calls[|r.calls| - 1].draft;
            && d.userId == userId && d.content == Trim(content)
            && d.imageUrl == (if imageFile.None? then None
                              else Some(PublicUrl(baseUrl, ImageBucket, UploadPath(userId, imageTime, imageFile.value.name))))
            && d.audioUrl == (if audioFile.None? then None
                              else Some(PublicUrl(baseUrl, AudioBucket, UploadPath(userId, audioTime, audioFile.value.name)))))
  {
  }

  /** The composer's state. `calls` records the backend calls; `navigatedHome` the `navigate('/')`. */
  class NewPost {
    var content: string
    var imageFile: Option<File>
    var audioFile: Option<File>
    var imagePreview: Option<string>
    var loading: bool
    var error: string
    var calls: seq<Call>
    var navigatedHome: bool

    constructor ()
      ensures content == "" && imageFile.None? && audioFile.None? && imagePreview.None?
      ensures !loading && error == "" && calls == [] && !navigatedHome
    {
      content := "";
      imageFile := None;
      audioFile := None;
      imagePreview := None;
      loading := false;
      error := "";
      calls := [];
      navigatedHome := false;
    }

    /** handleImageChange: a file over 5 MiB is refused and the earlier pick stays. */
    method HandleImageChange(file: Option<File>)
      modifies this
      ensures file.Some? && file.value.size > ImageLimit ==> error == ImageTooLarge && imageFile == old(imageFile)
      ensures file.Some? && file.value.size <= ImageLimit ==> error == old(error) && imageFile == file
      ensures file.None? ==> error == old(error) && imageFile == old(imageFile)
      ensures content == old(content) && audioFile == old(audioFile) && imagePreview == old(imagePreview)
      ensures loading == old(loading) && calls == old(calls) && navigatedHome == old(navigatedHome)
    {
      if file.Some? {
        if file.value.size > ImageLimit {
          error := ImageTooLarge;
          return;
        }
        imageFile := file;
      }
    }

    /** The FileReader's `onload`: the picked image's data URL becomes the preview. */
    method ImagePreviewLoaded(dataUrl: string)
      modifies this
      ensures imagePreview == Some(dataUrl)
      ensures content == old(content) && imageFile == old(imageFile) && audioFile == old(audioFile)
      ensures loading == old(loading) && error == old(error) && calls == old(calls) && navigatedHome == old(navigatedHome)
    {
      imagePreview := Some(dataUrl);
    }

    /** handleAudioChange: a file over 10 MiB is refused and the earlier pick stays. */
    method HandleAudioChange(file: Option<File>)
      modifies this
      ensures file.Some? && file.value.size > AudioLimit ==> error == AudioTooLarge && audioFile == old(audioFile)
      ensures file.Some? && file.value.size <= AudioLimit ==> error == old(error) && audioFile == file
      ensures file.None? ==> error == old(error) && audioFile == old(audioFile)
      ensures content == old(content) && imageFile == old(imageFile) && imagePreview == old(imagePreview)
      ensures loading == old(loading) && calls == old(calls) && navigatedHome == old(navigatedHome)
    {
      if file.Some? {
        if file.value.size > AudioLimit {
          error := AudioTooLarge;
          return;
        }
        audioFile := file;
      }
    }

    /** removeImage: the image and its preview both go. */
    method RemoveImage()
      modifies this
      ensures imageFile.None? && imagePreview.None?
      ensures content == old(content) && audioFile == old(audioFile)
      ensures loading == old(loading) && error == old(error) && calls == old(calls) && navigatedHome == old(navigatedHome)
    {
      imageFile := None;
      imagePreview := None;
    }

    /** removeAudio: only the audio goes. */
    method RemoveAudio()
      modifies this
      ensures audioFile.None?
      ensures content == old(content) && imageFile == old(imageFile) && imagePreview == old(imagePreview)
      ensures loading == old(loading) && error == old(error) && calls == old(calls) && navigatedHome == old(navigatedHome)
    {
      audioFile := None;
    }

    /**
     * One `if (file) { upload; if (error) throw; url = … }` step of handleSubmit: a picked
     * file is uploaded under its path, and a failed upload ends the submit with its message.
     */
    method UploadIfPicked(bucket: string, userId: Id, time: nat, file: Option<File>, baseUrl: string, uploadError: Option<string>)
      returns (failed: bool, url: Option<string>)
      modifies this
      ensures calls == old(calls) + UploadOf(bucket, userId, time, file)
      ensures failed <==> file.Some? && uploadError.Some?
      ensures failed ==> error == uploadError.value && !loading
      ensures !failed ==> url == UrlOf(baseUrl, bucket, userId, time, file) && error == old(error) && loading == old(loading)
      ensures content == old(content) && imageFile == old(imageFile) && audioFile == old(audioFile)
      ensures imagePreview == old(imagePreview) && navigatedHome == old(navigatedHome)
    {
      failed := false;
      url := None;
      if file.Some? {
        var path := UploadPath(userId, time, file.value.name);
        calls := calls + [UploadFile(bucket, path)];
        if uploadError.Some? {
          error := uploadError.value;
          loading := false;
          failed := true;
          return;
        }
        url := Some(PublicUrl(baseUrl, bucket, path));
      }
    }

    /**
     * handleSubmit for the signed-in user. The clock readings for the two uploads and the
     * error each backend call resolves to are parameters.
     */
    method HandleSubmit(
      user: User, baseUrl: string, imageTime: nat, audioTime: nat,
      imageError: Option<string>, audioError: Option<string>, insertError: Option<string>)
      modifies this
      ensures NothingToPost(old(content), old(imageFile), old(audioFile)) ==>
                && error == NothingToSubmit && calls == old(calls)
                && loading == old(loading) && navigatedHome == old(navigatedHome)
      ensures !NothingToPost(old(content), old(imageFile), old(audioFile)) ==>
                var r := Submit(user.id, old(content), old(imageFile), old(audioFile), baseUrl, imageTime, audioTime,
                                imageError, audioError, insertError);
                && calls == old(calls) + r.calls && error == r.error && !loading
                && navigatedHome == (old(navigatedHome) || r.posted)
      ensures content == old(content) && imageFile == old(imageFile) && audioFile == old(audioFile)
      ensures imagePreview == old(imagePreview)
    {
      var trimmed := Trim(content);
      if trimmed == [] && imageFile.None? && audioFile.None? {
        error := NothingToSubmit;
        return;
      }
      ghost var before := calls;
      loading := true;
      error := "";
      var imageFailed, imageUrl := UploadIfPicked(ImageBucket, user.id, imageTime, imageFile, baseUrl, imageError);
      if imageFailed {
        return;
      }
      var audioFailed, audioUrl := UploadIfPicked(AudioBucket, user.id, audioTime, audioFile, baseUrl, audioError);
      ghost var uploads := UploadOf(ImageBucket, user.id, imageTime, imageFile)
                           + UploadOf(AudioBucket, user.id, audioTime, audioFile);
      AppendAssoc(before, UploadOf(ImageBucket, user.id, imageTime, imageFile), UploadOf(AudioBucket, user.id, audioTime, audioFile));
      if audioFailed {
        return;
      }
      var draft := MediaPostDraft(user.id, trimmed, imageUrl, audioUrl);
      calls := calls + [InsertPost(draft)];
      AppendAssoc(before, uploads, [InsertPost(draft)]);
      if insertError.Some? {
        error := insertError.value;
      } else {
        navigatedHome := true;
      }
      loading := false;
    }
  }
}
