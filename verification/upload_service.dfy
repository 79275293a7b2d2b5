/** `UploadService`: upload a file and report its public URL, upload
    several, delete by public URL, and presign a download link. */
module UploadService {
  import opened Wrappers
  import opened Strings
  import opened StorageCommon

  /** `getPresignedUrl(objectName, expirySeconds = 3600)`. */
  const DefaultPresignExpiry: int := 3600

  /** `uploadFile(file, folder = 'posts')`: the public URL of the stored object. */
  function UploadFile(env: Env, store: ObjectStore, file: Option<File>, folder: Option<string>, now: nat)
    : (r: Traced<string>)
    ensures file.None? ==> r == Traced(Failure(BadRequest(NoFileProvided)), [])
    ensures file.Some? ==>
              var key := ObjectKey(FolderOrDefault(folder), now, file.value.originalName);
              && r.calls == [PutObject(Bucket(env), key, file.value.size, file.value.mimeType)]
              && (r.result.Success? <==> store.putObject(Bucket(env), key))
              && (r.result.Success? ==> r.result.value == PublicUrl(env, key))
              && (r.result.Failure? ==> r.result.error == BadRequest(FailedToUpload))
  {
    var put := PutFile(env, store, file, folder, now);
    match put.result
    case Failure(e) => Traced(Failure(e), put.calls)
    case Success(key) => Traced(Success(PublicUrl(env, key)), put.calls)
  }

  /** `uploadMultipleFiles(files, folder)`: one URL per file, in file order. */
  function UploadMultipleFiles(env: Env, store: ObjectStore, files: seq<Option<File>>,
                               folder: Option<string>, clock: nat -> nat)
    : (r: Traced<seq<string>>)
    ensures r.result.Success? <==>
              forall i :: 0 <= i < |files| ==>
                UploadFile(env, store, files[i], folder, clock(i)).result.Success?
    ensures r.result.Success? ==>
              && |r.result.value| == |files|
              && forall i :: 0 <= i < |files| ==>
                   r.result.value[i] == UploadFile(env, store, files[i], folder, clock(i)).result.value
    ensures r.result.Failure? ==>
              exists i :: && 0 <= i < |files|
                          && UploadFile(env, store, files[i], folder, clock(i)).result
                               == Failure(r.result.error)
                          && forall j :: 0 <= j < i ==>
                               UploadFile(env, store, files[j], folder, clock(j)).result.Success?
    ensures r.result.Failure? ==>
              r.result.error == BadRequest(NoFileProvided) || r.result.error == BadRequest(FailedToUpload)
    ensures forall i :: 0 <= i < |files| && files[i].Some? ==>
              PutCall(env, folder, clock(i), files[i].value) in r.calls
  {
    var runs := UploadFileEach(env, store, files, folder, clock);
    UploadMultipleFilesSucceeds(env, store, files, folder, clock);
    UploadMultipleFilesValues(env, store, files, folder, clock);
    UploadMultipleFilesFirstFailure(env, store, files, folder, clock);
    UploadMultipleFilesError(env, store, files, folder, clock, runs);
    UploadMultipleFilesPuts(env, store, files, folder, clock, runs);
    All(runs)
  }

  /** A batch succeeds exactly when every upload in it does. */
  lemma UploadMultipleFilesSucceeds(env: Env, store: ObjectStore, files: seq<Option<File>>,
                                    folder: Option<string>, clock: nat -> nat)
    ensures All(UploadFileEach(env, store, files, folder, clock)).result.Success? <==>
              forall i :: 0 <= i < |files| ==> UploadFile(env, store, files[i], folder, clock(i)).result.Success?
  {
    var runs := UploadFileEach(env, store, files, folder, clock);
    assert forall i :: 0 <= i < |files| ==>
             (runs[i].result.Success? <==> UploadFile(env, store, files[i], folder, clock(i)).result.Success?);
  }

  /** A successful batch holds the uploads' results in the order of the files. */
  lemma UploadMultipleFilesValues(env: Env, store: ObjectStore, files: seq<Option<File>>,
                                  folder: Option<string>, clock: nat -> nat)
    ensures var r := All(UploadFileEach(env, store, files, folder, clock)).result;
            r.Success? ==>
              && |r.value| == |files|
              && forall i :: 0 <= i < |files| ==> r.value[i] == UploadFile(env, store, files[i], folder, clock(i)).result.value
  {
    var runs := UploadFileEach(env, store, files, folder, clock);
    var r := All(runs).result;
    if r.Success? {
      forall i | 0 <= i < |files|
        ensures r.value[i] == UploadFile(env, store, files[i], folder, clock(i)).result.value
      {
        assert runs[i] == UploadFile(env, store, files[i], folder, clock(i));
      }
    }
  }

  /** A failed batch reports the error of its first failed upload. */
  lemma UploadMultipleFilesFirstFailure(env: Env, store: ObjectStore, files: seq<Option<File>>,
                                        folder: Option<string>, clock: nat -> nat)
    ensures var r := All(UploadFileEach(env, store, files, folder, clock)).result;
            r.Failure? ==>
              exists i :: && 0 <= i < |files|
                          && UploadFile(env, store, files[i], folder, clock(i)).result == Failure(r.error)
                          && forall j :: 0 <= j < i ==> UploadFile(env, store, files[j], folder, clock(j)).result.Success?
  {
    var runs := UploadFileEach(env, store, files, folder, clock);
    var r := All(runs).result;
    if r.Failure? {
      var i :| && 0 <= i < |runs| && runs[i].result == Failure(r.error)
               && forall j :: 0 <= j < i ==> runs[j].result.Success?;
      assert runs[i] == UploadFile(env, store, files[i], folder, clock(i));
      forall j | 0 <= j < i
        ensures UploadFile(env, store, files[j], folder, clock(j)).result.Success?
      {
        assert runs[j] == UploadFile(env, store, files[j], folder, clock(j));
      }
    }
  }

  /** `files.map(file => this.uploadFile(file, folder))`: the i-th file
      uploaded at the i-th clock reading. */
  function UploadFileEach(env: Env, store: ObjectStore, files: seq<Option<File>>,
                          folder: Option<string>, clock: nat -> nat)
    : (runs: seq<Traced<string>>)
    ensures |runs| == |files|
    ensures forall i :: 0 <= i < |files| ==> runs[i] == UploadFile(env, store, files[i], folder, clock(i))
  {
    seq(|files|, i requires 0 <= i < |files| => UploadFile(env, store, files[i], folder, clock(i)))
  }

  /** A batch fails only with an error one of its uploads can report. */
  lemma UploadMultipleFilesError(env: Env, store: ObjectStore, files: seq<Option<File>>,
                                 folder: Option<string>, clock: nat -> nat, runs: seq<Traced<string>>)
    requires |runs| == |files|
    requires forall i :: 0 <= i < |files| ==> runs[i] == UploadFile(env, store, files[i], folder, clock(i))
    ensures var e := All(runs).result;
            e.Failure? ==> e.error == BadRequest(NoFileProvided) || e.error == BadRequest(FailedToUpload)
  {
    var errors := {BadRequest(NoFileProvided), BadRequest(FailedToUpload)};
    forall i | 0 <= i < |runs| && runs[i].result.Failure?
      ensures runs[i].result.error in errors
    {
      assert runs[i] == UploadFile(env, store, files[i], folder, clock(i));
    }
    AllFailsWithOneOf(runs, errors);
  }

  /** Every file of a batch is put, whatever happens to the others. */
  lemma UploadMultipleFilesPuts(env: Env, store: ObjectStore, files: seq<Option<File>>,
                                folder: Option<string>, clock: nat -> nat, runs: seq<Traced<string>>)
    requires |runs| == |files|
    requires forall i :: 0 <= i < |files| ==> runs[i] == UploadFile(env, store, files[i], folder, clock(i))
    ensures forall i :: 0 <= i < |files| && files[i].Some? ==>
              PutCall(env, folder, clock(i), files[i].value) in All(runs).calls
  {
    forall i | 0 <= i < |files| && files[i].Some?
      ensures PutCall(env, folder, clock(i), files[i].value) in All(runs).calls
    {
      var put := PutCall(env, folder, clock(i), files[i].value);
      assert runs[i].calls[0] == put;
      AllKeepsCall(runs, i, put);
    }
  }

  /** `deleteFile(fileUrl)`. */
  function DeleteFile(env: Env, store: ObjectStore, url: string): (r: Traced<()>)
    ensures !Contains(url, BucketSegment(env)) ==>
              r == Traced(Failure(BadRequest(FailedToDelete)), [])
    ensures Contains(url, BucketSegment(env)) ==>
              var name := ObjectNameFromUrl(env, url).value;
              && r.calls == [RemoveObject(Bucket(env), name)]
              && (r.result.Success? <==> store.removeObject(Bucket(env), name))
    ensures r.result.Failure? ==> r.result.error == BadRequest(FailedToDelete)
  {
    Rethrow(RemoveByUrl(env, store, url), FailedToDelete)
  }

  /** `deleteFile` on the URL `uploadFile` returned targets the uploaded key
      if and only if that key does not contain the bucket segment. */
  lemma UploadFileThenDeleteFile(env: Env, store: ObjectStore, f: File, folder: Option<string>, now: nat)
    requires UnambiguousOrigin(env)
    requires UploadFile(env, store, Some(f), folder, now).result.Success?
    ensures var key := ObjectKey(FolderOrDefault(folder), now, f.originalName);
            var url := UploadFile(env, store, Some(f), folder, now).result.value;
            var removesKey := DeleteFile(env, store, url).calls == [RemoveObject(Bucket(env), key)];
            removesKey <==> !Contains(key, BucketSegment(env))
  {
    var key := ObjectKey(FolderOrDefault(folder), now, f.originalName);
    DeleteRecoversKey(env, key);
    FirstSegmentAfterOrigin(env, key);
  }

  /** `getPresignedUrl(objectName, expirySeconds)`: the link the client
      returns, for an hour unless another lifetime is passed. */
  function GetPresignedUrl(env: Env, store: ObjectStore, objectName: string, expirySeconds: Option<int>)
    : (r: Traced<string>)
    ensures var expiry := if expirySeconds.None? then 3600 else expirySeconds.value;
            var link := store.presignedGetObject(Bucket(env), objectName, expiry);
            && r.calls == [PresignGet(Bucket(env), objectName, expiry)]
            && (r.result.Success? <==> link.Some?)
            && (r.result.Success? ==> r.result.value == link.value)
            && (r.result.Failure? ==> r.result.error == BadRequest("Failed to generate presigned URL"))
  {
    var expiry := expirySeconds.GetOr(DefaultPresignExpiry);
    var call := PresignGet(Bucket(env), objectName, expiry);
    match store.presignedGetObject(Bucket(env), objectName, expiry)
    case None => Traced(Failure(BadRequest("Failed to generate presigned URL")), [call])
    case Some(link) => Traced(Success(link), [call])
  }
}
