/** `MinioService`: upload a file and report its public URL together with a
    presigned download link, upload several, and delete by public URL. */
module MinioService {
  import opened Wrappers
  import opened Strings
  import opened StorageCommon

  /** `presignedGetObject(bucket, key, 24 * 60 * 60)`: links live one day. */
  const PresignedLifetime: int := 24 * 60 * 60

  datatype Uploaded = Uploaded(url: string, presignedUrl: string)

  /** `upload(file, folder = 'posts')`. */
  function Upload(env: Env, store: ObjectStore, file: Option<File>, folder: Option<string>, now: nat)
    : (r: Traced<Uploaded>)
    ensures file.None? ==> r == Traced(Failure(BadRequest(NoFileProvided)), [])
    ensures file.Some? ==>
              var key := ObjectKey(FolderOrDefault(folder), now, file.value.originalName);
              var link := store.presignedGetObject(Bucket(env), key, 86400);
              var put := PutObject(Bucket(env), key, file.value.size, file.value.mimeType);
              && (store.putObject(Bucket(env), key) ==>
                    r.calls == [put, PresignGet(Bucket(env), key, 86400)])
              && (!store.putObject(Bucket(env), key) ==> r.calls == [put])
              && (r.result.Success? <==> store.putObject(Bucket(env), key) && link.Some?)
              && (r.result.Success? ==> r.result.value == Uploaded(PublicUrl(env, key), link.value))
              && (r.result.Failure? ==> r.result.error == BadRequest(FailedToUpload))
  {
    var put := PutFile(env, store, file, folder, now);
    match put.result
    case Failure(e) => Traced(Failure(e), put.calls)
    case Success(key) =>
      var call := PresignGet(Bucket(env), key, PresignedLifetime);
      match store.presignedGetObject(Bucket(env), key, PresignedLifetime)
      case None => Traced(Failure(BadRequest(FailedToUpload)), put.calls + [call])
      case Some(link) => Traced(Success(Uploaded(PublicUrl(env, key), link)), put.calls + [call])
  }

  /** `uploadMultiple(files, folder)`: every file is uploaded, the i-th with
      the i-th clock reading; on success there is one result per file, in the
      order of the files. */
  function UploadMultiple(env: Env, store: ObjectStore, files: seq<Option<File>>,
                          folder: Option<string>, clock: nat -> nat)
    : (r: Traced<seq<Uploaded>>)
    ensures r.result.Success? <==>
              forall i :: 0 <= i < |files| ==>
                Upload(env, store, files[i], folder, clock(i)).result.Success?
    ensures r.result.Success? ==>
              && |r.result.value| == |files|
              && forall i :: 0 <= i < |files| ==>
                   r.result.value[i] == Upload(env, store, files[i], folder, clock(i)).result.value
    ensures r.result.Failure? ==>
              exists i :: && 0 <= i < |files|
                          && Upload(env, store, files[i], folder, clock(i)).result
                               == Failure(r.result.error)
                          && forall j :: 0 <= j < i ==>
                               Upload(env, store, files[j], folder, clock(j)).result.Success?
    ensures r.result.Failure? ==>
              r.result.error == BadRequest(NoFileProvided) || r.result.error == BadRequest(FailedToUpload)
    ensures forall i :: 0 <= i < |files| && files[i].Some? ==>
              PutCall(env, folder, clock(i), files[i].value) in r.calls
  {
    var runs := UploadEach(env, store, files, folder, clock);
    UploadMultipleSucceeds(env, store, files, folder, clock);
    UploadMultipleValues(env, store, files, folder, clock);
    UploadMultipleFirstFailure(env, store, files, folder, clock);
    UploadMultipleError(env, store, files, folder, clock, runs);
    UploadMultiplePuts(env, store, files, folder, clock, runs);
    All(runs)
  }

  /** A batch succeeds exactly when every upload in it does. */
  lemma UploadMultipleSucceeds(env: Env, store: ObjectStore, files: seq<Option<File>>,
                               folder: Option<string>, clock: nat -> nat)
    ensures All(UploadEach(env, store, files, folder, clock)).result.Success? <==>
              forall i :: 0 <= i < |files| ==> Upload(env, store, files[i], folder, clock(i)).result.Success?
  {
    var runs := UploadEach(env, store, files, folder, clock);
    assert forall i :: 0 <= i < |files| ==>
             (runs[i].result.Success? <==> Upload(env, store, files[i], folder, clock(i)).result.Success?);
  }

  /** A successful batch holds the uploads' results in the order of the files. */
  lemma UploadMultipleValues(env: Env, store: ObjectStore, files: seq<Option<File>>,
                             folder: Option<string>, clock: nat -> nat)
    ensures var r := All(UploadEach(env, store, files, folder, clock)).result;
            r.Success? ==>
              && |r.value| == |files|
              && forall i :: 0 <= i < |files| ==> r.value[i] == Upload(env, store, files[i], folder, clock(i)).result.value
  {
    var runs := UploadEach(env, store, files, folder, clock);
    var r := All(runs).result;
    if r.Success? {
      forall i | 0 <= i < |files|
        ensures r.value[i] == Upload(env, store, files[i], folder, clock(i)).result.value
      {
        assert runs[i] == Upload(env, store, files[i], folder, clock(i));
      }
    }
  }

  /** A failed batch reports the error of its first failed upload. */
  lemma UploadMultipleFirstFailure(env: Env, store: ObjectStore, files: seq<Option<File>>,
                                   folder: Option<string>, clock: nat -> nat)
    ensures var r := All(UploadEach(env, store, files, folder, clock)).result;
            r.Failure? ==>
              exists i :: && 0 <= i < |files|
                          && Upload(env, store, files[i], folder, clock(i)).result == Failure(r.error)
                          && forall j :: 0 <= j < i ==> Upload(env, store, files[j], folder, clock(j)).result.Success?
  {
    var runs := UploadEach(env, store, files, folder, clock);
    var r := All(runs).result;
    if r.Failure? {
      var i :| && 0 <= i < |runs| && runs[i].result == Failure(r.error)
               && forall j :: 0 <= j < i ==> runs[j].result.Success?;
      assert runs[i] == Upload(env, store, files[i], folder, clock(i));
      forall j | 0 <= j < i
        ensures Upload(env, store, files[j], folder, clock(j)).result.Success?
      {
        assert runs[j] == Upload(env, store, files[j], folder, clock(j));
      }
    }
  }

  /** `files.map(file => this.upload(file, folder))`: the i-th file
      uploaded at the i-th clock reading. */
  function UploadEach(env: Env, store: ObjectStore, files: seq<Option<File>>,
                      folder: Option<string>, clock: nat -> nat)
    : (runs: seq<Traced<Uploaded>>)
    ensures |runs| == |files|
    ensures forall i :: 0 <= i < |files| ==> runs[i] == Upload(env, store, files[i], folder, clock(i))
  {
    seq(|files|, i requires 0 <= i < |files| => Upload(env, store, files[i], folder, clock(i)))
  }

  /** A batch fails only with an error one of its uploads can report. */
  lemma UploadMultipleError(env: Env, store: ObjectStore, files: seq<Option<File>>,
                            folder: Option<string>, clock: nat -> nat, runs: seq<Traced<Uploaded>>)
    requires |runs| == |files|
    requires forall i :: 0 <= i < |files| ==> runs[i] == Upload(env, store, files[i], folder, clock(i))
    ensures var e := All(runs).result;
            e.Failure? ==> e.error == BadRequest(NoFileProvided) || e.error == BadRequest(FailedToUpload)
  {
    var errors := {BadRequest(NoFileProvided), BadRequest(FailedToUpload)};
    forall i | 0 <= i < |runs| && runs[i].result.Failure?
      ensures runs[i].result.error in errors
    {
      assert runs[i] == Upload(env, store, files[i], folder, clock(i));
    }
    AllFailsWithOneOf(runs, errors);
  }

  /** Every file of a batch is put, whatever happens to the others. */
  lemma UploadMultiplePuts(env: Env, store: ObjectStore, files: seq<Option<File>>,
                           folder: Option<string>, clock: nat -> nat, runs: seq<Traced<Uploaded>>)
    requires |runs| == |files|
    requires forall i :: 0 <= i < |files| ==> runs[i] == Upload(env, store, files[i], folder, clock(i))
    ensures forall i :: 0 <= i < |files| && files[i].Some? ==>
              PutCall(env, folder, clock(i), files[i].value) in All(runs).calls
  {
    forall i | 0 <= i < |files| && files[i].Some?
      ensures PutCall(env, folder, clock(i), files[i].value) in All(runs).calls
    {
      var put := PutCall(env, folder, clock(i), files[i].value);
      assert runs[i].calls[0] == put;
      AllKeepsCall(runs, i, put);
    }
  }

  /** `delete(fileUrl)`: every failure, the malformed URL included, ends as
      "Failed to delete file"; a URL without the bucket segment makes no call. */
  function Delete(env: Env, store: ObjectStore, url: string): (r: Traced<()>)
    ensures !Contains(url, BucketSegment(env)) ==>
              r == Traced(Failure(BadRequest(FailedToDelete)), [])
    ensures Contains(url, BucketSegment(env)) ==>
              var name := ObjectNameFromUrl(env, url).value;
              && r.calls == [RemoveObject(Bucket(env), name)]
              && (r.result.Success? <==> store.removeObject(Bucket(env), name))
    ensures r.result.Failure? ==> r.result.error == BadRequest(FailedToDelete)
  {
    Rethrow(RemoveByUrl(env, store, url), FailedToDelete)
  }

  /** Deleting by the URL `upload` reported removes exactly the uploaded
      object if and only if its key does not contain the bucket segment. */
  lemma UploadThenDelete(env: Env, store: ObjectStore, f: File, folder: Option<string>, now: nat)
    requires UnambiguousOrigin(env)
    requires Upload(env, store, Some(f), folder, now).result.Success?
    ensures var key := ObjectKey(FolderOrDefault(folder), now, f.originalName);
            var url := Upload(env, store, Some(f), folder, now).result.value.url;
            var removesKey := Delete(env, store, url).calls == [RemoveObject(Bucket(env), key)];
            removesKey <==> !Contains(key, BucketSegment(env))
  {
    var key := ObjectKey(FolderOrDefault(folder), now, f.originalName);
    DeleteRecoversKey(env, key);
    FirstSegmentAfterOrigin(env, key);
  }
}
