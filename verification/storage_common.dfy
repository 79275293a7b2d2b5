/** What the two object-storage services (`MinioService` and `UploadService`)
    share: the configuration read from the `MINIO_*` environment variables,
    the object key an upload is stored under, the public URL it is reported
    at, the key a delete recovers from such a URL, and the record of calls
    made on the object-store client. */
module StorageCommon {
  import opened Wrappers
  import opened Strings
  import opened FileNames

  // ---------------------------------------------------------------------
  // Configuration
  // ---------------------------------------------------------------------

  /** The raw `MINIO_*` settings; `None` is a variable that is not set. */
  datatype Env = Env(
    bucket: Option<string>,
    endpoint: Option<string>,
    port: Option<string>,
    useSsl: Option<string>)

  /** `value || fallback` on a string setting: an unset or empty setting
      falls back. */
  function OrDefault(value: Option<string>, fallback: string): (r: string)
    ensures value.Some? && value.value != "" ==> r == value.value
    ensures value.None? || value.value == "" ==> r == fallback
    ensures fallback != "" ==> r != ""
  {
    match value
    case Some(v) => if v != "" then v else fallback
    case None => fallback
  }

  const DefaultBucket := "uploads"
  const DefaultEndpoint := "localhost"
  const DefaultPort := "9000"
  const DefaultFolder := "posts"

  function Bucket(env: Env): string {
    OrDefault(env.bucket, DefaultBucket)
  }

  function Endpoint(env: Env): string {
    OrDefault(env.endpoint, DefaultEndpoint)
  }

  function Port(env: Env): string {
    OrDefault(env.port, DefaultPort)
  }

  /** `MINIO_USE_SSL === 'true'`: only that exact text turns TLS on. */
  predicate UseSsl(env: Env) {
    env.useSsl == Some("true")
  }

  function Protocol(env: Env): string {
    if UseSsl(env) then "https" else "http"
  }

  // ---------------------------------------------------------------------
  // Object keys
  // ---------------------------------------------------------------------

  /** An uploaded file as the multipart parser hands it over. */
  datatype File = File(originalName: string, size: nat, mimeType: string)

  /** A folder argument left out (`undefined`) takes the default `posts`;
      any supplied text, the empty string included, is used as given. */
  function FolderOrDefault(folder: Option<string>): string {
    folder.GetOr(DefaultFolder)
  }

  /** `${folder}/${Date.now()}-${originalname.replace(/\s+/g, '-')}`. */
  function ObjectKey(folder: string, now: nat, originalName: string): string {
    folder + "/" + Decimal(now) + "-" + Sanitise(originalName)
  }

  /** The key is the folder, a slash, the millisecond timestamp, a dash and
      the sanitised name; it holds whitespace only if the folder does. */
  lemma ObjectKeyShape(folder: string, now: nat, name: string)
    ensures var key := ObjectKey(folder, now, name);
      && key[..|folder| + 1] == folder + "/"
      && key[|folder| + 1..] == Decimal(now) + "-" + Sanitise(name)
      && (NoWhitespace(key) <==> NoWhitespace(folder))
  {
    ObjectKeySplit(folder, Decimal(now) + "-" + Sanitise(name));
    KeyTailClean(now, name);
    NoWhitespaceConcat("/", Decimal(now) + "-" + Sanitise(name));
    NoWhitespaceConcat(folder, "/" + (Decimal(now) + "-" + Sanitise(name)));
  }

  lemma ObjectKeySplit(folder: string, tail: string)
    ensures (folder + "/" + tail)[..|folder| + 1] == folder + "/"
    ensures (folder + "/" + tail)[|folder| + 1..] == tail
    ensures folder + "/" + tail == folder + ("/" + tail)
  {
  }

  /** The part of the key after the folder never holds whitespace. */
  lemma KeyTailClean(now: nat, name: string)
    ensures NoWhitespace(Decimal(now) + "-" + Sanitise(name))
  {
    var d := Decimal(now);
    assert NoWhitespace(d) by {
      forall i | 0 <= i < |d| ensures !IsWhitespace(d[i]) {
        assert IsDigit(d[i]);
      }
    }
    NoWhitespaceConcat(d, "-");
    NoWhitespaceConcat(d + "-", Sanitise(name));
  }

  /** Within one folder, a key determines the timestamp and the sanitised
      name it was built from. */
  lemma ObjectKeyInjective(folder: string, t1: nat, n1: string, t2: nat, n2: string)
    requires ObjectKey(folder, t1, n1) == ObjectKey(folder, t2, n2)
    ensures t1 == t2 && Sanitise(n1) == Sanitise(n2)
  {
    ObjectKeyShape(folder, t1, n1);
    ObjectKeyShape(folder, t2, n2);
    assert Decimal(t1) + ['-'] + Sanitise(n1) == Decimal(t2) + ['-'] + Sanitise(n2);
    DecimalPrefixUnique(t1, Sanitise(n1), t2, Sanitise(n2), '-');
  }

  // ---------------------------------------------------------------------
  // Public URLs and the way back to keys
  // ---------------------------------------------------------------------

  /** `${protocol}://${endpoint}:${port}`. */
  function Origin(env: Env): string {
    Protocol(env) + "://" + Endpoint(env) + ":" + Port(env)
  }

  /** `/${bucketName}/`: what a delete splits the URL on. */
  function BucketSegment(env: Env): string {
    "/" + Bucket(env) + "/"
  }

  /** `${protocol}://${endpoint}:${port}/${bucketName}/${fileName}`. */
  function PublicUrl(env: Env, key: string): string {
    Origin(env) + BucketSegment(env) + key
  }

  /** The URL is served over https exactly when SSL is switched on, and it
      ends with the object key. */
  lemma PublicUrlShape(env: Env, key: string)
    ensures var url := PublicUrl(env, key);
      && (UseSsl(env) <==> |url| >= 8 && url[..8] == "https://")
      && (!UseSsl(env) <==> |url| >= 7 && url[..7] == "http://")
      && url[|url| - |key|..] == key
  {
    var url := PublicUrl(env, key);
    if UseSsl(env) {
      assert url[..8] == "https://";
      assert url[..7] != "http://" by { assert url[4] == 's'; }
    } else {
      assert url[..7] == "http://";
      assert |url| < 8 || url[..8] != "https://" by { assert url[4] == ':'; }
    }
    assert url == (Origin(env) + BucketSegment(env)) + key;
  }

  /** `fileUrl.split('/' + bucketName + '/')`, then the second piece, or the
      "Invalid file URL" case when the bucket segment does not occur. */
  function ObjectNameFromUrl(env: Env, url: string): (r: Option<string>)
    ensures r.None? <==> !Contains(url, BucketSegment(env))
    ensures r.Some? ==> r.value == AfterFirst(url, BucketSegment(env))
    ensures r.Some? ==> !Contains(r.value, BucketSegment(env))
  {
    var parts := Split(url, BucketSegment(env));
    SplitHasSecondPiece(url, BucketSegment(env));
    if |parts| < 2 then None
    else
      SplitPieceFree(url, BucketSegment(env), 1);
      SplitSecondPiece(url, BucketSegment(env));
      Some(parts[1])
  }

  /** The configuration does not put the bucket segment anywhere before the
      place where the URL's own bucket segment starts. It holds for the
      default configuration (`DefaultEnvUnambiguous`). */
  predicate UnambiguousOrigin(env: Env) {
    !Contains(Origin(env) + "/" + Bucket(env), BucketSegment(env))
  }

  lemma FirstSegmentAfterOrigin(env: Env, key: string)
    requires UnambiguousOrigin(env)
    ensures IndexOf(PublicUrl(env, key), BucketSegment(env)) == Some(|Origin(env)|)
  {
    var url := PublicUrl(env, key);
    var sep := BucketSegment(env);
    var p := Origin(env) + "/" + Bucket(env);
    assert url[|Origin(env)|..|Origin(env)| + |sep|] == sep;
    assert OccursAt(url, sep, |Origin(env)|);
    assert url[..|p|] == p;
    forall j: nat | j < |Origin(env)| && OccursAt(url, sep, j)
      ensures false
    {
      OccursInPrefix(p, url, sep, j);
    }
  }

  /** Deleting by the URL an upload reported targets exactly the uploaded key
      if and only if the key itself does not contain the bucket segment;
      otherwise the split cuts the key short at its first occurrence. */
  lemma DeleteRecoversKey(env: Env, key: string)
    requires UnambiguousOrigin(env)
    ensures ObjectNameFromUrl(env, PublicUrl(env, key)) == Some(key)
      <==> !Contains(key, BucketSegment(env))
  {
    var sep := BucketSegment(env);
    FirstSegmentAfterOrigin(env, key);
    SplitAfterFirst(Origin(env), sep, key);
    match IndexOf(key, sep)
    case None =>
    case Some(i) =>
      assert Split(key, sep)[0] == key[..i];
      assert |key[..i]| < |key|;
  }

  /** With no `MINIO_*` variable set the origin is `http://localhost:9000`
      and the bucket `uploads`, so the only ambiguity left is in the key. */
  lemma DefaultEnvUnambiguous(key: string)
    ensures var env := Env(None, None, None, None);
      && PublicUrl(env, key) == "http://localhost:9000/uploads/" + key
      && UnambiguousOrigin(env)
  {
    var env := Env(None, None, None, None);
    assert Origin(env) + "/" + Bucket(env) == "http://localhost:9000/uploads";
    assert BucketSegment(env) == "/uploads/";
    assert Origin(env) + BucketSegment(env) == "http://localhost:9000/uploads/";
    forall j: nat
      ensures !OccursAt("http://localhost:9000/uploads", "/uploads/", j)
    {
      DefaultOriginFree(j);
    }
  }

  lemma DefaultOriginFree(j: nat)
    ensures !OccursAt("http://localhost:9000/uploads", "/uploads/", j)
  {
    var p := "http://localhost:9000/uploads";
    if j + 9 <= |p| {
      // the segment starts with "/u", and the only "/u" is too close to the end
      assert p[j..j + 9][1] == p[j + 1];
      assert || j == 0 || j == 1 || j == 2 || j == 3 || j == 4 || j == 5 || j == 6
             || j == 7 || j == 8 || j == 9 || j == 10 || j == 11 || j == 12 || j == 13
             || j == 14 || j == 15 || j == 16 || j == 17 || j == 18 || j == 19 || j == 20;
    }
  }

  // ---------------------------------------------------------------------
  // Calls on the object-store client, and their outcomes
  // ---------------------------------------------------------------------

  /** The object-store client, as opaque effects that either succeed or fail. */
  datatype ObjectStore = ObjectStore(
    putObject: (string, string) -> bool,                    // (bucket, key) accepted?
    presignedGetObject: (string, string, int) -> Option<string>,
    removeObject: (string, string) -> bool)

  /** One call made on the client, with the arguments that matter here. */
  datatype StoreCall =
    | PutObject(bucket: string, key: string, size: nat, contentType: string)
    | PresignGet(bucket: string, key: string, expirySeconds: int)
    | RemoveObject(bucket: string, key: string)

  /** A thrown error: a `BadRequestException` with its message, or whatever
      the object-store client rejected with. */
  datatype ServiceError = BadRequest(message: string) | ClientError

  const NoFileProvided := "No file provided"
  const FailedToUpload := "Failed to upload file"
  const FailedToDelete := "Failed to delete file"
  const InvalidFileUrl := "Invalid file URL"

  /** A service operation's result together with the client calls it made,
      in order. */
  datatype Traced<T> = Traced(result: Result<T, ServiceError>, calls: seq<StoreCall>)

  /** `Promise.all(files.map(op))`, sequentialised: every operation runs and
      makes its calls; the result is every value in input order, or the first
      failure in input order. */
  function All<T>(runs: seq<Traced<T>>): (r: Traced<seq<T>>)
    ensures r.result.Success? <==> forall i :: 0 <= i < |runs| ==> runs[i].result.Success?
    ensures r.result.Success? ==>
              && |r.result.value| == |runs|
              && forall i :: 0 <= i < |runs| ==> r.result.value[i] == runs[i].result.value
    ensures r.result.Failure? ==>
              exists i :: && 0 <= i < |runs|
                          && runs[i].result == Failure(r.result.error)
                          && forall j :: 0 <= j < i ==> runs[j].result.Success?
    ensures multiset(r.calls) == CallBag(runs)
    ensures forall i :: 0 <= i < |runs| ==> multiset(runs[i].calls) <= multiset(r.calls)
  {
    Traced(AllResults(runs), AllCalls(runs))
  }

  /** The combined outcome: every value in order, or the first failure. */
  function AllResults<T>(runs: seq<Traced<T>>): (r: Result<seq<T>, ServiceError>)
    ensures r.Success? <==> forall i :: 0 <= i < |runs| ==> runs[i].result.Success?
    ensures r.Success? ==>
              && |r.value| == |runs|
              && forall i :: 0 <= i < |runs| ==> r.value[i] == runs[i].result.value
    ensures r.Failure? ==>
              exists i :: && 0 <= i < |runs|
                          && runs[i].result == Failure(r.error)
                          && forall j :: 0 <= j < i ==> runs[j].result.Success?
  {
    if |runs| == 0 then Success([])
    else
      var rest := AllResults(runs[1..]);
      match runs[0].result
      case Failure(e) => Failure(e)
      case Success(v) =>
        match rest
        case Failure(e) => Failure(e)
        case Success(vs) => Success([v] + vs)
  }

  /** The calls of all operations, one operation after another. */
  function AllCalls<T>(runs: seq<Traced<T>>): (r: seq<StoreCall>)
    ensures multiset(r) == CallBag(runs)
    ensures forall i :: 0 <= i < |runs| ==> multiset(runs[i].calls) <= multiset(r)
  {
    if |runs| == 0 then []
    else
      var rest := AllCalls(runs[1..]);
      assert forall i :: 1 <= i < |runs| ==> runs[i] == runs[1..][i - 1];
      runs[0].calls + rest
  }

  /** Every call any of the operations makes, counted with multiplicity and
      without regard to order. */
  function CallBag<T>(runs: seq<Traced<T>>): multiset<StoreCall> {
    if |runs| == 0 then multiset{} else multiset(runs[0].calls) + CallBag(runs[1..])
  }

  // ---------------------------------------------------------------------
  // The two steps both services share
  // ---------------------------------------------------------------------

  /** A combined failure is one of the errors the operations can fail with. */
  lemma AllFailsWithOneOf<T>(runs: seq<Traced<T>>, errors: set<ServiceError>)
    requires forall i :: 0 <= i < |runs| && runs[i].result.Failure? ==> runs[i].result.error in errors
    ensures All(runs).result.Failure? ==> All(runs).result.error in errors
  {
    var r := All(runs);
    if r.result.Failure? {
      var i :| 0 <= i < |runs| && runs[i].result == Failure(r.result.error);
    }
  }

  /** A call one of the operations makes is among the combined calls. */
  lemma AllKeepsCall<T>(runs: seq<Traced<T>>, i: int, c: StoreCall)
    requires 0 <= i < |runs| && c in runs[i].calls
    ensures c in All(runs).calls
  {
    assert c in multiset(runs[i].calls);
  }

  /** The `putObject` call an upload of `f` makes. */
  function PutCall(env: Env, folder: Option<string>, now: nat, f: File): StoreCall {
    PutObject(Bucket(env), ObjectKey(FolderOrDefault(folder), now, f.originalName), f.size, f.mimeType)
  }

  /** The start of an upload: reject a missing file, else build the key and
      `putObject` the file under it. Success carries the key. */
  function PutFile(env: Env, store: ObjectStore, file: Option<File>, folder: Option<string>, now: nat)
    : (r: Traced<string>)
    ensures file.None? ==> r == Traced(Failure(BadRequest(NoFileProvided)), [])
    ensures file.Some? ==>
              var key := ObjectKey(FolderOrDefault(folder), now, file.value.originalName);
              && r.calls == [PutObject(Bucket(env), key, file.value.size, file.value.mimeType)]
              && (r.result.Success? <==> store.putObject(Bucket(env), key))
              && (r.result.Success? ==> r.result.value == key)
              && (r.result.Failure? ==> r.result.error == BadRequest(FailedToUpload))
  {
    match file
    case None => Traced(Failure(BadRequest(NoFileProvided)), [])
    case Some(f) =>
      var key := ObjectKey(FolderOrDefault(folder), now, f.originalName);
      var call := PutObject(Bucket(env), key, f.size, f.mimeType);
      if store.putObject(Bucket(env), key) then Traced(Success(key), [call])
      else Traced(Failure(BadRequest(FailedToUpload)), [call])
  }

  /** The body of a delete: split the URL, reject it when the bucket segment
      is missing, else `removeObject` the second piece. The error says which
      step failed; the services replace it by "Failed to delete file". */
  function RemoveByUrl(env: Env, store: ObjectStore, url: string): Traced<()> {
    match ObjectNameFromUrl(env, url)
    case None => Traced(Failure(BadRequest(InvalidFileUrl)), [])
    case Some(name) =>
      var call := RemoveObject(Bucket(env), name);
      if store.removeObject(Bucket(env), name) then Traced(Success(()), [call])
      else Traced(Failure(ClientError), [call])
  }

  /** `catch (error) { throw new BadRequestException(message) }`. */
  function Rethrow<T>(t: Traced<T>, message: string): (r: Traced<T>)
    ensures r.calls == t.calls
    ensures r.result.Success? <==> t.result.Success?
    ensures r.result.Success? ==> r.result == t.result
    ensures r.result.Failure? ==> r.result.error == BadRequest(message)
  {
    if t.result.Success? then t else Traced(Failure(BadRequest(message)), t.calls)
  }
}
