/** File uploads to the object bucket: the object key built from the upload
    time, a random string and the file's extension, and serving a stored
    object back. The clock, the random source and the bucket itself are
    outside the model; their results are parameters. */
module Upload {
  import opened Text
  import opened Js
  import opened Http

  const MissingFile := "缺少文件"
  const UploadFallback := "上传失败"
  const MissingKey := "缺少文件 key"
  const NotFound := "文件不存在"
  const ServeFailed := "获取文件失败"

  /** What `formData.get('file')` returns: nothing, a plain text field, or a
      file with its name and media type. */
  datatype FormEntry =
    | Absent
    | TextField(text: string)
    | FileField(name: string, mediaType: string, stream: nat)

  /** `file.name.split('.').pop()` */
  function Extension(name: string): (ext: string)
    ensures '.' !in ext
  {
    LastPartIsSuffix(name, '.');
    LastPart(name, '.')
  }

  /** `uploads/${timestamp}-${randomStr}.${fileExtension}` */
  function ObjectKey(timestamp: nat, randomStr: string, name: string): string {
    "uploads/" + NatToString(timestamp) + "-" + randomStr + "." + Extension(name)
  }

  /** What the POST handler does: refuse, or store the file under a key and
      report where it can be fetched. */
  datatype UploadPlan =
    | Refuse(response: Response)
    | Store(key: string, contentType: string, stream: nat)

  /** `onRequestPost` up to the bucket write. `form` is the outcome of
      `request.formData()` followed by `get('file')`. */
  function PostPlan(form: Attempt<FormEntry>, timestamp: nat, randomStr: string): UploadPlan {
    match form
    case Throws(t) => Refuse(Failure(t, UploadFallback))
    case Done(Absent) => Refuse(ErrorResponse(400, MissingFile))
    case Done(TextField(text)) =>
      if text == "" then Refuse(ErrorResponse(400, MissingFile))
      else Refuse(Failure(ReadError(Undefined, "split"), UploadFallback))
    case Done(FileField(name, mediaType, stream)) =>
      Store(ObjectKey(timestamp, randomStr, name), mediaType, stream)
  }

  /** The response once the bucket write has finished or thrown. */
  function StoredResponse(urlPrefix: string, key: string, written: Attempt<()>): Response {
    match written
    case Throws(t) => Failure(t, UploadFallback)
    case Done(_) => JsonResponse(200, SuccessBody(Obj([("key", Str(key)), ("url", Str(urlPrefix + key))])), map[])
  }

  const UploadUrlPrefix := "/api/upload/"

  /** A request without a file is refused with 400 whatever the time and
      random string, and nothing is stored. */
  lemma PostWithoutFile(timestamp: nat, randomStr: string, other: nat, otherStr: string)
    ensures PostPlan(Done(Absent), timestamp, randomStr) == Refuse(ErrorResponse(400, MissingFile))
    ensures PostPlan(Done(TextField("")), timestamp, randomStr) == PostPlan(Done(Absent), other, otherStr)
  {
  }

  /** The text after the last dot, or the whole name when it has none. */
  lemma ExtensionIsLastSegment(name: string)
    ensures '.' !in name ==> Extension(name) == name
    ensures '.' in name ==> exists i :: 0 <= i < |name| && name[i] == '.' && Extension(name) == name[i + 1..]
  {
    LastPartIsSuffix(name, '.');
    var r := Extension(name);
    if '.' in name {
      var i := |name| - |r| - 1;
      assert name[i] == '.' && name[i + 1..] == r;
    }
  }

  /** The last dot-free segment after a dot is that segment. */
  lemma {:induction false} LastPartAfterSeparator(a: string, b: string)
    requires '.' !in b
    ensures LastPart(a + "." + b, '.') == b
  {
    var s := a + "." + b;
    LastPartIsSuffix(s, '.');
    var r := LastPart(s, '.');
    var n := |s|;
    assert s[n - |b| - 1] == '.';
    assert s[n - |b|..] == b;
  }

  /** An accepted file is stored under `uploads/<time>-<random>.<ext>` with
      its own media type; the key's own extension is the file's extension. */
  lemma PostStoresUnderKey(timestamp: nat, randomStr: string, name: string, mediaType: string, stream: nat)
    ensures var p := PostPlan(Done(FileField(name, mediaType, stream)), timestamp, randomStr);
      && p == Store("uploads/" + NatToString(timestamp) + "-" + randomStr + "." + Extension(name), mediaType, stream)
      && Extension(p.key) == Extension(name)
  {
    var prefix := "uploads/" + NatToString(timestamp) + "-" + randomStr;
    LastPartAfterSeparator(prefix, Extension(name));
  }

  /** After a successful write the response carries the key unchanged and
      the URL `/api/upload/<key>`. */
  lemma UploadResponse(key: string)
    ensures StoredResponse(UploadUrlPrefix, key, Done(())).status == 200
    ensures StoredResponse(UploadUrlPrefix, key, Done(())).body
         == Json(SuccessBody(Obj([("key", Str(key)), ("url", Str("/api/upload/" + key))])))
  {
  }

  // ----- GET -----

  /** A stored object: its HTTP metadata headers (lower-case names), its
      entity tag, and its body stream. */
  datatype StoredObject = StoredObject(metadata: map<string, string>, etag: string, stream: nat)

  /** The response for an object: `writeHttpMetadata` then `set('etag', ...)`. */
  function ObjectResponse(stored: StoredObject): Response {
    Response(200, stored.metadata["etag" := stored.etag], Stream(stored.stream))
  }

  /** `GET /api/upload/:key`. `fetch` is what `BUCKET.get` gives for a key. */
  function GetResponse(key: Value, fetch: Value -> Attempt<Option<StoredObject>>): Response {
    if !Truthy(key) then TextResponse(400, MissingKey)
    else
      match fetch(key)
      case Throws(_) => TextResponse(500, ServeFailed)
      case Done(None) => TextResponse(404, NotFound)
      case Done(Some(stored)) => ObjectResponse(stored)
  }

  /** `onRequestGet`, filling a fresh `Headers` as the source does. */
  method Get(key: Value, fetch: Value -> Attempt<Option<StoredObject>>) returns (r: Response)
    ensures r == GetResponse(key, fetch)
  {
    if !Truthy(key) {
      return TextResponse(400, MissingKey);
    }
    var found := fetch(key);
    if found.Throws? {
      return TextResponse(500, ServeFailed);
    }
    if found.value.None? {
      return TextResponse(404, NotFound);
    }
    var stored := found.value.value;
    var headers := new Headers(stored.metadata);
    headers.Set("etag", stored.etag);
    assert ToLower("etag") == "etag";
    r := Response(200, headers.entries, Stream(stored.stream));
  }

  /** A missing key gives 400 without consulting the bucket; an absent
      object gives 404; a found one is served with status 200, its body, its
      metadata and its entity tag. */
  lemma GetOutcomes(key: Value, fetch: Value -> Attempt<Option<StoredObject>>,
                    other: Value -> Attempt<Option<StoredObject>>)
    ensures !Truthy(key) ==>
      GetResponse(key, fetch) == GetResponse(key, other) && GetResponse(key, fetch).status == 400
    ensures Truthy(key) && fetch(key) == Done(None) ==> GetResponse(key, fetch).status == 404
    ensures Truthy(key) && fetch(key).Done? && fetch(key).value.Some? ==> (
      var stored := fetch(key).value.value;
      var r := GetResponse(key, fetch);
      && r.status == 200 && r.body == Stream(stored.stream)
      && r.headers["etag"] == stored.etag
      && (forall h :: h in stored.metadata && h != "etag" ==> r.headers[h] == stored.metadata[h]))
  {
  }
}
