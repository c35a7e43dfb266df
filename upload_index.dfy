/** The second upload endpoint: the same key construction and the same
    refusals as `Upload`, with the object served under `/api/file/`. */
module UploadIndex {
  import opened Js
  import opened Http
  import opened Upload

  const FileUrlPrefix := "/api/file/"

  /** After a successful write the response carries the key unchanged and
      the URL `/api/file/<key>`. */
  lemma FileUploadResponse(key: string)
    ensures StoredResponse(FileUrlPrefix, key, Done(())).status == 200
    ensures StoredResponse(FileUrlPrefix, key, Done(())).body
         == Json(SuccessBody(Obj([("key", Str(key)), ("url", Str("/api/file/" + key))])))
  {
  }

  /** The `url` entry of a `{success, data: {key, url}}` response body. */
  function UrlOf(r: Response): Value
    requires r.body.Json? && r.body.value.Obj? && |r.body.value.fields| > 1
    requires r.body.value.fields[1].1.Obj? && |r.body.value.fields[1].1.fields| > 1
  {
    r.body.value.fields[1].1.fields[1].1
  }

  /** The two endpoints answer alike except for the URL: a failed write
      gives the same 500, and a successful one gives 200 with the same
      headers and the same key, the URLs differing in their prefix only. */
  lemma VariantsDifferOnlyInUrl(key: string, written: Attempt<()>)
    ensures written.Throws? ==> StoredResponse(FileUrlPrefix, key, written) == StoredResponse(UploadUrlPrefix, key, written)
    ensures written.Done? ==>
      var a := StoredResponse(FileUrlPrefix, key, written);
      var b := StoredResponse(UploadUrlPrefix, key, written);
      && a.status == b.status == 200
      && a.headers == b.headers
      && a.body == Json(SuccessBody(Obj([("key", Str(key)), ("url", Str(FileUrlPrefix + key))])))
      && b.body == Json(SuccessBody(Obj([("key", Str(key)), ("url", Str(UploadUrlPrefix + key))])))
      && a != b
  {
    if written.Done? {
      var a := StoredResponse(FileUrlPrefix, key, written);
      var b := StoredResponse(UploadUrlPrefix, key, written);
      assert (FileUrlPrefix + key)[5] != (UploadUrlPrefix + key)[5];
      assert UrlOf(a) != UrlOf(b);
    }
  }
}
