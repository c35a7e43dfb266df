/** Responses as the Fetch API builds them, the mutable `Headers` object, and
    the JSON envelopes `{success, data}` / `{success, error}` every handler
    returns. Header names are kept lower-case, as `Headers` stores them. */
module Http {
  import opened Text
  import opened Js

  datatype Body =
    | NoBody
    | Json(value: Value)
    | Plain(text: string)
    | Stream(handle: nat)

  datatype Response = Response(status: int, headers: map<string, string>, body: Body)

  const JsonContentType := "application/json"
  const TextContentType := "text/plain;charset=UTF-8"

  /** `Response.json(body, {status, headers})`: the runtime adds the JSON content type. */
  function JsonResponse(status: int, body: Value, headers: map<string, string>): (r: Response)
    ensures r.status == status && r.body == Json(body)
    ensures r.headers.Keys == headers.Keys + {"content-type"}
    ensures forall k :: k in headers && k != "content-type" ==> r.headers[k] == headers[k]
  {
    Response(status, headers["content-type" := JsonContentType], Json(body))
  }

  /** `new Response(text, {status})` */
  function TextResponse(status: int, text: string): Response {
    Response(status, map["content-type" := TextContentType], Plain(text))
  }

  /** `{success: true, data}` */
  function SuccessBody(data: Value): Value {
    Obj([("success", Bool(true)), ("data", data)])
  }

  /** `{success: false, error}` */
  function ErrorBody(error: string): Value {
    Obj([("success", Bool(false)), ("error", Str(error))])
  }

  function ErrorResponse(status: int, error: string): Response {
    JsonResponse(status, ErrorBody(error), map[])
  }

  /** The `catch` branch shared by the handlers: status 500 with the error's
      message, or the handler's fallback text when a non-`Error` was thrown. */
  function Failure(t: Thrown, fallback: string): (r: Response)
    ensures r.status == 500
    ensures r.body == Json(ErrorBody(if t.message.Some? then t.message.value else fallback))
  {
    ErrorResponse(500, match t.message case Some(m) => m case None => fallback)
  }

  /** The `Headers` object of a response under construction. */
  class Headers {
    var entries: map<string, string>

    constructor (init: map<string, string>)
      ensures entries == init
    {
      entries := init;
    }

    /** `headers.set(name, value)`: replaces any value stored under the name;
        reading that name back, in any case, gives the value, and every
        other name reads as before. */
    method Set(name: string, value: string)
      modifies this
      ensures entries == old(entries)[ToLower(name) := value]
      ensures Get(name) == Some(value)
      ensures forall n :: ToLower(n) != ToLower(name) ==> Get(n) == old(Get(n))
    {
      entries := entries[ToLower(name) := value];
    }

    /** `headers.get(name)` */
    function Get(name: string): Option<string>
      reads this
    {
      var key := ToLower(name);
      if key in entries then Some(entries[key]) else None
    }
  }

  /** Header names are case-insensitive: two names that lower-case alike
      read the same entry, so `get('Authorization')` finds a header sent as
      `authorization`. */
  lemma GetIgnoresCase(h: Headers, a: string, b: string)
    requires ToLower(a) == ToLower(b)
    ensures h.Get(a) == h.Get(b)
    ensures h.Get(a).Some? <==> ToLower(b) in h.entries
  {
  }
}
