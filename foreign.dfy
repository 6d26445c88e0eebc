/**
 * The library and host functions the client calls but does not define:
 * CryptoJS HMAC-SHA1 (RFC 2104 over SHA-1) and Base64 (section 4 of
 * RFC 4648), `encodeURIComponent`, `JSON.stringify`, `JSON.parse`,
 * `querystring.stringify`, `uuid.v1` and `Date.now`. They are parameters
 * of the model: nothing is assumed about them except where a lemma names a
 * property of them in its `requires`.
 */
module Foreign {
  import opened Wrappers
  import opened JsValues

  /** Bytes of an HMAC-SHA1 digest. */
  type Digest = seq<bv8>

  datatype Lib = Lib(
    /** `CryptoJS.HmacSHA1(message, key)` */
    hmacSha1: (string, JsValue) -> Digest,
    /** `digest.toString(CryptoJS.enc.Base64)` */
    base64: Digest -> string,
    encodeURIComponent: string -> string,
    jsonStringify: JsValue -> string,
    /** `JSON.parse` of a response text; None when the text is not JSON */
    jsonParse: string -> Option<JsValue>,
    querystringStringify: map<string, JsValue> -> string)

  /** The values `uuid.v1()` and `Date.now()` return when they are called. */
  datatype Env = Env(uuidV1: string, now: int)

  /** `encodeURIComponent` escapes `&` (section 2.2 of RFC 3986 lists it as reserved). */
  ghost predicate EscapesAmpersand(lib: Lib)
  {
    forall s :: '&' !in lib.encodeURIComponent(s)
  }

  /** `JSON.stringify` of an array or object is never the empty string (it starts with `[` or `{`). */
  ghost predicate JsonNonEmptyForContainers(lib: Lib)
  {
    forall v: JsValue :: (v.Arr? || v.Obj?) ==> lib.jsonStringify(v) != ""
  }
}
