/**
 * The `xoid` cookie branch of `index`, the same in both server variants: which
 * fingerprint, if any, the page looks up.
 */
module Xoid {
  import opened Wrappers

  /**
   * What `json.loads` made of the cookie, reduced to what `index` inspects:
   * a falsy value (null, false, 0, "", [], {}), a truthy value that is not a
   * dict and so has no `.get`, or a non-empty dict with its `pkey_hash` entry
   * (None when the key is absent or null).
   */
  datatype Decoded = Falsy | NotADict | Dict(pkeyHash: Option<string>)

  /**
   * The fingerprint `index` sets and looks up: None unless the cookie is
   * present and non-empty, decodes to a truthy dict, and that dict has a
   * truthy `pkey_hash`. `loads` stands for `json.loads` (None: it raised
   * ValueError); `.get` on a truthy non-dict raises AttributeError. Neither
   * exception is caught.
   */
  function Claim(cookie: Option<string>, loads: string -> Option<Decoded>): (r: Result<Option<string>>)
    ensures r.Ok? && r.value.Some? <==>
              cookie.Some? && cookie.value != "" &&
              loads(cookie.value).Some? && loads(cookie.value).value.Dict? &&
              loads(cookie.value).value.pkeyHash.Some? && loads(cookie.value).value.pkeyHash.value != ""
    ensures r.Ok? && r.value.Some? ==> Some(Dict(r.value)) == loads(cookie.value)
    ensures r.Err? <==> cookie.Some? && cookie.value != "" && (loads(cookie.value).None? || loads(cookie.value) == Some(NotADict))
    ensures r.Err? ==> r.error == (if loads(cookie.value).None? then ValueError else AttributeError)
  {
    if cookie.None? || cookie.value == "" then Ok(None)
    else
      match loads(cookie.value)
      case None => Err(ValueError)
      case Some(Falsy) => Ok(None)
      case Some(NotADict) => Err(AttributeError)
      case Some(Dict(pk)) => if pk.None? || pk.value == "" then Ok(None) else Ok(pk)
  }

  /** A non-empty cookie the decoder rejects escapes as ValueError instead of giving the anonymous page. */
  lemma BadCookieRaises(cookie: string, loads: string -> Option<Decoded>)
    requires cookie != "" && loads(cookie).None?
    ensures Claim(Some(cookie), loads) == Err(ValueError)
  {
  }

  /**
   * The cookie handling the test suite expects: a cookie that cannot be read
   * (not JSON, or not a dict) is treated like no cookie at all.
   */
  function TolerantClaim(cookie: Option<string>, loads: string -> Option<Decoded>): (r: Option<string>)
    ensures r.Some? <==>
              cookie.Some? && cookie.value != "" &&
              loads(cookie.value).Some? && loads(cookie.value).value.Dict? &&
              loads(cookie.value).value.pkeyHash.Some? && loads(cookie.value).value.pkeyHash.value != ""
    ensures Claim(cookie, loads).Ok? ==> Claim(cookie, loads) == Ok(r)
  {
    if cookie.None? || cookie.value == "" then None
    else
      match loads(cookie.value)
      case Some(Dict(Some(pk))) => if pk == "" then None else Some(pk)
      case _ => None
  }

  /** With the tolerant reading an undecodable cookie means no lookup. */
  lemma BadCookieIsAnonymous(cookie: string, loads: string -> Option<Decoded>)
    requires loads(cookie).None? || loads(cookie) == Some(NotADict)
    ensures TolerantClaim(Some(cookie), loads) == None
  {
  }

  /** No cookie, or an empty one, means no lookup, whatever the decoder would do. */
  lemma AnonymousWithoutCookie(cookie: Option<string>, loads: string -> Option<Decoded>)
    requires cookie.None? || cookie == Some("")
    ensures Claim(cookie, loads) == Ok(None)
  {
  }
}
