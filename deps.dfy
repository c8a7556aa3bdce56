/** The API-key dependency that guards the results endpoints. */
module Deps {
  import opened Wrappers

  const UNAUTHORIZED := 401

  /**
   * verify_api_key: `x_api_key` is the X-API-Key header (None when absent)
   * and `apiKey` the configured API_KEY. A missing or empty header is
   * refused before the comparison, so an empty API_KEY admits nobody.
   */
  function VerifyApiKey(header: Option<string>, apiKey: string): (r: Result<(), int>)
    ensures r.Success? <==> header == Some(apiKey) && apiKey != ""
    ensures r.Failure? ==> r.error == UNAUTHORIZED
  {
    if header.None? || header.value == "" || header.value != apiKey then Failure(UNAUTHORIZED)
    else Success(())
  }

  /** With API_KEY empty, every request is refused, the empty header included. */
  lemma EmptyKeyAdmitsNobody(header: Option<string>)
    ensures VerifyApiKey(header, "") == Failure(UNAUTHORIZED)
  {
  }
}
