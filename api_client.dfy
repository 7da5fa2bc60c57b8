/** The API client's pure parts: the base URL, the endpoint normalisation,
    the request headers and the message of a failed request. */
module ApiClient {
  import opened Wrappers
  import opened Strings
  import opened Json

  const DefaultBaseUrl: string := "http://localhost:8088/api"
  const GenericError: string := "API 請求失敗"

  /** `.replace(/\/+$/, "")`: every trailing slash removed. */
  function StripTrailingSlashes(s: string): (r: string)
    ensures StartsWith(s, r)
    ensures r == [] || r[|r| - 1] != '/'
    ensures forall k :: |r| <= k < |s| ==> s[k] == '/'
  {
    if |s| > 0 && s[|s| - 1] == '/' then StripTrailingSlashes(s[..|s| - 1]) else s
  }

  /** Stripping twice is stripping once. */
  lemma StripIdempotent(s: string)
    ensures StripTrailingSlashes(StripTrailingSlashes(s)) == StripTrailingSlashes(s)
  {
  }

  /** `BASE_URL`, from `NEXT_PUBLIC_API_URL` or the local default. */
  function BaseUrl(env: Option<string>): (r: string)
    ensures r == [] || r[|r| - 1] != '/'
    ensures env.None? || env.value == "" ==> r == DefaultBaseUrl
    ensures env.Some? && env.value != "" ==> r == StripTrailingSlashes(env.value)
  {
    StripTrailingSlashes(if env.Some? && env.value != "" then env.value else DefaultBaseUrl)
  }

  /** The endpoint with a leading `/`. */
  function WithLeadingSlash(endpoint: string): (r: string)
    ensures StartsWith(r, "/")
    ensures r == endpoint || r == "/" + endpoint
    ensures StartsWith(endpoint, "/") ==> r == endpoint
  {
    if StartsWith(endpoint, "/") then endpoint else "/" + endpoint
  }

  /** `cleanEndpoint`: a leading `/` added when missing, and a trailing
      `/` added exactly when there is no query and no trailing slash. */
  function CleanEndpoint(endpoint: string): (r: string)
    ensures StartsWith(r, "/")
    ensures Contains(r, "?") || EndsWith(r, "/")
    ensures var lead := WithLeadingSlash(endpoint);
      (r == lead + "/" <==> !Contains(lead, "?") && !EndsWith(lead, "/")) &&
      (r == lead || r == lead + "/")
  {
    var lead := WithLeadingSlash(endpoint);
    if !Contains(lead, "?") && !EndsWith(lead, "/") then
      var r := lead + "/";
      assert r[..1] == lead[..1];
      assert r[|r| - 1..] == "/";
      r
    else
      lead
  }

  /** Normalising a normalised endpoint changes nothing. */
  lemma CleanEndpointIdempotent(endpoint: string)
    ensures CleanEndpoint(CleanEndpoint(endpoint)) == CleanEndpoint(endpoint)
  {
  }

  /** The URL a request goes to. */
  function RequestUrl(env: Option<string>, endpoint: string): string {
    BaseUrl(env) + CleanEndpoint(endpoint)
  }

  /** The headers sent: the caller's, then `Content-Type` for non-form
      bodies, then the bearer token unless `skipAuth` or there is no
      token (on the server there never is). */
  method BuildHeaders(given: map<string, string>, bodyIsFormData: bool, skipAuth: bool, token: Option<string>)
    returns (headers: map<string, string>)
    ensures !bodyIsFormData ==> "Content-Type" in headers && headers["Content-Type"] == "application/json"
    ensures bodyIsFormData ==>
      ("Content-Type" in headers <==> "Content-Type" in given) &&
      ("Content-Type" in given ==> headers["Content-Type"] == given["Content-Type"])
    ensures !skipAuth && token.Some? && token.value != "" ==>
      "Authorization" in headers && headers["Authorization"] == "Bearer " + token.value
    ensures skipAuth || token.None? || token.value == "" ==>
      ("Authorization" in headers <==> "Authorization" in given) &&
      ("Authorization" in given ==> headers["Authorization"] == given["Authorization"])
    ensures forall k :: k in given && k != "Content-Type" && k != "Authorization" ==> k in headers && headers[k] == given[k]
    ensures forall k :: k in headers ==> k in given || k == "Content-Type" || k == "Authorization"
  {
    headers := given;
    if !bodyIsFormData {
      headers := headers["Content-Type" := "application/json"];
    }
    if !skipAuth && token.Some? && token.value != "" {
      headers := headers["Authorization" := "Bearer " + token.value];
    }
  }

  /** The message of a failed request: `detail`, else `message`, else the
      generic text; a non-string value is JSON-encoded. An unparsable body
      counts as `{}`. */
  function ErrorMessage(body: Fields): (msg: string)
    ensures Present(Get(body, "detail")) && Get(body, "detail").value.JStr? ==> msg == Get(body, "detail").value.s
    ensures Present(Get(body, "detail")) && !Get(body, "detail").value.JStr? ==> msg == Stringify(Get(body, "detail").value)
    ensures !Present(Get(body, "detail")) && Present(Get(body, "message")) ==>
      msg == (if Get(body, "message").value.JStr? then Get(body, "message").value.s else Stringify(Get(body, "message").value))
    ensures !Present(Get(body, "detail")) && !Present(Get(body, "message")) ==> msg == GenericError
  {
    var detail := Get(body, "detail");
    var message := Get(body, "message");
    var chosen := if Present(detail) then detail.value else if Present(message) then message.value else JStr(GenericError);
    if chosen.JStr? then chosen.s else Stringify(chosen)
  }
}
