/** One request of the typed client, given the answers of the network and of `onUnauthorized`. */
module SdkRequest {
  import opened Results

  type Headers = map<string, string>

  /** A response as far as the client looks at it; `json` is what parsing its body gives, if it parses. */
  datatype Response =
    Response(status: int, statusText: string, contentLength: Option<string>, text: string, json: Option<Json>)
  {
    predicate IsOk() {
      200 <= status <= 299
    }

    predicate HasNoBody() {
      status == 204 || contentLength == Some("0") || text == ""
    }
  }

  datatype Json = Json(text: string)

  /** A fetch may also fail without a response. */
  type Answer = Option<Response>

  /** What `onUnauthorized` comes to: a token, null or an exception. */
  datatype Renewal = Renewed(token: Option<string>) | Failed
  {
    predicate GivesToken() {
      Renewed? && token.Some? && token.value != ""
    }
  }

  datatype Problem = Given(json: Json) | Fallback(title: string, status: int)

  datatype Outcome = Value(json: Json) | Undefined | ApiError(status: int, problem: Problem) | Exception

  datatype Fetch = Fetch(headers: Headers, body: Option<Json>)

  function HeaderOf(h: Headers, name: string): Option<string> {
    if name in h then Some(h[name]) else None
  }

  /** A token that is neither null nor empty sets the authorization header, a body the content type;
    * both win over the caller's headers, which win over the default for `Accept`. */
  predicate AreHeaders(h: Headers, extra: Headers, hasBody: bool, token: Option<string>) {
    && h.Keys <= extra.Keys + {"Accept", "Content-Type", "Authorization"}
    && (forall name <- extra :: name != "Authorization" && name != "Content-Type"
         ==> HeaderOf(h, name) == Some(extra[name]))
    && ("Accept" !in extra ==> HeaderOf(h, "Accept") == Some("application/json"))
    && HeaderOf(h, "Content-Type") == (if hasBody then Some("application/json") else HeaderOf(extra, "Content-Type"))
    && HeaderOf(h, "Authorization") ==
       (if token.Some? && token.value != "" then Some("Bearer " + token.value) else HeaderOf(extra, "Authorization"))
  }

  method DoFetch(extra: Headers, body: Option<Json>, token: Option<string>) returns (fetch: Fetch)
    ensures AreHeaders(fetch.headers, extra, body.Some?, token) && fetch.body == body
  {
    var headers := map["Accept" := "application/json"] + extra;
    if body.Some? {
      headers := headers["Content-Type" := "application/json"];
    }
    if token.Some? && token.value != "" {
      headers := headers["Authorization" := "Bearer " + token.value];
    }
    return Fetch(headers, body);
  }

  /** The second fetch happens exactly after a 401 for which `onUnauthorized` is set and gives a token. */
  predicate Retries(first: Answer, renewal: Option<Renewal>) {
    && first.Some? && first.value.status == 401
    && renewal.Some? && renewal.value.Renewed? && renewal.value.token.Some? && renewal.value.token.value != ""
  }

  predicate HasStatusOk(r: Response) {
    200 <= r.status && r.status < 300
  }

  predicate IsBare(r: Response) {
    || r.status == 204
    || (r.contentLength.Some? && r.contentLength.value == "0")
    || |r.text| == 0
  }

  /** How the caller sees the answer that counts. */
  predicate IsOutcome(outcome: Outcome, last: Answer) {
    match outcome
    case Exception => last.None? || (HasStatusOk(last.value) && !IsBare(last.value) && last.value.json.None?)
    case Undefined => last.Some? && HasStatusOk(last.value) && IsBare(last.value)
    case Value(json) => last.Some? && HasStatusOk(last.value) && !IsBare(last.value) && last.value.json == Some(json)
    case ApiError(status, problem) =>
      && last.Some? && !HasStatusOk(last.value) && status == last.value.status
      && match problem
         case Given(json) => last.value.json == Some(json)
         case Fallback(title, s) =>
           && last.value.json.None? && s == status
           && title == if last.value.statusText != "" then last.value.statusText else "Request failed"
  }

  /** At most two fetches with the same body: the first with the current token, the second only after a
    * 401, with the renewed token. `renewal` is None when no handler is configured. */
  method Request(extra: Headers, body: Option<Json>, token: Option<string>,
                 first: Answer, renewal: Option<Renewal>, second: Answer)
    returns (outcome: Outcome, sent: seq<Fetch>)
    ensures 1 <= |sent| <= 2 && (|sent| == 2 <==> Retries(first, renewal))
    ensures AreHeaders(sent[0].headers, extra, body.Some?, token) && sent[0].body == body
    ensures |sent| == 2 ==> AreHeaders(sent[1].headers, extra, body.Some?, renewal.value.token) && sent[1].body == body
    ensures if first.Some? && first.value.status == 401 && renewal == Some(Failed) then outcome == Exception
            else IsOutcome(outcome, if |sent| == 2 then second else first)
  {
    var f := DoFetch(extra, body, token);
    sent := [f];
    var answer := first;
    if answer.None? {
      return Exception, sent;
    }
    if answer.value.status == 401 && renewal.Some? {
      if renewal.value.Failed? {
        return Exception, sent;
      }
      if renewal.value.GivesToken() {
        f := DoFetch(extra, body, renewal.value.token);
        sent := sent + [f];
        answer := second;
        if answer.None? {
          return Exception, sent;
        }
      }
    }
    outcome := Settle(answer.value);
  }

  method Settle(response: Response) returns (outcome: Outcome)
    ensures IsOutcome(outcome, Some(response))
  {
    if !response.IsOk() {
      var problem;
      if response.json.Some? {
        problem := Given(response.json.value);
      } else {
        problem := Fallback(if response.statusText != "" then response.statusText else "Request failed",
                            response.status);
      }
      return ApiError(response.status, problem);
    }
    if response.HasNoBody() {
      return Undefined;
    }
    return if response.json.Some? then Value(response.json.value) else Exception;
  }
}
