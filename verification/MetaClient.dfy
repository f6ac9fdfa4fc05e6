/** Meta's HTTP client: which answers are errors, of which class, and which of them are tried again. */
module MetaClient {
  import opened Wrappers
  import opened Retry

  /** A JSON value as far as the client looks into it. */
  datatype Json =
    | Null
    | Number(n: int)
    | Text(text: string)
    | List(items: seq<Json>)
    | Object(fields: map<string, Json>)

  /** An HTTP answer; json is None when the text is not JSON. */
  datatype Response = Response(status: int, text: string, json: Option<Json>)

  /** What one attempt meets: an answer, or a failure of the connection. */
  datatype Reply = Answer(response: Response) | TransportFailure | TimedOut

  datatype Error =
    | AuthError | RateLimitError | InvalidRequestError(status: int) | ServerError
    | TransportError | TimeoutException | BadJson

  function Field(json: Json, name: string): Option<Json> {
    if json.Object? && name in json.fields then Some(json.fields[name]) else None
  }

  /** The object that describes the error: the "error" field of the answer, or the answer itself. */
  function ErrorObject(response: Response): Json {
    match response.json
    case None => Object(map["raw" := Text(response.text)])
    case Some(payload) =>
      if payload.Object? then Field(payload, "error").OrElse(Some(payload)).value else Object(map[])
  }

  predicate CodeIn(response: Response, codes: set<int>) {
    var code := Field(ErrorObject(response), "code");
    code.Some? && code.value.Number? && code.value.n in codes
  }

  const AUTH_CODES: set<int> := {190}
  const THROTTLE_CODES: set<int> := {4, 80007, 130429, 131048, 131056}

  function RaiseForStatus(response: Response): Option<Error> {
    if response.status < 400 then None
    else if response.status == 401 || CodeIn(response, AUTH_CODES) then Some(AuthError)
    else if response.status == 429 || CodeIn(response, THROTTLE_CODES) then Some(RateLimitError)
    else if response.status < 500 then Some(InvalidRequestError(response.status))
    else Some(ServerError)
  }

  /** One attempt. An answer that is not JSON where JSON is expected raises. */
  function Attempt(reply: Reply): Outcome<Json, Error> {
    match reply
    case TransportFailure => Raised(TransportError)
    case TimedOut => Raised(TimeoutException)
    case Answer(response) =>
      var error := RaiseForStatus(response);
      if error.Some? then Raised(error.value)
      else if response.status == 204 || response.text == "" then Returned(Object(map[]))
      else if response.json.None? then Raised(BadJson)
      else Returned(response.json.value)
  }

  /** The answer is a JSON object whose "error" field, or which itself if it has none, is an object with this code. */
  predicate HasCode(response: Response, n: int) {
    && response.json.Some? && response.json.value.Object?
    && var payload := response.json.value.fields;
       if "error" in payload then
         payload["error"].Object? && "code" in payload["error"].fields && payload["error"].fields["code"] == Number(n)
       else "code" in payload && payload["code"] == Number(n)
  }

  predicate NamesToken(response: Response) {
    response.status == 401 || HasCode(response, 190)
  }

  predicate NamesLimit(response: Response) {
    || response.status == 429 || HasCode(response, 4) || HasCode(response, 80007) || HasCode(response, 130429)
    || HasCode(response, 131048) || HasCode(response, 131056)
  }

  lemma CodesMean(response: Response)
    ensures CodeIn(response, AUTH_CODES) <==> HasCode(response, 190)
    ensures CodeIn(response, THROTTLE_CODES) <==>
              HasCode(response, 4) || HasCode(response, 80007) || HasCode(response, 130429)
              || HasCode(response, 131048) || HasCode(response, 131056)
  {
  }

  /**
   What an attempt comes to: below 400 the JSON of the answer, empty for a 204 or no text; above, the error that the
   status and the code name, the token before a limit and a limit before the status itself.
   */
  lemma AnswerMeans(response: Response)
    ensures var outcome := Attempt(Answer(response));
            if response.status >= 400 then
              if NamesToken(response) then outcome == Raised(AuthError)
              else if NamesLimit(response) then outcome == Raised(RateLimitError)
              else if response.status >= 500 then outcome == Raised(ServerError)
              else outcome == Raised(InvalidRequestError(response.status))
            else if response.status == 204 || response.text == "" then outcome == Returned(Object(map[]))
            else if response.json.Some? then outcome == Returned(response.json.value)
            else outcome == Raised(BadJson)
  {
    CodesMean(response);
  }

  predicate RetryOn(error: Error) {
    error in {ServerError, TransportError, TimeoutException}
  }

  /** Tried again: no answer at all, or a server error that names neither the token nor a limit. */
  predicate Transient(reply: Reply) {
    match reply
    case Answer(response) =>
      response.status >= 500 && !NamesToken(response) && !NamesLimit(response)
    case _ => true
  }

  lemma RetriedIffTransient(reply: Reply)
    ensures Retryable(Attempt(reply), RetryOn) <==> Transient(reply)
  {
    if reply.Answer? { AnswerMeans(reply.response); }
  }

  /** A request: at most three calls, each after a transient failure, and less than two seconds of sleep. */
  method Request(replies: nat -> Reply, jitter: nat -> real)
    returns (outcome: Outcome<Json, Error>, calls: nat, sleeps: seq<real>)
    requires forall i: nat :: 0.0 <= jitter(i) <= 1.0
    ensures 1 <= calls <= 3 && outcome == Attempt(replies(calls - 1))
    ensures forall i: nat :: i < calls - 1 ==> Transient(replies(i))
    ensures calls < 3 ==> !Transient(replies(calls - 1))
    ensures replies(0).Answer? && 400 <= replies(0).response.status < 500 ==>
              calls == 1 && sleeps == [] && outcome.Raised? && !RetryOn(outcome.error)
    ensures |sleeps| == calls - 1 && 0.0 <= Sum(sleeps) <= 1.875
  {
    forall i: nat ensures Retryable(Attempt(replies(i)), RetryOn) <==> Transient(replies(i)) {
      RetriedIffTransient(replies(i));
    }
    var fn := (i: nat) => Attempt(replies(i));
    var r;
    r, calls, sleeps := WithRetry(fn, 3, 0.5, 8.0, RetryOn, jitter);
    TotalSleep(sleeps, 0.5, 8.0, jitter);
    assert Power(0) == 1.0 && Power(1) == 2.0 && Power(2) == 4.0;
    forall i: nat | i < calls - 1 ensures Transient(replies(i)) {
      assert Retryable(fn(i), RetryOn);
    }
    outcome := r.outcome;
  }
}
