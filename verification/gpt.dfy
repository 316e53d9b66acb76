/**
  The generation client `generate_text`: submit a prompt, read the job's
  `request_id`, poll the status endpoint at most `max_retries` times, and on
  `success` extract the answer through an ordered chain of fallbacks.

  The network is an input. `submit` is what the POST produced and `poll(k)`
  is what the k-th status GET produced (counting from 0); each is either a
  parsed JSON body or the exception `requests` raised. The value `generate_text`
  returns is a `Reply`, whose variants stand one-to-one for the strings the
  function returns (see `ReplyText`).
 */
module Gpt {
  import opened JsonValues

  /** The result of one HTTP exchange followed by `.json()`: a parsed body, or
      the exception raised by the transport, by `raise_for_status()` on a 4xx/5xx
      status, or by a body that is not JSON. The exception's text is opaque. */
  datatype HttpResult = Delivered(body: Json) | Raised(error: string)

  /** The exceptions `generate_text` can meet; it turns each into text. */
  datatype Fault =
    | Http(error: string)            // an exception out of `requests`
    | NoGetAttribute(value: Json)    // `value.get(...)` where value is not a dict
    | NotKeyIndexable(value: Json)   // `value["content"]` where value is a list or a str
    | NotContainer(value: Json)      // `"content" in value` where value is a number or a bool

  /** What `generate_text` returns. */
  datatype Reply =
    | MissingRequestId                  // "Ошибка: Не получен ID запроса"
    | Answer(value: Json)               // a value taken out of a success body
    | RawStatus(body: map<string, Json>) // `str(status_data)`
    | ExtractionFailed(fault: Fault)    // "Ошибка при обработке ответа: ..."
    | NotCompleted                      // "Ошибка: Запрос не выполнен"
    | TimedOut                          // "Превышено время ожидания ответа"
    | Crashed(fault: Fault)             // "Произошла ошибка: ..."

  /** A finished call: its reply and how many status requests it made. */
  datatype Session = Session(reply: Reply, polls: nat)

  /** The default of the `max_retries` parameter, the one the bot uses. */
  const DefaultMaxRetries: int := 15

  /** The number of iterations of `range(max_retries)`: none for a negative
      argument. */
  function Budget(maxRetries: int): nat {
    if maxRetries < 0 then 0 else maxRetries
  }

  /** The text the user sees for a reply. `show` stands for Python's `str()` of
      a JSON value (also what an f-string does to a non-string answer) and
      `explain` for `str(e)` of an exception. */
  function ReplyText(reply: Reply, show: Json -> string, explain: Fault -> string): (text: string)
    ensures !reply.Answer? && !reply.RawStatus? ==> |text| > 0
    ensures reply.Answer? && reply.value.JStr? ==> text == reply.value.s
  {
    match reply
    case MissingRequestId => "Ошибка: Не получен ID запроса"
    case Answer(v) => if v.JStr? then v.s else show(v)
    case RawStatus(body) => show(JObj(body))
    case ExtractionFailed(f) => "Ошибка при обработке ответа: " + explain(f)
    case NotCompleted => "Ошибка: Запрос не выполнен"
    case TimedOut => "Превышено время ожидания ответа"
    case Crashed(f) => "Произошла ошибка: " + explain(f)
  }

  // ---------------------------------------------------------------------------
  // Extraction of the answer from a success body
  // ---------------------------------------------------------------------------

  /** What one extraction step finds: nothing, a value, or an exception. */
  datatype Probe = Miss | Hit(value: Json) | Raise(fault: Fault)

  /** `full_response[0].get("message", {})`, then
      `if message and "content" in message: return message["content"]`.
      The `in` test is Python's: a key test on a dict, an element test on a
      list, a substring test on a str, and a TypeError on a number or a bool;
      indexing a list or a str with `"content"` is a TypeError too. */
  function MessageContent(first: Json): (r: Probe)
    ensures r.Hit? <==> (first.JObj? && "message" in first.fields &&
                         first.fields["message"].JObj? && "content" in first.fields["message"].fields)
    ensures r.Hit? ==> r.value == first.fields["message"].fields["content"]
    ensures first.JObj? ==> var message := Get(first.fields, "message", JNull);
      r.Raise? <==> (Truthy(message) && (message.JNum? || message.JBool?)) ||
                    (message.JArr? && JStr("content") in message.items) ||
                    (message.JStr? && HasSubstring(message.s, "content"))
    ensures !first.JObj? ==> r == Raise(NoGetAttribute(first))
  {
    if !first.JObj? then Raise(NoGetAttribute(first))
    else
      var message := Get(first.fields, "message", JObj(map[]));
      if !Truthy(message) then Miss
      else
        match message
        case JObj(m) => if "content" in m then Hit(m["content"]) else Miss
        case JArr(xs) => if JStr("content") in xs then Raise(NotKeyIndexable(message)) else Miss
        case JStr(s) => if HasSubstring(s, "content") then Raise(NotKeyIndexable(message)) else Miss
        case _ => Raise(NotContainer(message))
  }

  /** The `try` block run when the status is `success`: `result`, then
      `full_response`, then `output`, then the whole body as a string; an
      exception on the way becomes `ExtractionFailed`. */
  function Extract(fields: map<string, Json>): (r: Reply)
    ensures r.Answer? || r.ExtractionFailed? || r == RawStatus(fields)
    ensures r == RawStatus(fields) <==>
      FromResult(fields) == Miss && FromFullResponse(fields) == Miss && FromOutput(fields) == Miss
  {
    var result := Get(fields, "result", JArr([]));
    if NonEmptyList(result) then Answer(result.items[0])
    else
      var fullResponse := Get(fields, "full_response", JArr([]));
      var probe := if NonEmptyList(fullResponse) then MessageContent(fullResponse.items[0]) else Miss;
      match probe
      case Hit(v) => Answer(v)
      case Raise(f) => ExtractionFailed(f)
      case Miss =>
        var output := Get(fields, "output", JNull);
        if Truthy(output) then Answer(output) else RawStatus(fields)
  }

  /** The extraction policy restated as an ordered list of independent
      strategies, each a total function from the body to a `Probe`. */
  type Strategy = map<string, Json> -> Probe

  function FromResult(fields: map<string, Json>): Probe {
    var result := Get(fields, "result", JArr([]));
    if NonEmptyList(result) then Hit(result.items[0]) else Miss
  }

  function FromFullResponse(fields: map<string, Json>): Probe {
    var fullResponse := Get(fields, "full_response", JArr([]));
    if NonEmptyList(fullResponse) then MessageContent(fullResponse.items[0]) else Miss
  }

  function FromOutput(fields: map<string, Json>): Probe {
    var output := Get(fields, "output", JNull);
    if Truthy(output) then Hit(output) else Miss
  }

  /** Try the strategies in order; the first that does not miss decides, and
      when all miss the body itself is the answer. */
  function FirstHit(strategies: seq<Strategy>, fields: map<string, Json>): (r: Reply)
    ensures r.Answer? || r.ExtractionFailed? || r == RawStatus(fields)
    ensures r == RawStatus(fields) <== forall i :: 0 <= i < |strategies| ==> strategies[i](fields) == Miss
  {
    if strategies == [] then RawStatus(fields)
    else
      match strategies[0](fields)
      case Hit(v) => Answer(v)
      case Raise(f) => ExtractionFailed(f)
      case Miss => FirstHit(strategies[1..], fields)
  }

  /** The extraction as the source writes it is the ordered strategy chain
      result, full_response, output. */
  lemma ExtractIsOrderedChain(fields: map<string, Json>)
    ensures Extract(fields) == FirstHit([FromResult, FromFullResponse, FromOutput], fields)
  {
    var chain: seq<Strategy> := [FromResult, FromFullResponse, FromOutput];
    var afterResult, afterFullResponse := chain[1..], chain[2..];
    assert afterResult[1..] == afterFullResponse && afterFullResponse[1..] == [];
    assert FirstHit(afterFullResponse, fields) ==
      if FromOutput(fields).Hit? then Answer(FromOutput(fields).value) else RawStatus(fields);
    assert FirstHit(afterResult, fields) ==
      match FromFullResponse(fields)
      case Hit(v) => Answer(v)
      case Raise(f) => ExtractionFailed(f)
      case Miss => FirstHit(afterFullResponse, fields);
  }

  /** A non-empty `result` list wins, whatever else the body holds. */
  lemma ResultFieldWins(fields: map<string, Json>)
    requires "result" in fields && NonEmptyList(fields["result"])
    ensures Extract(fields) == Answer(fields["result"].items[0])
  {
  }

  /** Without a usable `result`, the `content` of the first `full_response`
      entry's `message` object is the answer, even when `output` is present. */
  lemma FullResponseComesSecond(fields: map<string, Json>, message: map<string, Json>)
    requires !("result" in fields && NonEmptyList(fields["result"]))
    requires "full_response" in fields && NonEmptyList(fields["full_response"])
    requires fields["full_response"].items[0].JObj?
    requires Get(fields["full_response"].items[0].fields, "message", JNull) == JObj(message)
    requires "content" in message
    ensures Extract(fields) == Answer(message["content"])
  {
  }

  /** When neither `result` nor `full_response` yields anything (and nothing
      raised), a truthy `output` is returned verbatim, and otherwise the whole
      body is. */
  lemma OutputThenRawBody(fields: map<string, Json>)
    requires FromResult(fields) == Miss && FromFullResponse(fields) == Miss
    ensures Truthy(Get(fields, "output", JNull)) ==> Extract(fields) == Answer(fields["output"])
    ensures !Truthy(Get(fields, "output", JNull)) ==> Extract(fields) == RawStatus(fields)
  {
  }

  /** An exception during extraction becomes `ExtractionFailed`, and it can only
      come from probing the first `full_response` entry. */
  lemma ExtractionFailsOnlyInFullResponse(fields: map<string, Json>)
    ensures Extract(fields).ExtractionFailed? <==>
      FromResult(fields) == Miss && FromFullResponse(fields).Raise?
    ensures Extract(fields).ExtractionFailed? ==>
      Extract(fields).fault == FromFullResponse(fields).fault
  {
  }

  /** What the `message` of the first `full_response` entry leads to, by its
      type: a falsy one is skipped, a str containing "content" and a list
      holding "content" pass the `in` test and then cannot be indexed by a key,
      a non-zero number or `true` cannot be searched with `in`. */
  lemma MessageContentByType(first: map<string, Json>, s: string, xs: seq<Json>, n: real)
    ensures var message := JStr(s);
      HasSubstring(s, "content") ==> MessageContent(JObj(first["message" := message])) == Raise(NotKeyIndexable(message))
    ensures var message := JStr(s);
      !HasSubstring(s, "content") ==> MessageContent(JObj(first["message" := message])) == Miss
    ensures var message := JArr(xs);
      JStr("content") in xs ==> MessageContent(JObj(first["message" := message])) == Raise(NotKeyIndexable(message))
    ensures var message := JArr(xs);
      JStr("content") !in xs ==> MessageContent(JObj(first["message" := message])) == Miss
    ensures var message := JNum(n);
      n != 0.0 ==> MessageContent(JObj(first["message" := message])) == Raise(NotContainer(message))
    ensures var message := JBool(true);
      MessageContent(JObj(first["message" := message])) == Raise(NotContainer(message))
    ensures forall message :: !Truthy(message) ==> MessageContent(JObj(first["message" := message])) == Miss
  {
  }

  /** A `message` given as a string that mentions "content", such as
      "no content", makes the whole extraction fail. */
  lemma StringMessageMentioningContentFails(s: string, i: nat)
    requires i + 7 <= |s| && s[i..i + 7] == "content"
    ensures Extract(map["full_response" := JArr([JObj(map["message" := JStr(s)])])])
         == ExtractionFailed(NotKeyIndexable(JStr(s)))
  {
    SubstringAt(s, "content", i);
  }

  // ---------------------------------------------------------------------------
  // One polling attempt and the whole call
  // ---------------------------------------------------------------------------

  /** The decision taken after one status response has been read. */
  datatype Step = Continue | Stop(reply: Reply)

  /** `status_data.get("status")`; only defined on a dict. */
  function Status(body: Json): Json
    requires body.JObj?
  {
    Get(body.fields, "status", JNull)
  }

  /** A status body after which the loop goes on to the next attempt:
      a dict whose status is neither "success" nor "failed" (this covers
      "processing", "starting", a missing status and any other value). */
  predicate Pending(body: Json) {
    body.JObj? && Status(body) != JStr("success") && Status(body) != JStr("failed")
  }

  /** A poll after which the loop goes on. */
  predicate PendingPoll(r: HttpResult) {
    r.Delivered? && Pending(r.body)
  }

  /** The body of one iteration after the GET succeeded. */
  function Examine(body: Json): (step: Step)
    ensures step == Continue <==> Pending(body)
    ensures !body.JObj? ==> step == Stop(Crashed(NoGetAttribute(body)))
    ensures body.JObj? && Status(body) == JStr("failed") ==> step == Stop(NotCompleted)
    ensures body.JObj? && Status(body) == JStr("success") ==> step == Stop(Extract(body.fields))
  {
    if !body.JObj? then Stop(Crashed(NoGetAttribute(body)))
    else
      var status := Get(body.fields, "status", JNull);
      if status == JStr("success") then Stop(Extract(body.fields))
      else if status == JStr("failed") then Stop(NotCompleted)
      else Continue
  }

  /** The reply of a poll that ends the loop. */
  function Terminal(r: HttpResult): Reply
    requires !PendingPoll(r)
  {
    match r
    case Raised(e) => Crashed(Http(e))
    case Delivered(body) => Examine(body).reply
  }

  /** The loop `for attempt in range(max_retries)` from iteration `k` on, with
      `budget` iterations in all; `polls` counts every GET issued. */
  function PollFrom(poll: nat -> HttpResult, k: nat, budget: nat): (s: Session)
    requires k <= budget
    ensures k <= s.polls <= budget
    ensures s.reply != MissingRequestId
    ensures s.reply == TimedOut <==> forall j :: k <= j < budget ==> PendingPoll(poll(j))
    ensures s.reply == TimedOut ==> s.polls == budget
    decreases budget - k
  {
    if k == budget then Session(TimedOut, k)
    else
      match poll(k)
      case Raised(e) => Session(Crashed(Http(e)), k + 1)
      case Delivered(body) =>
        match Examine(body)
        case Continue => PollFrom(poll, k + 1, budget)
        case Stop(reply) => Session(reply, k + 1)
  }

  /** The submit response carries a dict with a truthy `request_id`. */
  predicate RequestAccepted(submit: HttpResult) {
    submit.Delivered? && submit.body.JObj? && Truthy(Get(submit.body.fields, "request_id", JNull))
  }

  /** `generate_text`, as a function of what the network answered. */
  function Generate(submit: HttpResult, poll: nat -> HttpResult, maxRetries: int): (s: Session)
    ensures submit.Raised? ==> s == Session(Crashed(Http(submit.error)), 0)
    ensures submit.Delivered? && !submit.body.JObj? ==> s == Session(Crashed(NoGetAttribute(submit.body)), 0)
    ensures s.polls <= Budget(maxRetries)
    ensures !RequestAccepted(submit) ==> s.polls == 0
    ensures s.reply == MissingRequestId <==>
      submit.Delivered? && submit.body.JObj? && !RequestAccepted(submit)
  {
    match submit
    case Raised(e) => Session(Crashed(Http(e)), 0)
    case Delivered(result) =>
      if !result.JObj? then Session(Crashed(NoGetAttribute(result)), 0)
      else if !Truthy(Get(result.fields, "request_id", JNull)) then Session(MissingRequestId, 0)
      else PollFrom(poll, 0, Budget(maxRetries))
  }

  /** `generate_text` as the source runs it: early returns out of a bounded loop. */
  method GenerateText(submit: HttpResult, poll: nat -> HttpResult, maxRetries: int)
    returns (reply: Reply, polls: nat)
    ensures Session(reply, polls) == Generate(submit, poll, maxRetries)
  {
    if submit.Raised? {
      return Crashed(Http(submit.error)), 0;
    }
    var result := submit.body;
    if !result.JObj? {
      return Crashed(NoGetAttribute(result)), 0;
    }
    var requestId := Get(result.fields, "request_id", JNull);
    if !Truthy(requestId) {
      return MissingRequestId, 0;
    }
    var budget := Budget(maxRetries);
    var attempt: nat := 0;
    while attempt < budget
      invariant attempt <= budget
      invariant Generate(submit, poll, maxRetries) == PollFrom(poll, attempt, budget)
    {
      var statusResponse := poll(attempt);
      if statusResponse.Raised? {
        return Crashed(Http(statusResponse.error)), attempt + 1;
      }
      var statusData := statusResponse.body;
      if !statusData.JObj? {
        return Crashed(NoGetAttribute(statusData)), attempt + 1;
      }
      var status := Get(statusData.fields, "status", JNull);
      if status == JStr("success") {
        return Extract(statusData.fields), attempt + 1;
      } else if status == JStr("failed") {
        return NotCompleted, attempt + 1;
      }
      attempt := attempt + 1;
    }
    return TimedOut, attempt;
  }

  // ---------------------------------------------------------------------------
  // Properties of the whole call
  // ---------------------------------------------------------------------------

  /** Without a truthy `request_id` no status request is made. */
  lemma NoRequestIdNoPolls(submit: HttpResult, poll: nat -> HttpResult, maxRetries: int)
    requires submit.Delivered? && submit.body.JObj?
    requires !Truthy(Get(submit.body.fields, "request_id", JNull))
    ensures Generate(submit, poll, maxRetries) == Session(MissingRequestId, 0)
  {
  }

  /** The call times out exactly when every one of the `max_retries` polls
      reports a pending status, and then it has made exactly that many polls. */
  lemma TimeoutIffAllPending(submit: HttpResult, poll: nat -> HttpResult, maxRetries: int)
    requires RequestAccepted(submit)
    ensures Generate(submit, poll, maxRetries).reply == TimedOut <==>
      forall k :: 0 <= k < Budget(maxRetries) ==> PendingPoll(poll(k))
    ensures Generate(submit, poll, maxRetries).reply == TimedOut ==>
      Generate(submit, poll, maxRetries).polls == Budget(maxRetries)
  {
  }

  /** With the default budget, a job that stays pending times out after
      exactly 15 status requests. */
  lemma DefaultBudgetTimesOutAfterFifteen(submit: HttpResult, poll: nat -> HttpResult)
    requires RequestAccepted(submit)
    requires forall k :: 0 <= k < 15 ==> PendingPoll(poll(k))
    ensures Generate(submit, poll, DefaultMaxRetries) == Session(TimedOut, 15)
  {
    TimeoutIffAllPending(submit, poll, DefaultMaxRetries);
  }

  /** Helper: after pending polls `i .. k-1`, the poll `k` decides the loop. */
  lemma {:induction false} FirstTerminalFrom(poll: nat -> HttpResult, i: nat, k: nat, budget: nat)
    requires i <= k < budget
    requires forall j :: i <= j < k ==> PendingPoll(poll(j))
    requires !PendingPoll(poll(k))
    ensures PollFrom(poll, i, budget) == Session(Terminal(poll(k)), k + 1)
    decreases k - i
  {
    if i < k {
      assert PendingPoll(poll(i));
      FirstTerminalFrom(poll, i + 1, k, budget);
    }
  }

  /** The first poll that is not pending ends the call after exactly `k + 1`
      requests: a status of "failed" gives `NotCompleted`, a status of
      "success" gives the extracted answer, an HTTP error gives `Crashed`. */
  lemma FirstTerminalPollDecides(submit: HttpResult, poll: nat -> HttpResult, maxRetries: int, k: nat)
    requires RequestAccepted(submit)
    requires k < Budget(maxRetries)
    requires forall j :: 0 <= j < k ==> PendingPoll(poll(j))
    requires !PendingPoll(poll(k))
    ensures Generate(submit, poll, maxRetries).polls == k + 1
    ensures poll(k).Raised? ==>
      Generate(submit, poll, maxRetries).reply == Crashed(Http(poll(k).error))
    ensures poll(k).Delivered? && !poll(k).body.JObj? ==>
      Generate(submit, poll, maxRetries).reply == Crashed(NoGetAttribute(poll(k).body))
    ensures poll(k).Delivered? && poll(k).body.JObj? && Status(poll(k).body) == JStr("failed") ==>
      Generate(submit, poll, maxRetries).reply == NotCompleted
    ensures poll(k).Delivered? && poll(k).body.JObj? && Status(poll(k).body) == JStr("success") ==>
      Generate(submit, poll, maxRetries).reply == Extract(poll(k).body.fields)
  {
    FirstTerminalFrom(poll, 0, k, Budget(maxRetries));
  }

  /** A status body holding only a status. */
  function StatusOnly(status: string): Json {
    JObj(map["status" := JStr(status)])
  }

  /** A "processing" poll, a "starting" poll and then a success with `result: ["A"]`, under a
      budget of at least three, answer "A" after exactly three requests. */
  lemma PendingTwiceThenSuccess(submit: HttpResult, poll: nat -> HttpResult, maxRetries: int)
    requires RequestAccepted(submit) && maxRetries >= 3
    requires poll(0) == Delivered(StatusOnly("processing"))
    requires poll(1) == Delivered(StatusOnly("starting"))
    requires poll(2) == Delivered(JObj(map["status" := JStr("success"), "result" := JArr([JStr("A")])]))
    ensures Generate(submit, poll, maxRetries) == Session(Answer(JStr("A")), 3)
  {
    assert PendingPoll(poll(0)) && PendingPoll(poll(1));
    FirstTerminalPollDecides(submit, poll, maxRetries, 2);
  }
}
