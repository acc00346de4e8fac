/** The research route's request handler (`POST`): configuration from the
    environment, query validation, the choice between the demo table and the
    Cortensor router, the router-reply normalisation and the final payload. */
module ResearchRoute {
  import opened Wrappers
  import opened Text
  import opened ResearchParser
  import opened DemoResponses

  /** The environment variables the route reads; `None` when unset. */
  datatype Env = Env(
    useMockVar: Option<string>,
    routerUrlVar: Option<string>,
    apiKeyVar: Option<string>,
    sessionIdVar: Option<string>)

  /** The module-level constants computed from the environment at start-up. */
  datatype Config = Config(routerUrl: string, apiKey: string, sessionId: string, useMock: bool)

  /** `process.env.X || fallback`: an unset or empty variable gives the fallback. */
  function OrDefault(v: Option<string>, fallback: string): (r: string)
    ensures r == fallback <==> v.None? || v.value == "" || v.value == fallback
    ensures v.Some? && v.value != "" ==> r == v.value
  {
    if v.Some? && v.value != "" then v.value else fallback
  }

  /** The router URL defaults to "", the API key to "default-dev-token", the
      session to "124"; demo mode is on when `USE_MOCK` is exactly "true" or
      no router URL is configured. */
  function ConfigOf(env: Env): (c: Config)
    ensures c.routerUrl == "" <==> env.routerUrlVar.None? || env.routerUrlVar.value == ""
    ensures c.useMock <==> env.useMockVar == Some("true") || c.routerUrl == ""
    ensures c.apiKey != "" && c.sessionId != ""
    ensures c.routerUrl == OrDefault(env.routerUrlVar, "")
    ensures c.apiKey == OrDefault(env.apiKeyVar, "default-dev-token")
    ensures c.sessionId == OrDefault(env.sessionIdVar, "124")
  {
    var routerUrl := OrDefault(env.routerUrlVar, "");
    Config(
      routerUrl,
      OrDefault(env.apiKeyVar, "default-dev-token"),
      OrDefault(env.sessionIdVar, "124"),
      env.useMockVar == Some("true") || routerUrl == "")
  }

  /** The router is used only when `USE_MOCK` is not "true" and a router URL is set,
      and then the configured URL is the one from the environment. */
  lemma RouterModeNeedsUrl(env: Env)
    ensures !ConfigOf(env).useMock <==>
      env.useMockVar != Some("true") && env.routerUrlVar.Some? && env.routerUrlVar.value != ""
    ensures !ConfigOf(env).useMock ==> ConfigOf(env).routerUrl == env.routerUrlVar.value
  {
  }

  /** The JSON values a request or router body field can hold; `Undefined` is a missing field. */
  datatype JsonValue = Undefined | Null | Bool(b: bool) | Number(n: int) | Str(s: string) | Compound

  /** JavaScript truthiness of a JSON value. */
  predicate Truthy(v: JsonValue) {
    match v
    case Undefined => false
    case Null => false
    case Bool(b) => b
    case Number(n) => n != 0
    case Str(s) => s != ""
    case Compound => true
  }

  /** The parsed request body: `Malformed` when `request.json()` or the
      destructuring of its result throws. */
  datatype RequestBody = Malformed | Body(query: JsonValue, url: Option<string>)

  /** `!query || typeof query !== "string"` fails: the query is a non-empty string. */
  predicate ValidQuery(q: JsonValue) {
    q.Str? && q.s != ""
  }

  /** `url` is truthy. */
  predicate HasUrl(url: Option<string>) {
    url.Some? && url.value != ""
  }

  const Preamble := "You are a research assistant. "
  const QuestionLabel := "Research question: "
  const Instructions := "\n\nProvide a concise summary followed by 5 key bullet points. Format your response clearly with a summary paragraph and bullet points starting with \"-\"."

  /** The clause the prompt gains when a URL is given. */
  function UrlClause(url: string): string {
    "Analyze this URL: " + url + "\n\n"
  }

  /** The research prompt: the URL clause sits between the preamble and the question only when `url` is truthy. */
  function Prompt(query: string, url: Option<string>): string {
    Preamble + (if HasUrl(url) then UrlClause(url.value) else "") + QuestionLabel + query + Instructions
  }

  /** Text assembled as `head + optional clause + question + rest` starts with
      `head + clause-start` exactly when the clause is present, provided the
      clause and the question start differently. */
  lemma {:induction false} OptionalClause(head: string, clause: string, question: string, rest: string, present: bool, start: string)
    requires start != [] && question != [] && start[0] != question[0]
    requires StartsWith(clause, start)
    ensures StartsWith(head + (if present then clause else "") + question + rest, head + start) <==> present
  {
    var p := head + (if present then clause else "") + question + rest;
    if present {
      assert p == head + clause + (question + rest);
      assert p[..|head + start|] == head + clause[..|start|];
    } else {
      assert p == head + question + rest;
      assert p[|head|] == question[0];
      assert (head + start)[|head|] == start[0];
    }
  }

  /** The URL clause opens with its fixed wording. */
  lemma UrlClauseStarts(u: string)
    ensures StartsWith(UrlClause(u), "Analyze this URL: ")
  {
    assert UrlClause(u) == "Analyze this URL: " + (u + "\n\n");
  }

  /** The prompt regrouped as head, optional clause, label and tail. */
  lemma PromptShape(query: string, url: Option<string>)
    ensures Prompt(query, url) == Preamble + (if HasUrl(url) then UrlClause(url.value) else "") + QuestionLabel + (query + Instructions)
  {
  }

  /** Whatever the URL, the prompt opens with the assistant preamble and
      closes with the question and the formatting instructions. */
  lemma PromptFrame(query: string, url: Option<string>)
    ensures StartsWith(Prompt(query, url), Preamble)
    ensures var p, tail := Prompt(query, url), QuestionLabel + query + Instructions;
      |tail| <= |p| && p[|p| - |tail|..] == tail
  {
    var clause := if HasUrl(url) then UrlClause(url.value) else "";
    PromptShape(query, url);
    Framed(Preamble, clause, QuestionLabel, query + Instructions);
    assert QuestionLabel + (query + Instructions) == QuestionLabel + query + Instructions;
  }

  /** `head + middle + question + rest` starts with `head` and ends with `question + rest`. */
  lemma Framed(head: string, middle: string, question: string, rest: string)
    ensures StartsWith(head + middle + question + rest, head)
    ensures var p, tail := head + middle + question + rest, question + rest;
      |tail| <= |p| && p[|p| - |tail|..] == tail
  {
    var p := head + middle + question + rest;
    assert p == (head + middle) + (question + rest);
    assert p[..|head|] == head;
  }

  /** The prompt starts with the URL clause exactly when a URL is given, and then it names that URL. */
  lemma PromptMentionsUrl(query: string, url: Option<string>)
    ensures StartsWith(Prompt(query, url), Preamble + "Analyze this URL: ") <==> HasUrl(url)
    ensures HasUrl(url) ==> StartsWith(Prompt(query, url), Preamble + UrlClause(url.value))
  {
    var clause := UrlClause(if HasUrl(url) then url.value else "");
    var start := "Analyze this URL: ";
    UrlClauseStarts(if HasUrl(url) then url.value else "");
    assert start[0] == 'A';
    assert QuestionLabel[0] == 'R';
    PromptShape(query, url);
    OptionalClause(Preamble, clause, QuestionLabel, query + Instructions, HasUrl(url), start);
    if HasUrl(url) {
      OptionalClause(Preamble, clause, QuestionLabel, query + Instructions, true, clause);
    }
  }

  /** Different questions give different prompts: the prompt carries the whole query. */
  lemma PromptKeepsQuery(q1: string, q2: string, url: Option<string>)
    requires Prompt(q1, url) == Prompt(q2, url)
    ensures q1 == q2
  {
    var head := Preamble + (if HasUrl(url) then UrlClause(url.value) else "") + QuestionLabel;
    assert Prompt(q1, url) == head + q1 + Instructions;
    assert Prompt(q2, url) == head + q2 + Instructions;
    assert q1 == Prompt(q1, url)[|head|..|head| + |q1|];
  }

  /** What the route sends to the router's completions endpoint. */
  datatype CompletionRequest = CompletionRequest(endpoint: string, authorization: string, sessionId: string, prompt: string)

  /** The router's JSON reply fields the route reads. */
  datatype RouterBody = RouterBody(output: JsonValue, text: JsonValue, content: JsonValue, taskId: JsonValue)

  /** The outcome of the completions call: the request failed or was aborted,
      or a reply came with an HTTP status and a body, `None` when the body is
      not JSON or is `null`. */
  datatype RouterReply = NetworkFailure | Replied(status: int, body: Option<RouterBody>)

  /** The router's completions path; the session id follows it. */
  const CompletionsPath := "/api/v1/completions/"

  /** The request the route builds for a query: posted to the router's
      completions path for the configured session, authorised with the
      configured API key as a bearer token, carrying the prompt. */
  function RequestFor(c: Config, query: string, url: Option<string>): (req: CompletionRequest)
    ensures req.prompt == Prompt(query, url) && req.sessionId == c.sessionId
    ensures req.endpoint == c.routerUrl + CompletionsPath + c.sessionId
    ensures req.authorization == "Bearer " + c.apiKey
  {
    CompletionRequest(c.routerUrl + CompletionsPath + c.sessionId, "Bearer " + c.apiKey, c.sessionId, Prompt(query, url))
  }

  /** The session id and the API key read back from the request: the
      endpoint ends in the session id after the router URL and path, and the
      authorization is the key after "Bearer ". */
  lemma RequestReadBack(c: Config, query: string, url: Option<string>)
    ensures var req := RequestFor(c, query, url);
      && StartsWith(req.endpoint, c.routerUrl + CompletionsPath)
      && req.endpoint[|c.routerUrl| + |CompletionsPath|..] == c.sessionId
      && StartsWith(req.authorization, "Bearer ")
      && req.authorization[7..] == c.apiKey
  {
    var req := RequestFor(c, query, url);
    assert req.endpoint == (c.routerUrl + CompletionsPath) + c.sessionId;
  }

  /** `result.output || result.text || result.content || ""`, then handed to the
      parser: the first truthy field must be a string, otherwise the parser's
      `split` throws (`None`). */
  function RawOutput(b: RouterBody): (r: Option<string>)
    ensures r == Some("") <==> !Truthy(b.output) && !Truthy(b.text) && !Truthy(b.content)
    ensures r.Some? && r.value != "" ==>
      (Truthy(b.output) && b.output == Str(r.value))
      || (!Truthy(b.output) && Truthy(b.text) && b.text == Str(r.value))
      || (!Truthy(b.output) && !Truthy(b.text) && b.content == Str(r.value))
    ensures r.None? <==>
      || (Truthy(b.output) && !b.output.Str?)
      || (!Truthy(b.output) && Truthy(b.text) && !b.text.Str?)
      || (!Truthy(b.output) && !Truthy(b.text) && Truthy(b.content) && !b.content.Str?)
  {
    var v := if Truthy(b.output) then b.output else if Truthy(b.text) then b.text else b.content;
    if !Truthy(v) then Some("")
    else if v.Str? then Some(v.s)
    else None
  }

  /** `result.task_id?.toString() || "0"`. */
  function TaskIdText(v: JsonValue): (r: string)
    ensures r != ""
    ensures v.Str? && v.s != "" ==> r == v.s
    ensures v.Number? ==> r == IntToString(v.n)
    ensures v.Undefined? || v.Null? || v == Str("") ==> r == "0"
  {
    match v
    case Undefined => "0"
    case Null => "0"
    case Bool(b) => if b then "true" else "false"
    case Number(n) => IntToString(n)
    case Str(s) => if s == "" then "0" else s
    case Compound => "[object Object]"
  }

  /** A rendered integer is never empty, so a numeric task id is never replaced by "0". */
  lemma NumericTaskIdKept(n: int)
    ensures TaskIdText(Number(n)) != "" && TaskIdText(Number(n)) == IntToString(n)
    ensures n >= 0 ==> DecimalValue(TaskIdText(Number(n))) == n
  {
    if n >= 0 { NatToStringRoundTrip(n); }
  }

  /** What `callCortensorAPI` returns. */
  datatype ApiResult = ApiResult(research: Research, sessionId: string, taskId: string)

  /** `callCortensorAPI`: the completions call and the parse of its reply, or the error it throws. */
  function CallRouter(c: Config, query: string, url: Option<string>, router: CompletionRequest -> RouterReply): (r: Result<ApiResult>)
    ensures r.Success? <==>
      var reply := router(RequestFor(c, query, url));
      && reply.Replied? && 200 <= reply.status <= 299 && reply.body.Some?
      && RawOutput(reply.body.value).Some?
    ensures r.Success? ==>
      var b := router(RequestFor(c, query, url)).body.value;
      r.value == ApiResult(ResearchOutput(RawOutput(b).value), c.sessionId, TaskIdText(b.taskId))
  {
    match router(RequestFor(c, query, url))
    case NetworkFailure => Failure("fetch failed")
    case Replied(status, body) =>
      if !(200 <= status <= 299) then Failure("Cortensor API error: " + IntToString(status))
      else if body.None? then Failure("invalid JSON reply")
      else match RawOutput(body.value)
        case None => Failure("rawOutput.split is not a function")
        case Some(raw) => Success(ApiResult(ResearchOutput(raw), c.sessionId, TaskIdText(body.value.taskId)))
  }

  /** The route's reply: an error with its HTTP status, or the research payload
      (status 200; the model name and timestamp are not modelled). */
  datatype Response =
    | ErrorResponse(status: int, error: string)
    | ResearchResponse(
        summary: string, bulletPoints: seq<string>, sources: seq<string>,
        sessionId: string, taskId: string, verified: bool, isDemo: bool)

  const DefaultSource := "https://docs.cortensor.network"

  /** `url ? [url] : ["https://docs.cortensor.network"]`. */
  function Sources(url: Option<string>): (r: seq<string>)
    ensures |r| == 1
    ensures r[0] == (if HasUrl(url) then url.value else DefaultSource)
  {
    if HasUrl(url) then [url.value] else [DefaultSource]
  }

  /** The demo payload, with the two random ids drawn in 1..100 and 0..9 passed in. */
  function DemoResult(query: string, url: Option<string>, demoSession: nat, demoTask: nat): Response {
    var d := DemoResponse(query);
    ResearchResponse(d.summary, d.bulletPoints, Sources(url), NatToString(demoSession), NatToString(demoTask), false, true)
  }

  /** `POST /api/research`. The router is an oracle from the request sent to
      the reply received; `demoSession` and `demoTask` are the values
      `Math.random` would produce. */
  function Post(env: Env, body: RequestBody, router: CompletionRequest -> RouterReply, demoSession: nat, demoTask: nat): (r: Response)
    requires 1 <= demoSession <= 100 && demoTask <= 9
    ensures r.ErrorResponse? && r.status == 500 <==> body.Malformed?
    ensures r.ErrorResponse? && r.status == 400 <==> body.Body? && !ValidQuery(body.query)
    ensures r.ErrorResponse? ==> r.status == 400 || r.status == 500
    ensures r.ResearchResponse? ==>
      && body.Body? && ValidQuery(body.query)
      && r.verified == !r.isDemo
      && r.sources == Sources(body.url)
      && (r.isDemo <==> ConfigOf(env).useMock || CallRouter(ConfigOf(env), body.query.s, body.url, router).Failure?)
    ensures r.ResearchResponse? && r.isDemo ==>
      && Research(r.summary, r.bulletPoints) == DemoResponse(body.query.s)
      && r.sessionId == NatToString(demoSession) && r.taskId == NatToString(demoTask)
    ensures r.ResearchResponse? && !r.isDemo ==>
      var api := CallRouter(ConfigOf(env), body.query.s, body.url, router).value;
      && Research(r.summary, r.bulletPoints) == api.research
      && r.sessionId == ConfigOf(env).sessionId && r.taskId == api.taskId && r.taskId != ""
  {
    match body
    case Malformed => ErrorResponse(500, "Failed to process research request")
    case Body(query, url) =>
      if !ValidQuery(query) then ErrorResponse(400, "Query is required")
      else
        var c := ConfigOf(env);
        if c.useMock then DemoResult(query.s, url, demoSession, demoTask)
        else match CallRouter(c, query.s, url, router)
          case Failure(_) => DemoResult(query.s, url, demoSession, demoTask)
          case Success(api) =>
            ResearchResponse(api.research.summary, api.research.bulletPoints, Sources(url), api.sessionId, api.taskId, true, false)
  }

  /** The demo ids read back as the values drawn. */
  lemma DemoIdsReadBack(query: string, url: Option<string>, demoSession: nat, demoTask: nat)
    ensures var r := DemoResult(query, url, demoSession, demoTask);
      DecimalValue(r.sessionId) == demoSession && DecimalValue(r.taskId) == demoTask
  {
    NatToStringRoundTrip(demoSession);
    NatToStringRoundTrip(demoTask);
  }

  /** In demo mode, and for a rejected query, the router is never consulted:
      any two routers give the same response. */
  lemma NoRouterCallInDemoMode(env: Env, body: RequestBody, r1: CompletionRequest -> RouterReply, r2: CompletionRequest -> RouterReply, s: nat, t: nat)
    requires 1 <= s <= 100 && t <= 9
    requires ConfigOf(env).useMock || body.Malformed? || !ValidQuery(body.query)
    ensures Post(env, body, r1, s, t) == Post(env, body, r2, s, t)
  {
  }

  /** The router is consulted once, with the request built from the query:
      routers that agree on that request give the same response. */
  lemma RouterSeenOnlyThroughRequest(env: Env, body: RequestBody, r1: CompletionRequest -> RouterReply, r2: CompletionRequest -> RouterReply, s: nat, t: nat)
    requires 1 <= s <= 100 && t <= 9
    requires body.Body? && ValidQuery(body.query)
    requires r1(RequestFor(ConfigOf(env), body.query.s, body.url)) == r2(RequestFor(ConfigOf(env), body.query.s, body.url))
    ensures Post(env, body, r1, s, t) == Post(env, body, r2, s, t)
  {
  }

  /** A router that fails in any way leaves the response equal to the demo-mode response. */
  lemma FailureFallsBackToDemo(env: Env, query: string, url: Option<string>, router: CompletionRequest -> RouterReply, s: nat, t: nat)
    requires 1 <= s <= 100 && t <= 9 && query != ""
    requires CallRouter(ConfigOf(env), query, url, router).Failure?
    ensures Post(env, Body(Str(query), url), router, s, t) == DemoResult(query, url, s, t)
  {
  }
}
