/**
 * The request handlers of the Express service, with their I/O made explicit:
 * the DNS answer, the clock, whether MongoDB answers and whether it is
 * connected are parameters; the `Query` collection is a `QueryStore` and the
 * Prometheus metrics are a `Registry`. `src/app.js` and `app.js` run the same
 * handler logic; they differ only in how `/metrics` sets the health gauge,
 * which `Deployment` selects.
 */
module Service {
  import opened Ipv4
  import opened JsText
  import opened History
  import opened Metrics

  datatype Option<T> = None | Some(value: T)

  /** A request parameter as Express hands it over: absent, a string, or any other JSON value. */
  datatype Param = Missing | Str(value: string) | NonString

  /**
   * The outcome of `dns.resolve(domain, 'A', callback)`: the call itself throws
   * before any callback runs, the callback gets an error, or it gets the answer list.
   */
  datatype Resolution = ResolveThrows | ResolveErr | ResolveOk(answers: seq<string>)

  /** Which entry point runs: `src/app.js` (Containerised) or the top-level `app.js` (Standalone). */
  datatype Deployment = Containerised | Standalone

  /** What a handler sends back. */
  datatype Response =
    | BadRequest(message: string)
    | NotFound(message: string)
    | InternalError(message: string)
    | LookupResult(record: Record)
    | Validated(status: bool)
    | HistoryList(records: seq<Record>)
    | Cleared(message: string)
    | Health(overall: string, database: string)
    | MetricsText(requests: map<Label, nat>, health: int)
  {
    /** The HTTP status the handler sets: 200 for every answer that is not an error. */
    function StatusCode(): (code: nat)
      ensures code == 200 || code == 400 || code == 404 || code == 500
      ensures code >= 400 <==> this.BadRequest? || this.NotFound? || this.InternalError?
    {
      match this
      case BadRequest(_) => 400
      case NotFound(_) => 404
      case InternalError(_) => 500
      case _ => 200
    }
  }

  const BadDomainMessage := "Bad Request - Invalid or missing domain parameter"
  const DomainNotFoundMessage := "Error resolving domain, domain not found"
  const NoAddressesMessage := "No IPv4 addresses found for the domain"
  const LogFailedMessage := "Error logging query to database"
  const BadIpMessage := "Bad Request - Invalid or missing IP address parameter"
  const UnexpectedParamsMessage := "Bad Request - Unexpected query parameters"
  const InternalErrorMessage := "Internal server error"
  const ClearedMessage := "History cleared successfully."

  /** The counter series each handler increments on entry; all say status '200'. */
  const LookupLabel := Label("GET", "200", "/v1/tools/lookup")
  const ValidateLabel := Label("POST", "200", "/v1/tools/validate")
  const HistoryLabel := Label("GET", "200", "/v1/history")
  /** The clear route is a POST, but its series is labelled 'GET'. */
  const ClearLabel := Label("GET", "200", "/v1/history/clear")
  const HealthLabel := Label("GET", "200", "/health")

  // ---------------------------------------------------------------- guards

  /**
   * `!domain || typeof domain !== 'string' || domain.trim() === ''` rejects;
   * otherwise the domain goes to the resolver exactly as given (untrimmed).
   */
  function DomainGuard(domain: Param): (d: Option<string>)
    ensures d.Some? <==> domain.Str? && !IsBlank(domain.value)
    ensures d.Some? ==> d.value == domain.value && d.value != []
  {
    match domain
    case Str(s) =>
      TrimEmptyIffBlank(s);
      if s == [] || Trim(s) == [] then None else Some(s)
    case _ => None
  }

  /**
   * A domain that passed the guard always meets the schema's `required`
   * check, so the document the lookup handler builds fails validation
   * exactly when the client address is empty.
   */
  lemma GuardedDocSchemaValid(domain: Param, answers: seq<string>, clientIp: string, now: nat)
    requires DomainGuard(domain).Some?
    ensures SchemaValid(Record(answers, clientIp, domain.value, now)) <==> clientIp != []
  {
  }

  /**
   * The validate endpoint's answer: a missing, empty or non-string `ip` is a
   * bad request; any other string gets the shape test's verdict, and a
   * negative verdict is still a successful answer.
   */
  function ValidateBody(ip: Param): (r: Response)
    ensures r.BadRequest? <==> !(ip.Str? && ip.value != [])
    ensures r.StatusCode() == (if r.BadRequest? then 400 else 200)
    ensures r.BadRequest? ==> r.message == BadIpMessage
    ensures !r.BadRequest? ==> r.Validated?
    ensures r.Validated? ==>
      (r.status <==> |Split(ip.value)| == 4 && forall i :: 0 <= i < 4 ==> IsGroup(Split(ip.value)[i]))
  {
    match ip
    case Str(s) =>
      if s == [] then BadRequest(BadIpMessage) else Validated(IsIpv4Shape(s))
    case _ => BadRequest(BadIpMessage)
  }

  // ---------------------------------------------------------------- address filter

  /**
   * `addresses.filter(addr => addr.includes('.'))`: keeps the answers that
   * contain a '.', each as often as it occurs, and drops every other one.
   */
  function Ipv4Answers(answers: seq<string>): (r: seq<string>)
    ensures |r| <= |answers|
    ensures forall i :: 0 <= i < |r| ==> '.' in r[i]
    decreases |answers|
  {
    if answers == [] then []
    else (if '.' in answers[0] then [answers[0]] else []) + Ipv4Answers(answers[1..])
  }

  /** Each dotted answer is kept as often as it occurs; nothing else is. */
  lemma {:induction false} FilterCounts(answers: seq<string>)
    ensures forall x :: multiset(Ipv4Answers(answers))[x] == if '.' in x then multiset(answers)[x] else 0
    decreases |answers|
  {
    if answers != [] {
      FilterCounts(answers[1..]);
      assert answers == [answers[0]] + answers[1..];
    }
  }

  /** The filter keeps the original order: it distributes over concatenation. */
  lemma {:induction false} FilterAppend(a: seq<string>, b: seq<string>)
    ensures Ipv4Answers(a + b) == Ipv4Answers(a) + Ipv4Answers(b)
    decreases |a|
  {
    if a != [] {
      FilterAppend(a[1..], b);
      var keep := if '.' in a[0] then [a[0]] else [];
      assert (a + b)[0] == a[0] && (a + b)[1..] == a[1..] + b;
      calc {
        Ipv4Answers(a + b);
        keep + Ipv4Answers(a[1..] + b);
        keep + (Ipv4Answers(a[1..]) + Ipv4Answers(b));
        (keep + Ipv4Answers(a[1..])) + Ipv4Answers(b);
        Ipv4Answers(a) + Ipv4Answers(b);
      }
    } else {
      assert a + b == b;
    }
  }

  /** Answers to an 'A' query are dotted, so for them the filter changes nothing. */
  lemma {:induction false} FilterKeepsDotted(answers: seq<string>)
    requires forall i :: 0 <= i < |answers| ==> '.' in answers[i]
    ensures Ipv4Answers(answers) == answers
    decreases |answers|
  {
    if answers != [] {
      FilterKeepsDotted(answers[1..]);
    }
  }

  // ---------------------------------------------------------------- history invariant

  /** A document the lookup handler can have stored: non-blank domain, dotted addresses, schema-valid. */
  ghost predicate Stored(doc: Record)
  {
    && SchemaValid(doc)
    && !IsBlank(doc.domain)
    && forall i :: 0 <= i < |doc.addresses| ==> '.' in doc.addresses[i]
  }

  ghost predicate HistoryInvariant(records: seq<Record>)
  {
    forall i :: 0 <= i < |records| ==> Stored(records[i])
  }

  // ---------------------------------------------------------------- handlers

  /** GET /v1/tools/lookup?domain=... */
  method Lookup(store: QueryStore, metrics: Registry, domain: Param, clientIp: string,
                resolution: Resolution, now: nat, reachable: bool) returns (resp: Response)
    requires store.Valid()
    modifies store, metrics
    ensures store.Valid()
    ensures metrics.requests == Bump(old(metrics.requests), LookupLabel)
    ensures metrics.health == old(metrics.health)
    ensures DomainGuard(domain).None? ==> resp == BadRequest(BadDomainMessage)
    ensures DomainGuard(domain).Some? && resolution.ResolveThrows? ==>
      resp == InternalError(InternalErrorMessage)
    ensures DomainGuard(domain).Some? && resolution.ResolveErr? ==>
      resp == NotFound(DomainNotFoundMessage)
    ensures DomainGuard(domain).Some? && resolution == ResolveOk([]) ==>
      resp == NotFound(NoAddressesMessage)
    ensures DomainGuard(domain).Some? && resolution.ResolveOk? && resolution.answers != [] ==>
      var doc := Record(Ipv4Answers(resolution.answers), clientIp, domain.value, now);
      resp == if reachable && SchemaValid(doc) then LookupResult(doc) else InternalError(LogFailedMessage)
    ensures store.records ==
      if resp.LookupResult? then old(store.records) + [resp.record] else old(store.records)
    ensures resp.StatusCode() == 200 <==> |store.records| == |old(store.records)| + 1
    ensures HistoryInvariant(old(store.records)) ==> HistoryInvariant(store.records)
  {
    metrics.Inc(LookupLabel);
    var guarded := DomainGuard(domain);
    if guarded.None? {
      return BadRequest(BadDomainMessage);
    }
    match resolution
    case ResolveThrows =>
      resp := InternalError(InternalErrorMessage);
    case ResolveErr =>
      resp := NotFound(DomainNotFoundMessage);
    case ResolveOk(answers) =>
      if |answers| == 0 {
        resp := NotFound(NoAddressesMessage);
      } else {
        var doc := Record(Ipv4Answers(answers), clientIp, guarded.value, now);
        var ok := store.Create(doc, reachable);
        resp := if ok then LookupResult(doc) else InternalError(LogFailedMessage);
      }
  }

  /** POST /v1/tools/validate with body `{ip}` */
  method Validate(metrics: Registry, ip: Param) returns (resp: Response)
    modifies metrics
    ensures metrics.requests == Bump(old(metrics.requests), ValidateLabel)
    ensures metrics.health == old(metrics.health)
    ensures resp == ValidateBody(ip)
  {
    metrics.Inc(ValidateLabel);
    resp := ValidateBody(ip);
  }

  /** GET /v1/history; `queryKeys` are the keys of `req.query`. The store is only read. */
  method GetHistory(store: QueryStore, metrics: Registry, queryKeys: set<string>, reachable: bool)
    returns (resp: Response)
    modifies metrics
    ensures metrics.requests == Bump(old(metrics.requests), HistoryLabel)
    ensures metrics.health == old(metrics.health)
    ensures queryKeys != {} ==> resp == BadRequest(UnexpectedParamsMessage)
    ensures queryKeys == {} && !reachable ==> resp == InternalError(InternalErrorMessage)
    ensures queryKeys == {} && reachable ==> resp.HistoryList? && LatestOf(resp.records, store.records)
    ensures resp.StatusCode() == 200 <==> queryKeys == {} && reachable
    ensures resp.HistoryList? && HistoryInvariant(store.records) ==> HistoryInvariant(resp.records)
  {
    metrics.Inc(HistoryLabel);
    if queryKeys != {} {
      return BadRequest(UnexpectedParamsMessage);
    }
    if !reachable {
      return InternalError(InternalErrorMessage);
    }
    var rs := store.Recent();
    resp := HistoryList(rs);
  }

  /** POST /v1/history/clear */
  method ClearHistory(store: QueryStore, metrics: Registry, reachable: bool) returns (resp: Response)
    requires store.Valid()
    modifies store, metrics
    ensures store.Valid()
    ensures metrics.requests == Bump(old(metrics.requests), ClearLabel)
    ensures metrics.health == old(metrics.health)
    ensures reachable ==> resp == Cleared(ClearedMessage) && store.records == []
    ensures !reachable ==> resp == InternalError(InternalErrorMessage) && store.records == old(store.records)
    ensures resp.StatusCode() == 200 <==> reachable
  {
    metrics.Inc(ClearLabel);
    var ok, deleted := store.DeleteMany(reachable);
    resp := if ok then Cleared(ClearedMessage) else InternalError(InternalErrorMessage);
  }

  /** GET /health: reports the connection state; never fails. */
  method HealthCheck(metrics: Registry, connected: bool) returns (resp: Response)
    modifies metrics
    ensures metrics.requests == Bump(old(metrics.requests), HealthLabel)
    ensures metrics.health == old(metrics.health)
    ensures resp == Health("OK", if connected then "connected" else "disconnected")
    ensures resp.StatusCode() == 200
  {
    metrics.Inc(HealthLabel);
    resp := Health("OK", if connected then "connected" else "disconnected");
  }

  /** The value `generateMetrics` puts on the health gauge. */
  function HealthValue(deployment: Deployment, connected: bool): (g: int)
    ensures g == 0 || g == 1
    ensures g == 1 <==> connected || deployment == Standalone
  {
    match deployment
    case Containerised => if connected then 1 else 0
    case Standalone => 1
  }

  /** In the top-level `app.js` the gauge reads healthy whatever the database does. */
  lemma StandaloneAlwaysHealthy(connected: bool)
    ensures HealthValue(Standalone, connected) == 1
  {
  }

  /** GET /metrics: sets the gauge, then exposes both metrics; the counter is not incremented. */
  method GenerateMetrics(metrics: Registry, deployment: Deployment, connected: bool) returns (resp: Response)
    modifies metrics
    ensures metrics.health == HealthValue(deployment, connected)
    ensures metrics.requests == old(metrics.requests)
    ensures resp == MetricsText(metrics.requests, metrics.health)
  {
    metrics.SetHealth(HealthValue(deployment, connected));
    resp := MetricsText(metrics.requests, metrics.health);
  }

  // ---------------------------------------------------------------- request sequences

  /**
   * On an empty collection, a successful lookup is the one entry the history then
   * lists, and the lookup's response is that entry.
   */
  method LookupThenHistory(domain: string, clientIp: string, answers: seq<string>, now: nat)
    returns (lookup: Response, history: Response)
    requires !IsBlank(domain) && clientIp != [] && answers != []
    ensures lookup == LookupResult(Record(Ipv4Answers(answers), clientIp, domain, now))
    ensures history == HistoryList([lookup.record])
  {
    var store := new QueryStore();
    var metrics := new Registry();
    var doc := Record(Ipv4Answers(answers), clientIp, domain, now);
    lookup := Lookup(store, metrics, Str(domain), clientIp, ResolveOk(answers), now, true);
    assert store.records == [doc];
    history := GetHistory(store, metrics, {}, true);
    LatestOfSingleton(history.records, doc);
  }

  /**
   * Whatever the history held, after a clear and one successful lookup it
   * lists exactly the new record.
   */
  method ClearThenLookup(store: QueryStore, metrics: Registry, domain: string, clientIp: string,
                         answers: seq<string>, now: nat) returns (history: Response)
    requires store.Valid()
    requires !IsBlank(domain) && clientIp != [] && answers != []
    modifies store, metrics
    ensures history == HistoryList([Record(Ipv4Answers(answers), clientIp, domain, now)])
  {
    var doc := Record(Ipv4Answers(answers), clientIp, domain, now);
    var cleared := ClearHistory(store, metrics, true);
    var lookup := Lookup(store, metrics, Str(domain), clientIp, ResolveOk(answers), now, true);
    assert store.records == [doc];
    history := GetHistory(store, metrics, {}, true);
    LatestOfSingleton(history.records, doc);
  }

  /** Clearing is idempotent: from any state, a second clear also succeeds and the history stays empty. */
  method ClearTwice(store: QueryStore, metrics: Registry)
    returns (first: Response, second: Response, history: Response)
    requires store.Valid()
    modifies store, metrics
    ensures first == Cleared(ClearedMessage) && second == Cleared(ClearedMessage)
    ensures history == HistoryList([]) && store.records == []
  {
    first := ClearHistory(store, metrics, true);
    second := ClearHistory(store, metrics, true);
    history := GetHistory(store, metrics, {}, true);
  }

  /**
   * The emptiness check looks at the raw answers, before the filter: an
   * answer list with no dotted entry is stored as a record with no addresses.
   */
  method UndottedAnswersStored() returns (lookup: Response, history: Response)
    ensures lookup == LookupResult(Record([], "1.2.3.4", "example.com", 0))
    ensures history == HistoryList([lookup.record])
  {
    assert "example.com"[0] == 'e';
    assert '.' !in "::1" && ["::1"][1..] == [];
    assert Ipv4Answers(["::1"]) == [];
    lookup, history := LookupThenHistory("example.com", "1.2.3.4", ["::1"], 0);
  }
}
