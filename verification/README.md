# DNS lookup service: the query, validate and history handlers in Dafny

The service is an Express application that resolves a domain name to its IPv4
addresses, stores each successful lookup in a MongoDB collection `Query`,
lists the 20 newest lookups, clears that history, checks whether a string has
the shape of a dotted-quad IPv4 address, and keeps two Prometheus metrics: a
request counter and a health gauge. `src/app.js` and the top-level `app.js`
hold the same handlers. They differ in one way that matters here: in `app.js`,
`/metrics` always sets the health gauge to 1.

This project models the decision logic of those handlers. The I/O becomes
inputs:

- the outcome of `dns.resolve(domain, 'A', …)` is a `Resolution`:
  `ResolveThrows` when the call itself throws before any callback runs,
  `ResolveErr` when the callback gets an error, and `ResolveOk(answers)`;
- the clock reading for `created_at` is a `nat` of milliseconds;
- whether a MongoDB operation succeeds is a `reachable` flag, passed to
  `QueryStore.Create`, to `QueryStore.DeleteMany` and to the history handler,
  which checks it before it calls `QueryStore.Recent`;
- whether Mongoose reports the connection as open is a `connected` flag;
- which entry point runs is a `Deployment` (`Containerised` for `src/app.js`,
  `Standalone` for `app.js`).

The `Query` collection is the class `History.QueryStore`, which holds a
`seq<Record>`. The metrics are the class `Metrics.Registry`, which holds the
counter as a `map<Label, nat>` and the gauge as an `int`. Each handler is a
method over those two objects.

Files:

- `ipv4.dfy` (module `Ipv4`): the regular expression `^(\d{1,3}\.){3}\d{1,3}$`
  as a left-to-right scanner, proved equal to "splits on '.' into four groups
  of 1–3 ASCII digits" and to "is four such groups joined by '.'". It does no
  0–255 range check and has no leading-zero rule, just like the regular expression.
- `jstext.dfy` (module `JsText`): `String.prototype.trim` with ECMAScript's
  whitespace set, and the fact that `trim() === ''` holds exactly for blank
  strings.
- `history.dfy` (module `History`): the `Query` document, the schema's
  `required` check, `create`, `find().sort({created_at:-1}).limit(20)` and
  `deleteMany({})`.
- `metrics.dfy` (module `Metrics`): counter series, increments and the gauge.
- `service.dfy` (module `Service`): the parameter guards, the address filter,
  the six handlers, and request sequences built from the handlers' contracts.

Four points of the code's behaviour are easy to misread. The model follows
the code in each:

- Emptiness check. The lookup handler checks for an empty answer list
  *before* it drops the answers that contain no '.' (`src/app.js:173` vs
  `:178`). So a record whose address list is empty can be stored.
  `Service.UndottedAnswersStored` shows this. Real 'A' answers always contain
  a '.', so for them the filter changes nothing (`Service.FilterKeepsDotted`).
- Tie order. The history query sorts only by `created_at`, so the order of
  records with equal timestamps is not fixed. `History.LatestOf` allows any
  such order and does not promise insertion order.
- Clear response. The clear handler answers with a message only. The number
  of deleted documents is logged, not returned. `QueryStore.DeleteMany`
  returns that number; the handler drops it.
- Counter labels. Every handler except `/metrics` increments its series once,
  with status code `'200'`, before answering. The lookup, validate, history
  and clear handlers do it before any validation, so their series read
  `'200'` whatever they answer. The clear route is a POST, but its series is
  labelled `'GET'`.

## Model

| member | source | states |
|---|---|---|
| Ipv4.ScanBySplit | src/app.js:210 | the regex matcher, resumed after `dots` separators and `run` digits, accepts exactly when the split pieces of the rest complete the open group and supply the remaining groups of 1–3 digits |
| Ipv4.IsIpv4Shape | src/app.js:210 | `/^(\d{1,3}\.){3}\d{1,3}$/.test(s)` is true iff `s.split('.')` has exactly four pieces, each 1–3 ASCII digits |
| Ipv4.ShapeIffFourGroups | app.js:168 | `test(s)` is true iff `s` is four groups of 1–3 ASCII digits joined by '.' (the pattern's own reading) |
| Ipv4.AcceptsTestAddress | src/test/endpoint.test.js:40-47 | "192.168.1.1" is accepted |
| Ipv4.AcceptsOutOfRange | src/app.js:210 | "999.999.999.999" is accepted (no octet range check) |
| Ipv4.RejectsMalformed | app.js:168 | "abc", "1.2.3" and "1234.1.1.1" are rejected |
| JsText.TrimStart | src/app.js:160 | the result is the suffix left after removing the longest whitespace prefix, and it does not start with whitespace |
| JsText.TrimEnd | src/app.js:160 | the result is the prefix left after removing the longest whitespace suffix, and it does not end with whitespace |
| JsText.Trim | src/app.js:160 | `s.trim()` is a contiguous piece of `s` that neither starts nor ends with whitespace, and only whitespace is cut off on either side |
| JsText.TrimEmptyIffBlank | src/app.js:160 | `s.trim() === ''` iff every character of `s` is ECMAScript whitespace |
| History.Insert | src/app.js:231 | inserting into a newest-first list gives a newest-first list with the same elements plus the new one |
| History.SortNewestFirst | src/app.js:231 | the sort result is ordered by `created_at` descending and is a permutation of the collection |
| History.PrefixIsLatest | src/app.js:231 | the first min(20, n) elements of any newest-first permutation answer `find().sort({created_at:-1}).limit(20)` |
| History.LatestOfSmallIsAll | app.js:189 | when the collection holds at most 20 documents, the query returns all of them |
| History.LatestOfSingleton | src/app.js:231 | a collection of one document is returned as exactly that document |
| History.QueryStore.constructor | src/app.js:48 | stands for an empty database: a new collection holds no documents |
| History.QueryStore.Create | src/app.js:183 | `Query.create` succeeds iff the database answers and `client_ip` and `domain` are non-empty (schema `required`, src/app.js:31-39); on success exactly this document is appended, otherwise nothing changes |
| History.QueryStore.Recent | src/app.js:231 | returns min(20, n) documents, newest first, drawn from the collection; nothing left out is newer than the last one returned; when every stored document met the schema, so does every returned one; the store is not written |
| History.QueryStore.DeleteMany | src/app.js:246 | on success the collection is empty and the count of documents removed is returned; when the database is unreachable nothing changes |
| Metrics.Bump | src/app.js:155 | an increment adds one to the labelled series and leaves every other series unchanged |
| Metrics.BumpAddsOne | app.js:113 | every increment raises the total request count by exactly one |
| Metrics.Registry.constructor | src/app.js:70-79 | the counter starts with no series and the gauge at 0 |
| Metrics.Registry.Inc | src/app.js:200 | `inc` bumps exactly the given series by one and leaves the gauge alone |
| Metrics.Registry.SetHealth | src/app.js:87-89 | `set` replaces the gauge value and leaves the counter alone |
| Service.DomainGuard | src/app.js:160-162 | the domain is accepted iff it is a string that is not empty or whitespace-only; an accepted domain is passed on untrimmed |
| Service.Response.StatusCode | src/app.js:161-192 | each answer's HTTP status is 200, 400, 404 or 500, and it is 400 or more exactly for the bad-request, not-found and internal-error answers |
| Service.GuardedDocSchemaValid | src/app.js:31-39 | a domain that passed the guard always meets the schema's `required` check, so the lookup's document fails validation exactly when the client ip is empty |
| Service.ValidateBody | src/app.js:205-212 | a missing, empty or non-string `ip` gives status 400; any other string gives a status-200 answer whose boolean is true iff it splits into four groups of 1–3 digits |
| Service.Ipv4Answers | src/app.js:178 | the filtered list is no longer than the answers and every kept entry contains '.' |
| Service.FilterCounts | app.js:136 | each answer containing '.' is kept as often as it occurs, and no other answer is kept |
| Service.FilterAppend | src/app.js:178 | the filter distributes over concatenation, so kept answers stay in their original order |
| Service.FilterKeepsDotted | src/app.js:165 | when every answer contains '.' (as 'A' answers do) the filter returns the answers unchanged |
| Service.Lookup | src/app.js:152-194 | counter bumped once under status '200'; a bad domain gives 400, a `dns.resolve` call that throws gives 500 "Internal server error" from the outer catch, a resolver error gives 404 "domain not found", an empty raw answer list gives 404 "no IPv4 addresses"; otherwise the record of filtered answers, domain, client ip and time is stored and returned, or a 500 is given with the store unchanged; the status is 200 exactly when one document was stored; nothing else is stored, and every stored record keeps a non-blank domain and only dotted addresses |
| Service.Validate | src/app.js:197-217 | counter bumped once under POST/'200'; the answer is `ValidateBody(ip)` |
| Service.GetHistory | src/app.js:220-237 | counter bumped once; any query key gives 400; an unreachable database gives 500; otherwise the answer satisfies `LatestOf` over the store; the status is 200 exactly in that last case; every listed record keeps the lookup handler's guarantees (non-blank domain, dotted addresses) when the store does; the store is not in the frame, so it is not written |
| Service.ClearHistory | src/app.js:240-253 | counter bumped once under the 'GET' label; on success the store is empty and the answer is "History cleared successfully." with status 200; otherwise 500 and the store is unchanged |
| Service.HealthCheck | src/app.js:131-148 | counter bumped once; the answer is status OK with "connected" or "disconnected", always with HTTP status 200 |
| Service.HealthValue | src/app.js:83-90 | the gauge value is 0 or 1, and it is 1 iff the database is connected (`src/app.js`) or the entry point is `app.js` |
| Service.StandaloneAlwaysHealthy | app.js:50-53 | in `app.js` the gauge is 1 whatever the connection state |
| Service.GenerateMetrics | src/app.js:81-94 | sets the gauge to `HealthValue`, does not touch the counter, and exposes both |
| Service.LookupThenHistory | app.js:131-142 | on an empty collection and a new registry, a successful lookup returns its record and the history then lists exactly that record |
| Service.ClearThenLookup | app.js:198-211 | from any store, with the database reachable, a clear followed by one successful lookup leaves a history of exactly the new record |
| Service.ClearTwice | src/app.js:246-248 | from any store, with the database reachable, clearing twice succeeds both times and leaves an empty history |
| Service.UndottedAnswersStored | src/app.js:173-178 | on an empty collection, the non-empty answer list ["::1"] passes the emptiness check, and a record with no addresses is stored and listed |

## Left out

- Express plumbing is not modelled: routing, `logRequest`, CORS, body-parser, the Swagger UI, the 404 fallback, `listen` and the SIGINT shutdown. The model has one method per route instead.
- The root endpoint `/` is not modelled. It reads an environment variable and the wall clock and touches no modelled state apart from one counter increment.
- The Mongoose connection itself is not modelled: URI building, `readyState`, and buffering commands while disconnected. Connectivity is the `connected` input (for the gauge and `/health`) and the `reachable` input (for whether a store operation succeeds). The model does not tie the two together.
- The DNS query is not modelled. Its result is the `Resolution` input. Asynchronous completion is not modelled either: one request runs at a time against the store, so requests do not interleave.
- The Prometheus text exposition and a failing `register.metrics()` (the 500 branch of `/metrics`) are not modelled. `/metrics` answers with the counter map and the gauge value.
- The collection's contents at start-up are not modelled. The MongoDB collection persists across restarts, so a newly started service may already hold documents. `QueryStore`'s constructor stands for an empty database, and the scenarios built on it (`LookupThenHistory`, `UndottedAnswersStored`) hold only for an empty collection. `ClearThenLookup` and `ClearTwice` start from any store.
- The `catch` blocks of `/`, `/health` and `/validate` are not modelled. Their `try` blocks hold only the counter increment, the connection-state read, destructuring, type tests, the regular expression and `res.json`, none of which fails for the modelled inputs. The lookup handler's outer catch (src/app.js:190-193) is modelled: a `dns.resolve` call that throws synchronously (`ResolveThrows`) gives 500 "Internal server error" after the counter increment, with the store unchanged. The catches of the history and clear handlers (src/app.js:233-236, 249-252) are modelled: a failing `find` or `deleteMany` (`reachable` false) gives the 500 "Internal server error" answer. So is the inner catch of the lookup, the 500 when `Query.create` fails.
- Mongoose's casting of `created_at` to a `Date`, and its `_id`/`__v` fields, are not modelled. A record is the four schema fields, and the time is a number of milliseconds.

