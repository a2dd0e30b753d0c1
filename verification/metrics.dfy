/**
 * The two Prometheus metrics the service keeps: the counter
 * `http_requests_total{method, status_code, endpoint_path}` and the gauge
 * `health_status`. Only their values are modelled, not the text exposition.
 */
module Metrics {

  /** The label set of one `http_requests_total` series. */
  datatype Label = Label(httpMethod: string, statusCode: string, endpointPath: string)

  /** The value of a series; a series never incremented reads as zero. */
  function Count(counter: map<Label, nat>, l: Label): (n: nat)
  {
    if l in counter then counter[l] else 0
  }

  /** `httpRequestCounter.inc(l)`: one more on series `l`, every other series as it was. */
  function Bump(counter: map<Label, nat>, l: Label): (r: map<Label, nat>)
    ensures Count(r, l) == Count(counter, l) + 1
    ensures forall other :: other != l ==> Count(r, other) == Count(counter, other)
    ensures r.Keys == counter.Keys + {l}
  {
    counter[l := Count(counter, l) + 1]
  }

  /** Total of all series. */
  ghost function Total(counter: map<Label, nat>): (t: nat)
    decreases |counter.Keys|
  {
    if counter == map[] then 0
    else
      var l :| l in counter;
      counter[l] + Total(counter - {l})
  }

  /** Removing one series takes exactly its value off the total, whichever series `Total` visits first. */
  lemma {:induction false} TotalWithout(counter: map<Label, nat>, l: Label)
    requires l in counter
    ensures Total(counter) == counter[l] + Total(counter - {l})
    decreases |counter.Keys|
  {
    var m :| m in counter && Total(counter) == counter[m] + Total(counter - {m});
    if m != l {
      var rest := counter - {m};
      TotalWithout(rest, l);
      TotalWithout(counter - {l}, m);
      assert rest - {l} == (counter - {l}) - {m};
    }
  }

  /** Every increment adds exactly one request to the total. */
  lemma BumpAddsOne(counter: map<Label, nat>, l: Label)
    ensures Total(Bump(counter, l)) == Total(counter) + 1
  {
    var r := Bump(counter, l);
    TotalWithout(r, l);
    assert r - {l} == counter - {l};
    if l in counter {
      TotalWithout(counter, l);
    } else {
      assert counter - {l} == counter;
    }
  }

  /** The process-wide metric objects. */
  class Registry {
    var requests: map<Label, nat>
    var health: int

    /** A new counter has no series; a new gauge reads 0. */
    constructor ()
      ensures requests == map[] && health == 0
    {
      requests := map[];
      health := 0;
    }

    /** `httpRequestCounter.inc(l)` */
    method Inc(l: Label)
      modifies this
      ensures requests == Bump(old(requests), l) && health == old(health)
    {
      requests := Bump(requests, l);
    }

    /** `healthGauge.set(v)` */
    method SetHealth(v: int)
      modifies this
      ensures health == v && requests == old(requests)
    {
      health := v;
    }
  }
}
