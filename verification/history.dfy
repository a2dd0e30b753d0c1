/**
 * The `Query` collection: the documents the lookup handler stores, and the
 * three operations the handlers perform on it (`Query.create`,
 * `Query.find().sort({created_at: -1}).limit(20)` and `Query.deleteMany({})`).
 */
module History {

  /** One stored lookup: the fields of the `Query` schema. `createdAt` is in milliseconds. */
  datatype Record = Record(addresses: seq<string>, clientIp: string, domain: string, createdAt: nat)

  /** The schema marks `client_ip` and `domain` as `required`, which rejects an empty string. */
  predicate SchemaValid(r: Record)
  {
    r.clientIp != [] && r.domain != []
  }

  /** How many documents the history endpoint asks for. */
  const HistoryLimit: nat := 20

  /** Ordered by `created_at` descending. */
  predicate NewestFirst(s: seq<Record>)
  {
    forall i, j :: 0 <= i < j < |s| ==> s[i].createdAt >= s[j].createdAt
  }

  /**
   * `rs` is an answer to `find().sort({created_at: -1}).limit(HistoryLimit)`
   * over `records`: as many documents as the limit allows, newest first,
   * taken from the stored ones, and nothing left out is newer than the last
   * one returned. Among equal timestamps any order and choice is allowed.
   */
  ghost predicate LatestOf(rs: seq<Record>, records: seq<Record>)
  {
    && |rs| == (if |records| < HistoryLimit then |records| else HistoryLimit)
    && NewestFirst(rs)
    && multiset(rs) <= multiset(records)
    && forall x :: multiset(rs)[x] < multiset(records)[x] ==>
         0 < |rs| && x.createdAt <= rs[|rs| - 1].createdAt
  }

  /** Putting an element no older than all of `t` in front keeps the order. */
  lemma ConsNewestFirst(h: Record, t: seq<Record>)
    requires NewestFirst(t)
    requires forall j :: 0 <= j < |t| ==> t[j].createdAt <= h.createdAt
    ensures NewestFirst([h] + t)
  {
    forall i, j | 0 <= i < j < |[h] + t| ensures ([h] + t)[i].createdAt >= ([h] + t)[j].createdAt {
      if i > 0 {
        assert ([h] + t)[i] == t[i - 1];
      }
      assert ([h] + t)[j] == t[j - 1];
    }
  }

  /** A rearrangement of `s[1..]` plus an `x` older than `s[0]` holds nothing newer than `s[0]`. */
  lemma BoundedByHead(s: seq<Record>, x: Record, t: seq<Record>)
    requires NewestFirst(s) && s != []
    requires x.createdAt < s[0].createdAt
    requires multiset(t) == multiset(s[1..]) + multiset{x}
    ensures forall j :: 0 <= j < |t| ==> t[j].createdAt <= s[0].createdAt
  {
    forall j | 0 <= j < |t| ensures t[j].createdAt <= s[0].createdAt {
      assert t[j] in multiset(t);
      if t[j] != x {
        assert t[j] in multiset(s[1..]);
        var k :| 0 <= k < |s[1..]| && s[1..][k] == t[j];
        assert s[k + 1] == t[j];
      }
    }
  }

  /** Places `x` into a newest-first sequence. */
  function Insert(x: Record, s: seq<Record>): (r: seq<Record>)
    requires NewestFirst(s)
    ensures NewestFirst(r)
    ensures multiset(r) == multiset(s) + multiset{x}
    decreases |s|
  {
    if s == [] then [x]
    else if s[0].createdAt <= x.createdAt then
      ConsNewestFirst(x, s);
      [x] + s
    else
      var t := Insert(x, s[1..]);
      BoundedByHead(s, x, t);
      ConsNewestFirst(s[0], t);
      assert s == [s[0]] + s[1..];
      [s[0]] + t
  }

  /** Insertion sort by `created_at`, newest first. */
  function SortNewestFirst(s: seq<Record>): (r: seq<Record>)
    ensures NewestFirst(r)
    ensures multiset(r) == multiset(s)
    decreases |s|
  {
    if s == [] then []
    else
      assert s == [s[0]] + s[1..];
      Insert(s[0], SortNewestFirst(s[1..]))
  }

  /** In a newest-first sequence, whatever follows position `k` is no newer than the element before it. */
  lemma TailIsOlder(sorted: seq<Record>, k: nat, x: Record)
    requires NewestFirst(sorted)
    requires 0 < k <= |sorted|
    requires x in multiset(sorted[k..])
    ensures x.createdAt <= sorted[k - 1].createdAt
  {
    var j :| 0 <= j < |sorted[k..]| && sorted[k..][j] == x;
    assert sorted[k + j] == x;
  }

  /** The first `HistoryLimit` elements of any newest-first arrangement of the collection answer the query. */
  lemma PrefixIsLatest(sorted: seq<Record>, records: seq<Record>, k: nat)
    requires NewestFirst(sorted) && multiset(sorted) == multiset(records)
    requires k == if |records| < HistoryLimit then |records| else HistoryLimit
    ensures k <= |sorted| && LatestOf(sorted[..k], records)
  {
    assert |sorted| == |records| by {
      assert |multiset(sorted)| == |multiset(records)|;
    }
    var rs := sorted[..k];
    assert NewestFirst(rs) by {
      forall i, j | 0 <= i < j < |rs| ensures rs[i].createdAt >= rs[j].createdAt {
        assert rs[i] == sorted[i] && rs[j] == sorted[j];
      }
    }
    assert sorted == rs + sorted[k..];
    assert multiset(records) == multiset(rs) + multiset(sorted[k..]);
    if k == 0 {
      assert |records| == 0;
    } else {
      forall x | multiset(rs)[x] < multiset(records)[x]
        ensures x.createdAt <= rs[|rs| - 1].createdAt
      {
        TailIsOlder(sorted, k, x);
      }
    }
  }

  /** Every element of a sub-multiset of `records` is one of the stored documents. */
  lemma DrawnFrom(rs: seq<Record>, records: seq<Record>)
    requires multiset(rs) <= multiset(records)
    ensures forall i :: 0 <= i < |rs| ==> rs[i] in records
  {
    forall i | 0 <= i < |rs| ensures rs[i] in records {
      assert rs[i] in multiset(rs);
    }
  }

  /** A collection within the limit is returned whole. */
  lemma {:induction false} LatestOfSmallIsAll(rs: seq<Record>, records: seq<Record>)
    requires |records| <= HistoryLimit
    requires LatestOf(rs, records)
    ensures multiset(rs) == multiset(records)
  {
    assert |multiset(rs)| == |multiset(records)|;
    var d := multiset(records) - multiset(rs);
    assert multiset(records) == multiset(rs) + d;
    assert |d| == 0;
  }

  /** A single stored document is exactly what the query returns. */
  lemma LatestOfSingleton(rs: seq<Record>, doc: Record)
    requires LatestOf(rs, [doc])
    ensures rs == [doc]
  {
    assert rs[0] in multiset(rs);
  }

  /** The in-memory stand-in for the MongoDB collection. */
  class QueryStore {
    /** The stored documents, oldest insertion first. */
    var records: seq<Record>

    /** Every stored document passed the schema's validation. */
    ghost predicate Valid()
      reads this
    {
      forall i :: 0 <= i < |records| ==> SchemaValid(records[i])
    }

    constructor ()
      ensures Valid() && records == []
    {
      records := [];
    }

    /**
     * `Query.create(doc)`: validates against the schema and inserts. It fails,
     * leaving the collection as it was, when the database cannot be reached
     * or a required field is empty.
     */
    method Create(doc: Record, reachable: bool) returns (ok: bool)
      requires Valid()
      modifies this
      ensures Valid()
      ensures ok == (reachable && SchemaValid(doc))
      ensures records == if ok then old(records) + [doc] else old(records)
    {
      ok := reachable && SchemaValid(doc);
      if ok {
        records := records + [doc];
      }
    }

    /** `Query.find().sort({created_at: -1}).limit(20)`: reads, never writes. */
    method Recent() returns (rs: seq<Record>)
      ensures LatestOf(rs, records)
      ensures forall i :: 0 <= i < |rs| ==> rs[i] in records
      ensures Valid() ==> forall i :: 0 <= i < |rs| ==> SchemaValid(rs[i])
    {
      var sorted := SortNewestFirst(records);
      var k := if |records| < HistoryLimit then |records| else HistoryLimit;
      PrefixIsLatest(sorted, records, k);
      rs := sorted[..k];
      DrawnFrom(rs, records);
    }

    /**
     * `Query.deleteMany({})`: removes every document and reports how many
     * there were; when the database cannot be reached nothing changes.
     */
    method DeleteMany(reachable: bool) returns (ok: bool, deleted: nat)
      requires Valid()
      modifies this
      ensures Valid()
      ensures ok == reachable
      ensures ok ==> records == [] && deleted == |old(records)|
      ensures !ok ==> records == old(records) && deleted == 0
    {
      ok := reachable;
      if ok {
        deleted := |records|;
        records := [];
      } else {
        deleted := 0;
      }
    }
  }
}
