/** Error metrics: a total, counts per code and per endpoint, and the last N errors. */
module ErrorTracker {
  import opened Prelude
  import opened Selection

  datatype Entry = Entry(timestamp: int, code: string, endpoint: string, user: string, message: string, requestId: string)

  // ---------------------------------------------------------------- counting

  function Codes(es: seq<Entry>): seq<string> {
    seq(|es|, i requires 0 <= i < |es| => es[i].code)
  }

  function Endpoints(es: seq<Entry>): seq<string> {
    seq(|es|, i requires 0 <= i < |es| => es[i].endpoint)
  }

  function Get(m: map<string, nat>, k: string): nat {
    if k in m then m[k] else 0
  }

  function Bump(m: map<string, nat>, k: string): map<string, nat> {
    m[k := Get(m, k) + 1]
  }

  /** The counters after a sequence of increments. */
  function Tally(names: seq<string>): map<string, nat> {
    if names == [] then map[] else Bump(Tally(names[..|names| - 1]), names[|names| - 1])
  }

  /** The number of times `k` occurs, without going through counters. */
  function Occurrences(names: seq<string>, k: string): nat {
    if names == [] then 0
    else Occurrences(names[..|names| - 1], k) + if names[|names| - 1] == k then 1 else 0
  }

  ghost function SumValues(m: map<string, nat>): nat
    decreases |m|
  {
    if m == map[] then 0
    else
      var k := Pick(m.Keys);
      m[k] + SumValues(m - {k})
  }

  lemma {:induction false} SumWithout(m: map<string, nat>, k: string)
    requires k in m
    ensures SumValues(m) == m[k] + SumValues(m - {k})
    decreases |m|
  {
    var j := Pick(m.Keys);
    if j != k {
      SumWithout(m - {j}, k);
      SumWithout(m - {k}, j);
      assert m - {j} - {k} == m - {k} - {j};
    }
  }

  lemma SumBump(m: map<string, nat>, k: string)
    ensures SumValues(Bump(m, k)) == SumValues(m) + 1
  {
    var b := Bump(m, k);
    SumWithout(b, k);
    if k in m {
      SumWithout(m, k);
      assert b - {k} == m - {k};
    } else {
      assert b - {k} == m;
    }
  }

  /** Counters agree with occurrences, and add up to the number of increments. */
  lemma {:induction false} TallyCounts(names: seq<string>, k: string)
    ensures Get(Tally(names), k) == Occurrences(names, k)
    ensures k in Tally(names) <==> Occurrences(names, k) > 0
    ensures SumValues(Tally(names)) == |names|
  {
    if names == [] {
    } else {
      var n := |names| - 1;
      TallyCounts(names[..n], k);
      SumBump(Tally(names[..n]), names[n]);
    }
  }

  /** The entries with a given code, and those with a given endpoint. */
  ghost function WithCode(es: seq<Entry>, code: string): set<int> {
    set i | 0 <= i < |es| && es[i].code == code
  }

  ghost function WithEndpoint(es: seq<Entry>, endpoint: string): set<int> {
    set i | 0 <= i < |es| && es[i].endpoint == endpoint
  }

  ghost function Positions(names: seq<string>, k: string): set<int> {
    set i | 0 <= i < |names| && names[i] == k
  }

  lemma {:induction false} OccurrencesAre(names: seq<string>, k: string)
    ensures Occurrences(names, k) == |Positions(names, k)|
  {
    if names == [] {
      assert Positions(names, k) == {};
    } else {
      var n := |names| - 1;
      OccurrencesAre(names[..n], k);
      assert Positions(names, k) == Positions(names[..n], k) + (if names[n] == k then {n} else {});
    }
  }

  /** A counter is the number of entries it names, counted on the entries themselves. */
  lemma CountersCountEntries(es: seq<Entry>, code: string, endpoint: string)
    ensures Get(Tally(Codes(es)), code) == |WithCode(es, code)|
    ensures Get(Tally(Endpoints(es)), endpoint) == |WithEndpoint(es, endpoint)|
  {
    TallyCounts(Codes(es), code);
    TallyCounts(Endpoints(es), endpoint);
    OccurrencesAre(Codes(es), code);
    OccurrencesAre(Endpoints(es), endpoint);
    assert Positions(Codes(es), code) == WithCode(es, code);
    assert Positions(Endpoints(es), endpoint) == WithEndpoint(es, endpoint);
  }

  // ---------------------------------------------------------------- tails and rankings

  /** The last `n` elements, or all if there are fewer. */
  function Tail<T>(s: seq<T>, n: nat): seq<T> {
    if |s| > n then s[|s| - n..] else s
  }

  lemma TailOfTail<T>(s: seq<T>, n: nat, k: nat)
    ensures Tail(Tail(s, n), k) == Tail(s, Min(n, k))
  {
  }

  /** Push at the end; drop the first element if that makes more than `n`. */
  function Pushed<T>(t: seq<T>, x: T, n: nat): seq<T> {
    if |t| + 1 > n then (t + [x])[1..] else t + [x]
  }

  lemma PushTail<T>(s: seq<T>, n: nat, x: T)
    ensures Tail(s + [x], n) == Pushed(Tail(s, n), x, n)
  {
  }

  /** `r` ranks counters by value, largest first, cut to `limit` entries: each listed with its own
      count, none twice, and no omitted count above a listed one. */
  ghost predicate IsTop(m: map<string, nat>, limit: nat, r: seq<(string, nat)>) {
    && |r| == Min(limit, |m|)
    && (forall i :: 0 <= i < |r| ==> r[i].0 in m && m[r[i].0] == r[i].1)
    && (forall i, j :: 0 <= i < j < |r| ==> r[i].0 != r[j].0 && r[i].1 >= r[j].1)
    && (forall k, i :: k in m && 0 <= i < |r| && (forall j :: 0 <= j < |r| ==> r[j].0 != k) ==> m[k] <= r[i].1)
  }

  lemma SortedPrefix(keys: map<string, int>, ids: seq<string>, k: nat)
    requires IsOldest(keys, |keys|, ids) && k <= |ids|
    ensures IsOldest(keys, k, ids[..k])
  {
  }

  function Negated(m: map<string, nat>): map<string, int> {
    map k | k in m :: -(m[k] as int)
  }

  function Listed(m: map<string, nat>, p: seq<string>): seq<(string, nat)>
    requires forall i :: 0 <= i < |p| ==> p[i] in m
  {
    seq(|p|, i requires 0 <= i < |p| => (p[i], m[p[i]]))
  }

  lemma ListedIsTop(m: map<string, nat>, limit: nat, p: seq<string>)
    requires IsOldest(Negated(m), limit, p)
    ensures forall i :: 0 <= i < |p| ==> p[i] in m
    ensures IsTop(m, limit, Listed(m, p))
  {
    assert Negated(m).Keys == m.Keys;
    assert |Negated(m)| == |m|;
    assert forall i :: 0 <= i < |p| ==> p[i] in p;
    var r := Listed(m, p);
    forall i, j | 0 <= i < j < |r| ensures r[i].0 != r[j].0 && r[i].1 >= r[j].1 {
      assert Negated(m)[p[i]] <= Negated(m)[p[j]];
    }
    forall k, i | k in m && 0 <= i < |r| && (forall j :: 0 <= j < |r| ==> r[j].0 != k) ensures m[k] <= r[i].1 {
      assert forall j :: 0 <= j < |p| ==> r[j].0 == p[j];
      assert k !in p;
      assert Negated(m)[p[i]] <= Negated(m)[k];
    }
  }

  /** Sort all counters, then keep the first `limit`. */
  method Rank(m: map<string, nat>, limit: nat) returns (r: seq<(string, nat)>)
    ensures IsTop(m, limit, r)
  {
    var keys := Negated(m);
    assert keys.Keys == m.Keys;
    var ids := SelectOldest(keys, |keys|);
    var n := if limit <= |ids| then limit else |ids|;
    SortedPrefix(keys, ids, n);
    ListedIsTop(m, n, ids[..n]);
    r := Listed(m, ids[..n]);
  }

  lemma CountersSnoc(es: seq<Entry>, e: Entry)
    ensures Tally(Codes(es + [e])) == Bump(Tally(Codes(es)), e.code)
    ensures Tally(Endpoints(es + [e])) == Bump(Tally(Endpoints(es)), e.endpoint)
  {
    var all, n := es + [e], |es|;
    assert Codes(all)[..n] == Codes(es) && Codes(all)[n] == e.code;
    assert Endpoints(all)[..n] == Endpoints(es) && Endpoints(all)[n] == e.endpoint;
  }

  // ---------------------------------------------------------------- the tracker

  class Tracker {
    var total: nat
    var byCode: map<string, nat>
    var byEndpoint: map<string, nat>
    var last: seq<Entry>
    const maxLast: nat
    /** Everything tracked since the last reset, for the specification. */
    ghost var history: seq<Entry>

    ghost predicate Valid()
      reads this
    {
      && total == |history|
      && byCode == Tally(Codes(history))
      && byEndpoint == Tally(Endpoints(history))
      && last == Tail(history, maxLast)
    }

    constructor (maxLast: nat)
      ensures Valid() && history == [] && this.maxLast == maxLast
    {
      this.maxLast := maxLast;
      total, byCode, byEndpoint, last, history := 0, map[], map[], [], [];
    }

    /** Append the entry and keep only the last `maxLast`. */
    method KeepLast(e: Entry)
      modifies this`last
      ensures last == Pushed(old(last), e, maxLast)
    {
      last := last + [e];
      if |last| > maxLast {
        last := last[1..];
      }
    }

    method TrackError(e: Entry)
      requires Valid()
      modifies this
      ensures Valid() && history == old(history) + [e]
    {
      PushTail(history, maxLast, e);
      CountersSnoc(history, e);
      total := total + 1;
      byCode := Bump(byCode, e.code);
      byEndpoint := Bump(byEndpoint, e.endpoint);
      KeepLast(e);
      history := history + [e];
    }

    method ResetMetrics()
      requires Valid()
      modifies this
      ensures Valid() && history == []
    {
      total, byCode, byEndpoint, last, history := 0, map[], map[], [], [];
    }

    /** The most recent errors, newest last: a suffix of everything tracked. */
    method GetRecentErrors(limit: nat) returns (r: seq<Entry>)
      requires Valid()
      ensures r == Tail(history, Min(maxLast, limit))
      ensures |r| == Min(|history|, Min(maxLast, limit)) && r == history[|history| - |r|..]
    {
      var start := if |last| > limit then |last| - limit else 0;
      TailOfTail(history, maxLast, limit);
      r := last[start..];
    }

    method GetTopErrorCodes(limit: nat) returns (r: seq<(string, nat)>)
      requires Valid()
      ensures IsTop(Tally(Codes(history)), limit, r)
      ensures forall i :: 0 <= i < |r| ==> r[i].1 == |WithCode(history, r[i].0)|
    {
      r := Rank(byCode, limit);
      forall i | 0 <= i < |r| ensures r[i].1 == |WithCode(history, r[i].0)| {
        CountersCountEntries(history, r[i].0, r[i].0);
      }
    }

    method GetTopErrorEndpoints(limit: nat) returns (r: seq<(string, nat)>)
      requires Valid()
      ensures IsTop(Tally(Endpoints(history)), limit, r)
      ensures forall i :: 0 <= i < |r| ==> r[i].1 == |WithEndpoint(history, r[i].0)|
    {
      r := Rank(byEndpoint, limit);
      forall i | 0 <= i < |r| ensures r[i].1 == |WithEndpoint(history, r[i].0)| {
        CountersCountEntries(history, r[i].0, r[i].0);
      }
    }

    method GetEndpointErrorRate(endpoint: string) returns (n: nat)
      requires Valid()
      ensures n == |WithEndpoint(history, endpoint)|
    {
      CountersCountEntries(history, "", endpoint);
      n := if endpoint in byEndpoint then byEndpoint[endpoint] else 0;
    }

    /** After any sequence of tracks and resets, the total is the sum of the counts per code and
        of the counts per endpoint, and each count is the number of tracked errors it names. */
    lemma CountersAgree(code: string, endpoint: string)
      requires Valid()
      ensures total == SumValues(byCode) == SumValues(byEndpoint)
      ensures Get(byCode, code) == |WithCode(history, code)|
      ensures Get(byEndpoint, endpoint) == |WithEndpoint(history, endpoint)|
      ensures |last| == Min(maxLast, total)
    {
      TallyCounts(Codes(history), code);
      TallyCounts(Endpoints(history), endpoint);
      CountersCountEntries(history, code, endpoint);
    }
  }
}
