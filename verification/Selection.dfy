/** The one query shape the background services share:
    `SELECT … ORDER BY key ASC LIMIT k`, with ties broken in any way. */
module Selection {

  ghost predicate Distinct<T>(s: seq<T>) {
    forall i, j :: 0 <= i < j < |s| ==> s[i] != s[j]
  }

  function SetOf<T>(s: seq<T>): set<T> {
    set x | x in s
  }

  function Min(a: int, b: int): int {
    if a <= b then a else b
  }

  /** `ids` are distinct rows of `keys` in ascending order. */
  ghost predicate Sorted<K>(keys: map<K, int>, ids: seq<K>) {
    && Distinct(ids)
    && (forall x :: x in ids ==> x in keys)
    && (forall i, j :: 0 <= i < j < |ids| ==> keys[ids[i]] <= keys[ids[j]])
  }

  /** `ids` is an answer to `SELECT id … ORDER BY keys[id] ASC LIMIT limit`. */
  ghost predicate IsOldest<K>(keys: map<K, int>, limit: nat, ids: seq<K>) {
    && Sorted(keys, ids)
    && (forall x, y :: x in ids && y in keys && y !in ids ==> keys[x] <= keys[y])
    && |ids| == Min(limit, |keys|)
  }

  lemma SnocSet<T>(t: seq<T>, x: T)
    ensures SetOf(t + [x]) == SetOf(t) + {x}
  {
  }

  lemma {:induction false} DistinctCard<T>(s: seq<T>)
    requires Distinct(s)
    ensures |SetOf(s)| == |s|
  {
    if s == [] {
      assert SetOf(s) == {};
    } else {
      var t, x := s[..|s| - 1], s[|s| - 1];
      DistinctCard(t);
      SnocSet(t, x);
      assert s == t + [x];
      assert x !in SetOf(t);
    }
  }

  lemma SubsetCard<T>(a: set<T>, b: set<T>)
    requires a <= b
    ensures |a| <= |b|
  {
    assert b == a + (b - a);
  }

  lemma SnocSorted<K>(keys: map<K, int>, ids: seq<K>, k: K)
    requires Sorted(keys, ids)
    requires k in keys && k !in ids
    requires forall x :: x in ids ==> keys[x] <= keys[k]
    ensures Sorted(keys, ids + [k])
  {
  }

  method MinKey<K(==)>(keys: map<K, int>, rest: set<K>) returns (k: K)
    requires rest != {} && rest <= keys.Keys
    ensures k in rest && forall y :: y in rest ==> keys[k] <= keys[y]
  {
    k :| k in rest;
    var todo := rest - {k};
    while todo != {}
      invariant todo <= rest && k in rest
      invariant forall y :: y in rest - todo ==> keys[k] <= keys[y]
      decreases todo
    {
      var y :| y in todo;
      if keys[y] < keys[k] {
        k := y;
      }
      todo := todo - {y};
    }
  }

  /** Repeated selection of the smallest remaining key answers the query. */
  method SelectOldest<K(==)>(keys: map<K, int>, limit: nat) returns (ids: seq<K>)
    ensures IsOldest(keys, limit, ids)
  {
    ids := [];
    var rest := keys.Keys;
    while rest != {} && |ids| < limit
      invariant forall x :: x in rest <==> x in keys && x !in ids
      invariant |rest| + |ids| == |keys|
      invariant |ids| <= limit
      invariant Sorted(keys, ids)
      invariant forall x, y :: x in ids && y in rest ==> keys[x] <= keys[y]
    {
      var k := MinKey(keys, rest);
      SnocSorted(keys, ids, k);
      ids, rest := ids + [k], rest - {k};
    }
  }

  /** The other rows that sort no later than `id`. */
  function NoLater<K>(keys: map<K, int>, id: K): set<K>
    requires id in keys
  {
    set y | y in keys && y != id && keys[y] <= keys[id]
  }

  /** The rows that sort strictly before `id`. */
  function Earlier<K>(keys: map<K, int>, id: K): set<K>
    requires id in keys
  {
    set y | y in keys && keys[y] < keys[id]
  }

  /** A row the query leaves out was crowded out by `limit` rows that sort no later. */
  lemma LeftOutMeansFull<K>(keys: map<K, int>, limit: nat, ids: seq<K>, id: K)
    requires IsOldest(keys, limit, ids)
    requires id in keys && id !in ids
    ensures |ids| == limit
    ensures forall x :: x in ids ==> keys[x] <= keys[id]
  {
    DistinctCard(ids);
    SubsetCard(SetOf(ids) + {id}, keys.Keys);
  }

  /** Fewer than `limit` other rows sorting no later than `id` guarantee it a place. */
  lemma EarlyIsSelected<K>(keys: map<K, int>, limit: nat, ids: seq<K>, id: K)
    requires IsOldest(keys, limit, ids)
    requires id in keys
    requires |NoLater(keys, id)| < limit
    ensures id in ids
  {
    if id !in ids {
      LeftOutMeansFull(keys, limit, ids, id);
      DistinctCard(ids);
      SubsetCard(SetOf(ids), NoLater(keys, id));
    }
  }

  /** `limit` rows sorting strictly earlier keep `id` out. */
  lemma LateIsLeftOut<K>(keys: map<K, int>, limit: nat, ids: seq<K>, id: K)
    requires IsOldest(keys, limit, ids)
    requires id in keys
    requires |Earlier(keys, id)| >= limit
    ensures id !in ids
  {
    if id in ids {
      assert Earlier(keys, id) <= SetOf(ids);
      DistinctCard(ids);
      SubsetCard(Earlier(keys, id) + {id}, SetOf(ids));
    }
  }

  // ---------------------------------------------------------------- counting passes

  /** The places `passes` passes have, `slots` in each. */
  function Times(passes: nat, slots: nat): nat {
    passes * slots
  }

  lemma TimesStep(passes: nat, slots: nat)
    ensures Times(passes + 1, slots) == Times(passes, slots) + slots && Times(0, slots) == 0
  {
  }

  /** One step of a run that counts passes against places: `before` and `after` are the places needed
      around the step, `delay` what it costs, `delays` what the rest of the run costs. */
  lemma CountPass(reaches: bool, passes: nat, slots: nat, before: nat, after: nat, delay: nat, delays: nat)
    requires after + (if reaches then slots else 0) <= before + delay && Times(passes, slots) <= after + delays
    ensures Times((if reaches then 1 else 0) + passes, slots) <= before + delay + delays
  {
    TimesStep(passes, slots);
  }

  lemma GrownBy<T>(a: set<T>, b: set<T>, x: T)
    requires a <= b + {x}
    ensures |a| <= |b| + 1
  {
    SubsetCard(a, b + {x});
  }

  lemma GrownCard<T>(before: set<T>, after: set<T>, out: set<T>, batch: set<T>, x: T)
    requires after <= before + {x}
    ensures |after - out - batch| <= |before - out - batch| + 1
    ensures after <= before ==> |after - out - batch| <= |before - out - batch|
  {
    GrownBy(after - out - batch, before - out - batch, x);
    if after <= before {
      SubsetCard(after - out - batch, before - out - batch);
    }
  }

  /** A row leaves the batch: it counts again only if it is ahead and not left out of account. */
  lemma PoppedCard<T>(before: set<T>, after: set<T>, out: set<T>, batch: set<T>, rest: set<T>, head: T)
    requires batch == rest + {head} && after <= before + {head}
    ensures |after - out - rest| <= |before - out - batch| + 1
    ensures head in out || head !in after ==> |after - out - rest| <= |before - out - batch|
  {
    GrownBy(after - out - rest, before - out - batch, head);
    if head in out || head !in after {
      SubsetCard(after - out - rest, before - out - batch);
    }
  }

  /** Taking `taken` out of the rows ahead removes at least `|taken| − |stuck|` that are not stuck. */
  lemma TakenRivals<T>(ahead: set<T>, taken: set<T>, stuck: set<T>)
    requires taken <= ahead
    ensures |ahead - stuck - taken| + (|taken| - |stuck|) <= |ahead - stuck|
  {
    var eff := taken - stuck;
    assert taken == eff + (taken * stuck);
    SubsetCard(taken * stuck, stuck);
    assert ahead - stuck == (ahead - stuck - taken) + eff;
  }
}
