/** Zone tariffs and losses: hard-coded defaults behind a cache of rates that can be reloaded.
    Zone ids stay within half the 32-bit range, so distances do not overflow. */
module GridTopology {
  import opened Prelude

  newtype ZoneId = z: int | -0x4000_0000 <= z < 0x4000_0000

  function Distance(a: ZoneId, b: ZoneId): nat {
    if a >= b then a as int - b as int else b as int - a as int
  }

  /** The default tariff as a function of distance alone. */
  function ChargeAt(d: nat): real {
    if d == 0 then 0.50 else if d == 1 then 1.00 else 1.50 + d as real * 0.1
  }

  function LossAt(d: nat): real {
    if d == 0 then 0.01
    else if d == 1 then 0.03
    else
      var loss := 0.03 + d as real * 0.01;
      if loss < 0.15 then loss else 0.15
  }

  const UNKNOWN_CHARGE := 2.00
  const UNKNOWN_LOSS := 0.05

  function DefaultCharge(a: Option<ZoneId>, b: Option<ZoneId>): real {
    if a.Some? && b.Some? then ChargeAt(Distance(a.value, b.value)) else UNKNOWN_CHARGE
  }

  function DefaultLoss(a: Option<ZoneId>, b: Option<ZoneId>): real {
    if a.Some? && b.Some? then LossAt(Distance(a.value, b.value)) else UNKNOWN_LOSS
  }

  /** The share of the energy that arrives. */
  function Delivered(loss: real): real {
    1.0 - loss
  }

  // ---------------------------------------------------------------- the default tariff

  lemma Triangle(a: ZoneId, b: ZoneId, c: ZoneId)
    ensures Distance(a, c) <= Distance(a, b) + Distance(b, c)
    ensures Distance(a, b) == Distance(b, a)
  {
  }

  lemma ChargeGrows(d: nat, e: nat)
    requires d <= e
    ensures ChargeAt(d) <= ChargeAt(e)
  {
  }

  lemma LossGrows(d: nat, e: nat)
    requires d <= e
    ensures LossAt(d) <= LossAt(e) && 0.01 <= LossAt(d) <= 0.15
  {
  }

  lemma ChargeSubadditive(d: nat, e: nat)
    ensures ChargeAt(d + e) <= ChargeAt(d) + ChargeAt(e)
  {
  }

  /** The loss over two hops. */
  function Compound(l: real, m: real): real {
    l + m - l * m
  }

  /** One hop more never costs less than the losses of its parts combined. */
  lemma LossCompounds(d: nat, e: nat)
    ensures LossAt(d + e) <= Compound(LossAt(d), LossAt(e))
  {
    var l, m := LossAt(d), LossAt(e);
    LossGrows(d, d);
    LossGrows(e, e);
    assert l * m <= 0.15 * m && l * m <= 0.15 * l;
    assert (d + e) as real == d as real + e as real;
    if d == 0 || e == 0 {
      assert d == 0 ==> l * m == 0.01 * m;
      assert e == 0 ==> l * m == l * 0.01;
    }
  }

  lemma DeliveredBound(l: real, m: real, n: real)
    requires n <= Compound(l, m)
    ensures Relayed(l, m) <= Delivered(n)
  {
  }

  /** The energy share delivered over two hops. */
  function Relayed(l: real, m: real): real {
    Delivered(l) * Delivered(m)
  }

  lemma RelayedAt(d: nat, e: nat, f: nat)
    requires f <= d + e
    ensures Relayed(LossAt(d), LossAt(e)) <= Delivered(LossAt(f))
  {
    LossGrows(f, d + e);
    LossCompounds(d, e);
    DeliveredBound(LossAt(d), LossAt(e), LossAt(f));
  }

  /** Relaying through a third zone never pays: it is no cheaper and delivers no more. */
  lemma RelayingNeverPays(a: ZoneId, b: ZoneId, c: ZoneId)
    ensures DefaultCharge(Some(a), Some(c)) <= DefaultCharge(Some(a), Some(b)) + DefaultCharge(Some(b), Some(c))
    ensures Relayed(DefaultLoss(Some(a), Some(b)), DefaultLoss(Some(b), Some(c)))
            <= Delivered(DefaultLoss(Some(a), Some(c)))
  {
    var d, e, f := Distance(a, b), Distance(b, c), Distance(a, c);
    Triangle(a, b, c);
    ChargeGrows(f, d + e);
    ChargeSubadditive(d, e);
    RelayedAt(d, e, f);
  }

  /** The default tables in numbers: the same zone, the next one, further away with the loss capped at
      15 percent from twelve zones on, and an unknown end. */
  lemma TariffInNumbers(a: ZoneId, b: ZoneId)
    ensures a == b ==> DefaultCharge(Some(a), Some(b)) == 0.50 && DefaultLoss(Some(a), Some(b)) == 0.01
    ensures var d := b as int - a as int;
            && (d == 1 ==> DefaultCharge(Some(a), Some(b)) == 1.00 && DefaultLoss(Some(a), Some(b)) == 0.03)
            && (d >= 2 ==> DefaultCharge(Some(a), Some(b)) == 1.50 + 0.1 * d as real)
            && (2 <= d <= 12 ==> DefaultLoss(Some(a), Some(b)) == 0.03 + 0.01 * d as real)
            && (d >= 12 ==> DefaultLoss(Some(a), Some(b)) == 0.15)
    ensures DefaultCharge(None, Some(b)) == DefaultCharge(Some(a), None) == DefaultCharge(None, None) == 2.00
    ensures DefaultLoss(None, Some(b)) == DefaultLoss(Some(a), None) == DefaultLoss(None, None) == 0.05
  {
  }

  /** Both tables are symmetric and grow with distance, and the loss stays within [0.01, 0.15]. */
  lemma TariffShape(a: ZoneId, b: ZoneId, c: ZoneId)
    ensures DefaultCharge(Some(a), Some(b)) == DefaultCharge(Some(b), Some(a))
    ensures DefaultLoss(Some(a), Some(b)) == DefaultLoss(Some(b), Some(a))
    ensures Distance(a, b) <= Distance(a, c) ==>
              && DefaultCharge(Some(a), Some(b)) <= DefaultCharge(Some(a), Some(c))
              && DefaultLoss(Some(a), Some(b)) <= DefaultLoss(Some(a), Some(c))
    ensures 0.01 <= DefaultLoss(Some(a), Some(b)) <= 0.15
  {
  }

  /** Through a zone the service does not know, relaying is cheaper exactly beyond distance 25,
      and delivers more exactly from distance 7 on. */
  lemma RelayingThroughUnknown(a: ZoneId, c: ZoneId)
    ensures DefaultCharge(Some(a), Some(c)) <= DefaultCharge(Some(a), None) + DefaultCharge(None, Some(c))
            <==> Distance(a, c) <= 25
    ensures Relayed(DefaultLoss(Some(a), None), DefaultLoss(None, Some(c)))
            <= Delivered(DefaultLoss(Some(a), Some(c)))
            <==> Distance(a, c) <= 6
  {
  }

  // ---------------------------------------------------------------- the rate cache

  datatype Rate = Rate(source: ZoneId, target: ZoneId, charge: real, loss: real)

  type Cache = map<(ZoneId, ZoneId), Rate>

  /** What a load of `rows` leaves in the cache. */
  function CacheOf(rows: seq<Rate>): Cache {
    if rows == [] then map[]
    else
      var r := rows[|rows| - 1];
      CacheOf(rows[..|rows| - 1])[(r.source, r.target) := r]
  }

  /** The last row for a pair of zones, found by searching the rows. */
  function LastRow(rows: seq<Rate>, a: ZoneId, b: ZoneId): Option<Rate> {
    if rows == [] then None
    else if rows[|rows| - 1].source == a && rows[|rows| - 1].target == b then Some(rows[|rows| - 1])
    else LastRow(rows[..|rows| - 1], a, b)
  }

  lemma {:induction false} CacheFindsLastRow(rows: seq<Rate>, a: ZoneId, b: ZoneId)
    ensures (a, b) in CacheOf(rows) <==> LastRow(rows, a, b).Some?
    ensures (a, b) in CacheOf(rows) ==> CacheOf(rows)[(a, b)] == LastRow(rows, a, b).value
    ensures LastRow(rows, a, b).Some? ==>
              exists i :: && 0 <= i < |rows| && rows[i] == LastRow(rows, a, b).value
                          && rows[i].source == a && rows[i].target == b
                          && forall j :: i < j < |rows| ==> !(rows[j].source == a && rows[j].target == b)
    ensures LastRow(rows, a, b).None? ==> forall i :: 0 <= i < |rows| ==> !(rows[i].source == a && rows[i].target == b)
  {
    if rows == [] {
    } else {
      var n := |rows| - 1;
      CacheFindsLastRow(rows[..n], a, b);
      if rows[n].source == a && rows[n].target == b {
        assert rows[n] == LastRow(rows, a, b).value;
      } else if LastRow(rows[..n], a, b).Some? {
        var i :| && 0 <= i < n && rows[..n][i] == LastRow(rows[..n], a, b).value
                 && rows[..n][i].source == a && rows[..n][i].target == b
                 && forall j :: i < j < n ==> !(rows[..n][j].source == a && rows[..n][j].target == b);
        assert rows[i] == rows[..n][i];
        assert forall j :: i < j < n ==> rows[..n][j] == rows[j];
      } else {
        assert forall i :: 0 <= i < n ==> rows[..n][i] == rows[i];
      }
    }
  }

  /** What a load attempt meets: no database, a failing query, or rows. */
  datatype LoadOutcome = NoPool | QueryFails | Rows(rows: seq<Rate>)

  /** The rows of the last successful load; before any, there are none. */
  function LastLoaded(history: seq<LoadOutcome>): seq<Rate> {
    if history == [] then []
    else if history[|history| - 1].Rows? then history[|history| - 1].rows
    else LastLoaded(history[..|history| - 1])
  }

  datatype Loaded = Count(n: nat) | DatabaseError

  class GridTopologyService {
    var cache: Cache
    /** Every load so far, for the specification. */
    ghost var history: seq<LoadOutcome>

    ghost predicate Valid()
      reads this
    {
      cache == CacheOf(LastLoaded(history))
    }

    constructor ()
      ensures Valid() && history == []
    {
      cache, history := map[], [];
    }

    /** Replace the cache by the rows of the query; a failed query leaves it alone. */
    method LoadRates(o: LoadOutcome) returns (r: Loaded)
      requires Valid()
      modifies this
      ensures Valid() && history == old(history) + [o]
      ensures r == (match o case NoPool => Count(0) case QueryFails => DatabaseError case Rows(rows) => Count(|rows|))
      ensures !o.Rows? ==> cache == old(cache) && LastLoaded(history) == LastLoaded(old(history))
      ensures o.Rows? ==> LastLoaded(history) == o.rows
    {
      history := history + [o];
      assert history[..|history| - 1] == old(history);
      match o
      case NoPool => r := Count(0);
      case QueryFails => r := DatabaseError;
      case Rows(rows) =>
        cache := map[];
        var i := 0;
        while i < |rows|
          invariant 0 <= i <= |rows|
          invariant cache == CacheOf(rows[..i])
          invariant history == old(history) + [o]
        {
          assert rows[..i + 1][..i] == rows[..i];
          cache := cache[(rows[i].source, rows[i].target) := rows[i]];
          i := i + 1;
        }
        assert rows[..i] == rows;
        r := Count(|rows|);
    }

    /** Each lookup answers from the last row of the last successful load, else from the default. */
    method WheelingChargeAsync(a: Option<ZoneId>, b: Option<ZoneId>) returns (charge: real)
      requires Valid()
      ensures charge == ChargeFrom(LastLoaded(history), a, b)
    {
      if a.Some? && b.Some? {
        CacheFindsLastRow(LastLoaded(history), a.value, b.value);
        if (a.value, b.value) in cache {
          return cache[(a.value, b.value)].charge;
        }
      }
      charge := DefaultCharge(a, b);
    }

    method LossFactorAsync(a: Option<ZoneId>, b: Option<ZoneId>) returns (loss: real)
      requires Valid()
      ensures loss == LossFrom(LastLoaded(history), a, b)
    {
      if a.Some? && b.Some? {
        CacheFindsLastRow(LastLoaded(history), a.value, b.value);
        if (a.value, b.value) in cache {
          return cache[(a.value, b.value)].loss;
        }
      }
      loss := DefaultLoss(a, b);
    }
  }

  function ChargeFrom(rows: seq<Rate>, a: Option<ZoneId>, b: Option<ZoneId>): real {
    if a.Some? && b.Some? && LastRow(rows, a.value, b.value).Some?
    then LastRow(rows, a.value, b.value).value.charge else DefaultCharge(a, b)
  }

  function LossFrom(rows: seq<Rate>, a: Option<ZoneId>, b: Option<ZoneId>): real {
    if a.Some? && b.Some? && LastRow(rows, a.value, b.value).Some?
    then LastRow(rows, a.value, b.value).value.loss else DefaultLoss(a, b)
  }

  /** Loads that fail, or run without a database, change no answer, however many there are. */
  lemma {:induction false} FailedLoadsChangeNothing(history: seq<LoadOutcome>, failed: seq<LoadOutcome>)
    requires forall i :: 0 <= i < |failed| ==> !failed[i].Rows?
    ensures LastLoaded(history + failed) == LastLoaded(history)
    decreases |failed|
  {
    if failed == [] {
      assert history + failed == history;
    } else {
      var n := |failed| - 1;
      FailedLoadsChangeNothing(history, failed[..n]);
      assert (history + failed)[..|history| + n] == history + failed[..n];
    }
  }

  /** Charge and loss come from one of `rows`, or, if none is for the pair, both from the defaults. */
  ghost predicate FromOneRow(rows: seq<Rate>, a: Option<ZoneId>, b: Option<ZoneId>, charge: real, loss: real) {
    || (exists i :: && 0 <= i < |rows| && Some(rows[i].source) == a && Some(rows[i].target) == b
                    && rows[i].charge == charge && rows[i].loss == loss)
    || (&& (forall i :: 0 <= i < |rows| ==> !(Some(rows[i].source) == a && Some(rows[i].target) == b))
        && charge == DefaultCharge(a, b) && loss == DefaultLoss(a, b))
  }

  /** Charge and loss are two lookups, and loads may fall in between. As long as none of those
      succeeds, both answers come from one row of the last successful load, or both are defaults. */
  lemma ChargeAndLossFromOneRow(history: seq<LoadOutcome>, between: seq<LoadOutcome>, a: Option<ZoneId>, b: Option<ZoneId>)
    requires forall i :: 0 <= i < |between| ==> !between[i].Rows?
    ensures FromOneRow(LastLoaded(history), a, b,
                       ChargeFrom(LastLoaded(history), a, b), LossFrom(LastLoaded(history + between), a, b))
  {
    FailedLoadsChangeNothing(history, between);
    if a.Some? && b.Some? {
      CacheFindsLastRow(LastLoaded(history), a.value, b.value);
    }
  }

  /** A load that succeeds in between can mix any charge of one load with any loss of the next. */
  lemma ReloadMixesRows(history: seq<LoadOutcome>, earlier: Rate, later: Rate)
    requires earlier.source == later.source && earlier.target == later.target
    ensures var first := history + [Rows([earlier])]; var a, b := Some(earlier.source), Some(earlier.target);
            && ChargeFrom(LastLoaded(first), a, b) == earlier.charge
            && LossFrom(LastLoaded(first + [Rows([later])]), a, b) == later.loss
  {
  }

  // ---------------------------------------------------------------- the rates shipped with the schema

  function Pair(a: ZoneId, b: ZoneId, charge: real, loss: real): seq<Rate> {
    [Rate(a, b, charge, loss), Rate(b, a, charge, loss)]
  }

  /** The rows the migration inserts for zones 1 to 5. */
  const SEED: seq<Rate> :=
    [Rate(1, 1, 0.50, 0.01), Rate(2, 2, 0.50, 0.01), Rate(3, 3, 0.50, 0.01), Rate(4, 4, 0.50, 0.01), Rate(5, 5, 0.50, 0.01)] +
    Pair(1, 2, 1.00, 0.03) + Pair(2, 3, 1.00, 0.03) + Pair(3, 4, 1.00, 0.03) + Pair(4, 5, 1.00, 0.03) +
    Pair(1, 3, 1.70, 0.05) + Pair(2, 4, 1.70, 0.05) + Pair(3, 5, 1.70, 0.05)

  predicate IsDefault(r: Rate) {
    r.charge == ChargeAt(Distance(r.source, r.target)) && r.loss == LossAt(Distance(r.source, r.target))
  }

  lemma SeedIsDefault()
    ensures forall i :: 0 <= i < |SEED| ==> IsDefault(SEED[i])
  {
  }

  /** Loading the shipped rates changes no answer, for any pair of zones, known or not. */
  lemma SeedChangesNothing(a: Option<ZoneId>, b: Option<ZoneId>)
    ensures ChargeFrom(SEED, a, b) == DefaultCharge(a, b)
    ensures LossFrom(SEED, a, b) == DefaultLoss(a, b)
  {
    if a.Some? && b.Some? {
      SeedIsDefault();
      CacheFindsLastRow(SEED, a.value, b.value);
    }
  }
}
