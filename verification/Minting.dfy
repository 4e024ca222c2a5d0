/** Minting tokens from meter readings: read the row, mint on chain, mark the row. The three
    steps of a request are separate, so requests for the same reading can interleave. */
module Minting {
  import opened Prelude

  type Id = int
  type UserId = int
  type RequestId = int
  type Signature = int

  datatype Reading = Reading(
    user: Option<UserId>,
    wallet: string,
    kwh: Option<real>,
    minted: Option<bool>,
    signature: Option<Signature>)

  /** Who asks: an administrator, or a user for a reading of their own. */
  datatype Caller = Admin | Owner(user: UserId)

  /** A mint that happened on chain, with the reading and the caller of the request behind it. */
  datatype Mint = Mint(signature: Signature, reading: Id, wallet: string, amount: real, caller: Caller)

  /** A request that has passed its checks, or has minted and not yet marked. */
  datatype Request =
    | Checked(reading: Id, wallet: string, amount: real, caller: Caller)
    | Minted(reading: Id, signature: Signature)

  datatype State = State(readings: map<Id, Reading>, chain: seq<Mint>, requests: map<RequestId, Request>)

  predicate IsMinted(r: Reading) {
    r.minted.UnwrapOr(false)
  }

  datatype Reply = Accepted | NotFound | NoOwner | Forbidden | AlreadyMinted | NoAmount | InternalError

  /** The checks before minting, in the order the handlers make them. */
  function Check(readings: map<Id, Reading>, id: Id, c: Caller): Reply {
    if id !in readings then NotFound
    else if c.Owner? && readings[id].user.None? then NoOwner
    else if c.Owner? && readings[id].user.value != c.user then Forbidden
    else if IsMinted(readings[id]) then AlreadyMinted
    else if readings[id].kwh.None? then NoAmount
    else Accepted
  }

  datatype Action =
    | Read(req: RequestId, id: Id, caller: Caller)
    | MintOk(req: RequestId, signature: Signature)
    | MintFails(req: RequestId)
    | Mark(req: RequestId)
    | MarkFails(req: RequestId)

  ghost predicate Enabled(s: State, a: Action) {
    match a
    case Read(req, _, _) => req !in s.requests
    case MintOk(req, sig) => req in s.requests && s.requests[req].Checked? && FreshSignature(s.chain, sig)
    case MintFails(req) => req in s.requests && s.requests[req].Checked?
    case Mark(req) => req in s.requests && s.requests[req].Minted?
    case MarkFails(req) => req in s.requests && s.requests[req].Minted?
  }

  ghost predicate FreshSignature(chain: seq<Mint>, sig: Signature) {
    forall i :: 0 <= i < |chain| ==> chain[i].signature != sig
  }

  function MarkedRow(r: Reading, sig: Signature): Reading {
    r.(minted := Some(true), signature := Some(sig))
  }

  /** `UPDATE meter_readings … WHERE id = …`, which finds no row if there is none. */
  function Marked(readings: map<Id, Reading>, id: Id, sig: Signature): map<Id, Reading> {
    if id in readings then readings[id := MarkedRow(readings[id], sig)] else readings
  }

  ghost function Next(s: State, a: Action): State
    requires Enabled(s, a)
  {
    match a
    case Read(req, id, c) =>
      if Check(s.readings, id, c) != Accepted then s
      else s.(requests := s.requests[req := Checked(id, s.readings[id].wallet, s.readings[id].kwh.value, c)])
    case MintOk(req, sig) =>
      var q := s.requests[req];
      s.(chain := s.chain + [Mint(sig, q.reading, q.wallet, q.amount, q.caller)],
         requests := s.requests[req := Minted(q.reading, sig)])
    case MintFails(req) => s.(requests := s.requests - {req})
    case Mark(req) =>
      var q := s.requests[req];
      State(Marked(s.readings, q.reading, q.signature), s.chain, s.requests - {req})
    case MarkFails(req) => s.(requests := s.requests - {req})
  }

  ghost predicate Valid(s: State, run: seq<Action>)
    decreases |run|
  {
    run == [] || (Enabled(s, run[0]) && Valid(Next(s, run[0]), run[1..]))
  }

  ghost function After(s: State, run: seq<Action>): State
    requires Valid(s, run)
    decreases |run|
  {
    if run == [] then s else After(Next(s, run[0]), run[1..])
  }

  lemma RunCons(s: State, a: Action, rest: seq<Action>) returns (run: seq<Action>)
    requires Enabled(s, a) && Valid(Next(s, a), rest)
    ensures run == [a] + rest && Valid(s, run) && After(s, run) == After(Next(s, a), rest)
  {
    run := [a] + rest;
    assert run[1..] == rest;
  }

  /** Nothing minted yet; readings are non-negative. */
  ghost predicate Initial(s: State) {
    && s.chain == [] && s.requests == map[]
    && forall id :: id in s.readings ==>
         !IsMinted(s.readings[id]) && (s.readings[id].kwh.Some? ==> s.readings[id].kwh.value >= 0.0)
  }

  // ---------------------------------------------------------------- sums

  function Amount(readings: map<Id, Reading>, id: Id): real {
    if id in readings then readings[id].kwh.UnwrapOr(0.0) else 0.0
  }

  ghost function SumOver(readings: map<Id, Reading>, ids: set<Id>): real
    decreases |ids|
  {
    if ids == {} then 0.0
    else
      var id := Pick(ids);
      Amount(readings, id) + SumOver(readings, ids - {id})
  }

  function Supply(chain: seq<Mint>): real {
    if chain == [] then 0.0 else Supply(chain[..|chain| - 1]) + chain[|chain| - 1].amount
  }

  /** The readings some mint was made for. */
  function MintedReadings(chain: seq<Mint>): set<Id> {
    set i | 0 <= i < |chain| :: chain[i].reading
  }

  function MarkedReadings(readings: map<Id, Reading>): set<Id> {
    set id | id in readings && IsMinted(readings[id])
  }

  lemma {:induction false} SumRemove(readings: map<Id, Reading>, ids: set<Id>, x: Id)
    requires x in ids
    ensures SumOver(readings, ids) == Amount(readings, x) + SumOver(readings, ids - {x})
    decreases |ids|
  {
    var y := Pick(ids);
    if y != x {
      SumRemove(readings, ids - {y}, x);
      SumRemove(readings, ids - {x}, y);
      assert ids - {y} - {x} == ids - {x} - {y};
    }
  }

  lemma {:induction false} SumSubset(readings: map<Id, Reading>, a: set<Id>, b: set<Id>)
    requires a <= b && forall id :: id in b ==> Amount(readings, id) >= 0.0
    ensures SumOver(readings, a) <= SumOver(readings, b)
    decreases |b|
  {
    if b == {} {
    } else {
      var x := Pick(b);
      SumSubset(readings, a - {x}, b - {x});
      if x in a {
        SumRemove(readings, a, x);
      } else {
        assert a - {x} == a;
      }
    }
  }

  lemma MintedSnoc(chain: seq<Mint>, m: Mint)
    ensures MintedReadings(chain + [m]) == MintedReadings(chain) + {m.reading}
  {
    var all := chain + [m];
    assert all[|chain|] == m;
    forall x | x in MintedReadings(chain) ensures x in MintedReadings(all) {
      var i :| 0 <= i < |chain| && chain[i].reading == x;
      assert all[i].reading == x;
    }
  }

  /** Every mint is for the recorded amount of a known, non-negative reading. */
  ghost predicate Honest(readings: map<Id, Reading>, chain: seq<Mint>) {
    forall i :: 0 <= i < |chain| ==>
      chain[i].reading in readings && chain[i].amount == Amount(readings, chain[i].reading) >= 0.0
  }

  ghost predicate OncePerReading(chain: seq<Mint>) {
    forall i, j :: 0 <= i < j < |chain| ==> chain[i].reading != chain[j].reading
  }

  /** The supply covers each minted reading at least once, and exactly once if none repeats. */
  lemma {:induction false} SupplyCovers(readings: map<Id, Reading>, chain: seq<Mint>)
    requires Honest(readings, chain)
    ensures SumOver(readings, MintedReadings(chain)) <= Supply(chain)
    ensures OncePerReading(chain) ==> SumOver(readings, MintedReadings(chain)) == Supply(chain)
  {
    if chain == [] {
      assert MintedReadings(chain) == {};
    } else {
      var n := |chain| - 1;
      var init, m := chain[..n], chain[n];
      assert chain == init + [m];
      SupplyCovers(readings, init);
      MintedSnoc(init, m);
      var ids := MintedReadings(chain);
      SumRemove(readings, ids, m.reading);
      if m.reading in MintedReadings(init) {
        assert ids == MintedReadings(init);
        var i :| 0 <= i < |init| && init[i].reading == m.reading;
        assert chain[i].reading == chain[n].reading;
      } else {
        assert ids - {m.reading} == MintedReadings(init);
      }
    }
  }

  // ---------------------------------------------------------------- what every step keeps

  ghost predicate RequestOk(s: State, q: Request) {
    && q.reading in s.readings
    && match q
       case Checked(id, w, amt, _) => s.readings[id].wallet == w && s.readings[id].kwh == Some(amt) && amt >= 0.0
       case Minted(id, sig) => OnChain(s, id, sig)
  }

  predicate IsMintOf(m: Mint, id: Id, r: Reading, sig: Signature) {
    m.signature == sig && m.reading == id && m.wallet == r.wallet && Some(m.amount) == r.kwh
  }

  /** The chain holds a mint with this signature, for the reading's own amount and wallet. */
  ghost predicate OnChain(s: State, id: Id, sig: Signature) {
    && id in s.readings && s.readings[id].kwh.Some?
    && exists i :: 0 <= i < |s.chain| && IsMintOf(s.chain[i], id, s.readings[id], sig)
  }

  ghost predicate RowOk(s: State, id: Id) {
    && id in s.readings
    && (s.readings[id].kwh.Some? ==> s.readings[id].kwh.value >= 0.0)
    && (IsMinted(s.readings[id]) ==>
          s.readings[id].signature.Some? && OnChain(s, id, s.readings[id].signature.value))
  }

  ghost predicate Inv(s: State) {
    && Honest(s.readings, s.chain)
    && (forall id :: id in s.readings ==> RowOk(s, id))
    && (forall req :: req in s.requests ==> RequestOk(s, s.requests[req]))
  }

  /** Later states keep the amounts and wallets of readings, and the chain only grows. */
  ghost predicate Extends(s: State, t: State) {
    && s.chain <= t.chain && s.readings.Keys == t.readings.Keys
    && forall id :: id in s.readings ==>
         && t.readings[id].wallet == s.readings[id].wallet && t.readings[id].kwh == s.readings[id].kwh
         && t.readings[id].user == s.readings[id].user
  }

  lemma OnChainKept(s: State, t: State, id: Id, sig: Signature)
    requires Extends(s, t) && OnChain(s, id, sig)
    ensures OnChain(t, id, sig)
  {
  }

  lemma RequestKept(s: State, t: State, q: Request)
    requires Extends(s, t) && RequestOk(s, q)
    ensures RequestOk(t, q)
  {
  }

  lemma StepExtends(s: State, a: Action)
    requires Enabled(s, a)
    ensures Extends(s, Next(s, a))
  {
  }

  lemma MintKeepsRequests(s: State, req: RequestId, sig: Signature)
    requires Inv(s) && Enabled(s, MintOk(req, sig))
    ensures var t := Next(s, MintOk(req, sig)); forall r :: r in t.requests ==> RequestOk(t, t.requests[r])
  {
    var t := Next(s, MintOk(req, sig));
    forall r | r in t.requests ensures RequestOk(t, t.requests[r]) {
      if r == req {
        var q := s.requests[req];
        assert RequestOk(s, q);
        assert IsMintOf(t.chain[|s.chain|], q.reading, t.readings[q.reading], sig);
      } else {
        RequestKept(s, t, s.requests[r]);
      }
    }
  }

  lemma StepKeepsRequests(s: State, a: Action)
    requires Inv(s) && Enabled(s, a)
    ensures var t := Next(s, a); forall r :: r in t.requests ==> RequestOk(t, t.requests[r])
  {
    var t := Next(s, a);
    StepExtends(s, a);
    if a.MintOk? {
      MintKeepsRequests(s, a.req, a.signature);
    } else {
      forall r | r in t.requests ensures RequestOk(t, t.requests[r]) {
        if r in s.requests {
          RequestKept(s, t, s.requests[r]);
        } else {
          assert RowOk(s, a.id);
        }
      }
    }
  }

  lemma StepKeepsRows(s: State, a: Action, id: Id)
    requires Inv(s) && Enabled(s, a) && id in s.readings
    ensures RowOk(Next(s, a), id)
  {
    var t := Next(s, a);
    StepExtends(s, a);
    assert RowOk(s, id);
    if a.Mark? && s.requests[a.req].reading == id {
      assert RequestOk(s, s.requests[a.req]);
      OnChainKept(s, t, id, s.requests[a.req].signature);
    } else if IsMinted(s.readings[id]) {
      OnChainKept(s, t, id, s.readings[id].signature.value);
    }
  }

  lemma StepKeepsHonest(s: State, a: Action)
    requires Inv(s) && Enabled(s, a)
    ensures Honest(Next(s, a).readings, Next(s, a).chain)
  {
  }

  lemma StepKeepsInv(s: State, a: Action)
    requires Inv(s) && Enabled(s, a)
    ensures Inv(Next(s, a))
  {
    StepExtends(s, a);
    StepKeepsHonest(s, a);
    StepKeepsRequests(s, a);
    forall id | id in Next(s, a).readings ensures RowOk(Next(s, a), id) {
      StepKeepsRows(s, a, id);
    }
  }

  lemma {:induction false} RunKeepsInv(s: State, run: seq<Action>)
    requires Inv(s) && Valid(s, run)
    ensures Inv(After(s, run))
    decreases |run|
  {
    if run == [] {
    } else {
      StepKeepsInv(s, run[0]);
      RunKeepsInv(Next(s, run[0]), run[1..]);
    }
  }

  lemma MarkedAreMinted(s: State)
    requires Inv(s)
    ensures MarkedReadings(s.readings) <= MintedReadings(s.chain)
  {
    forall id | id in MarkedReadings(s.readings) ensures id in MintedReadings(s.chain) {
      assert RowOk(s, id);
      var i :| 0 <= i < |s.chain| && IsMintOf(s.chain[i], id, s.readings[id], s.readings[id].signature.value);
      assert s.chain[i].reading == id;
    }
  }

  /** In every interleaving: a reading marked minted carries the signature of a mint of its own
      amount to its own wallet, and the minted supply covers all marked readings. */
  lemma MarkedReadingsAreBacked(s: State, run: seq<Action>)
    requires Initial(s) && Valid(s, run)
    ensures var t := After(s, run);
            && (forall id :: id in MarkedReadings(t.readings) ==>
                  t.readings[id].signature.Some? && OnChain(t, id, t.readings[id].signature.value))
            && SumOver(t.readings, MarkedReadings(t.readings)) <= Supply(t.chain)
  {
    RunKeepsInv(s, run);
    var t := After(s, run);
    forall id | id in MarkedReadings(t.readings)
      ensures t.readings[id].signature.Some? && OnChain(t, id, t.readings[id].signature.value)
    {
      assert RowOk(t, id);
    }
    MarkedAreMinted(t);
    SupplyCovers(t.readings, t.chain);
    forall id | id in MintedReadings(t.chain) ensures Amount(t.readings, id) >= 0.0 {
      var i :| 0 <= i < |t.chain| && t.chain[i].reading == id;
    }
    SumSubset(t.readings, MarkedReadings(t.readings), MintedReadings(t.chain));
  }

  // ---------------------------------------------------------------- who may mint

  predicate Entitled(r: Reading, c: Caller) {
    c == Admin || r.user == Some(c.user)
  }

  /** Every request that passed its checks, and every mint, was asked for by someone entitled to it. */
  ghost predicate Authorised(s: State) {
    && (forall req :: req in s.requests && s.requests[req].Checked? ==>
          s.requests[req].reading in s.readings && Entitled(s.readings[s.requests[req].reading], s.requests[req].caller))
    && (forall i :: 0 <= i < |s.chain| ==>
          s.chain[i].reading in s.readings && Entitled(s.readings[s.chain[i].reading], s.chain[i].caller))
  }

  lemma StepKeepsAuthorised(s: State, a: Action)
    requires Authorised(s) && Enabled(s, a)
    ensures Authorised(Next(s, a))
  {
    StepExtends(s, a);
  }

  lemma {:induction false} RunKeepsAuthorised(s: State, run: seq<Action>)
    requires Authorised(s) && Valid(s, run)
    ensures Authorised(After(s, run)) && Extends(s, After(s, run))
    decreases |run|
  {
    if run == [] {
    } else {
      StepExtends(s, run[0]);
      StepKeepsAuthorised(s, run[0]);
      RunKeepsAuthorised(Next(s, run[0]), run[1..]);
    }
  }

  /** In every interleaving each mint was asked for by an administrator or by the user the reading
      belonged to at the start. */
  lemma MintsAreAuthorised(s: State, run: seq<Action>, i: nat)
    requires Initial(s) && Valid(s, run) && i < |After(s, run).chain|
    ensures var m := After(s, run).chain[i];
            m.reading in s.readings && (m.caller == Admin || s.readings[m.reading].user == Some(m.caller.user))
  {
    RunKeepsAuthorised(s, run);
    var t := After(s, run);
    assert Entitled(t.readings[t.chain[i].reading], t.chain[i].caller);
  }

  /** The first check that fails decides the reply. */
  lemma CheckExact(readings: map<Id, Reading>, id: Id, c: Caller)
    ensures Check(readings, id, c) == NotFound <==> id !in readings
    ensures Check(readings, id, c) == NoOwner <==> id in readings && c != Admin && readings[id].user == None
    ensures Check(readings, id, c) == Forbidden <==>
              id in readings && c != Admin && readings[id].user.Some? && readings[id].user.value != c.user
    ensures Check(readings, id, c) == AlreadyMinted <==>
              id in readings && Entitled(readings[id], c) && readings[id].minted == Some(true)
    ensures Check(readings, id, c) == NoAmount <==>
              id in readings && Entitled(readings[id], c) && readings[id].minted != Some(true) && readings[id].kwh == None
    ensures Check(readings, id, c) == Accepted <==>
              id in readings && Entitled(readings[id], c) && readings[id].minted != Some(true) && readings[id].kwh.Some?
  {
  }

  // ---------------------------------------------------------------- without overlap

  ghost predicate InFlight(s: State, id: Id) {
    exists req :: req in s.requests && s.requests[req].reading == id
  }

  /** No request for reading `x` passes its checks while another one is under way, and no mark of
      `x` is lost. What happens to other readings does not matter. */
  ghost predicate CarefulStep(s: State, a: Action, x: Id)
    requires Enabled(s, a)
  {
    && (a.Read? && a.id == x && Check(s.readings, x, a.caller) == Accepted ==> !InFlight(s, x))
    && (a.MarkFails? ==> s.requests[a.req].reading != x)
  }

  ghost predicate Careful(s: State, run: seq<Action>, x: Id)
    requires Valid(s, run)
    decreases |run|
  {
    run == [] || (CarefulStep(s, run[0], x) && Careful(Next(s, run[0]), run[1..], x))
  }

  ghost predicate AtMostOnce(chain: seq<Mint>, x: Id) {
    forall i, j :: 0 <= i < j < |chain| ==> !(chain[i].reading == x && chain[j].reading == x)
  }

  /** `x` is marked, or a request that minted it is about to mark it. */
  ghost predicate Settled(s: State, x: Id) {
    && x in s.readings
    && (IsMinted(s.readings[x]) || exists req :: req in s.requests && s.requests[req].Minted? && s.requests[req].reading == x)
  }

  ghost predicate SoloInv(s: State, x: Id) {
    && (forall p, q :: p in s.requests && q in s.requests && s.requests[p].reading == x && s.requests[q].reading == x ==> p == q)
    && (forall req :: req in s.requests && s.requests[req].Checked? && s.requests[req].reading == x ==>
          x !in MintedReadings(s.chain))
    && AtMostOnce(s.chain, x)
    && (x in MintedReadings(s.chain) ==> Settled(s, x))
  }

  /** A request about to mark `x` is still there unless it was the one that moved on. */
  lemma SettledKept(s: State, t: State, x: Id, req: RequestId)
    requires Settled(s, x) && s.readings.Keys == t.readings.Keys && (IsMinted(s.readings[x]) ==> IsMinted(t.readings[x]))
    requires forall q :: q in s.requests && q != req ==> q in t.requests && t.requests[q] == s.requests[q]
    requires req in s.requests && s.requests[req].Minted? ==> s.requests[req].reading != x || IsMinted(t.readings[x])
    ensures Settled(t, x)
  {
  }

  lemma ReadKeepsSolo(s: State, a: Action, x: Id)
    requires SoloInv(s, x) && Enabled(s, a) && a.Read? && CarefulStep(s, a, x)
    ensures SoloInv(Next(s, a), x)
  {
    if x in MintedReadings(s.chain) {
      SettledKept(s, Next(s, a), x, a.req);
    }
  }

  lemma MintKeepsSolo(s: State, req: RequestId, sig: Signature, x: Id)
    requires Inv(s) && SoloInv(s, x) && Enabled(s, MintOk(req, sig))
    ensures SoloInv(Next(s, MintOk(req, sig)), x)
  {
    var t := Next(s, MintOk(req, sig));
    MintedSnoc(s.chain, t.chain[|s.chain|]);
    assert RequestOk(s, s.requests[req]);
    if s.requests[req].reading == x {
      assert t.requests[req].Minted? && t.requests[req].reading == x;
    } else if x in MintedReadings(s.chain) {
      SettledKept(s, t, x, req);
    }
    forall i, j | 0 <= i < j < |t.chain| ensures !(t.chain[i].reading == x && t.chain[j].reading == x) {
      assert t.chain[i] == s.chain[i] && s.chain[i].reading in MintedReadings(s.chain);
    }
  }

  /** A mark that succeeds, a mint that fails, and a lost mark of another reading. */
  lemma FinishKeepsSolo(s: State, a: Action, x: Id)
    requires SoloInv(s, x) && Enabled(s, a) && !a.Read? && !a.MintOk? && CarefulStep(s, a, x)
    ensures SoloInv(Next(s, a), x)
  {
    if x in MintedReadings(s.chain) {
      SettledKept(s, Next(s, a), x, a.req);
    }
  }

  lemma {:induction false} CarefulKeepsSolo(s: State, run: seq<Action>, x: Id)
    requires Inv(s) && SoloInv(s, x) && Valid(s, run) && Careful(s, run, x)
    ensures SoloInv(After(s, run), x)
    decreases |run|
  {
    if run == [] {
    } else {
      var a := run[0];
      StepKeepsInv(s, a);
      if a.Read? {
        ReadKeepsSolo(s, a, x);
      } else if a.MintOk? {
        MintKeepsSolo(s, a.req, a.signature, x);
      } else {
        FinishKeepsSolo(s, a, x);
      }
      CarefulKeepsSolo(Next(s, a), run[1..], x);
    }
  }

  /** If no two accepted requests for a reading overlap and none of its marks is lost, it is minted
      at most once, and between requests it is marked exactly if it has been minted, whatever
      happens to other readings. */
  lemma MintedAtMostOnce(s: State, run: seq<Action>, x: Id)
    requires Initial(s) && Valid(s, run) && Careful(s, run, x)
    ensures var t := After(s, run);
            && AtMostOnce(t.chain, x)
            && (!InFlight(t, x) ==> (x in MintedReadings(t.chain) <==> x in MarkedReadings(t.readings)))
  {
    RunKeepsInv(s, run);
    CarefulKeepsSolo(s, run, x);
    MarkedAreMinted(After(s, run));
  }

  /** If that holds of every reading, each is minted at most once, and whenever no request is in
      flight the supply is exactly the sum of the readings marked minted. */
  lemma CarefulRunsMintOnce(s: State, run: seq<Action>)
    requires Initial(s) && Valid(s, run) && forall x :: Careful(s, run, x)
    ensures var t := After(s, run);
            && OncePerReading(t.chain)
            && (t.requests == map[] ==> Supply(t.chain) == SumOver(t.readings, MarkedReadings(t.readings)))
  {
    RunKeepsInv(s, run);
    var t := After(s, run);
    forall i, j | 0 <= i < j < |t.chain| ensures t.chain[i].reading != t.chain[j].reading {
      MintedAtMostOnce(s, run, t.chain[i].reading);
    }
    SupplyCovers(t.readings, t.chain);
    if t.requests == map[] {
      forall x ensures x in MintedReadings(t.chain) <==> x in MarkedReadings(t.readings) {
        MintedAtMostOnce(s, run, x);
      }
      assert MintedReadings(t.chain) == MarkedReadings(t.readings);
    }
  }

  // ---------------------------------------------------------------- both conditions are needed

  /** Two requests and two signatures not used before, and a reading an administrator may mint. */
  ghost predicate TwoAttempts(s: State, x: Id, p: RequestId, q: RequestId, a: Signature, b: Signature) {
    && Check(s.readings, x, Admin) == Accepted
    && p != q && p !in s.requests && q !in s.requests
    && a != b && FreshSignature(s.chain, a) && FreshSignature(s.chain, b)
  }

  function TwoMints(r: Reading, x: Id, a: Signature, b: Signature): seq<Mint> {
    [Mint(a, x, r.wallet, r.kwh.UnwrapOr(0.0), Admin), Mint(b, x, r.wallet, r.kwh.UnwrapOr(0.0), Admin)]
  }

  function Overlapping(x: Id, p: RequestId, q: RequestId, a: Signature, b: Signature): seq<Action> {
    [Read(p, x, Admin), Read(q, x, Admin), MintOk(p, a), MintOk(q, b), Mark(p), Mark(q)]
  }

  function Retried(x: Id, p: RequestId, q: RequestId, a: Signature, b: Signature): seq<Action> {
    [Read(p, x, Admin), MintOk(p, a), MarkFails(p), Read(q, x, Admin), MintOk(q, b), Mark(q)]
  }

  /** In any state two overlapping requests can mint an unminted reading twice. */
  lemma OverlapMintsTwice(s: State, x: Id, p: RequestId, q: RequestId, a: Signature, b: Signature)
    requires TwoAttempts(s, x, p, q, a, b)
    ensures Valid(s, Overlapping(x, p, q, a, b))
    ensures After(s, Overlapping(x, p, q, a, b)).chain == s.chain + TwoMints(s.readings[x], x, a, b)
  {
    var s1 := Next(s, Read(p, x, Admin));
    var s2 := Next(s1, Read(q, x, Admin));
    var s3 := Next(s2, MintOk(p, a));
    var s4 := Next(s3, MintOk(q, b));
    assert s4.chain == s.chain + TwoMints(s.readings[x], x, a, b);
    var s5 := Next(s4, Mark(p));
    var run := RunCons(s5, Mark(q), []);
    run := RunCons(s4, Mark(p), run);
    run := RunCons(s3, MintOk(q, b), run);
    run := RunCons(s2, MintOk(p, a), run);
    run := RunCons(s1, Read(q, x, Admin), run);
    run := RunCons(s, Read(p, x, Admin), run);
    assert run == Overlapping(x, p, q, a, b);
  }

  /** So does a retry after a mark that failed. */
  lemma LostMarkMintsTwice(s: State, x: Id, p: RequestId, q: RequestId, a: Signature, b: Signature)
    requires TwoAttempts(s, x, p, q, a, b)
    ensures Valid(s, Retried(x, p, q, a, b))
    ensures After(s, Retried(x, p, q, a, b)).chain == s.chain + TwoMints(s.readings[x], x, a, b)
  {
    var s1 := Next(s, Read(p, x, Admin));
    var s2 := Next(s1, MintOk(p, a));
    var s3 := Next(s2, MarkFails(p));
    var s4 := Next(s3, Read(q, x, Admin));
    var s5 := Next(s4, MintOk(q, b));
    assert s5.chain == s.chain + TwoMints(s.readings[x], x, a, b);
    var run := RunCons(s5, Mark(q), []);
    run := RunCons(s4, MintOk(q, b), run);
    run := RunCons(s3, Read(q, x, Admin), run);
    run := RunCons(s2, MarkFails(p), run);
    run := RunCons(s1, MintOk(p, a), run);
    run := RunCons(s, Read(p, x, Admin), run);
    assert run == Retried(x, p, q, a, b);
  }

  // ---------------------------------------------------------------- the handlers

  /** How the outside world answers one request. */
  datatype Outcome = ChainDown | MarkLost(signature: Signature) | Completes(signature: Signature)

  ghost function Handled(s: State, req: RequestId, id: Id, c: Caller, o: Outcome): State
    requires req !in s.requests && (!o.ChainDown? ==> FreshSignature(s.chain, o.signature))
  {
    var s1 := Next(s, Read(req, id, c));
    if Check(s.readings, id, c) != Accepted then s1
    else match o
      case ChainDown => Next(s1, MintFails(req))
      case MarkLost(sig) => Next(Next(s1, MintOk(req, sig)), MarkFails(req))
      case Completes(sig) => Next(Next(s1, MintOk(req, sig)), Mark(req))
  }

  /** What the caller is told: a mint that fails and a mark that is lost are both internal errors, so
      the reply does not tell whether tokens were minted. */
  function Answer(checked: Reply, o: Outcome): Reply {
    if checked == Accepted && !o.Completes? then InternalError else checked
  }

  class MintService {
    var readings: map<Id, Reading>
    var chain: seq<Mint>

    constructor (readings: map<Id, Reading>)
      ensures this.readings == readings && chain == []
    {
      this.readings, chain := readings, [];
    }

    ghost function View(): State
      reads this
    {
      State(readings, chain, map[])
    }

    /** Both mint endpoints: check, mint on chain, mark the row. */
    method MintReading(id: Id, c: Caller, o: Outcome) returns (r: Reply)
      requires !o.ChainDown? ==> FreshSignature(chain, o.signature)
      modifies this
      ensures View() == Handled(old(View()), 0, id, c, o)
      ensures r == Answer(Check(old(readings), id, c), o)
      ensures r == NotFound <==> id !in old(readings)
      ensures r == NoOwner <==> id in old(readings) && c != Admin && old(readings)[id].user == None
      ensures r == Forbidden <==>
                && id in old(readings) && c != Admin
                && old(readings)[id].user.Some? && old(readings)[id].user.value != c.user
      ensures r == AlreadyMinted <==>
                id in old(readings) && Entitled(old(readings)[id], c) && old(readings)[id].minted == Some(true)
      ensures r == NoAmount <==>
                && id in old(readings) && Entitled(old(readings)[id], c)
                && old(readings)[id].minted != Some(true) && old(readings)[id].kwh == None
      ensures chain != old(chain) || readings != old(readings) ==>
                && id in old(readings) && Entitled(old(readings)[id], c)
                && old(readings)[id].minted != Some(true) && old(readings)[id].kwh.Some?
                && chain == old(chain) + [Mint(o.signature, id, old(readings)[id].wallet, old(readings)[id].kwh.value, c)]
      ensures r == Accepted ==>
                readings == old(readings)[id := old(readings)[id].(minted := Some(true), signature := Some(o.signature))]
      ensures r != Accepted ==> readings == old(readings)
    {
      if id !in readings {
        return NotFound;
      }
      var reading := readings[id];
      if c.Owner? {
        if reading.user.None? {
          return NoOwner;
        }
        if reading.user.value != c.user {
          return Forbidden;
        }
      }
      if reading.minted.UnwrapOr(false) {
        return AlreadyMinted;
      }
      if reading.kwh.None? {
        return NoAmount;
      }
      if !o.ChainDown? {
        chain := chain + [Mint(o.signature, id, reading.wallet, reading.kwh.value, c)];
      }
      if !o.Completes? {
        return InternalError;
      }
      readings := readings[id := reading.(minted := Some(true), signature := Some(o.signature))];
      r := Accepted;
    }
  }
}
