/** Linked wallets and the primary-wallet invariant. Linking and choosing a primary are single
    transactions; removing a wallet is four separate statements that others can interleave with. */
module Wallets {
  import Prelude
  import Selection

  type Id = int
  type UserId = int
  type RequestId = int

  datatype Wallet = Wallet(user: UserId, address: string, isPrimary: bool, createdAt: int)

  type Table = map<Id, Wallet>

  function Of(t: Table, u: UserId): set<Id> {
    set id | id in t && t[id].user == u
  }

  function Primaries(t: Table, u: UserId): set<Id> {
    set id | id in t && t[id].user == u && t[id].isPrimary
  }

  /** `UPDATE … SET is_primary = false WHERE user_id = u AND is_primary`. */
  function Demoted(t: Table, u: UserId): Table {
    map id | id in t :: if t[id].user == u then t[id].(isPrimary := false) else t[id]
  }

  predicate Linkable(t: Table, address: string) {
    32 <= |address| <= 64 && forall id :: id in t ==> t[id].address != address
  }

  function Linked(t: Table, id: Id, u: UserId, address: string, setPrimary: bool, now: int): Table
    requires id !in t
  {
    if !Linkable(t, address) then t
    else
      var base := if setPrimary then Demoted(t, u) else t;
      base[id := Wallet(u, address, setPrimary || Of(t, u) == {}, now)]
  }

  function PrimarySet(t: Table, u: UserId, id: Id): Table {
    if id in Of(t, u) then
      var base := Demoted(t, u);
      base[id := base[id].(isPrimary := true)]
    else t
  }

  predicate IsOldest(t: Table, u: UserId, id: Id) {
    id in Of(t, u) && forall x :: x in Of(t, u) ==> t[id].createdAt <= t[x].createdAt
  }

  /** The promoting UPDATE, given the wallet its subquery picked. */
  function Promoted(t: Table, u: UserId, oldest: Id): Table {
    if Primaries(t, u) == {} && oldest in Of(t, u) then t[oldest := t[oldest].(isPrimary := true)] else t
  }

  // ---------------------------------------------------------------- row by row

  /** Nothing but the primary mark differs. */
  predicate SameWallet(a: Wallet, b: Wallet) {
    a.user == b.user && a.address == b.address && a.createdAt == b.createdAt
  }

  /** An address of 32 to 64 characters that no wallet has yet is linked; the new wallet is primary if
      asked for or if it is the user's first; only if asked for do the user's others lose their mark.
      Any other link changes nothing. */
  lemma LinkExact(t: Table, id: Id, u: UserId, address: string, setPrimary: bool, now: int)
    requires id !in t
    ensures var r := Linked(t, id, u, address, setPrimary, now);
            var fits := 32 <= |address| <= 64 && forall x :: x in t ==> t[x].address != address;
            && (!fits ==> r == t)
            && (fits ==>
                  && r.Keys == t.Keys + {id}
                  && r[id].user == u && r[id].address == address && r[id].createdAt == now
                  && (r[id].isPrimary <==> setPrimary || forall x :: x in t ==> t[x].user != u)
                  && (forall x :: x in t ==> SameWallet(r[x], t[x]))
                  && (forall x :: x in t ==> (r[x].isPrimary <==> t[x].isPrimary && !(setPrimary && t[x].user == u))))
  {
    if Of(t, u) == {} {
      forall x | x in t ensures t[x].user != u {
        assert x !in Of(t, u);
      }
    } else {
      var x := Prelude.Pick(Of(t, u));
      assert x in t && t[x].user == u;
    }
  }

  /** After an accepted link the user's primaries are the new wallet alone, or what they were. */
  lemma LinkPrimaries(t: Table, id: Id, u: UserId, address: string, setPrimary: bool, now: int)
    requires id !in t && Linked(t, id, u, address, setPrimary, now) != t
    ensures Primaries(Linked(t, id, u, address, setPrimary, now), u) ==
            if setPrimary || Of(t, u) == {} then {id} else Primaries(t, u)
  {
    if !setPrimary && Of(t, u) == {} {
      forall x | x in t ensures t[x].user != u {
        assert x !in Of(t, u);
      }
    }
  }

  /** Choosing one's own wallet makes it the user's only primary; any other choice changes nothing. */
  lemma SetPrimaryExact(t: Table, u: UserId, id: Id)
    ensures var r := PrimarySet(t, u, id);
            if id in t && t[id].user == u then
              && r.Keys == t.Keys
              && forall x :: x in t ==>
                   SameWallet(r[x], t[x]) && (r[x].isPrimary <==> if t[x].user == u then x == id else t[x].isPrimary)
            else r == t
  {
  }

  /** The promoting UPDATE marks the wallet its subquery picked exactly if the user has no primary. */
  lemma PromoteExact(t: Table, u: UserId, oldest: Id)
    ensures var r := Promoted(t, u, oldest);
            && r.Keys == t.Keys
            && forall x :: x in t ==>
                 && SameWallet(r[x], t[x])
                 && (r[x].isPrimary <==>
                       || t[x].isPrimary
                       || (x == oldest && t[x].user == u && forall y :: y in t && t[y].user == u ==> !t[y].isPrimary))
  {
    if Primaries(t, u) == {} {
      forall y | y in t && t[y].user == u ensures !t[y].isPrimary {
        assert y !in Primaries(t, u);
      }
    } else {
      var y := Prelude.Pick(Primaries(t, u));
      assert y in t && t[y].user == u && t[y].isPrimary;
    }
  }

  // ---------------------------------------------------------------- the state machine

  datatype Phase = Counting | Deleting | Promoting

  /** A remove request between two of its statements. */
  datatype Removal = Removal(user: UserId, wallet: Id, phase: Phase)

  /** `orphaned`: users whose last promote failed and who have had no primary since. */
  datatype State = State(wallets: Table, removals: map<RequestId, Removal>, orphaned: set<UserId>)

  datatype Action =
    | Link(id: Id, user: UserId, address: string, setPrimary: bool, now: int)
    | SetPrimary(user: UserId, id: Id)
    | RemoveRead(req: RequestId, user: UserId, id: Id)
    | RemoveCount(req: RequestId)
    | RemoveDelete(req: RequestId)
    | RemoveAborts(req: RequestId)
    | RemovePromote(req: RequestId, oldest: Id)
    | PromoteFails(req: RequestId)

  predicate At(s: State, req: RequestId, p: Phase) {
    req in s.removals && s.removals[req].phase == p
  }

  predicate Enabled(s: State, a: Action) {
    match a
    case Link(id, _, _, _, _) => id !in s.wallets
    case SetPrimary(_, _) => true
    case RemoveRead(req, _, _) => req !in s.removals
    case RemoveCount(req) => At(s, req, Counting)
    case RemoveDelete(req) => At(s, req, Deleting)
    case RemoveAborts(req) => At(s, req, Counting) || At(s, req, Deleting)
    case RemovePromote(req, oldest) =>
      At(s, req, Promoting)
      && var u := s.removals[req].user; Of(s.wallets, u) != {} ==> IsOldest(s.wallets, u, oldest)
    case PromoteFails(req) => At(s, req, Promoting)
  }

  /** Users with a primary are no longer orphaned. */
  function Settled(t: Table, orphaned: set<UserId>): set<UserId> {
    set u | u in orphaned && Primaries(t, u) == {}
  }

  function Next(s: State, a: Action): State
    requires Enabled(s, a)
  {
    match a
    case Link(id, u, address, setPrimary, now) =>
      var t := Linked(s.wallets, id, u, address, setPrimary, now);
      State(t, s.removals, Settled(t, s.orphaned))
    case SetPrimary(u, id) =>
      var t := PrimarySet(s.wallets, u, id);
      State(t, s.removals, Settled(t, s.orphaned))
    case RemoveRead(req, u, id) =>
      if id !in Of(s.wallets, u) then s
      else s.(removals := s.removals[req := Removal(u, id, if s.wallets[id].isPrimary then Counting else Deleting)])
    case RemoveCount(req) =>
      var r := s.removals[req];
      if Of(s.wallets, r.user) - {r.wallet} == {} then s.(removals := s.removals - {req})
      else s.(removals := s.removals[req := r.(phase := Deleting)])
    case RemoveDelete(req) =>
      var r := s.removals[req];
      if r.wallet !in Of(s.wallets, r.user) then s.(removals := s.removals - {req})
      else s.(wallets := s.wallets - {r.wallet}, removals := s.removals[req := r.(phase := Promoting)])
    case RemoveAborts(req) => s.(removals := s.removals - {req})  // the COUNT or the DELETE reports an error
    case RemovePromote(req, oldest) =>
      var t := Promoted(s.wallets, s.removals[req].user, oldest);
      State(t, s.removals - {req}, Settled(t, s.orphaned))
    case PromoteFails(req) =>
      State(s.wallets, s.removals - {req}, Settled(s.wallets, s.orphaned + {s.removals[req].user}))
  }

  predicate Valid(s: State, run: seq<Action>)
    decreases |run|
  {
    run == [] || (Enabled(s, run[0]) && Valid(Next(s, run[0]), run[1..]))
  }

  function After(s: State, run: seq<Action>): State
    requires Valid(s, run)
    decreases |run|
  {
    if run == [] then s else After(Next(s, run[0]), run[1..])
  }

  lemma RunCons(s: State, a: Action, rest: seq<Action>) returns (run: seq<Action>)
    requires Enabled(s, a) && Valid(Next(s, a), rest)
    ensures run == [a] + rest && Valid(s, run) && After(s, run) == After(Next(s, a), rest)
  {
    run := [a] + rest;
    assert run[1..] == rest;
  }

  // ---------------------------------------------------------------- what every step keeps

  ghost predicate AtMostOne(t: Table, u: UserId) {
    forall i, j :: i in Primaries(t, u) && j in Primaries(t, u) ==> i == j
  }

  ghost predicate Headless(t: Table, u: UserId) {
    Of(t, u) != {} && Primaries(t, u) == {}
  }

  ghost predicate PromotePending(s: State, u: UserId) {
    exists req :: req in s.removals && s.removals[req].phase == Promoting && s.removals[req].user == u
  }

  ghost predicate UserOk(s: State, u: UserId) {
    AtMostOne(s.wallets, u) && (Headless(s.wallets, u) ==> PromotePending(s, u) || u in s.orphaned)
  }

  ghost predicate Inv(s: State) {
    forall u :: UserOk(s, u)
  }

  /** Rows of other users do not change. */
  lemma LinkEffect(t: Table, id: Id, u: UserId, address: string, setPrimary: bool, now: int, v: UserId)
    requires id !in t && AtMostOne(t, v)
    ensures var r := Linked(t, id, u, address, setPrimary, now);
            && AtMostOne(r, v) && (Headless(r, v) ==> Headless(t, v))
  {
    var r := Linked(t, id, u, address, setPrimary, now);
    if Linkable(t, address) {
      if u != v {
        assert Of(r, v) == Of(t, v) && Primaries(r, v) == Primaries(t, v);
      } else if setPrimary || Of(t, u) == {} {
        assert Primaries(r, v) == {id};
      } else {
        assert Primaries(r, v) == Primaries(t, v);
      }
    }
  }

  lemma SetPrimaryEffect(t: Table, u: UserId, id: Id, v: UserId)
    requires AtMostOne(t, v)
    ensures var r := PrimarySet(t, u, id);
            && AtMostOne(r, v) && (Headless(r, v) ==> Headless(t, v))
            && (id in Of(t, u) ==> Primaries(r, u) == {id})
  {
    var r := PrimarySet(t, u, id);
    if id in Of(t, u) {
      assert Primaries(r, u) == {id};
      if u != v {
        assert Primaries(r, v) == Primaries(t, v) && Of(r, v) == Of(t, v);
      }
    }
  }

  lemma PromoteEffect(t: Table, u: UserId, oldest: Id, v: UserId)
    requires AtMostOne(t, v) && (Of(t, u) != {} ==> oldest in Of(t, u))
    ensures var r := Promoted(t, u, oldest);
            && AtMostOne(r, v) && (Headless(r, v) ==> Headless(t, v)) && !Headless(r, u)
  {
    var r := Promoted(t, u, oldest);
    assert Of(r, v) == Of(t, v);
    if Primaries(t, u) == {} && oldest in Of(t, u) {
      assert Primaries(r, u) == {oldest};
      if u != v {
        assert Primaries(r, v) == Primaries(t, v);
      }
    }
  }

  lemma DeleteEffect(t: Table, id: Id, v: UserId)
    requires AtMostOne(t, v) && id in t
    ensures AtMostOne(t - {id}, v)
    ensures t[id].user != v ==> Headless(t - {id}, v) == Headless(t, v)
  {
    var r := t - {id};
    assert forall x :: x in Primaries(r, v) ==> x in Primaries(t, v);
    if t[id].user != v {
      assert Of(r, v) == Of(t, v) && Primaries(r, v) == Primaries(t, v);
    }
  }

  /** Dropping or advancing a request that is not about to promote keeps pending promotes. */
  lemma PendingKept(s: State, t: State, req: RequestId, v: UserId)
    requires PromotePending(s, v)
    requires forall q :: q in s.removals && q != req ==> q in t.removals && t.removals[q] == s.removals[q]
    requires At(s, req, Promoting) ==> s.removals[req].user != v
    ensures PromotePending(t, v)
  {
  }

  lemma StepKeepsUser(s: State, a: Action, v: UserId)
    requires UserOk(s, v) && Enabled(s, a)
    ensures UserOk(Next(s, a), v)
  {
    var t := Next(s, a);
    match a
    case Link(id, u, address, setPrimary, now) => LinkEffect(s.wallets, id, u, address, setPrimary, now, v);
    case SetPrimary(u, id) => SetPrimaryEffect(s.wallets, u, id, v);
    case RemoveRead(req, _, _) => if PromotePending(s, v) { PendingKept(s, t, req, v); }
    case RemoveCount(req) => if PromotePending(s, v) { PendingKept(s, t, req, v); }
    case RemoveDelete(req) => DeleteKeepsUser(s, req, v);
    case RemoveAborts(req) => if PromotePending(s, v) { PendingKept(s, t, req, v); }
    case RemovePromote(req, oldest) => PromoteKeepsUser(s, req, oldest, v);
    case PromoteFails(req) =>
      if PromotePending(s, v) && s.removals[req].user != v { PendingKept(s, t, req, v); }
  }

  lemma DeleteKeepsUser(s: State, req: RequestId, v: UserId)
    requires UserOk(s, v) && Enabled(s, RemoveDelete(req))
    ensures UserOk(Next(s, RemoveDelete(req)), v)
  {
    var t := Next(s, RemoveDelete(req));
    var r := s.removals[req];
    if PromotePending(s, v) {
      PendingKept(s, t, req, v);
    }
    if r.wallet in Of(s.wallets, r.user) {
      DeleteEffect(s.wallets, r.wallet, v);
      assert r.user == v ==> t.removals[req].phase == Promoting && t.removals[req].user == v;
    }
  }

  lemma PromoteKeepsUser(s: State, req: RequestId, oldest: Id, v: UserId)
    requires UserOk(s, v) && Enabled(s, RemovePromote(req, oldest))
    ensures UserOk(Next(s, RemovePromote(req, oldest)), v)
  {
    var u := s.removals[req].user;
    PromoteEffect(s.wallets, u, oldest, v);
    if PromotePending(s, v) && u != v {
      PendingKept(s, Next(s, RemovePromote(req, oldest)), req, v);
    }
  }

  /** In every interleaving of links, removes and set-primaries, a user has at most one primary
      wallet; a user with wallets but no primary has a remove waiting to promote, or the promote
      of one has failed since. */
  lemma {:induction false} PrimaryInvariant(s: State, run: seq<Action>)
    requires Inv(s) && Valid(s, run)
    ensures Inv(After(s, run))
    decreases |run|
  {
    if run == [] {
    } else {
      var t := Next(s, run[0]);
      forall u ensures UserOk(t, u) {
        assert UserOk(s, u);
        StepKeepsUser(s, run[0], u);
      }
      PrimaryInvariant(t, run[1..]);
    }
  }

  // ---------------------------------------------------------------- removing, uninterrupted

  /** A whole remove request with nothing in between and a successful promote. `oldest` is the
      wallet the promoting subquery picked. */
  function Removed(t: Table, u: UserId, id: Id, oldest: Id): Table {
    if id !in Of(t, u) then t
    else if t[id].isPrimary && Of(t, u) - {id} == {} then t
    else Promoted(t - {id}, u, oldest)
  }

  /** Whom the subquery may pick once the wallet is gone. */
  predicate PicksOldest(t: Table, u: UserId, id: Id, oldest: Id) {
    Of(t - {id}, u) != {} ==> IsOldest(t - {id}, u, oldest)
  }

  /** Every user with a wallet has exactly one primary. */
  ghost predicate WellFormed(t: Table) {
    forall u :: AtMostOne(t, u) && !Headless(t, u)
  }

  /** The four statements in a row do what `Removed` says. */
  lemma RemoveIsRun(s: State, req: RequestId, u: UserId, id: Id, oldest: Id) returns (run: seq<Action>)
    requires req !in s.removals && PicksOldest(s.wallets, u, id, oldest)
    ensures Valid(s, run) && After(s, run).wallets == Removed(s.wallets, u, id, oldest)
    ensures After(s, run).removals == s.removals
  {
    var s1 := Next(s, RemoveRead(req, u, id));
    if id !in Of(s.wallets, u) {
      run := [RemoveRead(req, u, id)];
      assert After(s, run) == After(s1, run[1..]) == s;
    } else if s.wallets[id].isPrimary && Of(s.wallets, u) - {id} == {} {
      var s2 := Next(s1, RemoveCount(req));
      run := RunCons(s1, RemoveCount(req), []);
      run := RunCons(s, RemoveRead(req, u, id), run);
      assert s2.removals == s.removals;
    } else {
      var ready := s.(removals := s.removals[req := Removal(u, id, Deleting)]);
      run := DeleteAndPromote(s, ready, req, u, id, oldest);
      if s.wallets[id].isPrimary {
        assert Next(s1, RemoveCount(req)) == ready;
        run := RunCons(s1, RemoveCount(req), run);
      }
      run := RunCons(s, RemoveRead(req, u, id), run);
    }
  }

  lemma DeleteAndPromote(s: State, ready: State, req: RequestId, u: UserId, id: Id, oldest: Id) returns (run: seq<Action>)
    requires req !in s.removals && id in Of(s.wallets, u) && PicksOldest(s.wallets, u, id, oldest)
    requires ready == s.(removals := s.removals[req := Removal(u, id, Deleting)])
    ensures Valid(ready, run)
    ensures After(ready, run).wallets == Promoted(s.wallets - {id}, u, oldest) && After(ready, run).removals == s.removals
  {
    var s1 := Next(ready, RemoveDelete(req));
    var s2 := Next(s1, RemovePromote(req, oldest));
    assert s2.removals == s.removals;
    run := RunCons(s1, RemovePromote(req, oldest), []);
    run := RunCons(ready, RemoveDelete(req), run);
  }

  lemma LinkKeepsWellFormed(t: Table, id: Id, u: UserId, address: string, setPrimary: bool, now: int)
    requires WellFormed(t) && id !in t
    ensures WellFormed(Linked(t, id, u, address, setPrimary, now))
  {
    var r := Linked(t, id, u, address, setPrimary, now);
    forall v ensures AtMostOne(r, v) && !Headless(r, v) {
      LinkEffect(t, id, u, address, setPrimary, now, v);
    }
  }

  lemma SetPrimaryKeepsWellFormed(t: Table, u: UserId, id: Id)
    requires WellFormed(t)
    ensures WellFormed(PrimarySet(t, u, id))
  {
    forall v ensures AtMostOne(PrimarySet(t, u, id), v) && !Headless(PrimarySet(t, u, id), v) {
      SetPrimaryEffect(t, u, id, v);
    }
  }

  /** Sequentially, every user with wallets keeps exactly one primary, and removing never takes
      a user's last wallet. */
  lemma RemoveKeepsWellFormed(t: Table, u: UserId, id: Id, oldest: Id)
    requires WellFormed(t) && PicksOldest(t, u, id, oldest)
    ensures WellFormed(Removed(t, u, id, oldest))
    ensures Of(t, u) != {} ==> Of(Removed(t, u, id, oldest), u) != {}
  {
    var r := Removed(t, u, id, oldest);
    if id in Of(t, u) && !(t[id].isPrimary && Of(t, u) - {id} == {}) {
      forall v ensures AtMostOne(r, v) && !Headless(r, v) {
        DeleteEffect(t, id, v);
        PromoteEffect(t - {id}, u, oldest, v);
      }
    }
    if Of(t, u) != {} {
      RemoveEmptiesExactly(t, u, id, oldest);
      assert !Headless(t, u);
    }
  }

  /** In any state at all, an uninterrupted remove takes a user's last wallet exactly when that
      wallet is not marked primary: only primary wallets are counted before deletion. */
  lemma RemoveEmptiesExactly(t: Table, u: UserId, id: Id, oldest: Id)
    requires Of(t, u) != {}
    ensures Of(Removed(t, u, id, oldest), u) == {} <==> Of(t, u) == {id} && !t[id].isPrimary
  {
  }

  // ---------------------------------------------------------------- removes over whole runs

  ghost predicate Removing(s: State, u: UserId) {
    exists req :: req in s.removals && s.removals[req].user == u
  }

  /** No remove of user `u` starts while another one is under way, and none that leaves `u` without
      a primary fails to promote. Links, choices of a primary and other users' removes may fall
      anywhere in between. */
  ghost predicate OrderlyStep(s: State, a: Action, u: UserId)
    requires Enabled(s, a)
  {
    && (a.RemoveRead? && a.user == u && a.id in Of(s.wallets, u) ==> !Removing(s, u))
    && (a.PromoteFails? && s.removals[a.req].user == u ==> !Headless(s.wallets, u))
  }

  ghost predicate Orderly(s: State, run: seq<Action>, u: UserId)
    requires Valid(s, run)
    decreases |run|
  {
    run == [] || (OrderlyStep(s, run[0], u) && Orderly(Next(s, run[0]), run[1..], u))
  }

  /** At most one remove of `u` is under way, and one about to delete leaves another wallet. */
  ghost predicate OneRemoval(s: State, u: UserId) {
    && (forall p, q :: p in s.removals && q in s.removals && s.removals[p].user == u && s.removals[q].user == u ==> p == q)
    && (forall req :: At(s, req, Deleting) && s.removals[req].user == u ==> Of(s.wallets, u) - {s.removals[req].wallet} != {})
  }

  ghost predicate OrderlyInv(s: State, u: UserId) {
    AtMostOne(s.wallets, u) && (Headless(s.wallets, u) ==> PromotePending(s, u)) && OneRemoval(s, u)
  }

  lemma MoreWallets(s: State, t: State, u: UserId)
    requires OneRemoval(s, u) && t.removals == s.removals && Of(s.wallets, u) <= Of(t.wallets, u)
    ensures OneRemoval(t, u)
  {
  }

  lemma OrderlyRead(s: State, req: RequestId, v: UserId, id: Id, u: UserId)
    requires OrderlyInv(s, u) && Enabled(s, RemoveRead(req, v, id)) && OrderlyStep(s, RemoveRead(req, v, id), u)
    ensures OrderlyInv(Next(s, RemoveRead(req, v, id)), u)
  {
    var t := Next(s, RemoveRead(req, v, id));
    if PromotePending(s, u) {
      PendingKept(s, t, req, u);
    }
    if v == u && id in Of(s.wallets, u) && !s.wallets[id].isPrimary {
      var p := Prelude.Pick(Primaries(s.wallets, u));
      assert p in Of(s.wallets, u) - {id};
    }
  }

  lemma OrderlyCount(s: State, req: RequestId, u: UserId)
    requires OrderlyInv(s, u) && Enabled(s, RemoveCount(req))
    ensures OrderlyInv(Next(s, RemoveCount(req)), u)
  {
    if PromotePending(s, u) {
      PendingKept(s, Next(s, RemoveCount(req)), req, u);
    }
  }

  lemma DeleteWallets(t: Table, id: Id, u: UserId)
    requires id in t
    ensures Of(t - {id}, u) == Of(t, u) - {id}
  {
  }

  lemma OrderlyDelete(s: State, req: RequestId, u: UserId)
    requires OrderlyInv(s, u) && Enabled(s, RemoveDelete(req))
    ensures OrderlyInv(Next(s, RemoveDelete(req)), u)
    ensures Of(s.wallets, u) != {} ==> Of(Next(s, RemoveDelete(req)).wallets, u) != {}
  {
    var t := Next(s, RemoveDelete(req));
    var r := s.removals[req];
    if PromotePending(s, u) {
      PendingKept(s, t, req, u);
    }
    if r.wallet in Of(s.wallets, r.user) {
      DeleteEffect(s.wallets, r.wallet, u);
      DeleteWallets(s.wallets, r.wallet, u);
      assert r.user == u ==> At(t, req, Promoting);
      assert r.user != u ==> Of(t.wallets, u) == Of(s.wallets, u);
    }
  }

  lemma OrderlyPromote(s: State, req: RequestId, oldest: Id, u: UserId)
    requires OrderlyInv(s, u) && Enabled(s, RemovePromote(req, oldest))
    ensures OrderlyInv(Next(s, RemovePromote(req, oldest)), u)
    ensures Of(Next(s, RemovePromote(req, oldest)).wallets, u) == Of(s.wallets, u)
  {
    var t := Next(s, RemovePromote(req, oldest));
    var v := s.removals[req].user;
    PromoteEffect(s.wallets, v, oldest, u);
    if PromotePending(s, u) && u != v {
      PendingKept(s, t, req, u);
    }
    assert Of(t.wallets, u) == Of(s.wallets, u);
  }

  lemma OrderlyStepKeeps(s: State, a: Action, u: UserId)
    requires OrderlyInv(s, u) && Enabled(s, a) && OrderlyStep(s, a, u)
    ensures OrderlyInv(Next(s, a), u)
    ensures Of(s.wallets, u) != {} ==> Of(Next(s, a).wallets, u) != {}
  {
    var t := Next(s, a);
    match a
    case Link(id, v, address, setPrimary, now) =>
      LinkEffect(s.wallets, id, v, address, setPrimary, now, u);
      assert Of(s.wallets, u) <= Of(t.wallets, u);
      MoreWallets(s, t, u);
    case SetPrimary(v, id) =>
      SetPrimaryEffect(s.wallets, v, id, u);
      assert Of(s.wallets, u) <= Of(t.wallets, u);
      MoreWallets(s, t, u);
    case RemoveRead(req, v, id) => OrderlyRead(s, req, v, id, u);
    case RemoveCount(req) => OrderlyCount(s, req, u);
    case RemoveDelete(req) => OrderlyDelete(s, req, u);
    case RemoveAborts(req) => if PromotePending(s, u) { PendingKept(s, t, req, u); }
    case RemovePromote(req, oldest) => OrderlyPromote(s, req, oldest, u);
    case PromoteFails(req) =>
      if PromotePending(s, u) && s.removals[req].user != u {
        PendingKept(s, t, req, u);
      }
  }

  lemma {:induction false} OrderlyRunKeeps(s: State, run: seq<Action>, u: UserId)
    requires OrderlyInv(s, u) && Valid(s, run) && Orderly(s, run, u)
    ensures OrderlyInv(After(s, run), u)
    ensures Of(s.wallets, u) != {} ==> Of(After(s, run).wallets, u) != {}
    decreases |run|
  {
    if run == [] {
    } else {
      OrderlyStepKeeps(s, run[0], u);
      OrderlyRunKeeps(Next(s, run[0]), run[1..], u);
    }
  }

  /** If the removes of one user do not overlap and their promotes do not fail, then whatever else
      happens in between, that user never loses the last wallet, never has two primaries, is
      without one only while a remove is about to promote, and so has exactly one between removes. */
  lemma OrderlyRunsKeepAWallet(s: State, run: seq<Action>, u: UserId)
    requires AtMostOne(s.wallets, u) && !Headless(s.wallets, u) && !Removing(s, u)
    requires Valid(s, run) && Orderly(s, run, u)
    ensures var t := After(s, run);
            && (Of(s.wallets, u) != {} ==> Of(t.wallets, u) != {})
            && AtMostOne(t.wallets, u)
            && (Headless(t.wallets, u) ==> PromotePending(t, u))
            && (!Removing(t, u) && Of(t.wallets, u) != {} ==> |Primaries(t.wallets, u)| == 1)
  {
    OrderlyRunKeeps(s, run, u);
    var t := After(s, run);
    if !Removing(t, u) && Of(t.wallets, u) != {} {
      assert !PromotePending(t, u);
      var p := Prelude.Pick(Primaries(t.wallets, u));
      assert forall x :: x in Primaries(t.wallets, u) ==> x == p;
      assert Primaries(t.wallets, u) == {p};
    }
  }

  // ---------------------------------------------------------------- both conditions are needed

  /** User `u` has the primary wallet `p`, another wallet `q`, and no remove under way. */
  ghost predicate TwoWallets(s: State, u: UserId, p: Id, q: Id) {
    && p != q && Of(s.wallets, u) == {p, q} && s.wallets[p].isPrimary && !s.wallets[q].isPrimary
    && !Removing(s, u)
  }

  lemma TwoWalletsAreWellFormed(s: State, u: UserId, p: Id, q: Id)
    requires TwoWallets(s, u, p, q)
    ensures AtMostOne(s.wallets, u) && !Headless(s.wallets, u) && {p, q} <= s.wallets.Keys
  {
    assert p in Of(s.wallets, u) && q in Of(s.wallets, u);
    assert Primaries(s.wallets, u) <= Of(s.wallets, u);
    assert p in Primaries(s.wallets, u);
  }

  /** Two removes of `u`, the second slipping in after the first has counted. */
  function Crossing(u: UserId, p: Id, q: Id, first: RequestId, second: RequestId): seq<Action> {
    [RemoveRead(first, u, p), RemoveCount(first), RemoveRead(second, u, q), RemoveDelete(second), RemoveDelete(first)]
  }

  /** Two removes one after the other, the first of which fails to promote. */
  function Unpromoted(u: UserId, p: Id, q: Id, first: RequestId, second: RequestId): seq<Action> {
    [RemoveRead(first, u, p), RemoveCount(first), RemoveDelete(first), PromoteFails(first),
     RemoveRead(second, u, q), RemoveDelete(second)]
  }

  lemma PrimaryCounted(s: State, u: UserId, p: Id, q: Id, req: RequestId) returns (t: State)
    requires TwoWallets(s, u, p, q) && req !in s.removals
    ensures Enabled(s, RemoveRead(req, u, p)) && Enabled(Next(s, RemoveRead(req, u, p)), RemoveCount(req))
    ensures t == Next(Next(s, RemoveRead(req, u, p)), RemoveCount(req))
    ensures t == s.(removals := s.removals[req := Removal(u, p, Deleting)])
  {
    var s1 := Next(s, RemoveRead(req, u, p));
    assert p in Of(s.wallets, u) && q in Of(s1.wallets, u) - {p};
    t := Next(s1, RemoveCount(req));
  }

  /** Overlapping removes can take the last wallet of any user with two, whoever else has wallets
      or removes under way. */
  lemma CrossingRemovesEmpty(s: State, u: UserId, p: Id, q: Id, first: RequestId, second: RequestId)
    requires TwoWallets(s, u, p, q) && first != second && first !in s.removals && second !in s.removals
    ensures AtMostOne(s.wallets, u) && !Headless(s.wallets, u)
    ensures Valid(s, Crossing(u, p, q, first, second))
    ensures After(s, Crossing(u, p, q, first, second)).wallets == s.wallets - {p, q}
    ensures Of(s.wallets - {p, q}, u) == {}
  {
    TwoWalletsAreWellFormed(s, u, p, q);
    var s1 := Next(s, RemoveRead(first, u, p));
    var s2 := PrimaryCounted(s, u, p, q, first);
    var s3 := Next(s2, RemoveRead(second, u, q));
    var s4 := Next(s3, RemoveDelete(second));
    assert q in Of(s3.wallets, u) && p in Of(s4.wallets, u);
    var s5 := Next(s4, RemoveDelete(first));
    assert s5.wallets == s.wallets - {p, q};
    var run := RunCons(s4, RemoveDelete(first), []);
    run := RunCons(s3, RemoveDelete(second), run);
    run := RunCons(s2, RemoveRead(second, u, q), run);
    run := RunCons(s1, RemoveCount(first), run);
    run := RunCons(s, RemoveRead(first, u, p), run);
    assert run == Crossing(u, p, q, first, second);
  }

  /** So can removes that do not overlap, once a promote has failed. */
  lemma FailedPromoteEmpties(s: State, u: UserId, p: Id, q: Id, first: RequestId, second: RequestId)
    requires TwoWallets(s, u, p, q) && first != second && first !in s.removals && second !in s.removals
    ensures AtMostOne(s.wallets, u) && !Headless(s.wallets, u)
    ensures Valid(s, Unpromoted(u, p, q, first, second))
    ensures After(s, Unpromoted(u, p, q, first, second)).wallets == s.wallets - {p, q}
    ensures Of(s.wallets - {p, q}, u) == {}
  {
    TwoWalletsAreWellFormed(s, u, p, q);
    var s1 := Next(s, RemoveRead(first, u, p));
    var s2 := PrimaryCounted(s, u, p, q, first);
    assert p in Of(s2.wallets, u);
    var s3 := Next(s2, RemoveDelete(first));
    var s4 := Next(s3, PromoteFails(first));
    assert q in Of(s4.wallets, u);
    var s5 := Next(s4, RemoveRead(second, u, q));
    var s6 := Next(s5, RemoveDelete(second));
    assert s6.wallets == s.wallets - {p, q};
    var run := RunCons(s5, RemoveDelete(second), []);
    run := RunCons(s4, RemoveRead(second, u, q), run);
    run := RunCons(s3, PromoteFails(first), run);
    run := RunCons(s2, RemoveDelete(first), run);
    run := RunCons(s1, RemoveCount(first), run);
    run := RunCons(s, RemoveRead(first, u, p), run);
    assert run == Unpromoted(u, p, q, first, second);
  }

  // ---------------------------------------------------------------- the handlers

  datatype Reply = Ok | BadRequest | NotFound

  class WalletStore {
    var wallets: Table

    constructor ()
      ensures wallets == map[] && WellFormed(wallets)
    {
      wallets := map[];
    }

    method LinkWallet(id: Id, user: UserId, address: string, setPrimary: bool, now: int) returns (r: Reply)
      requires id !in wallets
      modifies this
      ensures wallets == Linked(old(wallets), id, user, address, setPrimary, now)
      ensures WellFormed(old(wallets)) ==> WellFormed(wallets)
      ensures r == Ok <==> 32 <= |address| <= 64 && forall x :: x in old(wallets) ==> old(wallets)[x].address != address
      ensures r == Ok ==>
                && id in wallets && wallets[id].user == user && wallets[id].address == address && wallets[id].createdAt == now
                && (wallets[id].isPrimary <==> setPrimary || forall x :: x in old(wallets) ==> old(wallets)[x].user != user)
                && wallets.Keys == old(wallets).Keys + {id}
                && (forall x :: x in old(wallets) ==> SameWallet(wallets[x], old(wallets)[x]))
                && (forall x :: x in old(wallets) ==>
                      (wallets[x].isPrimary <==> old(wallets)[x].isPrimary && !(setPrimary && old(wallets)[x].user == user)))
      ensures r != Ok ==> wallets == old(wallets)
    {
      if WellFormed(wallets) {
        LinkKeepsWellFormed(wallets, id, user, address, setPrimary, now);
      }
      LinkExact(wallets, id, user, address, setPrimary, now);
      if |address| < 32 || |address| > 64 {
        return BadRequest;
      }
      var saved := wallets;
      if setPrimary {
        wallets := map x | x in wallets ::
                     if wallets[x].user == user && wallets[x].isPrimary then wallets[x].(isPrimary := false) else wallets[x];
        assert wallets == Demoted(saved, user);
      }
      assert Of(wallets, user) == Of(saved, user);
      var existing := |Of(wallets, user)|;
      var taken := exists x :: x in wallets && wallets[x].address == address;
      assert taken == !Linkable(saved, address) by {
        assert forall x :: x in saved <==> x in wallets;
        assert forall x :: x in saved ==> wallets[x].address == saved[x].address;
        if taken {
          var x :| x in wallets && wallets[x].address == address;
          assert saved[x].address == address;
        } else {
          forall x | x in saved ensures saved[x].address != address {
            assert wallets[x].address == saved[x].address;
          }
        }
      }
      if taken {
        wallets := saved;  // unique_wallet_address: the transaction rolls back
        return BadRequest;
      }
      wallets := wallets[id := Wallet(user, address, setPrimary || existing == 0, now)];
      r := Ok;
    }

    method SetPrimaryWallet(user: UserId, id: Id) returns (r: Reply)
      modifies this
      ensures wallets == PrimarySet(old(wallets), user, id)
      ensures WellFormed(old(wallets)) ==> WellFormed(wallets)
      ensures r == Ok <==> id in old(wallets) && old(wallets)[id].user == user
      ensures r != Ok ==> wallets == old(wallets)
    {
      if WellFormed(wallets) {
        SetPrimaryKeepsWellFormed(wallets, user, id);
      }
      var saved := wallets;
      wallets := map x | x in wallets ::
                     if wallets[x].user == user && wallets[x].isPrimary then wallets[x].(isPrimary := false) else wallets[x];
      assert wallets == Demoted(saved, user);
      if id in wallets && wallets[id].user == user {
        wallets := wallets[id := wallets[id].(isPrimary := true)];
        return Ok;
      }
      wallets := saved;  // the transaction rolls back
      r := NotFound;
    }

    /** The four statements of a remove; `oldest` is what the promoting subquery finds. */
    method RemoveWallet(user: UserId, id: Id) returns (r: Reply, oldest: Id)
      modifies this
      ensures PicksOldest(old(wallets), user, id, oldest)
      ensures wallets == Removed(old(wallets), user, id, oldest)
      ensures WellFormed(old(wallets)) ==> WellFormed(wallets)
      ensures r == NotFound <==> id !in old(wallets) || old(wallets)[id].user != user
      ensures r == BadRequest <==>
                && id in old(wallets) && old(wallets)[id].user == user && old(wallets)[id].isPrimary
                && forall x :: x in old(wallets) && old(wallets)[x].user == user ==> x == id
      ensures r != Ok ==> wallets == old(wallets)
      ensures r == Ok ==>
                && wallets.Keys == old(wallets).Keys - {id}
                && (forall x :: x in wallets ==> SameWallet(wallets[x], old(wallets)[x]))
                && (forall x :: x in wallets ==>
                      (wallets[x].isPrimary <==>
                         || old(wallets)[x].isPrimary
                         || (&& x == oldest && old(wallets)[x].user == user
                             && forall y :: y in wallets && old(wallets)[y].user == user ==> !old(wallets)[y].isPrimary)))
                && (forall x :: x in wallets && wallets[x].user == user ==>
                      && oldest in wallets && wallets[oldest].user == user
                      && wallets[oldest].createdAt <= wallets[x].createdAt)
    {
      oldest := FindOldest(wallets - {id}, user);
      if WellFormed(wallets) {
        RemoveKeepsWellFormed(wallets, user, id, oldest);
      }
      if !(id in wallets && wallets[id].user == user) {
        return NotFound, oldest;
      }
      assert id in Of(wallets, user);
      RemoveExact(wallets, user, id, oldest);
      if !(wallets[id].isPrimary && Of(wallets, user) - {id} == {}) {
        RemovedRows(wallets, user, id, oldest);
      }
      if wallets[id].isPrimary {
        var others := |Of(wallets, user) - {id}|;
        if others == 0 {
          return BadRequest, oldest;
        }
      }
      wallets := wallets - {id};
      if Primaries(wallets, user) == {} && oldest in Of(wallets, user) {
        wallets := wallets[oldest := wallets[oldest].(isPrimary := true)];
      }
      r := Ok;
    }
  }

  /** A wallet is the user's only one exactly if there are no others to count. */
  lemma RemoveExact(t: Table, u: UserId, id: Id, oldest: Id)
    requires id in t && t[id].user == u && PicksOldest(t, u, id, oldest)
    ensures Of(t, u) - {id} == {} <==> forall x :: x in t && t[x].user == u ==> x == id
    ensures forall x :: x in t && x != id && t[x].user == u ==>
              oldest in t && oldest != id && t[oldest].user == u && t[oldest].createdAt <= t[x].createdAt
  {
    if Of(t, u) - {id} == {} {
      forall x | x in t && t[x].user == u ensures x == id {
        assert x != id ==> x in Of(t, u) - {id};
      }
    }
    forall x | x in t && x != id && t[x].user == u
      ensures oldest in t && oldest != id && t[oldest].user == u && t[oldest].createdAt <= t[x].createdAt
    {
      assert x in Of(t - {id}, u);
    }
  }

  /** What an uninterrupted remove leaves: every other row, with no new mark except that the user's
      oldest remaining wallet becomes primary if none of them is. */
  lemma RemovedRows(t: Table, u: UserId, id: Id, oldest: Id)
    requires id in t && t[id].user == u && !(t[id].isPrimary && Of(t, u) - {id} == {})
    ensures var r := Removed(t, u, id, oldest);
            && r.Keys == t.Keys - {id}
            && (forall x :: x in r ==> SameWallet(r[x], t[x]))
            && (forall x :: x in r ==>
                  (r[x].isPrimary <==>
                     || t[x].isPrimary
                     || (x == oldest && t[x].user == u && forall y :: y in r && t[y].user == u ==> !t[y].isPrimary)))
  {
    PromoteExact(t - {id}, u, oldest);
  }

  method FindOldest(t: Table, u: UserId) returns (oldest: Id)
    ensures Of(t, u) != {} ==> IsOldest(t, u, oldest)
  {
    if Of(t, u) == {} {
      return 0;
    }
    oldest := Selection.MinKey(map id | id in t :: t[id].createdAt, Of(t, u));
  }
}
