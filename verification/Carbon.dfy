/** The carbon-credit ledger: transfers append credit rows and a log entry in one transaction. */
module Carbon {
  import opened Prelude

  type UserId = int

  datatype Status = Active | Retired | Transferred

  datatype Credit = Credit(user: UserId, amount: real, status: Status)

  datatype Transfer = Transfer(sender: UserId, recipient: UserId, amount: real)

  /** A renewable-energy certificate, which the balance query adds in. */
  datatype CertStatus = CertActive | CertRetired | CertExpired | CertTransferred
  datatype Certificate = Certificate(user: UserId, amount: real, status: CertStatus)

  datatype Ledger = Ledger(credits: seq<Credit>, log: seq<Transfer>)

  // ---------------------------------------------------------------- sums over rows

  /** Which rows a sum runs over. */
  datatype Filter = AllRows | OfUser(user: UserId) | OfUserWith(user: UserId, status: Status) | With(status: Status)

  predicate Picks(f: Filter, c: Credit) {
    match f
    case AllRows => true
    case OfUser(u) => c.user == u
    case OfUserWith(u, st) => c.user == u && c.status == st
    case With(st) => c.status == st
  }

  function Share(f: Filter, c: Credit): real {
    if Picks(f, c) then c.amount else 0.0
  }

  function Sum(f: Filter, cs: seq<Credit>): real {
    if cs == [] then 0.0 else Sum(f, cs[..|cs| - 1]) + Share(f, cs[|cs| - 1])
  }

  function Received(log: seq<Transfer>, u: UserId): real {
    if log == [] then 0.0
    else Received(log[..|log| - 1], u) + (if log[|log| - 1].recipient == u then log[|log| - 1].amount else 0.0)
  }

  function Sent(log: seq<Transfer>, u: UserId): real {
    if log == [] then 0.0
    else Sent(log[..|log| - 1], u) + (if log[|log| - 1].sender == u then log[|log| - 1].amount else 0.0)
  }

  function Volume(log: seq<Transfer>): real {
    if log == [] then 0.0 else Volume(log[..|log| - 1]) + log[|log| - 1].amount
  }

  lemma SumSnoc(f: Filter, cs: seq<Credit>, c: Credit)
    ensures Sum(f, cs + [c]) == Sum(f, cs) + Share(f, c)
  {
  }

  lemma SumTwo(f: Filter, cs: seq<Credit>, c: Credit, d: Credit)
    ensures Sum(f, cs + [c, d]) == Sum(f, cs) + Share(f, c) + Share(f, d)
  {
    SumSnoc(f, cs, c);
    SumSnoc(f, cs + [c], d);
    assert cs + [c] + [d] == cs + [c, d];
  }

  /** A user's sums run over that user's rows of the status in question, and over no others. */
  lemma SumsPickTheirRows(cs: seq<Credit>, c: Credit, u: UserId, st: Status)
    ensures Sum(OfUserWith(u, st), []) == Sum(OfUser(u), []) == 0.0
    ensures Sum(OfUserWith(u, st), cs + [c]) ==
            if c.user == u && c.status == st then Sum(OfUserWith(u, st), cs) + c.amount else Sum(OfUserWith(u, st), cs)
    ensures Sum(OfUser(u), cs + [c]) == if c.user == u then Sum(OfUser(u), cs) + c.amount else Sum(OfUser(u), cs)
  {
    SumSnoc(OfUserWith(u, st), cs, c);
    SumSnoc(OfUser(u), cs, c);
  }

  // ---------------------------------------------------------------- transferring

  datatype Reply = Done | BadAmount | NoRecipient | ToSelf | Insufficient

  /** A transfer request with the recipient its wallet address was found to belong to, if any: each
      request looks it up anew. */
  datatype Request = Request(sender: UserId, recipient: Option<UserId>, amount: real)

  function Resolved(users: map<string, UserId>, sender: UserId, toWallet: string, amount: real): Request {
    Request(sender, if toWallet in users then Some(users[toWallet]) else None, amount)
  }

  /** The checks of a transfer, in order. */
  function Check(l: Ledger, q: Request): Reply {
    if q.amount <= 0.0 then BadAmount
    else if q.recipient.None? then NoRecipient
    else if q.recipient.value == q.sender then ToSelf
    else if Sum(OfUserWith(q.sender, Active), l.credits) < q.amount then Insufficient
    else Done
  }

  function Applied(l: Ledger, q: Request): Ledger {
    if Check(l, q) != Done then l
    else
      var r := q.recipient.value;
      Ledger(l.credits + [Credit(q.sender, -q.amount, Transferred), Credit(r, q.amount, Active)],
             l.log + [Transfer(q.sender, r, q.amount)])
  }

  /** What an accepted transfer needs. */
  predicate Covered(l: Ledger, q: Request) {
    && q.amount > 0.0 && q.recipient.Some? && q.recipient.value != q.sender
    && Sum(OfUserWith(q.sender, Active), l.credits) >= q.amount
  }

  /** The rows change exactly if the amount is positive, the recipient is known and not the sender, and
      the sender's active rows add up to the amount; then by one debit, one credit and one entry. */
  lemma TransferExact(l: Ledger, q: Request)
    ensures Applied(l, q) != l <==> Covered(l, q)
    ensures Covered(l, q) ==>
              && Applied(l, q).credits ==
                 l.credits + [Credit(q.sender, -q.amount, Transferred), Credit(q.recipient.value, q.amount, Active)]
              && Applied(l, q).log == l.log + [Transfer(q.sender, q.recipient.value, q.amount)]
  {
    if Covered(l, q) {
      assert |Applied(l, q).log| == |l.log| + 1;
    }
  }

  /** The first condition that fails decides the reply. */
  lemma ReplyExact(l: Ledger, q: Request)
    ensures Check(l, q) == BadAmount <==> q.amount <= 0.0
    ensures Check(l, q) == NoRecipient <==> q.amount > 0.0 && q.recipient == None
    ensures Check(l, q) == ToSelf <==> q.amount > 0.0 && q.recipient == Some(q.sender)
    ensures Check(l, q) == Insufficient <==>
              && q.amount > 0.0 && q.recipient.Some? && q.recipient.value != q.sender
              && Sum(OfUserWith(q.sender, Active), l.credits) < q.amount
    ensures Check(l, q) == Done <==> Covered(l, q)
  {
  }

  function Run(l: Ledger, qs: seq<Request>): Ledger
    decreases |qs|
  {
    if qs == [] then l else Run(Applied(l, qs[0]), qs[1..])
  }

  /** The ledger rows account for everything in the log, on top of what was there at first. */
  ghost predicate Agrees(first: Ledger, l: Ledger, u: UserId) {
    UserAgrees(first, l, u) && StatusAgrees(first, l, u) && GlobalAgrees(first, l)
  }

  ghost predicate UserAgrees(first: Ledger, l: Ledger, u: UserId) {
    Sum(OfUser(u), l.credits) - Received(l.log, u) + Sent(l.log, u)
    == Sum(OfUser(u), first.credits) - Received(first.log, u) + Sent(first.log, u)
  }

  ghost predicate StatusAgrees(first: Ledger, l: Ledger, u: UserId) {
    && Sum(OfUserWith(u, Active), l.credits) - Received(l.log, u)
       == Sum(OfUserWith(u, Active), first.credits) - Received(first.log, u)
    && Sum(OfUserWith(u, Transferred), l.credits) + Sent(l.log, u)
       == Sum(OfUserWith(u, Transferred), first.credits) + Sent(first.log, u)
    && Sum(OfUserWith(u, Retired), l.credits) == Sum(OfUserWith(u, Retired), first.credits)
  }

  ghost predicate GlobalAgrees(first: Ledger, l: Ledger) {
    && Sum(AllRows, l.credits) == Sum(AllRows, first.credits)
    && Sum(With(Active), l.credits) - Volume(l.log) == Sum(With(Active), first.credits) - Volume(first.log)
  }

  /** What a committed transfer adds to any sum. */
  lemma TransferAdds(l: Ledger, q: Request, f: Filter)
    requires Check(l, q) == Done
    ensures Sum(f, Applied(l, q).credits) == Sum(f, l.credits)
            + Share(f, Credit(q.sender, -q.amount, Transferred)) + Share(f, Credit(q.recipient.value, q.amount, Active))
  {
    SumTwo(f, l.credits, Credit(q.sender, -q.amount, Transferred), Credit(q.recipient.value, q.amount, Active));
  }

  lemma TransferLogs(l: Ledger, q: Request, u: UserId)
    requires Check(l, q) == Done
    ensures var t := Applied(l, q);
            && Received(t.log, u) == Received(l.log, u) + (if q.recipient.value == u then q.amount else 0.0)
            && Sent(t.log, u) == Sent(l.log, u) + (if q.sender == u then q.amount else 0.0)
            && Volume(t.log) == Volume(l.log) + q.amount
  {
  }

  lemma TransferAgrees(l: Ledger, q: Request, u: UserId)
    ensures Agrees(l, Applied(l, q), u)
  {
    if Check(l, q) == Done {
      TransferLogs(l, q, u);
      assert UserAgrees(l, Applied(l, q), u) by {
        TransferAdds(l, q, OfUser(u));
      }
      assert StatusAgrees(l, Applied(l, q), u) by {
        TransferAdds(l, q, OfUserWith(u, Active));
        TransferAdds(l, q, OfUserWith(u, Transferred));
        TransferAdds(l, q, OfUserWith(u, Retired));
      }
      assert GlobalAgrees(l, Applied(l, q)) by {
        TransferAdds(l, q, AllRows);
        TransferAdds(l, q, With(Active));
      }
    }
  }

  /** After any run of transfer requests: each user's all-status sum is the initial one plus
      logged receipts minus logged sends, and the sum over all users has not changed. The active
      sum only ever grows, by receipts; what is sent is booked against `transferred`, so the
      active sum over all users grows by the whole volume transferred. */
  lemma {:induction false} LedgerAgreement(l: Ledger, qs: seq<Request>, u: UserId)
    ensures Agrees(l, Run(l, qs), u)
    decreases |qs|
  {
    if qs == [] {
    } else {
      TransferAgrees(l, qs[0], u);
      LedgerAgreement(Applied(l, qs[0]), qs[1..], u);
    }
  }

  /** `n` requests into the run, its `k`-th log entry is about to be added, and the sender's active
      rows cover it. */
  ghost predicate AddedCovered(l: Ledger, qs: seq<Request>, e: Transfer, k: nat, n: nat) {
    && n <= |qs| && |Run(l, qs[..n]).log| == k
    && 0.0 < e.amount <= Sum(OfUserWith(e.sender, Active), Run(l, qs[..n]).credits) && e.sender != e.recipient
  }

  /** No run overdraws: every entry it adds to the log was, when it was added, positive, between two
      different users, and at most the sender's active sum. */
  lemma {:induction false} EntriesAreCovered(l: Ledger, qs: seq<Request>, k: nat) returns (n: nat)
    requires |l.log| <= k < |Run(l, qs).log|
    ensures AddedCovered(l, qs, Run(l, qs).log[k], k, n)
    decreases |qs|
  {
    var l1 := Applied(l, qs[0]);
    TransferExact(l, qs[0]);
    if l1 != l && k == |l.log| {
      n := 0;
      LogGrows(l1, qs[1..]);
      assert qs[..0] == [];
    } else {
      var m := EntriesAreCovered(l1, qs[1..], k);
      n := m + 1;
      assert qs[..n][0] == qs[0] && qs[..n][1..] == qs[1..][..m];
    }
  }

  /** Entries once written stay. */
  lemma {:induction false} LogGrows(l: Ledger, qs: seq<Request>)
    ensures l.log <= Run(l, qs).log
    decreases |qs|
  {
    if qs == [] {
    } else {
      LogGrows(Applied(l, qs[0]), qs[1..]);
    }
  }

  function Repeat(q: Request, n: nat): seq<Request> {
    if n == 0 then [] else [q] + Repeat(q, n - 1)
  }

  function Times(n: nat, x: real): real {
    n as real * x
  }

  lemma TimesStep(n: nat, x: real)
    ensures Times(n + 1, x) == Times(n, x) + x && Times(0, x) == 0.0
  {
  }

  /** No transfer, whoever makes it, lowers an active sum. */
  lemma StillAccepted(l: Ledger, q: Request, other: Request)
    requires Check(l, q) == Done
    ensures Check(Applied(l, other), q) == Done
  {
    if Check(l, other) == Done {
      TransferAdds(l, other, OfUserWith(q.sender, Active));
    }
  }

  function Logged(q: Request): Transfer {
    Transfer(q.sender, q.recipient.UnwrapOr(0), q.amount)
  }

  lemma LogSnoc(log: seq<Transfer>, e: Transfer)
    ensures multiset(log + [e]) == multiset(log) + multiset{e}
  {
  }

  /** What one request adds to the log entries that equal those of an accepted `q`. */
  lemma LoggedOnce(l: Ledger, q: Request, other: Request)
    requires Check(l, q) == Done
    ensures multiset(Applied(l, other).log)[Logged(q)] == multiset(l.log)[Logged(q)] + (if other == q then 1 else 0)
  {
    if Check(l, other) == Done {
      LogSnoc(l.log, Logged(other));
    }
  }

  /** A transfer that would be accepted once is accepted every time it is asked for, whatever other
      transfers come first or in between: the log gains one entry for each time. */
  lemma {:induction false} AcceptedOnceAcceptedAlways(l: Ledger, q: Request, qs: seq<Request>)
    requires Check(l, q) == Done
    ensures var t := Run(l, qs);
            && Check(t, q) == Done
            && multiset(t.log)[Logged(q)] == multiset(l.log)[Logged(q)] + multiset(qs)[q]
    decreases |qs|
  {
    if qs == [] {
    } else {
      StillAccepted(l, q, qs[0]);
      LoggedOnce(l, q, qs[0]);
      AcceptedOnceAcceptedAlways(Applied(l, qs[0]), q, qs[1..]);
      assert qs == [qs[0]] + qs[1..];
    }
  }

  /** In particular n repetitions move n times the amount. */
  lemma {:induction false} AcceptedTransferRepeats(l: Ledger, q: Request, n: nat)
    requires Check(l, q) == Done
    ensures var t := Run(l, Repeat(q, n));
            && |t.log| == |l.log| + n
            && Check(t, q) == Done
            && Received(t.log, q.recipient.value) == Received(l.log, q.recipient.value) + Times(n, q.amount)
    decreases n
  {
    if n == 0 {
      TimesStep(0, q.amount);
    } else {
      var t := Applied(l, q);
      StillAccepted(l, q, q);
      TransferLogs(l, q, q.recipient.value);
      AcceptedTransferRepeats(t, q, n - 1);
      assert Repeat(q, n)[1..] == Repeat(q, n - 1);
      TimesStep(n - 1, q.amount);
    }
  }

  // ---------------------------------------------------------------- the balance query

  datatype Balance = Balance(total: real, active: real, retired: real, transferred: real)

  function CertSum(cs: seq<Certificate>, u: UserId, only: set<CertStatus>): real {
    if cs == [] then 0.0
    else
      var c := cs[|cs| - 1];
      CertSum(cs[..|cs| - 1], u, only) + (if c.user == u && c.status in only then c.amount else 0.0)
  }

  const ANY_CERT: set<CertStatus> := {CertActive, CertRetired, CertExpired, CertTransferred}

  function BalanceOf(l: Ledger, certs: seq<Certificate>, u: UserId): Balance {
    Balance(Sum(OfUser(u), l.credits) + CertSum(certs, u, ANY_CERT),
            Sum(OfUserWith(u, Active), l.credits) + CertSum(certs, u, {CertActive}),
            Sum(OfUserWith(u, Retired), l.credits) + CertSum(certs, u, {CertRetired}),
            Sum(OfUserWith(u, Transferred), l.credits))
  }

  lemma {:induction false} StatusSplit(cs: seq<Credit>, u: UserId)
    ensures Sum(OfUser(u), cs)
            == Sum(OfUserWith(u, Active), cs) + Sum(OfUserWith(u, Retired), cs) + Sum(OfUserWith(u, Transferred), cs)
  {
    if cs == [] {
    } else {
      StatusSplit(cs[..|cs| - 1], u);
    }
  }

  lemma {:induction false} CertSplit(cs: seq<Certificate>, u: UserId)
    ensures CertSum(cs, u, ANY_CERT)
            == CertSum(cs, u, {CertActive}) + CertSum(cs, u, {CertRetired}) + CertSum(cs, u, {CertExpired, CertTransferred})
  {
    if cs == [] {
    } else {
      CertSplit(cs[..|cs| - 1], u);
    }
  }

  /** The reported total is active plus retired plus transferred exactly when the user's expired
      and transferred certificates add up to nothing: those count towards the total only. */
  lemma TotalSplits(l: Ledger, certs: seq<Certificate>, u: UserId)
    ensures var b := BalanceOf(l, certs, u);
            && b.total == b.active + b.retired + b.transferred + CertSum(certs, u, {CertExpired, CertTransferred})
            && (b.total == b.active + b.retired + b.transferred <==> CertSum(certs, u, {CertExpired, CertTransferred}) == 0.0)
  {
    StatusSplit(l.credits, u);
    CertSplit(certs, u);
  }

  /** Each part of the balance follows its own rows: without rows all are zero, and a credit row adds
      to the total and to the part of its status. */
  lemma BalanceFollowsCredits(l: Ledger, certs: seq<Certificate>, u: UserId, c: Credit)
    ensures BalanceOf(Ledger([], l.log), [], u) == Balance(0.0, 0.0, 0.0, 0.0)
    ensures var b, after := BalanceOf(l, certs, u), BalanceOf(Ledger(l.credits + [c], l.log), certs, u);
            if c.user != u then after == b
            else match c.status
              case Active => after == Balance(b.total + c.amount, b.active + c.amount, b.retired, b.transferred)
              case Retired => after == Balance(b.total + c.amount, b.active, b.retired + c.amount, b.transferred)
              case Transferred => after == Balance(b.total + c.amount, b.active, b.retired, b.transferred + c.amount)
  {
    SumsPickTheirRows(l.credits, c, u, Active);
    SumsPickTheirRows(l.credits, c, u, Retired);
    SumsPickTheirRows(l.credits, c, u, Transferred);
  }

  /** A certificate adds to the total and, while active or retired, to that part. */
  lemma BalanceFollowsCertificates(l: Ledger, certs: seq<Certificate>, u: UserId, d: Certificate)
    ensures var b, after := BalanceOf(l, certs, u), BalanceOf(l, certs + [d], u);
            if d.user != u then after == b
            else match d.status
              case CertActive => after == Balance(b.total + d.amount, b.active + d.amount, b.retired, b.transferred)
              case CertRetired => after == Balance(b.total + d.amount, b.active, b.retired + d.amount, b.transferred)
              case CertExpired => after == Balance(b.total + d.amount, b.active, b.retired, b.transferred)
              case CertTransferred => after == Balance(b.total + d.amount, b.active, b.retired, b.transferred)
  {
    CertSumsPickTheirRows(certs, d, u);
  }

  lemma CertSumsPickTheirRows(cs: seq<Certificate>, d: Certificate, u: UserId)
    ensures CertSum(cs + [d], u, ANY_CERT) == CertSum(cs, u, ANY_CERT) + if d.user == u then d.amount else 0.0
    ensures CertSum(cs + [d], u, {CertActive}) ==
            CertSum(cs, u, {CertActive}) + if d.user == u && d.status == CertActive then d.amount else 0.0
    ensures CertSum(cs + [d], u, {CertRetired}) ==
            CertSum(cs, u, {CertRetired}) + if d.user == u && d.status == CertRetired then d.amount else 0.0
  {
    assert d.status.CertActive? || d.status.CertRetired? || d.status.CertExpired? || d.status.CertTransferred?;
    CertSnoc(cs, d, u, ANY_CERT);
    CertSnoc(cs, d, u, {CertActive});
    CertSnoc(cs, d, u, {CertRetired});
  }

  lemma CertSnoc(cs: seq<Certificate>, d: Certificate, u: UserId, only: set<CertStatus>)
    ensures CertSum(cs + [d], u, only) == CertSum(cs, u, only) + if d.user == u && d.status in only then d.amount else 0.0
  {
  }

  // ---------------------------------------------------------------- the handler

  class CarbonService {
    var credits: seq<Credit>
    var log: seq<Transfer>

    constructor ()
      ensures Rows() == Ledger([], [])
    {
      credits, log := [], [];
    }

    ghost function Rows(): Ledger
      reads this
    {
      Ledger(credits, log)
    }

    /** A rejected transfer changes no row. `users` is the directory of wallet addresses at the time. */
    method TransferCredits(users: map<string, UserId>, sender: UserId, toWallet: string, amount: real)
      returns (r: Reply)
      modifies this
      ensures r == Check(old(Rows()), Resolved(users, sender, toWallet, amount))
      ensures Rows() == Applied(old(Rows()), Resolved(users, sender, toWallet, amount))
      ensures r == BadAmount <==> amount <= 0.0
      ensures r == NoRecipient <==> amount > 0.0 && toWallet !in users
      ensures r == ToSelf <==> amount > 0.0 && toWallet in users && users[toWallet] == sender
      ensures r == Insufficient <==>
                && amount > 0.0 && toWallet in users && users[toWallet] != sender
                && Sum(OfUserWith(sender, Active), old(credits)) < amount
      ensures r == Done ==>
                && credits == old(credits) + [Credit(sender, -amount, Transferred), Credit(users[toWallet], amount, Active)]
                && log == old(log) + [Transfer(sender, users[toWallet], amount)]
      ensures r != Done ==> Rows() == old(Rows())
    {
      if amount <= 0.0 {
        return BadAmount;
      }
      if toWallet !in users {
        return NoRecipient;
      }
      var recipient := users[toWallet];
      if recipient == sender {
        return ToSelf;
      }
      var balance := SumRows(OfUserWith(sender, Active));
      if balance < amount {
        return Insufficient;
      }
      credits := credits + [Credit(sender, -amount, Transferred)];
      credits := credits + [Credit(recipient, amount, Active)];
      log := log + [Transfer(sender, recipient, amount)];
      assert credits == old(credits) + [Credit(sender, -amount, Transferred), Credit(recipient, amount, Active)];
      r := Done;
    }

    method SumRows(f: Filter) returns (total: real)
      ensures total == Sum(f, credits)
    {
      total := 0.0;
      var i := 0;
      while i < |credits|
        invariant 0 <= i <= |credits|
        invariant total == Sum(f, credits[..i])
      {
        assert credits[..i + 1][..i] == credits[..i];
        if Picks(f, credits[i]) {
          total := total + credits[i].amount;
        }
        i := i + 1;
      }
      assert credits[..i] == credits;
    }
  }
}
