/** The canonical text of a meter reading that devices sign: can it be read back? */
module Canonical {
  import opened Prelude

  datatype Message = Message(serial: string, timestamp: string, kwh: string, wallet: string)

  const NEWLINE: char := '\n'
  const HEADER := "GRIDTOKENX_METER_READING\nmeter_serial: "
  const TIMESTAMP := "timestamp: "
  const KWH := "kwh_amount: "
  const WALLET := "wallet: "

  function Canonical(m: Message): string {
    HEADER + (m.serial + [NEWLINE] + (TIMESTAMP + m.timestamp + [NEWLINE] + (KWH + m.kwh + [NEWLINE] + (WALLET + m.wallet))))
  }

  /** The text that is signed, letter by letter. */
  lemma TextIs(m: Message)
    ensures Canonical(m) == "GRIDTOKENX_METER_READING\nmeter_serial: " + m.serial + "\ntimestamp: " + m.timestamp
                            + "\nkwh_amount: " + m.kwh + "\nwallet: " + m.wallet
  {
  }

  predicate OneLine(s: string) {
    NEWLINE !in s
  }

  // ---------------------------------------------------------------- reading forwards

  /** Position of the first newline, or the length if there is none. */
  function FirstBreak(s: string): (i: nat)
    ensures i <= |s| && (i < |s| ==> s[i] == NEWLINE) && NEWLINE !in s[..i]
  {
    if s == "" then 0
    else if s[0] == NEWLINE then 0
    else
      var i := 1 + FirstBreak(s[1..]);
      assert s[..i] == [s[0]] + s[1..][..i - 1];
      i
  }

  /** Split off `tag` at the front and the text up to the next newline. */
  function Field(s: string, tag: string): Option<(string, string)> {
    if !(tag <= s) then None
    else
      var rest := s[|tag|..];
      var i := FirstBreak(rest);
      if i == |rest| then None else Some((rest[..i], rest[i + 1..]))
  }

  /** A reader for the labelled lines: three one-line fields, then the wallet as the rest. */
  function Parse(s: string): Option<Message> {
    match Field(s, HEADER)
    case None => None
    case Some((serial, r1)) =>
      match Field(r1, TIMESTAMP)
      case None => None
      case Some((timestamp, r2)) =>
        match Field(r2, KWH)
        case None => None
        case Some((kwh, r3)) => if WALLET <= r3 then Some(Message(serial, timestamp, kwh, r3[|WALLET|..])) else None
  }

  lemma BreakAfter(a: string, rest: string)
    requires OneLine(a)
    ensures FirstBreak(a + [NEWLINE] + rest) == |a|
  {
    var s := a + [NEWLINE] + rest;
    var i := FirstBreak(s);
    assert forall k :: 0 <= k < |a| ==> s[k] == a[k];
    assert s[|a|] == NEWLINE;
    assert forall k :: 0 <= k < i ==> s[..i][k] == s[k];
  }

  lemma FieldReads(tag: string, a: string, rest: string)
    requires OneLine(a)
    ensures Field(tag + (a + [NEWLINE] + rest), tag) == Some((a, rest))
  {
    var s := tag + (a + [NEWLINE] + rest);
    assert s[|tag|..] == a + [NEWLINE] + rest;
    BreakAfter(a, rest);
    assert tag <= s;
    assert s[|tag|..][..|a|] == a && s[|tag|..][|a| + 1..] == rest;
  }

  /** The reader inverts the printer for any wallet text, if the other fields are single lines. */
  lemma ParseInvertsPrint(m: Message)
    requires OneLine(m.serial) && OneLine(m.timestamp) && OneLine(m.kwh)
    ensures Parse(Canonical(m)) == Some(m)
  {
    var r3 := WALLET + m.wallet;
    var r2 := KWH + (m.kwh + [NEWLINE] + r3);
    var r1 := TIMESTAMP + (m.timestamp + [NEWLINE] + r2);
    assert KWH + m.kwh + [NEWLINE] + r3 == r2;
    assert TIMESTAMP + m.timestamp + [NEWLINE] + r2 == r1;
    FieldReads(HEADER, m.serial, r1);
    FieldReads(TIMESTAMP, m.timestamp, r2);
    FieldReads(KWH, m.kwh, r3);
    assert r3[|WALLET|..] == m.wallet;
  }

  /** Hence equal texts mean equal messages, among messages with single-line serials. */
  lemma UniquelyReadable(m: Message, n: Message)
    requires OneLine(m.serial) && OneLine(m.timestamp) && OneLine(m.kwh)
    requires OneLine(n.serial) && OneLine(n.timestamp) && OneLine(n.kwh)
    requires Canonical(m) == Canonical(n)
    ensures m == n
  {
    ParseInvertsPrint(m);
    ParseInvertsPrint(n);
  }

  // ---------------------------------------------------------------- reading backwards

  /** Cutting two texts at their last newline. */
  lemma LastBreakUnique(a: string, x: string, b: string, y: string)
    requires OneLine(x) && OneLine(y) && a + [NEWLINE] + x == b + [NEWLINE] + y
    ensures a == b && x == y
  {
    var s := a + [NEWLINE] + x;
    assert s[|a|] == NEWLINE && s[|b|] == NEWLINE;
    assert forall k :: |a| < k < |s| ==> s[k] == x[k - |a| - 1];
    assert forall k :: |b| < k < |s| ==> s[k] == y[k - |b| - 1];
    assert s[..|a|] == a && s[..|b|] == b;
    assert s[|a| + 1..] == x && s[|b| + 1..] == y;
  }

  lemma DropLabel(tag: string, x: string, y: string)
    requires tag + x == tag + y
    ensures x == y
  {
    assert (tag + x)[|tag|..] == x && (tag + y)[|tag|..] == y;
  }

  lemma OneLineJoin(tag: string, x: string)
    requires OneLine(tag) && OneLine(x)
    ensures OneLine(tag + x)
  {
  }

  /** A text of single-line wallet, amount and timestamp can be read from the end, whatever the serial. */
  lemma UniquelyReadableFromTheEnd(m: Message, n: Message)
    requires OneLine(m.wallet) && OneLine(m.timestamp) && OneLine(m.kwh)
    requires OneLine(n.wallet) && OneLine(n.timestamp) && OneLine(n.kwh)
    requires Canonical(m) == Canonical(n)
    ensures m == n
  {
    Regroup(m);
    Regroup(n);
    OneLineJoin(WALLET, m.wallet);
    OneLineJoin(WALLET, n.wallet);
    LastBreakUnique(UpToKwh(m), WALLET + m.wallet, UpToKwh(n), WALLET + n.wallet);
    DropLabel(WALLET, m.wallet, n.wallet);
    OneLineJoin(KWH, m.kwh);
    OneLineJoin(KWH, n.kwh);
    LastBreakUnique(UpToTimestamp(m), KWH + m.kwh, UpToTimestamp(n), KWH + n.kwh);
    DropLabel(KWH, m.kwh, n.kwh);
    OneLineJoin(TIMESTAMP, m.timestamp);
    OneLineJoin(TIMESTAMP, n.timestamp);
    LastBreakUnique(HEADER + m.serial, TIMESTAMP + m.timestamp, HEADER + n.serial, TIMESTAMP + n.timestamp);
    DropLabel(TIMESTAMP, m.timestamp, n.timestamp);
    DropLabel(HEADER, m.serial, n.serial);
  }

  function UpToTimestamp(m: Message): string {
    HEADER + m.serial + [NEWLINE] + (TIMESTAMP + m.timestamp)
  }

  function UpToKwh(m: Message): string {
    UpToTimestamp(m) + [NEWLINE] + (KWH + m.kwh)
  }

  lemma Regroup(m: Message)
    ensures Canonical(m) == UpToKwh(m) + [NEWLINE] + (WALLET + m.wallet)
  {
  }

  /** With newlines in a serial and in a wallet, two messages can share one text: whatever the
      fields, the second reading of a text with two blocks of labelled lines is another message. */
  lemma AmbiguousWithBoth(serial: string, time: string, kwh: string, time2: string, kwh2: string, w: string, w2: string)
    ensures var tail := [NEWLINE] + (TIMESTAMP + time2 + [NEWLINE] + (KWH + kwh2 + [NEWLINE] + (WALLET + w2)));
            var head := serial + [NEWLINE] + (TIMESTAMP + time + [NEWLINE] + (KWH + kwh + [NEWLINE] + (WALLET + w)));
            var m, n := Message(serial, time, kwh, w + tail), Message(head, time2, kwh2, w2);
            Canonical(m) == Canonical(n) && m != n
  {
    var tail := [NEWLINE] + (TIMESTAMP + time2 + [NEWLINE] + (KWH + kwh2 + [NEWLINE] + (WALLET + w2)));
    var head := serial + [NEWLINE] + (TIMESTAMP + time + [NEWLINE] + (KWH + kwh + [NEWLINE] + (WALLET + w)));
    var m, n := Message(serial, time, kwh, w + tail), Message(head, time2, kwh2, w2);
    assert Canonical(m) == HEADER + (head + tail);
    assert Canonical(n) == HEADER + (head + tail);
    assert |m.serial| < |n.serial|;
  }
}
