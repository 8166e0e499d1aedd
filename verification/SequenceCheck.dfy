/**
 TestSenderAndReceiver.cpp: the messages that a sender builds, and the account
 that onMessage keeps of the sequence numbers it sees from every sender.
 */
module SequenceCheck {
  import opened Wrappers
  import opened Text
  import opened Decimal

  /** The message that run builds. */
  function Build(id: int, seqNo: int, payload: string): string {
    Print(id) + ";" + Print(seqNo) + ";" + payload
  }

  /** How a call of onMessage ends. There is no check before it goes outside the array. */
  datatype Handling = Done | Threw | OutsideArray

  /** What onMessage makes of a message. */
  datatype Reading =
    | Invalid
    | Unreadable                     // counted as received, but parseInt throws
    | Numbered(id: int, seqNo: int)

  function Read(message: string, threadCount: int): Reading {
    var index := Find(message, ';');
    if index <= 0 then Invalid
    else
      var id := Atoi(message[..index]);
      if id > threadCount then Invalid else ReadNumber(id, message[index + 1..])
  }

  /** What onMessage makes of what comes after the sender. */
  function ReadNumber(id: int, msg: string): Reading {
    var index := Find(msg, ';');
    if index <= 0 then Invalid
    else
      match ParseInt(msg[..index])
      case None => Unreadable
      case Some(n) => Numbered(id, n)
  }

  /** A field without a semicolon is found, and so is what comes after it. */
  lemma FirstField(field: string, rest: string)
    requires ';' !in field
    ensures var s := field + ";" + rest;
            Find(s, ';') == |field| && s[..|field|] == field && s[|field| + 1..] == rest
  {
    FindAfter(field, ';', rest);
  }

  lemma ReadSender(field: string, rest: string, threadCount: int)
    requires ';' !in field && field != ""
    ensures Read(field + ";" + rest, threadCount) ==
            if Atoi(field) > threadCount then Invalid else ReadNumber(Atoi(field), rest)
  {
    FirstField(field, rest);
  }

  lemma ReadNumberField(id: int, field: string, rest: string)
    requires ';' !in field && field != ""
    ensures ReadNumber(id, field + ";" + rest) ==
            if ParseInt(field) == None then Unreadable else Numbered(id, ParseInt(field).value)
  {
    FirstField(field, rest);
  }

  /** Every message that is built reads back as its sender and sequence number, whatever the payload. */
  lemma ReadBuild(id: int, seqNo: int, payload: string, threadCount: int)
    requires IsInt(id) && IsInt(seqNo)
    ensures Read(Build(id, seqNo, payload), threadCount) == if id > threadCount then Invalid else Numbered(id, seqNo)
  {
    var rest := Print(seqNo) + ";" + payload;
    assert Build(id, seqNo, payload) == Print(id) + ";" + rest;
    PrintHasNo(id, ';');
    PrintHasNo(seqNo, ';');
    ParsePrint(id);
    ParsePrint(seqNo);
    ReadSender(Print(id), rest, threadCount);
    ReadNumberField(id, Print(seqNo), payload);
  }

  // The same in terms of the text.

  /** The text does not begin with a field and a semicolon. */
  predicate HasNoField(text: string) {
    forall i | 0 < i < |text| && text[i] == ';' :: ';' in text[..i]
  }

  /** The text is a field that is not empty, a semicolon and the rest. */
  predicate IsSplit(text: string, field: string, rest: string) {
    field != "" && ';' !in field && text == field + ";" + rest
  }

  /** The message names no sender, or one above the thread count, or there is no number after it. */
  ghost predicate IsInvalid(message: string, threadCount: int) {
    || HasNoField(message)
    || exists field, rest :: IsSplit(message, field, rest) && (Atoi(field) > threadCount || HasNoField(rest))
  }

  /** The message names a sender that is let through, a number and a payload. */
  ghost predicate IsMessage(message: string, field: string, number: string, payload: string, threadCount: int) {
    IsSplit(message, field, number + ";" + payload) && IsSplit(number + ";" + payload, number, payload)
    && Atoi(field) <= threadCount
  }

  lemma FieldOrNot(text: string)
    ensures HasNoField(text) <==> Find(text, ';') <= 0
    ensures var i := Find(text, ';'); i > 0 ==> IsSplit(text, text[..i], text[i + 1..])
    ensures forall field, rest | IsSplit(text, field, rest) ::
              Find(text, ';') == |field| > 0 && text[..|field|] == field && text[|field| + 1..] == rest
  {
    var i := Find(text, ';');
    if i > 0 {
      assert text == text[..i] + ";" + text[i + 1..];
    }
    if i == 0 {
      forall j | 0 < j < |text| ensures ';' in text[..j] {
        assert text[..j][0] == ';';
      }
    }
    forall field, rest | IsSplit(text, field, rest)
      ensures Find(text, ';') == |field| > 0 && text[..|field|] == field && text[|field| + 1..] == rest
    {
      FirstField(field, rest);
    }
  }

  /** Exactly the invalid messages are counted as such. */
  lemma InvalidIff(message: string, threadCount: int)
    ensures Read(message, threadCount).Invalid? <==> IsInvalid(message, threadCount)
  {
    FieldOrNot(message);
    var i := Find(message, ';');
    if i > 0 {
      FieldOrNot(message[i + 1..]);
      assert IsSplit(message, message[..i], message[i + 1..]);
    }
  }

  /** What becomes of the others. */
  lemma MessageIsRead(message: string, field: string, number: string, payload: string, threadCount: int)
    requires IsMessage(message, field, number, payload, threadCount)
    ensures Read(message, threadCount) ==
            match ParseInt(number)
            case None => Unreadable
            case Some(n) => Numbered(Atoi(field), n)
  {
    ReadSender(field, number + ";" + payload, threadCount);
    ReadNumberField(Atoi(field), number, payload);
  }

  /** Every message is one or the other. */
  lemma MessageOrNot(message: string, threadCount: int)
    ensures IsInvalid(message, threadCount) <==>
            !exists field, number, payload :: IsMessage(message, field, number, payload, threadCount)
  {
    InvalidIff(message, threadCount);
    if !IsInvalid(message, threadCount) {
      FieldOrNot(message);
      var i := Find(message, ';');
      var rest := message[i + 1..];
      FieldOrNot(rest);
      var j := Find(rest, ';');
      assert rest == rest[..j] + ";" + rest[j + 1..];
      assert IsMessage(message, message[..i], rest[..j], rest[j + 1..], threadCount);
    } else if exists field, number, payload :: IsMessage(message, field, number, payload, threadCount) {
      var field, number, payload :| IsMessage(message, field, number, payload, threadCount);
      MessageIsRead(message, field, number, payload, threadCount);
    }
  }

  /** What a sender builds, as text. */
  lemma BuiltText(payload: string)
    ensures Build(7, 120, payload) == "7;120;" + payload
  {
    assert Print(7) == "7" && PrintNat(12) == "12" && Print(120) == "120";
  }

  /** The listener throws on a message of a sender if and only if the number cannot be parsed. */
  lemma ReadUnreadable(id: int, field: string, payload: string, threadCount: int)
    requires IsInt(id) && id <= threadCount && ';' !in field && field != ""
    ensures Read(Print(id) + ";" + (field + ";" + payload), threadCount).Unreadable? <==> ParseInt(field) == None
  {
    PrintHasNo(id, ';');
    ParsePrint(id);
    ReadSender(Print(id), field + ";" + payload, threadCount);
    ReadNumberField(id, field, payload);
  }

  /** Of the numbered messages of a sender, the guard lets two kinds through for which the array has no place. */
  lemma LetThrough(id: int, seqNo: int, payload: string, threadCount: nat)
    requires IsInt(id) && IsInt(seqNo)
    ensures var r := Read(Build(id, seqNo, payload), threadCount);
            r.Numbered? && !(0 <= r.id < threadCount) <==> id < 0 || id == threadCount
  {
    ReadBuild(id, seqNo, payload, threadCount);
  }

  /** One letter is enough. */
  lemma LetterIsUnreadable(threadCount: nat)
    ensures Read("0;x;", threadCount) == Unreadable
  {
    assert Print(0) == "0" && "0;x;" == Print(0) + ";" + ("x" + ";" + "");
    assert !IsDigit("x"[0]);
    ReadUnreadable(0, "x", "", threadCount);
  }

  /** AtomicInteger::incrementAndGet. */
  function Increment(n: int): int {
    if n == MAX_INT then MIN_INT else n + 1
  }

  function Abs(n: int): nat {
    if n < 0 then -n else n
  }

  // The account, as functions of what has been read.

  /** The sequence numbers of one sender, in the order in which they came. */
  function Seqs(history: seq<Reading>, id: int): seq<int> {
    if history == [] then []
    else
      var n := |history| - 1;
      var r := history[n];
      Seqs(history[..n], id) + if r.Numbered? && r.id == id then [r.seqNo] else []
  }

  function Last(s: seq<int>): int {
    if s == [] then 0 else s[|s| - 1]
  }

  /** The sum of the distances between each number and the successor of the one before it. */
  function Differences(s: seq<int>): nat {
    if s == [] then 0
    else
      var before := s[..|s| - 1];
      Differences(before) + Abs(Last(s) - Increment(Last(before)))
  }

  /** How many numbers are not the successor of the one before. */
  function Bad(s: seq<int>): nat {
    if s == [] then 0
    else
      var before := s[..|s| - 1];
      Bad(before) + if Last(s) == Increment(Last(before)) then 0 else 1
  }

  /** The same for the senders 0, 1, and so on. */
  function BySender(history: seq<Reading>, senders: nat): seq<seq<int>> {
    seq(senders, a => Seqs(history, a))
  }

  function TotalDifferences(seqs: seq<seq<int>>): nat {
    if seqs == [] then 0 else TotalDifferences(seqs[..|seqs| - 1]) + Differences(seqs[|seqs| - 1])
  }

  function TotalBad(seqs: seq<seq<int>>): nat {
    if seqs == [] then 0 else TotalBad(seqs[..|seqs| - 1]) + Bad(seqs[|seqs| - 1])
  }

  function CountInvalid(history: seq<Reading>): nat {
    if history == [] then 0
    else CountInvalid(history[..|history| - 1]) + if history[|history| - 1].Invalid? then 1 else 0
  }

  lemma SeqsNext(history: seq<Reading>, r: Reading, id: int)
    ensures Seqs(history + [r], id) == Seqs(history, id) + if r.Numbered? && r.id == id then [r.seqNo] else []
  {
    assert (history + [r])[..|history|] == history;
  }

  lemma OneMore(s: seq<int>, n: int)
    ensures Differences(s + [n]) == Differences(s) + Abs(n - Increment(Last(s)))
    ensures Bad(s + [n]) == Bad(s) + (if n == Increment(Last(s)) then 0 else 1)
  {
    assert (s + [n])[..|s|] == s;
  }

  /** A change that concerns one sender changes the totals by what it changes there. */
  lemma {:induction false} TotalsChange(seqs: seq<seq<int>>, id: nat, s: seq<int>)
    requires id < |seqs|
    ensures TotalDifferences(seqs[id := s]) - Differences(s) == TotalDifferences(seqs) - Differences(seqs[id])
    ensures TotalBad(seqs[id := s]) - Bad(s) == TotalBad(seqs) - Bad(seqs[id])
  {
    var n := |seqs| - 1;
    if id < n {
      TotalsChange(seqs[..n], id, s);
      assert seqs[id := s][..n] == seqs[..n][id := s];
    } else {
      assert seqs[id := s][..n] == seqs[..n];
    }
  }

  lemma InvalidNext(history: seq<Reading>, r: Reading, senders: nat)
    requires r.Numbered? ==> !(0 <= r.id < senders)
    ensures var after := history + [r];
            && CountInvalid(after) == CountInvalid(history) + (if r.Invalid? then 1 else 0)
            && BySender(after, senders) == BySender(history, senders)
  {
    var after := history + [r];
    assert after[..|history|] == history;
    forall a: nat | a < senders ensures Seqs(after, a) == Seqs(history, a) {
      SeqsNext(history, r, a);
    }
  }

  lemma NumberedNext(history: seq<Reading>, id: nat, seqNo: int, senders: nat)
    requires id < senders
    ensures var after, seqs := history + [Numbered(id, seqNo)], BySender(history, senders);
            var due := Increment(Last(seqs[id]));
            && CountInvalid(after) == CountInvalid(history)
            && BySender(after, senders) == seqs[id := seqs[id] + [seqNo]]
            && TotalDifferences(BySender(after, senders)) == TotalDifferences(seqs) + Abs(seqNo - due)
            && TotalBad(BySender(after, senders)) == TotalBad(seqs) + (if seqNo == due then 0 else 1)
  {
    var after, seqs := history + [Numbered(id, seqNo)], BySender(history, senders);
    assert after[..|history|] == history;
    forall a ensures Seqs(after, a) == Seqs(history, a) + if a == id then [seqNo] else [] {
      SeqsNext(history, Numbered(id, seqNo), a);
    }
    var now := seqs[id := seqs[id] + [seqNo]];
    assert forall a | 0 <= a < senders :: BySender(after, senders)[a] == now[a];
    assert BySender(after, senders) == now;
    OneMore(seqs[id], seqNo);
    TotalsChange(seqs, id, seqs[id] + [seqNo]);
  }

  /** What is kept about the messages read so far. */
  ghost predicate IsAccount(history: seq<Reading>, lasts: seq<int>, received: int, invalid: int, bad: int,
                            differences: int)
  {
    && received + invalid == |history| && invalid == CountInvalid(history)
    && var seqs := BySender(history, |lasts|);
       && (forall a | 0 <= a < |lasts| :: lasts[a] == Last(seqs[a]))
       && bad == TotalBad(seqs) && differences == TotalDifferences(seqs)
  }

  lemma NewAccount(lasts: seq<int>)
    requires forall a | 0 <= a < |lasts| :: lasts[a] == 0
    ensures IsAccount([], lasts, 0, 0, 0, 0)
  {
    NoTotals(BySender([], |lasts|));
  }

  lemma AccountAfterOther(history: seq<Reading>, lasts: seq<int>, received: int, invalid: int, bad: int,
                          differences: int, r: Reading)
    requires IsAccount(history, lasts, received, invalid, bad, differences)
    requires r.Numbered? ==> !(0 <= r.id < |lasts|)
    ensures IsAccount(history + [r], lasts, received + (if r.Invalid? then 0 else 1),
                      invalid + (if r.Invalid? then 1 else 0), bad, differences)
  {
    InvalidNext(history, r, |lasts|);
  }

  lemma AccountAfterNumber(history: seq<Reading>, lasts: seq<int>, received: int, invalid: int, bad: int,
                           differences: int, id: nat, n: int)
    requires IsAccount(history, lasts, received, invalid, bad, differences) && id < |lasts|
    ensures var due := Increment(lasts[id]);
            IsAccount(history + [Numbered(id, n)], lasts[id := n], received + 1, invalid,
                      bad + (if n == due then 0 else 1), differences + Abs(n - due))
  {
    NumberedNext(history, id, n, |lasts|);
    LastsNext(lasts, BySender(history, |lasts|), id, n);
  }

  class TestResults {
    const threadCount: int
    const lastSequence: array<int>
    var received: int
    var invalidMessages: int
    var badSequenceMessages: int
    var sequenceDifferences: int
    ghost var history: seq<Reading>   // one reading for each call

    ghost predicate Invariant()
      reads this, lastSequence
    {
      && threadCount == lastSequence.Length
      && IsAccount(history, lastSequence[..], received, invalidMessages, badSequenceMessages, sequenceDifferences)
    }

    /** The invariant, for one account: a caller that only passes it on does not open it. */
    ghost predicate Valid()
      reads this, lastSequence
    {
      && threadCount == lastSequence.Length
      && forall t: TestResults {:trigger t.Invariant()} | t == this :: t.Invariant()
    }

    constructor (count: nat)
      ensures Valid() && threadCount == count && history == [] && fresh(lastSequence)
    {
      threadCount := count;
      lastSequence := new int[count](_ => 0);
      received, invalidMessages, badSequenceMessages, sequenceDifferences := 0, 0, 0, 0;
      history := [];
      new;
      NewAccount(lastSequence[..]);
      assert Invariant();
    }

    method OnMessage(message: string) returns (end: Handling)
      requires Valid()
      modifies this, lastSequence
      ensures Valid() && history == old(history) + [Read(message, threadCount)]
      ensures end == Threw <==> Read(message, threadCount).Unreadable?
      ensures end == OutsideArray <==>
              Read(message, threadCount).Numbered? && !(0 <= Read(message, threadCount).id < threadCount)
      // in terms of the text
      ensures if IsInvalid(message, threadCount) then
                && end == Done && invalidMessages == old(invalidMessages) + 1
                && unchanged(`received, `badSequenceMessages, `sequenceDifferences, lastSequence)
              else
                invalidMessages == old(invalidMessages) && received == old(received) + 1
      ensures forall field, number, payload | IsMessage(message, field, number, payload, threadCount) ::
                match ParseInt(number)
                case None => end == Threw && unchanged(lastSequence)
                case Some(n) =>
                  if 0 <= Atoi(field) < threadCount then
                    end == Done && n == lastSequence[Atoi(field)]
                  else end == OutsideArray && unchanged(lastSequence)
    {
      Texts(message);
      var index := Find(message, ';');
      if index <= 0 {
        CountInvalidMessage();
        return Done;
      }
      var thrdidx, msg := Atoi(message[..index]), message[index + 1..];
      if thrdidx > threadCount {
        CountInvalidMessage();
        return Done;
      }
      index := Find(msg, ';');
      if index <= 0 {
        CountInvalidMessage();
        return Done;
      }
      var thrdseq := ParseInt(msg[..index]);
      if thrdseq == None {
        CountReceived(Unreadable);
        return Threw;
      }
      if thrdidx < 0 || thrdidx == threadCount {
        CountReceived(Numbered(thrdidx, thrdseq.value));
        return OutsideArray;
      }
      Account(thrdidx, thrdseq.value);
      return Done;
    }

    /** How the text of a message decides what is read. */
    lemma Texts(message: string)
      ensures Read(message, threadCount).Invalid? <==> IsInvalid(message, threadCount)
      ensures forall field, number, payload {:trigger IsMessage(message, field, number, payload, threadCount)} |
                IsMessage(message, field, number, payload, threadCount) ::
                Read(message, threadCount) ==
                match ParseInt(number)
                case None => Unreadable
                case Some(n) => Numbered(Atoi(field), n)
    {
      InvalidIff(message, threadCount);
      forall field, number, payload | IsMessage(message, field, number, payload, threadCount)
        ensures Read(message, threadCount) ==
                match ParseInt(number)
                case None => Unreadable
                case Some(n) => Numbered(Atoi(field), n)
      {
        MessageIsRead(message, field, number, payload, threadCount);
      }
    }

    method CountInvalidMessage()
      requires Valid()
      modifies `invalidMessages, `history
      ensures Valid() && history == old(history) + [Invalid] && invalidMessages == old(invalidMessages) + 1
    {
      assert Invariant();
      AccountAfterOther(history, lastSequence[..], received, invalidMessages, badSequenceMessages,
                        sequenceDifferences, Invalid);
      history := history + [Invalid];
      invalidMessages := invalidMessages + 1;
      assert Invariant();
    }

    /** A message that is counted, and goes no further. */
    method CountReceived(ghost r: Reading)
      requires Valid() && !r.Invalid? && (r.Numbered? ==> !(0 <= r.id < threadCount))
      modifies `received, `history
      ensures Valid() && history == old(history) + [r] && received == old(received) + 1
    {
      assert Invariant();
      AccountAfterOther(history, lastSequence[..], received, invalidMessages, badSequenceMessages,
                        sequenceDifferences, r);
      history := history + [r];
      received := received + 1;
      assert Invariant();
    }

    method Account(thrdidx: int, thrdseq: int)
      requires Valid() && 0 <= thrdidx < threadCount
      modifies `received, `badSequenceMessages, `sequenceDifferences, `history, lastSequence
      ensures Valid() && history == old(history) + [Numbered(thrdidx, thrdseq)]
      ensures received == old(received) + 1 && lastSequence[thrdidx] == thrdseq
    {
      assert Invariant();
      AccountAfterNumber(history, lastSequence[..], received, invalidMessages, badSequenceMessages,
                         sequenceDifferences, thrdidx, thrdseq);
      received := received + 1;
      Compare(thrdidx, thrdseq);
      history := history + [Numbered(thrdidx, thrdseq)];
      assert Invariant();
    }

    /** Compares a sequence number with the one that is due, and keeps it. */
    method Compare(thrdidx: nat, thrdseq: int)
      requires thrdidx < lastSequence.Length
      modifies `badSequenceMessages, `sequenceDifferences, lastSequence
      ensures lastSequence[..] == old(lastSequence[..])[thrdidx := thrdseq]
      ensures var was := old(lastSequence[thrdidx]);
              var due := if was == 2147483647 then -2147483648 else was + 1;
              && badSequenceMessages == old(badSequenceMessages) + (if thrdseq == due then 0 else 1)
              && sequenceDifferences == old(sequenceDifferences) + Abs(thrdseq - due)
    {
      lastSequence[thrdidx] := Increment(lastSequence[thrdidx]);
      var curseq := lastSequence[thrdidx];
      if thrdseq != curseq {
        lastSequence[thrdidx] := thrdseq;
        badSequenceMessages := badSequenceMessages + 1;
        var diffseq := if thrdseq > curseq then thrdseq - curseq else curseq - thrdseq;
        sequenceDifferences := sequenceDifferences + diffseq;
      }
    }
  }

  /** The last numbers, after one more. */
  lemma LastsNext(lasts: seq<int>, seqs: seq<seq<int>>, id: nat, n: int)
    requires |lasts| == |seqs| && id < |seqs| && forall a | 0 <= a < |seqs| :: lasts[a] == Last(seqs[a])
    ensures var lasts', seqs' := lasts[id := n], seqs[id := seqs[id] + [n]];
            forall a | 0 <= a < |seqs| :: lasts'[a] == Last(seqs'[a])
  {
  }

  lemma {:induction false} NoTotals(seqs: seq<seq<int>>)
    requires forall a | 0 <= a < |seqs| :: seqs[a] == []
    ensures TotalDifferences(seqs) == TotalBad(seqs) == 0
  {
    if seqs != [] {
      NoTotals(seqs[..|seqs| - 1]);
    }
  }

  // The laws of the account of one sender.

  /** Every number but the last has a successor that fits into an int. */
  predicate Small(s: seq<int>) {
    forall i | 0 <= i < |s| - 1 :: s[i] < MAX_INT
  }

  /** However the messages of a sender are lost, repeated or reordered, the account shows at least what is missing. */
  lemma {:induction false} DifferencesBound(s: seq<int>)
    requires Small(s)
    ensures Differences(s) >= Abs(Last(s) - |s|)
  {
    if s != [] {
      DifferencesBound(s[..|s| - 1]);
    }
  }

  predicate Increasing(s: seq<int>) {
    forall i, j | 0 <= i < j < |s| :: s[i] < s[j]
  }

  /** When messages are lost but none is repeated or reordered, the account shows what is missing, but for the start. */
  lemma {:induction false} DifferencesExact(s: seq<int>)
    requires Small(s) && Increasing(s) && s != []
    ensures Differences(s) == Last(s) - |s| + if s[0] <= 0 then 2 * (1 - s[0]) else 0
  {
    var before := s[..|s| - 1];
    if before != [] {
      DifferencesExact(before);
    }
  }

  /** The account of a sender is clean if and only if its numbers are 1, 2, 3 and so on. */
  lemma {:induction false} CleanAccount(s: seq<int>)
    requires Small(s)
    ensures Differences(s) == 0 <==> forall i | 0 <= i < |s| :: s[i] == i + 1
    ensures Bad(s) == 0 <==> Differences(s) == 0
  {
    if s != [] {
      CleanAccount(s[..|s| - 1]);
    }
  }

  /** But senders begin with 0: a delivery without a fault is one bad message, with difference one. */
  lemma {:induction false} PerfectDelivery(s: seq<int>)
    requires |s| <= MAX_INT && s != [] && forall i | 0 <= i < |s| :: s[i] == i
    ensures Differences(s) == Bad(s) == 1
  {
    if |s| > 1 {
      PerfectDelivery(s[..|s| - 1]);
    }
  }

  function Active(seqs: seq<seq<int>>): nat {
    if seqs == [] then 0 else Active(seqs[..|seqs| - 1]) + if seqs[|seqs| - 1] == [] then 0 else 1
  }

  /** A delivery without a fault shows one for each active sender, however the senders are interleaved. */
  lemma {:induction false} PerfectRun(seqs: seq<seq<int>>)
    requires forall a | 0 <= a < |seqs| :: |seqs[a]| <= MAX_INT && forall i | 0 <= i < |seqs[a]| :: seqs[a][i] == i
    ensures TotalDifferences(seqs) == TotalBad(seqs) == Active(seqs)
  {
    if seqs != [] {
      PerfectRun(seqs[..|seqs| - 1]);
      var s := seqs[|seqs| - 1];
      if s != [] {
        PerfectDelivery(s);
      }
    }
  }

  ghost predicate IsBuilt(message: string, id: int, seqNo: int, payloads: seq<string>) {
    exists i :: 0 <= i < |payloads| && message == Build(id, seqNo, payloads[i])
  }

  /** The message has that sender and number, and one of the payloads. */
  ghost predicate Carries(message: string, id: int, seqNo: int, payloads: seq<string>) {
    forall m {:trigger IsBuilt(m, id, seqNo, payloads)} | m == message :: IsBuilt(m, id, seqNo, payloads)
  }

  lemma BuiltCarries(id: int, seqNo: int, payloads: seq<string>, i: nat)
    requires i < |payloads|
    ensures Carries(Build(id, seqNo, payloads[i]), id, seqNo, payloads)
  {
    assert IsBuilt(Build(id, seqNo, payloads[i]), id, seqNo, payloads);
  }

  lemma OneMoreCarried(delivered: seq<string>, id: int, payloads: seq<string>, i: nat)
    requires i < |payloads| && forall k | 0 <= k < |delivered| :: Carries(delivered[k], id, k, payloads)
    ensures var after := delivered + [Build(id, |delivered|, payloads[i])];
            forall k | 0 <= k < |after| :: Carries(after[k], id, k, payloads)
  {
    BuiltCarries(id, |delivered|, payloads, i);
  }

  /** What a sender delivers is read as its own, with consecutive numbers. */
  lemma DeliveredIsRead(message: string, id: int, seqNo: int, payloads: seq<string>, threadCount: int)
    requires Carries(message, id, seqNo, payloads) && IsInt(id) && IsInt(seqNo) && id <= threadCount
    ensures Read(message, threadCount) == Numbered(id, seqNo)
  {
    assert IsBuilt(message, id, seqNo, payloads);
    var i :| 0 <= i < |payloads| && message == Build(id, seqNo, payloads[i]);
    ReadBuild(id, seqNo, payloads[i], threadCount);
  }

  /** How many of the first n sends succeed. */
  function Successes(ok: seq<bool>, n: nat): nat
    requires n <= |ok|
  {
    if n == 0 then 0 else Successes(ok, n - 1) + if ok[n - 1] then 1 else 0
  }

  lemma {:induction false} SuccessesAre(ok: seq<bool>, n: nat)
    requires n <= |ok|
    ensures Successes(ok, n) == multiset(ok[..n])[true]
  {
    if n > 0 {
      SuccessesAre(ok, n - 1);
      assert ok[..n] == ok[..n - 1] + [ok[n - 1]];
    }
  }

  /** The i-th payload was delivered, with the number of the sends before it that succeeded. */
  ghost predicate DeliveredAt(delivered: seq<string>, id: int, payloads: seq<string>, ok: seq<bool>, i: nat)
    requires i < |payloads| == |ok|
  {
    var k := Successes(ok, i);
    k < |delivered| && delivered[k] == Build(id, k, payloads[i])
  }

  lemma OneMoreDelivered(delivered: seq<string>, id: int, payloads: seq<string>, ok: seq<bool>, i: nat)
    requires i < |payloads| == |ok| && ok[i] && |delivered| == Successes(ok, i)
    requires forall j {:trigger DeliveredAt(delivered, id, payloads, ok, j)} | 0 <= j < i && ok[j] ::
               DeliveredAt(delivered, id, payloads, ok, j)
    ensures var after := delivered + [Build(id, |delivered|, payloads[i])];
            forall j {:trigger DeliveredAt(after, id, payloads, ok, j)} | 0 <= j <= i && ok[j] ::
              DeliveredAt(after, id, payloads, ok, j)
  {
    var after := delivered + [Build(id, |delivered|, payloads[i])];
    forall j | 0 <= j < i && ok[j] ensures DeliveredAt(after, id, payloads, ok, j) {
      assert DeliveredAt(delivered, id, payloads, ok, j);
    }
  }

  class TestSender {
    const id: int
    var sendIndex: int
    var sent: int
    var sendErrors: int

    constructor (id: int)
      ensures this.id == id && sendIndex == sent == sendErrors == 0
    {
      this.id := id;
      sendIndex, sent, sendErrors := 0, 0, 0;
    }

    /**
     One turn of the loop for each payload, until quit. The i-th send succeeds if ok[i]. What was sent
     is numbered without a gap, whichever sends failed.
     */
    method Run(payloads: seq<string>, ok: seq<bool>) returns (delivered: seq<string>)
      requires |payloads| == |ok| && sendIndex == sent == sendErrors == 0
      modifies this
      ensures sendIndex == sent == |delivered| == Successes(ok, |ok|) && sent + sendErrors == |payloads|
      ensures forall k | 0 <= k < |delivered| :: Carries(delivered[k], id, k, payloads)
      // each payload whose send succeeds has its own place
      ensures forall i {:trigger DeliveredAt(delivered, id, payloads, ok, i)} | 0 <= i < |ok| && ok[i] ::
                DeliveredAt(delivered, id, payloads, ok, i)
    {
      delivered := [];
      for i := 0 to |payloads|
        invariant sendIndex == sent == |delivered| == Successes(ok, i) && sent + sendErrors == i
        invariant forall k | 0 <= k < |delivered| :: Carries(delivered[k], id, k, payloads)
        invariant forall j {:trigger DeliveredAt(delivered, id, payloads, ok, j)} | 0 <= j < i && ok[j] ::
                    DeliveredAt(delivered, id, payloads, ok, j)
      {
        var message := Build(id, sendIndex, payloads[i]);
        if ok[i] {
          OneMoreCarried(delivered, id, payloads, i);
          OneMoreDelivered(delivered, id, payloads, ok, i);
          delivered := delivered + [message];
          sendIndex := sendIndex + 1;
          sent := sent + 1;
        } else {
          sendErrors := sendErrors + 1;
        }
      }
    }
  }
}
