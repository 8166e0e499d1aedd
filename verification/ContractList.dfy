/** MdCommander::getContractArray: a list of contracts, counted, allocated and filled in two passes. */
module ContractList {
  import opened Wrappers
  import opened Text

  /** What strcpy keeps of a string. */
  function CString(s: string): (r: string)
    ensures 0 as char !in s ==> r == s
  {
    var i := Find(s, 0 as char);
    if i < 0 then s else s[..i]
  }

  /** std::count, from a position. */
  function Count(s: string, c: char, from: nat): nat
    requires from <= |s|
    decreases |s| - from
  {
    if from == |s| then 0 else (if s[from] == c then 1 else 0) + Count(s, c, from + 1)
  }

  predicate EndsWith(s: string, c: char) {
    s != "" && s[|s| - 1] == c
  }

  function Last(fields: seq<string>): string
    requires fields != []
  {
    fields[|fields| - 1]
  }

  /** What the slots hold in the end; the last slot stays as it was allocated if the last field is empty. */
  function Slots(contracts: string, separator: char): (slots: seq<Option<string>>)
  {
    var fields := Split(contracts, separator);
    seq(|fields|, i requires 0 <= i < |fields| =>
      if i == |fields| - 1 && Last(fields) == "" then None else Some(CString(fields[i])))
  }

  lemma {:induction false} CountSkips(s: string, c: char, from: nat, to: nat)
    requires from <= to <= |s| && forall j | from <= j < to :: s[j] != c
    ensures Count(s, c, from) == Count(s, c, to)
    decreases |s| - from
  {
    if from < to {
      CountSkips(s, c, from + 1, to);
    }
  }

  /** The separators plus one are the fields. */
  lemma {:induction false} CountSplit(s: string, c: char, from: nat)
    requires from <= |s|
    ensures Count(s, c, from) + 1 == |SplitFrom(s, c, from)|
    decreases |s| - from
  {
    var i := FindFrom(s, c, from);
    if i >= 0 {
      CountSkips(s, c, from, i);
      CountSplit(s, c, i + 1);
    } else {
      CountSkips(s, c, from, |s|);
    }
  }

  /** Where the last field begins: at the end when there is nothing after the last separator. */
  function LastStart(s: string, c: char, from: nat): (p: nat)
    requires from <= |s|
    ensures from <= p <= |s|
    ensures p == |s| <==> from == |s| || s[|s| - 1] == c
    decreases |s| - from
  {
    var i := FindFrom(s, c, from);
    if i < 0 then from else LastStart(s, c, i + 1)
  }

  lemma {:induction false} LastField(s: string, c: char, from: nat)
    requires from <= |s|
    ensures Last(SplitFrom(s, c, from)) == s[LastStart(s, c, from)..]
    decreases |s| - from
  {
    var i := FindFrom(s, c, from);
    if i >= 0 {
      LastField(s, c, i + 1);
      LastOfMore(s[from..i], SplitFrom(s, c, i + 1));
    }
  }

  lemma LastOfMore(first: string, others: seq<string>)
    requires others != []
    ensures Last([first] + others) == Last(others)
  {
  }

  /** One slot stays unfilled exactly when the text is empty or ends with the separator. */
  lemma UnfilledSlot(contracts: string, separator: char)
    ensures var slots := Slots(contracts, separator);
            && |slots| == Count(contracts, separator, 0) + 1
            && (forall i | 0 <= i < |slots| - 1 :: slots[i].Some?)
            && (slots[|slots| - 1] == None <==> contracts == "" || EndsWith(contracts, separator))
  {
    CountSplit(contracts, separator, 0);
    LastField(contracts, separator, 0);
  }

  /** A list of contracts, all there. */
  function All(contracts: seq<string>): seq<Option<string>> {
    seq(|contracts|, i requires 0 <= i < |contracts| => Some(contracts[i]))
  }

  /** A joined list of contracts without separators and NULs is recovered if and only if its last is not empty. */
  lemma Recovered(contracts: seq<string>, separator: char)
    requires contracts != []
    requires forall i | 0 <= i < |contracts| :: separator !in contracts[i] && 0 as char !in contracts[i]
    ensures Slots(Join(contracts, separator), separator) == All(contracts) <==> Last(contracts) != ""
  {
    SplitJoin(contracts, separator);
    var slots := Slots(Join(contracts, separator), separator);
    var n := |contracts| - 1;
    assert forall i | 0 <= i < n :: slots[i] == Some(CString(contracts[i])) == All(contracts)[i];
    assert slots[n] == if Last(contracts) == "" then None else Some(CString(contracts[n]));
    assert All(contracts)[n] == Some(contracts[n]) == Some(CString(contracts[n]));
  }

  /** A contract with a NUL loses what comes from there on. */
  lemma CutAtNul(contracts: seq<string>, separator: char, i: nat, before: string, after: string)
    requires forall k | 0 <= k < |contracts| :: separator !in contracts[k]
    requires i < |contracts| && contracts[i] == before + [0 as char] + after && 0 as char !in before
    ensures |Slots(Join(contracts, separator), separator)| == |contracts|
    ensures Slots(Join(contracts, separator), separator)[i] == Some(before)
  {
    SplitJoin(contracts, separator);
    FindAfter(before, 0 as char, after);
    assert contracts[i][..|before|] == before;
  }

  /** The slots hold all fields, or all but an empty one at the end. */
  lemma SlotsAreThese(slots: seq<Option<string>>, fields: seq<string>, contracts: string, separator: char, filled: nat)
    requires fields == Split(contracts, separator) && |slots| == |fields|
    requires filled == if Last(fields) == "" then |fields| - 1 else |fields|
    requires forall k | 0 <= k < filled :: slots[k] == Some(CString(fields[k]))
    requires forall k | filled <= k < |slots| :: slots[k] == None
    ensures slots == Slots(contracts, separator)
  {
  }

  lemma MoveFirst(a: seq<string>, x: string, b: seq<string>)
    ensures a + ([x] + b) == (a + [x]) + b
  {
  }

  method GetContractArray(contracts: string, separator: char) returns (contractArray: array<Option<string>>, count: nat)
    ensures fresh(contractArray) && contractArray.Length == count
    ensures contractArray[..] == Slots(contracts, separator)
  {
    ghost var fields := Split(contracts, separator);
    CountSplit(contracts, separator, 0);
    count := Count(contracts, separator, 0) + 1;
    contractArray := new Option<string>[count](_ => None);
    assert LeftAt(contracts, separator, 0, fields);
    ghost var read, left := FillSlots(contracts, separator, contractArray, fields);
    AtTheEnd(contracts, separator, fields, read, left);
    SlotsAreThese(contractArray[..], fields, contracts, separator, |read|);
  }

  /** The loop: the fields that were read are in the slots, in order. */
  method FillSlots(contracts: string, separator: char, contractArray: array<Option<string>>, ghost fields: seq<string>)
    returns (ghost read: seq<string>, ghost left: seq<string>)
    requires Remaining(contracts, separator, 0, fields) && |fields| == contractArray.Length
    requires forall k | 0 <= k < contractArray.Length :: contractArray[k] == None
    modifies contractArray
    ensures fields == read + left && Remaining(contracts, separator, |contracts|, left)
    ensures forall k | 0 <= k < |read| :: contractArray[k] == Some(CString(read[k]))
    ensures forall k | |read| <= k < contractArray.Length :: contractArray[k] == None
  {
    var i, pos := 0, 0;
    read, left := [], fields;
    while pos < |contracts|
      invariant pos <= |contracts| && |read| == i && |fields| == contractArray.Length && fields == read + left
      invariant Remaining(contracts, separator, pos, left)
      invariant forall k | 0 <= k < i :: contractArray[k] == Some(CString(read[k]))
      invariant forall k | i <= k < contractArray.Length :: contractArray[k] == None
    {
      var contract, next := NextLine(contracts, separator, pos, left);
      contractArray[i] := Some(CString(contract));
      i, pos := i + 1, next;
      MoveFirst(read, contract, left[1..]);
      read, left := read + [contract], left[1..];
    }
  }

  /**
   The fields left for std::getline: those from the position on, or none when the text ended with a field instead
   of a separator.
   */
  ghost predicate LeftAt(s: string, c: char, pos: nat, left: seq<string>) {
    pos <= |s| && (left == SplitFrom(s, c, pos) || (left == [] && pos == |s| > 0 && s[|s| - 1] != c))
  }

  /** The same, for one position: a loop that only passes it on does not open it. */
  ghost predicate Remaining(s: string, c: char, pos: nat, left: seq<string>) {
    forall p: nat {:trigger LeftAt(s, c, p, left)} | p == pos :: LeftAt(s, c, p, left)
  }

  /** What is left at the end is an empty field after a separator, or nothing. */
  lemma AtTheEnd(s: string, c: char, fields: seq<string>, read: seq<string>, left: seq<string>)
    requires fields == Split(s, c) && fields == read + left && Remaining(s, c, |s|, left)
    ensures if Last(fields) == "" then |read| == |fields| - 1 && left == [""] else read == fields
    ensures forall k | 0 <= k < |read| :: read[k] == fields[k]
  {
    assert LeftAt(s, c, |s|, left);
    LastField(s, c, 0);
    assert s[|s|..] == "" && SplitFrom(s, c, |s|) == [""];
    if left == [""] {
      assert Last(fields) == Last(left);
    }
  }

  /** std::getline: the line, and where the next one begins. */
  method NextLine(s: string, c: char, pos: nat, ghost left: seq<string>) returns (line: string, next: nat)
    requires pos < |s| && Remaining(s, c, pos, left)
    ensures pos < next <= |s| && |left| > 0 && left == [line] + left[1..] && Remaining(s, c, next, left[1..])
  {
    assert LeftAt(s, c, pos, left);
    var i := FindFrom(s, c, pos);
    if i < 0 {
      line, next := s[pos..], |s|;
    } else {
      line, next := s[pos..i], i + 1;
    }
    assert LeftAt(s, c, next, left[1..]);
  }
}
