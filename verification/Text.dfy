/** The std::string searches that the other modules share. */
module Text {

  /** sub occurs in s at position i. */
  predicate At(s: string, i: int, sub: string) {
    0 <= i <= |s| - |sub| && s[i..i + |sub|] == sub
  }

  ghost predicate Contains(s: string, sub: string) {
    exists i :: At(s, i, sub)
  }

  /** std::string::find for one character, with -1 for npos. */
  function Find(s: string, c: char): (i: int)
    ensures -1 <= i < |s|
    ensures i >= 0 ==> s[i] == c && c !in s[..i]
    ensures i < 0 ==> c !in s
  {
    FindFrom(s, c, 0)
  }

  function FindFrom(s: string, c: char, from: nat): (i: int)
    requires from <= |s|
    ensures i == -1 || (from <= i < |s| && s[i] == c)
    ensures forall j | from <= j < (if i < 0 then |s| else i) :: s[j] != c
    decreases |s| - from
  {
    if from == |s| then -1
    else if s[from] == c then from
    else FindFrom(s, c, from + 1)
  }

  lemma FindAfter(a: string, c: char, b: string)
    requires c !in a
    ensures Find(a + [c] + b, c) == |a|
  {
    var s := a + [c] + b;
    assert s[|a|] == c;
    assert forall k | 0 <= k < |a| :: s[k] == a[k];
  }

  /** std::string::find, with -1 for npos. */
  function FindText(s: string, sub: string, from: nat): (i: int)
    requires from <= |s| + 1
    ensures i == -1 || (i >= from && At(s, i, sub))
    ensures forall j | from <= j < (if i == -1 then |s| + 1 else i) :: !At(s, j, sub)
    decreases |s| + 1 - from
  {
    if from > |s| then -1
    else if At(s, from, sub) then from
    else FindText(s, sub, from + 1)
  }

  /** std::string::rfind, with -1 for npos. */
  function FindLastText(s: string, sub: string, from: nat): (i: int)
    ensures i == -1 || (i <= from && At(s, i, sub))
    ensures forall j | i < j <= from && j >= 0 :: !At(s, j, sub)
  {
    if At(s, from, sub) then from
    else if from == 0 then -1
    else FindLastText(s, sub, from - 1)
  }

  // Text with separators.

  function Join(fields: seq<string>, c: char): string {
    if fields == [] then "" else JoinFrom(fields, c, 0)
  }

  /** The fields from a place on. */
  function JoinFrom(fields: seq<string>, c: char, k: nat): string
    requires k < |fields|
    decreases |fields| - k
  {
    if k + 1 == |fields| then fields[k] else fields[k] + [c] + JoinFrom(fields, c, k + 1)
  }

  /** The fields between separators; there is always one more than separators. */
  function Split(s: string, c: char): (fields: seq<string>)
    ensures fields != []
  {
    SplitFrom(s, c, 0)
  }

  function SplitFrom(s: string, c: char, from: nat): (fields: seq<string>)
    requires from <= |s|
    ensures fields != []
    decreases |s| - from
  {
    var i := FindFrom(s, c, from);
    if i < 0 then [s[from..]] else [s[from..i]] + SplitFrom(s, c, i + 1)
  }

  lemma {:induction false} FieldsAreFree(s: string, c: char, from: nat)
    requires from <= |s|
    ensures forall i | 0 <= i < |SplitFrom(s, c, from)| :: c !in SplitFrom(s, c, from)[i]
    decreases |s| - from
  {
    var i := FindFrom(s, c, from);
    if i >= 0 {
      FieldsAreFree(s, c, i + 1);
    }
  }

  /** The fields have no characters of their own. */
  lemma {:induction false} FieldsHaveNo(s: string, c: char, from: nat, x: char)
    requires from <= |s| && x !in s
    ensures forall i | 0 <= i < |SplitFrom(s, c, from)| :: x !in SplitFrom(s, c, from)[i]
    decreases |s| - from
  {
    var i := FindFrom(s, c, from);
    if i >= 0 {
      FieldsHaveNo(s, c, i + 1, x);
    }
  }

  /** Where the first of some fields ends. */
  lemma FirstFieldEnds(s: string, c: char, from: nat, first: string, rest: string)
    requires from <= |s| && c !in first && s[from..] == first + [c] + rest
    ensures var i := from + |first|;
            FindFrom(s, c, from) == i < |s| && s[from..i] == first && s[i + 1..] == rest
  {
    var i, t := from + |first|, s[from..];
    assert t[|first|] == c && t[..|first|] == first && t[|first| + 1..] == rest;
    assert forall j | from <= j < i :: s[j] == t[j - from] == first[j - from];
    assert s[i] == t[|first|];
    assert s[from..i] == t[..|first|] && s[i + 1..] == t[|first| + 1..];
  }

  ghost predicate Remain(s: string, from: nat, fields: seq<string>, c: char, k: nat)
    requires k < |fields|
  {
    from <= |s| && c !in fields[k] && s[from..] == JoinFrom(fields, c, k)
  }

  /** What is left of the text is the fields from a place on. A proof that only passes this on does not open it. */
  ghost predicate Left(s: string, from: nat, fields: seq<string>, c: char, k: nat)
    requires k < |fields|
  {
    from <= |s| && forall n {:trigger Remain(s, n, fields, c, k)} | n == from :: Remain(s, n, fields, c, k)
  }

  lemma SplitFirst(s: string, from: nat, fields: seq<string>, c: char, k: nat)
    requires k + 1 < |fields| && Left(s, from, fields, c, k) && c !in fields[k + 1]
    ensures var next := from + |fields[k]| + 1;
            Left(s, next, fields, c, k + 1) && SplitFrom(s, c, from) == [fields[k]] + SplitFrom(s, c, next)
  {
    assert Remain(s, from, fields, c, k);
    FirstFieldEnds(s, c, from, fields[k], JoinFrom(fields, c, k + 1));
  }

  lemma SplitLast(s: string, from: nat, fields: seq<string>, c: char, k: nat)
    requires k + 1 == |fields| && Left(s, from, fields, c, k)
    ensures SplitFrom(s, c, from) == [fields[k]]
  {
    assert Remain(s, from, fields, c, k);
    assert forall j | from <= j < |s| :: s[j] == s[from..][j - from];
  }

  /** There is one way only to split a text. */
  lemma {:induction false} SplitUnique(s: string, from: nat, fields: seq<string>, c: char, k: nat)
    requires k < |fields| && Left(s, from, fields, c, k) && forall i | 0 <= i < |fields| :: c !in fields[i]
    ensures SplitFrom(s, c, from) == fields[k..]
    decreases |fields| - k
  {
    FromPlace(fields, k);
    if k + 1 == |fields| {
      SplitLast(s, from, fields, c, k);
    } else {
      SplitFirst(s, from, fields, c, k);
      SplitUnique(s, from + |fields[k]| + 1, fields, c, k + 1);
    }
  }

  lemma FromPlace(fields: seq<string>, k: nat)
    requires k < |fields|
    ensures fields[k..] == [fields[k]] + fields[k + 1..]
  {
  }

  lemma SplitJoin(fields: seq<string>, c: char)
    requires fields != [] && forall i | 0 <= i < |fields| :: c !in fields[i]
    ensures Split(Join(fields, c), c) == fields
  {
    var s := Join(fields, c);
    assert s[0..] == s && fields[0..] == fields;
    assert Remain(s, 0, fields, c, 0);
    SplitUnique(s, 0, fields, c, 0);
  }

  lemma SplitOfTwo(a: string, b: string, c: char)
    requires c !in a && c !in b
    ensures Split(a + [c] + b, c) == [a, b]
  {
    assert JoinFrom([a, b], c, 1) == b;
    SplitJoin([a, b], c);
  }

  lemma {:induction false} JoinedHasNo(fields: seq<string>, c: char, k: nat, x: char)
    requires k < |fields| && x != c && forall i | 0 <= i < |fields| :: x !in fields[i]
    ensures x !in JoinFrom(fields, c, k)
    decreases |fields| - k
  {
    if k + 1 < |fields| {
      JoinedHasNo(fields, c, k + 1, x);
    }
  }
}
