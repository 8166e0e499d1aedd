/** ActiveMQDestination.cpp and ActiveMQDestination.h: the names of destinations. */
module Destinations {
  import opened Wrappers
  import opened Provider
  import opened Text
  import opened QueryOptions

  const QUEUE_PREFIX := "queue://"
  const TOPIC_PREFIX := "topic://"
  const TEMP_QUEUE_PREFIX := "temp-queue://"
  const TEMP_TOPIC_PREFIX := "temp-topic://"
  const TEMP_OPEN := "{TD{"
  const TEMP_CLOSE := "}TD}"

  // Printing and parsing.

  /** The name that setPhysicalName keeps: options begin with a question mark. */
  function WithoutOptions(name: string): (r: string)
    ensures '?' !in r && r <= name && forall c | c in r :: c in name
    ensures '?' !in name ==> r == name
  {
    var i := Find(name, '?');
    if i < 0 then name else name[..i]
  }

  function New(kind: DestinationType, name: string): Destination {
    Destination(kind, WithoutOptions(name))
  }

  /** What becomes of the options that a destination has when it is given a name. */
  function OptionsAfter(env: Environment, options: Options, name: string): Parsed {
    var i := Find(name, '?');
    if i < 0 then Parsed(options, true) else ParseAll(env, options, name[i + 1..])
  }

  /** The name has no options, or options without a mistake. A destination cannot be made with another one. */
  predicate Accepted(env: Environment, name: string) {
    OptionsAfter(env, map[], name).ok
  }

  lemma AcceptedIff(env: Environment, options: Options, name: string)
    ensures OptionsAfter(env, options, name).ok <==> Accepted(env, name)
    ensures '?' !in name ==> Accepted(env, name) && OptionsAfter(env, options, name).options == options
  {
    var i := Find(name, '?');
    if i >= 0 {
      OptionsDoNotMatter(env, options, name[i + 1..]);
    }
  }

  /** A prefix without a question mark has no part in the options. */
  lemma SameOptions(env: Environment, options: Options, prefix: string, name: string)
    requires '?' !in prefix
    ensures OptionsAfter(env, options, prefix + name) == OptionsAfter(env, options, name)
  {
    var i := Find(name, '?');
    if i < 0 {
      assert '?' !in prefix + name;
    } else {
      FindAfter(prefix + name[..i], '?', name[i + 1..]);
      assert prefix + name == prefix + name[..i] + ['?'] + name[i + 1..];
      assert (prefix + name)[|prefix| + i + 1..] == name[i + 1..];
    }
  }

  /** Options that are written after a name are read from it, and leave the name as it is. */
  lemma NameWithOptions(env: Environment, kind: DestinationType, options: Options, name: string, entries: seq<Entry>)
    requires '?' !in name && entries != [] && forall i | 0 <= i < |entries| :: IsClean(entries[i])
    ensures var text := name + ['?'] + Join(PrintEntries(entries), '&');
            && New(kind, text) == Destination(kind, name)
            && OptionsAfter(env, options, text) == Parsed(Update(options, entries, |entries|), true)
  {
    var query := Join(PrintEntries(entries), '&');
    FindAfter(name, '?', query);
    var text := name + ['?'] + query;
    assert text[..|name|] == name && text[|name| + 1..] == query;
    ParsePrintedQuery(env, options, entries);
  }

  const ADVISORY_PREFIX := "ActiveMQ.Advisory."

  /** find_first_of is 0 when the first character is any one of the prefix. */
  predicate LooksAdvisory(name: string) {
    name != "" && name[0] in ADVISORY_PREFIX
  }

  /** So every advisory name is flagged, and with it every name that begins with one of these letters. */
  lemma AdvisoryFlag(name: string)
    ensures StartsWith(name, "ActiveMQ.Advisory.") ==> LooksAdvisory(name)
    ensures (LooksAdvisory(name) <==> StartsWith(name, "ActiveMQ.Advisory.")) <==>
            StartsWith(name, "ActiveMQ.Advisory.") || name == "" || name[0] !in "ActiveMQ.Adsory"
    ensures LooksAdvisory("test") && !StartsWith("test", "ActiveMQ.Advisory.")
  {
  }

  predicate StartsWith(s: string, prefix: string) {
    At(s, 0, prefix)
  }

  function CreateDestination(kind: DestinationType, name: string): Destination {
    if StartsWith(name, QUEUE_PREFIX) then New(QUEUE, name[|QUEUE_PREFIX|..])
    else if StartsWith(name, TOPIC_PREFIX) then New(TOPIC, name[|TOPIC_PREFIX|..])
    else if StartsWith(name, TEMP_QUEUE_PREFIX) then New(TEMPORARY_QUEUE, name[|TEMP_QUEUE_PREFIX|..])
    else if StartsWith(name, TEMP_TOPIC_PREFIX) then New(TEMPORARY_TOPIC, name[|TEMP_TOPIC_PREFIX|..])
    else New(kind, name)
  }

  /** The destination, if the options of the name are accepted. */
  function Create(env: Environment, kind: DestinationType, name: string): Option<Destination> {
    if Accepted(env, name) then Some(CreateDestination(kind, name)) else None
  }

  function Qualifier(kind: DestinationType): string {
    match kind
    case TOPIC => TOPIC_PREFIX
    case QUEUE => QUEUE_PREFIX
    case TEMPORARY_TOPIC => TEMP_TOPIC_PREFIX
    case TEMPORARY_QUEUE => TEMP_QUEUE_PREFIX
  }

  function ToString(d: Destination): string {
    Qualifier(d.kind) + d.name
  }

  /** What the qualifiers mean: each of the four texts makes its own kind, whatever the default. */
  lemma QualifiedText(kind: DestinationType, n: string)
    ensures CreateDestination(kind, "queue://" + n) == New(QUEUE, n)
    ensures CreateDestination(kind, "topic://" + n) == New(TOPIC, n)
    ensures CreateDestination(kind, "temp-queue://" + n) == New(TEMPORARY_QUEUE, n)
    ensures CreateDestination(kind, "temp-topic://" + n) == New(TEMPORARY_TOPIC, n)
  {
    ParseQualified(Destination(QUEUE, n), kind);
    ParseQualified(Destination(TOPIC, n), kind);
    ParseQualified(Destination(TEMPORARY_QUEUE, n), kind);
    ParseQualified(Destination(TEMPORARY_TOPIC, n), kind);
  }

  lemma PrintedText(n: string)
    ensures ToString(Destination(QUEUE, n)) == "queue://" + n
    ensures ToString(Destination(TOPIC, n)) == "topic://" + n
    ensures ToString(Destination(TEMPORARY_QUEUE, n)) == "temp-queue://" + n
    ensures ToString(Destination(TEMPORARY_TOPIC, n)) == "temp-topic://" + n
  {
  }

  /** Any other text is a name of the default kind, up to a question mark. */
  lemma PlainText(kind: DestinationType, name: string, options: string)
    requires !StartsWith(name, "queue://") && !StartsWith(name, "topic://")
    requires !StartsWith(name, "temp-queue://") && !StartsWith(name, "temp-topic://") && '?' !in name
    ensures CreateDestination(kind, name) == Destination(kind, name)
    ensures CreateDestination(kind, name + "?" + options) == Destination(kind, name)
  {
    assert !IsQualified(name);
    CreatedFromPlain(kind, name);
    var text := name + "?" + options;
    FindAfter(name, '?', options);
    assert text[..|name|] == name;
    forall k ensures !StartsWith(text, Qualifier(k)) {
      QualifierIsSimple(k);
      PrefixBefore(name, options, Qualifier(k));
    }
    CreatedFromPlain(kind, text);
  }

  /** What begins a text with a question mark and has none itself begins what is before it. */
  lemma PrefixBefore(name: string, options: string, prefix: string)
    requires '?' !in prefix
    ensures StartsWith(name + "?" + options, prefix) ==> StartsWith(name, prefix)
  {
    var text := name + "?" + options;
    if StartsWith(text, prefix) {
      assert text[|name|] == '?' && forall i | 0 <= i < |prefix| :: prefix[i] == text[i];
      assert |prefix| <= |name|;
      assert name[0..|prefix|] == text[0..|prefix|];
    }
  }

  /** The four qualifiers are told apart by their letters 0 and 5. */
  lemma QualifierIsRecognised(kind: DestinationType, name: string, other: DestinationType)
    ensures StartsWith(Qualifier(kind) + name, Qualifier(other)) <==> kind == other
    ensures (Qualifier(kind) + name)[|Qualifier(kind)|..] == name
  {
    var s := Qualifier(kind) + name;
    if StartsWith(s, Qualifier(other)) {
      assert s[0] == Qualifier(other)[0] == Qualifier(kind)[0];
      assert s[5] == Qualifier(other)[5] == Qualifier(kind)[5];
    }
  }

  /** A printed destination is parsed as itself, whatever the default kind, even if its name looks qualified. */
  lemma ParsePrinted(env: Environment, d: Destination, kind: DestinationType)
    ensures Create(env, kind, ToString(d)) == if Accepted(env, d.name) then Some(New(d.kind, d.name)) else None
    ensures '?' !in d.name <==> Create(env, kind, ToString(d)) == Some(d)
  {
    ParseQualified(d, kind);
    QualifierIsSimple(d.kind);
    SameOptions(env, map[], Qualifier(d.kind), d.name);
    AcceptedIff(env, map[], d.name);
  }

  lemma ParseQualified(d: Destination, kind: DestinationType)
    ensures CreateDestination(kind, ToString(d)) == New(d.kind, d.name)
  {
    QualifierIsRecognised(d.kind, d.name, QUEUE);
    QualifierIsRecognised(d.kind, d.name, TOPIC);
    QualifierIsRecognised(d.kind, d.name, TEMPORARY_QUEUE);
    QualifierIsRecognised(d.kind, d.name, TEMPORARY_TOPIC);
  }

  /** Parsing anything, printing it and parsing again gives the same destination, in any environment. */
  lemma ParsePrintParse(env: Environment, kind: DestinationType, text: string, env': Environment,
                        other: DestinationType)
    ensures var parsed := Create(env, kind, text);
            parsed.Some? ==> Create(env', other, ToString(parsed.value)) == parsed
  {
    CreatedIsClean(kind, text);
    ParsePrinted(env', CreateDestination(kind, text), other);
  }

  lemma CreatedIsClean(kind: DestinationType, text: string)
    ensures '?' !in CreateDestination(kind, text).name
  {
  }

  /** name begins with one of the four qualifiers. */
  ghost predicate IsQualified(name: string) {
    exists kind :: StartsWith(name, Qualifier(kind))
  }

  /** a is b with its kind spelt out, where b leaves it to the default. */
  ghost predicate SpellsOut(kind: DestinationType, a: string, b: string) {
    a == Qualifier(kind) + b && !IsQualified(b)
  }

  lemma CreatedFromQualified(kind: DestinationType, name: string, own: DestinationType)
    requires StartsWith(name, Qualifier(own))
    ensures CreateDestination(kind, name) == New(own, name[|Qualifier(own)|..])
    ensures name == Qualifier(own) + name[|Qualifier(own)|..]
  {
    PrefixAndRest(name, Qualifier(own));
    ParseQualified(Destination(own, name[|Qualifier(own)|..]), kind);
  }

  lemma PrefixAndRest(name: string, prefix: string)
    requires StartsWith(name, prefix)
    ensures |prefix| <= |name| && name == prefix + name[|prefix|..]
  {
    assert name[0..|prefix|] == prefix;
  }

  lemma CreatedFromPlain(kind: DestinationType, name: string)
    requires !IsQualified(name)
    ensures CreateDestination(kind, name) == New(kind, name)
  {
    assert !StartsWith(name, Qualifier(QUEUE)) && !StartsWith(name, Qualifier(TOPIC));
    assert !StartsWith(name, Qualifier(TEMPORARY_QUEUE)) && !StartsWith(name, Qualifier(TEMPORARY_TOPIC));
  }

  /** Two names make the same destination if and only if one of them is the other with the default kind spelt out. */
  lemma EqualCreations(kind: DestinationType, a: string, b: string)
    requires '?' !in a && '?' !in b && a != b
    ensures CreateDestination(kind, a) == CreateDestination(kind, b) <==>
            SpellsOut(kind, a, b) || SpellsOut(kind, b, a)
  {
    if IsQualified(a) && IsQualified(b) {
      var k :| StartsWith(a, Qualifier(k));
      var l :| StartsWith(b, Qualifier(l));
      CreatedFromQualified(kind, a, k);
      CreatedFromQualified(kind, b, l);
    } else if IsQualified(a) {
      OneIsQualified(kind, a, b);
    } else if IsQualified(b) {
      OneIsQualified(kind, b, a);
    } else {
      CreatedFromPlain(kind, a);
      CreatedFromPlain(kind, b);
      QualifierIsRecognised(kind, a, kind);
      QualifierIsRecognised(kind, b, kind);
    }
  }

  lemma OneIsQualified(kind: DestinationType, a: string, b: string)
    requires '?' !in a && '?' !in b && IsQualified(a) && !IsQualified(b)
    ensures CreateDestination(kind, a) == CreateDestination(kind, b) <==> SpellsOut(kind, a, b)
  {
    var k :| StartsWith(a, Qualifier(k));
    CreatedFromQualified(kind, a, k);
    CreatedFromPlain(kind, b);
    QualifierIsRecognised(kind, b, k);
  }

  // Temporary names.

  function CreateTemporaryName(clientId: string): string {
    TEMP_OPEN + clientId + TEMP_CLOSE
  }

  predicate IsTemporary(d: Destination) {
    d.kind == TEMPORARY_TOPIC || d.kind == TEMPORARY_QUEUE
  }

  function GetClientId(d: Destination): string {
    if !IsTemporary(d) then ""
    else
      var found := FindText(d.name, TEMP_OPEN, 0);
      if found < 0 then ""
      else
        var start := found + |TEMP_OPEN|;
        var stop := FindLastText(d.name, TEMP_CLOSE, |d.name|);
        if start < stop < |d.name| then d.name[start..stop] else ""
  }

  lemma TemporaryText(clientId: string)
    ensures CreateTemporaryName(clientId) == "{TD{" + clientId + "}TD}"
    ensures forall d: Destination | d.kind == QUEUE || d.kind == TOPIC :: GetClientId(d) == ""
  {
  }

  /** A client id comes back from a temporary name if and only if it has no question mark; markers do no harm. */
  lemma ClientIdRoundTrip(kind: DestinationType, clientId: string)
    requires kind == TEMPORARY_TOPIC || kind == TEMPORARY_QUEUE
    ensures GetClientId(New(kind, CreateTemporaryName(clientId))) == clientId <==> '?' !in clientId
  {
    var text := CreateTemporaryName(clientId);
    var d := New(kind, text);
    if '?' in clientId {
      assert '?' !in GetClientId(d) by {
        assert forall c | c in GetClientId(d) :: c in d.name;
      }
    } else {
      assert '?' !in text;
      assert d.name == text;
      var last := |clientId| + |TEMP_OPEN|;
      assert At(text, 0, TEMP_OPEN) && At(text, last, TEMP_CLOSE);
      assert text[|TEMP_OPEN|..last] == clientId;
    }
  }

  // Composite destinations.

  const COMPOSITE_SEPARATOR := ','

  predicate IsBlank(c: char) {
    c == ' ' || c == '\t'
  }

  predicate IsBlankText(s: string) {
    forall i | 0 <= i < |s| :: IsBlank(s[i])
  }

  function Trim(s: string): (r: string)
    ensures r == "" || (!IsBlank(r[0]) && !IsBlank(r[|r| - 1]))
    ensures forall c | c in r :: c in s
  {
    if s == "" then ""
    else if IsBlank(s[0]) then Trim(s[1..])
    else if IsBlank(s[|s| - 1]) then Trim(s[..|s| - 1])
    else s
  }

  /** Only blanks and tabs are trimmed, on both sides, and all of them. */
  lemma TrimmedText(left: string, s: string, right: string)
    requires forall i | 0 <= i < |left| :: left[i] == ' ' || left[i] == '\t'
    requires forall i | 0 <= i < |right| :: right[i] == ' ' || right[i] == '\t'
    requires s != "" ==> s[0] != ' ' && s[0] != '\t' && s[|s| - 1] != ' ' && s[|s| - 1] != '\t'
    ensures Trim(left + s + right) == s
  {
    TrimPadded(left, s, right);
    if s != "" {
      TrimmedStays(s);
    }
  }

  /** Padding does not matter to a trimmed text. */
  lemma {:induction false} TrimPadded(left: string, s: string, right: string)
    requires IsBlankText(left) && IsBlankText(right)
    ensures Trim(left + s + right) == Trim(s)
    decreases |left| + |right| + |s|
  {
    var all := left + s + right;
    if left != "" {
      assert all[1..] == left[1..] + s + right;
      TrimPadded(left[1..], s, right);
    } else if s != "" && IsBlank(s[0]) {
      assert all[1..] == "" + s[1..] + right;
      TrimPadded("", s[1..], right);
    } else if right != "" {
      assert all[..|all| - 1] == "" + s + right[..|right| - 1];
      TrimPadded("", s, right[..|right| - 1]);
      if s == "" {
        assert all == right && IsBlank(all[0]);
        BlankTrimsToNothing(all);
      }
    } else {
      assert all == s;
    }
  }

  lemma BlankTrimsToNothing(s: string)
    requires IsBlankText(s)
    ensures Trim(s) == ""
  {
  }

  /** The order of std::set<std::string>. */
  predicate Less(a: string, b: string) {
    b != "" && (a == "" || a[0] < b[0] || (a[0] == b[0] && Less(a[1..], b[1..])))
  }

  lemma {:induction false} LessTransitive(a: string, b: string, c: string)
    requires Less(a, b) && Less(b, c)
    ensures Less(a, c)
  {
    if a != "" && a[0] == b[0] == c[0] {
      LessTransitive(a[1..], b[1..], c[1..]);
    }
  }

  lemma {:induction false} LessTotal(a: string, b: string)
    ensures Less(a, b) || a == b || Less(b, a)
    ensures !(Less(a, b) && Less(b, a)) && !Less(a, a)
  {
    if a != "" {
      LessTotal(a[1..], a[1..]);
      if b != "" && a[0] == b[0] {
        LessTotal(a[1..], b[1..]);
        assert a == [a[0]] + a[1..] && b == [b[0]] + b[1..];
      }
    }
  }

  /** At this place the texts differ for the first time, and a has the smaller letter. */
  ghost predicate LessAt(a: string, b: string, i: nat) {
    i < |a| && i < |b| && a[..i] == b[..i] && a[i] < b[i]
  }

  lemma LessAtNext(a: string, b: string, i: nat)
    requires a != "" && b != "" && a[0] == b[0]
    ensures LessAt(a, b, i + 1) <==> LessAt(a[1..], b[1..], i)
  {
    if i + 1 < |a| && i + 1 < |b| {
      assert a[..i + 1] == [a[0]] + a[1..][..i] && b[..i + 1] == [b[0]] + b[1..][..i];
      assert a[..i + 1] == b[..i + 1] <==> a[1..][..i] == b[1..][..i] by {
        assert a[..i + 1][1..] == a[1..][..i] && b[..i + 1][1..] == b[1..][..i];
      }
    }
  }

  lemma LessAtLater(a: string, b: string, i: nat)
    ensures LessAt(a, b, i) && i > 0 ==> a[0] == b[0]
  {
    if LessAt(a, b, i) && i > 0 {
      assert a[0] == a[..i][0] && b[0] == b[..i][0];
    }
  }

  /** One text is less than another if it is a beginning of it, or has the smaller of the first letters that differ. */
  lemma {:induction false} LessIs(a: string, b: string)
    ensures Less(a, b) <==> a < b || exists i: nat :: LessAt(a, b, i)
  {
    if a != "" && b != "" && a[0] == b[0] {
      LessIs(a[1..], b[1..]);
      assert a == [a[0]] + a[1..] && b == [b[0]] + b[1..];
      forall i: nat ensures LessAt(a, b, i + 1) <==> LessAt(a[1..], b[1..], i) {
        LessAtNext(a, b, i);
      }
      assert !LessAt(a, b, 0);
      assert forall i: nat :: LessAt(a, b, i) ==> LessAt(a, b, i - 1 + 1) && LessAt(a[1..], b[1..], i - 1);
      assert forall i: nat :: LessAt(a[1..], b[1..], i) ==> LessAt(a, b, i + 1);
    } else if a != "" && b != "" {
      assert a[..0] == b[..0] == "";
      forall i: nat ensures LessAt(a, b, i) ==> i == 0 {
        LessAtLater(a, b, i);
      }
      assert LessAt(a, b, 0) <==> a[0] < b[0];
    }
  }

  predicate Sorted(s: seq<string>) {
    forall i, j | 0 <= i < j < |s| :: Less(s[i], s[j])
  }

  /** Adding to a set that is kept as its sorted elements. */
  function Insert(s: seq<string>, x: string): seq<string> {
    if s == [] || Less(x, s[0]) then [x] + s
    else if x == s[0] then s
    else [s[0]] + Insert(s[1..], x)
  }

  lemma {:induction false} InsertSorted(s: seq<string>, x: string)
    requires Sorted(s)
    ensures Sorted(Insert(s, x)) && forall y :: y in Insert(s, x) <==> y in s || y == x
  {
    if s == [] {
    } else if Less(x, s[0]) {
      forall i | 0 < i < |s| ensures Less(x, s[i]) {
        LessTransitive(x, s[0], s[i]);
      }
    } else if x != s[0] {
      LessTotal(x, s[0]);
      InsertSorted(s[1..], x);
      var t := Insert(s[1..], x);
      forall j | 0 <= j < |t| ensures Less(s[0], t[j]) {
        assert t[j] in s[1..] || t[j] == x;
      }
    }
  }

  /** A set has only one sorted list of elements. */
  lemma {:induction false} SortedUnique(s: seq<string>, t: seq<string>)
    requires Sorted(s) && Sorted(t) && forall x :: x in s <==> x in t
    ensures s == t
  {
    assert t != [] ==> t[0] in s;
    if s != [] {
      assert s[0] in t && t[0] in s;
      LessTotal(s[0], t[0]);
      forall x ensures x in s[1..] <==> x in t[1..] {
        LessTotal(x, x);
        assert x in s <==> x == s[0] || x in s[1..];
        assert x in t <==> x == t[0] || x in t[1..];
      }
      SortedUnique(s[1..], t[1..]);
    }
  }

  /** What the loop over the fields collects from the first n. */
  function ComponentsOf(fields: seq<string>, n: nat): seq<string>
    requires n <= |fields|
  {
    if n == 0 then []
    else
      var before, name := ComponentsOf(fields, n - 1), Trim(fields[n - 1]);
      if name == "" then before else Insert(before, name)
  }

  function Components(fields: seq<string>): seq<string> {
    ComponentsOf(fields, |fields|)
  }

  /** x is one of the first n fields, trimmed, and is not empty. */
  ghost predicate IsAmong(x: string, fields: seq<string>, n: nat) {
    x != "" && exists i :: 0 <= i < n && i < |fields| && Trim(fields[i]) == x
  }

  /** x is a trimmed field that is not empty. */
  ghost predicate IsComponent(x: string, fields: seq<string>) {
    IsAmong(x, fields, |fields|)
  }

  lemma {:induction false} ComponentsAreAmong(fields: seq<string>, n: nat)
    requires n <= |fields|
    ensures Sorted(ComponentsOf(fields, n)) && forall x :: x in ComponentsOf(fields, n) <==> IsAmong(x, fields, n)
  {
    if n > 0 {
      ComponentsAreAmong(fields, n - 1);
      InsertSorted(ComponentsOf(fields, n - 1), Trim(fields[n - 1]));
      forall x
        ensures IsAmong(x, fields, n) <==> IsAmong(x, fields, n - 1) || (x != "" && x == Trim(fields[n - 1]))
      {
        OneMoreField(x, fields, n);
      }
    }
  }

  lemma OneMoreField(x: string, fields: seq<string>, n: nat)
    requires 0 < n <= |fields|
    ensures IsAmong(x, fields, n) <==> IsAmong(x, fields, n - 1) || (x != "" && x == Trim(fields[n - 1]))
  {
    if IsAmong(x, fields, n) {
      var i :| 0 <= i < n && Trim(fields[i]) == x;
      assert i < n - 1 ==> IsAmong(x, fields, n - 1);
    }
    if x != "" && x == Trim(fields[n - 1]) {
      assert 0 <= n - 1 < n && Trim(fields[n - 1]) == x;
    }
  }

  lemma ComponentsAre(fields: seq<string>)
    ensures Sorted(Components(fields)) && forall x :: x in Components(fields) <==> IsComponent(x, fields)
  {
    ComponentsAreAmong(fields, |fields|);
  }

  function CreateEach(kind: DestinationType, names: seq<string>): seq<Destination> {
    seq(|names|, i requires 0 <= i < |names| => CreateDestination(kind, names[i]))
  }

  predicate IsComposite(d: Destination) {
    COMPOSITE_SEPARATOR in d.name
  }

  function Children(d: Destination): seq<Destination> {
    if IsComposite(d) then CreateEach(d.kind, Components(Split(d.name, COMPOSITE_SEPARATOR))) else []
  }

  /**
   The children of a composite destination depend only on the set of its trimmed fields: not on
   their order, on duplicates, on padding, or on empty fields.
   */
  lemma ChildrenDependOnFields(kind: DestinationType, fields: seq<string>, fields': seq<string>)
    requires |fields| > 1 && |fields'| > 1
    requires forall i | 0 <= i < |fields| :: COMPOSITE_SEPARATOR !in fields[i]
    requires forall i | 0 <= i < |fields'| :: COMPOSITE_SEPARATOR !in fields'[i]
    requires forall x :: IsComponent(x, fields) <==> IsComponent(x, fields')
    ensures Children(Destination(kind, Join(fields, COMPOSITE_SEPARATOR)))
            == Children(Destination(kind, Join(fields', COMPOSITE_SEPARATOR)))
  {
    SplitJoin(fields, COMPOSITE_SEPARATOR);
    SplitJoin(fields', COMPOSITE_SEPARATOR);
    ComponentsAre(fields);
    ComponentsAre(fields');
    SortedUnique(Components(fields), Components(fields'));
    assert COMPOSITE_SEPARATOR in Join(fields, COMPOSITE_SEPARATOR);
    assert COMPOSITE_SEPARATOR in Join(fields', COMPOSITE_SEPARATOR);
  }

  /** There is one child for each distinct trimmed field that is not empty, and no child is composite. */
  lemma ChildrenAreSimple(d: Destination)
    requires IsComposite(d)
    ensures var names := Components(Split(d.name, COMPOSITE_SEPARATOR));
            && |Children(d)| == |names| && Sorted(names)
            && (forall i, j | 0 <= i < j < |names| :: names[i] != names[j])
            && (forall x :: x in names <==> IsComponent(x, Split(d.name, COMPOSITE_SEPARATOR)))
            && forall i | 0 <= i < |names| ::
                 Children(d)[i] == CreateDestination(d.kind, names[i]) && !IsComposite(Children(d)[i])
  {
    var fields := Split(d.name, COMPOSITE_SEPARATOR);
    var names := Components(fields);
    ComponentsAre(fields);
    FieldsAreFree(d.name, COMPOSITE_SEPARATOR, 0);
    forall i, j | 0 <= i < j < |names| ensures names[i] != names[j] {
      LessTotal(names[i], names[j]);
    }
    forall i | 0 <= i < |names| ensures !IsComposite(CreateDestination(d.kind, names[i])) {
      assert IsComponent(names[i], fields);
      ComponentIsSimple(d.kind, names[i], fields);
    }
  }

  lemma ComponentIsSimple(kind: DestinationType, name: string, fields: seq<string>)
    requires IsComponent(name, fields) && forall i | 0 <= i < |fields| :: COMPOSITE_SEPARATOR !in fields[i]
    ensures !IsComposite(CreateDestination(kind, name))
  {
    var k :| 0 <= k < |fields| && Trim(fields[k]) == name;
    assert COMPOSITE_SEPARATOR !in name;
    CreatedHasNo(kind, name, COMPOSITE_SEPARATOR);
  }

  lemma CreatedHasNo(kind: DestinationType, name: string, c: char)
    requires c !in name
    ensures c !in CreateDestination(kind, name).name
  {
    SuffixHasNo(name, QUEUE_PREFIX, c);
    SuffixHasNo(name, TOPIC_PREFIX, c);
    SuffixHasNo(name, TEMP_QUEUE_PREFIX, c);
    SuffixHasNo(name, TEMP_TOPIC_PREFIX, c);
  }

  lemma SuffixHasNo(name: string, prefix: string, c: char)
    requires c !in name
    ensures StartsWith(name, prefix) ==> c !in name[|prefix|..]
  {
  }

  lemma ComponentsOfTwo(a: string, b: string)
    requires Trim(a) == a != b == Trim(b) && a != "" && b != ""
    ensures Components([a, b]) == [a, b] || Components([a, b]) == [b, a]
  {
    assert ComponentsOf([a, b], 0) == [] && ComponentsOf([a, b], 1) == [a];
    assert Components([a, b]) == Insert([a], b);
  }

  /** Two fields that are the same destination make two children. */
  lemma TwoChildren(kind: DestinationType, a: string, b: string)
    requires Trim(a) == a != b == Trim(b) && a != "" && b != ""
    requires COMPOSITE_SEPARATOR !in a && COMPOSITE_SEPARATOR !in b
    requires CreateDestination(kind, a) == CreateDestination(kind, b)
    ensures Children(Destination(kind, a + [COMPOSITE_SEPARATOR] + b))
            == [CreateDestination(kind, a), CreateDestination(kind, a)]
  {
    ComponentsOfTwo(a, b);
    SplitOfTwo(a, b, COMPOSITE_SEPARATOR);
    var d := Destination(kind, a + [COMPOSITE_SEPARATOR] + b);
    assert d.name[|a|] == COMPOSITE_SEPARATOR;
    assert Children(d) == CreateEach(kind, Components([a, b]));
  }

  /** Of two children, one repeats the other if and only if one name is the other with the default kind spelt out. */
  lemma EqualChildren(d: Destination, i: nat, j: nat)
    requires IsComposite(d) && '?' !in d.name && i < j < |Children(d)|
    ensures var names := Components(Split(d.name, COMPOSITE_SEPARATOR));
            && |names| == |Children(d)|
            && (Children(d)[i] == Children(d)[j] <==>
                  SpellsOut(d.kind, names[i], names[j]) || SpellsOut(d.kind, names[j], names[i]))
  {
    ChildrenAreSimple(d);
    var names := Components(Split(d.name, COMPOSITE_SEPARATOR));
    ComponentHasNo(d.name, names[i], '?');
    ComponentHasNo(d.name, names[j], '?');
    EqualCreations(d.kind, names[i], names[j]);
  }

  lemma ComponentHasNo(s: string, name: string, c: char)
    requires c !in s && IsComponent(name, Split(s, COMPOSITE_SEPARATOR))
    ensures c !in name
  {
    FieldsHaveNo(s, COMPOSITE_SEPARATOR, 0, c);
    var fields := Split(s, COMPOSITE_SEPARATOR);
    var k :| 0 <= k < |fields| && Trim(fields[k]) == name;
  }

  /** It does happen, for every kind and every name without a qualifier: the two fields make two equal children. */
  lemma TwoEqualChildren(kind: DestinationType, name: string)
    requires name != "" && Trim(name) == name && COMPOSITE_SEPARATOR !in name && '?' !in name && !IsQualified(name)
    ensures Children(Destination(kind, Qualifier(kind) + name + [COMPOSITE_SEPARATOR] + name))
            == [Destination(kind, name), Destination(kind, name)]
  {
    QualifiedIsTrimmed(kind, name);
    SpeltOutIsSame(kind, name);
    QualifierIsSimple(kind);
    TwoChildren(kind, Qualifier(kind) + name, name);
  }

  lemma QualifierIsSimple(kind: DestinationType)
    ensures COMPOSITE_SEPARATOR !in Qualifier(kind) && '?' !in Qualifier(kind)
    ensures Qualifier(kind) != "" && !IsBlank(Qualifier(kind)[0])
  {
  }

  lemma SpeltOutIsSame(kind: DestinationType, name: string)
    requires '?' !in name && !IsQualified(name)
    ensures CreateDestination(kind, Qualifier(kind) + name) == CreateDestination(kind, name) == Destination(kind, name)
  {
    var qualified := Qualifier(kind) + name;
    QualifierIsSimple(kind);
    assert '?' !in qualified;
    EqualCreations(kind, qualified, name);
    CreatedFromPlain(kind, name);
  }

  lemma QualifiedIsTrimmed(kind: DestinationType, name: string)
    requires name != "" && Trim(name) == name
    ensures var qualified := Qualifier(kind) + name;
            Trim(qualified) == qualified && |qualified| > |name|
  {
    var qualified := Qualifier(kind) + name;
    QualifierIsSimple(kind);
    assert qualified[0] == Qualifier(kind)[0] && qualified[|qualified| - 1] == name[|name| - 1];
    TrimmedStays(qualified);
  }

  lemma TrimmedStays(s: string)
    requires s != "" && !IsBlank(s[0]) && !IsBlank(s[|s| - 1])
    ensures Trim(s) == s
  {
  }

  class ActiveMQDestination {
    const kind: DestinationType
    var physicalName: string
    var options: Options
    var advisory: bool
    var exclusive: bool
    var ordered: bool
    var orderedTarget: string
    var compositeDestinations: seq<Destination>   // a memo

    function Value(): Destination
      reads `physicalName
    {
      Destination(kind, physicalName)
    }

    /** The memo is empty or right. */
    ghost predicate MemoOk()
      reads `physicalName, `compositeDestinations
    {
      compositeDestinations == [] || compositeDestinations == Children(Value())
    }

    ghost predicate Valid()
      reads `physicalName, `compositeDestinations
    {
      '?' !in physicalName && MemoOk()
    }

    constructor (kind: DestinationType)
      ensures Valid() && Value() == Destination(kind, "") && options == map[]
      ensures !advisory && !exclusive && !ordered && orderedTarget == "coordinator"
    {
      this.kind := kind;
      physicalName, options, compositeDestinations := "", map[], [];
      advisory, exclusive, ordered, orderedTarget := false, false, false, "coordinator";
    }

    /**
     The options are added to those that there are. When one of them is wrong, the name has changed and the memo has
     not.
     */
    method SetPhysicalName(env: Environment, name: string) returns (ok: bool)
      modifies `physicalName, `options, `advisory, `compositeDestinations
      ensures ok <==> Accepted(env, name)
      ensures Value() == New(kind, name) && options == OptionsAfter(env, old(options), name).options
      ensures ok ==> Valid() && compositeDestinations == [] && advisory == LooksAdvisory(name)
      ensures !ok ==> compositeDestinations == old(compositeDestinations) && advisory == old(advisory)
    {
      AcceptedIff(env, options, name);
      ok := TakeName(env, name);
      if ok {
        advisory := LooksAdvisory(name);
        compositeDestinations := [];
      }
    }

    method TakeName(env: Environment, name: string) returns (ok: bool)
      modifies `physicalName, `options
      ensures physicalName == WithoutOptions(name)
      ensures Parsed(options, ok) == OptionsAfter(env, old(options), name)
    {
      physicalName, ok := name, true;
      var pos := Find(name, '?');
      if pos >= 0 {
        var optstring := name[pos + 1..];
        physicalName := name[..pos];
        var parsed := ParseQuery(env, optstring, options);
        options, ok := parsed.options, parsed.ok;
      }
    }

    /** Everything but the hash code is copied, and nothing is parsed again. A copy to itself loses the options. */
    method CopyDataStructure(env: Environment, src: ActiveMQDestination)
      requires src.Valid()
      modifies this
      ensures Valid() && physicalName == old(src.physicalName)
      ensures options == if src == this then map[] else old(src.options)
      ensures advisory == (if src == this then LooksAdvisory(physicalName) else old(src.advisory))
      ensures ordered == old(src.ordered) && exclusive == old(src.exclusive)
      ensures orderedTarget == old(src.orderedTarget)
    {
      AcceptedIff(env, options, src.physicalName);
      var _ := SetPhysicalName(env, src.physicalName);
      advisory, ordered, exclusive := src.advisory, src.ordered, src.exclusive;
      orderedTarget := src.orderedTarget;
      CopyOptions(src);
    }

    /** The old ones go first. */
    method CopyOptions(src: ActiveMQDestination)
      modifies `options
      ensures options == if src == this then map[] else old(src.options)
    {
      options := map[];
      options := src.options;
    }

    /** The answer is right if and only if the memo was. */
    method GetCompositeDestinations() returns (children: seq<Destination>)
      modifies `compositeDestinations
      ensures children == compositeDestinations
      ensures children == if old(compositeDestinations) == [] then Children(Value()) else old(compositeDestinations)
      ensures MemoOk() <==> old(MemoOk())
    {
      if compositeDestinations != [] {
        return compositeDestinations;
      }
      if COMPOSITE_SEPARATOR in physicalName {
        var components := Collect(Split(physicalName, COMPOSITE_SEPARATOR));
        for i := 0 to |components|
          invariant compositeDestinations == CreateEach(kind, components[..i])
        {
          compositeDestinations := compositeDestinations + [CreateDestination(kind, components[i])];
        }
        assert components[..|components|] == components;
      }
      return compositeDestinations;
    }
  }

  /** The names of children have no options, so all of them can be made. */
  lemma ChildrenAreCreated(env: Environment, d: Destination, i: nat)
    requires IsComposite(d) && '?' !in d.name && i < |Children(d)|
    ensures var names := Components(Split(d.name, COMPOSITE_SEPARATOR));
            |names| == |Children(d)| && Create(env, d.kind, names[i]) == Some(Children(d)[i])
  {
    ChildrenAreSimple(d);
    var names := Components(Split(d.name, COMPOSITE_SEPARATOR));
    ComponentHasNo(d.name, names[i], '?');
    AcceptedIff(env, map[], names[i]);
  }

  /**
   A name with a wrong option is refused, but the destination has that name then, and answers with the children of the
   old one if it knew them.
   */
  method StaleChildren(env: Environment, d: ActiveMQDestination, name: string) returns (children: seq<Destination>)
    requires d.Valid() && d.compositeDestinations != [] && '?' !in name
    modifies d
    ensures d.Value() == Destination(d.kind, name)
    ensures children == old(d.compositeDestinations) == Children(old(d.Value()))
  {
    var text := name + ['?'] + "x";
    WrongOption(env, name);
    var ok := d.SetPhysicalName(env, text);
    children := d.GetCompositeDestinations();
  }

  /** These may well be others. */
  lemma OtherChildren(kind: DestinationType)
    ensures Children(Destination(kind, "a,b")) != Children(Destination(kind, "c,d"))
    ensures Children(Destination(kind, "a,b")) != []
  {
    assert "a,b" == "a" + [COMPOSITE_SEPARATOR] + "b" && "c,d" == "c" + [COMPOSITE_SEPARATOR] + "d";
    FirstOfTwo(kind, "a", "b");
    FirstOfTwo(kind, "c", "d");
  }

  lemma FirstOfTwo(kind: DestinationType, a: string, b: string)
    requires |a| == 1 == |b| && 'a' <= a[0] < b[0] <= 'z'
    ensures var children := Children(Destination(kind, a + [COMPOSITE_SEPARATOR] + b));
            |children| == 2 && children[0] == Destination(kind, a)
  {
    var d := Destination(kind, a + [COMPOSITE_SEPARATOR] + b);
    ComponentsOfTwo(a, b);
    ComponentsAre([a, b]);
    SplitOfTwo(a, b, COMPOSITE_SEPARATOR);
    assert d.name[1] == COMPOSITE_SEPARATOR;
    assert Children(d) == CreateEach(kind, Components([a, b]));
    assert Less(a, b) && !Less(b, a);
    assert Less(Components([a, b])[0], Components([a, b])[1]);
  }

  lemma WrongOption(env: Environment, name: string)
    requires '?' !in name
    ensures !Accepted(env, name + ['?'] + "x") && WithoutOptions(name + ['?'] + "x") == name
  {
    var text := name + ['?'] + "x";
    FindAfter(name, '?', "x");
    assert text[|name| + 1..] == "x" && text[..|name|] == name;
    assert Find("x", '?') == -1 && "x"[0..] == "x";
    assert Split("x", '&') == ["x"] && Split("x", '=') == ["x"] by {
      SplitJoin(["x"], '&');
      SplitJoin(["x"], '=');
    }
    NotEmptyOfFull(["x"]);
    assert Params("x") == ["x"];
    GoodIff(env, map[], ["x"], 1);
    assert !IsGood(env, ["x"][0]);
  }

  /** The loop that puts the fields into a set. */
  method Collect(fields: seq<string>) returns (components: seq<string>)
    ensures components == Components(fields)
  {
    components := [];
    for i := 0 to |fields|
      invariant components == ComponentsOf(fields, i)
    {
      var name := Trim(fields[i]);
      if |name| == 0 {
        continue;
      }
      components := Insert(components, name);
    }
  }
}
