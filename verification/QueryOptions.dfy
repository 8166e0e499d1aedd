/** URISupport.cpp: the options after the question mark of a destination name. */
module QueryOptions {
  import opened Wrappers
  import opened Text

  type Options = map<string, string>

  /** What the environment answers to a name: nothing, or a value that is not empty. */
  type Environment = string -> Option<string>

  /** The options so far, and whether nothing was wrong. */
  datatype Parsed = Parsed(options: Options, ok: bool)

  datatype Entry = Entry(key: string, value: string)

  /** What a StringTokenizer finds: the fields that are not empty. */
  function Tokens(s: string, c: char): seq<string> {
    NotEmpty(Split(s, c))
  }

  function NotEmpty(fields: seq<string>): seq<string> {
    if fields == [] then []
    else (if fields[0] == "" then [] else [fields[0]]) + NotEmpty(fields[1..])
  }

  /** replaceEnvValues, with None for its exceptions. The test for brackets refuses only a value that has neither. */
  function ReplaceEnvValues(env: Environment, value: string): Option<string> {
    if value == "" then None
    else if value[0] != '$' then Some(value)
    else if |value| > 3 && value[1] != '{' && value[|value| - 1] != '}' then None
    else if |value| < 2 then None
    else
      match env(if |value| == 2 then "" else value[2..|value| - 1])
      case None => None
      case Some(v) => if v == "" then None else Some(v)
  }

  function Store(env: Environment, options: Options, param: string): Parsed {
    var parts := Tokens(param, '=');
    if |parts| != 2 then Parsed(options, false)
    else
      match ReplaceEnvValues(env, parts[1])
      case None => Parsed(options, false)
      case Some(v) => Parsed(options[parts[0] := v], true)
  }

  /** The first n parameters, up to the first that is wrong. */
  function StoreEach(env: Environment, options: Options, params: seq<string>, n: nat): Parsed
    requires n <= |params|
  {
    if n == 0 then Parsed(options, true)
    else
      var before := StoreEach(env, options, params, n - 1);
      if before.ok then Store(env, before.options, params[n - 1]) else before
  }

  /** A query may begin with a question mark; what comes before one is dropped. */
  function Params(query: string): seq<string> {
    Tokens(query[Find(query, '?') + 1..], '&')
  }

  function ParseAll(env: Environment, options: Options, query: string): Parsed {
    StoreEach(env, options, Params(query), |Params(query)|)
  }

  predicate IsGood(env: Environment, param: string) {
    Store(env, map[], param).ok
  }

  /** What comes before a question mark in a query does not matter. */
  lemma BeforeQuestionMark(env: Environment, options: Options, before: string, query: string)
    requires '?' !in before && '?' !in query
    ensures ParseAll(env, options, before + "?" + query) == ParseAll(env, options, query)
  {
    var all := before + "?" + query;
    FindAfter(before, '?', query);
    assert all[|before| + 1..] == query && query[0..] == query;
  }

  /** A query is refused if and only if one of its parameters is; which options there were does not matter. */
  lemma {:induction false} GoodIff(env: Environment, options: Options, params: seq<string>, n: nat)
    requires n <= |params|
    ensures StoreEach(env, options, params, n).ok <==> forall i | 0 <= i < n :: IsGood(env, params[i])
  {
    if n > 0 {
      GoodIff(env, options, params, n - 1);
    }
  }

  lemma OptionsDoNotMatter(env: Environment, options: Options, query: string)
    ensures ParseAll(env, options, query).ok <==> ParseAll(env, map[], query).ok
  {
    GoodIff(env, options, Params(query), |Params(query)|);
    GoodIff(env, map[], Params(query), |Params(query)|);
  }

  /** The loop of parseQuery. What came before the first wrong parameter stays. */
  method ParseQuery(env: Environment, query: string, options: Options) returns (r: Parsed)
    ensures r == ParseAll(env, options, query)
  {
    var stripped := query;
    var pos := Find(query, '?');
    if pos >= 0 {
      stripped := query[pos + 1..];
    }
    assert stripped == query[pos + 1..];
    r := ParseParams(env, Tokens(stripped, '&'), options);
  }

  method ParseParams(env: Environment, params: seq<string>, options: Options) returns (r: Parsed)
    ensures r == StoreEach(env, options, params, |params|)
  {
    r := Parsed(options, true);
    for i := 0 to |params|
      invariant r == StoreEach(env, options, params, i) && r.ok
    {
      StoreOneMore(env, options, params, i);
      r := Store(env, r.options, params[i]);
      if !r.ok {
        StaysWrong(env, options, params, i + 1, |params|);
        return r;
      }
    }
  }

  lemma StoreOneMore(env: Environment, options: Options, params: seq<string>, i: nat)
    requires i < |params| && StoreEach(env, options, params, i).ok
    ensures StoreEach(env, options, params, i + 1) ==
            Store(env, StoreEach(env, options, params, i).options, params[i])
  {
  }

  lemma {:induction false} StaysWrong(env: Environment, options: Options, params: seq<string>, n: nat, m: nat)
    requires n <= m <= |params| && !StoreEach(env, options, params, n).ok
    ensures StoreEach(env, options, params, m) == StoreEach(env, options, params, n)
    decreases m
  {
    if n < m {
      StaysWrong(env, options, params, n, m - 1);
    }
  }

  // Printing options, and reading them again.

  /** Nothing in it is a separator. */
  predicate IsPlain(s: string) {
    s != "" && '?' !in s && '&' !in s && '=' !in s
  }

  /** Nothing of it is taken for something else. */
  predicate IsClean(e: Entry) {
    IsPlain(e.key) && IsPlain(e.value) && e.value[0] != '$'
  }

  function PrintEntry(e: Entry): string {
    e.key + "=" + e.value
  }

  function PrintEntries(entries: seq<Entry>): seq<string> {
    seq(|entries|, i requires 0 <= i < |entries| => PrintEntry(entries[i]))
  }

  function Update(options: Options, entries: seq<Entry>, n: nat): Options
    requires n <= |entries|
  {
    if n == 0 then options else Update(options, entries, n - 1)[entries[n - 1].key := entries[n - 1].value]
  }

  lemma NotEmptyOfFull(fields: seq<string>)
    requires forall i | 0 <= i < |fields| :: fields[i] != ""
    ensures NotEmpty(fields) == fields
  {
  }

  lemma TokensOfFull(fields: seq<string>, c: char)
    requires fields != [] && forall i | 0 <= i < |fields| :: fields[i] != "" && c !in fields[i]
    ensures Tokens(Join(fields, c), c) == fields
  {
    SplitJoin(fields, c);
    NotEmptyOfFull(fields);
  }

  lemma StorePrinted(env: Environment, options: Options, e: Entry)
    requires IsClean(e)
    ensures Store(env, options, PrintEntry(e)) == Parsed(options[e.key := e.value], true)
  {
    SplitOfTwo(e.key, e.value, '=');
    NotEmptyOfFull([e.key, e.value]);
  }

  lemma {:induction false} StorePrintedEach(env: Environment, options: Options, entries: seq<Entry>, n: nat)
    requires n <= |entries| && forall i | 0 <= i < |entries| :: IsClean(entries[i])
    ensures StoreEach(env, options, PrintEntries(entries), n) == Parsed(Update(options, entries, n), true)
  {
    if n > 0 {
      StorePrintedEach(env, options, entries, n - 1);
      StoreOneMore(env, options, PrintEntries(entries), n - 1);
      StorePrinted(env, Update(options, entries, n - 1), entries[n - 1]);
    }
  }

  /** Options that are printed are read again, the last one for a key, over those that there were. */
  lemma ParsePrintedQuery(env: Environment, options: Options, entries: seq<Entry>)
    requires entries != [] && forall i | 0 <= i < |entries| :: IsClean(entries[i])
    ensures ParseAll(env, options, Join(PrintEntries(entries), '&'))
            == Parsed(Update(options, entries, |entries|), true)
  {
    var params := PrintEntries(entries);
    forall i | 0 <= i < |params| ensures params[i] != "" && '&' !in params[i] && '?' !in params[i] {
      EntryIsOne(entries[i]);
    }
    JoinedHasNo(params, '&', 0, '?');
    TokensOfFull(params, '&');
    var query := Join(params, '&');
    assert Find(query, '?') == -1 && query[0..] == query;
    StorePrintedEach(env, options, entries, |entries|);
  }

  lemma EntryIsOne(e: Entry)
    requires IsClean(e)
    ensures PrintEntry(e) != "" && '&' !in PrintEntry(e) && '?' !in PrintEntry(e)
  {
    assert forall c | c in PrintEntry(e) :: c in e.key || c == '=' || c in e.value;
  }
  // What the texts mean.

  /**
   A value that begins with a dollar and has two more letters stands for the variable between these two, brackets or
   not; only when there is something between and neither is the right bracket, it is refused.
   */
  lemma EnvironmentText(env: Environment, open: char, name: string, close: char)
    ensures ReplaceEnvValues(env, "$" + [open] + name + [close]) ==
            if name != "" && open != '{' && close != '}' then None
            else if env(name) == None || env(name) == Some("") then None
            else env(name)
    ensures ReplaceEnvValues(env, "$") == None
  {
    var value := "$" + [open] + name + [close];
    assert value[1] == open && value[|value| - 1] == close && value[2..|value| - 1] == name;
  }

  /** Any other value stands for itself. */
  lemma PlainValue(env: Environment, value: string)
    requires value != "" && value[0] != '$'
    ensures ReplaceEnvValues(env, value) == Some(value)
  {
  }

  /** A parameter is a key, an equals sign and a value; with more or fewer parts it is refused. */
  lemma ParamText(env: Environment, options: Options, parts: seq<string>)
    requires parts != [] && forall i | 0 <= i < |parts| :: parts[i] != "" && '=' !in parts[i]
    ensures Store(env, options, Join(parts, '=')) ==
            if |parts| == 2 && ReplaceEnvValues(env, parts[1]).Some? then
              Parsed(options[parts[0] := ReplaceEnvValues(env, parts[1]).value], true)
            else Parsed(options, false)
  {
    TokensOfFull(parts, '=');
  }

  /** Empty parts do not count. */
  lemma {:induction false} EmptyParts(before: seq<string>, after: seq<string>)
    ensures NotEmpty(before + [""] + after) == NotEmpty(before + after)
  {
    if before == [] {
      assert before + [""] + after == [""] + after && before + after == after;
      assert ([""] + after)[1..] == after;
    } else {
      var all, less := before + [""] + after, before + after;
      EmptyParts(before[1..], after);
      assert all[1..] == before[1..] + [""] + after && less[1..] == before[1..] + after;
    }
  }
}
