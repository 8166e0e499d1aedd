/** The keys under which PooledSession.cpp caches its producers and consumers. */
module CacheKeys {
  import opened Provider
  import opened Text

  /** PooledSession::getUniqueDestName. */
  function UniqueDestName(d: Destination): string {
    "[" + (if d.IsTopic() then "t:" else "q:") + d.name + "]"
  }

  function ConsumerKey(d: Destination, selector: string, noLocal: bool): string {
    UniqueDestName(d) + "s=" + selector + ",nl=" + (if noLocal then "t" else "f")
  }

  /** The two destinations are one queue or one topic to a CMS client that ignores temporariness. */
  predicate SameDestination(d: Destination, e: Destination) {
    d.IsTopic() == e.IsTopic() && d.name == e.name
  }

  const SEPARATOR := "]s="

  ghost predicate HasSeparator(s: string) {
    Contains(s, SEPARATOR)
  }

  /** The producer key tells destinations apart, up to temporariness. */
  lemma ProducerKeyInjective(d: Destination, e: Destination)
    ensures UniqueDestName(d) == UniqueDestName(e) <==> SameDestination(d, e)
  {
    var k, l := UniqueDestName(d), UniqueDestName(e);
    assert k[3..|k| - 1] == d.name && l[3..|l| - 1] == e.name;
    assert k[1] == if d.IsTopic() then 't' else 'q';
    assert l[1] == if e.IsTopic() then 't' else 'q';
  }

  /** The part of a consumer key between the domain and the noLocal flag. */
  function Middle(name: string, selector: string): string {
    name + SEPARATOR + selector
  }

  lemma ConsumerKeyParts(d: Destination, selector: string, noLocal: bool)
    ensures var k := ConsumerKey(d, selector, noLocal);
            && |k| >= 9 && k[1] == (if d.IsTopic() then 't' else 'q')
            && k[3..|k| - 5] == Middle(d.name, selector)
            && k[|k| - 1] == (if noLocal then 't' else 'f')
            && k == "[" + [k[1]] + ":" + k[3..|k| - 5] + ",nl=" + [k[|k| - 1]]
  {
  }

  lemma ConsumerKeyEquality(d: Destination, s: string, nl: bool, d': Destination, s': string, nl': bool)
    ensures ConsumerKey(d, s, nl) == ConsumerKey(d', s', nl') <==>
            d.IsTopic() == d'.IsTopic() && nl == nl' && Middle(d.name, s) == Middle(d'.name, s')
  {
    ConsumerKeyParts(d, s, nl);
    ConsumerKeyParts(d', s', nl');
  }

  /** Two different splits of one middle part put a separator into the longer name and the longer selector. */
  lemma DifferentSplits(n: string, s: string, n': string, s': string)
    requires Middle(n, s) == Middle(n', s') && |n| < |n'|
    ensures HasSeparator(n') && HasSeparator(s)
  {
    var m := Middle(n, s);
    assert m[|n|] == ']' && m[|n| + 1] == 's' && m[|n| + 2] == '=';
    assert m[|n'|] == ']' && m[|n'| + 1] == 's' && m[|n'| + 2] == '=';
    assert |n| + 3 <= |n'|;
    assert n'[|n|..|n| + 3] == m[|n|..|n| + 3] == SEPARATOR;
    assert At(n', |n|, SEPARATOR);
    var i := |n'| - |n| - 3;
    assert s == m[|n| + 3..];
    assert s[i..i + 3] == m[|n'|..|n'| + 3] == SEPARATOR;
    assert At(s, i, SEPARATOR);
  }

  /** A request asks for a consumer of a destination, with a selector. */
  datatype Request = Request(target: Destination, selector: string, noLocal: bool)
  {
    function Key(): string { ConsumerKey(target, selector, noLocal) }

    ghost predicate Same(other: Request) {
      SameDestination(target, other.target) && selector == other.selector && noLocal == other.noLocal
    }
  }

  lemma KeyWithoutSeparator(q: Request, p: Request)
    requires q.Key() == p.Key() && !HasSeparator(q.target.name) && !HasSeparator(q.selector)
    ensures q.Same(p)
  {
    ConsumerKeyEquality(q.target, q.selector, q.noLocal, p.target, p.selector, p.noLocal);
    var n, n' := q.target.name, p.target.name;
    if |n| < |n'| {
      DifferentSplits(n, q.selector, n', p.selector);
      assert false;
    } else if |n'| < |n| {
      DifferentSplits(n', p.selector, n, q.selector);
      assert false;
    } else {
      var m := Middle(n, q.selector);
      assert m[..|n|] == n && m[..|n|] == n';
      assert m[|n| + 3..] == q.selector && m[|n| + 3..] == p.selector;
    }
  }

  /** A separator inside the name moves the rest of the name into the selector of another request. */
  lemma SeparatorInName(q: Request, i: int) returns (p: Request)
    requires At(q.target.name, i, SEPARATOR)
    ensures p.Key() == q.Key() && !q.Same(p)
  {
    var n, s := q.target.name, q.selector;
    p := Request(Destination(q.target.kind, n[..i]), n[i + 3..] + SEPARATOR + s, q.noLocal);
    assert n == n[..i] + SEPARATOR + n[i + 3..];
    assert Middle(n, s) == Middle(n[..i], p.selector);
    ConsumerKeyEquality(p.target, p.selector, p.noLocal, q.target, s, q.noLocal);
  }

  /** A separator inside the selector moves the start of the selector into the name of another request. */
  lemma SeparatorInSelector(q: Request, i: int) returns (p: Request)
    requires At(q.selector, i, SEPARATOR)
    ensures p.Key() == q.Key() && !q.Same(p)
  {
    var n, s := q.target.name, q.selector;
    p := Request(Destination(q.target.kind, n + SEPARATOR + s[..i]), s[i + 3..], q.noLocal);
    assert s == s[..i] + SEPARATOR + s[i + 3..];
    assert Middle(n, s) == Middle(p.target.name, p.selector);
    ConsumerKeyEquality(p.target, p.selector, p.noLocal, q.target, s, q.noLocal);
  }

  /**
   The key of a request belongs to that request alone if and only if neither its
   name nor its selector contains the text "]s=".
   */
  lemma {:induction false} ConsumerKeyInjective(q: Request)
    ensures (forall p: Request | p.Key() == q.Key() :: q.Same(p))
            <==> !HasSeparator(q.target.name) && !HasSeparator(q.selector)
  {
    if HasSeparator(q.target.name) {
      var i :| At(q.target.name, i, SEPARATOR);
      var p := SeparatorInName(q, i);
    } else if HasSeparator(q.selector) {
      var i :| At(q.selector, i, SEPARATOR);
      var p := SeparatorInSelector(q, i);
    } else {
      forall p: Request | p.Key() == q.Key() ensures q.Same(p) {
        KeyWithoutSeparator(q, p);
      }
    }
  }
}
