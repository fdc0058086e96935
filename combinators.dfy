/** The nom primitives both parsers are built from, on `seq<char>`. Every parser returns the
    unconsumed rest, which is always a suffix of its input; failure is `None`. */
module Combinators {
  import opened Wrappers
  import opened Text

  /** `t` is what is left of `s` after dropping some characters at the front. */
  predicate IsSuffix(t: string, s: string)
  {
    |t| <= |s| && t == s[|s| - |t|..]
  }

  lemma SuffixTrans(a: string, b: string, c: string)
    requires IsSuffix(a, b) && IsSuffix(b, c)
    ensures IsSuffix(a, c)
  {
    assert c[|c| - |b|..][|b| - |a|..] == c[|c| - |a|..];
  }

  lemma SuffixOfTail(t: string, s: string)
    requires |s| > 0 && IsSuffix(t, s[1..])
    ensures IsSuffix(t, s) && |t| < |s|
  {
    assert s[1..][|s| - 1 - |t|..] == s[|s| - |t|..];
  }

  /** The largest limit Rust's `str::parse::<usize>` accepts is one below this (64-bit usize). */
  const UsizeLimit: int := 0x1_0000_0000_0000_0000

  /** `multispace0`: drops spaces, tabs, carriage returns and newlines at the front. */
  function SkipSpace(s: string): (r: string)
    ensures IsSuffix(r, s)
    ensures r == [] || !IsSpace(r[0])
  {
    if s != [] && IsSpace(s[0]) then SkipSpace(s[1..]) else s
  }

  /** Nothing to skip when the text starts with something other than whitespace. */
  lemma NoSpaceAt(s: string)
    requires s != [] && !IsSpace(s[0])
    ensures SkipSpace(s) == s
  {
  }

  /** What `SkipSpace` drops is whitespace only. */
  lemma {:induction false} SkipSpaceDropsSpaces(s: string)
    ensures forall i :: 0 <= i < |s| - |SkipSpace(s)| ==> IsSpace(s[i])
  {
    if s != [] && IsSpace(s[0]) {
      SkipSpaceDropsSpaces(s[1..]);
      assert forall i :: 1 <= i < |s| - |SkipSpace(s)| ==> s[i] == s[1..][i - 1];
    }
  }

  /** `tag(t)` / `char(c)`: the input starts with `t`. */
  function Tag(s: string, t: string): (r: Option<string>)
    ensures r.Some? <==> |t| <= |s| && s[..|t|] == t
    ensures r.Some? ==> s == t + r.value
  {
    if |t| <= |s| && s[..|t|] == t then Some(s[|t|..]) else None
  }

  /** A text that starts with `t` has `t` taken off. */
  lemma TagAt(t: string, y: string)
    ensures Tag(t + y, t) == Some(y)
  {
    assert (t + y)[..|t|] == t && (t + y)[|t|..] == y;
  }

  /** `multispace0`, `tag(t)`, `multispace0`: a token with optional whitespace around it. */
  function Symbol(s: string, t: string): (r: Option<string>)
    requires |t| > 0
    ensures r.Some? <==> Tag(SkipSpace(s), t).Some?
    ensures r.Some? ==> r.value == SkipSpace(Tag(SkipSpace(s), t).value)
    ensures r.Some? ==> IsSuffix(r.value, s) && |r.value| < |s|
  {
    var s1 := SkipSpace(s);
    match Tag(s1, t)
    case None => None
    case Some(s2) =>
      assert s2 == s1[|t|..];
      SuffixTrans(SkipSpace(s2), s2, s1);
      SuffixTrans(SkipSpace(s2), s1, s);
      Some(SkipSpace(s2))
  }

  /** A token at the very front is consumed together with the whitespace after it. */
  lemma SymbolAt(t: string, y: string)
    requires |t| > 0 && !IsSpace(t[0])
    ensures Symbol(t + y, t) == Some(SkipSpace(y))
  {
    assert (t + y)[0] == t[0];
    assert SkipSpace(t + y) == t + y;
    assert (t + y)[..|t|] == t && (t + y)[|t|..] == y;
  }

  /** The index of the first `c` in `s`, or |s| when there is none. */
  function FirstIndex(s: string, c: char): (k: nat)
    ensures k <= |s| && c !in s[..k]
    ensures k < |s| <==> c in s
    ensures k < |s| ==> s[k] == c
  {
    if s == [] then 0
    else if s[0] == c then 0
    else
      var k := 1 + FirstIndex(s[1..], c);
      assert s[..k] == [s[0]] + s[1..][..k - 1];
      k
  }

  /** `take_until(c)`: the text before the first `c`, and the rest starting at that `c`;
      fails when there is no `c`. */
  function TakeUntil(s: string, c: char): (r: Option<(string, string)>)
    ensures r.Some? <==> c in s
    ensures r.Some? ==> r.value.0 == s[..FirstIndex(s, c)] && r.value.1 == s[FirstIndex(s, c)..]
    ensures r.Some? ==> c !in r.value.0 && |r.value.1| > 0 && r.value.1[0] == c && r.value.0 + r.value.1 == s
  {
    var k := FirstIndex(s, c);
    if k < |s| then Some((s[..k], s[k..])) else None
  }

  /** The longest prefix of `s` whose characters all satisfy `p`. */
  function Span(s: string, p: char -> bool): (k: nat)
    ensures k <= |s| && (forall i :: 0 <= i < k ==> p(s[i])) && (k == |s| || !p(s[k]))
  {
    if s != [] && p(s[0]) then 1 + Span(s[1..], p) else 0
  }

  /** `digit1` followed by `parse::<usize>()`: one or more ASCII digits whose value fits. */
  function Digits1(s: string): (r: Option<(nat, string)>)
    ensures r.Some? ==> IsSuffix(r.value.1, s) && |r.value.1| < |s| && r.value.0 < UsizeLimit
    ensures r.Some? <==> |s| > 0 && IsDigit(s[0]) && DecimalValue(s[..Span(s, IsDigit)]) < UsizeLimit
    ensures r.Some? ==> r.value == (DecimalValue(s[..Span(s, IsDigit)]), s[Span(s, IsDigit)..])
  {
    var k := Span(s, IsDigit);
    if k == 0 then None
    else
      var v := DecimalValue(s[..k]);
      if v < UsizeLimit then Some((v, s[k..])) else None
  }

  /** `take_while_m_n(1, 1, is_ascii_digit)` then `parse::<usize>()`: exactly one digit. */
  function OneDigit(s: string): (r: Option<(nat, string)>)
    ensures r.Some? <==> |s| > 0 && IsDigit(s[0])
    ensures r.Some? ==> r.value == (DigitValue(s[0]), s[1..]) && r.value.0 <= 9
  {
    if |s| > 0 && IsDigit(s[0]) then Some((DigitValue(s[0]), s[1..])) else None
  }

  /** `alpha1` (`letters` true) or `alphanumeric1` (`letters` false): one or more ASCII characters
      of the class. */
  function Word1(s: string, letters: bool): (r: Option<(string, string)>)
    ensures r.Some? ==> |r.value.0| > 0 && r.value.0 + r.value.1 == s && IsSuffix(r.value.1, s)
    ensures r.Some? ==> forall i :: 0 <= i < |r.value.0| ==> (if letters then IsAlpha(r.value.0[i]) else IsAlphanumeric(r.value.0[i]))
    ensures r.Some? ==> r.value.1 == [] || !(if letters then IsAlpha(r.value.1[0]) else IsAlphanumeric(r.value.1[0]))
    ensures r.Some? <==> |s| > 0 && (if letters then IsAlpha(s[0]) else IsAlphanumeric(s[0]))
  {
    var k := if letters then Span(s, IsAlpha) else Span(s, IsAlphanumeric);
    if k == 0 then None
    else
      assert s == s[..k] + s[k..];
      Some((s[..k], s[k..]))
  }

  /** The span of a class stops exactly where a run of the class is followed by something else. */
  lemma {:induction false} SpanAt(d: string, t: string, p: char -> bool)
    requires forall i :: 0 <= i < |d| ==> p(d[i])
    requires t == [] || !p(t[0])
    ensures Span(d + t, p) == |d|
  {
    if d != [] {
      assert (d + t)[1..] == d[1..] + t;
      SpanAt(d[1..], t, p);
    } else {
      assert d + t == t;
    }
  }

  /** A word followed by a character outside its class is read whole. */
  lemma WordAt(w: string, y: string, letters: bool)
    requires |w| > 0 && forall i :: 0 <= i < |w| ==> (if letters then IsAlpha(w[i]) else IsAlphanumeric(w[i]))
    requires y == [] || !(if letters then IsAlpha(y[0]) else IsAlphanumeric(y[0]))
    ensures Word1(w + y, letters) == Some((w, y))
  {
    var s := w + y;
    if letters {
      SpanAt(w, y, IsAlpha);
    } else {
      SpanAt(w, y, IsAlphanumeric);
    }
    assert s[..|w|] == w && s[|w|..] == y;
  }

  /** Skipping whitespace twice is skipping it once. */
  lemma SkipSpaceTwice(s: string)
    ensures SkipSpace(SkipSpace(s)) == SkipSpace(s)
  {
  }

  /** `delimited(char(q), recognize(take_until(q)), char(q))`, tried with `'` and then `"`:
      everything between a quote and the next quote of the same kind. */
  function Quoted(s: string): (r: Option<(string, string)>)
    ensures r.Some? ==> IsSuffix(r.value.1, s) && |r.value.1| < |s|
  {
    var single := QuotedWith(s, '\'');
    if single.Some? then single else QuotedWith(s, '"')
  }

  function QuotedWith(s: string, q: char): (r: Option<(string, string)>)
    ensures r.Some? <==> |s| > 0 && s[0] == q && q in s[1..]
    ensures r.Some? ==> s == [q] + r.value.0 + [q] + r.value.1 && q !in r.value.0
    ensures r.Some? ==> IsSuffix(r.value.1, s) && |r.value.1| < |s|
  {
    if |s| > 0 && s[0] == q then
      match TakeUntil(s[1..], q)
      case None => None
      case Some((name, rest)) =>
        QuotedParts(s, q, name, rest);
        Some((name, rest[1..]))
    else None
  }

  lemma QuotedParts(s: string, q: char, name: string, rest: string)
    requires |s| > 0 && s[0] == q && name + rest == s[1..] && |rest| > 0 && rest[0] == q
    ensures s == [q] + name + [q] + rest[1..]
    ensures IsSuffix(rest[1..], s) && |rest[1..]| < |s|
  {
    assert s == [q] + s[1..];
    assert rest == [q] + rest[1..];
    assert s[|s| - |rest[1..]|..] == rest[1..];
  }

  /** A quoted string reads back as what was quoted, for either kind of quote. */
  lemma QuotedRoundTrip(q: char, name: string, rest: string)
    requires (q == '\'' || q == '"') && q !in name
    ensures Quoted([q] + name + [q] + rest) == Some((name, rest))
  {
    var s := [q] + name + [q] + rest;
    assert s[1..] == name + [q] + rest;
    assert q in s[1..] by { assert s[1..][|name|] == q; }
    var r := QuotedWith(s, q);
    assert [q] + r.value.0 + [q] + r.value.1 == [q] + name + [q] + rest;
    QuoteSplit(q, r.value.0, r.value.1, name, rest);
    if q == '"' {
      assert QuotedWith(s, '\'') == None;
    }
  }

  /** A quote-free text followed by a quote splits in only one way. */
  lemma QuoteSplit(q: char, a: string, b: string, c: string, d: string)
    requires q !in a && q !in c && [q] + a + [q] + b == [q] + c + [q] + d
    ensures a == c && b == d
  {
    var s := [q] + a + [q] + b;
    assert s[1..] == a + [q] + b == c + [q] + d;
    FirstQuote(a, q, b);
    FirstQuote(c, q, d);
    assert a == s[1..1 + |a|] == c;
    assert b == s[2 + |a|..] == d;
  }

  lemma FirstQuote(x: string, q: char, y: string)
    requires q !in x
    ensures FirstIndex(x + [q] + y, q) == |x|
  {
    var t := x + [q] + y;
    assert t[..|x|] == x;
    assert t[|x|] == q;
  }

  /** Text up to the first `c` is taken off by `TakeUntil`. */
  lemma TakeUntilAt(x: string, c: char, z: string)
    requires c !in x
    ensures TakeUntil(x + [c] + z, c) == Some((x, [c] + z))
  {
    var t := x + [c] + z;
    FirstQuote(x, c, z);
    assert t[..|x|] == x && t[|x|..] == [c] + z;
  }
}
