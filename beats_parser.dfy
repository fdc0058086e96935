/** parser/beats_parser.rs: beat patterns. Alternatives are tried in the order chain, dot
    pattern, number pattern, reference; the first that succeeds wins. */
module BeatsParser {
  import opened Wrappers
  import opened Text
  import opened Ast
  import opened Combinators

  predicate IsDotSymbol(c: char)
  {
    c == '.' || c == '-'
  }

  /** `parse_dot_beat`: `.` is an onset, `-` a rest, nothing else is accepted. */
  function ParseDotSymbol(s: string): (r: Option<(bool, string)>)
    ensures r.Some? <==> |s| > 0 && IsDotSymbol(s[0])
    ensures r.Some? ==> r.value == (s[0] == '.', s[1..])
  {
    if |s| > 0 && s[0] == '.' then Some((true, s[1..]))
    else if |s| > 0 && s[0] == '-' then Some((false, s[1..]))
    else None
  }

  /** The run of dot symbols that `many1(parse_dot_beat)` takes: the maximal one at the front.
      The run being non-empty is checked in `ParseDotBeats`. */
  function DotRun(s: string): (r: (seq<bool>, string))
    ensures IsSuffix(r.1, s) && |r.0| == |s| - |r.1|
    ensures forall i :: 0 <= i < |r.0| ==> IsDotSymbol(s[i]) && r.0[i] == (s[i] == '.')
    ensures r.1 == [] || !IsDotSymbol(r.1[0])
  {
    match ParseDotSymbol(s)
    case None => ([], s)
    case Some((b, rest)) =>
      var (bs, rest') := DotRun(rest);
      SuffixOfTail(rest', s);
      ([b] + bs, rest')
  }

  /** `parse_dot_beats`: whitespace, a non-empty run of dot symbols, whitespace. */
  function ParseDotBeats(s: string): (r: Option<(seq<bool>, string)>)
    ensures r.Some? <==> |SkipSpace(s)| > 0 && IsDotSymbol(SkipSpace(s)[0])
    ensures r.Some? ==> IsSuffix(r.value.1, s) && |r.value.0| > 0
  {
    var s1 := SkipSpace(s);
    var (dots, s2) := DotRun(s1);
    if dots == [] then None
    else
      SuffixTrans(s2, s1, s);
      SuffixTrans(SkipSpace(s2), s2, s);
      Some((dots, SkipSpace(s2)))
  }

  /** `parse_dot_beat_expression`. */
  function ParseDotBeat(s: string): (r: Option<(BeatExpression, string)>)
    ensures r.Some? ==> IsSuffix(r.value.1, s) && r.value.0.DotBeat? && |r.value.0.dots| > 0
  {
    var s1 := SkipSpace(s);
    match ParseDotBeats(s1)
    case None => None
    case Some((dots, s2)) =>
      SuffixTrans(s2, s1, s);
      SuffixTrans(SkipSpace(s2), s2, s);
      Some((DotBeat(dots), SkipSpace(s2)))
  }

  /** `parse_number_beat`: optional whitespace, then exactly one ASCII digit (0 included). */
  function ParseNumberSymbol(s: string): (r: Option<(nat, string)>)
    ensures r.Some? <==> |SkipSpace(s)| > 0 && IsDigit(SkipSpace(s)[0])
    ensures r.Some? ==> IsSuffix(r.value.1, s) && |r.value.1| < |s| && r.value.0 <= 9
    ensures r.Some? ==> r.value == (DigitValue(SkipSpace(s)[0]), SkipSpace(s)[1..])
  {
    var s1 := SkipSpace(s);
    match OneDigit(s1)
    case None => None
    case Some((d, s2)) =>
      SuffixOfTail(s2, s1);
      SuffixTrans(s2, s1, s);
      Some((d, s2))
  }

  /** The run of single digits that `many1(parse_number_beat)` takes, each optionally preceded
      by whitespace. The run being non-empty is checked in `ParseNumberBeats`. */
  function NumberRun(s: string): (r: (seq<nat>, string))
    ensures IsSuffix(r.1, s)
    ensures forall d :: d in r.0 ==> d <= 9
    decreases |s|
  {
    match ParseNumberSymbol(s)
    case None => ([], s)
    case Some((d, rest)) =>
      var tail := NumberRun(rest);
      SuffixTrans(tail.1, rest, s);
      ([d] + tail.0, tail.1)
  }

  /** `parse_number_beats`: whitespace, one or more digits (each may be preceded by whitespace),
      whitespace. */
  function ParseNumberBeats(s: string): (r: Option<(seq<nat>, string)>)
    ensures r.Some? ==> IsSuffix(r.value.1, s) && |r.value.0| > 0
    ensures r.Some? ==> forall d :: d in r.value.0 ==> d <= 9
  {
    var s1 := SkipSpace(s);
    var (counts, s2) := NumberRun(s1);
    if counts == [] then None
    else
      SuffixTrans(s2, s1, s);
      SuffixTrans(SkipSpace(s2), s2, s);
      Some((counts, SkipSpace(s2)))
  }

  /** `parse_number_beat_expression`. */
  function ParseNumberBeat(s: string): (r: Option<(BeatExpression, string)>)
    ensures r.Some? ==> IsSuffix(r.value.1, s) && r.value.0.NumberBeat? && |r.value.0.counts| > 0
    ensures r.Some? ==> forall d :: d in r.value.0.counts ==> d <= 9
  {
    var s1 := SkipSpace(s);
    match ParseNumberBeats(s1)
    case None => None
    case Some((counts, s2)) =>
      SuffixTrans(s2, s1, s);
      SuffixTrans(SkipSpace(s2), s2, s);
      Some((NumberBeat(counts), SkipSpace(s2)))
  }

  /** `parse_reference_beat_expression`: one or more ASCII letters or digits. */
  function ParseReferenceBeat(s: string): (r: Option<(BeatExpression, string)>)
    ensures r.Some? ==> IsSuffix(r.value.1, s) && r.value.0.ReferenceBeat? && |r.value.0.name| > 0
    ensures r.Some? ==> forall i :: 0 <= i < |r.value.0.name| ==> IsAlphanumeric(r.value.0.name[i])
  {
    var s1 := SkipSpace(s);
    match Word1(s1, false)
    case None => None
    case Some((name, s2)) =>
      SuffixTrans(s2, s1, s);
      SuffixTrans(SkipSpace(s2), s2, s);
      Some((ReferenceBeat(name), SkipSpace(s2)))
  }

  /** `parse_beat_expression`. */
  function ParseBeat(s: string): (r: Option<(BeatExpression, string)>)
    ensures r.Some? ==> IsSuffix(r.value.1, s)
    decreases |s|, 2
  {
    var chain := ParseBeatChain(s);
    if chain.Some? then chain
    else
      var dot := ParseDotBeat(s);
      if dot.Some? then dot
      else
        var number := ParseNumberBeat(s);
        if number.Some? then number else ParseReferenceBeat(s)
  }

  /** `parse_beat_chain_expression`: the text before the first `|` must be one whole beat
      expression; the text after it is parsed again, so chains nest to the right. */
  function ParseBeatChain(s: string): (r: Option<(BeatExpression, string)>)
    ensures r.Some? ==> IsSuffix(r.value.1, s) && r.value.0.BeatChain?
    ensures r.Some? ==>
              TakeUntil(SkipSpace(s), '|').Some? &&
              ParseBeat(TakeUntil(SkipSpace(s), '|').value.0) == Some((r.value.0.beatA, []))
    ensures r.Some? ==>
              ParseBeat(SkipSpace(TakeUntil(SkipSpace(s), '|').value.1[1..])).Some? &&
              r.value.0.beatB == ParseBeat(SkipSpace(TakeUntil(SkipSpace(s), '|').value.1[1..])).value.0 &&
              r.value.1 == SkipSpace(ParseBeat(SkipSpace(TakeUntil(SkipSpace(s), '|').value.1[1..])).value.1)
    decreases |s|, 1
  {
    var s1 := SkipSpace(s);
    match TakeUntil(s1, '|')
    case None => None
    case Some((first, rest)) =>
      match ParseBeat(first)
      case None => None
      case Some((a, restFirst)) =>
        if restFirst != [] then None
        else
          match ParseBarThenBeat(rest)
          case None => None
          case Some((b, s5)) =>
            SuffixTrans(s5, rest, s1);
            SuffixTrans(s5, s1, s);
            Some((BeatChain(a, b), s5))
  }

  /** The part of a beat chain from its `|` on: whitespace, `|`, whitespace, a beat expression,
      whitespace. `rest` is what `take_until("|")` left, so it starts with the `|`. */
  function ParseBarThenBeat(rest: string): (r: Option<(BeatExpression, string)>)
    ensures r.Some? ==> IsSuffix(r.value.1, rest) && |r.value.1| < |rest|
    ensures r.Some? && |rest| > 0 && rest[0] == '|' ==>
              ParseBeat(SkipSpace(rest[1..])).Some? &&
              r.value.0 == ParseBeat(SkipSpace(rest[1..])).value.0 &&
              r.value.1 == SkipSpace(ParseBeat(SkipSpace(rest[1..])).value.1)
    decreases |rest|, 0
  {
    var s2 := SkipSpace(rest);
    match Tag(s2, "|")
    case None => None
    case Some(s3) =>
      assert |rest| > 0 && rest[0] == '|' ==> s2 == rest && s3 == rest[1..] by {
        if |rest| > 0 && rest[0] == '|' {
          NoSpaceAt(rest);
        }
      }
      var s4 := SkipSpace(s3);
      SuffixTrans(s4, s3, s2);
      SuffixOfTail(s4, s2);
      SuffixTrans(s4, s2, rest);
      match ParseBeat(s4)
      case None => None
      case Some((b, s5)) =>
        SuffixTrans(s5, s4, rest);
        SuffixTrans(SkipSpace(s5), s5, rest);
        Some((b, SkipSpace(s5)))
  }

  /** Text without `|` never parses as a chain. */
  lemma NoBarNoChain(t: string)
    requires '|' !in t
    ensures ParseBeatChain(t) == None
    ensures ParseBeat(t).Some? ==> !ParseBeat(t).value.0.BeatChain?
  {
    var t1 := SkipSpace(t);
    assert t1 == t[|t| - |t1|..];
    assert '|' !in t1;
  }

  /** Chains nest to the right: the left operand of a parsed chain is never itself a chain,
      because it is read from text before the first `|`. */
  lemma ChainsNestRight(s: string)
    requires ParseBeat(s).Some? && ParseBeat(s).value.0.BeatChain?
    ensures !ParseBeat(s).value.0.beatA.BeatChain?
  {
    var chain := ParseBeatChain(s);
    assert chain.Some?;
    var first := TakeUntil(SkipSpace(s), '|').value.0;
    NoBarNoChain(first);
  }

  /** The digit values of an all-digit text, in order. */
  function DigitValues(s: string): (r: seq<nat>)
    requires AllDigits(s)
    ensures |r| == |s| && forall i :: 0 <= i < |s| ==> r[i] == DigitValue(s[i])
  {
    seq(|s|, i requires 0 <= i < |s| => DigitValue(s[i]))
  }

  /** A digit at the very front is one number element. */
  lemma DigitAt(s: string)
    requires |s| > 0 && IsDigit(s[0])
    ensures ParseNumberSymbol(s) == Some((DigitValue(s[0]), s[1..]))
  {
    assert !IsSpace(s[0]);
    NoSpaceAt(s);
  }

  lemma {:induction false} NumberRunOfDigits(s: string)
    requires AllDigits(s)
    ensures NumberRun(s) == (DigitValues(s), [])
  {
    if s != [] {
      DigitAt(s);
      var tail := s[1..];
      assert AllDigits(tail) by {
        forall i | 0 <= i < |tail| ensures IsDigit(tail[i]) {
          assert tail[i] == s[i + 1];
        }
      }
      NumberRunOfDigits(tail);
      assert NumberRun(s) == ([DigitValue(s[0])] + DigitValues(tail), []);
      DigitValuesCons(s);
    }
  }

  lemma DigitValuesCons(s: string)
    requires |s| > 0 && AllDigits(s) && AllDigits(s[1..])
    ensures DigitValues(s) == [DigitValue(s[0])] + DigitValues(s[1..])
  {
    var l, r := DigitValues(s), [DigitValue(s[0])] + DigitValues(s[1..]);
    forall i | 0 <= i < |l| ensures l[i] == r[i] {
      if i > 0 {
        assert r[i] == DigitValues(s[1..])[i - 1];
      }
    }
  }

  /** A word of digits is a number pattern with one count per digit; a digit is never a
      reference name at the front of a beat expression. */
  lemma DigitsParseAsNumbers(s: string)
    requires |s| > 0 && AllDigits(s)
    ensures ParseBeat(s) == Some((NumberBeat(DigitValues(s)), []))
  {
    forall i | 0 <= i < |s| ensures s[i] != '|' {
      assert IsDigit(s[i]);
    }
    NoBarNoChain(s);
    DigitsNotDots(s);
    NumberAlternative(s);
  }

  /** Text starting with a digit is no dot pattern. */
  lemma DigitsNotDots(s: string)
    requires |s| > 0 && IsDigit(s[0])
    ensures ParseDotBeat(s) == None
  {
    assert !IsSpace(s[0]);
    NoSpaceAt(s);
    assert ParseDotSymbol(s) == None;
    assert DotRun(s) == ([], s);
  }

  /** The number alternative reads a word of digits whole, one count per digit. */
  lemma NumberAlternative(s: string)
    requires |s| > 0 && AllDigits(s)
    ensures ParseNumberBeat(s) == Some((NumberBeat(DigitValues(s)), []))
  {
    assert !IsSpace(s[0]);
    NoSpaceAt(s);
    NumberRunOfDigits(s);
    assert SkipSpace([]) == [];
  }

  /** The onset flags of a text of dot symbols. */
  function DotFlags(s: string): (r: seq<bool>)
    ensures |r| == |s| && forall i :: 0 <= i < |s| ==> r[i] == (s[i] == '.')
  {
    seq(|s|, i requires 0 <= i < |s| => s[i] == '.')
  }

  /** A word of `.` and `-` is a dot pattern with one flag per symbol. */
  lemma DotsParseAsFlags(s: string)
    requires |s| > 0 && forall i :: 0 <= i < |s| ==> IsDotSymbol(s[i])
    ensures ParseBeat(s) == Some((DotBeat(DotFlags(s)), []))
  {
    forall i | 0 <= i < |s| ensures s[i] != '|' {
      assert IsDotSymbol(s[i]);
    }
    NoBarNoChain(s);
    DotAlternative(s);
  }

  lemma DotAlternative(s: string)
    requires |s| > 0 && forall i :: 0 <= i < |s| ==> IsDotSymbol(s[i])
    ensures ParseDotBeat(s) == Some((DotBeat(DotFlags(s)), []))
  {
    assert !IsSpace(s[0]);
    assert SkipSpace(s) == s;
    var run := DotRun(s);
    assert run.1 == [];
    assert run.0 == DotFlags(s);
    assert SkipSpace([]) == [];
  }

  /** A run of dot symbols followed by something else is read up to where it ends. */
  lemma {:induction false} DotRunThen(dots: string, y: string)
    requires forall i :: 0 <= i < |dots| ==> IsDotSymbol(dots[i])
    requires y == [] || !IsDotSymbol(y[0])
    ensures DotRun(dots + y) == (DotFlags(dots), y)
  {
    if dots == [] {
      assert dots + y == y;
      assert DotFlags(dots) == [];
    } else {
      var s := dots + y;
      assert s[0] == dots[0] && s[1..] == dots[1..] + y;
      DotRunThen(dots[1..], y);
      assert DotFlags(dots) == [dots[0] == '.'] + DotFlags(dots[1..]);
    }
  }

  /** A dot pattern followed by text with no `|` that does not continue it is read as that
      pattern, and the whitespace after it is consumed. */
  lemma DotBeatThen(dots: string, y: string)
    requires |dots| > 0 && forall i :: 0 <= i < |dots| ==> IsDotSymbol(dots[i])
    requires '|' !in y && (y == [] || !IsDotSymbol(y[0]))
    ensures ParseBeat(dots + y) == Some((DotBeat(DotFlags(dots)), SkipSpace(y)))
  {
    var s := dots + y;
    forall i | 0 <= i < |dots| ensures dots[i] != '|' {
      assert IsDotSymbol(dots[i]);
    }
    assert '|' !in s;
    NoBarNoChain(s);
    assert s[0] == dots[0] && !IsSpace(s[0]);
    NoSpaceAt(s);
    DotRunThen(dots, y);
    SkipSpaceTwice(y);
  }

  /** A name that starts with a letter and goes on with letters and digits is a reference. */
  lemma NameParsesAsReference(s: string)
    requires |s| > 0 && IsAlpha(s[0]) && forall i :: 0 <= i < |s| ==> IsAlphanumeric(s[i])
    ensures ParseBeat(s) == Some((ReferenceBeat(s), []))
  {
    forall i | 0 <= i < |s| ensures s[i] != '|' {
      assert IsAlphanumeric(s[i]);
    }
    NoBarNoChain(s);
    NotDotNorNumber(s);
    ReferenceAlternative(s);
  }

  lemma NotDotNorNumber(s: string)
    requires |s| > 0 && IsAlpha(s[0])
    ensures ParseDotBeat(s) == None && ParseNumberBeat(s) == None
  {
    assert !IsSpace(s[0]);
    assert SkipSpace(s) == s;
    assert ParseNumberSymbol(s) == None;
    assert NumberRun(s) == ([], s);
  }

  lemma ReferenceAlternative(s: string)
    requires |s| > 0 && IsAlpha(s[0]) && forall i :: 0 <= i < |s| ==> IsAlphanumeric(s[i])
    ensures ParseReferenceBeat(s) == Some((ReferenceBeat(s), []))
  {
    assert !IsSpace(s[0]);
    assert SkipSpace(s) == s;
    var w := Word1(s, false);
    forall j | 0 <= j < |w.value.1| ensures IsAlphanumeric(w.value.1[j]) {
      assert w.value.1[j] == s[|w.value.0| + j];
    }
    assert w.value.1 == [];
    assert w.value.0 == s;
    assert SkipSpace([]) == [];
  }

  /** Text without `|` whose first non-blank character is neither a dot symbol nor an ASCII
      letter or digit is no beat expression. */
  lemma NoBeatAt(s: string)
    requires '|' !in s
    requires |SkipSpace(s)| > 0 && !IsDotSymbol(SkipSpace(s)[0]) && !IsAlphanumeric(SkipSpace(s)[0])
    ensures ParseBeat(s) == None
  {
    NoBarNoChain(s);
    var s1 := SkipSpace(s);
    assert SkipSpace(s1) == s1;
    assert ParseNumberSymbol(s1) == None;
  }

  /** Text whose first non-blank character is not `|` and begins no beat alternative is no beat,
      even with a `|` further on: the text before that `|` is no beat either. */
  lemma NoBeatBeforeBar(s: string)
    requires |SkipSpace(s)| > 0 && SkipSpace(s)[0] != '|'
    requires !IsDotSymbol(SkipSpace(s)[0]) && !IsAlphanumeric(SkipSpace(s)[0])
    ensures ParseBeat(s) == None
  {
    var t := SkipSpace(s);
    if '|' in t {
      var (first, rest) := TakeUntil(t, '|').value;
      assert first + rest == t && rest[0] == '|';
      assert |first| > 0 && first[0] == t[0];
      NoSpaceAt(first);
      NoBeatAt(first);
    }
    assert SkipSpace(t) == t;
    assert ParseNumberSymbol(t) == None;
  }

  /** `dotsA | dotsB` is the chain of the two dot patterns. */
  lemma BeatChainRoundTrip(a: string, b: string)
    requires |a| > 0 && forall i :: 0 <= i < |a| ==> IsDotSymbol(a[i])
    requires |b| > 0 && forall i :: 0 <= i < |b| ==> IsDotSymbol(b[i])
    ensures ParseBeat(a + " | " + b) == Some((BeatChain(DotBeat(DotFlags(a)), DotBeat(DotFlags(b))), []))
  {
    var x := a + " ";
    var z := " " + b;
    var s := x + ['|'] + z;
    BeatChainWords(a, b, x, z);
    NoSpaceAt(s);
    TakeUntilAt(x, '|', z);
    DotBeatThen(a, " ");
    assert SkipSpace(" ") == [];
    BarThenDots(z, b);
    ParseBeatChainOf(s, x, ['|'] + z, DotBeat(DotFlags(a)), DotBeat(DotFlags(b)), []);
    BeatIsChain(s);
  }

  lemma BeatChainWords(a: string, b: string, x: string, z: string)
    requires |a| > 0 && forall i :: 0 <= i < |a| ==> IsDotSymbol(a[i])
    requires x == a + " " && z == " " + b
    ensures a + " | " + b == x + ['|'] + z && (x + ['|'] + z)[0] == a[0] && !IsSpace(a[0]) && '|' !in x
  {
    assert IsDotSymbol(a[0]);
    forall i | 0 <= i < |x| ensures x[i] != '|' {
      if i < |a| {
        assert IsDotSymbol(a[i]);
      }
    }
  }

  /** `|`, one space and a dot pattern: the part of a chain after its bar. */
  lemma BarThenDots(z: string, b: string)
    requires |b| > 0 && forall i :: 0 <= i < |b| ==> IsDotSymbol(b[i])
    requires z == " " + b
    ensures ParseBarThenBeat(['|'] + z) == Some((DotBeat(DotFlags(b)), []))
  {
    var rest := ['|'] + z;
    assert rest[1..] == z && z[1..] == b;
    assert IsDotSymbol(b[0]);
    NoSpaceAt(b);
    assert SkipSpace(z) == b;
    DotsParseAsFlags(b);
    assert SkipSpace([]) == [];
    ParseBarThenBeatOf(rest, DotBeat(DotFlags(b)), []);
  }

  lemma ParseBarThenBeatOf(rest: string, b: BeatExpression, s5: string)
    requires |rest| > 0 && rest[0] == '|' && ParseBeat(SkipSpace(rest[1..])) == Some((b, s5))
    ensures ParseBarThenBeat(rest) == Some((b, SkipSpace(s5)))
  {
    BarAt(rest);
  }

  lemma BarAt(rest: string)
    requires |rest| > 0 && rest[0] == '|'
    ensures SkipSpace(rest) == rest && Tag(rest, "|") == Some(rest[1..])
  {
    NoSpaceAt(rest);
    assert rest == "|" + rest[1..];
    TagAt("|", rest[1..]);
  }

  lemma ParseBeatChainOf(s: string, first: string, rest: string, a: BeatExpression, b: BeatExpression, s5: string)
    requires TakeUntil(SkipSpace(s), '|') == Some((first, rest)) && ParseBeat(first) == Some((a, []))
    requires ParseBarThenBeat(rest) == Some((b, s5))
    ensures ParseBeatChain(s) == Some((BeatChain(a, b), s5))
  {
  }

  lemma BeatIsChain(s: string)
    requires ParseBeatChain(s).Some?
    ensures ParseBeat(s) == ParseBeatChain(s)
  {
  }
}
