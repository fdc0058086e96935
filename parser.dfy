/** parser.rs: clip expressions, declarations and the program header. */
module Parser {
  import opened Wrappers
  import opened Text
  import opened Ast
  import opened Combinators
  import BeatsParser

  /** `opt(p)`: a failed `p` gives no value and consumes nothing. */
  function Opt<T>(r: Option<(T, string)>, s: string): (o: (Option<T>, string))
    ensures r.None? ==> o == (None, s)
    ensures r.Some? ==> o == (Some(r.value.0), r.value.1)
  {
    match r
    case None => (None, s)
    case Some((v, rest)) => (Some(v), rest)
  }

  /** The largest value `(n as isize - 1).max(0) as usize` keeps as n - 1 under two's-complement
      wrap-around; above it the cast to `isize` is negative and the result is 0. */
  const IsizeLimit: int := 0x8000_0000_0000_0000

  /** `(n as isize - 1).max(0) as usize`: written positions count from 1, stored ones from 0. */
  function ZeroBased(n: nat): (r: nat)
    requires n < UsizeLimit
    ensures 1 <= n <= IsizeLimit ==> r == n - 1
    ensures n == 0 || n > IsizeLimit ==> r == 0
  {
    var signed := if n < IsizeLimit then n else n - UsizeLimit;
    var less := if signed - 1 < -IsizeLimit then signed - 1 + UsizeLimit else signed - 1;
    if less < 0 then 0 else less
  }

  /** `parse_time_sixteenth_expression`: `.` and a decimal number. */
  function ParseSixteenth(s: string): (r: Option<(nat, string)>)
    ensures r.Some? ==> IsSuffix(r.value.1, s) && r.value.0 < UsizeLimit
  {
    match Tag(s, ".")
    case None => None
    case Some(s1) =>
      match Digits1(s1)
      case None => None
      case Some((m, s2)) =>
        assert s1 == s[1..];
        SuffixOfTail(s2, s);
        Some((m, s2))
  }

  /** `parse_time_expression`: a 1-based beat number, optionally `.` and a 1-based sixteenth. */
  function ParseTime(s: string): (r: Option<(TimeExpression, string)>)
    ensures r.Some? ==> IsSuffix(r.value.1, s)
  {
    var s1 := SkipSpace(s);
    match Digits1(s1)
    case None => None
    case Some((beat, s2)) =>
      var (sixteenth, s3) := Opt(ParseSixteenth(s2), s2);
      var shifted := match sixteenth case None => None case Some(m) => Some(ZeroBased(m));
      SuffixTrans(s3, s2, s1);
      SuffixTrans(s3, s1, s);
      SuffixTrans(SkipSpace(s3), s3, s);
      Some((TimeExpression(ZeroBased(beat), shifted), SkipSpace(s3)))
  }

  /** `parse_time_range_expression`: `[`, an optional start, `:`, an optional end, `]`. */
  function ParseTimeRange(s: string): (r: Option<(TimeRange, string)>)
    ensures r.Some? ==> IsSuffix(r.value.1, s) && |r.value.1| < |s| && s[0] == '['
  {
    match Tag(s, "[")
    case None => None
    case Some(s1) =>
      var s2 := SkipSpace(s1);
      var (from, s3) := Opt(ParseTime(s2), s2);
      assert s1 == s[1..];
      SuffixTrans(s3, s2, s1);
      SuffixOfTail(s3, s);
      match ParseRangeEnd(s3)
      case None => None
      case Some((to, s4)) =>
        SuffixTrans(s4, s3, s);
        Some((TimeRange(from, to), s4))
  }

  /** The part of a time range after its start: `:`, an optional end, `]`. */
  function ParseRangeEnd(s: string): (r: Option<(Option<TimeExpression>, string)>)
    ensures r.Some? ==> IsSuffix(r.value.1, s) && |r.value.1| < |s|
  {
    match Symbol(s, ":")
    case None => None
    case Some(s1) =>
      var (to, s2) := Opt(ParseTime(s1), s1);
      var s3 := SkipSpace(s2);
      match Tag(s3, "]")
      case None => None
      case Some(s4) =>
        SuffixTrans(s3, s2, s1);
        SuffixTrans(s3, s1, s);
        assert s4 == s3[1..];
        SuffixOfTail(s4, s3);
        SuffixTrans(s4, s3, s);
        Some((to, s4))
  }

  /** `parse_clip_expression`: the eleven alternatives in order; the first that succeeds wins. */
  function ParseClip(s: string): (r: Option<(ClipExpression, string)>)
    ensures r.Some? ==> IsSuffix(r.value.1, s)
    ensures r.Some? && r.value.0.Chain? ==> r == ParseClipChain(s)
    ensures r.Some? && r.value.0.Layer? ==> r == ParseLayer(s)
    decreases |s|, 2
  {
    var applyBeat := ParseApplyBeat(s);
    if applyBeat.Some? then applyBeat else
    var restart := ParseRestart(s);
    if restart.Some? then restart else
    var chain := ParseClipChain(s);
    if chain.Some? then chain else
    var layer := ParseLayer(s);
    if layer.Some? then layer else
    var loop := ParseLoop(s);
    if loop.Some? then loop else
    var truncated := ParseTruncated(s);
    if truncated.Some? then truncated else
    var parentheses := ParseParentheses(s);
    if parentheses.Some? then parentheses else
    var multi := ParseMultiVideo(s);
    if multi.Some? then multi else
    var raw := ParseRawVideo(s);
    if raw.Some? then raw else
    var reference := ParseReferenceClip(s);
    if reference.Some? then reference else
    ParseEmpty(s)
  }

  /** Whitespace, a beat expression, whitespace, `token`, whitespace, a clip expression,
      whitespace: the shape shared by `parse_apply_beat_expression` (`@`) and
      `parse_restart_beat_expression` (`>>`). */
  function ParseBeatThenClip(s: string, token: string): (r: Option<(BeatExpression, ClipExpression, string)>)
    requires |token| > 0
    ensures r.Some? ==> IsSuffix(r.value.2, s)
    ensures r.Some? ==>
              BeatsParser.ParseBeat(SkipSpace(s)).Some? &&
              r.value.0 == BeatsParser.ParseBeat(SkipSpace(s)).value.0 &&
              Symbol(BeatsParser.ParseBeat(SkipSpace(s)).value.1, token).Some?
    ensures r.Some? ==>
              var after := Symbol(BeatsParser.ParseBeat(SkipSpace(s)).value.1, token).value;
              ParseClip(after).Some? && r.value.1 == ParseClip(after).value.0 &&
              r.value.2 == SkipSpace(ParseClip(after).value.1)
    decreases |s|, 0
  {
    var s1 := SkipSpace(s);
    match BeatsParser.ParseBeat(s1)
    case None => None
    case Some((beat, s2)) =>
      match Symbol(s2, token)
      case None => None
      case Some(s3) =>
        SuffixTrans(s3, s2, s1);
        SuffixTrans(s3, s1, s);
        match ParseClip(s3)
        case None => None
        case Some((clip, s4)) =>
          SuffixTrans(s4, s3, s);
          SuffixTrans(SkipSpace(s4), s4, s);
          Some((beat, clip, SkipSpace(s4)))
  }

  /** `parse_apply_beat_expression`: `beat @ clip`. */
  function ParseApplyBeat(s: string): (r: Option<(ClipExpression, string)>)
    ensures r.Some? ==> IsSuffix(r.value.1, s) && r.value.0.ApplyBeat?
    ensures r.Some? ==>
              BeatsParser.ParseBeat(SkipSpace(s)).Some? &&
              r.value.0.beat == BeatsParser.ParseBeat(SkipSpace(s)).value.0 &&
              Symbol(BeatsParser.ParseBeat(SkipSpace(s)).value.1, "@").Some?
    ensures r.Some? ==>
              var after := Symbol(BeatsParser.ParseBeat(SkipSpace(s)).value.1, "@").value;
              ParseClip(after).Some? && r.value.0.clip == ParseClip(after).value.0 &&
              r.value.1 == SkipSpace(ParseClip(after).value.1)
    decreases |s|, 1
  {
    match ParseBeatThenClip(s, "@")
    case None => None
    case Some((beat, clip, rest)) => Some((ApplyBeat(beat, clip), rest))
  }

  /** `parse_restart_beat_expression`: `beat >> clip`. */
  function ParseRestart(s: string): (r: Option<(ClipExpression, string)>)
    ensures r.Some? ==> IsSuffix(r.value.1, s) && r.value.0.Restart?
    ensures r.Some? ==>
              BeatsParser.ParseBeat(SkipSpace(s)).Some? &&
              r.value.0.beat == BeatsParser.ParseBeat(SkipSpace(s)).value.0 &&
              Symbol(BeatsParser.ParseBeat(SkipSpace(s)).value.1, ">>").Some?
    ensures r.Some? ==>
              var after := Symbol(BeatsParser.ParseBeat(SkipSpace(s)).value.1, ">>").value;
              ParseClip(after).Some? && r.value.0.clip == ParseClip(after).value.0 &&
              r.value.1 == SkipSpace(ParseClip(after).value.1)
    decreases |s|, 1
  {
    match ParseBeatThenClip(s, ">>")
    case None => None
    case Some((beat, clip, rest)) => Some((Restart(beat, clip), rest))
  }

  /** The shape shared by `parse_clip_chain_expression` (`|`) and `parse_layer_expression`
      (`:`): the text before the first `delimiter` must be one whole clip expression, and the
      text after it is parsed again, so both operators nest to the right. */
  function ParseSplit(s: string, delimiter: char): (r: Option<(ClipExpression, ClipExpression, string)>)
    ensures r.Some? ==> IsSuffix(r.value.2, s)
    ensures r.Some? ==>
              TakeUntil(SkipSpace(s), delimiter).Some? &&
              ParseClip(TakeUntil(SkipSpace(s), delimiter).value.0) == Some((r.value.0, []))
    ensures r.Some? ==>
              var rest := TakeUntil(SkipSpace(s), delimiter).value.1;
              Symbol(rest, [delimiter]).Some? && ParseClip(Symbol(rest, [delimiter]).value).Some? &&
              r.value.1 == ParseClip(Symbol(rest, [delimiter]).value).value.0 &&
              r.value.2 == SkipSpace(ParseClip(Symbol(rest, [delimiter]).value).value.1)
    decreases |s|, 0
  {
    var s1 := SkipSpace(s);
    match TakeUntil(s1, delimiter)
    case None => None
    case Some((first, rest)) =>
      match ParseClip(first)
      case None => None
      case Some((a, restFirst)) =>
        if restFirst != [] then None
        else
          match Symbol(rest, [delimiter])
          case None => None
          case Some(s2) =>
            assert rest == s1[|first|..];
            SuffixTrans(s2, rest, s1);
            match ParseClip(s2)
            case None => None
            case Some((b, s3)) =>
              SuffixTrans(s3, s2, s1);
              SuffixTrans(s3, s1, s);
              SuffixTrans(SkipSpace(s3), s3, s);
              Some((a, b, SkipSpace(s3)))
  }

  /** `parse_clip_chain_expression`: `a | b`, one clip after the other. */
  function ParseClipChain(s: string): (r: Option<(ClipExpression, string)>)
    ensures r.Some? ==> IsSuffix(r.value.1, s) && r.value.0.Chain?
    ensures r.Some? ==>
              TakeUntil(SkipSpace(s), '|').Some? &&
              ParseClip(TakeUntil(SkipSpace(s), '|').value.0) == Some((r.value.0.clipA, []))
    ensures r.Some? ==>
              var rest := TakeUntil(SkipSpace(s), '|').value.1;
              Symbol(rest, ['|']).Some? && ParseClip(Symbol(rest, ['|']).value).Some? &&
              r.value.0.clipB == ParseClip(Symbol(rest, ['|']).value).value.0 &&
              r.value.1 == SkipSpace(ParseClip(Symbol(rest, ['|']).value).value.1)
    decreases |s|, 1
  {
    match ParseSplit(s, '|')
    case None => None
    case Some((a, b, rest)) => Some((Chain(a, b), rest))
  }

  /** `parse_layer_expression`: `a : b`, one clip over the other. */
  function ParseLayer(s: string): (r: Option<(ClipExpression, string)>)
    ensures r.Some? ==> IsSuffix(r.value.1, s) && r.value.0.Layer?
    ensures r.Some? ==>
              TakeUntil(SkipSpace(s), ':').Some? &&
              ParseClip(TakeUntil(SkipSpace(s), ':').value.0) == Some((r.value.0.clipA, []))
    ensures r.Some? ==>
              var rest := TakeUntil(SkipSpace(s), ':').value.1;
              Symbol(rest, [':']).Some? && ParseClip(Symbol(rest, [':']).value).Some? &&
              r.value.0.clipB == ParseClip(Symbol(rest, [':']).value).value.0 &&
              r.value.1 == SkipSpace(ParseClip(Symbol(rest, [':']).value).value.1)
    decreases |s|, 1
  {
    match ParseSplit(s, ':')
    case None => None
    case Some((a, b, rest)) => Some((Layer(a, b), rest))
  }

  /** `parse_clip_loop_expression`: `clip * d` with exactly one digit d. */
  function ParseLoop(s: string): (r: Option<(ClipExpression, string)>)
    ensures r.Some? ==> IsSuffix(r.value.1, s) && r.value.0.Loop? && r.value.0.repetitions <= 9
    ensures r.Some? ==>
              TakeUntil(SkipSpace(s), '*').Some? &&
              ParseClip(TakeUntil(SkipSpace(s), '*').value.0) == Some((r.value.0.clip, []))
    ensures r.Some? ==>
              var after := Symbol(TakeUntil(SkipSpace(s), '*').value.1, "*");
              after.Some? && |after.value| > 0 && IsDigit(after.value[0]) &&
              r.value.0.repetitions == DigitValue(after.value[0]) && r.value.1 == SkipSpace(after.value[1..])
    decreases |s|, 0
  {
    var s1 := SkipSpace(s);
    match TakeUntil(s1, '*')
    case None => None
    case Some((first, rest)) =>
      match ParseClip(first)
      case None => None
      case Some((clip, restFirst)) =>
        if restFirst != [] then None
        else
          match Symbol(rest, "*")
          case None => None
          case Some(s2) =>
            match OneDigit(s2)
            case None => None
            case Some((repetitions, s3)) =>
              assert rest == s1[|first|..];
              SuffixTrans(s2, rest, s1);
              SuffixOfTail(s3, s2);
              SuffixTrans(s3, s2, s1);
              SuffixTrans(s3, s1, s);
              SuffixTrans(SkipSpace(s3), s3, s);
              Some((Loop(clip, repetitions), SkipSpace(s3)))
  }

  /** `parse_truncated_clip_expression`: `clip[from:to]`. The clip is read from the text before
      the first `[`, and whatever of that text it leaves unread is dropped. */
  function ParseTruncated(s: string): (r: Option<(ClipExpression, string)>)
    ensures r.Some? ==> IsSuffix(r.value.1, s) && r.value.0.Truncated? && '[' in s
    ensures r.Some? ==>
              TakeUntil(SkipSpace(s), '[').Some? &&
              ParseClip(TakeUntil(SkipSpace(s), '[').value.0).Some? &&
              r.value.0.clip == ParseClip(TakeUntil(SkipSpace(s), '[').value.0).value.0
    ensures r.Some? ==>
              var range := ParseTimeRange(SkipSpace(TakeUntil(SkipSpace(s), '[').value.1));
              range.Some? && r.value.0.timerange == range.value.0 && r.value.1 == SkipSpace(range.value.1)
    decreases |s|, 0
  {
    if '[' !in s && ']' !in s then None
    else
      var s1 := SkipSpace(s);
      match TakeUntil(s1, '[')
      case None => None
      case Some((first, rest)) =>
        match ParseClip(first)
        case None => None
        case Some((clip, _)) =>
          match ParseTimeRange(SkipSpace(rest))
          case None => None
          case Some((timerange, s3)) =>
            TruncatedSuffix(s, s1, first, rest, s3);
            Some((Truncated(clip, timerange), SkipSpace(s3)))
  }

  lemma TruncatedSuffix(s: string, s1: string, first: string, rest: string, s3: string)
    requires s1 == SkipSpace(s) && TakeUntil(s1, '[') == Some((first, rest))
    requires IsSuffix(s3, SkipSpace(rest))
    ensures IsSuffix(SkipSpace(s3), s) && '[' in s
  {
    assert rest == s1[|first|..];
    SuffixTrans(SkipSpace(rest), rest, s1);
    SuffixTrans(s3, SkipSpace(rest), s1);
    SuffixTrans(s3, s1, s);
    SuffixTrans(SkipSpace(s3), s3, s);
    assert s[|s| - |s1| + |first|] == rest[0] == '[';
  }

  /** `parse_parentheses_clip_expression`: `( clip )`. */
  function ParseParentheses(s: string): (r: Option<(ClipExpression, string)>)
    ensures r.Some? ==> IsSuffix(r.value.1, s) && r.value.0.Parentheses?
    ensures r.Some? ==>
              Symbol(s, "(").Some? && ParseClip(Symbol(s, "(").value).Some? &&
              r.value.0.clip == ParseClip(Symbol(s, "(").value).value.0 &&
              Symbol(ParseClip(Symbol(s, "(").value).value.1, ")") == Some(r.value.1)
    decreases |s|, 0
  {
    match Symbol(s, "(")
    case None => None
    case Some(s1) =>
      match ParseClip(s1)
      case None => None
      case Some((clip, s2)) =>
        match Symbol(s2, ")")
        case None => None
        case Some(s3) =>
          SuffixTrans(s3, s2, s1);
          SuffixTrans(s3, s1, s);
          Some((Parentheses(clip), s3))
  }

  /** `parse_multi_video_expression`: `multi`, a decimal count of sub-clips, a quoted name. */
  function ParseMultiVideo(s: string): (r: Option<(ClipExpression, string)>)
    ensures r.Some? ==> IsSuffix(r.value.1, s) && r.value.0.MultiVideo? && r.value.0.subclips < UsizeLimit
    ensures r.Some? ==>
              Symbol(s, "multi").Some? && Digits1(Symbol(s, "multi").value).Some? &&
              r.value.0.subclips == Digits1(Symbol(s, "multi").value).value.0
    ensures r.Some? ==>
              var name := Quoted(SkipSpace(Digits1(Symbol(s, "multi").value).value.1));
              name.Some? && r.value.0.filename == name.value.0 && r.value.1 == SkipSpace(name.value.1)
  {
    match Symbol(s, "multi")
    case None => None
    case Some(s1) =>
      match Digits1(s1)
      case None => None
      case Some((subclips, s2)) =>
        var s3 := SkipSpace(s2);
        match Quoted(s3)
        case None => None
        case Some((filename, s4)) =>
          SuffixTrans(s3, s2, s1);
          SuffixTrans(s4, s3, s1);
          SuffixTrans(s4, s1, s);
          SuffixTrans(SkipSpace(s4), s4, s);
          Some((MultiVideo(filename, subclips), SkipSpace(s4)))
  }

  /** `parse_raw_video_expression`: a quoted file name. */
  function ParseRawVideo(s: string): (r: Option<(ClipExpression, string)>)
    ensures r.Some? ==> IsSuffix(r.value.1, s) && r.value.0.RawVideo?
  {
    var s1 := SkipSpace(s);
    match Quoted(s1)
    case None => None
    case Some((filename, s2)) =>
      SuffixTrans(s2, s1, s);
      SuffixTrans(SkipSpace(s2), s2, s);
      Some((RawVideo(filename), SkipSpace(s2)))
  }

  /** `parse_reference_clip_expression`: a name of ASCII letters and digits. */
  function ParseReferenceClip(s: string): (r: Option<(ClipExpression, string)>)
    ensures r.Some? ==> IsSuffix(r.value.1, s) && r.value.0.Reference? && |r.value.0.name| > 0
    ensures r.Some? ==> forall i :: 0 <= i < |r.value.0.name| ==> IsAlphanumeric(r.value.0.name[i])
    ensures r.Some? ==>
              var t, n := SkipSpace(s), |r.value.0.name|;
              n <= |t| && t[..n] == r.value.0.name && (n == |t| || !IsAlphanumeric(t[n])) &&
              r.value.1 == SkipSpace(t[n..])
  {
    var s1 := SkipSpace(s);
    match Word1(s1, false)
    case None => None
    case Some((name, s2)) =>
      SuffixTrans(s2, s1, s);
      SuffixTrans(SkipSpace(s2), s2, s);
      Some((Reference(name), SkipSpace(s2)))
  }

  /** `parse_empty_expression`: `-`. */
  function ParseEmpty(s: string): (r: Option<(ClipExpression, string)>)
    ensures r.Some? ==> IsSuffix(r.value.1, s) && r.value.0.Empty?
  {
    match Symbol(s, "-")
    case None => None
    case Some(rest) => Some((Empty, rest))
  }

  /** `parse_clip_declaration`: `clip name = expression` (`clp` is accepted for `clip`), the name
      being ASCII letters only. */
  function ParseClipDeclaration(s: string): (r: Option<(Declaration, string)>)
    ensures r.Some? ==> IsSuffix(r.value.1, s) && r.value.0.ClipDeclaration?
    ensures r.Some? ==> |r.value.0.name| > 0 && forall i :: 0 <= i < |r.value.0.name| ==> IsAlpha(r.value.0.name[i])
    ensures r.Some? ==>
              '=' in s && ParseClip(AfterEquals(s)).Some? &&
              r.value.0.clipExpression == ParseClip(AfterEquals(s)).value.0 &&
              r.value.1 == SkipSpace(ParseClip(AfterEquals(s)).value.1)
  {
    var keyword := Symbol(s, "clip");
    match if keyword.Some? then keyword else Symbol(s, "clp")
    case None => None
    case Some(s1) =>
      var r := ParseClipDefinition(s1);
      if r.Some? then
        var (name, s2) := Word1(s1, true).value;
        KeywordsHaveNoEquals();
        EqualsAfterName(s, if keyword.Some? then "clip" else "clp", s1, name, s2);
        SuffixTrans(r.value.1, s1, s);
        r
      else None
  }

  /** The part of a clip declaration after its keyword: the name, `=` and the expression. */
  function ParseClipDefinition(s1: string): (r: Option<(Declaration, string)>)
    ensures r.Some? ==> IsSuffix(r.value.1, s1) && r.value.0.ClipDeclaration? && Word1(s1, true).Some?
    ensures r.Some? ==>
              var (name, s2) := Word1(s1, true).value;
              r.value.0.name == name && Symbol(s2, "=").Some? && ParseClip(Symbol(s2, "=").value).Some? &&
              r.value == (ClipDeclaration(name, ParseClip(Symbol(s2, "=").value).value.0),
                          SkipSpace(ParseClip(Symbol(s2, "=").value).value.1))
  {
    match Word1(s1, true)
    case None => None
    case Some((name, s2)) =>
      match Symbol(s2, "=")
      case None => None
      case Some(s3) =>
        match ParseClip(s3)
        case None => None
        case Some((e, s4)) =>
          SuffixTrans(s3, s2, s1);
          SuffixTrans(s4, s3, s1);
          SuffixTrans(SkipSpace(s4), s4, s1);
          Some((ClipDeclaration(name, e), SkipSpace(s4)))
  }

  /** `parse_beat_declaration`: `beat name = pattern`, the name being ASCII letters only. */
  function ParseBeatDeclaration(s: string): (r: Option<(Declaration, string)>)
    ensures r.Some? ==> IsSuffix(r.value.1, s) && r.value.0.BeatDeclaration?
    ensures r.Some? ==> |r.value.0.name| > 0 && forall i :: 0 <= i < |r.value.0.name| ==> IsAlpha(r.value.0.name[i])
    ensures r.Some? ==>
              '=' in s && BeatsParser.ParseBeat(AfterEquals(s)).Some? &&
              r.value.0.beatExpression == BeatsParser.ParseBeat(AfterEquals(s)).value.0 &&
              r.value.1 == SkipSpace(BeatsParser.ParseBeat(AfterEquals(s)).value.1)
  {
    match Symbol(s, "beat")
    case None => None
    case Some(s1) =>
      var r := ParseBeatDefinition(s1);
      if r.Some? then
        var (name, s2) := Word1(s1, true).value;
        KeywordsHaveNoEquals();
        EqualsAfterName(s, "beat", s1, name, s2);
        SuffixTrans(r.value.1, s1, s);
        r
      else None
  }

  /** The part of a beat declaration after its keyword: the name, `=` and the pattern. */
  function ParseBeatDefinition(s1: string): (r: Option<(Declaration, string)>)
    ensures r.Some? ==> IsSuffix(r.value.1, s1) && r.value.0.BeatDeclaration? && Word1(s1, true).Some?
    ensures r.Some? ==>
              var (name, s2) := Word1(s1, true).value;
              r.value.0.name == name && Symbol(s2, "=").Some? &&
              BeatsParser.ParseBeat(Symbol(s2, "=").value).Some? &&
              r.value == (BeatDeclaration(name, BeatsParser.ParseBeat(Symbol(s2, "=").value).value.0),
                          SkipSpace(BeatsParser.ParseBeat(Symbol(s2, "=").value).value.1))
  {
    match Word1(s1, true)
    case None => None
    case Some((name, s2)) =>
      match Symbol(s2, "=")
      case None => None
      case Some(s3) =>
        match BeatsParser.ParseBeat(s3)
        case None => None
        case Some((e, s4)) =>
          SuffixTrans(s3, s2, s1);
          SuffixTrans(s4, s3, s1);
          SuffixTrans(SkipSpace(s4), s4, s1);
          Some((BeatDeclaration(name, e), SkipSpace(s4)))
  }

  /** The text after the first `=`, without the whitespace that follows it. */
  function AfterEquals(s: string): string
    requires '=' in s
  {
    SkipSpace(TakeUntil(s, '=').value.1[1..])
  }

  /** Only whitespace, a keyword of letters and a name come before the `=` of a declaration,
      so the expression is read from after the first `=` of its text. */
  lemma EqualsAfterName(s: string, keyword: string, s1: string, name: string, s2: string)
    requires |keyword| > 0 && '=' !in keyword
    requires Symbol(s, keyword) == Some(s1) && Word1(s1, true) == Some((name, s2))
    requires Symbol(s2, "=").Some?
    ensures '=' in s && Symbol(s2, "=") == Some(AfterEquals(s))
  {
    KeywordClean(s, keyword, s1);
    NameClean(s1, name, s2);
    CleanTrans(s2, s1, s);
    SpacesHaveNoEquals(s2);
    CleanTrans(SkipSpace(s2), s2, s);
    FirstAt(s, SkipSpace(s2), '=');
  }

  /** Whitespace and a keyword free of `=` hold no `=`. */
  lemma KeywordClean(s: string, keyword: string, s1: string)
    requires |keyword| > 0 && '=' !in keyword && Symbol(s, keyword) == Some(s1)
    ensures CleanBefore(s1, s)
  {
    var t0 := SkipSpace(s);
    var t1 := Tag(t0, keyword).value;
    SpacesHaveNoEquals(s);
    assert forall i :: 0 <= i < |t0| - |t1| ==> t0[i] != '=' by {
      forall i | 0 <= i < |t0| - |t1| ensures t0[i] != '=' {
        assert t0[i] == keyword[i] && keyword[i] in keyword;
      }
    }
    CleanTrans(t1, t0, s);
    SpacesHaveNoEquals(t1);
    CleanTrans(s1, t1, s);
  }

  /** A name of letters holds no `=`. */
  lemma NameClean(s1: string, name: string, s2: string)
    requires Word1(s1, true) == Some((name, s2))
    ensures IsSuffix(s2, s1) && forall i :: 0 <= i < |s1| - |s2| ==> s1[i] != '='
  {
    forall i | 0 <= i < |s1| - |s2| ensures s1[i] != '=' {
      assert s1[i] == name[i];
    }
  }

  /** No `=` in front of `t` within `s`. */
  predicate CleanBefore(t: string, s: string)
  {
    IsSuffix(t, s) && forall i :: 0 <= i < |s| - |t| ==> s[i] != '='
  }

  lemma SpacesHaveNoEquals(s: string)
    ensures CleanBefore(SkipSpace(s), s)
  {
    SkipSpaceDropsSpaces(s);
  }

  lemma CleanTrans(a: string, b: string, c: string)
    requires IsSuffix(a, b) && (forall i :: 0 <= i < |b| - |a| ==> b[i] != '=') && CleanBefore(b, c)
    ensures CleanBefore(a, c)
  {
    forall i | 0 <= i < |c| - |a| ensures c[i] != '=' {
      if i >= |c| - |b| {
        assert c[i] == b[i - (|c| - |b|)];
      }
    }
  }

  lemma FirstAt(s: string, t: string, c: char)
    requires c == '=' && CleanBefore(t, s) && |t| > 0 && t[0] == c
    ensures c in s && TakeUntil(s, c) == Some((s[..|s| - |t|], t))
  {
    var k := |s| - |t|;
    assert s[k] == c;
    assert c !in s[..k];
  }

  lemma KeywordsHaveNoEquals()
    ensures '=' !in "clip" && '=' !in "clp" && '=' !in "beat"
  {
  }

  /** `alt((parse_clip_declaration, parse_beat_declaration))`. */
  function ParseDeclarationBody(s: string): (r: Option<(Declaration, string)>)
    ensures r.Some? ==> IsSuffix(r.value.1, s)
    ensures r.Some? && r.value.0.ClipDeclaration? ==> r == ParseClipDeclaration(s)
    ensures r.Some? && r.value.0.BeatDeclaration? ==> ParseClipDeclaration(s).None? && r == ParseBeatDeclaration(s)
    ensures r.None? <==> ParseClipDeclaration(s).None? && ParseBeatDeclaration(s).None?
  {
    var clip := ParseClipDeclaration(s);
    if clip.Some? then clip else ParseBeatDeclaration(s)
  }

  /** `parse_declaration`: a declaration is the text up to the first `;`, which must parse as
      a clip or beat declaration with nothing but whitespace left over. */
  function ParseDeclaration(s: string): (r: Option<(Declaration, string)>)
    ensures r.Some? ==> ';' in s && r.value.1 == SkipSpace(TakeUntil(s, ';').value.1[1..])
    ensures r.Some? ==>
              ParseDeclarationBody(TakeUntil(s, ';').value.0).Some? &&
              ParseDeclarationBody(TakeUntil(s, ';').value.0).value.0 == r.value.0 &&
              SkipSpace(ParseDeclarationBody(TakeUntil(s, ';').value.0).value.1) == []
    ensures r.Some? ==> IsSuffix(r.value.1, s) && |r.value.1| < |s|
  {
    match TakeUntil(s, ';')
    case None => None
    case Some((body, rest)) =>
      match ParseDeclarationBody(body)
      case None => None
      case Some((declaration, left)) =>
        if SkipSpace(left) != [] then None
        else
          match Tag(rest, ";")
          case None => None
          case Some(s1) =>
            assert s1 == rest[1..];
            assert IsSuffix(rest, s);
            SuffixOfTail(s1, rest);
            SuffixTrans(s1, rest, s);
            SuffixTrans(SkipSpace(s1), s1, s);
            Some((declaration, SkipSpace(s1)))
  }

  /** `many0(parse_declaration)`: as many declarations as parse, in order. */
  function ParseDeclarations(s: string): (r: (seq<Declaration>, string))
    ensures IsSuffix(r.1, s)
    ensures |r.0| <= multiset(s)[';']
    decreases |s|
  {
    match ParseDeclaration(s)
    case None => ([], s)
    case Some((d, rest)) =>
      var tail := ParseDeclarations(rest);
      SuffixTrans(tail.1, rest, s);
      SemicolonsAfterDeclaration(s, rest);
      ([d] + tail.0, tail.1)
  }

  /** Each parsed declaration uses up one `;`. */
  lemma SemicolonsAfterDeclaration(s: string, rest: string)
    requires ';' in s && rest == SkipSpace(TakeUntil(s, ';').value.1[1..])
    ensures multiset(rest)[';'] < multiset(s)[';']
  {
    var (body, semi) := TakeUntil(s, ';').value;
    SemicolonSplit(s, body, semi, rest);
  }

  lemma SemicolonSplit(s: string, body: string, semi: string, rest: string)
    requires s == body + semi && |semi| > 0 && semi[0] == ';' && IsSuffix(rest, semi[1..])
    ensures multiset(rest)[';'] < multiset(s)[';']
  {
    assert semi == [';'] + semi[1..];
    assert multiset(s) == multiset(body) + multiset(semi);
    assert multiset(semi) == multiset{';'} + multiset(semi[1..]);
    SuffixCount(rest, semi[1..], ';');
  }

  lemma SuffixCount(t: string, s: string, c: char)
    requires IsSuffix(t, s)
    ensures multiset(t)[c] <= multiset(s)[c]
  {
    assert s == s[..|s| - |t|] + t;
    assert multiset(s) == multiset(s[..|s| - |t|]) + multiset(t);
  }

  /** `multispace0`, `keyword`, `=`, a quoted value, `;`, `multispace0`: the shape shared by
      `parse_directory_declaration` and `parse_extension_declaration`. */
  function ParseSetting(s: string, keyword: string): (r: Option<(string, string)>)
    requires |keyword| > 0
    ensures r.Some? ==> IsSuffix(r.value.1, s) && |r.value.1| < |s|
  {
    match Symbol(s, keyword)
    case None => None
    case Some(s1) =>
      match ParseAssignment(s1)
      case None => None
      case Some((value, s2)) =>
        SuffixTrans(s2, s1, s);
        Some((value, s2))
  }

  /** The part of a setting after its keyword: `=`, the quoted value and `;`. */
  function ParseAssignment(s: string): (r: Option<(string, string)>)
    ensures r.Some? ==> IsSuffix(r.value.1, s) && |r.value.1| < |s|
  {
    match Symbol(s, "=")
    case None => None
    case Some(s1) =>
      match Quoted(s1)
      case None => None
      case Some((value, s2)) =>
        match Symbol(s2, ";")
        case None => None
        case Some(s3) =>
          SuffixTrans(s2, s1, s);
          SuffixTrans(s3, s2, s);
          Some((value, s3))
  }

  /** `parse_main`: the directory setting, the extension setting, the declarations and the
      entry expression; the unparsed rest is returned. */
  function ParseMain(s: string): (r: Option<(Main, string)>)
    ensures r.Some? ==> IsSuffix(r.value.1, s)
    ensures r.Some? ==>
              var directory := ParseSetting(SkipSpace(s), "directory");
              directory.Some? && r.value.0.directory == directory.value.0 &&
              ParseAfterDirectory(directory.value.1) ==
                Some((r.value.0.extension, r.value.0.declarations, r.value.0.mainExpression, r.value.1))
  {
    match ParseSetting(SkipSpace(s), "directory")
    case None => None
    case Some((directory, s1)) =>
      match ParseAfterDirectory(s1)
      case None => None
      case Some((extension, declarations, e, s3)) =>
        SuffixTrans(s1, SkipSpace(s), s);
        SuffixTrans(s3, s1, s);
        Some((Main(directory, extension, declarations, e), s3))
  }

  /** The part of `parse_main` after the directory setting: the extension setting, then the
      declarations and the entry expression. */
  function ParseAfterDirectory(s: string): (r: Option<(string, seq<Declaration>, ClipExpression, string)>)
    ensures r.Some? ==> IsSuffix(r.value.3, s)
    ensures r.Some? ==>
              var extension := ParseSetting(SkipSpace(s), "extension");
              extension.Some? && r.value.0 == extension.value.0 &&
              ParseProgramBody(SkipSpace(extension.value.1)) == Some((r.value.1, r.value.2, r.value.3))
  {
    match ParseSetting(SkipSpace(s), "extension")
    case None => None
    case Some((extension, s1)) =>
      match ParseProgramBody(SkipSpace(s1))
      case None => None
      case Some((declarations, e, s2)) =>
        SuffixTrans(s1, SkipSpace(s), s);
        SuffixTrans(SkipSpace(s1), s1, s);
        SuffixTrans(s2, SkipSpace(s1), s);
        Some((extension, declarations, e, s2))
  }

  /** The part of `parse_main` after the settings: the declarations, then the entry expression
      with the whitespace around it. */
  function ParseProgramBody(s: string): (r: Option<(seq<Declaration>, ClipExpression, string)>)
    ensures r.Some? ==> IsSuffix(r.value.2, s)
    ensures r.Some? <==> ParseClip(SkipSpace(ParseDeclarations(s).1)).Some?
    ensures r.Some? ==>
              var entry := ParseClip(SkipSpace(ParseDeclarations(s).1)).value;
              r.value == (ParseDeclarations(s).0, entry.0, SkipSpace(entry.1))
  {
    var (declarations, s1) := ParseDeclarations(s);
    match ParseClip(SkipSpace(s1))
    case None => None
    case Some((e, s2)) =>
      SuffixTrans(SkipSpace(s1), s1, s);
      SuffixTrans(s2, SkipSpace(s1), s);
      SuffixTrans(SkipSpace(s2), s2, s);
      Some((declarations, e, SkipSpace(s2)))
  }

  /** Text without `delimiter` never splits at it. */
  lemma NoDelimiterNoSplit(t: string, delimiter: char)
    requires delimiter !in t
    ensures ParseSplit(t, delimiter) == None
  {
    var t1 := SkipSpace(t);
    assert t1 == t[|t| - |t1|..];
    assert delimiter !in t1;
  }

  /** Chains nest to the right: the left operand of a parsed chain is never a chain. */
  lemma ChainsNestRight(s: string)
    requires ParseClip(s).Some? && ParseClip(s).value.0.Chain?
    ensures !ParseClip(s).value.0.clipA.Chain?
  {
    var first := TakeUntil(SkipSpace(s), '|').value.0;
    NoDelimiterNoSplit(first, '|');
  }

  /** Layers nest to the right: the left operand of a parsed layer is never a layer. */
  lemma LayersNestRight(s: string)
    requires ParseClip(s).Some? && ParseClip(s).value.0.Layer?
    ensures !ParseClip(s).value.0.clipA.Layer?
  {
    var first := TakeUntil(SkipSpace(s), ':').value.0;
    NoDelimiterNoSplit(first, ':');
  }

  /** None of the characters the chain, layer, loop and truncation forms look for. */
  predicate NoOperators(t: string)
  {
    '|' !in t && ':' !in t && '*' !in t && '[' !in t && ']' !in t
  }

  /** A quoted file name with none of the operator characters in it reads as a raw video. */
  lemma RawVideoRoundTrip(q: char, name: string)
    requires q == '\'' || q == '"'
    requires q !in name && '|' !in name && ':' !in name && '*' !in name && '[' !in name && ']' !in name
    ensures ParseClip([q] + name + [q]) == Some((RawVideo(name), []))
  {
    RawVideoThen(q, name, []);
    assert [q] + name + [q] + [] == [q] + name + [q];
    assert SkipSpace([]) == [];
  }

  /** A quoted file name reads as a raw video whatever text without operator characters
      follows it; the whitespace after it is consumed. */
  lemma RawVideoThen(q: char, name: string, rest: string)
    requires (q == '\'' || q == '"') && q !in name && NoOperators(name) && NoOperators(rest)
    ensures ParseClip([q] + name + [q] + rest) == Some((RawVideo(name), SkipSpace(rest)))
  {
    var s := [q] + name + [q] + rest;
    assert NoOperators(s);
    NoOperatorAt(s);
    assert SkipSpace(s) == s;
    assert Symbol(s, "multi") == None;
    QuotedRoundTrip(q, name, rest);
  }

  /** Text with none of the operator characters, starting with a character that begins no beat
      expression and no parenthesis, matches none of the first seven alternatives. */
  lemma NoOperatorAt(s: string)
    requires '|' !in s && ':' !in s && '*' !in s && '[' !in s && ']' !in s
    requires |s| > 0 && !IsSpace(s[0]) && !BeatsParser.IsDotSymbol(s[0]) && !IsAlphanumeric(s[0]) && s[0] != '('
    ensures ParseApplyBeat(s) == None && ParseRestart(s) == None
    ensures ParseClipChain(s) == None && ParseLayer(s) == None && ParseLoop(s) == None
    ensures ParseTruncated(s) == None && ParseParentheses(s) == None
  {
    assert SkipSpace(s) == s;
    BeatsParser.NoBeatAt(s);
    NoDelimiterNoSplit(s, '|');
    NoDelimiterNoSplit(s, ':');
    assert TakeUntil(s, '*') == None;
    assert Symbol(s, "(") == None;
  }

  /** A decimal literal that fits in a `usize` reads back as its value. */
  lemma DecimalLiteral(n: nat, t: string)
    requires n < UsizeLimit && (t == [] || !IsDigit(t[0]))
    ensures Digits1(DecimalString(n) + t) == Some((n, t))
  {
    var d := DecimalString(n);
    SpanAt(d, t, IsDigit);
    assert (d + t)[..|d|] == d && (d + t)[|d|..] == t;
    DecimalRoundTrip(n);
  }

  /** A time as a program writes it: the 1-based beat and, optionally, `.` and the 1-based
      sixteenth, in decimal. */
  function TimeText(beat: nat, sixteenth: Option<nat>): (r: string)
    ensures |r| > 0 && IsDigit(r[0])
  {
    match sixteenth
    case None => DecimalString(beat)
    case Some(m) => DecimalString(beat) + ("." + DecimalString(m))
  }

  /** The position a written time denotes, 0-based. */
  function WrittenPosition(beat: nat, sixteenth: Option<nat>): TimeExpression
    requires beat >= 1 && (sixteenth.Some? ==> sixteenth.value >= 1)
  {
    TimeExpression(beat - 1, match sixteenth case None => None case Some(m) => Some(m - 1))
  }

  predicate InRange(beat: nat, sixteenth: Option<nat>)
  {
    1 <= beat <= IsizeLimit && (sixteenth.Some? ==> 1 <= sixteenth.value <= IsizeLimit)
  }

  /** A written time reads back as its 0-based position, whatever follows it that cannot
      continue a number. */
  lemma TimeRoundTrip(beat: nat, sixteenth: Option<nat>, t: string)
    requires InRange(beat, sixteenth)
    requires t == [] || (!IsDigit(t[0]) && t[0] != '.' && !IsSpace(t[0]))
    ensures ParseTime(TimeText(beat, sixteenth) + t) == Some((WrittenPosition(beat, sixteenth), t))
  {
    if sixteenth.None? {
      BeatOnlyRoundTrip(beat, t);
    } else {
      BeatAndSixteenthRoundTrip(beat, sixteenth.value, t);
    }
  }

  lemma BeatOnlyRoundTrip(beat: nat, t: string)
    requires InRange(beat, None)
    requires t == [] || (!IsDigit(t[0]) && t[0] != '.' && !IsSpace(t[0]))
    ensures ParseTime(DecimalString(beat) + t) == Some((WrittenPosition(beat, None), t))
  {
    var s := DecimalString(beat) + t;
    assert s[0] == DecimalString(beat)[0];
    NoSpaceAt(s);
    assert SkipSpace(t) == t;
    DecimalLiteral(beat, t);
    assert ParseSixteenth(t) == None;
    ParseTimeOf(s, beat, t, None, t);
  }

  lemma BeatAndSixteenthRoundTrip(beat: nat, m: nat, t: string)
    requires InRange(beat, Some(m))
    requires t == [] || (!IsDigit(t[0]) && t[0] != '.' && !IsSpace(t[0]))
    ensures ParseTime(DecimalString(beat) + ("." + DecimalString(m)) + t) == Some((WrittenPosition(beat, Some(m)), t))
  {
    var after := "." + DecimalString(m) + t;
    var s := DecimalString(beat) + after;
    assert DecimalString(beat) + ("." + DecimalString(m)) + t == s;
    assert s[0] == DecimalString(beat)[0];
    NoSpaceAt(s);
    assert SkipSpace(t) == t;
    assert after[0] == '.';
    DecimalLiteral(beat, after);
    SixteenthLiteral(m, t);
    ParseTimeOf(s, beat, after, Some(m), t);
  }

  lemma ParseTimeOf(s: string, n: nat, after: string, sixteenth: Option<nat>, t: string)
    requires SkipSpace(s) == s && Digits1(s) == Some((n, after))
    requires Opt(ParseSixteenth(after), after) == (sixteenth, t) && SkipSpace(t) == t
    requires InRange(n, sixteenth)
    ensures ParseTime(s) == Some((WrittenPosition(n, sixteenth), t))
  {
  }

  lemma SixteenthLiteral(m: nat, t: string)
    requires m < UsizeLimit && (t == [] || !IsDigit(t[0]))
    ensures ParseSixteenth("." + DecimalString(m) + t) == Some((m, t))
  {
    var digits := DecimalString(m) + t;
    assert "." + DecimalString(m) + t == "." + digits;
    TagAt(".", digits);
    DecimalLiteral(m, t);
    ParseSixteenthOf("." + digits, digits, m, t);
  }

  lemma ParseSixteenthOf(s: string, s1: string, m: nat, s2: string)
    requires Tag(s, ".") == Some(s1) && Digits1(s1) == Some((m, s2))
    ensures ParseSixteenth(s) == Some((m, s2))
  {
  }

  /** `[from:to]` reads back as the range between the two written positions. */
  lemma RangeRoundTrip(fromBeat: nat, fromSixteenth: Option<nat>, toBeat: nat, toSixteenth: Option<nat>, rest: string)
    requires InRange(fromBeat, fromSixteenth) && InRange(toBeat, toSixteenth)
    ensures ParseTimeRange("[" + TimeText(fromBeat, fromSixteenth) + ":" + TimeText(toBeat, toSixteenth) + "]" + rest)
         == Some((TimeRange(Some(WrittenPosition(fromBeat, fromSixteenth)), Some(WrittenPosition(toBeat, toSixteenth))), rest))
  {
    var a, b := TimeText(fromBeat, fromSixteenth), TimeText(toBeat, toSixteenth);
    RangeStartRoundTrip(fromBeat, fromSixteenth, ":" + b + "]" + rest);
    RangeEndRoundTrip(toBeat, toSixteenth, rest);
    RangeOfTexts(a, b, rest, Some(WrittenPosition(fromBeat, fromSixteenth)), Some(WrittenPosition(toBeat, toSixteenth)));
  }

  /** The range parser on `[a:b]rest`, given what the start and the end parse to. */
  lemma RangeOfTexts(a: string, b: string, rest: string, from: Option<TimeExpression>, to: Option<TimeExpression>)
    requires SkipSpace(a + (":" + b + "]" + rest)) == a + (":" + b + "]" + rest)
    requires Opt(ParseTime(a + (":" + b + "]" + rest)), a + (":" + b + "]" + rest)) == (from, ":" + b + "]" + rest)
    requires ParseRangeEnd(":" + b + "]" + rest) == Some((to, rest))
    ensures ParseTimeRange("[" + a + ":" + b + "]" + rest) == Some((TimeRange(from, to), rest))
  {
    var afterFrom := ":" + b + "]" + rest;
    var inner := a + afterFrom;
    BracketedConcat(a, b, rest);
    TagAt("[", inner);
    ParseTimeRangeOf("[" + inner, inner, from, afterFrom, to, rest);
  }

  lemma BracketedConcat(a: string, b: string, rest: string)
    ensures "[" + a + ":" + b + "]" + rest == "[" + (a + (":" + b + "]" + rest))
  {
  }

  lemma RangeStartRoundTrip(beat: nat, sixteenth: Option<nat>, afterFrom: string)
    requires InRange(beat, sixteenth) && afterFrom != [] && afterFrom[0] == ':'
    ensures SkipSpace(TimeText(beat, sixteenth) + afterFrom) == TimeText(beat, sixteenth) + afterFrom
    ensures Opt(ParseTime(TimeText(beat, sixteenth) + afterFrom), TimeText(beat, sixteenth) + afterFrom)
         == (Some(WrittenPosition(beat, sixteenth)), afterFrom)
  {
    var inner := TimeText(beat, sixteenth) + afterFrom;
    assert inner[0] == TimeText(beat, sixteenth)[0];
    NoSpaceAt(inner);
    TimeRoundTrip(beat, sixteenth, afterFrom);
  }

  lemma ParseTimeRangeOf(s: string, inner: string, from: Option<TimeExpression>, afterFrom: string,
                         to: Option<TimeExpression>, rest: string)
    requires Tag(s, "[") == Some(inner) && SkipSpace(inner) == inner
    requires Opt(ParseTime(inner), inner) == (from, afterFrom)
    requires ParseRangeEnd(afterFrom) == Some((to, rest))
    ensures ParseTimeRange(s) == Some((TimeRange(from, to), rest))
  {
  }

  lemma RangeEndRoundTrip(beat: nat, sixteenth: Option<nat>, rest: string)
    requires InRange(beat, sixteenth)
    ensures ParseRangeEnd(":" + TimeText(beat, sixteenth) + "]" + rest) == Some((Some(WrittenPosition(beat, sixteenth)), rest))
  {
    var tail := "]" + rest;
    var afterColon := TimeText(beat, sixteenth) + tail;
    RangeEndWords(beat, sixteenth, rest, tail, afterColon);
    TimeRoundTrip(beat, sixteenth, tail);
    ParseRangeEndOf(":" + afterColon, afterColon, Some(WrittenPosition(beat, sixteenth)), tail, rest);
  }

  lemma RangeEndWords(beat: nat, sixteenth: Option<nat>, rest: string, tail: string, afterColon: string)
    requires tail == "]" + rest && afterColon == TimeText(beat, sixteenth) + tail
    ensures ":" + TimeText(beat, sixteenth) + "]" + rest == ":" + afterColon
    ensures Symbol(":" + afterColon, ":") == Some(afterColon)
    ensures SkipSpace(tail) == tail && Tag(tail, "]") == Some(rest)
  {
    assert afterColon[0] == TimeText(beat, sixteenth)[0] && tail[0] == ']';
    assert SkipSpace(afterColon) == afterColon && SkipSpace(tail) == tail;
    SymbolAt(":", afterColon);
    TagAt("]", rest);
  }

  lemma ParseRangeEndOf(s: string, afterColon: string, to: Option<TimeExpression>, tail: string, rest: string)
    requires Symbol(s, ":") == Some(afterColon)
    requires Opt(ParseTime(afterColon), afterColon) == (to, tail)
    requires SkipSpace(tail) == tail && Tag(tail, "]") == Some(rest)
    ensures ParseRangeEnd(s) == Some((to, rest))
  {
  }

  /** `[:]` is the range with neither a start nor an end. */
  lemma OpenRangeLiteral(rest: string)
    ensures ParseTimeRange("[:]" + rest) == Some((TimeRange(None, None), rest))
  {
    var s := "[:]" + rest;
    var inner := ":]" + rest;
    var tail := "]" + rest;
    assert s[..1] == "[" && s[1..] == inner;
    assert inner[0] == ':' && inner[..1] == ":" && inner[1..] == tail;
    assert tail[0] == ']' && tail[..1] == "]" && tail[1..] == rest;
    assert SkipSpace(inner) == inner && SkipSpace(tail) == tail;
    assert Span(inner, IsDigit) == 0 && Span(tail, IsDigit) == 0;
    assert ParseTime(inner) == None && ParseTime(tail) == None;
    assert Symbol(inner, ":") == Some(tail);
    ParseRangeEndOf(inner, tail, None, tail, rest);
    ParseTimeRangeOf(s, inner, None, inner, None, rest);
  }

  /** A setting as a program writes it: `keyword = 'value';`. */
  function SettingText(keyword: string, q: char, value: string): string
  {
    keyword + " = " + [q] + value + [q] + ";"
  }

  /** A written setting reads back as its value. */
  lemma SettingRoundTrip(keyword: string, q: char, value: string, rest: string)
    requires |keyword| > 0 && !IsSpace(keyword[0])
    requires (q == '\'' || q == '"') && q !in value
    ensures ParseSetting(SettingText(keyword, q, value) + rest, keyword) == Some((value, SkipSpace(rest)))
  {
    var y3 := ";" + rest;
    var x3 := [q] + value + [q] + y3;
    var y2 := " " + x3;
    var x2 := "=" + y2;
    var y1 := " " + x2;
    var s := keyword + y1;
    assert x2[0] == '=' && x3[0] == q;
    assert SettingText(keyword, q, value) + rest == s;
    SkipOneSpace(y1, x2);
    SkipOneSpace(y2, x3);
    SymbolAt(keyword, y1);
    SymbolAt("=", y2);
    SettingTail(q, value, rest);
    ParseSettingOf(s, keyword, x2, x3, value, y3, SkipSpace(rest));
  }

  /** The quoted value and the closing `;` of a written setting. */
  lemma SettingTail(q: char, value: string, rest: string)
    requires (q == '\'' || q == '"') && q !in value
    ensures Quoted([q] + value + [q] + (";" + rest)) == Some((value, ";" + rest))
    ensures Symbol(";" + rest, ";") == Some(SkipSpace(rest))
  {
    SymbolAt(";", rest);
    QuotedRoundTrip(q, value, ";" + rest);
  }

  lemma SkipOneSpace(y: string, x: string)
    requires y == " " + x && |x| > 0 && !IsSpace(x[0])
    ensures SkipSpace(y) == x
  {
    assert y[1..] == x;
  }

  lemma ParseSettingOf(s: string, keyword: string, a: string, b: string, value: string, c: string, d: string)
    requires |keyword| > 0
    requires Symbol(s, keyword) == Some(a) && Symbol(a, "=") == Some(b)
    requires Quoted(b) == Some((value, c)) && Symbol(c, ";") == Some(d)
    ensures ParseSetting(s, keyword) == Some((value, d))
  {
    ParseAssignmentOf(a, b, value, c, d);
  }

  lemma ParseAssignmentOf(a: string, b: string, value: string, c: string, d: string)
    requires Symbol(a, "=") == Some(b) && Quoted(b) == Some((value, c)) && Symbol(c, ";") == Some(d)
    ensures ParseAssignment(a) == Some((value, d))
  {
  }

  /** The smallest whole program, its two settings and a raw video, reads back as itself. */
  lemma ProgramRoundTrip(directory: string, extension: string, name: string)
    requires '\'' !in directory && '\'' !in extension && '\'' !in name && ';' !in name
    requires '|' !in name && ':' !in name && '*' !in name && '[' !in name && ']' !in name
    ensures ParseMain(SettingText("directory", '\'', directory) + SettingText("extension", '\'', extension)
                      + "'" + name + "'")
         == Some((Main(directory, extension, [], RawVideo(name)), []))
  {
    var clip := ['\''] + name + ['\''];
    var ext := SettingText("extension", '\'', extension) + clip;
    var s := SettingText("directory", '\'', directory) + ext;
    assert s[0] == 'd' && ext[0] == 'e' && clip[0] == '\'' && ';' !in clip;
    assert SettingText("directory", '\'', directory) + SettingText("extension", '\'', extension) + "'" + name + "'" == s;
    assert SkipSpace(s) == s && SkipSpace(ext) == ext && SkipSpace(clip) == clip;
    assert SkipSpace([]) == [];
    SettingRoundTrip("directory", '\'', directory, ext);
    SettingRoundTrip("extension", '\'', extension, clip);
    assert ParseDeclaration(clip) == None;
    RawVideoRoundTrip('\'', name);
    ParseProgramBodyOf(clip, [], clip, RawVideo(name), []);
    ParseAfterDirectoryOf(ext, extension, clip, ([], RawVideo(name), []));
    ParseMainOf(s, directory, ext, (extension, [], RawVideo(name), []));
  }

  lemma ParseMainOf(s: string, directory: string, s1: string, after: (string, seq<Declaration>, ClipExpression, string))
    requires ParseSetting(SkipSpace(s), "directory") == Some((directory, s1))
    requires ParseAfterDirectory(s1) == Some(after)
    ensures ParseMain(s) == Some((Main(directory, after.0, after.1, after.2), after.3))
  {
  }

  lemma ParseAfterDirectoryOf(s: string, extension: string, s1: string, body: (seq<Declaration>, ClipExpression, string))
    requires ParseSetting(SkipSpace(s), "extension") == Some((extension, s1))
    requires ParseProgramBody(SkipSpace(s1)) == Some(body)
    ensures ParseAfterDirectory(s) == Some((extension, body.0, body.1, body.2))
  {
  }

  lemma ParseProgramBodyOf(s: string, declarations: seq<Declaration>, s1: string, e: ClipExpression, s2: string)
    requires ParseDeclarations(s) == (declarations, s1)
    requires ParseClip(SkipSpace(s1)) == Some((e, s2))
    ensures ParseProgramBody(s) == Some((declarations, e, SkipSpace(s2)))
  {
  }

  /** Without the first character of `token` anywhere in the text, no beat is applied with it. */
  lemma NoTokenNoBeatThenClip(s: string, token: string)
    requires |token| > 0 && token[0] !in s
    ensures ParseBeatThenClip(s, token) == None
  {
    var s1 := SkipSpace(s);
    match BeatsParser.ParseBeat(s1)
    case None =>
    case Some((beat, s2)) =>
      SuffixTrans(s2, s1, s);
      var t := SkipSpace(s2);
      SuffixTrans(t, s2, s);
      if t != [] {
        assert t[0] == s[|s| - |t|];
      }
  }

  lemma ParseBeatThenClipOf(s: string, token: string, beat: BeatExpression, s2: string, s3: string,
                            clip: ClipExpression, s4: string)
    requires |token| > 0
    requires BeatsParser.ParseBeat(SkipSpace(s)) == Some((beat, s2)) && Symbol(s2, token) == Some(s3)
    requires ParseClip(s3) == Some((clip, s4))
    ensures ParseBeatThenClip(s, token) == Some((beat, clip, SkipSpace(s4)))
  {
  }

  /** A dot pattern, whitespace, `token`, whitespace and a clip expression: the pattern and the
      clip are read, whatever the clip's text is, as long as it has no `|`. */
  lemma DotsThenClip(dots: string, token: string, x: string, clip: ClipExpression, rest: string)
    requires |dots| > 0 && forall i :: 0 <= i < |dots| ==> BeatsParser.IsDotSymbol(dots[i])
    requires |token| > 0 && !IsSpace(token[0]) && '|' !in token
    requires |x| > 0 && !IsSpace(x[0]) && '|' !in x && ParseClip(x) == Some((clip, rest))
    ensures ParseBeatThenClip(dots + " " + (token + " " + x), token)
         == Some((DotBeat(BeatsParser.DotFlags(dots)), clip, SkipSpace(rest)))
  {
    var y2 := " " + x;
    var x1 := token + " " + x;
    assert x1 == token + y2;
    assert x1[0] == token[0] && '|' !in x1;
    DotsBeforeText(dots, x1);
    SymbolAt(token, y2);
    SkipOneSpace(y2, x);
    ParseBeatThenClipOf(dots + " " + x1, token, DotBeat(BeatsParser.DotFlags(dots)), x1, x, clip, rest);
  }

  /** `dots @ 'name'` applies the dot pattern to the raw video. */
  lemma ApplyBeatRoundTrip(dots: string, q: char, name: string)
    requires |dots| > 0 && forall i :: 0 <= i < |dots| ==> BeatsParser.IsDotSymbol(dots[i])
    requires (q == '\'' || q == '"') && q !in name && NoOperators(name)
    ensures ParseClip(dots + " @ " + [q] + name + [q])
         == Some((ApplyBeat(DotBeat(BeatsParser.DotFlags(dots)), RawVideo(name)), []))
  {
    var x := [q] + name + [q];
    assert dots + " @ " + [q] + name + [q] == dots + " " + ("@" + " " + x);
    RawVideoRoundTrip(q, name);
    DotsThenClip(dots, "@", x, RawVideo(name), []);
    assert SkipSpace([]) == [];
  }

  /** `dots >> 'name'` restarts the raw video on the dot pattern. */
  lemma RestartRoundTrip(dots: string, q: char, name: string)
    requires |dots| > 0 && forall i :: 0 <= i < |dots| ==> BeatsParser.IsDotSymbol(dots[i])
    requires (q == '\'' || q == '"') && q !in name && NoOperators(name)
    ensures ParseClip(dots + " >> " + [q] + name + [q])
         == Some((Restart(DotBeat(BeatsParser.DotFlags(dots)), RawVideo(name)), []))
  {
    var x := [q] + name + [q];
    var s := dots + " " + (">>" + " " + x);
    assert dots + " >> " + [q] + name + [q] == s;
    assert '|' !in x;
    NotApplied(dots, x);
    RawVideoRoundTrip(q, name);
    DotsThenClip(dots, ">>", x, RawVideo(name), []);
    assert SkipSpace([]) == [];
    ClipIsRestart(s);
  }

  /** Each shape of `parse_clip_expression`'s result comes from its own alternative, and only
      after every alternative tried before it has failed; the parse fails only when all eleven do. */
  lemma ClipResultOrigin(s: string)
    ensures ParseApplyBeat(s).Some? ==> ParseClip(s) == ParseApplyBeat(s)
    ensures ParseClip(s).Some? && ParseClip(s).value.0.Restart? ==>
              ParseApplyBeat(s).None? && ParseClip(s) == ParseRestart(s)
    ensures ParseClip(s).Some? && ParseClip(s).value.0.Loop? ==>
              ParseApplyBeat(s).None? && ParseRestart(s).None? && ParseClipChain(s).None? &&
              ParseLayer(s).None? && ParseClip(s) == ParseLoop(s)
    ensures ParseClip(s).Some? && ParseClip(s).value.0.Truncated? ==>
              ParseApplyBeat(s).None? && ParseRestart(s).None? && ParseClipChain(s).None? &&
              ParseLayer(s).None? && ParseLoop(s).None? && ParseClip(s) == ParseTruncated(s)
    ensures ParseClip(s).Some? && ParseClip(s).value.0.Parentheses? ==>
              EarlierFormsFail(s) && ParseClip(s) == ParseParentheses(s)
    ensures ParseClip(s).Some? && ParseClip(s).value.0.MultiVideo? ==>
              EarlierFormsFail(s) && ParseParentheses(s).None? && ParseClip(s) == ParseMultiVideo(s)
    ensures ParseClip(s).Some? && ParseClip(s).value.0.RawVideo? ==>
              EarlierFormsFail(s) && ParseParentheses(s).None? && ParseMultiVideo(s).None? &&
              ParseClip(s) == ParseRawVideo(s)
    ensures ParseClip(s).Some? && ParseClip(s).value.0.Reference? ==>
              EarlierFormsFail(s) && ParseParentheses(s).None? && ParseMultiVideo(s).None? &&
              ParseRawVideo(s).None? && ParseClip(s) == ParseReferenceClip(s)
    ensures ParseClip(s).None? <==>
              EarlierFormsFail(s) && ParseParentheses(s).None? && ParseMultiVideo(s).None? &&
              ParseRawVideo(s).None? && ParseReferenceClip(s).None? && ParseEmpty(s).None?
  {
    if ParseApplyBeat(s).Some? {
    } else if ParseRestart(s).Some? {
    } else if ParseClipChain(s).Some? {
    } else if ParseLayer(s).Some? {
    } else if ParseLoop(s).Some? {
    } else if ParseTruncated(s).Some? {
    } else if ParseParentheses(s).Some? {
    } else if ParseMultiVideo(s).Some? {
    } else if ParseRawVideo(s).Some? {
    } else if ParseReferenceClip(s).Some? {
    } else {
    }
  }

  lemma ClipIsRestart(s: string)
    requires ParseApplyBeat(s) == None && ParseRestart(s).Some?
    ensures ParseClip(s) == ParseRestart(s)
  {
  }

  /** A dot pattern followed by `>>` applies no beat with `@`. */
  lemma NotApplied(dots: string, x: string)
    requires |dots| > 0 && forall i :: 0 <= i < |dots| ==> BeatsParser.IsDotSymbol(dots[i])
    requires '|' !in x
    ensures ParseBeatThenClip(dots + " " + (">>" + " " + x), "@") == None
  {
    var t := ">>" + " " + x;
    assert '|' !in t && t[0] == '>';
    DotsBeforeText(dots, t);
    NoSpaceAt(t);
    assert Symbol(t, "@") == None;
    NoBeatThenClipOf(dots + " " + t, "@", DotBeat(BeatsParser.DotFlags(dots)), t);
  }

  /** A dot pattern, one space and a text that is not a beat: the beat ends at the text. */
  lemma DotsBeforeText(dots: string, t: string)
    requires |dots| > 0 && forall i :: 0 <= i < |dots| ==> BeatsParser.IsDotSymbol(dots[i])
    requires |t| > 0 && !IsSpace(t[0]) && '|' !in t
    ensures BeatsParser.ParseBeat(SkipSpace(dots + " " + t)) == Some((DotBeat(BeatsParser.DotFlags(dots)), t))
  {
    var y := " " + t;
    assert dots + " " + t == dots + y;
    assert (dots + y)[0] == dots[0] && !IsSpace(dots[0]);
    NoSpaceAt(dots + y);
    assert '|' !in y && y[0] == ' ';
    BeatsParser.DotBeatThen(dots, y);
    SkipOneSpace(y, t);
  }

  lemma NoBeatThenClipOf(s: string, token: string, beat: BeatExpression, s2: string)
    requires |token| > 0
    requires BeatsParser.ParseBeat(SkipSpace(s)) == Some((beat, s2)) && Symbol(s2, token) == None
    ensures ParseBeatThenClip(s, token) == None
  {
  }

  /** None of the alternatives `ParseClip` tries before parentheses and `multi` applies. */
  predicate EarlierFormsFail(s: string)
  {
    ParseApplyBeat(s).None? && ParseRestart(s).None? && ParseClipChain(s).None? &&
    ParseLayer(s).None? && ParseLoop(s).None? && ParseTruncated(s).None?
  }

  lemma NotInSkipSpace(s: string, c: char)
    requires c !in s
    ensures c !in SkipSpace(s)
  {
    var t := SkipSpace(s);
    assert t == s[|s| - |t|..];
  }

  /** A text with no operator character is none of the operator forms. */
  lemma PlainForm(s: string)
    requires NoOperators(s) && '@' !in s && '>' !in s
    ensures EarlierFormsFail(s)
  {
    NoTokenNoBeatThenClip(s, "@");
    NoTokenNoBeatThenClip(s, ">>");
    NoDelimiterNoSplit(s, '|');
    NoDelimiterNoSplit(s, ':');
    NotInSkipSpace(s, '*');
    NotInSkipSpace(s, '[');
  }

  lemma ClipIsMulti(s: string)
    requires EarlierFormsFail(s) && ParseParentheses(s).None? && ParseMultiVideo(s).Some?
    ensures ParseClip(s) == ParseMultiVideo(s)
  {
  }

  lemma ClipIsParentheses(s: string)
    requires EarlierFormsFail(s) && ParseParentheses(s).Some?
    ensures ParseClip(s) == ParseParentheses(s)
  {
  }

  /** `multi n 'name'` is the multi-video of n sub-clips. */
  lemma MultiVideoRoundTrip(n: nat, q: char, name: string)
    requires n < UsizeLimit && (q == '\'' || q == '"') && q !in name && NoOperators(name)
    requires '@' !in name && '>' !in name
    ensures ParseClip("multi " + DecimalString(n) + " " + [q] + name + [q]) == Some((MultiVideo(name, n), []))
  {
    var x2 := [q] + name + [q];
    var y2 := " " + x2;
    var d := DecimalString(n);
    var x1 := d + y2;
    var y1 := " " + x1;
    var s := "multi" + y1;
    MultiVideoWords(d, q, name);
    MultiVideoPlain(d, x2, y2, x1, y1, s);
    MultiVideoText(n, q, name, x2, y2, x1, y1, s);
    ClipIsMulti(s);
  }

  lemma MultiVideoWords(d: string, q: char, name: string)
    ensures "multi " + d + " " + [q] + name + [q] == "multi" + (" " + (d + (" " + ([q] + name + [q]))))
  {
  }

  lemma MultiVideoText(n: nat, q: char, name: string, x2: string, y2: string, x1: string, y1: string, s: string)
    requires n < UsizeLimit && (q == '\'' || q == '"') && q !in name
    requires x2 == [q] + name + [q] && y2 == " " + x2 && x1 == DecimalString(n) + y2
    requires y1 == " " + x1 && s == "multi" + y1
    ensures ParseMultiVideo(s) == Some((MultiVideo(name, n), []))
  {
    SymbolAt("multi", y1);
    SkipOneSpace(y1, x1);
    DecimalLiteral(n, y2);
    SkipOneSpace(y2, x2);
    QuotedRoundTrip(q, name, []);
    assert x2 + [] == x2;
    assert SkipSpace([]) == [];
    ParseMultiVideoOf(s, x1, n, y2, name, []);
  }

  lemma MultiVideoPlain(d: string, x2: string, y2: string, x1: string, y1: string, s: string)
    requires forall i :: 0 <= i < |d| ==> IsDigit(d[i])
    requires NoOperators(x2) && '@' !in x2 && '>' !in x2
    requires y2 == " " + x2 && x1 == d + y2 && y1 == " " + x1 && s == "multi" + y1
    ensures EarlierFormsFail(s) && ParseParentheses(s).None?
  {
    MultiVideoChars(d, x2, y2, x1, y1, s);
    PlainForm(s);
    NoSpaceAt(s);
    assert Symbol(s, "(") == None;
  }

  lemma MultiVideoChars(d: string, x2: string, y2: string, x1: string, y1: string, s: string)
    requires forall i :: 0 <= i < |d| ==> IsDigit(d[i])
    requires NoOperators(x2) && '@' !in x2 && '>' !in x2
    requires y2 == " " + x2 && x1 == d + y2 && y1 == " " + x1 && s == "multi" + y1
    ensures NoOperators(s) && '@' !in s && '>' !in s && s != [] && s[0] == 'm'
  {
    forall i | 0 <= i < |d| ensures d[i] !in "|:*[]@>" {
      assert IsDigit(d[i]);
    }
  }

  lemma ParseMultiVideoOf(s: string, s1: string, n: nat, s2: string, name: string, s4: string)
    requires Symbol(s, "multi") == Some(s1) && Digits1(s1) == Some((n, s2))
    requires Quoted(SkipSpace(s2)) == Some((name, s4))
    ensures ParseMultiVideo(s) == Some((MultiVideo(name, n), SkipSpace(s4)))
  {
    var r := ParseMultiVideo(s);
    assert r.Some?;
    assert r.value.0 == MultiVideo(name, n);
  }

  /** `( 'name' )` is the parenthesised raw video. */
  lemma ParenthesesRoundTrip(q: char, name: string)
    requires (q == '\'' || q == '"') && q !in name && NoOperators(name)
    ensures ParseClip("(" + [q] + name + [q] + ")") == Some((Parentheses(RawVideo(name)), []))
  {
    var inner := [q] + name + [q] + ")";
    var s := "(" + inner;
    ParenthesesWords(q, name);
    assert NoOperators(s) && s[0] == '(';
    OpenParenthesisAt(s);
    ParenthesesText(q, name, inner, s);
    ClipIsParentheses(s);
  }

  lemma ParenthesesWords(q: char, name: string)
    ensures "(" + [q] + name + [q] + ")" == "(" + ([q] + name + [q] + ")")
  {
  }

  /** Text that opens with a parenthesis and has none of the operator characters matches none
      of the first six alternatives. */
  lemma OpenParenthesisAt(s: string)
    requires NoOperators(s) && |s| > 0 && s[0] == '('
    ensures EarlierFormsFail(s)
  {
    NoSpaceAt(s);
    BeatsParser.NoBeatAt(s);
    NoDelimiterNoSplit(s, '|');
    NoDelimiterNoSplit(s, ':');
    assert TakeUntil(s, '*') == None;
    assert TakeUntil(s, '[') == None;
  }

  lemma ParenthesesText(q: char, name: string, inner: string, s: string)
    requires (q == '\'' || q == '"') && q !in name && NoOperators(name)
    requires inner == [q] + name + [q] + ")" && s == "(" + inner
    ensures ParseParentheses(s) == Some((Parentheses(RawVideo(name)), []))
  {
    ParenthesesSymbols(inner, s);
    RawVideoThen(q, name, ")");
    ParseParenthesesOf(s, inner, RawVideo(name), ")", []);
  }

  lemma ParenthesesSymbols(inner: string, s: string)
    requires |inner| > 0 && !IsSpace(inner[0]) && s == "(" + inner
    ensures Symbol(s, "(") == Some(inner) && Symbol(")", ")") == Some([])
  {
    SymbolAt("(", inner);
    NoSpaceAt(inner);
    NoSpaceAt(")");
    SymbolAt(")", []);
    assert ")" + [] == ")";
    assert SkipSpace([]) == [];
  }

  lemma ParseParenthesesOf(s: string, s1: string, clip: ClipExpression, s2: string, s3: string)
    requires Symbol(s, "(") == Some(s1) && ParseClip(s1) == Some((clip, s2)) && Symbol(s2, ")") == Some(s3)
    ensures ParseParentheses(s) == Some((Parentheses(clip), s3))
  {
  }

  /** `'a' : 'b'` is the layer of the two raw videos. */
  lemma LayerRoundTrip(q: char, a: string, b: string)
    requires (q == '\'' || q == '"') && q !in a && q !in b && NoOperators(a) && NoOperators(b)
    ensures ParseClip([q] + a + [q] + " : " + [q] + b + [q]) == Some((Layer(RawVideo(a), RawVideo(b)), []))
  {
    var qa := [q] + a + [q];
    var qb := [q] + b + [q];
    var x := qa + " ";
    var z := " " + qb;
    var s := x + [':'] + z;
    LayerWords(q, a, b);
    assert s[0] == q && '|' !in s;
    QuoteAt(s, q);
    LayerText(q, a, b, qa, qb, x, z, s);
    ClipIsLayer(s);
  }

  lemma LayerWords(q: char, a: string, b: string)
    ensures [q] + a + [q] + " : " + [q] + b + [q] == [q] + a + [q] + " " + [':'] + (" " + ([q] + b + [q]))
  {
  }

  /** Text that opens with a quote and has no `|` is no beat form and no chain. */
  lemma QuoteAt(s: string, q: char)
    requires (q == '\'' || q == '"') && |s| > 0 && s[0] == q && '|' !in s
    ensures ParseApplyBeat(s).None? && ParseRestart(s).None? && ParseClipChain(s).None?
  {
    NoSpaceAt(s);
    BeatsParser.NoBeatAt(s);
    NoDelimiterNoSplit(s, '|');
  }

  lemma ClipIsLayer(s: string)
    requires ParseApplyBeat(s).None? && ParseRestart(s).None? && ParseClipChain(s).None?
    requires ParseLayer(s).Some?
    ensures ParseClip(s) == ParseLayer(s)
  {
  }

  lemma LayerText(q: char, a: string, b: string, qa: string, qb: string, x: string, z: string, s: string)
    requires (q == '\'' || q == '"') && q !in a && q !in b && NoOperators(a) && NoOperators(b)
    requires qa == [q] + a + [q] && qb == [q] + b + [q] && x == qa + " " && z == " " + qb
    requires s == x + [':'] + z
    ensures ParseLayer(s) == Some((Layer(RawVideo(a), RawVideo(b)), []))
  {
    assert s[0] == q && ':' !in x;
    NoSpaceAt(s);
    TakeUntilAt(x, ':', z);
    LeftOperand(q, a, x);
    RightOperand(':', q, b, qb, z);
    ParseSplitOf(s, ':', x, [':'] + z, RawVideo(a), qb, RawVideo(b), []);
  }

  /** A quoted name and one space, as the left operand of a split. */
  lemma LeftOperand(q: char, a: string, x: string)
    requires (q == '\'' || q == '"') && q !in a && NoOperators(a) && x == [q] + a + [q] + " "
    ensures ParseClip(x) == Some((RawVideo(a), []))
  {
    RawVideoThen(q, a, " ");
    assert SkipSpace(" ") == [];
  }

  /** The delimiter, one space and a quoted name, as the right operand of a split. */
  lemma RightOperand(delimiter: char, q: char, b: string, qb: string, z: string)
    requires (q == '\'' || q == '"') && q !in b && NoOperators(b) && qb == [q] + b + [q] && z == " " + qb
    requires !IsSpace(delimiter)
    ensures Symbol([delimiter] + z, [delimiter]) == Some(qb) && ParseClip(qb) == Some((RawVideo(b), []))
  {
    SymbolAt([delimiter], z);
    SkipOneSpace(z, qb);
    RawVideoRoundTrip(q, b);
  }

  lemma ParseSplitOf(s: string, delimiter: char, first: string, rest: string, a: ClipExpression,
                     s2: string, b: ClipExpression, s3: string)
    requires TakeUntil(SkipSpace(s), delimiter) == Some((first, rest)) && ParseClip(first) == Some((a, []))
    requires Symbol(rest, [delimiter]) == Some(s2) && ParseClip(s2) == Some((b, s3))
    ensures ParseSplit(s, delimiter) == Some((a, b, SkipSpace(s3)))
  {
  }

  /** A dot pattern, ` @ ` and the text of a whole clip expression with no `|`: the pattern is
      applied to that clip. */
  lemma AppliedTo(s: string, dots: string, x: string, clip: ClipExpression)
    requires |dots| > 0 && forall i :: 0 <= i < |dots| ==> BeatsParser.IsDotSymbol(dots[i])
    requires s == dots + " " + ("@" + " " + x)
    requires |x| > 0 && !IsSpace(x[0]) && '|' !in x && ParseClip(x) == Some((clip, []))
    ensures ParseClip(s) == Some((ApplyBeat(DotBeat(BeatsParser.DotFlags(dots)), clip), []))
  {
    DotsThenClip(dots, "@", x, clip, []);
    assert SkipSpace([]) == [];
    ApplyBeatOf(s, DotBeat(BeatsParser.DotFlags(dots)), clip, []);
    ClipIsApplyBeat(s);
  }

  lemma ApplyBeatOf(s: string, beat: BeatExpression, clip: ClipExpression, rest: string)
    requires ParseBeatThenClip(s, "@") == Some((beat, clip, rest))
    ensures ParseApplyBeat(s) == Some((ApplyBeat(beat, clip), rest))
  {
  }

  lemma ClipIsApplyBeat(s: string)
    requires ParseApplyBeat(s).Some?
    ensures ParseClip(s) == ParseApplyBeat(s)
  {
  }

  /** The clip of a truncation is read from the text before the `[`, and what that clip leaves
      unread is dropped: `'a' 'b'[:]` truncates the raw video `a`. */
  lemma TruncatedDropsLeftover(q: char, a: string, b: string)
    requires (q == '\'' || q == '"') && q !in a && q !in b && NoOperators(a) && NoOperators(b)
    ensures ParseTruncated([q] + a + [q] + " " + [q] + b + [q] + "[:]")
         == Some((Truncated(RawVideo(a), TimeRange(None, None)), []))
  {
    var qb := [q] + b + [q];
    var x := [q] + a + [q] + (" " + qb);
    TruncatedWords(q, a, b, qb, x);
    TwoNames(q, a, b, qb, x);
    RawVideoThen(q, a, " " + qb);
    OpenTruncation(x + ['['] + ":]", x, RawVideo(a));
  }

  lemma TruncatedWords(q: char, a: string, b: string, qb: string, x: string)
    requires qb == [q] + b + [q] && x == [q] + a + [q] + (" " + qb)
    ensures [q] + a + [q] + " " + [q] + b + [q] + "[:]" == x + ['['] + ":]"
  {
  }

  lemma TwoNames(q: char, a: string, b: string, qb: string, x: string)
    requires (q == '\'' || q == '"') && NoOperators(a) && NoOperators(b)
    requires qb == [q] + b + [q] && x == [q] + a + [q] + (" " + qb)
    ensures NoOperators(" " + qb) && '[' !in x && |x| > 0 && x[0] == q
  {
  }

  /** A text free of `[` that starts a clip, then `[:]`: the open truncation of that clip. */
  lemma OpenTruncation(s: string, x: string, clip: ClipExpression)
    requires s == x + ['['] + ":]" && '[' !in x && |x| > 0 && !IsSpace(x[0])
    requires ParseClip(x).Some? && ParseClip(x).value.0 == clip
    ensures ParseTruncated(s) == Some((Truncated(clip, TimeRange(None, None)), []))
  {
    OpenTruncationSplit(s, x);
    OpenRangeText();
    ParseTruncatedOf(s, x, "[:]", clip, TimeRange(None, None), []);
  }

  lemma OpenTruncationSplit(s: string, x: string)
    requires s == x + ['['] + ":]" && '[' !in x && |x| > 0 && !IsSpace(x[0])
    ensures '[' in s && TakeUntil(SkipSpace(s), '[') == Some((x, "[:]"))
  {
    assert s[0] == x[0];
    NoSpaceAt(s);
    TakeUntilAt(x, '[', ":]");
    assert [('[')] + ":]" == "[:]";
    assert s[|x|] == '[';
  }

  lemma OpenRangeText()
    ensures ParseTimeRange(SkipSpace("[:]")) == Some((TimeRange(None, None), [])) && SkipSpace([]) == []
  {
    NoSpaceAt("[:]");
    OpenRangeLiteral([]);
    assert "[:]" + [] == "[:]";
    assert SkipSpace([]) == [];
  }

  lemma ParseTruncatedOf(s: string, first: string, rest: string, clip: ClipExpression, range: TimeRange, s3: string)
    requires '[' in s && TakeUntil(SkipSpace(s), '[') == Some((first, rest)) && ParseClip(first).Some?
    requires ParseClip(first).value.0 == clip && ParseTimeRange(SkipSpace(rest)) == Some((range, s3))
    ensures ParseTruncated(s) == Some((Truncated(clip, range), SkipSpace(s3)))
  {
  }

  /** `'a' | 'b'` is the chain of the two raw videos. */
  lemma ChainRoundTrip(q: char, a: string, b: string)
    requires (q == '\'' || q == '"') && q !in a && q !in b && NoOperators(a) && NoOperators(b)
    ensures ParseClip([q] + a + [q] + " | " + [q] + b + [q]) == Some((Chain(RawVideo(a), RawVideo(b)), []))
  {
    var qa := [q] + a + [q];
    var qb := [q] + b + [q];
    var x := qa + " ";
    var z := " " + qb;
    var s := x + ['|'] + z;
    ChainWords(q, a, b);
    assert s[0] == q;
    QuoteBeforeBar(s, q);
    ChainText(q, a, b, qa, qb, x, z, s);
    ClipIsChain(s);
  }

  lemma ChainWords(q: char, a: string, b: string)
    ensures [q] + a + [q] + " | " + [q] + b + [q] == [q] + a + [q] + " " + ['|'] + (" " + ([q] + b + [q]))
  {
  }

  /** Text that opens with a quote is no beat form, even with a `|` further on. */
  lemma QuoteBeforeBar(s: string, q: char)
    requires (q == '\'' || q == '"') && |s| > 0 && s[0] == q
    ensures ParseApplyBeat(s).None? && ParseRestart(s).None?
  {
    NoSpaceAt(s);
    BeatsParser.NoBeatBeforeBar(s);
  }

  lemma ChainText(q: char, a: string, b: string, qa: string, qb: string, x: string, z: string, s: string)
    requires (q == '\'' || q == '"') && q !in a && q !in b && NoOperators(a) && NoOperators(b)
    requires qa == [q] + a + [q] && qb == [q] + b + [q] && x == qa + " " && z == " " + qb
    requires s == x + ['|'] + z
    ensures ParseClipChain(s) == Some((Chain(RawVideo(a), RawVideo(b)), []))
  {
    assert s[0] == q && '|' !in x;
    NoSpaceAt(s);
    TakeUntilAt(x, '|', z);
    LeftOperand(q, a, x);
    RightOperand('|', q, b, qb, z);
    ParseSplitOf(s, '|', x, ['|'] + z, RawVideo(a), qb, RawVideo(b), []);
  }

  lemma ClipIsChain(s: string)
    requires ParseApplyBeat(s).None? && ParseRestart(s).None? && ParseClipChain(s).Some?
    ensures ParseClip(s) == ParseClipChain(s)
  {
  }

  /** `'a' * d` is the raw video looped d times. */
  lemma LoopRoundTrip(q: char, a: string, d: nat)
    requires (q == '\'' || q == '"') && q !in a && NoOperators(a) && d <= 9
    ensures ParseClip([q] + a + [q] + " * " + [DigitChar(d)]) == Some((Loop(RawVideo(a), d), []))
  {
    var x := [q] + a + [q] + " ";
    var z := " " + [DigitChar(d)];
    var s := x + ['*'] + z;
    LoopWords(q, a, d);
    LoopPlain(q, a, d, x, z, s);
    QuoteAt(s, q);
    NoLayer(s);
    LoopText(q, a, d, x, z, s);
    ClipIsLoop(s);
  }

  lemma LoopWords(q: char, a: string, d: nat)
    requires d <= 9
    ensures [q] + a + [q] + " * " + [DigitChar(d)] == [q] + a + [q] + " " + ['*'] + (" " + [DigitChar(d)])
  {
  }

  lemma LoopPlain(q: char, a: string, d: nat, x: string, z: string, s: string)
    requires (q == '\'' || q == '"') && NoOperators(a) && d <= 9
    requires x == [q] + a + [q] + " " && z == " " + [DigitChar(d)] && s == x + ['*'] + z
    ensures |s| > 0 && s[0] == q && '|' !in s && ':' !in s && '*' !in x
  {
    var c := DigitChar(d);
    assert IsDigit(c);
  }

  lemma NoLayer(s: string)
    requires ':' !in s
    ensures ParseLayer(s).None?
  {
    NoDelimiterNoSplit(s, ':');
  }

  lemma LoopText(q: char, a: string, d: nat, x: string, z: string, s: string)
    requires (q == '\'' || q == '"') && q !in a && NoOperators(a) && d <= 9
    requires x == [q] + a + [q] + " " && z == " " + [DigitChar(d)] && s == x + ['*'] + z
    requires |s| > 0 && s[0] == q && '*' !in x
    ensures ParseLoop(s) == Some((Loop(RawVideo(a), d), []))
  {
    var c := DigitChar(d);
    NoSpaceAt(s);
    TakeUntilAt(x, '*', z);
    LeftOperand(q, a, x);
    LoopCount(d, z);
    ParseLoopOf(s, x, ['*'] + z, RawVideo(a), [c], d, []);
  }

  /** `*`, one space and a digit: the repetition count of a loop. */
  lemma LoopCount(d: nat, z: string)
    requires d <= 9 && z == " " + [DigitChar(d)]
    ensures Symbol(['*'] + z, "*") == Some([DigitChar(d)]) && OneDigit([DigitChar(d)]) == Some((d, []))
    ensures SkipSpace([]) == []
  {
    var c := DigitChar(d);
    SymbolAt("*", z);
    assert ['*'] + z == "*" + z;
    SkipOneSpace(z, [c]);
    assert [c][1..] == [];
    assert SkipSpace([]) == [];
  }

  lemma ParseLoopOf(s: string, first: string, rest: string, clip: ClipExpression, s2: string, repetitions: nat, s3: string)
    requires TakeUntil(SkipSpace(s), '*') == Some((first, rest)) && ParseClip(first) == Some((clip, []))
    requires Symbol(rest, "*") == Some(s2) && OneDigit(s2) == Some((repetitions, s3))
    ensures ParseLoop(s) == Some((Loop(clip, repetitions), SkipSpace(s3)))
  {
  }

  lemma ClipIsLoop(s: string)
    requires ParseApplyBeat(s).None? && ParseRestart(s).None? && ParseClipChain(s).None?
    requires ParseLayer(s).None? && ParseLoop(s).Some?
    ensures ParseClip(s) == ParseLoop(s)
  {
  }

  /** A name of letters is a reference to the clip declared under it. */
  lemma ReferenceRoundTrip(name: string)
    requires IsName(name)
    ensures ParseClip(name) == Some((Reference(name), []))
  {
    NamePlain(name);
    PlainForm(name);
    NameIsNoOtherForm(name);
    NameIsReference(name);
    ClipIsReference(name);
  }

  lemma NamePlain(name: string)
    requires IsName(name)
    ensures NoOperators(name) && '@' !in name && '>' !in name && SkipSpace(name) == name
  {
    forall i | 0 <= i < |name| ensures name[i] !in "|:*[]@>" {
      assert IsAlpha(name[i]);
    }
    NoSpaceAt(name);
  }

  /** A name of letters is no parenthesised clip, no multi video and no raw video. */
  lemma NameIsNoOtherForm(name: string)
    requires IsName(name) && SkipSpace(name) == name
    ensures ParseParentheses(name).None? && ParseMultiVideo(name).None? && ParseRawVideo(name).None?
  {
    assert Tag(name, "(").None?;
    if Symbol(name, "multi").Some? {
      var y := Tag(name, "multi").value;
      assert y == name[5..];
      if |y| > 0 {
        assert y[0] == name[5] && IsAlpha(y[0]);
        NoSpaceAt(y);
      } else {
        assert SkipSpace(y) == [];
      }
    }
    assert QuotedWith(name, '\'').None? && QuotedWith(name, '"').None?;
  }

  lemma NameIsReference(name: string)
    requires IsName(name) && SkipSpace(name) == name
    ensures ParseReferenceClip(name) == Some((Reference(name), []))
  {
    var w := Word1(name, false);
    forall j | 0 <= j < |w.value.1| ensures IsAlphanumeric(w.value.1[j]) {
      assert w.value.1[j] == name[|w.value.0| + j];
    }
    assert w.value.1 == [];
    assert w.value.0 == name;
    assert SkipSpace([]) == [];
  }

  lemma ClipIsReference(s: string)
    requires EarlierFormsFail(s) && ParseParentheses(s).None? && ParseMultiVideo(s).None?
    requires ParseRawVideo(s).None? && ParseReferenceClip(s).Some?
    ensures ParseClip(s) == ParseReferenceClip(s)
  {
  }

  /** `-` is the empty clip. */
  lemma EmptyRoundTrip()
    ensures ParseClip("-") == Some((Empty, []))
  {
    DashPlain();
    PlainForm("-");
    DashIsNoOtherForm();
    DashIsEmpty();
    ClipIsEmpty("-");
  }

  lemma DashPlain()
    ensures NoOperators("-") && '@' !in "-" && '>' !in "-" && SkipSpace("-") == "-"
  {
    NoSpaceAt("-");
  }

  /** `-` is none of the forms tried after the operator forms, up to and including a reference. */
  lemma DashIsNoOtherForm()
    ensures ParseParentheses("-").None? && ParseMultiVideo("-").None?
    ensures ParseRawVideo("-").None? && ParseReferenceClip("-").None?
  {
    NoSpaceAt("-");
    assert Tag("-", "(").None? && Tag("-", "multi").None?;
    assert QuotedWith("-", '\'').None? && QuotedWith("-", '"').None?;
    assert !IsAlphanumeric('-');
  }

  lemma DashIsEmpty()
    ensures ParseEmpty("-") == Some((Empty, []))
  {
    SymbolAt("-", []);
    assert "-" + [] == "-";
    assert SkipSpace([]) == [];
  }

  lemma ClipIsEmpty(s: string)
    requires EarlierFormsFail(s) && ParseParentheses(s).None? && ParseMultiVideo(s).None?
    requires ParseRawVideo(s).None? && ParseReferenceClip(s).None?
    ensures ParseClip(s) == ParseEmpty(s)
  {
  }

  /** A declaration as a program writes it: `clip name = 'file';` or `beat name = dots;`. */
  datatype WrittenDeclaration =
    | WrittenClip(name: string, file: string)
    | WrittenBeat(name: string, dots: string)

  predicate IsName(name: string)
  {
    |name| > 0 && forall i :: 0 <= i < |name| ==> IsAlpha(name[i])
  }

  predicate IsDots(dots: string)
  {
    |dots| > 0 && forall i :: 0 <= i < |dots| ==> BeatsParser.IsDotSymbol(dots[i])
  }

  /** A written declaration that reads back as what it says: a letters-only name, and a quoted
      file name or a dot pattern with no `;` and no operator characters in it. */
  predicate WellWritten(w: WrittenDeclaration)
  {
    IsName(w.name) &&
    match w
    case WrittenClip(_, file) => '\'' !in file && ';' !in file && NoOperators(file)
    case WrittenBeat(_, dots) => IsDots(dots)
  }

  /** The body of a written declaration, up to its `;`. */
  function DeclarationBodyText(w: WrittenDeclaration): string
  {
    match w
    case WrittenClip(name, file) => "clip " + name + " = " + "'" + file + "'"
    case WrittenBeat(name, dots) => "beat " + name + " = " + dots
  }

  function DeclarationText(w: WrittenDeclaration): string
  {
    DeclarationBodyText(w) + ";"
  }

  /** What a written declaration denotes. */
  function Denoted(w: WrittenDeclaration): Declaration
  {
    match w
    case WrittenClip(name, file) => ClipDeclaration(name, RawVideo(file))
    case WrittenBeat(name, dots) => BeatDeclaration(name, DotBeat(BeatsParser.DotFlags(dots)))
  }

  function DeclarationsText(ws: seq<WrittenDeclaration>): string
  {
    if ws == [] then [] else DeclarationText(ws[0]) + DeclarationsText(ws[1..])
  }

  function DenotedAll(ws: seq<WrittenDeclaration>): (r: seq<Declaration>)
    ensures |r| == |ws| && forall i :: 0 <= i < |ws| ==> r[i] == Denoted(ws[i])
  {
    seq(|ws|, i requires 0 <= i < |ws| => Denoted(ws[i]))
  }

  /** A written declaration reads back as what it denotes; the `;` and the whitespace after it
      are consumed. */
  lemma DeclarationRoundTrip(w: WrittenDeclaration, rest: string)
    requires WellWritten(w)
    ensures ParseDeclaration(DeclarationText(w) + rest) == Some((Denoted(w), SkipSpace(rest)))
  {
    var body := DeclarationBodyText(w);
    BodyHasNoSemicolon(w);
    assert DeclarationText(w) + rest == body + [';'] + rest;
    TakeUntilAt(body, ';', rest);
    BodyRoundTrip(w);
    assert SkipSpace([]) == [];
    TagAt(";", rest);
    assert [';'] + rest == ";" + rest;
    ParseDeclarationOf(body + [';'] + rest, body, ";" + rest, Denoted(w), [], rest);
  }

  lemma BodyHasNoSemicolon(w: WrittenDeclaration)
    requires WellWritten(w)
    ensures ';' !in DeclarationBodyText(w)
  {
    match w
    case WrittenClip(name, file) =>
      assert forall i :: 0 <= i < |name| ==> IsAlpha(name[i]);
    case WrittenBeat(name, dots) =>
      assert forall i :: 0 <= i < |name| ==> IsAlpha(name[i]);
      assert forall i :: 0 <= i < |dots| ==> BeatsParser.IsDotSymbol(dots[i]);
  }

  lemma ParseDeclarationOf(s: string, body: string, rest: string, d: Declaration, left: string, s1: string)
    requires TakeUntil(s, ';') == Some((body, rest))
    requires ParseDeclarationBody(body) == Some((d, left)) && SkipSpace(left) == []
    requires Tag(rest, ";") == Some(s1)
    ensures ParseDeclaration(s) == Some((d, SkipSpace(s1)))
  {
  }

  /** The body of a written declaration parses whole as what it denotes, the clip alternative
      being tried first. */
  lemma BodyRoundTrip(w: WrittenDeclaration)
    requires WellWritten(w)
    ensures ParseDeclarationBody(DeclarationBodyText(w)) == Some((Denoted(w), []))
  {
    match w
    case WrittenClip(name, file) =>
      ClipBodyRoundTrip(name, file);
    case WrittenBeat(name, dots) =>
      BeatBodyRoundTrip(name, dots);
  }

  /** `keyword name = x`: the keyword, the name and the `=` are taken off, leaving `x`. */
  lemma NameEqualsAt(keyword: string, name: string, x: string, s: string)
    requires |keyword| > 0 && !IsSpace(keyword[0]) && IsName(name)
    requires |x| > 0 && !IsSpace(x[0])
    requires s == keyword + (" " + (name + (" " + ("=" + (" " + x)))))
    ensures Symbol(s, keyword) == Some(name + (" " + ("=" + (" " + x))))
    ensures Word1(name + (" " + ("=" + (" " + x))), true) == Some((name, " " + ("=" + (" " + x))))
    ensures Symbol(" " + ("=" + (" " + x)), "=") == Some(x)
  {
    var y3 := " " + x;
    var x2 := "=" + y3;
    var y2 := " " + x2;
    var x1 := name + y2;
    var y1 := " " + x1;
    assert x1[0] == name[0] && !IsSpace(name[0]);
    SymbolAt(keyword, y1);
    SkipOneSpace(y1, x1);
    WordAt(name, y2, true);
    assert x2[0] == '=';
    SkipOneSpace(y2, x2);
    assert SkipSpace(y2) == x2;
    SymbolAt("=", y3);
    SkipOneSpace(y3, x);
  }

  lemma ClipBodyRoundTrip(name: string, file: string)
    requires IsName(name) && '\'' !in file && ';' !in file && NoOperators(file)
    ensures ParseDeclarationBody(DeclarationBodyText(WrittenClip(name, file)))
         == Some((ClipDeclaration(name, RawVideo(file)), []))
  {
    var x := ['\''] + file + ['\''];
    var s := DeclarationBodyText(WrittenClip(name, file));
    ClipBodyWords(name, file, x, s);
    NameEqualsAt("clip", name, x, s);
    RawVideoRoundTrip('\'', file);
    assert SkipSpace([]) == [];
    ParseClipDeclarationOf(s, name + (" " + ("=" + (" " + x))), name, " " + ("=" + (" " + x)), x, RawVideo(file), []);
  }

  lemma ClipBodyWords(name: string, file: string, x: string, s: string)
    requires x == ['\''] + file + ['\''] && s == DeclarationBodyText(WrittenClip(name, file))
    ensures s == "clip" + (" " + (name + (" " + ("=" + (" " + x)))))
  {
  }

  lemma ParseClipDeclarationOf(s: string, s1: string, name: string, s2: string, s3: string, e: ClipExpression, s4: string)
    requires Symbol(s, "clip") == Some(s1) && Word1(s1, true) == Some((name, s2))
    requires Symbol(s2, "=") == Some(s3) && ParseClip(s3) == Some((e, s4))
    ensures ParseDeclarationBody(s) == Some((ClipDeclaration(name, e), SkipSpace(s4)))
  {
    ClipDeclarationOf(s, s1, name, s2, s3, e, s4);
    BodyIsClip(s);
  }

  lemma ClipDeclarationOf(s: string, s1: string, name: string, s2: string, s3: string, e: ClipExpression, s4: string)
    requires Symbol(s, "clip") == Some(s1) && Word1(s1, true) == Some((name, s2))
    requires Symbol(s2, "=") == Some(s3) && ParseClip(s3) == Some((e, s4))
    ensures ParseClipDeclaration(s) == Some((ClipDeclaration(name, e), SkipSpace(s4)))
  {
    ClipDefinitionOf(s1, name, s2, s3, e, s4);
    ClipKeywordThen(s, s1, Some((ClipDeclaration(name, e), SkipSpace(s4))));
  }

  lemma ClipDefinitionOf(s1: string, name: string, s2: string, s3: string, e: ClipExpression, s4: string)
    requires Word1(s1, true) == Some((name, s2))
    requires Symbol(s2, "=") == Some(s3) && ParseClip(s3) == Some((e, s4))
    ensures ParseClipDefinition(s1) == Some((ClipDeclaration(name, e), SkipSpace(s4)))
  {
  }

  lemma ClipKeywordThen(s: string, s1: string, d: Option<(Declaration, string)>)
    requires Symbol(s, "clip") == Some(s1) && ParseClipDefinition(s1) == d && d.Some?
    ensures ParseClipDeclaration(s) == d
  {
  }

  lemma BodyIsClip(s: string)
    requires ParseClipDeclaration(s).Some?
    ensures ParseDeclarationBody(s) == ParseClipDeclaration(s)
  {
  }

  lemma BeatBodyRoundTrip(name: string, dots: string)
    requires IsName(name) && IsDots(dots)
    ensures ParseDeclarationBody(DeclarationBodyText(WrittenBeat(name, dots)))
         == Some((BeatDeclaration(name, DotBeat(BeatsParser.DotFlags(dots))), []))
  {
    var s := DeclarationBodyText(WrittenBeat(name, dots));
    BeatBodyWords(name, dots, s);
    assert !IsSpace(dots[0]);
    NameEqualsAt("beat", name, dots, s);
    BeatsParser.DotsParseAsFlags(dots);
    assert SkipSpace([]) == [];
    NotClipKeyword(s);
    ParseBeatDeclarationOf(s, name + (" " + ("=" + (" " + dots))), name, " " + ("=" + (" " + dots)), dots,
                           DotBeat(BeatsParser.DotFlags(dots)), []);
  }

  lemma BeatBodyWords(name: string, dots: string, s: string)
    requires s == DeclarationBodyText(WrittenBeat(name, dots))
    ensures s == "beat" + (" " + (name + (" " + ("=" + (" " + dots)))))
  {
  }

  /** A text starting with `b` is no clip declaration. */
  lemma NotClipKeyword(s: string)
    requires |s| > 0 && s[0] == 'b'
    ensures ParseClipDeclaration(s) == None
  {
    NoSpaceAt(s);
    assert Symbol(s, "clip") == None && Symbol(s, "clp") == None;
  }

  lemma ParseBeatDeclarationOf(s: string, s1: string, name: string, s2: string, s3: string, e: BeatExpression, s4: string)
    requires ParseClipDeclaration(s) == None
    requires Symbol(s, "beat") == Some(s1) && Word1(s1, true) == Some((name, s2))
    requires Symbol(s2, "=") == Some(s3) && BeatsParser.ParseBeat(s3) == Some((e, s4))
    ensures ParseDeclarationBody(s) == Some((BeatDeclaration(name, e), SkipSpace(s4)))
  {
    BeatDeclarationOf(s, s1, name, s2, s3, e, s4);
    BodyIsBeat(s);
  }

  lemma BeatDeclarationOf(s: string, s1: string, name: string, s2: string, s3: string, e: BeatExpression, s4: string)
    requires Symbol(s, "beat") == Some(s1) && Word1(s1, true) == Some((name, s2))
    requires Symbol(s2, "=") == Some(s3) && BeatsParser.ParseBeat(s3) == Some((e, s4))
    ensures ParseBeatDeclaration(s) == Some((BeatDeclaration(name, e), SkipSpace(s4)))
  {
    BeatDefinitionOf(s1, name, s2, s3, e, s4);
    BeatKeywordThen(s, s1, Some((BeatDeclaration(name, e), SkipSpace(s4))));
  }

  lemma BeatDefinitionOf(s1: string, name: string, s2: string, s3: string, e: BeatExpression, s4: string)
    requires Word1(s1, true) == Some((name, s2))
    requires Symbol(s2, "=") == Some(s3) && BeatsParser.ParseBeat(s3) == Some((e, s4))
    ensures ParseBeatDefinition(s1) == Some((BeatDeclaration(name, e), SkipSpace(s4)))
  {
  }

  lemma BeatKeywordThen(s: string, s1: string, d: Option<(Declaration, string)>)
    requires Symbol(s, "beat") == Some(s1) && ParseBeatDefinition(s1) == d && d.Some?
    ensures ParseBeatDeclaration(s) == d
  {
  }

  lemma BodyIsBeat(s: string)
    requires ParseClipDeclaration(s) == None
    ensures ParseDeclarationBody(s) == ParseBeatDeclaration(s)
  {
  }

  /** Written declarations, one after the other, read back as what they denote, in order; the
      text after them is left, provided it is no declaration and starts with no whitespace. */
  lemma {:induction false} DeclarationsRoundTrip(ws: seq<WrittenDeclaration>, rest: string)
    requires forall i :: 0 <= i < |ws| ==> WellWritten(ws[i])
    requires ParseDeclaration(rest) == None && (rest == [] || !IsSpace(rest[0]))
    ensures ParseDeclarations(DeclarationsText(ws) + rest) == (DenotedAll(ws), rest)
  {
    if ws == [] {
      NoDeclarations(ws, rest);
    } else {
      DeclarationsRoundTrip(ws[1..], rest);
      MoreDeclarations(ws, rest);
    }
  }

  lemma MoreDeclarations(ws: seq<WrittenDeclaration>, rest: string)
    requires ws != [] && WellWritten(ws[0]) && (rest == [] || !IsSpace(rest[0]))
    requires ParseDeclarations(DeclarationsText(ws[1..]) + rest) == (DenotedAll(ws[1..]), rest)
    ensures ParseDeclarations(DeclarationsText(ws) + rest) == (DenotedAll(ws), rest)
  {
    var tail := DeclarationsText(ws[1..]) + rest;
    DeclarationsTextCons(ws, rest);
    DeclarationsStart(ws[1..], rest);
    DeclarationsStep(ws[0], tail, DenotedAll(ws[1..]), rest);
    DenotedCons(ws);
  }

  lemma DenotedCons(ws: seq<WrittenDeclaration>)
    requires ws != []
    ensures DenotedAll(ws) == [Denoted(ws[0])] + DenotedAll(ws[1..])
  {
  }

  lemma NoDeclarations(ws: seq<WrittenDeclaration>, rest: string)
    requires ws == [] && ParseDeclaration(rest) == None
    ensures ParseDeclarations(DeclarationsText(ws) + rest) == (DenotedAll(ws), rest)
  {
    assert DeclarationsText(ws) + rest == rest;
    assert DenotedAll(ws) == [];
  }

  lemma DeclarationsTextCons(ws: seq<WrittenDeclaration>, rest: string)
    requires ws != []
    ensures DeclarationsText(ws) + rest == DeclarationText(ws[0]) + (DeclarationsText(ws[1..]) + rest)
  {
  }

  /** One more written declaration in front of declarations that read back. */
  lemma DeclarationsStep(w: WrittenDeclaration, tail: string, ds: seq<Declaration>, rest: string)
    requires WellWritten(w) && SkipSpace(tail) == tail && ParseDeclarations(tail) == (ds, rest)
    ensures ParseDeclarations(DeclarationText(w) + tail) == ([Denoted(w)] + ds, rest)
  {
    DeclarationRoundTrip(w, tail);
    ParseDeclarationsCons(DeclarationText(w) + tail, Denoted(w), tail, ds, rest);
  }

  /** Written declarations start with a keyword, so no whitespace is skipped in front of them. */
  lemma DeclarationsStart(ws: seq<WrittenDeclaration>, rest: string)
    requires rest == [] || !IsSpace(rest[0])
    ensures SkipSpace(DeclarationsText(ws) + rest) == DeclarationsText(ws) + rest
  {
    var t := DeclarationsText(ws) + rest;
    if ws != [] {
      assert t[0] == DeclarationBodyText(ws[0])[0];
      NoSpaceAt(t);
    } else {
      assert t == rest;
    }
  }

  lemma ParseDeclarationsCons(s: string, d: Declaration, tail: string, ds: seq<Declaration>, rest: string)
    requires ParseDeclaration(s) == Some((d, SkipSpace(tail))) && SkipSpace(tail) == tail
    requires ParseDeclarations(tail) == (ds, rest)
    ensures ParseDeclarations(s) == ([d] + ds, rest)
  {
  }

  /** A whole program with declarations, its two settings, written declarations and a raw video
      as entry, reads back as itself: the parts come in that order. */
  lemma ProgramWithDeclarationsRoundTrip(directory: string, extension: string, ws: seq<WrittenDeclaration>, name: string)
    requires '\'' !in directory && '\'' !in extension && '\'' !in name && ';' !in name && NoOperators(name)
    requires forall i :: 0 <= i < |ws| ==> WellWritten(ws[i])
    ensures ParseMain(SettingText("directory", '\'', directory) + SettingText("extension", '\'', extension)
                      + DeclarationsText(ws) + "'" + name + "'")
         == Some((Main(directory, extension, DenotedAll(ws), RawVideo(name)), []))
  {
    var clip := ['\''] + name + ['\''];
    var body := DeclarationsText(ws) + clip;
    var ext := SettingText("extension", '\'', extension) + body;
    var s := SettingText("directory", '\'', directory) + ext;
    ProgramWords(directory, extension, DeclarationsText(ws), name, clip, body, ext, s);
    EntryIsNoDeclaration(clip, name);
    DeclarationsStart(ws, clip);
    DeclarationsRoundTrip(ws, clip);
    RawVideoRoundTrip('\'', name);
    assert SkipSpace(clip) == clip && SkipSpace([]) == [];
    ParseProgramBodyOf(body, DenotedAll(ws), clip, RawVideo(name), []);
    SettingsThen(directory, extension, body, ext, s);
    ParseAfterDirectoryOf(ext, extension, body, (DenotedAll(ws), RawVideo(name), []));
    ParseMainOf(s, directory, ext, (extension, DenotedAll(ws), RawVideo(name), []));
  }

  lemma ProgramWords(directory: string, extension: string, decls: string, name: string, clip: string,
                     body: string, ext: string, s: string)
    requires clip == ['\''] + name + ['\''] && body == decls + clip
    requires ext == SettingText("extension", '\'', extension) + body
    requires s == SettingText("directory", '\'', directory) + ext
    ensures SettingText("directory", '\'', directory) + SettingText("extension", '\'', extension)
            + decls + "'" + name + "'" == s
  {
  }

  lemma EntryIsNoDeclaration(clip: string, name: string)
    requires clip == ['\''] + name + ['\''] && ';' !in name
    ensures ParseDeclaration(clip) == None && clip != [] && !IsSpace(clip[0])
  {
    assert ';' !in clip;
  }

  /** The two settings in front of a body that starts with no whitespace. */
  lemma SettingsThen(directory: string, extension: string, body: string, ext: string, s: string)
    requires '\'' !in directory && '\'' !in extension
    requires body != [] && !IsSpace(body[0])
    requires ext == SettingText("extension", '\'', extension) + body
    requires s == SettingText("directory", '\'', directory) + ext
    ensures ParseSetting(SkipSpace(s), "directory") == Some((directory, ext))
    ensures ParseSetting(SkipSpace(ext), "extension") == Some((extension, body))
  {
    assert s[0] == 'd' && ext[0] == 'e';
    NoSpaceAt(s);
    NoSpaceAt(ext);
    NoSpaceAt(body);
    SettingRoundTrip("directory", '\'', directory, ext);
    SettingRoundTrip("extension", '\'', extension, body);
  }
}
