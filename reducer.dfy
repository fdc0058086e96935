/** reducer.rs: beat and clip expressions are reduced to time-stamped command lists.

    The recursion and the memo maps threaded through it are functions; the loops that
    reducer.rs runs over a command vector in place (the chain shift, the truncation rewrite,
    `retain`, and the append-and-sort of apply-beat) are array methods, each proved equal to
    the function the recursion uses. */
module Reducer {
  import opened Wrappers
  import opened Ast
  import opened TimeAlgebra
  import opened Sorting

  // ---------------------------------------------------------------------------------------
  // Data model
  // ---------------------------------------------------------------------------------------

  datatype ClipCommand =
    | PlayClip(path: string)
    | PlayClipFrom(path: string, offset: Time)
    | PlayMulti(path: string, subclips: nat)
    | PlayMultiFrom(path: string, offset: Time, subclips: nat)
    | MultiNext
  {
    /** How far into its file a play command starts: 0 unless it is a "…From" variant. */
    function StartOffset(): Time
    {
      match this
      case PlayClipFrom(_, o) => o
      case PlayMultiFrom(_, o, _) => o
      case _ => Zero
    }
  }

  type TimedCommand = (Time, ClipCommand)

  datatype ReducedClip = ReducedClip(commands: seq<TimedCommand>, length: Time)

  datatype ReducedBeat = ReducedBeat(beats: seq<Time>, length: Time)

  type ClipMemo = map<string, ReducedClip>

  type BeatMemo = map<string, ReducedBeat>

  /** The sort key of both sorts in reducer.rs: `time_to_frac` of the time stamp. */
  function TimeKey(t: Time): real
  {
    TimeToFrac(t).Value()
  }

  function CommandKey(c: TimedCommand): real
  {
    TimeKey(c.0)
  }

  /** No time stamp, length or start offset below zero. */
  predicate TimedWF(c: TimedCommand)
  {
    c.0.num >= 0 && c.1.StartOffset().num >= 0
  }

  predicate AllTimedWF(cmds: seq<TimedCommand>)
  {
    forall i :: 0 <= i < |cmds| ==> TimedWF(cmds[i])
  }

  predicate ClipWF(c: ReducedClip)
  {
    c.length.num >= 0 && AllTimedWF(c.commands)
  }

  predicate BeatWF(b: ReducedBeat)
  {
    b.length.num >= 0 && forall i :: 0 <= i < |b.beats| ==> b.beats[i].num >= 0
  }

  predicate ClipMemoWF(m: ClipMemo)
  {
    forall n :: n in m ==> ClipWF(m[n])
  }

  predicate BeatMemoWF(m: BeatMemo)
  {
    forall n :: n in m ==> BeatWF(m[n])
  }

  /** On non-negative times the sort key is the value itself. */
  lemma TimeKeyIsValue(t: Time)
    requires t.num >= 0
    ensures TimeKey(t) == t.Value()
  {
  }

  // ---------------------------------------------------------------------------------------
  // Beat reduction
  // ---------------------------------------------------------------------------------------

  /** The onsets of a dot pattern: index i over 16 for every `true` at index i. */
  function DotOnsets(dots: seq<bool>): (r: seq<Time>)
    ensures forall k :: 0 <= k < |r| ==> r[k].denom == 16 && 0 <= r[k].num < |dots| && dots[r[k].num]
    ensures forall i :: 0 <= i < |dots| && dots[i] ==> Time(i, 16) in r
    ensures forall k, l :: 0 <= k < l < |r| ==> r[k].num < r[l].num
  {
    if dots == [] then []
    else
      var front := dots[..|dots| - 1];
      var init := DotOnsets(front);
      var r := init + (if dots[|dots| - 1] then [Time(|dots| - 1, 16)] else []);
      assert forall k :: 0 <= k < |init| ==> r[k] == init[k] && dots[init[k].num] == front[init[k].num];
      assert forall k :: |init| <= k < |r| ==> r[k] == Time(|dots| - 1, 16) && dots[|dots| - 1];
      assert forall i :: 0 <= i < |dots| - 1 && dots[i] ==> front[i];
      r
  }

  /** `reduce_dot_beat_expression`. */
  function ReduceDot(dots: seq<bool>): (r: ReducedBeat)
    ensures r.length == Time(|dots|, 16) && BeatWF(r)
    ensures forall t :: t in r.beats <==> exists i :: 0 <= i < |dots| && dots[i] && t == Time(i, 16)
    ensures SortedBy(r.beats, TimeKey)
  {
    DotOnsetsSorted(dots);
    DotOnsetsAreDots(dots);
    ReducedBeat(DotOnsets(dots), Time(|dots|, 16))
  }

  lemma DotOnsetsAreDots(dots: seq<bool>)
    ensures forall t :: t in DotOnsets(dots) ==> exists i :: 0 <= i < |dots| && dots[i] && t == Time(i, 16)
  {
    var r := DotOnsets(dots);
    forall t | t in r ensures exists i :: 0 <= i < |dots| && dots[i] && t == Time(i, 16) {
      var k :| 0 <= k < |r| && r[k] == t;
      assert t == Time(t.num, 16);
    }
  }

  lemma DotOnsetsSorted(dots: seq<bool>)
    ensures SortedBy(DotOnsets(dots), TimeKey)
  {
    var r := DotOnsets(dots);
    forall i, j | 0 <= i < j < |r| ensures TimeKey(r[i]) <= TimeKey(r[j]) {
      TimeKeyIsValue(r[i]);
      TimeKeyIsValue(r[j]);
      assert r[i].num as real <= r[j].num as real;
    }
  }

  function Sum(s: seq<nat>): nat
  {
    if s == [] then 0 else Sum(s[..|s| - 1]) + s[|s| - 1]
  }

  /** The fold of `reduce_number_beat_expression`: each count records an onset at the cursor
      and then moves the cursor on by that many sixteenths. */
  function NumberFold(counts: seq<nat>, cursor: int): (r: (int, seq<Time>))
    ensures r.0 == cursor + Sum(counts) && |r.1| == |counts|
    ensures forall k :: 0 <= k < |counts| ==> r.1[k] == Time(cursor + Sum(counts[..k]), 16)
  {
    if counts == [] then (cursor, [])
    else
      var init := counts[..|counts| - 1];
      var (c, onsets) := NumberFold(init, cursor);
      assert forall k :: 0 <= k < |init| ==> init[..k] == counts[..k];
      assert init == counts[..|counts| - 1];
      (c + counts[|counts| - 1], onsets + [Time(c, 16)])
  }

  lemma {:induction false} SumPrefixMonotone(s: seq<nat>, k: int, l: int)
    requires 0 <= k <= l <= |s|
    ensures Sum(s[..k]) <= Sum(s[..l])
    decreases l - k
  {
    if k < l {
      SumPrefixMonotone(s, k, l - 1);
      assert s[..l][..l - 1] == s[..l - 1];
    }
  }

  /** `reduce_number_beat_expression`: the cursor starts at 1 and the length is the final
      cursor minus 1. */
  function ReduceNumber(counts: seq<nat>): (r: ReducedBeat)
    ensures r.length == Time(Sum(counts), 16) && |r.beats| == |counts| && BeatWF(r)
    ensures forall k :: 0 <= k < |counts| ==> r.beats[k] == Time(1 + Sum(counts[..k]), 16)
    ensures SortedBy(r.beats, TimeKey)
  {
    var (cursor, onsets) := NumberFold(counts, 1);
    var r := ReducedBeat(onsets, Time(cursor - 1, 16));
    assert SortedBy(r.beats, TimeKey) by {
      forall k, l | 0 <= k < l < |r.beats| ensures TimeKey(r.beats[k]) <= TimeKey(r.beats[l]) {
        SumPrefixMonotone(counts, k, l);
      }
    }
    r
  }

  /** The onsets of b, each shifted by `shift` (`a_length + time_to_frac(b)`). */
  function ShiftOnsets(onsets: seq<Time>, shift: Time): (r: seq<Time>)
    ensures |r| == |onsets|
    ensures forall i :: 0 <= i < |onsets| ==> r[i] == TimeAdd(shift, onsets[i])
  {
    seq(|onsets|, i requires 0 <= i < |onsets| => TimeAdd(shift, onsets[i]))
  }

  /** `reduce_beat_chain_expression` after its two recursive calls: b's shifted onsets come
      first, then a's; the caller's sort puts them in order. */
  function BeatChain(a: ReducedBeat, b: ReducedBeat): (r: ReducedBeat)
    ensures |r.beats| == |a.beats| + |b.beats|
    ensures r.beats[|b.beats|..] == a.beats
    ensures BeatWF(a) && BeatWF(b) ==> BeatWF(r)
    ensures BeatWF(a) && BeatWF(b) ==> r.length.Value() == a.length.Value() + b.length.Value()
    ensures BeatWF(a) && BeatWF(b) ==>
      forall i :: 0 <= i < |b.beats| ==> r.beats[i].Value() == a.length.Value() + b.beats[i].Value()
  {
    ReducedBeat(ShiftOnsets(b.beats, a.length) + a.beats, TimeAdd(a.length, b.length))
  }

  /** `order_beat`: sorts the onsets by value. */
  function OrderBeat(b: ReducedBeat): (r: ReducedBeat)
    ensures r.length == b.length && SortedBy(r.beats, TimeKey)
    ensures multiset(r.beats) == multiset(b.beats)
  {
    SortByKeySortsAndPermutes(b.beats, TimeKey);
    ReducedBeat(SortByKey(b.beats, TimeKey), b.length)
  }

  /** Ordering what is already ordered changes nothing; in particular `order_beat` is idempotent. */
  lemma OrderBeatOfSorted(b: ReducedBeat)
    requires SortedBy(b.beats, TimeKey)
    ensures OrderBeat(b) == b
  {
    SortByKeyOfSorted(b.beats, TimeKey);
  }

  lemma OrderBeatKeepsWF(b: ReducedBeat)
    requires BeatWF(b)
    ensures BeatWF(OrderBeat(b))
  {
    var r := OrderBeat(b);
    forall i | 0 <= i < |r.beats| ensures r.beats[i].num >= 0 {
      assert r.beats[i] in multiset(b.beats);
    }
  }

  function BeatRefs(b: BeatExpression): set<string>
  {
    match b
    case DotBeat(_) => {}
    case NumberBeat(_) => {}
    case BeatChain(x, y) => BeatRefs(x) + BeatRefs(y)
    case ReferenceBeat(n) => {n}
  }

  /** One more than the highest rank of a name the expression refers to. */
  function BeatRank(b: BeatExpression, rank: map<string, nat>): nat
  {
    match b
    case DotBeat(_) => 0
    case NumberBeat(_) => 0
    case BeatChain(x, y) => Max(BeatRank(x, rank), BeatRank(y, rank))
    case ReferenceBeat(n) => if n in rank then rank[n] + 1 else 0
  }

  function Max(a: nat, b: nat): nat
  {
    if a < b then b else a
  }

  /** Every name resolves: through the memo, or through a ranked definition. */
  ghost predicate BeatOk(b: BeatExpression, defs: map<string, BeatExpression>, memo: BeatMemo, rank: map<string, nat>)
  {
    forall n :: n in BeatRefs(b) ==> n in memo || (n in defs && n in rank)
  }

  /** The definitions refer only to names of lower rank, so reference chasing ends. */
  ghost predicate BeatDefsOk(defs: map<string, BeatExpression>, memo: BeatMemo, rank: map<string, nat>)
  {
    forall n :: n in defs ==> n in rank && BeatRank(defs[n], rank) <= rank[n] && BeatOk(defs[n], defs, memo, rank)
  }

  /** `reduce_beat_expression`: the memo comes back as it went in, and a reference that misses
      the memo is reduced from its definition without being inserted. */
  function ReduceBeat(b: BeatExpression, defs: map<string, BeatExpression>, memo: BeatMemo, rank: map<string, nat>)
    : (r: (ReducedBeat, BeatMemo))
    requires BeatOk(b, defs, memo, rank) && BeatDefsOk(defs, memo, rank)
    ensures r.1 == memo
    ensures SortedBy(r.0.beats, TimeKey)
    ensures BeatMemoWF(memo) ==> BeatWF(r.0)
    decreases BeatRank(b, rank), b
  {
    var result: ReducedBeat :=
      match b
      case DotBeat(dots) => ReduceDot(dots)
      case NumberBeat(counts) => ReduceNumber(counts)
      case BeatChain(x, y) =>
        var (ra, m1) := ReduceBeat(x, defs, memo, rank);
        var (rb, m2) := ReduceBeat(y, defs, m1, rank);
        BeatChain(ra, rb)
      case ReferenceBeat(n) =>
        if n in memo then memo[n] else ReduceBeat(defs[n], defs, memo, rank).0;
    if BeatMemoWF(memo) then OrderBeatKeepsWF(result); (OrderBeat(result), memo) else (OrderBeat(result), memo)
  }

  // ---------------------------------------------------------------------------------------
  // Clip reduction: the arms
  // ---------------------------------------------------------------------------------------

  /** `reduce_raw_video_expression`: one `PlayClip` at 0, length 1. */
  function RawClip(filename: string): ReducedClip
  {
    ReducedClip([(Zero, PlayClip(filename))], Time(1, 1))
  }

  /** `reduce_multi_video_expression`: one `PlayMulti` at 0, length 1. */
  function MultiClip(filename: string, subclips: nat): ReducedClip
  {
    ReducedClip([(Zero, PlayMulti(filename, subclips))], Time(1, 1))
  }

  /** Every time stamp moved later by `shift`, payloads untouched (the loop over `clip_b`). */
  function ShiftCommands(cmds: seq<TimedCommand>, shift: Time): (r: seq<TimedCommand>)
    ensures |r| == |cmds|
    ensures forall i :: 0 <= i < |cmds| ==> r[i].1 == cmds[i].1
    ensures shift.num >= 0 ==> forall i :: 0 <= i < |cmds| && TimedWF(cmds[i]) ==>
      TimedWF(r[i]) && r[i].0.Value() == cmds[i].0.Value() + shift.Value()
  {
    seq(|cmds|, i requires 0 <= i < |cmds| => (TimeAdd(cmds[i].0, shift), cmds[i].1))
  }

  /** `reduce_chain_expression` after its two recursive calls. */
  function ChainClips(a: ReducedClip, b: ReducedClip): (r: ReducedClip)
    ensures |r.commands| == |a.commands| + |b.commands|
    ensures r.commands[..|a.commands|] == a.commands
    ensures forall i :: 0 <= i < |b.commands| ==> r.commands[|a.commands| + i].1 == b.commands[i].1
    ensures ClipWF(a) && ClipWF(b) ==> ClipWF(r)
    ensures ClipWF(a) && ClipWF(b) ==> r.length.Value() == a.length.Value() + b.length.Value()
    ensures ClipWF(a) && ClipWF(b) ==> forall i :: 0 <= i < |b.commands| ==>
      r.commands[|a.commands| + i].0.Value() == b.commands[i].0.Value() + a.length.Value()
  {
    var shifted := ShiftCommands(b.commands, a.length);
    var cmds := a.commands + shifted;
    assert cmds[..|a.commands|] == a.commands;
    assert forall i :: 0 <= i < |b.commands| ==> cmds[|a.commands| + i] == shifted[i];
    ReducedClip(cmds, TimeAdd(a.length, b.length))
  }

  /** The shifted stamp `t` of a command fell below zero: carry the start into the payload.
      A plain play starts `-t` into its file; a "…From" play starts `-t` further into it than
      before (see the as-written variant below). */
  function Rewrite(cmd: ClipCommand, t: Time): ClipCommand
  {
    var late := Time(-t.num, t.denom);
    match cmd
    case PlayClip(p) => PlayClipFrom(p, late)
    case PlayClipFrom(p, o) => PlayClipFrom(p, TimeAdd(o, late))
    case PlayMulti(p, n) => PlayMultiFrom(p, late, n)
    case PlayMultiFrom(p, o, n) => PlayMultiFrom(p, TimeAdd(o, late), n)
    case MultiNext => MultiNext
  }

  /** The same file, sub-clip count and kind, now as the "…From" variant (MultiNext stays). */
  predicate Retargets(before: ClipCommand, after: ClipCommand)
  {
    match before
    case PlayClip(p) => after.PlayClipFrom? && after.path == p
    case PlayClipFrom(p, _) => after.PlayClipFrom? && after.path == p
    case PlayMulti(p, n) => after.PlayMultiFrom? && after.path == p && after.subclips == n
    case PlayMultiFrom(p, _, n) => after.PlayMultiFrom? && after.path == p && after.subclips == n
    case MultiNext => after == MultiNext
  }

  /** One step of the truncation loop: subtract `from`; a stamp below zero becomes 0 and the
      payload is rewritten so that playback still reaches the same point of the file. */
  function TruncateCommand(c: TimedCommand, from: Time): (r: TimedCommand)
    ensures r.0.num >= 0
    ensures TimedWF(c) && from.num >= 0 ==> TimedWF(r)
    ensures TimedWF(c) && from.num >= 0 && from.Value() <= c.0.Value() ==>
      r.1 == c.1 && r.0.Value() == c.0.Value() - from.Value()
    ensures TimedWF(c) && from.num >= 0 && c.0.Value() < from.Value() ==>
      r.0 == Zero && Retargets(c.1, r.1) &&
      (c.1 != MultiNext ==>
        r.1.StartOffset().Value() == c.1.StartOffset().Value() + (from.Value() - c.0.Value()))
  {
    var t := TimeSub(c.0, from);
    if t.num >= 0 then (t, c.1)
    else if c.1.StartOffset().num >= 0 then RewriteMovesStart(c.1, t); (Zero, Rewrite(c.1, t))
    else (Zero, Rewrite(c.1, t))
  }

  lemma RewriteMovesStart(cmd: ClipCommand, t: Time)
    requires t.num < 0 && cmd.StartOffset().num >= 0
    ensures Retargets(cmd, Rewrite(cmd, t)) && Rewrite(cmd, t).StartOffset().num >= 0
    ensures cmd != MultiNext ==> Rewrite(cmd, t).StartOffset().Value() == cmd.StartOffset().Value() - t.Value()
  {
    var late := Time(-t.num, t.denom);
    NegDiv(t.num, t.denom);
    assert late.Value() == -t.Value();
  }

  /** The truncation loop, as a function: every command through `TruncateCommand`. */
  function TruncateCommands(cmds: seq<TimedCommand>, from: Time): (r: seq<TimedCommand>)
    ensures |r| == |cmds|
    ensures forall i :: 0 <= i < |cmds| ==> r[i] == TruncateCommand(cmds[i], from)
  {
    seq(|cmds|, i requires 0 <= i < |cmds| => TruncateCommand(cmds[i], from))
  }

  /** `retain(|c| time_to_frac(&c.0) < time_to_frac(&to))`: the commands before `to`, in order. */
  function KeepBefore(cmds: seq<TimedCommand>, to: Time): (r: seq<TimedCommand>)
    ensures |r| <= |cmds|
  {
    if cmds == [] then []
    else
      var last := cmds[|cmds| - 1];
      KeepBefore(cmds[..|cmds| - 1], to) + (if CommandKey(last) < TimeKey(to) then [last] else [])
  }

  /** Exactly the commands whose stamp is before `to` are kept. */
  lemma {:induction false} KeepBeforeMembers(cmds: seq<TimedCommand>, to: Time)
    ensures forall c :: c in KeepBefore(cmds, to) <==> c in cmds && CommandKey(c) < TimeKey(to)
  {
    if cmds != [] {
      var init, last := cmds[..|cmds| - 1], cmds[|cmds| - 1];
      KeepBeforeMembers(init, to);
      assert cmds == init + [last];
    }
  }

  /** `retain` is a filter: it distributes over concatenation, so the kept commands keep their order. */
  lemma {:induction false} KeepBeforeAppend(a: seq<TimedCommand>, b: seq<TimedCommand>, to: Time)
    ensures KeepBefore(a + b, to) == KeepBefore(a, to) + KeepBefore(b, to)
    decreases |b|
  {
    if b == [] {
      assert a + b == a;
    } else {
      var ab := a + b;
      var last := b[|b| - 1];
      var tail := if CommandKey(last) < TimeKey(to) then [last] else [];
      assert ab[..|ab| - 1] == a + b[..|b| - 1] && ab[|ab| - 1] == last;
      assert KeepBefore(ab, to) == KeepBefore(a + b[..|b| - 1], to) + tail;
      assert KeepBefore(b, to) == KeepBefore(b[..|b| - 1], to) + tail;
      KeepBeforeAppend(a, b[..|b| - 1], to);
    }
  }

  /** The start of a time range, 0 when it is left out. */
  function RangeStart(tr: TimeRange): (t: Time)
    ensures t.num >= 0
  {
    TimeExpressionToTime(tr.from.GetOr(TimeExpression(0, None)))
  }

  /** `from` is not after `to`: the condition under which truncation stays at or above zero. */
  predicate RangeOrdered(tr: TimeRange)
  {
    tr.to.Some? ==> RangeStart(tr).Value() <= TimeExpressionToTime(tr.to.value).Value()
  }

  /** `reduce_truncate_expression` after its recursive call. */
  function TruncateClip(c: ReducedClip, tr: TimeRange): (r: ReducedClip)
    ensures ClipWF(c) && RangeOrdered(tr) ==> ClipWF(r)
    ensures tr.to.None? ==> r == ReducedClip(TruncateCommands(c.commands, RangeStart(tr)), c.length)
    ensures tr.to.Some? && ClipWF(c) && RangeOrdered(tr) ==>
      r.length.Value() == TimeExpressionToTime(tr.to.value).Value() - RangeStart(tr).Value() &&
      (forall i :: 0 <= i < |r.commands| ==> r.commands[i].0.Value() < r.length.Value())
    ensures tr.to.Some? ==>
      var from := RangeStart(tr);
      var to := TimeSub(TimeExpressionToTime(tr.to.value), from);
      r.length == to && r.commands == KeepBefore(TruncateCommands(c.commands, from), to) &&
      forall x :: x in r.commands <==> x in TruncateCommands(c.commands, from) && CommandKey(x) < TimeKey(to)
  {
    var from := RangeStart(tr);
    var shifted := TruncateCommands(c.commands, from);
    if ClipWF(c) then TruncateCommandsWF(c.commands, from); TruncateBody(c, tr, from, shifted)
    else TruncateBody(c, tr, from, shifted)
  }

  /** The `if let Some(to)` tail of the truncation. */
  function TruncateBody(c: ReducedClip, tr: TimeRange, from: Time, shifted: seq<TimedCommand>): (r: ReducedClip)
    requires from.num >= 0
    ensures AllTimedWF(shifted) && c.length.num >= 0 && RangeOrdered(tr) && from == RangeStart(tr) ==> ClipWF(r)
    ensures tr.to.None? ==> r == ReducedClip(shifted, c.length)
    ensures tr.to.Some? && AllTimedWF(shifted) && RangeOrdered(tr) && from == RangeStart(tr) ==>
      r.length.Value() == TimeExpressionToTime(tr.to.value).Value() - from.Value() &&
      (forall i :: 0 <= i < |r.commands| ==> r.commands[i].0.Value() < r.length.Value())
    ensures tr.to.Some? ==>
      var to := TimeSub(TimeExpressionToTime(tr.to.value), from);
      r.length == to && r.commands == KeepBefore(shifted, to) &&
      forall x :: x in r.commands <==> x in shifted && CommandKey(x) < TimeKey(to)
  {
    match tr.to
    case None => ReducedClip(shifted, c.length)
    case Some(te) =>
      var to := TimeSub(TimeExpressionToTime(te), from);
      KeepBeforeMembers(shifted, to);
      if AllTimedWF(shifted) && to.num >= 0 then
        KeepBeforeBound(shifted, to); ReducedClip(KeepBefore(shifted, to), to)
      else ReducedClip(KeepBefore(shifted, to), to)
  }

  lemma TruncateCommandsWF(cmds: seq<TimedCommand>, from: Time)
    requires from.num >= 0 && AllTimedWF(cmds)
    ensures AllTimedWF(TruncateCommands(cmds, from))
  {
  }

  lemma KeepBeforeBound(cmds: seq<TimedCommand>, to: Time)
    requires to.num >= 0 && AllTimedWF(cmds)
    ensures AllTimedWF(KeepBefore(cmds, to))
    ensures forall i :: 0 <= i < |KeepBefore(cmds, to)| ==> KeepBefore(cmds, to)[i].0.Value() < to.Value()
  {
    var r := KeepBefore(cmds, to);
    KeepBeforeMembers(cmds, to);
    forall i | 0 <= i < |r| ensures TimedWF(r[i]) && r[i].0.Value() < to.Value() {
      assert r[i] in cmds;
      var k :| 0 <= k < |cmds| && cmds[k] == r[i];
      assert TimedWF(cmds[k]);
      TimeKeyIsValue(r[i].0);
      TimeKeyIsValue(to);
    }
  }

  /** One `MultiNext` cue per onset. */
  function Cues(onsets: seq<Time>): (r: seq<TimedCommand>)
    ensures |r| == |onsets|
    ensures forall i :: 0 <= i < |onsets| ==> r[i] == (onsets[i], MultiNext)
  {
    seq(|onsets|, i requires 0 <= i < |onsets| => (onsets[i], MultiNext))
  }

  /** `reduce_apply_beat_expression` after its two recursive calls: append the cues, sort
      stably by time. */
  function ApplyBeatClip(c: ReducedClip, beat: ReducedBeat): (r: ReducedClip)
    ensures r.length == c.length
  {
    ReducedClip(SortByKey(c.commands + Cues(beat.beats), CommandKey), c.length)
  }

  lemma PermutationKeepsWF(s: seq<TimedCommand>, t: seq<TimedCommand>)
    requires AllTimedWF(s) && multiset(t) == multiset(s)
    ensures AllTimedWF(t)
  {
    forall i | 0 <= i < |t| ensures TimedWF(t[i]) {
      assert t[i] in multiset(s);
      var k :| 0 <= k < |s| && s[k] == t[i];
    }
  }

  lemma ApplyBeatKeepsWF(c: ReducedClip, beat: ReducedBeat)
    requires ClipWF(c) && BeatWF(beat)
    ensures ClipWF(ApplyBeatClip(c, beat))
  {
    var all := c.commands + Cues(beat.beats);
    assert AllTimedWF(all) by {
      forall k | 0 <= k < |all| ensures TimedWF(all[k]) {
        if k >= |c.commands| {
          assert all[k] == (beat.beats[k - |c.commands|], MultiNext);
        }
      }
    }
    SortByKeySortsAndPermutes(all, CommandKey);
    PermutationKeepsWF(all, ApplyBeatClip(c, beat).commands);
  }

  /** Apply-beat keeps every command, adds one cue per onset, sorts by time, and is stable:
      among equal times the clip's own commands come first, each group in its old order. */
  lemma ApplyBeatShape(c: ReducedClip, beat: ReducedBeat)
    ensures |ApplyBeatClip(c, beat).commands| == |c.commands| + |beat.beats|
    ensures multiset(ApplyBeatClip(c, beat).commands) == multiset(c.commands + Cues(beat.beats))
    ensures SortedBy(ApplyBeatClip(c, beat).commands, CommandKey)
    ensures forall v ::
              KeyFilter(ApplyBeatClip(c, beat).commands, CommandKey, v) ==
              KeyFilter(c.commands, CommandKey, v) + KeyFilter(Cues(beat.beats), CommandKey, v)
  {
    var all := c.commands + Cues(beat.beats);
    SortByKeySortsAndPermutes(all, CommandKey);
    forall v ensures KeyFilter(ApplyBeatClip(c, beat).commands, CommandKey, v) ==
      KeyFilter(c.commands, CommandKey, v) + KeyFilter(Cues(beat.beats), CommandKey, v)
    {
      SortByKeyStable(all, CommandKey, v);
      KeyFilterAppend(c.commands, Cues(beat.beats), CommandKey, v);
    }
  }

  // ---------------------------------------------------------------------------------------
  // Clip reduction: the recursion
  // ---------------------------------------------------------------------------------------

  /** The clip names an expression refers to. */
  function ClipRefs(e: ClipExpression): set<string>
  {
    match e
    case Empty => {}
    case Chain(a, b) => ClipRefs(a) + ClipRefs(b)
    case Layer(a, b) => ClipRefs(a) + ClipRefs(b)
    case Loop(c, _) => ClipRefs(c)
    case Restart(_, c) => ClipRefs(c)
    case Truncated(c, _) => ClipRefs(c)
    case RawVideo(_) => {}
    case MultiVideo(_, _) => {}
    case Reference(n) => {n}
    case ApplyBeat(_, c) => ClipRefs(c)
    case Parentheses(c) => ClipRefs(c)
  }

  /** The beat names used by the apply-beat nodes of an expression. */
  function ApplyBeatRefs(e: ClipExpression): set<string>
  {
    match e
    case Empty => {}
    case Chain(a, b) => ApplyBeatRefs(a) + ApplyBeatRefs(b)
    case Layer(a, b) => ApplyBeatRefs(a) + ApplyBeatRefs(b)
    case Loop(c, _) => ApplyBeatRefs(c)
    case Restart(_, c) => ApplyBeatRefs(c)
    case Truncated(c, _) => ApplyBeatRefs(c)
    case RawVideo(_) => {}
    case MultiVideo(_, _) => {}
    case Reference(_) => {}
    case ApplyBeat(b, c) => BeatRefs(b) + ApplyBeatRefs(c)
    case Parentheses(c) => ApplyBeatRefs(c)
  }

  /** Only the six forms `reduce_clip_expression` has an arm for. */
  predicate Reducible(e: ClipExpression)
  {
    match e
    case Chain(a, b) => Reducible(a) && Reducible(b)
    case Truncated(c, _) => Reducible(c)
    case RawVideo(_) => true
    case MultiVideo(_, _) => true
    case Reference(_) => true
    case ApplyBeat(_, c) => Reducible(c)
    case _ => false
  }

  /** Every truncation written in the expression starts no later than it ends. A reversed
      one is reduced all the same, to a negative length. */
  predicate RangesOrdered(e: ClipExpression)
  {
    match e
    case Chain(a, b) => RangesOrdered(a) && RangesOrdered(b)
    case Layer(a, b) => RangesOrdered(a) && RangesOrdered(b)
    case Loop(c, _) => RangesOrdered(c)
    case Restart(_, c) => RangesOrdered(c)
    case Truncated(c, tr) => RangesOrdered(c) && RangeOrdered(tr)
    case ApplyBeat(_, c) => RangesOrdered(c)
    case Parentheses(c) => RangesOrdered(c)
    case _ => true
  }

  /** The same, for every clip definition. */
  predicate DefsRangesOrdered(defs: map<string, ClipExpression>)
  {
    forall n :: n in defs ==> RangesOrdered(defs[n])
  }

  function ClipRank(e: ClipExpression, rank: map<string, nat>): nat
  {
    match e
    case Empty => 0
    case Chain(a, b) => Max(ClipRank(a, rank), ClipRank(b, rank))
    case Layer(a, b) => Max(ClipRank(a, rank), ClipRank(b, rank))
    case Loop(c, _) => ClipRank(c, rank)
    case Restart(_, c) => ClipRank(c, rank)
    case Truncated(c, _) => ClipRank(c, rank)
    case RawVideo(_) => 0
    case MultiVideo(_, _) => 0
    case Reference(n) => if n in rank then rank[n] + 1 else 0
    case ApplyBeat(_, c) => ClipRank(c, rank)
    case Parentheses(c) => ClipRank(c, rank)
  }

  /** Clip names are defined and ranked; apply-beat names are among the reduced beats. */
  ghost predicate ClipOk(e: ClipExpression, defs: map<string, ClipExpression>, beatNames: set<string>, rank: map<string, nat>)
  {
    Reducible(e) && (forall n :: n in ClipRefs(e) ==> n in defs && n in rank) && ApplyBeatRefs(e) <= beatNames
  }

  ghost predicate ClipDefsOk(defs: map<string, ClipExpression>, beatNames: set<string>, rank: map<string, nat>)
  {
    forall n :: n in defs ==> n in rank && ClipRank(defs[n], rank) <= rank[n] && ClipOk(defs[n], defs, beatNames, rank)
  }

  /** `reduce_clip_expression`: the memo is threaded left to right and only ever grows; a
      reference hit returns the cached clip, a miss reduces the definition and caches it. */
  function ReduceClip(e: ClipExpression, defs: map<string, ClipExpression>, memo: ClipMemo, beatMemo: BeatMemo,
                      rank: map<string, nat>): (r: (ReducedClip, ClipMemo))
    requires ClipOk(e, defs, beatMemo.Keys, rank) && ClipDefsOk(defs, beatMemo.Keys, rank)
    ensures forall n :: n in memo ==> n in r.1 && r.1[n] == memo[n]
    ensures e.Reference? ==> e.name in r.1 && r.1[e.name] == r.0
    ensures e.Reference? && e.name in memo ==> r == (memo[e.name], memo)
    ensures e.RawVideo? ==> r == (ReducedClip([(Zero, PlayClip(e.filename))], Time(1, 1)), memo)
    ensures e.MultiVideo? ==> r == (ReducedClip([(Zero, PlayMulti(e.filename, e.subclips))], Time(1, 1)), memo)
    decreases ClipRank(e, rank), e
  {
    match e
    case Chain(a, b) =>
      var (ra, m1) := ReduceClip(a, defs, memo, beatMemo, rank);
      var (rb, m2) := ReduceClip(b, defs, m1, beatMemo, rank);
      (ChainClips(ra, rb), m2)
    case Truncated(c, tr) =>
      var (rc, m) := ReduceClip(c, defs, memo, beatMemo, rank);
      (TruncateClip(rc, tr), m)
    case RawVideo(f) => (RawClip(f), memo)
    case MultiVideo(f, k) => (MultiClip(f, k), memo)
    case Reference(n) =>
      if n in memo then (memo[n], memo)
      else
        var (rc, m) := ReduceClip(defs[n], defs, memo, beatMemo, rank);
        (rc, m[n := rc])
    case ApplyBeat(beat, c) =>
      var (rc, m) := ReduceClip(c, defs, memo, beatMemo, rank);
      var (rb, _) := ReduceBeat(beat, map[], beatMemo, map[]);
      (ApplyBeatClip(rc, rb), m)
  }

  /** Without reversed truncations, reduction keeps every time non-negative and every length
      non-negative: in the result and in each clip it adds to the memo. */
  lemma {:induction false} ReduceClipKeepsWF(e: ClipExpression, defs: map<string, ClipExpression>, memo: ClipMemo,
                                             beatMemo: BeatMemo, rank: map<string, nat>)
    requires ClipOk(e, defs, beatMemo.Keys, rank) && ClipDefsOk(defs, beatMemo.Keys, rank)
    requires RangesOrdered(e) && DefsRangesOrdered(defs)
    requires ClipMemoWF(memo) && BeatMemoWF(beatMemo)
    ensures ClipWF(ReduceClip(e, defs, memo, beatMemo, rank).0)
    ensures ClipMemoWF(ReduceClip(e, defs, memo, beatMemo, rank).1)
    decreases ClipRank(e, rank), e, 1
  {
    match e
    case Chain(a, b) =>
      ChainKeepsWF(a, b, defs, memo, beatMemo, rank);
    case Truncated(c, _) =>
      ReduceClipKeepsWF(c, defs, memo, beatMemo, rank);
    case RawVideo(_) =>
    case MultiVideo(_, _) =>
    case Reference(n) =>
      if n !in memo {
        ReduceClipKeepsWF(defs[n], defs, memo, beatMemo, rank);
      }
    case ApplyBeat(beat, c) =>
      ReduceClipKeepsWF(c, defs, memo, beatMemo, rank);
      ApplyBeatKeepsWF(ReduceClip(c, defs, memo, beatMemo, rank).0, ReduceBeat(beat, map[], beatMemo, map[]).0);
  }

  /** A reversed truncation is reduced all the same: to a clip of negative length, whose
      commands are the shifted ones the wrapping compare keeps. */
  lemma ReversedTruncation(c: ClipExpression, tr: TimeRange, defs: map<string, ClipExpression>, memo: ClipMemo,
                           beatMemo: BeatMemo, rank: map<string, nat>)
    requires ClipOk(Truncated(c, tr), defs, beatMemo.Keys, rank) && ClipDefsOk(defs, beatMemo.Keys, rank)
    requires tr.to.Some? && !RangeOrdered(tr)
    ensures var r := ReduceClip(Truncated(c, tr), defs, memo, beatMemo, rank).0;
            r.length.Value() < 0.0 && !ClipWF(r) &&
            r.commands == KeepBefore(TruncateCommands(ReduceClip(c, defs, memo, beatMemo, rank).0.commands, RangeStart(tr)), r.length)
  {
  }

  /** The chain case of `ReduceClipKeepsWF`. */
  lemma {:induction false} ChainKeepsWF(a: ClipExpression, b: ClipExpression, defs: map<string, ClipExpression>,
                                        memo: ClipMemo, beatMemo: BeatMemo, rank: map<string, nat>)
    requires ClipOk(Chain(a, b), defs, beatMemo.Keys, rank) && ClipDefsOk(defs, beatMemo.Keys, rank)
    requires RangesOrdered(Chain(a, b)) && DefsRangesOrdered(defs)
    requires ClipMemoWF(memo) && BeatMemoWF(beatMemo)
    ensures ClipWF(ReduceClip(Chain(a, b), defs, memo, beatMemo, rank).0)
    ensures ClipMemoWF(ReduceClip(Chain(a, b), defs, memo, beatMemo, rank).1)
    decreases ClipRank(Chain(a, b), rank), Chain(a, b), 0
  {
    ReduceClipKeepsWF(a, defs, memo, beatMemo, rank);
    ReduceClipKeepsWF(b, defs, ReduceClip(a, defs, memo, beatMemo, rank).1, beatMemo, rank);
  }

  // ---------------------------------------------------------------------------------------
  // Memoisation is sound
  // ---------------------------------------------------------------------------------------

  /** The meaning of a clip expression with no memo at all: every reference is reduced
      from its definition again. */
  function Eval(e: ClipExpression, defs: map<string, ClipExpression>, beatMemo: BeatMemo, rank: map<string, nat>)
    : ReducedClip
    requires ClipOk(e, defs, beatMemo.Keys, rank) && ClipDefsOk(defs, beatMemo.Keys, rank)
    decreases ClipRank(e, rank), e
  {
    match e
    case Chain(a, b) => ChainClips(Eval(a, defs, beatMemo, rank), Eval(b, defs, beatMemo, rank))
    case Truncated(c, tr) => TruncateClip(Eval(c, defs, beatMemo, rank), tr)
    case RawVideo(f) => RawClip(f)
    case MultiVideo(f, k) => MultiClip(f, k)
    case Reference(n) => Eval(defs[n], defs, beatMemo, rank)
    case ApplyBeat(beat, c) => ApplyBeatClip(Eval(c, defs, beatMemo, rank), ReduceBeat(beat, map[], beatMemo, map[]).0)
  }

  /** Every cached clip is what its definition means. */
  ghost predicate ClipMemoSound(memo: ClipMemo, defs: map<string, ClipExpression>, beatMemo: BeatMemo, rank: map<string, nat>)
    requires ClipDefsOk(defs, beatMemo.Keys, rank)
  {
    forall n :: n in memo ==> n in defs && memo[n] == Eval(defs[n], defs, beatMemo, rank)
  }

  /** With a sound memo, reduction gives the memo-free meaning and leaves a sound memo. */
  lemma {:induction false} ReduceClipSound(e: ClipExpression, defs: map<string, ClipExpression>, memo: ClipMemo,
                                           beatMemo: BeatMemo, rank: map<string, nat>)
    requires ClipOk(e, defs, beatMemo.Keys, rank) && ClipDefsOk(defs, beatMemo.Keys, rank)
    requires ClipMemoSound(memo, defs, beatMemo, rank)
    ensures ReduceClip(e, defs, memo, beatMemo, rank).0 == Eval(e, defs, beatMemo, rank)
    ensures ClipMemoSound(ReduceClip(e, defs, memo, beatMemo, rank).1, defs, beatMemo, rank)
    decreases ClipRank(e, rank), e, 1
  {
    match e
    case Chain(a, b) =>
      ChainSound(a, b, defs, memo, beatMemo, rank);
    case Truncated(c, _) =>
      ReduceClipSound(c, defs, memo, beatMemo, rank);
    case RawVideo(_) =>
    case MultiVideo(_, _) =>
    case Reference(n) =>
      ReferenceSound(n, defs, memo, beatMemo, rank);
    case ApplyBeat(_, c) =>
      ReduceClipSound(c, defs, memo, beatMemo, rank);
  }

  /** The chain case of `ReduceClipSound`: the second operand sees the memo the first left. */
  lemma {:induction false} ChainSound(a: ClipExpression, b: ClipExpression, defs: map<string, ClipExpression>,
                                      memo: ClipMemo, beatMemo: BeatMemo, rank: map<string, nat>)
    requires ClipOk(Chain(a, b), defs, beatMemo.Keys, rank) && ClipDefsOk(defs, beatMemo.Keys, rank)
    requires ClipMemoSound(memo, defs, beatMemo, rank)
    ensures ReduceClip(Chain(a, b), defs, memo, beatMemo, rank).0 == Eval(Chain(a, b), defs, beatMemo, rank)
    ensures ClipMemoSound(ReduceClip(Chain(a, b), defs, memo, beatMemo, rank).1, defs, beatMemo, rank)
    decreases ClipRank(Chain(a, b), rank), Chain(a, b), 0
  {
    ReduceClipSound(a, defs, memo, beatMemo, rank);
    ReduceClipSound(b, defs, ReduceClip(a, defs, memo, beatMemo, rank).1, beatMemo, rank);
  }

  /** The reference case of `ReduceClipSound`: a hit is sound by the memo, a miss caches the
      meaning of the definition. */
  lemma {:induction false} ReferenceSound(n: string, defs: map<string, ClipExpression>, memo: ClipMemo,
                                          beatMemo: BeatMemo, rank: map<string, nat>)
    requires ClipOk(Reference(n), defs, beatMemo.Keys, rank) && ClipDefsOk(defs, beatMemo.Keys, rank)
    requires ClipMemoSound(memo, defs, beatMemo, rank)
    ensures ReduceClip(Reference(n), defs, memo, beatMemo, rank).0 == Eval(Reference(n), defs, beatMemo, rank)
    ensures ClipMemoSound(ReduceClip(Reference(n), defs, memo, beatMemo, rank).1, defs, beatMemo, rank)
    decreases ClipRank(Reference(n), rank), Reference(n), 0
  {
    if n !in memo {
      ReduceClipSound(defs[n], defs, memo, beatMemo, rank);
    }
  }

  /** Every cached beat is what its definition reduces to without a memo. */
  ghost predicate BeatMemoSound(memo: BeatMemo, defs: map<string, BeatExpression>, rank: map<string, nat>)
    requires BeatDefsOk(defs, map[], rank)
  {
    forall n :: n in memo ==> n in defs && memo[n] == ReduceBeat(defs[n], defs, map[], rank).0
  }

  lemma BeatDefsOkAnyMemo(defs: map<string, BeatExpression>, memo: BeatMemo, rank: map<string, nat>)
    requires BeatDefsOk(defs, map[], rank)
    ensures BeatDefsOk(defs, memo, rank)
  {
    forall n | n in defs ensures BeatOk(defs[n], defs, memo, rank) {
      assert BeatOk(defs[n], defs, map[], rank);
    }
  }

  /** A sound beat memo does not change what a beat reduces to. */
  lemma {:induction false} ReduceBeatSound(b: BeatExpression, defs: map<string, BeatExpression>, memo: BeatMemo,
                                           rank: map<string, nat>)
    requires BeatOk(b, defs, map[], rank) && BeatDefsOk(defs, map[], rank)
    requires BeatMemoSound(memo, defs, rank)
    ensures BeatDefsOk(defs, memo, rank) && BeatOk(b, defs, memo, rank)
    ensures ReduceBeat(b, defs, memo, rank).0 == ReduceBeat(b, defs, map[], rank).0
    decreases BeatRank(b, rank), b
  {
    BeatDefsOkAnyMemo(defs, memo, rank);
    match b
    case DotBeat(_) =>
    case NumberBeat(_) =>
    case BeatChain(x, y) =>
      ReduceBeatSound(x, defs, memo, rank);
      ReduceBeatSound(y, defs, memo, rank);
    case ReferenceBeat(n) =>
      if n !in memo {
        ReduceBeatSound(defs[n], defs, memo, rank);
      }
  }

  // ---------------------------------------------------------------------------------------
  // The program: `reduce`
  // ---------------------------------------------------------------------------------------

  /** The beat declarations collected into a map; a later declaration of a name wins. */
  function BeatDefs(decls: seq<Declaration>): (r: map<string, BeatExpression>)
    ensures forall n :: n in r <==> exists i :: 0 <= i < |decls| && decls[i].BeatDeclaration? && decls[i].name == n
  {
    if decls == [] then map[]
    else
      var init := BeatDefs(decls[..|decls| - 1]);
      match decls[|decls| - 1]
      case BeatDeclaration(n, b) => init[n := b]
      case ClipDeclaration(_, _) => init
  }

  /** The clip declarations collected into a map; a later declaration of a name wins. */
  function ClipDefs(decls: seq<Declaration>): (r: map<string, ClipExpression>)
    ensures forall n :: n in r <==> exists i :: 0 <= i < |decls| && decls[i].ClipDeclaration? && decls[i].name == n
  {
    if decls == [] then map[]
    else
      var init := ClipDefs(decls[..|decls| - 1]);
      match decls[|decls| - 1]
      case ClipDeclaration(n, c) => init[n := c]
      case BeatDeclaration(_, _) => init
  }

  /** `collect()` keeps the last: the map holds the expression of the last declaration of a name. */
  lemma {:induction false} LastDeclarationWins(decls: seq<Declaration>, i: int)
    requires 0 <= i < |decls|
    requires forall j :: i < j < |decls| ==> decls[j].name != decls[i].name || decls[j].ClipDeclaration? != decls[i].ClipDeclaration?
    ensures decls[i].BeatDeclaration? ==> BeatDefs(decls)[decls[i].name] == decls[i].beatExpression
    ensures decls[i].ClipDeclaration? ==> ClipDefs(decls)[decls[i].name] == decls[i].clipExpression
  {
    var init := decls[..|decls| - 1];
    if i < |decls| - 1 {
      LastDeclarationWins(init, i);
    }
  }

  /** The first fold of `reduce`: each named beat in iteration order, reduced against the memo so far. */
  function FoldBeats(order: seq<string>, defs: map<string, BeatExpression>, acc: BeatMemo, rank: map<string, nat>)
    : (r: BeatMemo)
    requires forall k :: 0 <= k < |order| ==> order[k] in defs
    requires BeatDefsOk(defs, map[], rank)
    ensures forall n :: n in r <==> n in acc || n in order
    ensures BeatMemoWF(acc) ==> BeatMemoWF(r)
    decreases |order|
  {
    if order == [] then acc
    else
      var n := order[0];
      BeatDefsOkAnyMemo(defs, acc, rank);
      FoldBeats(order[1..], defs, acc[n := ReduceBeat(defs[n], defs, acc, rank).0], rank)
  }

  /** The second fold of `reduce`: each named clip in iteration order, threading the memo. */
  function FoldClips(order: seq<string>, defs: map<string, ClipExpression>, acc: ClipMemo, beatMemo: BeatMemo,
                     rank: map<string, nat>): (r: ClipMemo)
    requires forall k :: 0 <= k < |order| ==> order[k] in defs
    requires ClipDefsOk(defs, beatMemo.Keys, rank)
    ensures forall n :: n in acc ==> n in r
    ensures forall n :: n in order ==> n in r
    ensures ClipMemoWF(acc) && BeatMemoWF(beatMemo) && DefsRangesOrdered(defs) ==> ClipMemoWF(r)
    decreases |order|
  {
    if order == [] then acc
    else
      var n := order[0];
      var (res, m) := ReduceClip(defs[n], defs, acc, beatMemo, rank);
      if ClipMemoWF(acc) && BeatMemoWF(beatMemo) && DefsRangesOrdered(defs) then
        ReduceClipKeepsWF(defs[n], defs, acc, beatMemo, rank);
        FoldClips(order[1..], defs, m[n := res], beatMemo, rank)
      else FoldClips(order[1..], defs, m[n := res], beatMemo, rank)
  }

  /** Every cached beat is its definition reduced. */
  function BeatTable(defs: map<string, BeatExpression>, rank: map<string, nat>): (r: BeatMemo)
    requires BeatDefsOk(defs, map[], rank)
    ensures r.Keys == defs.Keys && BeatMemoSound(r, defs, rank)
  {
    map n | n in defs :: ReduceBeat(defs[n], defs, map[], rank).0
  }

  /** What `reduce` needs of a program: `order` lists each declared name (the hash maps'
      iteration order is not fixed), the ranks witness that no definition refers to itself
      through a chain of references, and every name used is declared. */
  ghost predicate ProgramOk(m: Main, beatOrder: seq<string>, clipOrder: seq<string>,
                            beatRank: map<string, nat>, clipRank: map<string, nat>)
  {
    DefsOk(m.mainExpression, BeatDefs(m.declarations), ClipDefs(m.declarations), beatOrder, clipOrder, beatRank, clipRank)
  }

  /** The same, for the two maps `collect()` built. */
  ghost predicate DefsOk(e: ClipExpression, beatDefs: map<string, BeatExpression>, clipDefs: map<string, ClipExpression>,
                         beatOrder: seq<string>, clipOrder: seq<string>, beatRank: map<string, nat>, clipRank: map<string, nat>)
  {
    (forall n :: n in beatOrder <==> n in beatDefs) &&
    (forall n :: n in clipOrder <==> n in clipDefs) &&
    BeatDefsOk(beatDefs, map[], beatRank) &&
    ClipDefsOk(clipDefs, beatDefs.Keys, clipRank) &&
    ClipOk(e, clipDefs, beatDefs.Keys, clipRank)
  }

  lemma {:induction false} FoldBeatsSound(order: seq<string>, defs: map<string, BeatExpression>, acc: BeatMemo,
                                          rank: map<string, nat>)
    requires forall k :: 0 <= k < |order| ==> order[k] in defs
    requires BeatDefsOk(defs, map[], rank) && BeatMemoSound(acc, defs, rank)
    ensures BeatMemoSound(FoldBeats(order, defs, acc, rank), defs, rank)
    decreases |order|
  {
    if order != [] {
      var n := order[0];
      ReduceBeatSound(defs[n], defs, acc, rank);
      FoldBeatsSound(order[1..], defs, acc[n := ReduceBeat(defs[n], defs, acc, rank).0], rank);
    }
  }

  lemma {:induction false} FoldClipsSound(order: seq<string>, defs: map<string, ClipExpression>, acc: ClipMemo,
                                          beatMemo: BeatMemo, rank: map<string, nat>)
    requires forall k :: 0 <= k < |order| ==> order[k] in defs
    requires ClipDefsOk(defs, beatMemo.Keys, rank) && ClipMemoSound(acc, defs, beatMemo, rank)
    ensures ClipMemoSound(FoldClips(order, defs, acc, beatMemo, rank), defs, beatMemo, rank)
    decreases |order|
  {
    if order != [] {
      var n := order[0];
      ReduceClipSound(defs[n], defs, acc, beatMemo, rank);
      var (res, m) := ReduceClip(defs[n], defs, acc, beatMemo, rank);
      FoldClipsSound(order[1..], defs, m[n := res], beatMemo, rank);
    }
  }

  /** After the beat fold the memo is the table of all reduced beat definitions, whatever the order. */
  lemma FoldBeatsIsTable(order: seq<string>, defs: map<string, BeatExpression>, rank: map<string, nat>)
    requires forall n :: n in order <==> n in defs
    requires BeatDefsOk(defs, map[], rank)
    ensures FoldBeats(order, defs, map[], rank) == BeatTable(defs, rank)
  {
    FoldBeatsSound(order, defs, map[], rank);
  }

  /** `reduce`: fold the beats, fold the clips, then reduce the entry expression. */
  function Reduce(m: Main, beatOrder: seq<string>, clipOrder: seq<string>,
                  beatRank: map<string, nat>, clipRank: map<string, nat>): (r: ReducedClip)
    requires ProgramOk(m, beatOrder, clipOrder, beatRank, clipRank)
    ensures RangesOrdered(m.mainExpression) && DefsRangesOrdered(ClipDefs(m.declarations)) ==> ClipWF(r)
  {
    ReduceDefs(m.mainExpression, BeatDefs(m.declarations), ClipDefs(m.declarations), beatOrder, clipOrder, beatRank, clipRank)
  }

  /** The folds and the final reduction of `reduce`, on the two maps. */
  function ReduceDefs(e: ClipExpression, beatDefs: map<string, BeatExpression>, clipDefs: map<string, ClipExpression>,
                      beatOrder: seq<string>, clipOrder: seq<string>, beatRank: map<string, nat>,
                      clipRank: map<string, nat>): (r: ReducedClip)
    requires DefsOk(e, beatDefs, clipDefs, beatOrder, clipOrder, beatRank, clipRank)
    ensures RangesOrdered(e) && DefsRangesOrdered(clipDefs) ==> ClipWF(r)
  {
    var beats := FoldBeats(beatOrder, beatDefs, map[], beatRank);
    assert beats.Keys == beatDefs.Keys;
    var clips := FoldClips(clipOrder, clipDefs, map[], beats, clipRank);
    if RangesOrdered(e) && DefsRangesOrdered(clipDefs) then
      ReduceClipKeepsWF(e, clipDefs, clips, beats, clipRank);
      ReduceClip(e, clipDefs, clips, beats, clipRank).0
    else ReduceClip(e, clipDefs, clips, beats, clipRank).0
  }

  /** `reduce` means the memo-free reduction of the entry expression against the table of
      reduced beats; the memos and the iteration order of the folds do not show in the result. */
  lemma ReduceIsEval(m: Main, beatOrder: seq<string>, clipOrder: seq<string>,
                     beatRank: map<string, nat>, clipRank: map<string, nat>)
    requires ProgramOk(m, beatOrder, clipOrder, beatRank, clipRank)
    ensures var beatDefs := BeatDefs(m.declarations);
            Reduce(m, beatOrder, clipOrder, beatRank, clipRank) ==
            Eval(m.mainExpression, ClipDefs(m.declarations), BeatTable(beatDefs, beatRank), clipRank)
  {
    ReduceDefsIsEval(m.mainExpression, BeatDefs(m.declarations), ClipDefs(m.declarations), beatOrder, clipOrder,
                     beatRank, clipRank);
  }

  lemma ReduceDefsIsEval(e: ClipExpression, beatDefs: map<string, BeatExpression>, clipDefs: map<string, ClipExpression>,
                         beatOrder: seq<string>, clipOrder: seq<string>, beatRank: map<string, nat>,
                         clipRank: map<string, nat>)
    requires DefsOk(e, beatDefs, clipDefs, beatOrder, clipOrder, beatRank, clipRank)
    ensures ReduceDefs(e, beatDefs, clipDefs, beatOrder, clipOrder, beatRank, clipRank) ==
            Eval(e, clipDefs, BeatTable(beatDefs, beatRank), clipRank)
  {
    FoldBeatsIsTable(beatOrder, beatDefs, beatRank);
    var beats := FoldBeats(beatOrder, beatDefs, map[], beatRank);
    assert beats.Keys == beatDefs.Keys;
    FoldClipsIsEval(e, clipDefs, clipOrder, beats, clipRank);
  }

  /** After the clip fold, reducing the entry expression gives its memo-free meaning. */
  lemma FoldClipsIsEval(e: ClipExpression, defs: map<string, ClipExpression>, order: seq<string>, beats: BeatMemo,
                        rank: map<string, nat>)
    requires forall n :: n in order <==> n in defs
    requires ClipDefsOk(defs, beats.Keys, rank) && ClipOk(e, defs, beats.Keys, rank)
    ensures ReduceClip(e, defs, FoldClips(order, defs, map[], beats, rank), beats, rank).0 == Eval(e, defs, beats, rank)
  {
    FoldClipsSound(order, defs, map[], beats, rank);
    ReduceClipSound(e, defs, FoldClips(order, defs, map[], beats, rank), beats, rank);
  }

  /** The result does not depend on the order the hash maps hand out their entries. */
  lemma ReduceOrderIrrelevant(m: Main, beatOrder: seq<string>, clipOrder: seq<string>,
                              beatOrder': seq<string>, clipOrder': seq<string>,
                              beatRank: map<string, nat>, clipRank: map<string, nat>)
    requires ProgramOk(m, beatOrder, clipOrder, beatRank, clipRank)
    requires ProgramOk(m, beatOrder', clipOrder', beatRank, clipRank)
    ensures Reduce(m, beatOrder, clipOrder, beatRank, clipRank) == Reduce(m, beatOrder', clipOrder', beatRank, clipRank)
  {
    ReduceIsEval(m, beatOrder, clipOrder, beatRank, clipRank);
    ReduceIsEval(m, beatOrder', clipOrder', beatRank, clipRank);
  }

  // ---------------------------------------------------------------------------------------
  // The truncation offset as reducer.rs writes it
  // ---------------------------------------------------------------------------------------

  /** reducer.rs rewrites `PlayClipFrom(p, o)` and `PlayMultiFrom(p, o, n)` with `o + from`,
      whatever the command's own stamp `t` was; only `o + (from - t)` keeps the playback
      position, and the two differ as soon as t > 0. */
  function RewriteAsWritten(cmd: ClipCommand, t: Time, from: Time): ClipCommand
  {
    var late := Time(-t.num, t.denom);
    match cmd
    case PlayClip(p) => PlayClipFrom(p, late)
    case PlayClipFrom(p, o) => PlayClipFrom(p, TimeAdd(o, from))
    case PlayMulti(p, n) => PlayMultiFrom(p, late, n)
    case PlayMultiFrom(p, o, n) => PlayMultiFrom(p, TimeAdd(o, from), n)
    case MultiNext => MultiNext
  }

  /** The loop body of `reduce_truncate_expression` exactly as written. */
  function TruncateCommandAsWritten(c: TimedCommand, from: Time): (r: TimedCommand)
    ensures r.0.num >= 0
    ensures TimedWF(c) && from.num >= 0 && from.Value() <= c.0.Value() ==> r == TruncateCommand(c, from)
  {
    var t := TimeSub(c.0, from);
    if t.num < 0 then (Zero, RewriteAsWritten(c.1, t, from)) else (t, c.1)
  }

  /** `clip x = 'a' | 'b'[1.2:]; x[5.3:]`: the chain puts `PlayClipFrom("b", 1/16)` at time 1, and
      the outer truncation from 18/16 cuts 2/16 into it, so playback should start 3/16 into
      "b"; as written it starts at 19/16, past the end of the one-beat clip. */
  lemma TruncationOffsetAsWritten()
    ensures var c := (Time(1, 1), PlayClipFrom("b", Time(1, 16)));
            var from := Time(18, 16);
            TruncateCommandAsWritten(c, from).1.StartOffset().Value() == 19.0 / 16.0 &&
            TruncateCommand(c, from).1.StartOffset().Value() == 3.0 / 16.0
  {
    var c := (Time(1, 1), PlayClipFrom("b", Time(1, 16)));
    var from := Time(18, 16);
    var t := TimeSub(c.0, from);
    assert c.0.Value() == 1.0 && from.Value() == 18.0 / 16.0;
    assert t.Value() == -2.0 / 16.0 && t.num < 0;
    AsWrittenStart(c, from, t);
    CorrectedStart(c, from);
  }

  lemma AsWrittenStart(c: TimedCommand, from: Time, t: Time)
    requires c == (Time(1, 1), PlayClipFrom("b", Time(1, 16))) && from == Time(18, 16)
    requires t == TimeSub(c.0, from) && t.num < 0
    ensures TruncateCommandAsWritten(c, from).1.StartOffset().Value() == 19.0 / 16.0
  {
    var shifted := TimeAdd(Time(1, 16), from);
    assert TruncateCommandAsWritten(c, from).1.StartOffset() == shifted;
    assert Time(1, 16).Value() == 1.0 / 16.0 && from.Value() == 18.0 / 16.0;
    assert shifted.Value() == 19.0 / 16.0;
  }

  lemma CorrectedStart(c: TimedCommand, from: Time)
    requires c == (Time(1, 1), PlayClipFrom("b", Time(1, 16))) && from == Time(18, 16)
    ensures TruncateCommand(c, from).1.StartOffset().Value() == 3.0 / 16.0
  {
    assert TimedWF(c) && c.1.StartOffset() == Time(1, 16);
    assert c.0.Value() == 1.0 && from.Value() == 18.0 / 16.0 && Time(1, 16).Value() == 1.0 / 16.0;
  }

  // ---------------------------------------------------------------------------------------
  // The in-place loops over the command vector
  // ---------------------------------------------------------------------------------------

  /** `for command in &mut clip_b.commands { command.0 = &command.0 + &clip_a.length }`. */
  method ShiftInPlace(a: array<TimedCommand>, shift: Time)
    modifies a
    ensures a[..] == ShiftCommands(old(a[..]), shift)
  {
    for i := 0 to a.Length
      invariant forall k :: 0 <= k < i ==> a[k] == (TimeAdd(old(a[k]).0, shift), old(a[k]).1)
      invariant forall k :: i <= k < a.Length ==> a[k] == old(a[k])
    {
      a[i] := (TimeAdd(a[i].0, shift), a[i].1);
    }
  }

  /** The `for command in &mut clip.commands` loop of the truncation. */
  method TruncateInPlace(a: array<TimedCommand>, from: Time)
    modifies a
    ensures a[..] == TruncateCommands(old(a[..]), from)
  {
    ghost var s := a[..];
    ghost var r := TruncateCommands(s, from);
    for i := 0 to a.Length
      invariant forall k :: 0 <= k < i ==> a[k] == r[k]
      invariant forall k :: i <= k < a.Length ==> a[k] == s[k]
    {
      a[i] := TruncateCommand(a[i], from);
    }
    assert a[..] == r;
  }

  lemma KeepBeforeStep(s: seq<TimedCommand>, i: int, to: Time)
    requires 0 <= i < |s|
    ensures KeepBefore(s[..i + 1], to) == KeepBefore(s[..i], to) + (if CommandKey(s[i]) < TimeKey(to) then [s[i]] else [])
  {
    assert s[..i + 1][..i] == s[..i];
  }

  /** `retain`: the kept commands are compacted to the front, in order; `k` is the new length. */
  method RetainInPlace(a: array<TimedCommand>, to: Time) returns (k: nat)
    modifies a
    ensures k <= a.Length && a[..k] == KeepBefore(old(a[..]), to)
  {
    k := 0;
    ghost var s := a[..];
    for i := 0 to a.Length
      invariant k <= i
      invariant a[..k] == KeepBefore(s[..i], to)
      invariant forall j :: i <= j < a.Length ==> a[j] == s[j]
    {
      KeepBeforeStep(s, i, to);
      if CommandKey(a[i]) < TimeKey(to) {
        ghost var kept := a[..k];
        a[k] := a[i];
        assert a[..k + 1] == kept + [s[i]];
        k := k + 1;
      }
    }
    assert s[..a.Length] == s;
  }

  /** `clip.commands.append(&mut beat_commands); clip.commands.sort_by_key(...)`. */
  method AppendAndSort(a: array<TimedCommand>, cues: seq<TimedCommand>) returns (b: array<TimedCommand>)
    ensures fresh(b) && b[..] == SortByKey(a[..] + cues, CommandKey)
  {
    b := new TimedCommand[a.Length + |cues|](_ => (Zero, MultiNext));
    for i := 0 to a.Length
      invariant forall k :: 0 <= k < i ==> b[k] == a[k]
    {
      b[i] := a[i];
    }
    for i := 0 to |cues|
      invariant forall k :: 0 <= k < a.Length ==> b[k] == a[k]
      invariant forall k :: 0 <= k < i ==> b[a.Length + k] == cues[k]
    {
      b[a.Length + i] := cues[i];
    }
    assert b[..] == a[..] + cues;
    SortInPlace(b, CommandKey);
  }
}
