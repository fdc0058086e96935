/** interpreter.rs: the layered scheduler. Each tick it dispatches the commands that are due,
    snapshots one frame instruction per layer, advances the frame counters and the beat
    position, and wraps around at the end of the loop. */
module Interpretation {
  import opened Wrappers
  import opened TimeAlgebra
  import opened Text
  import opened Schedule

  /** The scheduler's own command type, as interpreter.rs matches on it: plays carry the layer
      they write to; the multi plays always write layer 0. */
  datatype Command =
    | PlayClip(name: string, layer: nat)
    | PlayClipFrom(name: string, layer: nat, offset: Time)
    | PlayMulti(name: string, subsAmt: nat, extension: string)
    | PlayMultiFrom(name: string, offset: Time, subsAmt: nat, extension: string)
    | MultiNext(layer: nat)
    | Stop(layer: nat)
  {
    /** `command.layer()`: the layer a command addresses (0 for the multi plays). */
    function Layer(): nat
    {
      match this
      case PlayMulti(_, _, _) => 0
      case PlayMultiFrom(_, _, _, _) => 0
      case PlayClip(_, l) => l
      case PlayClipFrom(_, l, _) => l
      case MultiNext(l) => l
      case Stop(l) => l
    }
  }

  type TimedCommand = (Time, Command)

  datatype DisplayState =
    | Blank
    | Single(file: string, frame: nat)
    | Multi(file: string, sub: nat, frame: nat, subsAmt: nat, extension: string)

  datatype FrameCommand =
    | ShowSingleFrame(file: string, frame: nat)
    | ShowNone

  /** The one index a command can panic on: a play or stop on a layer beyond the one that the
      push before it can create. `MultiNext` reads with `get_mut` and never panics. */
  predicate Fits(ds: seq<DisplayState>, c: Command)
  {
    c.MultiNext? || c.Layer() <= |ds|
  }

  /** The layer count grows to make room for the command's layer, by one `Blank` at most. */
  function Grow(ds: seq<DisplayState>, c: Command): (r: seq<DisplayState>)
    ensures |r| == if |ds| <= c.Layer() then |ds| + 1 else |ds|
    ensures r[..|ds|] == ds
  {
    if |ds| <= c.Layer() then ds + [Blank] else ds
  }

  /** A `MultiNext` cue on a multi layer: the next sub-clip, back to 0 at `subs_amt`. */
  function NextSub(d: DisplayState): (r: DisplayState)
    requires d.Multi?
    ensures r.Multi? && r.file == d.file && r.frame == d.frame && r.subsAmt == d.subsAmt
    ensures r.extension == d.extension
    ensures d.sub < d.subsAmt ==> r.sub == (d.sub + 1) % d.subsAmt
    ensures d.subsAmt == 0 ==> r.sub == 0
  {
    var sub := d.sub + 1;
    d.(sub := if sub >= d.subsAmt then 0 else sub)
  }

  /** One iteration of the dispatch loop's body on the display states. */
  function Apply(ds: seq<DisplayState>, c: Command, bpm: real): (r: seq<DisplayState>)
    requires Fits(ds, c)
  {
    var g := Grow(ds, c);
    match c
    case PlayClip(name, layer) => g[layer := Single(name, 0)]
    case PlayClipFrom(name, layer, offset) => g[layer := Single(name, FrameOf(offset.Value() * bpm))]
    case PlayMulti(name, subsAmt, extension) => g[0 := Multi(name, 0, 0, subsAmt, extension)]
    case PlayMultiFrom(name, offset, subsAmt, extension) =>
      g[0 := Multi(name, 0, FrameOf(offset.Value() * bpm), subsAmt, extension)]
    case MultiNext(layer) => if layer < |g| && g[layer].Multi? then g[layer := NextSub(g[layer])] else g
    case Stop(layer) => g[layer := Blank]
  }

  /** The dispatch loop on a run of commands, applied in order; `None` when one of them
      indexes past the layers, where interpreter.rs panics. */
  function ApplyAll(ds: seq<DisplayState>, cs: seq<TimedCommand>, bpm: real): Option<seq<DisplayState>>
  {
    if cs == [] then Some(ds)
    else
      var before := ApplyAll(ds, cs[..|cs| - 1], bpm);
      if before.Some? && Fits(before.value, cs[|cs| - 1].1) then Some(Apply(before.value, cs[|cs| - 1].1, bpm))
      else None
  }

  /** None of the commands panics. */
  predicate Safe(ds: seq<DisplayState>, cs: seq<TimedCommand>, bpm: real)
  {
    ApplyAll(ds, cs, bpm).Some?
  }

  lemma {:induction false} SafePrefix(ds: seq<DisplayState>, cs: seq<TimedCommand>, k: nat, bpm: real)
    requires Safe(ds, cs, bpm) && k <= |cs|
    ensures Safe(ds, cs[..k], bpm)
    decreases |cs|
  {
    if k < |cs| {
      assert cs[..|cs| - 1][..k] == cs[..k];
      SafePrefix(ds, cs[..|cs| - 1], k, bpm);
    } else {
      assert cs[..k] == cs;
    }
  }

  /** The layer count never shrinks while dispatching, and grows by at most one per command. */
  lemma {:induction false} ApplyAllLayers(ds: seq<DisplayState>, cs: seq<TimedCommand>, bpm: real)
    requires Safe(ds, cs, bpm)
    ensures |ds| <= |ApplyAll(ds, cs, bpm).value| <= |ds| + |cs|
  {
    if cs != [] {
      ApplyAllLayers(ds, cs[..|cs| - 1], bpm);
    }
  }

  /** Commands that all address layers the display already has never panic, whatever their
      order: the layer count only grows while dispatching. */
  lemma {:induction false} LowLayersSafe(ds: seq<DisplayState>, cs: seq<TimedCommand>, bpm: real)
    requires forall i :: 0 <= i < |cs| ==> cs[i].1.Layer() <= |ds|
    ensures Safe(ds, cs, bpm)
  {
    if cs != [] {
      var init := cs[..|cs| - 1];
      assert forall i :: 0 <= i < |init| ==> init[i] == cs[i];
      LowLayersSafe(ds, init, bpm);
      ApplyAllLayers(ds, init, bpm);
    }
  }

  /** The multi plays write layer 0 and nothing else. */
  lemma MultiWritesLayerZero(ds: seq<DisplayState>, c: Command, bpm: real)
    requires c.PlayMulti? || c.PlayMultiFrom?
    ensures Fits(ds, c)
    ensures var r := Apply(ds, c, bpm);
      |r| == if ds == [] then 1 else |ds|
    ensures var r := Apply(ds, c, bpm);
      r[0].Multi? && r[0].sub == 0 && r[0].file == c.name && r[0].subsAmt == c.subsAmt &&
      forall i :: 1 <= i < |ds| ==> r[i] == ds[i]
  {
  }

  /** `MultiNext` on a layer that is not showing a multi clip only makes room for it. */
  lemma MultiNextElsewhere(ds: seq<DisplayState>, layer: nat, bpm: real)
    requires layer >= |ds| || !ds[layer].Multi?
    ensures Apply(ds, MultiNext(layer), bpm) == Grow(ds, MultiNext(layer))
  {
  }

  /** A multi layer's sub-clip index stays below its sub-clip count (or is 0 when there are
      none), so the file it shows is one of its sub-clips. */
  predicate SubInRange(d: DisplayState)
  {
    d.Multi? ==> d.sub < d.subsAmt || d.sub == 0
  }

  predicate SubsInRange(ds: seq<DisplayState>)
  {
    forall i :: 0 <= i < |ds| ==> SubInRange(ds[i])
  }

  lemma ApplyKeepsSubsInRange(ds: seq<DisplayState>, c: Command, bpm: real)
    requires Fits(ds, c) && SubsInRange(ds)
    ensures SubsInRange(Apply(ds, c, bpm))
  {
    var g := Grow(ds, c);
    assert forall i :: 0 <= i < |g| ==> SubInRange(g[i]) by {
      forall i | 0 <= i < |g| ensures SubInRange(g[i]) {
        if i < |ds| { assert g[i] == g[..|ds|][i] == ds[i]; }
      }
    }
  }

  lemma {:induction false} ApplyAllKeepsSubsInRange(ds: seq<DisplayState>, cs: seq<TimedCommand>, bpm: real)
    requires Safe(ds, cs, bpm) && SubsInRange(ds)
    ensures SubsInRange(ApplyAll(ds, cs, bpm).value)
  {
    if cs != [] {
      ApplyAllKeepsSubsInRange(ds, cs[..|cs| - 1], bpm);
      ApplyKeepsSubsInRange(ApplyAll(ds, cs[..|cs| - 1], bpm).value, cs[|cs| - 1].1, bpm);
    }
  }

  /** The frame instruction of one layer; a multi layer shows `{file}_{sub}{extension}`. */
  function Show(d: DisplayState): (r: FrameCommand)
    ensures r.ShowNone? <==> d.Blank?
    ensures d.Single? ==> r == ShowSingleFrame(d.file, d.frame)
    ensures d.Multi? ==> r == ShowSingleFrame(d.file + "_" + DecimalString(d.sub) + d.extension, d.frame)
  {
    match d
    case Blank => ShowNone
    case Single(file, frame) => ShowSingleFrame(file, frame)
    case Multi(file, sub, frame, _, extension) => ShowSingleFrame(file + "_" + DecimalString(sub) + extension, frame)
  }

  /** The file name of a multi layer's frame names the sub-clip it is on, digits and all. */
  lemma MultiFileName(d: DisplayState)
    requires d.Multi?
    ensures var f := Show(d).file;
      f[..|d.file| + 1] == d.file + "_" && f[|f| - |d.extension|..] == d.extension &&
      DecimalValue(f[|d.file| + 1..|f| - |d.extension|]) == d.sub
  {
    var f := Show(d).file;
    var digits := DecimalString(d.sub);
    assert f == d.file + "_" + digits + d.extension;
    assert f[|d.file| + 1..|f| - |d.extension|] == digits;
    DecimalRoundTrip(d.sub);
  }

  /** One frame instruction per layer, in layer order. */
  function Snapshot(ds: seq<DisplayState>): (r: seq<FrameCommand>)
    ensures |r| == |ds| && forall i :: 0 <= i < |ds| ==> r[i] == Show(ds[i])
  {
    seq(|ds|, i requires 0 <= i < |ds| => Show(ds[i]))
  }

  /** The frame counter of a showing layer moves on by one. */
  function Tick(d: DisplayState): (r: DisplayState)
    ensures d.Blank? ==> r == d
    ensures d.Single? ==> r == Single(d.file, d.frame + 1)
    ensures d.Multi? ==> r == Multi(d.file, d.sub, d.frame + 1, d.subsAmt, d.extension)
  {
    match d
    case Blank => Blank
    case Single(file, frame) => Single(file, frame + 1)
    case Multi(file, sub, frame, subsAmt, extension) => Multi(file, sub, frame + 1, subsAmt, extension)
  }

  function TickAll(ds: seq<DisplayState>): (r: seq<DisplayState>)
    ensures |r| == |ds| && forall i :: 0 <= i < |ds| ==> r[i] == Tick(ds[i])
  {
    seq(|ds|, i requires 0 <= i < |ds| => Tick(ds[i]))
  }

  /** Ticking changes only frame counters: the next snapshot shows the same files, each one
      frame further on. */
  lemma TickAdvancesSnapshot(ds: seq<DisplayState>)
    ensures |Snapshot(TickAll(ds))| == |Snapshot(ds)|
    ensures forall i :: 0 <= i < |ds| ==>
      (Snapshot(ds)[i].ShowNone? ==> Snapshot(TickAll(ds))[i] == ShowNone) &&
      (Snapshot(ds)[i].ShowSingleFrame? ==>
        Snapshot(TickAll(ds))[i] == ShowSingleFrame(Snapshot(ds)[i].file, Snapshot(ds)[i].frame + 1))
    ensures SubsInRange(ds) ==> SubsInRange(TickAll(ds))
  {
  }

  /** One due command more: it can be applied, and the run dispatched so far grows by it. */
  lemma DispatchStep(ds0: seq<DisplayState>, cmds: seq<TimedCommand>, from: nat, idx: nat, now: real, bpm: real,
                     ds: seq<DisplayState>)
    requires from <= idx < |cmds| && idx < DueEnd(cmds, from, now)
    requires Safe(ds0, Due(cmds, from, now), bpm) && ApplyAll(ds0, Run(cmds, from, idx), bpm) == Some(ds)
    requires Run(cmds, from, idx + 1) == Run(cmds, from, idx) + [cmds[idx]]
    ensures Fits(ds, cmds[idx].1)
    ensures ApplyAll(ds0, Run(cmds, from, idx + 1), bpm) == Some(Apply(ds, cmds[idx].1, bpm))
  {
    var end := DueEnd(cmds, from, now);
    var r, q := Run(cmds, from, idx + 1), Run(cmds, from, end);
    assert q == Due(cmds, from, now);
    RunPrefix(cmds, from, idx + 1, end);
    SafePrefix(ds0, q, |r|, bpm);
    assert q[..|r|] == r;
    ApplyAllSnoc(ds0, Run(cmds, from, idx), cmds[idx], bpm, ds);
  }

  /** Dispatching one command more than a run that did not panic applies that command. */
  lemma ApplyAllSnoc(ds0: seq<DisplayState>, p: seq<TimedCommand>, c: TimedCommand, bpm: real, ds: seq<DisplayState>)
    requires ApplyAll(ds0, p, bpm) == Some(ds)
    ensures ApplyAll(ds0, p + [c], bpm) == if Fits(ds, c.1) then Some(Apply(ds, c.1, bpm)) else None
  {
    assert (p + [c])[..|p|] == p;
  }

  /** The `'find_command` loop on the cursor and the layers: applies the due commands in
      order and leaves the cursor where `DueEnd` says. */
  method DispatchLoop(cmds: seq<TimedCommand>, idx0: nat, ds0: seq<DisplayState>, now: real, rate: real)
    returns (idx: nat, ds: seq<DisplayState>)
    requires Safe(ds0, Due(cmds, idx0, now), rate)
    ensures idx == DueEnd(cmds, idx0, now)
    ensures Some(ds) == ApplyAll(ds0, Due(cmds, idx0, now), rate)
  {
    idx, ds := idx0, ds0;
    ghost var done: seq<TimedCommand> := [];
    while idx <= |cmds| && !(idx < |cmds| && cmds[idx].0.Value() > now)
      invariant idx0 <= idx && DueEnd(cmds, idx, now) == DueEnd(cmds, idx0, now)
      invariant done == Run(cmds, idx0, idx)
      invariant ApplyAll(ds0, done, rate) == Some(ds)
      decreases |cmds| + 1 - idx
    {
      CursorStep(cmds, idx0, idx, now);
      if idx < |cmds| {
        var c := cmds[idx];
        DispatchStep(ds0, cmds, idx0, idx, now, rate, ds);
        ds := Apply(ds, c.1, rate);
        done := done + [c];
      }
      idx := idx + 1;
    }
    CursorStop(cmds, idx0, idx, now);
  }

  /** How far one tick of `seconds` moves the beat position: `bpm·seconds/(fps·4)`. */
  function TickBeats(bpm: real, seconds: real, fps: real): real
    requires fps != 0.0
  {
    bpm * seconds / (fps * 4.0)
  }

  class Interpreter {
    var fps: real
    var time: real
    var bpm: real
    var beats: real
    var displayState: seq<DisplayState>
    var commands: seq<TimedCommand>
    var commandsIdx: nat
    var loopLength: real

    /** What the next `advance_time` needs: the due commands do not index past the layers. */
    predicate CanAdvance()
      reads this
    {
      Safe(displayState, Due(commands, commandsIdx, beats), bpm)
    }

    /** `Interpreter::new`: one blank layer, cursor, beats and time at 0. */
    constructor (fps: real, bpm: real, commands: seq<TimedCommand>, loopLength: real)
      ensures this.fps == fps && this.bpm == bpm && this.commands == commands
      ensures this.loopLength == loopLength
      ensures time == 0.0 && beats == 0.0 && commandsIdx == 0 && displayState == [Blank]
    {
      this.fps := fps;
      this.bpm := bpm;
      time := 0.0;
      beats := 0.0;
      commandsIdx := 0;
      displayState := [Blank];
      this.commands := commands;
      this.loopLength := loopLength;
    }

    /** `set_commands`: a new program; the cursor, position and layers are kept. */
    method SetCommands(commands: seq<TimedCommand>, loopLength: real)
      modifies this
      ensures this.commands == commands && this.loopLength == loopLength
      ensures fps == old(fps) && time == old(time) && bpm == old(bpm) && beats == old(beats)
      ensures displayState == old(displayState) && commandsIdx == old(commandsIdx)
    {
      this.commands := commands;
      this.loopLength := loopLength;
    }

    method SetBpm(bpm: real)
      modifies this
      ensures this.bpm == bpm
      ensures fps == old(fps) && time == old(time) && beats == old(beats) && loopLength == old(loopLength)
      ensures displayState == old(displayState) && commands == old(commands) && commandsIdx == old(commandsIdx)
    {
      this.bpm := bpm;
    }

    /** `reset_beat`: back to the start of the loop with no layers. */
    method ResetBeat()
      modifies this
      ensures beats == 0.0 && time == 0.0 && displayState == [] && commandsIdx == 0
      ensures fps == old(fps) && bpm == old(bpm) && loopLength == old(loopLength) && commands == old(commands)
    {
      beats := 0.0;
      time := 0.0;
      displayState := [];
      commandsIdx := 0;
    }

    /** The `'find_command` loop: dispatches the due commands in order and moves the cursor. */
    method Dispatch()
      requires CanAdvance()
      modifies this
      ensures commandsIdx == DueEnd(old(commands), old(commandsIdx), old(beats))
      ensures Some(displayState) == ApplyAll(old(displayState), Due(old(commands), old(commandsIdx), old(beats)), old(bpm))
      ensures fps == old(fps) && time == old(time) && bpm == old(bpm) && beats == old(beats)
      ensures commands == old(commands) && loopLength == old(loopLength)
    {
      commandsIdx, displayState := DispatchLoop(commands, commandsIdx, displayState, beats, bpm);
    }

    /** The layers' frame instructions, before anything advances. */
    method TakeSnapshot() returns (frames: seq<FrameCommand>)
      ensures frames == Snapshot(displayState)
    {
      frames := [];
      for i := 0 to |displayState|
        invariant |frames| == i && forall k :: 0 <= k < i ==> frames[k] == Show(displayState[k])
      {
        frames := frames + [Show(displayState[i])];
      }
    }

    /** The `for display_state in &mut self.display_state` loop. */
    method TickLayers()
      modifies this
      ensures displayState == TickAll(old(displayState))
      ensures fps == old(fps) && time == old(time) && bpm == old(bpm) && beats == old(beats)
      ensures commands == old(commands) && commandsIdx == old(commandsIdx) && loopLength == old(loopLength)
    {
      for i := 0 to |displayState|
        invariant |displayState| == |old(displayState)|
        invariant forall k :: 0 <= k < i ==> displayState[k] == Tick(old(displayState)[k])
        invariant forall k :: i <= k < |displayState| ==> displayState[k] == old(displayState)[k]
        invariant fps == old(fps) && time == old(time) && bpm == old(bpm) && beats == old(beats)
        invariant commands == old(commands) && commandsIdx == old(commandsIdx) && loopLength == old(loopLength)
      {
        displayState := displayState[i := Tick(displayState[i])];
      }
    }

    /** `advance_time`: dispatch, snapshot, advance by `bpm·seconds/(fps·4)` beats, wrap. */
    method AdvanceTime(seconds: real) returns (frames: seq<FrameCommand>)
      requires CanAdvance() && fps != 0.0
      modifies this
      ensures frames == Snapshot(ApplyAll(old(displayState), Due(old(commands), old(commandsIdx), old(beats)), old(bpm)).value)
      ensures beats == Wrap(old(beats), TickBeats(old(bpm), seconds, old(fps)), old(loopLength)).0
      ensures Wrap(old(beats), TickBeats(old(bpm), seconds, old(fps)), old(loopLength)).1 ==>
                time == 0.0 && displayState == [] && commandsIdx == 0
      ensures !Wrap(old(beats), TickBeats(old(bpm), seconds, old(fps)), old(loopLength)).1 ==>
                time == old(time) + seconds &&
                displayState == TickAll(ApplyAll(old(displayState), Due(old(commands), old(commandsIdx), old(beats)), old(bpm)).value) &&
                commandsIdx == DueEnd(old(commands), old(commandsIdx), old(beats))
      ensures fps == old(fps) && bpm == old(bpm) && commands == old(commands) && loopLength == old(loopLength)
    {
      Dispatch();
      frames := TakeSnapshot();
      Advance(seconds);
    }

    /** What `advance_time` does after the snapshot: time and beats move on, the layers tick,
        and past the end of the loop everything starts over. */
    method Advance(seconds: real)
      requires fps != 0.0
      modifies this
      ensures fps == old(fps) && bpm == old(bpm) && commands == old(commands) && loopLength == old(loopLength)
      ensures beats == Wrap(old(beats), TickBeats(bpm, seconds, fps), loopLength).0
      ensures Wrap(old(beats), TickBeats(bpm, seconds, fps), loopLength).1 ==>
                time == 0.0 && displayState == [] && commandsIdx == 0
      ensures !Wrap(old(beats), TickBeats(bpm, seconds, fps), loopLength).1 ==>
                time == old(time) + seconds && displayState == TickAll(old(displayState)) &&
                commandsIdx == old(commandsIdx)
    {
      time := time + seconds;
      beats := beats + TickBeats(bpm, seconds, fps);
      TickLayers();
      if beats > loopLength {
        beats := beats - loopLength;
        time := 0.0;
        displayState := [];
        commandsIdx := 0;
      }
    }
  }

  /** A tick keeps every multi layer on one of its sub-clips. */
  lemma AdvanceKeepsSubsInRange(ds: seq<DisplayState>, cmds: seq<TimedCommand>, idx: nat, beats: real, bpm: real)
    requires Safe(ds, Due(cmds, idx, beats), bpm) && SubsInRange(ds)
    ensures SubsInRange(TickAll(ApplyAll(ds, Due(cmds, idx, beats), bpm).value))
  {
    ApplyAllKeepsSubsInRange(ds, Due(cmds, idx, beats), bpm);
    TickAdvancesSnapshot(ApplyAll(ds, Due(cmds, idx, beats), bpm).value);
  }
}
