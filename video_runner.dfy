/** video_runner.rs: the single-layer scheduler that came before the layered one. It keeps one
    current file and frame, dispatches the due commands with the same cursor rule, reports the
    frame it is on and then moves time, beats and the frame on, wrapping at the loop's end. */
module Runner {
  import opened Wrappers
  import opened TimeAlgebra
  import opened Schedule

  /** The two commands video_runner.rs matches on; neither carries a layer. */
  datatype RunnerCommand =
    | PlayClip(name: string)
    | PlayClipFrom(name: string, offset: Time)

  type RunnerTimed = (Time, RunnerCommand)

  /** The file being shown (none before the first play and after a wrap) and its frame. */
  datatype Playhead = Playhead(file: Option<string>, frame: nat)

  datatype RunnerFrame = ShowSingleFrame(file: Option<string>, frame: nat)

  /** Where a play command puts the playhead: its file, at frame 0 or at `offset·bpm` cast to
      `usize`. Whatever was showing before is forgotten. */
  function Start(c: RunnerCommand, bpm: real): (r: Playhead)
    ensures r.file == Some(c.name)
    ensures c.PlayClip? ==> r.frame == 0
    ensures c.PlayClipFrom? && c.offset.Value() * bpm >= 0.0 ==>
      r.frame as real <= c.offset.Value() * bpm < r.frame as real + 1.0
    ensures c.PlayClipFrom? && c.offset.Value() * bpm < 0.0 ==> r.frame == 0
  {
    match c
    case PlayClip(name) => Playhead(Some(name), 0)
    case PlayClipFrom(name, offset) => Playhead(Some(name), FrameOf(offset.Value() * bpm))
  }

  /** The dispatch loop on a run of commands, applied in order. */
  function PlayAll(p: Playhead, cs: seq<RunnerTimed>, bpm: real): Playhead
  {
    if cs == [] then p else Start(cs[|cs| - 1].1, bpm)
  }

  /** The loop's state after one more command: that command's start. */
  lemma PlayAllStep(p: Playhead, cs: seq<RunnerTimed>, c: RunnerTimed, bpm: real)
    ensures PlayAll(p, cs + [c], bpm) == Start(c.1, bpm)
  {
    assert (cs + [c])[|cs + [c]| - 1] == c;
  }

  /** Only the last command due this tick matters: the playhead is where that one puts it,
      or where it was when nothing is due. */
  lemma {:induction false} LastDueWins(p: Playhead, cmds: seq<RunnerTimed>, idx: nat, beats: real, bpm: real)
    requires StampsSorted(cmds) && idx <= |cmds|
    ensures var e := Min(DueEnd(cmds, idx, beats), |cmds|);
      (e == idx ==> PlayAll(p, Due(cmds, idx, beats), bpm) == p) &&
      (e > idx ==> PlayAll(p, Due(cmds, idx, beats), bpm) == Start(cmds[e - 1].1, bpm) &&
                   cmds[e - 1].0.Value() <= beats && (e == |cmds| || cmds[e].0.Value() > beats))
  {
    var e := Min(DueEnd(cmds, idx, beats), |cmds|);
    var d := Due(cmds, idx, beats);
    assert |d| == e - idx;
    if e > idx {
      assert d[|d| - 1] == cmds[e - 1];
      DueExactly(cmds, idx, beats);
    }
  }

  /** How far one tick of `seconds` moves the beat position here: `fps·seconds/bpm`. */
  function RunnerTickBeats(fps: real, seconds: real, bpm: real): real
    requires bpm != 0.0
  {
    fps * seconds / bpm
  }

  /** The `'find_command` loop on the cursor and the playhead: applies the due commands in
      order and leaves the cursor where `DueEnd` says. */
  method DispatchLoop(cmds: seq<RunnerTimed>, idx0: nat, p0: Playhead, now: real, rate: real)
    returns (idx: nat, p: Playhead)
    ensures idx == DueEnd(cmds, idx0, now)
    ensures p == PlayAll(p0, Due(cmds, idx0, now), rate)
  {
    idx, p := idx0, p0;
    while idx <= |cmds| && !(idx < |cmds| && cmds[idx].0.Value() > now)
      invariant idx0 <= idx && DueEnd(cmds, idx, now) == DueEnd(cmds, idx0, now)
      invariant p == PlayAll(p0, Run(cmds, idx0, idx), rate)
      decreases |cmds| + 1 - idx
    {
      CursorStep(cmds, idx0, idx, now);
      if idx < |cmds| {
        var c := cmds[idx];
        PlayAllStep(p0, Run(cmds, idx0, idx), c, rate);
        p := Start(c.1, rate);
      }
      idx := idx + 1;
    }
    CursorStop(cmds, idx0, idx, now);
  }

  class VideoRunner {
    var fps: real
    var time: real
    var bpm: real
    var beats: real
    var currentFrame: nat
    var currentFile: Option<string>
    var commands: seq<RunnerTimed>
    var commandsIdx: nat
    var loopLength: real

    /** `VideoRunner::new`: nothing showing, frame, cursor, beats and time at 0. */
    constructor (fps: real, bpm: real, commands: seq<RunnerTimed>, loopLength: real)
      ensures this.fps == fps && this.bpm == bpm && this.commands == commands
      ensures this.loopLength == loopLength
      ensures time == 0.0 && beats == 0.0 && currentFrame == 0 && commandsIdx == 0 && currentFile == None
    {
      this.fps := fps;
      this.bpm := bpm;
      time := 0.0;
      beats := 0.0;
      currentFrame := 0;
      commandsIdx := 0;
      currentFile := None;
      this.commands := commands;
      this.loopLength := loopLength;
    }

    /** The `'find_command` loop: dispatches the due commands in order and moves the cursor. */
    method Dispatch()
      modifies this
      ensures commandsIdx == DueEnd(old(commands), old(commandsIdx), old(beats))
      ensures Playhead(currentFile, currentFrame) ==
        PlayAll(Playhead(old(currentFile), old(currentFrame)), Due(old(commands), old(commandsIdx), old(beats)), old(bpm))
      ensures fps == old(fps) && time == old(time) && bpm == old(bpm) && beats == old(beats)
      ensures commands == old(commands) && loopLength == old(loopLength)
    {
      var p;
      commandsIdx, p := DispatchLoop(commands, commandsIdx, Playhead(currentFile, currentFrame), beats, bpm);
      currentFile, currentFrame := p.file, p.frame;
    }

    /** `advance_time`: dispatch, report the frame, then move on by one frame and by
        `fps·seconds/bpm` beats; past the loop's end everything starts over with no file. */
    method AdvanceTime(seconds: real) returns (shown: RunnerFrame)
      requires bpm != 0.0
      modifies this
      ensures fps == old(fps) && bpm == old(bpm) && commands == old(commands) && loopLength == old(loopLength)
      ensures var p := PlayAll(Playhead(old(currentFile), old(currentFrame)), Due(old(commands), old(commandsIdx), old(beats)), old(bpm));
        shown == ShowSingleFrame(p.file, p.frame)
      ensures beats == Wrap(old(beats), RunnerTickBeats(fps, seconds, bpm), loopLength).0
      ensures Wrap(old(beats), RunnerTickBeats(fps, seconds, bpm), loopLength).1 ==>
        time == 0.0 && currentFile == None && currentFrame == 0 && commandsIdx == 0
      ensures !Wrap(old(beats), RunnerTickBeats(fps, seconds, bpm), loopLength).1 ==>
        var p := PlayAll(Playhead(old(currentFile), old(currentFrame)), Due(old(commands), old(commandsIdx), old(beats)), old(bpm));
        time == old(time) + seconds && currentFile == p.file && currentFrame == p.frame + 1 &&
        commandsIdx == DueEnd(old(commands), old(commandsIdx), old(beats))
    {
      Dispatch();
      shown := ShowSingleFrame(currentFile, currentFrame);
      time := time + seconds;
      beats := beats + RunnerTickBeats(fps, seconds, bpm);
      currentFrame := currentFrame + 1;
      if beats > loopLength {
        beats := beats - loopLength;
        time := 0.0;
        currentFrame := 0;
        currentFile := None;
        commandsIdx := 0;
      }
    }
  }
}
