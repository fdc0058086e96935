/** What interpreter.rs and video_runner.rs share: the command cursor of the `'find_command`
    loop, the float-to-`usize` cast of a frame number and the loop wrap of the beat position.
    Beat positions, tempo and frame rate are `real`s. */
module Schedule {
  import opened TimeAlgebra

  /** Where the `'find_command` loop leaves the cursor. It stops at a command stamped later
      than `beats`. It also stops once the cursor is past the end, which it reaches by one
      extra step from the end. */
  function DueEnd<T>(cmds: seq<(Time, T)>, idx: nat, beats: real): (r: nat)
    ensures r >= idx && r != |cmds|
    ensures idx <= |cmds| + 1 ==> r <= |cmds| + 1
    ensures idx > |cmds| ==> r == idx
    ensures forall k :: idx <= k < r && k < |cmds| ==> cmds[k].0.Value() <= beats
    ensures r < |cmds| ==> cmds[r].0.Value() > beats
    decreases |cmds| + 1 - idx
  {
    if idx > |cmds| then idx
    else if idx == |cmds| then idx + 1
    else if cmds[idx].0.Value() > beats then idx
    else DueEnd(cmds, idx + 1, beats)
  }

  function Min(a: int, b: int): int
  {
    if a <= b then a else b
  }

  /** The commands from index `from` up to `to`, cut off at the end of the list. */
  function Run<T>(cmds: seq<(Time, T)>, from: nat, to: nat): (r: seq<(Time, T)>)
    requires from <= to
    ensures |r| <= |cmds|
    ensures from <= |cmds| ==> r == cmds[from..Min(to, |cmds|)]
    ensures from > |cmds| ==> r == []
  {
    cmds[Min(from, |cmds|)..Min(to, |cmds|)]
  }

  /** The commands the loop dispatches, in order: from the cursor up to where it stops. */
  function Due<T>(cmds: seq<(Time, T)>, idx: nat, beats: real): (r: seq<(Time, T)>)
    ensures |r| <= |cmds|
    ensures idx <= |cmds| ==> r == cmds[idx..Min(DueEnd(cmds, idx, beats), |cmds|)]
    ensures idx > |cmds| ==> r == []
  {
    Run(cmds, idx, DueEnd(cmds, idx, beats))
  }

  /** The loop condition of `'find_command`: the cursor is not past the end, and the command
      under it (if any) is not stamped later than `beats`. */
  predicate Continues<T>(cmds: seq<(Time, T)>, idx: nat, beats: real)
  {
    idx <= |cmds| && !(idx < |cmds| && cmds[idx].0.Value() > beats)
  }

  /** While the loop goes on, one more step leaves the stopping point where it was; and one
      more step of the run it has dispatched adds the command under the cursor, or nothing
      once it is past the end. */
  lemma CursorStep<T>(cmds: seq<(Time, T)>, from: nat, idx: nat, beats: real)
    requires from <= idx && Continues(cmds, idx, beats)
    ensures DueEnd(cmds, idx + 1, beats) == DueEnd(cmds, idx, beats)
    ensures idx < |cmds| ==> Run(cmds, from, idx + 1) == Run(cmds, from, idx) + [cmds[idx]]
    ensures idx == |cmds| ==> Run(cmds, from, idx + 1) == Run(cmds, from, idx)
  {
    if idx < |cmds| {
      assert cmds[from..idx + 1] == cmds[from..idx] + [cmds[idx]];
    }
  }

  /** Where the loop stops is where `DueEnd` says, and then the run it has dispatched is
      exactly the due commands. */
  lemma CursorStop<T>(cmds: seq<(Time, T)>, from: nat, idx: nat, beats: real)
    requires from <= idx && !Continues(cmds, idx, beats)
    requires DueEnd(cmds, idx, beats) == DueEnd(cmds, from, beats)
    ensures DueEnd(cmds, from, beats) == idx
    ensures Run(cmds, from, idx) == Due(cmds, from, beats)
  {
  }

  /** What the loop has dispatched so far is a prefix of what is due. */
  lemma RunPrefix<T>(cmds: seq<(Time, T)>, from: nat, to: nat, end: nat)
    requires from <= to <= end
    ensures Run(cmds, from, to) == Run(cmds, from, end)[..|Run(cmds, from, to)|]
  {
  }

  /** A due command at the cursor is dispatched first, and the loop goes on from the next one. */
  lemma DueStep<T>(cmds: seq<(Time, T)>, idx: nat, beats: real)
    requires idx < |cmds| && cmds[idx].0.Value() <= beats
    ensures DueEnd(cmds, idx + 1, beats) == DueEnd(cmds, idx, beats)
    ensures Due(cmds, idx, beats) == [cmds[idx]] + Due(cmds, idx + 1, beats)
  {
    var e := Min(DueEnd(cmds, idx, beats), |cmds|);
    assert cmds[idx..e] == [cmds[idx]] + cmds[idx + 1..e];
  }

  /** Keys never decrease along the command list. */
  predicate StampsSorted<T>(cmds: seq<(Time, T)>)
  {
    forall i, j :: 0 <= i < j < |cmds| ==> cmds[i].0.Value() <= cmds[j].0.Value()
  }

  /** On a list sorted by time, as the reducer produces it, the loop dispatches exactly the
      commands from the cursor on whose stamps are at most `beats`. */
  lemma DueExactly<T>(cmds: seq<(Time, T)>, idx: nat, beats: real)
    requires StampsSorted(cmds) && idx <= |cmds|
    ensures forall k :: idx <= k < |cmds| ==>
      (cmds[k].0.Value() <= beats <==> k < DueEnd(cmds, idx, beats))
  {
    var r := DueEnd(cmds, idx, beats);
    forall k | idx <= k < |cmds| && r <= k
      ensures cmds[k].0.Value() > beats
    {
      assert cmds[r].0.Value() <= cmds[k].0.Value();
    }
  }

  /** Running the loop a second time at the same beat position moves nothing: the cursor stays
      and nothing more is dispatched. */
  lemma DueEndIdempotent<T>(cmds: seq<(Time, T)>, idx: nat, beats: real)
    ensures DueEnd(cmds, DueEnd(cmds, idx, beats), beats) == DueEnd(cmds, idx, beats)
    ensures Due(cmds, DueEnd(cmds, idx, beats), beats) == []
  {
  }

  /** A later position never dispatches less: the cursor stops at or after where it stopped. */
  lemma {:induction false} DueEndMonotone<T>(cmds: seq<(Time, T)>, idx: nat, beats: real, later: real)
    requires beats <= later
    ensures DueEnd(cmds, idx, beats) <= DueEnd(cmds, idx, later)
    decreases |cmds| + 1 - idx
  {
    if idx < |cmds| && cmds[idx].0.Value() <= beats {
      DueEndMonotone(cmds, idx + 1, beats, later);
    }
  }

  /** `x as usize` for a frame number: the floor of a non-negative value, 0 for a negative one
      (Rust's float-to-integer casts saturate). */
  function FrameOf(x: real): (r: nat)
    ensures x >= 0.0 ==> r as real <= x < r as real + 1.0
    ensures x < 0.0 ==> r == 0
  {
    if x < 0.0 then 0 else x.Floor
  }

  /** The beat position after `beats += delta` and the wrap `if beats > loop_length
      { beats -= loop_length }`; the second component tells whether it wrapped. */
  function Wrap(beats: real, delta: real, loopLength: real): (r: (real, bool))
    ensures r.1 <==> beats + delta > loopLength
    ensures r.0 == if r.1 then beats + delta - loopLength else beats + delta
  {
    var b := beats + delta;
    if b > loopLength then (b - loopLength, true) else (b, false)
  }

  /** The wrap keeps the beat position within one loop as long as a tick advances it by no
      more than a loop's length. */
  lemma WrapStaysInLoop(beats: real, delta: real, loopLength: real)
    requires 0.0 <= beats <= loopLength && 0.0 <= delta <= loopLength
    ensures 0.0 <= Wrap(beats, delta, loopLength).0 <= loopLength
  {
  }
}
