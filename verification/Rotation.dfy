/**
 * Log rotation of the watchdog (crates/rosplus_safety/src/main.rs:43-51, 113-128). File 0
 * is the live log, file i is the log with suffix .i.
 */
module Rotation {
  import opened Outcomes

  type Files = map<nat, string>

  function At(fs: Files, i: nat): Option<string> { if i in fs then Some(fs[i]) else None }

  datatype Rename = Renamed | NotFound | Failed

  class Disk {
    var files: Files

    constructor (fs: Files)
      ensures files == fs
    {
      files := fs;
    }

    /** rename overwrites its target; broken stands for any error but a missing source. */
    method Move(from: nat, to: nat, broken: bool) returns (r: Rename)
      requires from != to
      modifies this
      ensures r == if broken then Failed else if from in old(files) then Renamed else NotFound
      ensures files == if r == Renamed then old(files)[to := old(files)[from]] - {from} else old(files)
    {
      if broken {
        return Failed;
      }
      if from !in files {
        return NotFound;
      }
      files := files[to := files[from]] - {from};
      r := Renamed;
    }
  }

  /**
   * File i once the files from low up have moved: each moved up one, the last onto the file
   * that is dropped; a missing file leaves a gap, at the end it drops nothing.
   */
  function Shifted(fs: Files, low: nat, retained: nat, i: nat): Option<string> {
    if i < low || i > retained || low >= retained then At(fs, i)
    else if i == low then None
    else if i == retained && At(fs, i - 1).None? then At(fs, i)
    else At(fs, i - 1)
  }

  ghost predicate IsShifted(fs: Files, gs: Files, low: nat, retained: nat) {
    forall i: nat {:trigger At(gs, i)} :: At(gs, i) == Shifted(fs, low, retained, i)
  }

  lemma ShiftOne(fs: Files, gs: Files, hs: Files, low: nat, retained: nat)
    requires 0 < low <= retained && IsShifted(fs, gs, low, retained)
    requires hs == if low - 1 in gs then gs[low := gs[low-1]] - {low - 1} else gs
    ensures IsShifted(fs, hs, low - 1, retained)
    ensures low < retained ==> low !in gs
  {
    assert At(gs, low) == Shifted(fs, low, retained, low);
    assert At(gs, low - 1) == Shifted(fs, low, retained, low - 1);
    forall i: nat ensures At(hs, i) == Shifted(fs, low - 1, retained, i) {
      assert At(gs, i) == Shifted(fs, low, retained, i);
    }
  }

  /**
   * rotate: from the highest index down, so that no file is overwritten before it has
   * moved. It stops at the first error; what lies above has moved, the rest has not.
   */
  method Rotate(disk: Disk, retained: nat, broken: set<nat>) returns (ok: bool, low: nat)
    modifies disk
    ensures low <= retained && IsShifted(old(disk.files), disk.files, low, retained)
    ensures ok ==> low == 0 && forall i :: 0 <= i < retained ==> i !in broken
    ensures !ok ==> 0 < low && low - 1 in broken && forall i :: low <= i < retained ==> i !in broken
  {
    ghost var fs := disk.files;
    low := retained;
    while low > 0
      invariant low <= retained && IsShifted(fs, disk.files, low, retained)
      invariant forall i :: low <= i < retained ==> i !in broken
    {
      ghost var gs := disk.files;
      var r := disk.Move(low - 1, low, low - 1 in broken);
      if r == Failed {
        return false, low;
      }
      ShiftOne(fs, gs, disk.files, low, retained);
      low := low - 1;
    }
    ok := true;
  }

  /** However far a rotation gets, only the last retained file can be lost. */
  lemma NothingElseLost(fs: Files, gs: Files, low: nat, retained: nat, i: nat)
    requires low <= retained && IsShifted(fs, gs, low, retained) && i in fs && i != retained
    ensures At(gs, i) == At(fs, i) || (low <= i < retained && At(gs, i + 1) == At(fs, i))
  {
    assert At(gs, i) == Shifted(fs, low, retained, i);
    assert At(gs, i + 1) == Shifted(fs, low, retained, i + 1);
  }

  // ---------------------------------------------------------------- write and rotate, again and again

  /** The i-th file holds the i-th most recently retired log, and there is no other file. */
  ghost predicate Newest(fs: Files, retired: seq<string>, retained: nat) {
    forall i: nat {:trigger At(fs, i)} ::
      At(fs, i) == if 1 <= i <= retained && i <= |retired| then Some(retired[|retired|-i]) else None
  }

  lemma NewestGrows(fs: Files, gs: Files, retired: seq<string>, log: string, retained: nat)
    requires Newest(fs, retired, retained) && retained > 0
    requires IsShifted(fs[0 := log], gs, 0, retained)
    ensures Newest(gs, retired + [log], retained)
  {
    forall i: nat
      ensures At(gs, i) == if 1 <= i <= retained && i <= |retired| + 1 then Some((retired + [log])[|retired| + 1 - i]) else None
    {
      assert At(gs, i) == Shifted(fs[0 := log], 0, retained, i);
      assert At(fs, i) == if 1 <= i <= retained && i <= |retired| then Some(retired[|retired|-i]) else None;
      if i > 1 {
        assert At(fs, i - 1) == if i - 1 <= retained && i - 1 <= |retired| then Some(retired[|retired|-(i-1)]) else None;
      }
    }
  }

  /**
   * Starting without rotated files, after any number of write-then-rotate cycles file i
   * holds the i-th most recently retired log for every i up to `retained`: no gaps, nothing
   * beyond, nothing older.
   */
  lemma {:induction false} CyclesKeepNewest(states: seq<Files>, retired: seq<string>, retained: nat)
    requires |states| == |retired| + 1 && retained > 0 && states[0] == map[]
    requires forall k, l :: 0 <= k < |retired| && l == k + 1 ==> IsShifted(states[k][0 := retired[k]], states[l], 0, retained)
    ensures Newest(states[|retired|], retired, retained)
    decreases |retired|
  {
    if retired != [] {
      var n := |retired| - 1;
      CyclesKeepNewest(states[..|states|-1], retired[..n], retained);
      assert retired == retired[..n] + [retired[n]];
      NewestGrows(states[n], states[n+1], retired[..n], retired[n], retained);
    }
  }
}
