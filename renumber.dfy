/**
 * The end of a perspective-animation run (plot/plot_srf_perspective.py:513-539): the dynamic frames
 * are added to the frame counter, then the rendered images, one file per frame index, are
 * renumbered so that the movie opens on `start` copies of its first frame and closes on `end`
 * copies of its last one.
 *
 * The temporary directory is a map from frame index to image. `copy` overwrites its destination;
 * `move` removes its source and then writes its destination. A copy or move whose source is missing
 * fails, and the run stops there.
 */
module Renumber {
  import opened Wrappers

  /** What key `k` of `m` holds, if anything. */
  function Lookup<T>(m: map<int, T>, k: int): Option<T>
  {
    if k in m then Some(m[k]) else None
  }

  /** Every frame 0..frames-1 has been rendered. */
  predicate Complete<T>(files: map<int, T>, frames: nat)
  {
    forall i :: 0 <= i < frames ==> i in files
  }

  /**
   * The directory the renumbering should leave: `start` copies of frame 0, then frames
   * 0..frames-1 shifted up by `start`, then `end` copies of frame frames-1; any other file is left
   * as it was.
   */
  function Renumbered<T>(files: map<int, T>, frames: nat, start: nat, end: nat, k: int): Option<T>
    requires frames >= 1 && Complete(files, frames)
  {
    if 0 <= k < start then Some(files[0])
    else if start <= k < start + frames then Some(files[k - start])
    else if start + frames <= k < start + frames + end then Some(files[frames - 1])
    else Lookup(files, k)
  }

  /** The directory once the last frame has been copied to `i` of the end slots. */
  function Padded<T>(files: map<int, T>, frames: nat, start: nat, i: nat, k: int): Option<T>
    requires frames >= 1 && (i > 0 ==> frames - 1 in files)
  {
    if start + frames <= k < start + frames + i then Some(files[frames - 1]) else Lookup(files, k)
  }

  /** The directory once the first frame has been copied to the leading slots 0..i-1. */
  function Leading<T>(files: map<int, T>, frames: nat, start: nat, end: nat, i: nat, k: int): Option<T>
    requires frames >= 1 && Complete(files, frames)
  {
    if 0 <= k < i then Some(files[0]) else Moving(files, frames, start, end, 0, k)
  }

  /**
   * The directory in the middle of the descending move loop, once frames j..frames-1 have been
   * moved: frames below j are still where they were rendered, and a frame that has been moved away
   * and not yet overwritten is absent.
   */
  function Moving<T>(files: map<int, T>, frames: nat, start: nat, end: nat, j: nat, k: int): Option<T>
    requires frames >= 1 && j <= frames && Complete(files, frames)
  {
    if start + frames <= k < start + frames + end then Some(files[frames - 1])
    else if start + j <= k < start + frames then Some(files[k - start])
    else if j <= k < frames then None
    else Lookup(files, k)
  }

  /**
   * The renumbering loops (plot/plot_srf_perspective.py:518-533): copy the last frame to the end
   * slots, move frames frames-1 down to 0 up by `start`, then copy the new frame `start` (the
   * original frame 0) into slots 0..start-1. It succeeds exactly when every frame was rendered,
   * and then leaves the directory `Renumbered` describes.
   */
  method RenumberFrames<T>(files: map<int, T>, frames: nat, start: nat, end: nat) returns (out: map<int, T>, ok: bool)
    requires frames >= 1
    ensures ok <==> Complete(files, frames)
    ensures ok ==> forall k :: Lookup(out, k) == Renumbered(files, frames, start, end, k)
  {
    out := files;
    // copy last frame
    if end > 0 && frames - 1 !in out {
      return out, false;
    }
    var i := 0;
    while i < end
      invariant 0 <= i <= end
      invariant end > 0 ==> frames - 1 in files
      invariant forall k :: Lookup(out, k) == Padded(files, frames, start, i, k)
    {
      assert Lookup(out, frames - 1) == Lookup(files, frames - 1);
      ghost var before := out;
      out := out[frames + start + i := out[frames - 1]];
      forall k
        ensures Lookup(out, k) == Padded(files, frames, start, i + 1, k)
      {
        if k != frames + start + i {
          assert Lookup(out, k) == Lookup(before, k);
        }
      }
      i := i + 1;
    }
    // shift sequence, highest frame first
    var j := frames;
    while j > 0
      invariant 0 <= j <= frames
      invariant forall i :: j <= i < frames ==> i in files
      invariant forall k :: k < j ==> Lookup(out, k) == Lookup(files, k)
      invariant Complete(files, frames) ==> forall k :: Lookup(out, k) == Moving(files, frames, start, end, j, k)
    {
      var src := j - 1;
      if src !in out {
        assert Lookup(out, src) == Lookup(files, src);
        return out, false;
      }
      assert Lookup(out, src) == Lookup(files, src);
      ghost var before := out;
      out := (out - {src})[start + src := out[src]];
      if Complete(files, frames) {
        MoveStep(files, frames, start, end, j, before, out);
      }
      j := j - 1;
    }
    assert Complete(files, frames);
    // copy first frame
    i := 0;
    while i < start
      invariant 0 <= i <= start
      invariant forall k :: Lookup(out, k) == Leading(files, frames, start, end, i, k)
    {
      assert Lookup(out, start) == Some(files[0]);
      ghost var before := out;
      out := out[i := out[start]];
      forall k
        ensures Lookup(out, k) == Leading(files, frames, start, end, i + 1, k)
      {
        if k != i {
          assert Lookup(out, k) == Lookup(before, k);
        }
      }
      i := i + 1;
    }
    ok := true;
  }

  /** Moving frame j-1 up by `start` takes the directory from one stage of the move loop to the next. */
  lemma MoveStep<T>(files: map<int, T>, frames: nat, start: nat, end: nat, j: nat, before: map<int, T>, after: map<int, T>)
    requires frames >= 1 && 0 < j <= frames && Complete(files, frames)
    requires forall k :: Lookup(before, k) == Moving(files, frames, start, end, j, k)
    requires j - 1 in before && after == (before - {j - 1})[start + j - 1 := before[j - 1]]
    ensures forall k :: Lookup(after, k) == Moving(files, frames, start, end, j - 1, k)
  {
    assert Lookup(before, j - 1) == Some(files[j - 1]);
    forall k
      ensures Lookup(after, k) == Moving(files, frames, start, end, j - 1, k)
    {
      if k != start + j - 1 && k != j - 1 {
        assert Lookup(after, k) == Lookup(before, k);
      }
    }
  }

  /**
   * The frame counter and the renumbering as written (plot/plot_srf_perspective.py:513-539). The
   * counter of static frames is bound only in the animated branch of the set-up (None otherwise),
   * but the dynamic frames are added to it unconditionally, so a still run fails there.
   */
  method FinishRunAsWritten<T>(animate: bool, frames: Option<nat>, framesSr: nat, start: nat, end: nat,
                               files: map<int, T>) returns (r: Result<map<int, T>>)
    requires animate <==> frames.Some?
    ensures !animate ==> r.Err?
    ensures animate && frames.value + framesSr >= 1 ==>
      (r.Ok? <==> Complete(files, frames.value + framesSr))
  {
    if frames.None? {
      return Err("name 'frames' is not defined");
    }
    var total := frames.value + framesSr;
    if animate {
      if total == 0 {
        // nothing was rendered: any copy reads a missing frame
        return if start == 0 && end == 0 then Ok(files) else Err("missing frame");
      }
      var out, ok := RenumberFrames(files, total, start, end);
      r := if ok then Ok(out) else Err("missing frame");
    } else {
      // the still image is moved out of the temporary directory
      r := Ok(files);
    }
  }

  /**
   * The evidently intended end of a run: the dynamic frames are counted only for an animation. A
   * still run then completes, and an animation is renumbered as `Renumbered` describes.
   */
  method FinishRun<T>(animate: bool, frames: Option<nat>, framesSr: nat, start: nat, end: nat,
                      files: map<int, T>) returns (r: Result<map<int, T>>)
    requires animate <==> frames.Some?
    ensures !animate ==> r == Ok(files)
    ensures animate && frames.value + framesSr >= 1 ==>
      (r.Ok? <==> Complete(files, frames.value + framesSr))
    ensures animate && frames.value + framesSr >= 1 && r.Ok? ==>
      forall k :: Lookup(r.value, k) == Renumbered(files, frames.value + framesSr, start, end, k)
  {
    if animate {
      var total := frames.value + framesSr;
      if total == 0 {
        // nothing was rendered: any copy reads a missing frame
        return if start == 0 && end == 0 then Ok(files) else Err("missing frame");
      }
      var out, ok := RenumberFrames(files, total, start, end);
      r := if ok then Ok(out) else Err("missing frame");
    } else {
      // the still image is moved out of the temporary directory
      r := Ok(files);
    }
  }
}
