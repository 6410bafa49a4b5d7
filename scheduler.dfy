/**
 * The coordinator of the perspective-animation renderer (plot/plot_srf_perspective.py).
 *
 * One coordinator serves jobs to pull-based workers. Each request from a worker is also the
 * acknowledgement that the job the coordinator last handed to that worker has finished; if that
 * job was a generator, the dependency resolver appends the jobs it unlocks. When the queue is
 * empty the coordinator answers Wait while generators are outstanding, and Stop once none are,
 * counting stopped workers down to zero.
 */
module Scheduler {
  import opened Wrappers
  import opened Seqs

  /** A queue entry, and equally a reply to a worker. */
  datatype Entry =
    | LoadXyts                          // global preparation of the ground-motion file (generator)
    | LoadXytsTs(start: nat, inc: nat)  // one shard of overlay preparation: timesteps start, start+inc, ...
    | Timeslice(frame: Option<nat>)     // render one frame; None is the single still image
    | Wait                              // Python `None`: nothing is ready yet
    | Stop                              // Python `StopIteration`: the worker must leave its loop
    | Unknown                           // anything else a worker could be sent

  /** Jobs whose completion makes the resolver enqueue more work. */
  predicate IsGenerator(e: Entry) { e.LoadXyts? || e.LoadXytsTs? }

  predicate IsStop(e: Entry) { e.Stop? }

  /** Real work, as opposed to the Wait/Stop sentinels synthesised on an empty queue. */
  predicate IsJob(e: Entry) { e.LoadXyts? || e.LoadXytsTs? || e.Timeslice? }

  /** A shard job belongs to an `n`-way split: its start is one of 0..n-1 and its stride is n. */
  predicate KeyedFor(e: Entry, n: nat) { e.LoadXytsTs? ==> e.start < n && e.inc == n }

  /** Python's `x in range(start, stop, step)` for a positive step. */
  predicate InRange(x: int, start: int, stop: int, step: int)
    requires step > 0
  {
    start <= x < stop && (x - start) % step == 0
  }

  /** The number of entries of `s` that satisfy `p`. */
  function Count(s: seq<Entry>, p: Entry -> bool): (n: nat)
    ensures n <= |s|
  {
    if s == [] then 0 else Count(s[..|s| - 1], p) + (if p(s[|s| - 1]) then 1 else 0)
  }

  lemma {:induction false} CountAppend(a: seq<Entry>, b: seq<Entry>, p: Entry -> bool)
    ensures Count(a + b, p) == Count(a, p) + Count(b, p)
    decreases |b|
  {
    if b == [] {
      assert a + b == a;
    } else {
      var b' := b[..|b| - 1];
      assert (a + b)[..|a + b| - 1] == a + b';
      CountAppend(a, b', p);
    }
  }

  /** Replacing one entry changes the count by what left and what arrived. */
  lemma CountUpdate(s: seq<Entry>, k: nat, e: Entry, p: Entry -> bool)
    requires k < |s|
    ensures Count(s[k := e], p) == Count(s, p) - (if p(s[k]) then 1 else 0) + (if p(e) then 1 else 0)
  {
    assert s == s[..k] + [s[k]] + s[k + 1..];
    assert s[k := e] == s[..k] + [e] + s[k + 1..];
    CountAppend(s[..k] + [s[k]], s[k + 1..], p);
    CountAppend(s[..k] + [e], s[k + 1..], p);
    CountAppend(s[..k], [s[k]], p);
    CountAppend(s[..k], [e], p);
  }

  /** Removing the head changes the count by the head alone. */
  lemma CountTail(s: seq<Entry>, p: Entry -> bool)
    requires s != []
    ensures Count(s[1..], p) == Count(s, p) - (if p(s[0]) then 1 else 0)
  {
    assert s == [s[0]] + s[1..];
    CountAppend([s[0]], s[1..], p);
  }

  /** The number of times `x` occurs in `s`. */
  function Occurrences(s: seq<Entry>, x: Entry): (n: nat)
    ensures n <= |s|
  {
    if s == [] then 0 else Occurrences(s[..|s| - 1], x) + (if s[|s| - 1] == x then 1 else 0)
  }

  lemma {:induction false} OccurrencesAppend(a: seq<Entry>, b: seq<Entry>, x: Entry)
    ensures Occurrences(a + b, x) == Occurrences(a, x) + Occurrences(b, x)
    decreases |b|
  {
    if b == [] {
      assert a + b == a;
    } else {
      var b' := b[..|b| - 1];
      assert (a + b)[..|a + b| - 1] == a + b';
      OccurrencesAppend(a, b', x);
    }
  }

  lemma {:induction false} CountZero(s: seq<Entry>, p: Entry -> bool)
    requires Count(s, p) == 0
    ensures forall k :: 0 <= k < |s| ==> !p(s[k])
  {
    if s != [] {
      CountZero(s[..|s| - 1], p);
      assert forall k :: 0 <= k < |s| - 1 ==> s[..|s| - 1][k] == s[k];
    }
  }

  lemma {:induction false} CountFull(s: seq<Entry>, p: Entry -> bool)
    requires Count(s, p) == |s|
    ensures forall k :: 0 <= k < |s| ==> p(s[k])
  {
    if s != [] {
      CountFull(s[..|s| - 1], p);
      assert forall k :: 0 <= k < |s| - 1 ==> s[..|s| - 1][k] == s[k];
    }
  }

  /** Every entry is a real job, and every shard job belongs to an `n`-way split. */
  predicate JobsFor(s: seq<Entry>, n: nat)
  {
    forall k :: 0 <= k < |s| ==> IsJob(s[k]) && KeyedFor(s[k], n)
  }

  /**
   * The first `k` shard jobs that finishing LoadXyts enqueues for `n` workers: shard j starts at
   * timestep j and steps by n, and every one of them is a generator.
   */
  function FanOut(k: nat, n: nat): (r: seq<Entry>)
    ensures |r| == k
    ensures forall j :: 0 <= j < k ==> r[j] == LoadXytsTs(j, n)
    ensures Count(r, IsGenerator) == k
  {
    if k == 0 then [] else FanOut(k - 1, n) + [LoadXytsTs(k - 1, n)]
  }

  /** What the resolver needs to know about the animation. */
  datatype Animation = Animation(
    frames: nat,       // static frames, numbered 0..frames-1
    framesSr: nat,     // dynamic (slip-rate) frames, numbered frames..frames+framesSr-1
    nt: nat,           // timesteps in the ground-motion file
    xpos: nat -> int)  // timestep shown by dynamic frame i

  /**
   * Render jobs for the frames numbered first+i, i < k, for which `hit(i)` holds, in order of i:
   * only such frames, and no generator.
   */
  function FramesWhere(hit: nat -> bool, first: nat, k: nat): seq<Entry>
  {
    if k == 0 then []
    else FramesWhere(hit, first, k - 1) + if hit(k - 1) then [Timeslice(Some(first + k - 1))] else []
  }

  /**
   * The render jobs that finishing shard `start` of a `stride`-way split enqueues, looking at the
   * first `k` dynamic frames: the dynamic frames, numbered from `frames` on, whose timestep lies in
   * the shard's range.
   */
  function ShardJobs(a: Animation, start: nat, stride: nat, k: nat): seq<Entry>
    requires stride > 0
  {
    FramesWhere((i: nat) => InRange(a.xpos(i), start, a.nt, stride), a.frames, k)
  }

  /** Every entry renders one numbered frame in lo..hi-1. */
  predicate RendersBetween(s: seq<Entry>, lo: nat, hi: nat)
  {
    forall j :: 0 <= j < |s| ==> s[j].Timeslice? && s[j].frame.Some? && lo <= s[j].frame.value < hi
  }

  lemma {:induction false} FramesWhereBetween(hit: nat -> bool, first: nat, k: nat)
    ensures RendersBetween(FramesWhere(hit, first, k), first, first + k)
  {
    if k > 0 {
      FramesWhereBetween(hit, first, k - 1);
      var r := FramesWhere(hit, first, k - 1);
      var add := if hit(k - 1) then [Timeslice(Some(first + k - 1))] else [];
      assert FramesWhere(hit, first, k) == r + add;
      assert forall j :: |r| <= j < |r + add| ==> (r + add)[j] == add[j - |r|];
    }
  }

  lemma {:induction false} FramesWhereCount(hit: nat -> bool, first: nat, k: nat, i: nat)
    ensures Occurrences(FramesWhere(hit, first, k), Timeslice(Some(first + i))) == if i < k && hit(i) then 1 else 0
  {
    if k > 0 {
      FramesWhereCount(hit, first, k - 1, i);
      var r := FramesWhere(hit, first, k - 1);
      var add := if hit(k - 1) then [Timeslice(Some(first + k - 1))] else [];
      var x := Timeslice(Some(first + i));
      assert FramesWhere(hit, first, k) == r + add;
      OccurrencesAppend(r, add, x);
    }
  }

  /** A shard's jobs render only dynamic frames among the first `k`. */
  lemma ShardJobsFrames(a: Animation, start: nat, stride: nat, k: nat)
    requires stride > 0
    ensures RendersBetween(ShardJobs(a, start, stride, k), a.frames, a.frames + k)
  {
    FramesWhereBetween((i: nat) => InRange(a.xpos(i), start, a.nt, stride), a.frames, k);
  }

  /**
   * Within one shard, dynamic frame i (i < k) is enqueued once if its timestep lies in the shard's
   * range and not at all otherwise.
   */
  lemma ShardJobsCount(a: Animation, start: nat, stride: nat, k: nat, i: nat)
    requires stride > 0
    ensures Occurrences(ShardJobs(a, start, stride, k), Timeslice(Some(a.frames + i)))
      == if i < k && InRange(a.xpos(i), start, a.nt, stride) then 1 else 0
  {
    FramesWhereCount((i: nat) => InRange(a.xpos(i), start, a.nt, stride), a.frames, k, i);
  }

  /** Everything the resolver enqueues once shards 0..s-1 of a `stride`-way split have completed. */
  function AllShards(a: Animation, stride: nat, s: nat): seq<Entry>
    requires stride > 0
  {
    if s == 0 then []
    else AllShards(a, stride, s - 1) + ShardJobs(a, s - 1, stride, a.framesSr)
  }

  /** The shards together render only dynamic frames. */
  lemma {:induction false} AllShardsFrames(a: Animation, stride: nat, s: nat)
    requires stride > 0
    ensures RendersBetween(AllShards(a, stride, s), a.frames, a.frames + a.framesSr)
  {
    if s > 0 {
      AllShardsFrames(a, stride, s - 1);
      ShardJobsFrames(a, s - 1, stride, a.framesSr);
      var p := AllShards(a, stride, s - 1);
      var r := ShardJobs(a, s - 1, stride, a.framesSr);
      assert forall j :: |p| <= j < |p + r| ==> (p + r)[j] == r[j - |p|];
    }
  }

  /** Euclidean division is unique: a quotient and a remainder in 0..d-1 are x / d and x % d. */
  lemma DivModUnique(x: int, d: int, q: int, r: int)
    requires d > 0 && 0 <= r < d && x == d * q + r
    ensures x / d == q && x % d == r
  {
    var k := q - x / d;
    assert d * k == x % d - r by {
      assert d * q == d * (x / d) + d * k;
    }
  }

  /**
   * The shard ranges `range(start, nt, stride)` for start = 0..stride-1 partition 0..nt-1:
   * timestep x lies in shard `start` exactly when it is a timestep and `start` is its residue.
   */
  lemma ShardMembership(x: int, start: nat, nt: nat, stride: nat)
    requires start < stride
    ensures InRange(x, start, nt, stride) <==> 0 <= x < nt && x % stride == start
  {
    if InRange(x, start, nt, stride) {
      var q := (x - start) / stride;
      assert x - start == stride * q + 0 by {
        assert x - start == stride * ((x - start) / stride) + (x - start) % stride;
      }
      DivModUnique(x, stride, q, start);
    }
    if 0 <= x < nt && x % stride == start {
      var q := x / stride;
      assert x == stride * q + start;
      DivModUnique(x - start, stride, q, 0);
    }
  }

  /**
   * After shards 0..s-1 complete, dynamic frame i has been enqueued once if the timestep it shows
   * exists and falls in one of those shards, and not at all otherwise.
   */
  lemma {:induction false} AllShardsCount(a: Animation, stride: nat, s: nat, i: nat)
    requires 0 < stride && s <= stride && i < a.framesSr
    ensures Occurrences(AllShards(a, stride, s), Timeslice(Some(a.frames + i)))
      == if 0 <= a.xpos(i) < a.nt && a.xpos(i) % stride < s then 1 else 0
  {
    if s > 0 {
      var x := Timeslice(Some(a.frames + i));
      var p, r := AllShards(a, stride, s - 1), ShardJobs(a, s - 1, stride, a.framesSr);
      assert AllShards(a, stride, s) == p + r;
      OccurrencesAppend(p, r, x);
      AllShardsCount(a, stride, s - 1, i);
      ShardJobsCount(a, s - 1, stride, a.framesSr, i);
      ShardMembership(a.xpos(i), s - 1, a.nt, stride);
    }
  }

  /**
   * Partition coverage: once every shard of a `stride`-way split has completed, dynamic frame i is
   * enqueued exactly once if the timestep it shows exists and never otherwise, and no dynamic
   * sequence number collides with a static one (0..frames-1).
   */
  lemma PartitionCoverage(a: Animation, stride: nat, i: nat)
    requires 0 < stride && i < a.framesSr
    ensures Occurrences(AllShards(a, stride, stride), Timeslice(Some(a.frames + i)))
      == if 0 <= a.xpos(i) < a.nt then 1 else 0
    ensures forall f :: 0 <= f < a.frames ==> Timeslice(Some(f)) !in AllShards(a, stride, stride)
  {
    AllShardsCount(a, stride, stride, i);
    AllShardsFrames(a, stride, stride);
  }

  /** The entries the dependency resolver appends when `finished` completes with `n` workers left. */
  function Resolve(a: Animation, finished: Entry, n: nat): seq<Entry>
    requires n > 0
  {
    match finished
    case LoadXyts => FanOut(n, n)
    case LoadXytsTs(start, _) => ShardJobs(a, start, n, a.framesSr)
    case _ => []
  }

  /**
   * The resolver enqueues only real jobs of an `n`-way split; finishing LoadXyts adds `n` generators,
   * anything else adds none.
   */
  lemma ResolveJobs(a: Animation, finished: Entry, n: nat)
    requires n > 0
    ensures JobsFor(Resolve(a, finished, n), n)
    ensures Count(Resolve(a, finished, n), IsGenerator) == if finished.LoadXyts? then n else 0
  {
    if finished.LoadXytsTs? {
      var r := ShardJobs(a, finished.start, n, a.framesSr);
      assert Resolve(a, finished, n) == r;
      ShardJobsFrames(a, finished.start, n, a.framesSr);
      assert forall k :: 0 <= k < |r| ==> r[k].Timeslice?;
    }
    if !finished.LoadXyts? {
      ZeroCount(Resolve(a, finished, n), IsGenerator);
    }
  }

  /**
   * The dependency resolver of the coordinator loop (plot_srf_perspective.py:467-491): given the
   * job `finished` that a worker has just completed, extends the queue and the count of
   * outstanding generators. `n` is the number of workers still running.
   */
  method ResolveDependencies(a: Animation, finished: Entry, queue: seq<Entry>, deps: int, n: nat)
    returns (q: seq<Entry>, d: int)
    requires n > 0
    ensures q == queue + Resolve(a, finished, n)
    ensures d == deps + Delta(finished, n)
  {
    q, d := queue, deps;
    if finished.LoadXyts? {
      d := d - 1;
      // load overlays, one shard per worker
      var i := 0;
      while i < n
        invariant 0 <= i <= n
        invariant q == queue + FanOut(i, n)
      {
        q := q + [LoadXytsTs(i, n)];
        i := i + 1;
      }
      d := d + n;
    } else if finished.LoadXytsTs? {
      var i := 0;
      while i < a.framesSr
        invariant 0 <= i <= a.framesSr
        invariant q == queue + ShardJobs(a, finished.start, n, i)
      {
        if InRange(a.xpos(i), finished.start, a.nt, n) {
          q := q + [Timeslice(Some(a.frames + i))];
        }
        i := i + 1;
      }
      d := d - 1;
    }
  }

  /** The queue built before the workers are spawned (plot_srf_perspective.py:424-453). */
  ghost predicate IsInitialQueue(q: seq<Entry>, animate: bool, hasXyts: bool, still: nat, fade: nat)
  {
    if !animate then q == [Timeslice(None)]
    else
      var off := if hasXyts then 1 else 0;
      && |q| == off + still + fade
      && (hasXyts ==> q[0] == LoadXyts)
      && forall k :: off <= k < |q| ==> q[k] == Timeslice(Some(k - off))
  }

  /** Render jobs for the `count` static frames numbered first, first+1, ... */
  function FrameJobs(first: nat, count: nat): (r: seq<Entry>)
    ensures |r| == count
    ensures forall j :: 0 <= j < count ==> r[j] == Timeslice(Some(first + j))
    ensures Count(r, IsGenerator) == 0
  {
    if count == 0 then [] else FrameJobs(first, count - 1) + [Timeslice(Some(first + count - 1))]
  }

  /** One of the two frame loops of the set-up: appends frames first..first+count-1 in order. */
  method EnqueueFrames(q: seq<Entry>, first: nat, count: nat) returns (q': seq<Entry>)
    ensures q' == q + FrameJobs(first, count)
  {
    q' := q;
    var i := 0;
    while i < count
      invariant 0 <= i <= count
      invariant q' == q + FrameJobs(first, i)
    {
      q' := q' + [Timeslice(Some(first + i))];
      i := i + 1;
    }
  }

  /**
   * The set-up divisions of an animation all have non-zero divisors: `i / float(frames - 1)` for the
   * camera moves, `min(float(i), t_frames) / t_frames` in the same loop, and
   * `i / (t_frames - 1.0)` for the fade-out, each evaluated only when its loop runs at least once.
   */
  predicate SetupDivides(still: nat, fade: nat)
  {
    !(still >= 1 && (still == 1 || fade == 0)) && fade != 1
  }

  /** The message of a Python float division by zero. */
  const FloatDivisionByZero := "ZeroDivisionError: float division by zero"

  /** The set-up result: the initial queue, the generator count and the static frame count. */
  datatype Setup = Setup(queue: seq<Entry>, deps: nat, frames: Option<nat>)

  /**
   * Builds the initial queue: with an animation, the optional LoadXyts generator, then `still`
   * camera-move frames and `fade` slip-fadeout frames numbered 0..still+fade-1; without one, the
   * single still image. `deps` counts the generators queued; `frames` is the number of static
   * frames, unbound (None) when there is no animation. An animation whose frame loops divide by
   * zero fails, before any worker is spawned.
   */
  method BuildInitialQueue(animate: bool, hasXyts: bool, still: nat, fade: nat) returns (r: Result<Setup>)
    ensures r.Err? <==> animate && !SetupDivides(still, fade)
    ensures r.Err? ==> r.reason == FloatDivisionByZero
    ensures r.Ok? ==> var q := r.value.queue;
      && IsInitialQueue(q, animate, hasXyts, still, fade)
      && (forall k :: 0 <= k < |q| ==> IsJob(q[k]) && !q[k].LoadXytsTs?)
      && r.value.deps == Count(q, IsGenerator)
      && r.value.deps == (if animate && hasXyts then 1 else 0)
      && r.value.frames == if animate then Some(still + fade) else None
  {
    var q: seq<Entry>, deps: nat, frames: Option<nat> := [], 0, None;
    if hasXyts && animate {
      q := q + [LoadXyts];
      deps := deps + 1;
    }
    if !animate {
      q := [Timeslice(None)];
    } else {
      if !SetupDivides(still, fade) {
        // one of the frame loops divides by zero on its first pass
        return Err(FloatDivisionByZero);
      }
      var head := q;
      // stage 1: camera moves into position
      var f := still;
      q := EnqueueFrames(q, 0, f);
      // slip fade-out
      q := EnqueueFrames(q, f, fade);
      f := f + fade;
      frames := Some(f);
      AnimatedQueue(head, hasXyts, still, fade);
    }
    r := Ok(Setup(q, deps, frames));
  }

  lemma AnimatedQueue(head: seq<Entry>, hasXyts: bool, still: nat, fade: nat)
    requires head == if hasXyts then [LoadXyts] else []
    ensures var q := head + FrameJobs(0, still) + FrameJobs(still, fade);
      && IsInitialQueue(q, true, hasXyts, still, fade)
      && (forall k :: 0 <= k < |q| ==> IsJob(q[k]) && !q[k].LoadXytsTs?)
      && Count(q, IsGenerator) == |head|
  {
    var q := head + FrameJobs(0, still) + FrameJobs(still, fade);
    CountAppend(head + FrameJobs(0, still), FrameJobs(still, fade), IsGenerator);
    CountAppend(head, FrameJobs(0, still), IsGenerator);
    forall k | |head| <= k < |q|
      ensures q[k] == Timeslice(Some(k - |head|))
    {
      if k - |head| >= still {
        assert q[k] == FrameJobs(still, fade)[k - |head| - still];
      }
    }
  }

  /**
   * The coordinator's bookkeeping as a value: the FIFO `queue` (msg_list), one slot per worker
   * holding the last entry sent to it (in_progress), the count `deps` of outstanding generators
   * (msg_deps) and the number `nproc` of workers not yet stopped.
   */
  datatype Books = Books(queue: seq<Entry>, slots: seq<Entry>, deps: int, nproc: int)

  /**
   * Between requests: the queue holds only real jobs; `deps` equals the generators queued plus
   * those in flight; a stopped worker's slot holds Stop, and there are exactly as many of those
   * as workers stopped; no worker is stopped while generators are outstanding.
   */
  predicate Inv(workers: nat, b: Books)
  {
    && |b.slots| == workers
    && 0 <= b.nproc <= workers
    && JobsFor(b.queue, workers)
    && (forall w :: 0 <= w < |b.slots| ==> KeyedFor(b.slots[w], workers))
    && b.deps == Count(b.queue, IsGenerator) + Count(b.slots, IsGenerator)
    && Count(b.slots, IsStop) == workers - b.nproc
    && (b.nproc < workers ==> b.deps == 0)
  }

  /** The change to the outstanding-generator count when `finished` completes with `n` workers left. */
  function Delta(finished: Entry, n: nat): int
  {
    match finished
    case LoadXyts => n - 1
    case LoadXytsTs(_, _) => -1
    case _ => 0
  }

  /**
   * One iteration of the coordinator loop as a function of the books: worker `k` asks for work,
   * which acknowledges the job in its slot; the resolver extends the queue; on an empty queue the
   * reply is Stop when no generator is outstanding (one fewer worker running) and Wait otherwise;
   * else the reply is the head of the queue. The reply is recorded in the worker's slot.
   */
  function Serve(a: Animation, b: Books, k: nat): (Books, Entry)
    requires b.nproc > 0 && k < |b.slots|
  {
    var finished := b.slots[k];
    var pending := b.queue + Resolve(a, finished, b.nproc);
    var d := b.deps + Delta(finished, b.nproc);
    if pending != [] then (Books(pending[1..], b.slots[k := pending[0]], d, b.nproc), pending[0])
    else if d == 0 then (Books([], b.slots[k := Stop], d, b.nproc - 1), Stop)
    else (Books([], b.slots[k := Wait], d, b.nproc), Wait)
  }

  /**
   * Serving a request from a running worker keeps the invariant, and a generator is only ever
   * acknowledged while every worker is still running, so the resolver's stride is the worker count.
   */
  lemma ServeKeepsInv(workers: nat, a: Animation, b: Books, k: nat)
    requires Inv(workers, b) && b.nproc > 0 && k < workers && b.slots[k] != Stop
    ensures IsGenerator(b.slots[k]) ==> b.nproc == workers
    ensures Inv(workers, Serve(a, b, k).0)
  {
    if IsGenerator(b.slots[k]) {
      CountZeroAt(b.slots, IsGenerator, k);
    }
    var finished := b.slots[k];
    var r := Resolve(a, finished, b.nproc);
    ResolveJobs(a, finished, b.nproc);
    CountAppend(b.queue, r, IsGenerator);
    JobsAppend(b.queue, r, workers);
    ServeRecords(workers, a, b, k);
  }

  /**
   * The books after a request, given that the extended queue holds jobs for the workers and that
   * the generator count accounts for it.
   */
  lemma ServeRecords(workers: nat, a: Animation, b: Books, k: nat)
    requires |b.slots| == workers && 0 < b.nproc <= workers && k < workers && b.slots[k] != Stop
    requires forall w :: 0 <= w < |b.slots| ==> KeyedFor(b.slots[w], workers)
    requires Count(b.slots, IsStop) == workers - b.nproc
    requires b.nproc < workers ==> b.deps == 0
    requires IsGenerator(b.slots[k]) ==> b.nproc == workers
    requires var pending := b.queue + Resolve(a, b.slots[k], b.nproc);
      && JobsFor(pending, workers)
      && b.deps + Delta(b.slots[k], b.nproc)
        == Count(pending, IsGenerator) + Count(b.slots, IsGenerator) - (if IsGenerator(b.slots[k]) then 1 else 0)
    ensures Inv(workers, Serve(a, b, k).0)
  {
    var pending := b.queue + Resolve(a, b.slots[k], b.nproc);
    var d := b.deps + Delta(b.slots[k], b.nproc);
    ServeCases(a, b, k);
    if pending != [] {
      CountTail(pending, IsGenerator);
      RecordKeepsInv(workers, pending[1..], b.slots, k, pending[0], d, b.nproc);
    } else if d == 0 {
      RecordKeepsInv(workers, [], b.slots, k, Stop, d, b.nproc - 1);
    } else {
      RecordKeepsInv(workers, [], b.slots, k, Wait, d, b.nproc);
    }
  }

  /** The three outcomes of `Serve`, each with the books it records. */
  lemma ServeCases(a: Animation, b: Books, k: nat)
    requires b.nproc > 0 && k < |b.slots|
    ensures var pending := b.queue + Resolve(a, b.slots[k], b.nproc);
      var d := b.deps + Delta(b.slots[k], b.nproc);
      && (pending != [] ==> Serve(a, b, k).0 == Books(pending[1..], b.slots[k := pending[0]], d, b.nproc))
      && (pending == [] && d == 0 ==> Serve(a, b, k).0 == Books([], b.slots[k := Stop], d, b.nproc - 1))
      && (pending == [] && d != 0 ==> Serve(a, b, k).0 == Books([], b.slots[k := Wait], d, b.nproc))
  {
  }

  /** Recording the reply in the requester's slot yields books that satisfy the invariant. */
  lemma RecordKeepsInv(workers: nat, queue: seq<Entry>, slots: seq<Entry>, k: nat, reply: Entry, d: int, n: int)
    requires |slots| == workers && k < workers
    requires 0 <= n <= workers && JobsFor(queue, workers) && KeyedFor(reply, workers)
    requires forall w :: 0 <= w < |slots| ==> KeyedFor(slots[w], workers)
    requires d == Count(queue, IsGenerator) + (if IsGenerator(reply) then 1 else 0)
      + Count(slots, IsGenerator) - (if IsGenerator(slots[k]) then 1 else 0)
    requires Count(slots, IsStop) - (if slots[k].Stop? then 1 else 0) + (if reply.Stop? then 1 else 0) == workers - n
    requires n < workers ==> d == 0
    ensures Inv(workers, Books(queue, slots[k := reply], d, n))
  {
    CountUpdate(slots, k, reply, IsGenerator);
    CountUpdate(slots, k, reply, IsStop);
  }

  /** A Stop reply is sent only on an empty queue with no generator outstanding. */
  lemma StopOnlyWhenDone(workers: nat, a: Animation, b: Books, k: nat)
    requires Inv(workers, b) && b.nproc > 0 && k < workers && b.slots[k] != Stop
    ensures Serve(a, b, k).1 == Stop ==> Serve(a, b, k).0.deps == 0 && Serve(a, b, k).0.queue == []
    ensures Serve(a, b, k).0.nproc == b.nproc - if Serve(a, b, k).1 == Stop then 1 else 0
  {
    if IsGenerator(b.slots[k]) {
      CountZeroAt(b.slots, IsGenerator, k);
    }
    ResolveJobs(a, b.slots[k], b.nproc);
  }

  /**
   * The loop ends (nproc == 0) only when every worker's slot holds Stop: each worker received
   * exactly one Stop, since a stopped worker sends no further request.
   */
  lemma AllWorkersStopped(workers: nat, b: Books)
    requires Inv(workers, b) && b.nproc == 0
    ensures forall w :: 0 <= w < workers ==> b.slots[w] == Stop
  {
    CountFull(b.slots, IsStop);
  }

  /**
   * A Wait reply keeps the asking worker idle only while another worker still holds a generator:
   * an empty queue with generators outstanding means one of them is in flight elsewhere, and its
   * acknowledgement will extend the queue.
   */
  lemma WaitOnlyWhileGeneratorInFlight(workers: nat, a: Animation, b: Books, k: nat)
    requires Inv(workers, b) && b.nproc > 0 && k < workers && b.slots[k] != Stop
    ensures Serve(a, b, k).1 == Wait ==> exists w :: 0 <= w < workers && w != k && IsGenerator(b.slots[w])
  {
    if Serve(a, b, k).1 == Wait {
      ServeKeepsInv(workers, a, b, k);
      HeadIsJob(a, b, k);
      var after := Serve(a, b, k).0;
      assert after.queue == [] && after.slots == b.slots[k := Wait] && after.deps != 0;
      var w := CountWitness(after.slots, IsGenerator);
      assert w != k && b.slots[w] == after.slots[w];
    }
  }

  /**
   * The jobs a shard job still leads to once it sits in a worker's slot: its render jobs. The
   * stride is the one the shard carries.
   */
  function ShardFollow(a: Animation, e: Entry): nat
  {
    if e.LoadXytsTs? && e.inc > 0 then |ShardJobs(a, e.start, e.inc, a.framesSr)| else 0
  }

  /** A shard job waiting in the queue: itself and its render jobs. */
  function ShardCost(a: Animation): Entry -> nat
  {
    e => 1 + ShardFollow(a, e)
  }

  /**
   * The jobs acknowledging `e` in a worker's slot will still lead to, with `workers` workers: the
   * global preparation leads to every shard and their render jobs, a shard to its render jobs, a
   * render job or a sentinel to nothing.
   */
  function Follow(a: Animation, workers: nat, e: Entry): nat
  {
    if e.LoadXyts? then Sum(FanOut(workers, workers), ShardCost(a)) else ShardFollow(a, e)
  }

  /** A queued entry: itself and what it leads to. */
  function QueueCost(a: Animation, workers: nat): Entry -> nat
  {
    e => 1 + Follow(a, workers, e)
  }

  /** An entry in a worker's slot: what acknowledging it leads to. */
  function SlotCost(a: Animation, workers: nat): Entry -> nat
  {
    e => Follow(a, workers, e)
  }

  /**
   * The replies still to come that are not Wait: every job queued or yet to be generated is
   * handed out once, and every running worker receives one Stop.
   */
  function Outstanding(a: Animation, workers: nat, b: Books): int
  {
    Sum(b.queue, QueueCost(a, workers)) + Sum(b.slots, SlotCost(a, workers)) + b.nproc
  }

  /**
   * The coordinator loop makes progress: the outstanding count is never negative, every reply other
   * than Wait lowers it by exactly one, and a Wait leaves it as it was. With
   * WaitOnlyWhileGeneratorInFlight, the loop ends after at most that many replies other than Wait.
   */
  lemma ServeProgress(workers: nat, a: Animation, b: Books, k: nat)
    requires Inv(workers, b) && b.nproc > 0 && k < workers && b.slots[k] != Stop
    ensures Outstanding(a, workers, b) > 0
    ensures Outstanding(a, workers, Serve(a, b, k).0)
      == Outstanding(a, workers, b) - if Serve(a, b, k).1 == Wait then 0 else 1
  {
    if IsGenerator(b.slots[k]) {
      CountZeroAt(b.slots, IsGenerator, k);
    }
    ResolveWork(workers, a, b.slots[k], b.nproc);
    HeadIsJob(a, b, k);
    ServeCost(workers, a, b, k);
  }

  /**
   * The step of `ServeProgress`, given that what the resolver enqueues costs what the acknowledged
   * job led to and that a reply drawn from the queue is a real job.
   */
  lemma ServeCost(workers: nat, a: Animation, b: Books, k: nat)
    requires b.nproc > 0 && k < |b.slots| && b.slots[k] != Stop
    requires Sum(Resolve(a, b.slots[k], b.nproc), QueueCost(a, workers)) == Follow(a, workers, b.slots[k])
    requires var pending := b.queue + Resolve(a, b.slots[k], b.nproc);
      pending != [] ==> IsJob(pending[0])
    ensures Outstanding(a, workers, Serve(a, b, k).0)
      == Outstanding(a, workers, b) - if Serve(a, b, k).1 == Wait then 0 else 1
  {
    var finished := b.slots[k];
    var r := Resolve(a, finished, b.nproc);
    var q, h := QueueCost(a, workers), SlotCost(a, workers);
    SumAppend(b.queue, r, q);
    var pending := b.queue + r;
    if pending != [] {
      SumTail(pending, q);
      SumUpdate(b.slots, k, pending[0], h);
    } else {
      SumUpdate(b.slots, k, Stop, h);
      SumUpdate(b.slots, k, Wait, h);
    }
  }

  /** The head of the extended queue is a real job, so a reply drawn from it is never Wait. */
  lemma HeadIsJob(a: Animation, b: Books, k: nat)
    requires JobsFor(b.queue, |b.slots|) && b.nproc > 0 && k < |b.slots|
    ensures var pending := b.queue + Resolve(a, b.slots[k], b.nproc);
      pending != [] ==> IsJob(pending[0])
  {
    ResolveJobs(a, b.slots[k], b.nproc);
  }

  /** What the resolver enqueues for an acknowledged job costs exactly what the job led to. */
  lemma ResolveWork(workers: nat, a: Animation, finished: Entry, n: nat)
    requires 0 < n && KeyedFor(finished, workers) && (IsGenerator(finished) ==> n == workers)
    ensures Sum(Resolve(a, finished, n), QueueCost(a, workers)) == Follow(a, workers, finished)
  {
    var r := Resolve(a, finished, n);
    if finished.LoadXyts? {
      forall j | 0 <= j < |r|
        ensures QueueCost(a, workers)(r[j]) == ShardCost(a)(r[j])
      {
        assert r[j] == LoadXytsTs(j, n);
      }
      SumPointwise(r, QueueCost(a, workers), ShardCost(a));
    } else if finished.LoadXytsTs? {
      ShardJobsFrames(a, finished.start, n, a.framesSr);
      SumRenders(r, QueueCost(a, workers));
    }
  }

  /** Books with every worker running and every slot empty satisfy the invariant. */
  lemma StartInv(workers: nat, queue: seq<Entry>, deps: int, slots: seq<Entry>)
    requires |slots| == workers && forall w :: 0 <= w < workers ==> slots[w] == Wait
    requires JobsFor(queue, workers) && deps == Count(queue, IsGenerator)
    ensures Inv(workers, Books(queue, slots, deps, workers))
  {
    ZeroCount(slots, IsGenerator);
    ZeroCount(slots, IsStop);
  }

  /** The coordinator process: the books, with the slots held in an array. */
  class Coordinator {
    const workers: nat        // workers spawned
    const anim: Animation     // frame numbering and timestep mapping of the animation
    var queue: seq<Entry>
    var deps: int
    var nproc: int
    const inProgress: array<Entry>

    ghost function State(): Books
      reads this, inProgress
    {
      Books(queue, inProgress[..], deps, nproc)
    }

    ghost predicate Valid()
      reads this, inProgress
    {
      inProgress.Length == workers && Inv(workers, State())
    }

    /**
     * Starts a run once the set-up has succeeded: builds the initial queue, spawns `workers`
     * workers with empty slots (Python `None`, the same value as Wait).
     */
    constructor (animate: bool, hasXyts: bool, still: nat, fade: nat,
                 framesSr: nat, nt: nat, workers: nat, xpos: nat -> int)
      requires animate ==> SetupDivides(still, fade)
      ensures Valid() && fresh(inProgress)
      ensures this.workers == workers && anim.nt == nt && anim.framesSr == framesSr && anim.xpos == xpos
      ensures animate ==> anim.frames == still + fade
      ensures IsInitialQueue(queue, animate, hasXyts, still, fade)
      ensures deps == if animate && hasXyts then 1 else 0
      ensures nproc == workers
      ensures forall w :: 0 <= w < workers ==> inProgress[w] == Wait
    {
      var setup := BuildInitialQueue(animate, hasXyts, still, fade);
      var f := setup.value.frames;
      this.workers := workers;
      anim := Animation(if f.Some? then f.value else 0, framesSr, nt, xpos);
      queue := setup.value.queue;
      deps := setup.value.deps;
      nproc := workers;
      inProgress := new Entry[workers](_ => Wait);
      new;
      StartInv(workers, queue, deps, inProgress[..]);
    }

    /**
     * One iteration of the coordinator loop for a request from worker `slaveId`: resolve the job
     * that worker last received, synthesise Wait or Stop if the queue is then empty, and hand the
     * head of the queue to the worker, recording it in the worker's slot.
     */
    method HandleRequest(slaveId: nat) returns (reply: Entry)
      requires Valid() && nproc > 0
      requires slaveId < workers && inProgress[slaveId] != Stop
      modifies this, inProgress
      ensures Valid()
      ensures (State(), reply) == Serve(anim, old(State()), slaveId)
    {
      ghost var b := State();
      ghost var served := Serve(anim, b, slaveId);
      var finished := inProgress[slaveId];
      var n := nproc;
      // dependency tracking
      var q, d := ResolveDependencies(anim, finished, queue, deps, n);
      ghost var pending := q;
      // synthesise a sentinel on an empty queue
      if |q| == 0 {
        if d == 0 {
          q := q + [Stop];
          n := n - 1;
        } else {
          q := q + [Wait];
        }
        assert q[1..] == [];
      }
      // next job
      reply := q[0];
      queue, deps, nproc := q[1..], d, n;
      inProgress[slaveId] := reply;
      assert inProgress[..] == b.slots[slaveId := reply];
      assert pending != [] ==> q == pending;
      assert reply == served.1 && queue == served.0.queue && inProgress[..] == served.0.slots;
      assert deps == served.0.deps && nproc == served.0.nproc;
      assert State() == served.0;
      ServeKeepsInv(workers, anim, b, slaveId);
    }
  }

  /** Appending a queue of jobs for `n` workers keeps the queue one of jobs for `n` workers. */
  lemma JobsAppend(a: seq<Entry>, b: seq<Entry>, n: nat)
    requires JobsFor(a, n) && JobsFor(b, n)
    ensures JobsFor(a + b, n)
  {
    assert forall k :: |a| <= k < |a + b| ==> (a + b)[k] == b[k - |a|];
  }

  /** An entry satisfying `p` makes the count positive. */
  lemma CountZeroAt(s: seq<Entry>, p: Entry -> bool, k: nat)
    requires k < |s| && p(s[k])
    ensures Count(s, p) > 0
  {
    if Count(s, p) == 0 {
      CountZero(s, p);
    }
  }

  /** A sequence none of whose entries satisfies `p` counts zero. */
  lemma {:induction false} ZeroCount(s: seq<Entry>, p: Entry -> bool)
    requires forall k :: 0 <= k < |s| ==> !p(s[k])
    ensures Count(s, p) == 0
  {
    if s != [] {
      ZeroCount(s[..|s| - 1], p);
    }
  }

  /** An entry counted by `Count` sits at an index: this lemma returns one. */
  lemma {:induction false} CountWitness(s: seq<Entry>, p: Entry -> bool) returns (i: nat)
    requires Count(s, p) > 0
    ensures i < |s| && p(s[i])
  {
    if p(s[|s| - 1]) {
      i := |s| - 1;
    } else {
      i := CountWitness(s[..|s| - 1], p);
      assert s[..|s| - 1][i] == s[i];
    }
  }

  /** The total weight `f` gives the entries of `s`. */
  function Sum(s: seq<Entry>, f: Entry -> nat): nat
  {
    if s == [] then 0 else Sum(s[..|s| - 1], f) + f(s[|s| - 1])
  }

  lemma {:induction false} SumAppend(a: seq<Entry>, b: seq<Entry>, f: Entry -> nat)
    ensures Sum(a + b, f) == Sum(a, f) + Sum(b, f)
    decreases |b|
  {
    if b == [] {
      assert a + b == a;
    } else {
      var b' := b[..|b| - 1];
      assert (a + b)[..|a + b| - 1] == a + b';
      SumAppend(a, b', f);
    }
  }

  lemma SumTail(s: seq<Entry>, f: Entry -> nat)
    requires s != []
    ensures Sum(s[1..], f) == Sum(s, f) - f(s[0])
  {
    assert s == [s[0]] + s[1..];
    SumAppend([s[0]], s[1..], f);
  }

  lemma SumUpdate(s: seq<Entry>, k: nat, e: Entry, f: Entry -> nat)
    requires k < |s|
    ensures Sum(s[k := e], f) == Sum(s, f) - f(s[k]) + f(e)
  {
    assert s == s[..k] + [s[k]] + s[k + 1..];
    assert s[k := e] == s[..k] + [e] + s[k + 1..];
    SumAppend(s[..k] + [s[k]], s[k + 1..], f);
    SumAppend(s[..k] + [e], s[k + 1..], f);
    SumAppend(s[..k], [s[k]], f);
    SumAppend(s[..k], [e], f);
  }

  lemma {:induction false} SumPointwise(s: seq<Entry>, f: Entry -> nat, g: Entry -> nat)
    requires forall j :: 0 <= j < |s| ==> f(s[j]) == g(s[j])
    ensures Sum(s, f) == Sum(s, g)
  {
    if s != [] {
      assert forall j :: 0 <= j < |s| - 1 ==> s[..|s| - 1][j] == s[j];
      SumPointwise(s[..|s| - 1], f, g);
    }
  }

  /** Render jobs weigh one each in the queue. */
  lemma {:induction false} SumRenders(s: seq<Entry>, f: Entry -> nat)
    requires forall j :: 0 <= j < |s| ==> s[j].Timeslice? && f(s[j]) == 1
    ensures Sum(s, f) == |s|
  {
    if s != [] {
      assert forall j :: 0 <= j < |s| - 1 ==> s[..|s| - 1][j] == s[j];
      SumRenders(s[..|s| - 1], f);
    }
  }
}
