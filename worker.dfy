/**
 * The worker side of the perspective-animation renderer (plot/plot_srf_perspective.py:559-577).
 *
 * A worker asks the coordinator for work until it is sent Stop. A Wait reply makes it sleep and
 * log a 'sleep' entry; a render job runs and logs a 'timeslice' entry; a generator job runs
 * without a log entry; anything else is reported and skipped. Timings and the bodies of the jobs
 * are not modelled, so a log entry records only what was done.
 */
module Worker {
  import opened Wrappers
  import opened Scheduler

  /** One entry of the worker's logbook. */
  datatype LogEntry = Slept | Rendered(frame: Option<nat>)

  /** The logbook entries produced by handling one reply. */
  function LogOf(e: Entry): seq<LogEntry>
  {
    match e
    case Wait => [Slept]
    case Timeslice(f) => [Rendered(f)]
    case _ => []
  }

  /** Replies that leave a trace in the logbook. */
  predicate IsLogged(e: Entry) { e.Wait? || e.Timeslice? }

  /** The logbook after handling `rs` in order. */
  function Logbook(rs: seq<Entry>): seq<LogEntry>
  {
    if rs == [] then [] else Logbook(rs[..|rs| - 1]) + LogOf(rs[|rs| - 1])
  }

  /** The jobs a worker runs while handling `rs` in order: generators and render jobs alike. */
  function Executed(rs: seq<Entry>): seq<Entry>
  {
    if rs == [] then [] else Executed(rs[..|rs| - 1]) + (if IsJob(rs[|rs| - 1]) then [rs[|rs| - 1]] else [])
  }

  /**
   * The worker loop over the replies it receives, in order. It stops at the first Stop, which it
   * does not handle; `served` is the number of replies handled before it, and `stopped` says
   * whether a Stop arrived at all.
   */
  method RunWorker(replies: seq<Entry>) returns (log: seq<LogEntry>, executed: seq<Entry>, served: nat, stopped: bool)
    ensures served <= |replies|
    ensures forall k :: 0 <= k < served ==> replies[k] != Stop
    ensures stopped <==> Stop in replies
    ensures stopped ==> served < |replies| && replies[served] == Stop
    ensures log == Logbook(replies[..served])
    ensures executed == Executed(replies[..served])
  {
    log, executed, served := [], [], 0;
    while served < |replies| && replies[served] != Stop
      invariant served <= |replies|
      invariant forall k :: 0 <= k < served ==> replies[k] != Stop
      invariant log == Logbook(replies[..served])
      invariant executed == Executed(replies[..served])
    {
      var task := replies[served];
      match task {
        case Wait =>
          log := log + [Slept];
        case LoadXyts =>
          executed := executed + [task];
        case LoadXytsTs(_, _) =>
          executed := executed + [task];
        case Timeslice(f) =>
          executed := executed + [task];
          log := log + [Rendered(f)];
        case _ =>
          // reported and skipped
      }
      assert replies[..served + 1][..served] == replies[..served];
      served := served + 1;
    }
    stopped := served < |replies|;
  }

  lemma {:induction false} LogbookAppend(a: seq<Entry>, b: seq<Entry>)
    ensures Logbook(a + b) == Logbook(a) + Logbook(b)
    decreases |b|
  {
    if b == [] {
      assert a + b == a;
    } else {
      var b' := b[..|b| - 1];
      assert (a + b)[..|a + b| - 1] == a + b';
      LogbookAppend(a, b');
    }
  }

  /** One logbook entry per Wait or render job, and none for anything else. */
  lemma {:induction false} LogbookLength(rs: seq<Entry>)
    ensures |Logbook(rs)| == Count(rs, IsLogged)
  {
    if rs != [] {
      LogbookLength(rs[..|rs| - 1]);
    }
  }

  /** Frame f appears in the logbook exactly when its render job was among the replies handled. */
  lemma {:induction false} LogbookRendered(rs: seq<Entry>, f: Option<nat>)
    ensures Rendered(f) in Logbook(rs) <==> Timeslice(f) in rs
  {
    if rs != [] {
      var init := rs[..|rs| - 1];
      LogbookRendered(init, f);
      assert rs == init + [rs[|rs| - 1]];
      assert Timeslice(f) in rs <==> Timeslice(f) in init || rs[|rs| - 1] == Timeslice(f);
    }
  }

  /** The worker ran exactly the real jobs among the replies, in the order they arrived. */
  lemma {:induction false} ExecutedJobs(rs: seq<Entry>)
    ensures forall e :: e in Executed(rs) <==> e in rs && IsJob(e)
    ensures |Executed(rs)| == Count(rs, IsJob)
  {
    if rs != [] {
      var init := rs[..|rs| - 1];
      ExecutedJobs(init);
      assert rs == init + [rs[|rs| - 1]];
    }
  }
}
