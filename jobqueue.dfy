/**
 * One named job queue of gnome15's job-scheduling utility: a FIFO channel
 * (`work_queue`) read by a fixed number of worker threads, the parallel
 * introspection list `queued_jobs`, and the `stopping` flag.
 *
 * Every method is one atomic step: the per-queue lock and the blocking
 * channel are left out, and a worker's loop iteration is split into the
 * moment it takes an item off the channel (`Take`) and the moment its
 * `finally` clause runs (`Finish`), so that a `clear` can happen while a
 * job is executing.
 */
module JobQueues {
  import opened Wrappers
  import opened PyList

  /** An opaque reference to a Python object passed as a job argument. */
  type ObjRef = nat

  /** What a caller hands over as the job's function. */
  datatype Func =
    | Null                                 // Python's None
    | Object(ref: ObjRef, callable: bool)  // any other object; `callable` is whether it has `__call__`
    | Dummy                                // the queue's own no-op `_dummy`, run by the stop sentinels
  {
    predicate IsCallable() {
      match this
      case Null => false
      case Object(_, c) => c
      case Dummy => true
    }
  }

  /** A `JobItem`: the function and arguments of one submission.  Its timestamps and stack are diagnostics and are not modelled. */
  class JobItem {
    const item: Func
    const args: seq<ObjRef>

    constructor (item: Func, args: seq<ObjRef>)
      ensures this.item == item && this.args == args
    {
      this.item := item;
      this.args := args;
    }
  }

  /** The observable state of a queue: the channel, the introspection list and the flag. */
  datatype QueueState = QueueState(work: seq<JobItem>, queued: seq<JobItem>, stopping: bool)

  /** A newly built queue. */
  const Idle := QueueState([], [], false)

  /**
   * What `run(fn, args)` does to a queue in state s, giving s': nothing when
   * the queue is stopping or fn is None, otherwise one new item carrying fn
   * and args at the end of both the channel and the introspection list.
   */
  ghost predicate RunEffect(s: QueueState, s': QueueState, fn: Func, args: seq<ObjRef>)
  {
    if s.stopping || fn.Null? then s' == s
    else
      |s'.work| == |s.work| + 1 &&
      var ji := s'.work[|s.work|];
      s' == QueueState(s.work + [ji], s.queued + [ji], s.stopping) &&
      ji.item == fn && ji.args == args && ji !in s.work && ji !in s.queued
  }

  /** What `clear` does: the channel is emptied and every drained item leaves the introspection list. */
  ghost predicate ClearEffect(s: QueueState, s': QueueState)
  {
    s' == QueueState([], Without(s.queued, s.work), s.stopping)
  }

  /**
   * What `stop` does on a queue with `workers` workers: the flag is up, the
   * channel is cleared, and it then holds one sentinel per worker, none of
   * them in the introspection list.
   */
  ghost predicate StopEffect(s: QueueState, s': QueueState, workers: nat)
  {
    s'.stopping &&
    s'.queued == Without(s.queued, s.work) &&
    |s'.work| == workers &&
    forall x :: x in s'.work ==> x.item == Dummy && x !in s'.queued
  }

  /** Clearing an already cleared queue changes nothing. */
  lemma ClearTwice(s: QueueState, s1: QueueState, s2: QueueState)
    requires ClearEffect(s, s1) && ClearEffect(s1, s2)
    ensures s2 == s1
  {
    WithoutNone(s1.queued, s1.work);
  }

  /** A job run and then cleared leaves no trace: the result is what clearing before the run gives. */
  lemma RunThenClear(s: QueueState, s1: QueueState, s2: QueueState, fn: Func, args: seq<ObjRef>)
    requires RunEffect(s, s1, fn, args) && ClearEffect(s1, s2)
    ensures ClearEffect(s, s2)
  {
    if !s.stopping && !fn.Null? {
      var ji := s1.work[|s.work|];
      WithoutAppended(s.queued, s.work, ji);
    }
  }

  /** Once a queue is stopped, every `run` on it is a no-op. */
  lemma RunAfterStop(s: QueueState, s1: QueueState, workers: nat, s2: QueueState, fn: Func, args: seq<ObjRef>)
    requires StopEffect(s, s1, workers) && RunEffect(s1, s2, fn, args)
    ensures s2 == s1
  {
  }

  /** How the user's callable ended. */
  datatype Outcome =
    | Returned   // it returned normally
    | Raised     // it raised an `Exception`, which the worker catches and swallows
    | Escaped    // it raised something that is not an `Exception` (SystemExit, KeyboardInterrupt):
                 // the `finally` runs, but the exception leaves the loop and ends the worker

  /** Outcome of one iteration of a worker's loop. */
  datatype StepResult =
    | Blocked                          // the channel is empty: the worker waits in `get`
    | Ran(item: JobItem, more: bool)   // the worker ran `item`; `more` is whether its loop goes round again

  class JobQueue {
    const name: string
    const workers: nat                 // number_of_workers
    var work: seq<JobItem>             // work_queue, head first
    var queued: seq<JobItem>           // queued_jobs
    var stopping: bool

    ghost var pushed: seq<JobItem>     // every item ever put on the channel, in order
    ghost var popped: seq<JobItem>     // every item ever taken off it, by a worker or by clear, in order
    ghost var running: set<JobItem>    // items a worker has taken and not yet finished
    ghost var submitted: set<JobItem>  // items created by run (the stop sentinels are not)

    /**
     * The channel is FIFO (what was taken off it plus what is on it is what
     * was put on it), no item is on it twice, and `queued_jobs` holds exactly
     * the submitted items that are still on the channel or in a worker's
     * hands.
     */
    ghost predicate Valid()
      reads this
    {
      pushed == popped + work &&
      Distinct(pushed) &&
      Distinct(queued) &&
      (forall x :: x in running ==> x in popped) &&
      (forall x :: x in queued ==> x in submitted && (x in running || x in work)) &&
      (forall x :: x in submitted && (x in running || x in work) ==> x in queued)
    }

    function State(): QueueState
      reads this
    {
      QueueState(work, queued, stopping)
    }

    /** `JobQueue(number_of_workers, name)`; the worker threads it starts are the callers of `Take` and `Finish`. */
    constructor (workers: nat, name: string)
      ensures Valid() && State() == Idle
      ensures this.workers == workers && this.name == name
      ensures running == {} && submitted == {}
    {
      this.name := name;
      this.workers := workers;
      work, queued, stopping := [], [], false;
      pushed, popped, running, submitted := [], [], {}, {};
    }

    /** `run`: drop the job when stopping or when it is None, otherwise wrap it in a fresh item and put it on both lists. */
    method Run(fn: Func, args: seq<ObjRef>) returns (r: Option<JobItem>)
      requires Valid()
      modifies this
      ensures Valid()
      ensures r.Some? <==> !old(stopping) && !fn.Null?
      ensures r.None? ==> unchanged(this)
      ensures r.Some? ==> fresh(r.value) && r.value.item == fn && r.value.args == args
      ensures r.Some? ==> work == old(work) + [r.value] && queued == old(queued) + [r.value]
      ensures RunEffect(old(State()), State(), fn, args)
      ensures stopping == old(stopping) && running == old(running)
    {
      if stopping {
        return None;
      }
      if fn.Null? {
        return None;
      }
      var ji := new JobItem(fn, args);
      queued := queued + [ji];
      work := work + [ji];
      pushed := pushed + [ji];
      submitted := submitted + {ji};
      r := Some(ji);
    }

    /** `clear`: drain the channel without blocking, dropping each drained item from `queued_jobs`. */
    method Clear()
      requires Valid()
      modifies this
      ensures Valid()
      ensures work == [] && queued == Without(old(queued), old(work))
      ensures old(work) == [] ==> queued == old(queued)
      ensures forall x :: x in old(queued) && x in running ==> x in queued
      ensures ClearEffect(old(State()), State())
      ensures stopping == old(stopping) && running == old(running) && submitted == old(submitted)
    {
      if |work| > 0 {
        ghost var drained: seq<JobItem> := [];
        WithoutNone(queued, drained);
        while work != []
          invariant Valid()
          invariant old(work) == drained + work
          invariant queued == Without(old(queued), drained)
          invariant stopping == old(stopping) && running == old(running) && submitted == old(submitted)
          decreases |work|
        {
          ghost var item := work[0];
          ghost var rest := work[1..];
          assert old(work) == (drained + [item]) + rest;
          DrainHead();
          WithoutSnoc(old(queued), drained, item);
          drained := drained + [item];
        }
        assert drained == old(work);
      } else {
        WithoutNone(queued, work);
      }
    }

    /** One round of clear's loop: `get_nowait`, then drop the item from `queued_jobs` if it is there. */
    method DrainHead()
      requires Valid() && work != []
      modifies this
      ensures Valid()
      ensures work == old(work)[1..] && queued == Without(old(queued), [old(work)[0]])
      ensures stopping == old(stopping) && running == old(running) && submitted == old(submitted)
    {
      var item := work[0];
      DistinctSplit(popped, work);
      assert popped + work == (popped + [item]) + work[1..];
      DistinctSplit(popped + [item], work[1..]);
      assert item !in running && item !in work[1..];
      work := work[1..];
      popped := popped + [item];
      if item in queued {
        RemoveFirstIsWithout(queued, item);
        queued := RemoveFirst(queued, item);
      } else {
        WithoutNone(queued, [item]);
      }
    }

    /** `stop`: raise the flag, clear, then put one inert sentinel per worker so that every blocked worker wakes up. */
    method Stop()
      requires Valid()
      modifies this
      ensures Valid()
      ensures stopping
      ensures queued == Without(old(queued), old(work))
      ensures |work| == workers
      ensures forall i :: 0 <= i < |work| ==> fresh(work[i]) && work[i].item == Dummy && work[i] !in queued
      ensures StopEffect(old(State()), State(), workers)
      ensures running == old(running) && submitted == old(submitted)
    {
      stopping := true;
      Clear();
      var i := 0;
      while i < workers
        invariant 0 <= i <= workers && |work| == i
        invariant Valid() && stopping
        invariant queued == Without(old(queued), old(work))
        invariant running == old(running) && submitted == old(submitted)
        invariant forall k :: 0 <= k < i ==> fresh(work[k]) && work[k].item == Dummy && work[k] !in submitted
      {
        var sentinel := new JobItem(Dummy, []);
        Put(sentinel);
        i := i + 1;
      }
    }

    /** `jobs.put` of an item no caller submitted: it goes to the back of the channel. */
    method Put(item: JobItem)
      requires Valid() && item !in pushed && item !in submitted
      modifies this`work, this`pushed
      ensures Valid() && work == old(work) + [item]
    {
      assert Distinct(pushed + [item]) by {
        forall i, j | 0 <= i < j < |pushed| + 1
          ensures (pushed + [item])[i] != (pushed + [item])[j]
        {
          if j == |pushed| {
            assert (pushed + [item])[i] == pushed[i];
          }
        }
      }
      assert pushed + [item] == popped + (work + [item]);
      work := work + [item];
      pushed := pushed + [item];
    }

    /** A worker's `get`: take the head of the channel, or wait when it is empty. */
    method Take() returns (item: Option<JobItem>)
      requires Valid()
      modifies this
      ensures Valid()
      ensures old(work) == [] ==> item == None && unchanged(this)
      ensures old(work) != [] ==> item == Some(old(work)[0]) && work == old(work)[1..]
      ensures old(work) != [] ==> running == old(running) + {old(work)[0]} && old(work)[0] !in old(running)
      ensures queued == old(queued) && stopping == old(stopping) && submitted == old(submitted)
    {
      if work == [] {
        return None;
      }
      var head := work[0];
      DistinctSplit(popped, work);
      assert popped + work == (popped + [head]) + work[1..];
      DistinctSplit(popped + [head], work[1..]);
      work := work[1..];
      popped := popped + [head];
      running := running + {head};
      item := Some(head);
    }

    /**
     * The rest of the iteration, after the job returned or raised: the
     * `finally` drops the item from `queued_jobs` in every case, as
     * Python's `remove` does.  An `Exception` is swallowed and the loop
     * goes round again while not stopping; any other exception escapes the
     * loop and the worker ends.
     */
    method Finish(item: JobItem, outcome: Outcome) returns (more: bool)
      requires Valid() && item in running
      modifies this
      ensures Valid()
      ensures queued == RemoveFirst(old(queued), item) && queued == Without(old(queued), [item])
      ensures running == old(running) - {item}
      ensures work == old(work) && stopping == old(stopping) && submitted == old(submitted)
      ensures more <==> outcome != Escaped && !stopping
    {
      more := Release(item, outcome);
      RemoveFirstIsWithout(old(queued), item);
    }

    /** `Finish` with its effect on `queued_jobs` stated by `Without` only. */
    method Release(item: JobItem, outcome: Outcome) returns (more: bool)
      requires Valid() && item in running
      modifies this
      ensures Valid()
      ensures queued == Without(old(queued), [item])
      ensures running == old(running) - {item}
      ensures work == old(work) && stopping == old(stopping) && submitted == old(submitted)
      ensures more <==> outcome != Escaped && !stopping
    {
      DistinctSplit(popped, work);
      RemoveFirstIsWithout(queued, item);
      if item in queued {
        queued := RemoveFirst(queued, item);
      }
      running := running - {item};
      if outcome == Escaped {
        more := false;
      } else {
        more := !stopping;
      }
    }

    /** One whole loop iteration of a worker, with no other step in between. */
    method WorkerStep(outcome: Outcome) returns (step: StepResult)
      requires Valid()
      modifies this
      ensures Valid()
      ensures old(work) == [] ==> step == Blocked && unchanged(this)
      ensures old(work) != [] ==> step == Ran(old(work)[0], outcome != Escaped && !stopping)
      ensures old(work) != [] ==> work == old(work)[1..] && queued == Without(old(queued), [old(work)[0]])
      ensures stopping == old(stopping) && running == old(running) && submitted == old(submitted)
    {
      var taken := Take();
      match taken
      case None =>
        step := Blocked;
      case Some(item) =>
        ghost var held := running;
        var more := Release(item, outcome);
        assert running == held - {item} == old(running);
        step := Ran(item, more);
    }
  }
}
