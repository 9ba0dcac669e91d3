/**
 * The scheduler side of gnome15's job-scheduling utility: `JobScheduler`,
 * the registry of named queues plus the list `all_jobs` of pending delayed
 * timers, and `GTimer`, a one-shot trigger that hands a job to a queue when
 * its main-loop timeout expires.  The gobject timeout source is the flag
 * `sourceLive`; the main loop calling the timer back is `Fire`.
 */
module Scheduling {
  import opened Wrappers
  import opened PyList
  import opened JobQueues

  /** The exceptions that escape to the caller. */
  datatype Error =
    | NotAFunction      // `queue` was given an object without `__call__`
    | AttributeMissing  // a method ran on a timer whose constructor returned early

  /** The queue `schedule` submits to. */
  const DefaultQueue := "default"

  class GTimer {
    const scheduler: JobScheduler
    const taskQueue: JobQueue
    const taskName: string
    const interval: real
    const fn: Func
    const args: seq<ObjRef>
    /** False when the constructor returned early on a None function: then the other attributes were never set. */
    const initialized: bool
    var sourceLive: bool
    var complete: bool

    /** `GTimer(...)`: arm the timeout and enter the scheduler's `all_jobs`, unless the function is None. */
    constructor (scheduler: JobScheduler, taskQueue: JobQueue, taskName: string, interval: real,
                 fn: Func, args: seq<ObjRef>)
      requires scheduler.Valid() && taskQueue.Valid()
      modifies scheduler
      ensures this.scheduler == scheduler && this.taskQueue == taskQueue && this.taskName == taskName
      ensures this.interval == interval && this.fn == fn && this.args == args
      ensures initialized <==> !fn.Null?
      ensures initialized ==> sourceLive && !complete
      ensures initialized ==> scheduler.allJobs == old(scheduler.allJobs) + [this]
      ensures initialized ==> scheduler.timers == old(scheduler.timers) + {this}
      ensures !initialized ==> !sourceLive
      ensures !initialized ==> scheduler.allJobs == old(scheduler.allJobs) && scheduler.timers == old(scheduler.timers)
      ensures unchanged(scheduler`queues)
      ensures scheduler.Valid()
    {
      this.scheduler := scheduler;
      this.taskQueue := taskQueue;
      this.taskName := taskName;
      this.interval := interval;
      this.fn := fn;
      this.args := args;
      this.initialized := !fn.Null?;
      this.sourceLive := !fn.Null?;
      this.complete := false;
      new;
      if !fn.Null? {
        scheduler.allJobs := scheduler.allJobs + [this];
        scheduler.timers := scheduler.timers + {this};
      }
    }

    /**
     * `exec_item`, called back by the main loop: hand the job to the queue's
     * `run`, leave `all_jobs`, become complete, and return False so that the
     * source is destroyed and never fires again.
     */
    method Fire() returns (again: bool)
      requires scheduler.Valid() && this in scheduler.timers && sourceLive
      modifies this, taskQueue, scheduler
      ensures scheduler.Valid()
      ensures !again && complete && !sourceLive
      ensures RunEffect(old(taskQueue.State()), taskQueue.State(), fn, args)
      ensures scheduler.allJobs == RemoveFirst(old(scheduler.allJobs), this) && this !in scheduler.allJobs
      ensures unchanged(scheduler`queues, scheduler`timers)
    {
      var _ := taskQueue.Run(fn, args);
      assert scheduler.Valid();
      Forget();
      complete := true;
      sourceLive := false;
      again := false;
    }

    /** The guarded `all_jobs.remove(self)` that firing and cancelling share. */
    method Forget()
      requires scheduler.Valid() && this in scheduler.timers
      modifies scheduler`allJobs
      ensures scheduler.allJobs == RemoveFirst(old(scheduler.allJobs), this)
      ensures scheduler.allJobs == Without(old(scheduler.allJobs), [this]) && Distinct(scheduler.allJobs)
    {
      RemoveFirstIsWithout(scheduler.allJobs, this);
      if this in scheduler.allJobs {
        scheduler.allJobs := RemoveFirst(scheduler.allJobs, this);
      }
    }

    /** Cancelling a live timer: leave `all_jobs` and destroy the source. */
    method Withdraw()
      requires scheduler.Valid() && this in scheduler.timers && sourceLive
      modifies this`sourceLive, scheduler`allJobs
      ensures scheduler.Valid() && !sourceLive
      ensures scheduler.allJobs == RemoveFirst(old(scheduler.allJobs), this) && this !in scheduler.allJobs
    {
      Forget();
      sourceLive := false;
    }

    /** `is_complete`. */
    method IsComplete() returns (r: Result<bool, Error>)
      ensures r == if initialized then Ok(complete) else Err(AttributeMissing)
    {
      if !initialized {
        return Err(AttributeMissing);
      }
      r := Ok(complete);
    }

    /**
     * `cancel`: leave `all_jobs` if still there and remove the source unless
     * the timer already fired.  The result is whether `source_remove` was
     * called: after firing it is not, so a late cancel changes nothing.
     */
    method Cancel() returns (r: Result<bool, Error>)
      requires initialized ==> scheduler.Valid() && this in scheduler.timers
      modifies this, scheduler
      ensures !initialized ==> r == Err(AttributeMissing) && unchanged(this) && unchanged(scheduler)
      ensures initialized ==> r == Ok(!old(complete))
      ensures initialized ==> scheduler.Valid() && !sourceLive && complete == old(complete)
      ensures initialized ==> scheduler.allJobs == RemoveFirst(old(scheduler.allJobs), this) && this !in scheduler.allJobs
      ensures unchanged(scheduler`queues, scheduler`timers)
      ensures old(complete) ==> unchanged(this) && unchanged(scheduler)
    {
      if !initialized {
        return Err(AttributeMissing);
      }
      // A live timer is in allJobs and not complete: it leaves the list and
      // its source goes.  Any other timer is in neither, so the guarded
      // remove and the source flag change nothing; only the reported
      // `source_remove` call (not complete) still happens, as in the source.
      if sourceLive {
        Withdraw();
      } else {
        assert this !in scheduler.allJobs;
        Forget();
        assert unchanged(this) && unchanged(scheduler);
      }
      r := Ok(!complete);
    }
  }

  class JobScheduler {
    var queues: map<string, JobQueue>
    var allJobs: seq<GTimer>
    ghost var timers: set<GTimer>   // every armed timer built against this scheduler

    /**
     * Each registered queue is valid and registered under its own name, no
     * queue under two names, `all_jobs` lists each timer once, and a timer's
     * source is live exactly while it is in `all_jobs`; a complete timer has
     * no live source.
     */
    ghost predicate Valid()
      reads this, queues.Values, timers, set t | t in timers :: t.taskQueue
    {
      RegistryValid() && TimersValid()
    }

    ghost predicate RegistryValid()
      reads this`queues, queues.Values
    {
      (forall n :: n in queues ==> queues[n].name == n && queues[n].Valid()) &&
      (forall n, m :: n in queues && m in queues && n != m ==> queues[n] != queues[m])
    }

    ghost predicate TimersValid()
      reads this`allJobs, this`timers, timers, set t | t in timers :: t.taskQueue
    {
      Distinct(allJobs) &&
      (forall t :: t in allJobs ==> t in timers) &&
      (forall t :: t in timers ==>
        t.scheduler == this && t.initialized &&
        (t.sourceLive <==> t in allJobs) &&
        (t.complete ==> !t.sourceLive) &&
        (t.sourceLive ==> t.taskQueue.Valid()))
    }

    /** The state the named queue was in before a call: a fresh queue's if it did not exist. */
    twostate function Before(queueName: string): QueueState
    {
      if queueName in old(queues) then old(queues[queueName].State()) else Idle
    }

    /** The named queue exists now, all other registrations are as they were, and a new one has one worker. */
    twostate predicate LazilyCreated(queueName: string)
      reads this
    {
      queueName in queues &&
      queues.Keys == old(queues.Keys) + {queueName} &&
      (forall n :: n in old(queues) ==> queues[n] == old(queues[n])) &&
      (queueName !in old(queues) ==> fresh(queues[queueName]) && queues[queueName].workers == 1)
    }

    constructor ()
      ensures Valid() && queues == map[] && allJobs == [] && timers == {}
    {
      queues := map[];
      allJobs := [];
      timers := {};
    }

    /** Python's `self.queues[name] = JobQueue(name=name)` when the name is not yet registered. */
    method Lookup(queueName: string) returns (q: JobQueue)
      requires Valid()
      modifies this
      ensures Valid() && LazilyCreated(queueName) && q == queues[queueName]
      ensures queueName !in old(queues) ==> q.State() == Idle
      ensures allJobs == old(allJobs) && timers == old(timers)
    {
      if queueName !in queues {
        q := new JobQueue(1, queueName);
        queues := queues[queueName := q];
      } else {
        q := queues[queueName];
      }
    }

    /** `execute`: create the queue if needed and `run` the job on it; it returns nothing. */
    method Execute(queueName: string, name: string, fn: Func, args: seq<ObjRef>)
      requires Valid()
      modifies this, if queueName in queues then {queues[queueName]} else {}
      ensures Valid() && LazilyCreated(queueName)
      ensures RunEffect(Before(queueName), queues[queueName].State(), fn, args)
      ensures allJobs == old(allJobs) && timers == old(timers)
    {
      var _ := Lookup(queueName);
      RunOn(queueName, fn, args);
    }

    /** `self.queues[queue_name].run(...)` on a registered queue; no other queue changes. */
    method RunOn(queueName: string, fn: Func, args: seq<ObjRef>)
      requires Valid() && queueName in queues
      modifies queues[queueName]
      ensures Valid()
      ensures RunEffect(old(queues[queueName].State()), queues[queueName].State(), fn, args)
    {
      var _ := queues[queueName].Run(fn, args);
    }

    /**
     * `queue`: refuse a non-callable job; otherwise create the queue if
     * needed, then run the job at once when the interval is 0 (returning
     * None), or arm a timer that enters `all_jobs` and is returned.
     */
    method Queue(queueName: string, name: string, interval: real, fn: Func, args: seq<ObjRef>)
      returns (r: Result<Option<GTimer>, Error>)
      requires Valid()
      modifies this, if queueName in queues then {queues[queueName]} else {}
      ensures Valid()
      ensures r.Err? <==> !fn.IsCallable()
      ensures r.Err? ==> r.error == NotAFunction && unchanged(this)
      ensures r.Err? && queueName in old(queues) ==> unchanged(old(queues[queueName]))
      ensures r.Ok? ==> LazilyCreated(queueName)
      ensures r.Ok? && interval == 0.0 ==> r.value == None && allJobs == old(allJobs) && timers == old(timers)
      ensures r.Ok? && interval == 0.0 ==> RunEffect(Before(queueName), queues[queueName].State(), fn, args)
      ensures r.Ok? && interval != 0.0 ==> r.value.Some? && queues[queueName].State() == Before(queueName)
      ensures r.Ok? && interval != 0.0 ==>
        var t := r.value.value;
        fresh(t) && allJobs == old(allJobs) + [t] && timers == old(timers) + {t} &&
        t.sourceLive && !t.complete && t.taskQueue == queues[queueName] && t.taskName == name &&
        t.interval == interval && t.fn == fn && t.args == args
    {
      if !fn.IsCallable() {
        return Err(NotAFunction);
      }
      if interval == 0.0 {
        Execute(queueName, name, fn, args);
        r := Ok(None);
      } else {
        var timer := Arm(queueName, name, interval, fn, args);
        r := Ok(Some(timer));
      }
    }

    /** The timed branch of `queue`: create the queue if needed and arm a timer on it. */
    method Arm(queueName: string, name: string, interval: real, fn: Func, args: seq<ObjRef>)
      returns (t: GTimer)
      requires Valid() && fn.IsCallable()
      modifies this
      ensures Valid() && LazilyCreated(queueName)
      ensures queues[queueName].State() == Before(queueName)
      ensures fresh(t) && allJobs == old(allJobs) + [t] && timers == old(timers) + {t}
      ensures t.sourceLive && !t.complete && t.taskQueue == queues[queueName] && t.taskName == name
      ensures t.interval == interval && t.fn == fn && t.args == args
    {
      var q := Lookup(queueName);
      t := new GTimer(this, q, name, interval, fn, args);
    }

    /** `schedule`: `queue` on the queue named "default". */
    method Schedule(name: string, interval: real, fn: Func, args: seq<ObjRef>)
      returns (r: Result<Option<GTimer>, Error>)
      requires Valid()
      modifies this, if DefaultQueue in queues then {queues[DefaultQueue]} else {}
      ensures Valid()
      ensures r.Err? <==> !fn.IsCallable()
      ensures r.Err? ==> r.error == NotAFunction && unchanged(this)
      ensures r.Err? && DefaultQueue in old(queues) ==> unchanged(old(queues[DefaultQueue]))
      ensures r.Ok? ==> LazilyCreated(DefaultQueue)
      ensures r.Ok? && interval == 0.0 ==> r.value == None && allJobs == old(allJobs) && timers == old(timers)
      ensures r.Ok? && interval == 0.0 ==> RunEffect(Before(DefaultQueue), queues[DefaultQueue].State(), fn, args)
      ensures r.Ok? && interval != 0.0 ==> r.value.Some? && queues[DefaultQueue].State() == Before(DefaultQueue)
      ensures r.Ok? && interval != 0.0 ==>
        var t := r.value.value;
        fresh(t) && allJobs == old(allJobs) + [t] && timers == old(timers) + {t} &&
        t.sourceLive && !t.complete && t.taskQueue == queues[DefaultQueue] && t.taskName == name &&
        t.interval == interval && t.fn == fn && t.args == args
    {
      r := Queue(DefaultQueue, name, interval, fn, args);
    }

    /** `stop_all`: stop every registered queue; the registry keeps them all. */
    method StopAll()
      requires Valid()
      modifies queues.Values
      ensures Valid()
      ensures forall n :: n in queues ==>
        StopEffect(old(queues[n].State()), queues[n].State(), queues[n].workers)
    {
      var names := queues.Keys;
      while names != {}
        invariant unchanged(this)
        invariant names <= queues.Keys
        invariant Valid()
        invariant forall n :: n in queues && n !in names ==>
          StopEffect(old(queues[n].State()), queues[n].State(), queues[n].workers)
        invariant forall n :: n in names ==> queues[n].State() == old(queues[n].State())
        decreases names
      {
        var n :| n in names;
        label Before:
        StopOne(n);
        forall m | m in queues && m !in names && m != n
          ensures StopEffect(old(queues[m].State()), queues[m].State(), queues[m].workers)
        {
          assert queues[m].State() == old@Before(queues[m].State());
        }
        names := names - {n};
      }
    }

    /** One step of `stop_all`: stop the queue registered as `n`; no other queue changes. */
    method StopOne(n: string)
      requires Valid() && n in queues
      modifies queues[n]
      ensures Valid()
      ensures StopEffect(old(queues[n].State()), queues[n].State(), queues[n].workers)
      ensures forall m :: m in queues && m != n ==> queues[m].State() == old(queues[m].State())
    {
      queues[n].Stop();
    }

    /** `clear_jobs`: clear the named queue if it is registered. */
    method ClearJobs(queueName: string)
      requires Valid()
      modifies if queueName in queues then {queues[queueName]} else {}
      ensures Valid()
      ensures queueName in queues ==> ClearEffect(old(queues[queueName].State()), queues[queueName].State())
    {
      if queueName in queues {
        queues[queueName].Clear();
      }
    }

    /** `stop_queue`: stop the named queue and take it out of the registry, if it is registered. */
    method StopQueue(queueName: string)
      requires Valid()
      modifies if queueName in queues then {this, queues[queueName]} else {}
      ensures Valid()
      ensures queues == old(queues) - {queueName}
      ensures allJobs == old(allJobs) && timers == old(timers)
      ensures queueName in old(queues) ==>
        var q := old(queues[queueName]);
        StopEffect(old(q.State()), q.State(), q.workers) &&
        forall i :: 0 <= i < |q.work| ==> fresh(q.work[i])
    {
      if queueName in queues {
        var q := queues[queueName];
        q.Stop();
        queues := queues - {queueName};
      }
    }
  }
}
