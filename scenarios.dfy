/**
 * Client programs that use the queue and scheduler only through their
 * contracts, in the way the plugins call them.  Each assertion is a
 * consequence of the specifications above.
 */
module Scenarios {
  import opened Wrappers
  import opened PyList
  import opened JobQueues
  import opened Scheduling

  /** Jobs reach a single worker in submission order, and a job that raises does not stop the next one. */
  method FifoDespiteFailure() {
    var q := new JobQueue(1, "q");
    var a := q.Run(Object(1, true), []);
    var b := q.Run(Object(2, true), [7]);
    assert q.queued == [a.value, b.value];
    var first := q.WorkerStep(Raised);
    assert first == Ran(a.value, true);
    var second := q.WorkerStep(Returned);
    assert second == Ran(b.value, true) && second.item.args == [7];
    assert q.queued == [] && q.work == [];
    var third := q.WorkerStep(Returned);
    assert third == Blocked;
  }

  /** `clear` drops the job still waiting but not the one a worker is executing, which leaves when it finishes. */
  method ClearWhileRunning() {
    var q := new JobQueue(1, "q");
    var a := q.Run(Object(1, true), []);
    var b := q.Run(Object(2, true), []);
    var taken := q.Take();
    assert taken == a;
    q.Clear();
    assert q.work == [] && q.queued == [a.value];
    var more := q.Finish(a.value, Returned);
    assert more && q.queued == [];
  }

  /**
   * A job that raises something other than an `Exception` still leaves
   * `queued_jobs`, but its worker's loop ends although the queue is not
   * stopping: the next job stays on the channel.
   */
  method EscapingExceptionEndsWorker() {
    var q := new JobQueue(1, "q");
    var a := q.Run(Object(1, true), []);
    var b := q.Run(Object(2, true), []);
    var step := q.WorkerStep(Escaped);
    assert step == Ran(a.value, false) && !q.stopping;
    assert q.queued == [b.value] && q.work == [b.value];
  }

  /** After `stop_all`, submissions to the queues that were registered are dropped and each worker meets one sentinel. */
  method StopAllThenSubmit() {
    var s := new JobScheduler();
    s.Execute("q1", "t1", Object(5, true), [42]);
    var q := s.queues["q1"];
    assert |q.work| == 1 && q.work[0].args == [42];
    s.StopAll();
    assert q.stopping && q.queued == [] && |q.work| == 1 && q.work[0].item == Dummy;
    s.Execute("q1", "t2", Object(6, true), []);
    assert s.queues["q1"] == q && |q.work| == 1 && q.work[0].item == Dummy;
  }

  /** `stop_all` stops only the queues registered at that moment: a new name gets a fresh queue that runs its job. */
  method StopAllThenNewQueue() {
    var s := new JobScheduler();
    s.Execute("q1", "t1", Object(5, true), []);
    var q1 := s.queues["q1"];
    s.StopAll();
    assert q1.stopping && s.queues.Keys == {"q1"};
    s.Execute("q2", "t2", Object(6, true), [3]);
    var q2 := s.queues["q2"];
    assert q2 != q1 && !q2.stopping;
    assert |q2.work| == 1 && q2.work[0].item == Object(6, true) && q2.queued == q2.work;
  }

  /** A timer cancelled before it fires leaves `all_jobs` and can no longer fire; cancelling again is harmless. */
  method CancelBeforeFiring() {
    var s := new JobScheduler();
    var r := s.Schedule("t2", 0.05, Object(9, true), []);
    var t := r.value.value;
    assert s.allJobs == [t] && t.sourceLive;
    var c := t.Cancel();
    assert c == Ok(true) && s.allJobs == [] && !t.sourceLive && !t.complete;
    var c2 := t.Cancel();
    assert s.allJobs == [] && !t.sourceLive;
    var q := s.queues[DefaultQueue];
    assert q.work == [];
  }

  /** A timer that fired delivers its job once; cancelling it afterwards does nothing. */
  method CancelAfterFiring() {
    var s := new JobScheduler();
    var r := s.Queue("q", "t", 1.5, Object(3, true), [1, 2]);
    var t := r.value.value;
    var again := t.Fire();
    assert !again && t.complete && !t.sourceLive && s.allJobs == [];
    var q := s.queues["q"];
    assert |q.work| == 1 && q.work[0].args == [1, 2];
    var c := t.Cancel();
    assert c == Ok(false) && |q.work| == 1;
    var done := t.IsComplete();
    assert done == Ok(true);
  }

  /** Zero-interval work bypasses the timer; a non-callable job is refused; a None timer is inert. */
  method ImmediateAndRefused() {
    var s := new JobScheduler();
    var r := s.Schedule("now", 0.0, Object(4, true), []);
    assert r == Ok(None) && s.allJobs == [] && |s.queues[DefaultQueue].work| == 1;
    var bad := s.Queue("q", "bad", 1.0, Object(8, false), []);
    assert bad == Err(NotAFunction) && "q" !in s.queues;
    var none := s.Queue("q", "none", 1.0, Null, []);
    assert none == Err(NotAFunction);
    var inert := new GTimer(s, s.queues[DefaultQueue], "x", 1.0, Null, []);
    assert s.allJobs == [];
    var c := inert.Cancel();
    assert c == Err(AttributeMissing);
  }
}
