# gnome15 job queues and scheduler, modelled in Dafny

This project models the job-scheduling bookkeeping of gnome15, which lives in
`src/gnome15/util/jobqueue.py`. It has three parts:

- **`JobQueue`** (`jobqueue.dfy`, module `JobQueues`) is a named FIFO channel
  (`work_queue`, the field `work`). It keeps the introspection list
  `queued_jobs` (`queued`) beside the channel, plus the `stopping` flag and a
  worker count. Its methods are `run`, `clear` and `stop`. The worker loop's
  iteration is split into two methods. `Take` is the blocking `get`. `Finish`
  is the `finally` clause, which runs after the job returns or raises, and
  then the loop test; how the job ended is the datatype `Outcome`. Only an
  `Exception` is caught (jobqueue.py:272): anything else, such as
  `SystemExit`, escapes the loop and ends the worker. `WorkerStep` is the two with nothing in between.
  `DrainHead` is one round of `clear`'s loop.
- **`GTimer`** (`scheduler.dfy`, module `Scheduling`) is a one-shot delayed
  trigger. The gobject timeout source becomes the flag `sourceLive`. The main
  loop calling `exec_item` becomes the method `Fire`.
- **`JobScheduler`** (same module) is the registry `queues: name → JobQueue`
  plus the list `all_jobs` of pending timers. `Lookup` is the lazy
  `self.queues[name] = JobQueue(name=name)` that `execute` and `queue`
  share. The untimed branch of `queue` repeats `execute`'s lines, so the
  model's `Queue` calls `Execute` there; the timed branch is `Arm`.

Each method is one atomic step on its object. A job's function is the
datatype `Func`:

- `Null` is Python's `None`.
- `Object(ref, callable)` is any other object. `callable` says whether it has
  `__call__`.
- `Dummy` is the queue's own `_dummy`, the no-op that `stop`'s sentinels
  carry.

`JobItem` is a class with constant fields, so `in` and `remove` on the lists
compare object identity, as Python does. `pylist.dfy` (module `PyList`)
models `list.remove(x)`: it drops the first occurrence only. `PyList` also
defines `Without`, the reference definition the queue's contracts are stated
against.

What is proved:

- **FIFO.** The queue's invariant `JobQueue.Valid` ties ghost histories to
  the channel: `pushed == popped + work`. Every item leaves the channel,
  taken by a worker or drained by `clear`, in the order it was put on.
- **Introspection list.** `queued` holds exactly the items that `run`
  submitted and that are still on the channel or in a worker's hands.
  `queued` never holds an item twice.
- **Queue state changes.** These are given as predicates over the queue's
  observable state. `RunEffect` is what `run` does, `ClearEffect` what
  `clear` does and `StopEffect` what `stop` does. Each method ensures its
  predicate, and the scheduler's contracts are stated with the same
  predicates. Three lemmas relate them:
  - clearing twice is clearing once;
  - a run followed by a clear is the same as the clear alone;
  - after a stop, every run is a no-op.
- **Scheduler invariant.** `JobScheduler.Valid` says:
  - every registered queue is registered under its own name;
  - no queue is registered under two names;
  - each timer is in `all_jobs` once;
  - a timer's source is live exactly while the timer is in `all_jobs`;
  - a complete timer has no live source. This is the one-shot property, since
    `Fire` needs a live source.
- **Client programs.** `scenarios.dfy` holds client methods that derive the
  expected end-to-end behaviour from the contracts alone:
  - jobs run in FIFO order, and a job that raises an `Exception` does not
    stop the next one;
  - a job that raises something else still leaves `queued_jobs` but ends its
    worker's loop, so the next job stays on the channel;
  - `clear` does not remove a job that is already running;
  - after `stop_all`, submissions to the queues that were registered are
    dropped;
  - a name first used after `stop_all` gets a fresh queue, which is not
    stopping and takes the job;
  - a timer cancelled before it fires never delivers its job, and cancelling
    it after it fired does nothing;
  - zero-interval scheduling bypasses the timer;
  - a non-callable job is refused.

Behaviour kept as the code has it:

- `execute` returns nothing (jobqueue.py:145).
- `queue` returns `None` when the interval is 0 (jobqueue.py:160-162).
- A `GTimer` built with a `None` function returns from its constructor
  before setting `scheduler`, `source` or `complete` (jobqueue.py:55-58). The
  model marks such a timer with `initialized == false`. On such a timer,
  `IsComplete` and `Cancel` give `Err(AttributeMissing)`, which stands for
  Python's `AttributeError`. `queue` never builds one, because `None` fails
  the `__call__` check first (jobqueue.py:154).
- `cancel` calls `source_remove` whenever the timer is not complete. So a
  second cancel before firing removes an already removed source again.
  `Cancel`'s result says whether the removal was called.

## Model

| member | source | states |
|---|---|---|
| `PyList.RemoveFirst` | src/gnome15/util/jobqueue.py:270-271 | `remove` takes one occurrence of x out of the list: the multiset loses exactly one x, and a list without x is unchanged |
| `PyList.RemoveFirstAt` | src/gnome15/util/jobqueue.py:226-227 | `remove` cuts out the first occurrence of x and keeps everything else in order |
| `PyList.RemoveFirstIsWithout` | src/gnome15/util/jobqueue.py:75-76 | on a list without repetitions, `remove` drops exactly x and keeps the other elements in order |
| `PyList.Without` | src/gnome15/util/jobqueue.py:212-231 | the reference definition: an element is in the result iff it is in the list and not in the removal list; repetition-freedom is kept |
| `PyList.WithoutNone` | src/gnome15/util/jobqueue.py:213-214 | removing elements that are not there changes nothing, so clearing an empty channel leaves `queued_jobs` as it was |
| `PyList.WithoutSnoc` | src/gnome15/util/jobqueue.py:217-227 | dropping the drained items one by one, as clear's loop does, equals dropping them all at once |
| `PyList.WithoutAppended` | src/gnome15/util/jobqueue.py:243-245 | an item appended to both lists, as `run` appends it, vanishes when both are cleared |
| `JobQueues.JobItem.constructor` | src/gnome15/util/jobqueue.py:172-174 | a job item keeps the function and arguments it was built with |
| `JobQueues.JobQueue.constructor` | src/gnome15/util/jobqueue.py:180-187 | a new queue has an empty channel, an empty `queued_jobs`, is not stopping, and has the given name and worker count |
| `JobQueues.JobQueue.Run` | src/gnome15/util/jobqueue.py:233-252 | nothing changes and nothing is returned iff the queue is stopping or the job is None; otherwise one fresh item with the job and arguments is appended to both the channel and `queued_jobs` and returned |
| `JobQueues.JobQueue.Clear` | src/gnome15/util/jobqueue.py:212-231 | the channel ends empty, `queued_jobs` loses exactly the drained items and keeps its order, an item in a worker's hands stays, and an empty channel changes nothing |
| `JobQueues.JobQueue.DrainHead` | src/gnome15/util/jobqueue.py:218-227 | one `get_nowait` takes the head of the channel and drops it from `queued_jobs` |
| `JobQueues.JobQueue.Stop` | src/gnome15/util/jobqueue.py:201-207 | the queue is stopping, waiting jobs are drained as by clear, and the channel holds exactly `number_of_workers` fresh `_dummy` sentinels, none of them in `queued_jobs` |
| `JobQueues.JobQueue.Put` | src/gnome15/util/jobqueue.py:205-206 | a sentinel `put` goes to the back of the channel and keeps the FIFO and `queued_jobs` invariant |
| `JobQueues.JobQueue.Take` | src/gnome15/util/jobqueue.py:256-257 | a worker gets the head of the channel (FIFO) and holds it; on an empty channel it waits and nothing changes |
| `JobQueues.JobQueue.Finish` | src/gnome15/util/jobqueue.py:258-280 | whether the job returned or raised, its item leaves `queued_jobs` and nothing else changes; the loop continues iff the job did not raise a non-`Exception` and the queue is not stopping |
| `JobQueues.JobQueue.Release` | src/gnome15/util/jobqueue.py:268-280 | the `finally` and the loop test: the item leaves `queued_jobs` (filtered out), nothing else changes, and the loop continues iff no non-`Exception` escaped and the queue is not stopping |
| `JobQueues.JobQueue.WorkerStep` | src/gnome15/util/jobqueue.py:254-280 | one iteration runs the head of the channel, removes it from the channel and from `queued_jobs`, and continues iff not stopping and nothing but an `Exception` was raised |
| `JobQueues.ClearTwice` | src/gnome15/util/jobqueue.py:212-214 | clearing an already cleared queue changes nothing |
| `JobQueues.RunThenClear` | src/gnome15/util/jobqueue.py:240-245 | a run followed by a clear leaves the queue as the clear alone would |
| `JobQueues.RunAfterStop` | src/gnome15/util/jobqueue.py:233-235 | after a stop, every run leaves the queue unchanged |
| `Scheduling.GTimer.constructor` | src/gnome15/util/jobqueue.py:53-65 | with a None function nothing is armed and `all_jobs` is unchanged; otherwise the source is live, the timer is not complete and it is appended to `all_jobs` |
| `Scheduling.GTimer.Fire` | src/gnome15/util/jobqueue.py:67-81 | the job goes to the queue's `run`, the timer leaves `all_jobs`, becomes complete, and the callback returns False so the source dies and cannot fire again |
| `Scheduling.GTimer.Forget` | src/gnome15/util/jobqueue.py:75-76 | the guarded `remove` takes the timer out of `all_jobs` once, keeps the others in order, and changes nothing when it is absent |
| `Scheduling.GTimer.IsComplete` | src/gnome15/util/jobqueue.py:83-84 | reports `complete`, or the missing-attribute error on a timer whose constructor returned early |
| `Scheduling.GTimer.Cancel` | src/gnome15/util/jobqueue.py:86-98 | the timer leaves `all_jobs` and its source is dead; the source is removed only when not complete, so cancelling a fired timer changes nothing |
| `Scheduling.GTimer.Withdraw` | src/gnome15/util/jobqueue.py:89-95 | cancelling a live timer takes it out of `all_jobs` and kills its source, keeping the scheduler invariant |
| `Scheduling.JobScheduler.constructor` | src/gnome15/util/jobqueue.py:108-111 | a new scheduler has no queues and no pending timers |
| `Scheduling.JobScheduler.Lookup` | src/gnome15/util/jobqueue.py:157-158 | the named queue exists afterwards; it was created with one worker only if absent, and every existing registration is untouched |
| `Scheduling.JobScheduler.Execute` | src/gnome15/util/jobqueue.py:141-145 | the queue is created lazily and the job goes to its `run`; nothing is returned and `all_jobs` is unchanged |
| `Scheduling.JobScheduler.RunOn` | src/gnome15/util/jobqueue.py:145 | `run` on a registered queue has the effect `RunEffect` on that queue, and the scheduler invariant holds afterwards |
| `Scheduling.JobScheduler.Queue` | src/gnome15/util/jobqueue.py:153-166 | a non-callable job raises and changes nothing, neither the scheduler nor a registered queue; otherwise the queue is created lazily; interval 0 runs the job at once, returns None and leaves `all_jobs` alone; any other interval leaves the queue untouched and returns a fresh live timer appended to `all_jobs` |
| `Scheduling.JobScheduler.Arm` | src/gnome15/util/jobqueue.py:157-166 | the timed branch: the queue is created lazily and left untouched, and a fresh live timer on it is appended to `all_jobs` |
| `Scheduling.JobScheduler.Schedule` | src/gnome15/util/jobqueue.py:124-125 | the same contract as `Queue` on the queue named "default" |
| `Scheduling.JobScheduler.StopAll` | src/gnome15/util/jobqueue.py:127-130 | every registered queue is stopped as by `stop`, and the registry keeps all its keys |
| `Scheduling.JobScheduler.StopOne` | src/gnome15/util/jobqueue.py:129-130 | one round of the loop stops one registered queue and leaves every other queue's state alone |
| `Scheduling.JobScheduler.ClearJobs` | src/gnome15/util/jobqueue.py:132-134 | the named queue is cleared as by `clear`; an unknown name changes nothing |
| `Scheduling.JobScheduler.StopQueue` | src/gnome15/util/jobqueue.py:136-139 | the named queue is stopped as by `stop`, its channel holding only fresh sentinels, and removed from the registry; other queues, `all_jobs` and the armed timers are untouched, and an unknown name changes nothing |

## Left out

- Threads, `RLock`/`Lock` and the blocking of `Queue.Queue`, including
  `task_done` (jobqueue.py:182-194, 240-251, 257, 280). Each method is one
  atomic step, and interleavings are not modelled. The split into `Take` and
  `Finish` is the only concurrency kept: a clear or run can happen while a
  job executes.
- The worker thread's exit after its loop ends (jobqueue.py:282-286). The
  model reports, as `more`, whether the loop goes round again. It does not
  keep a set of live workers.
- Execution of the user's callable. A job is an opaque `Func` with opaque
  arguments. How it ended is the parameter `outcome`: returned, raised an
  `Exception`, or raised something else. Only the last ends the loop.
- JobQueues.JobQueue.Finish, JobQueues.JobQueue.WorkerStep: when a
  non-`Exception` escapes, `task_done` is skipped and the worker thread ends
  (jobqueue.py:272-280); the model reports `more == false` but keeps no
  count of live workers, so it does not show that a queue whose last worker
  ended stalls.
- The `queued`, `started` and `finished` timestamps and the captured stack
  of a `JobItem`, `_get_stack`, logging and `traceback.print_stack`
  (jobqueue.py:147-151, 175-178). These are diagnostics only.
- The gobject timeout mechanics, `TIME_FACTOR` and the float-to-millisecond
  conversion (jobqueue.py:63). A timer keeps its interval as a `real` and
  its source as a live/removed flag.
- The thread-local `queue_names`, `get_current_queue` and `is_on_queue`
  (jobqueue.py:34-50). They are ambient per-thread state.
- `print_all_jobs` of both classes. It writes to the console.
- The difference between a sentinel's `args = None` and a run's argument
  tuple. Both call the function with no arguments when empty, and the model
  uses the empty sequence for both.
- `gnome15-sandbox-plugins/src/webkitbrowser/webkitbrowser.py`. It wraps
  GTK and webkit and has no logic of its own.
- Scheduling.JobScheduler.StopAll: states the effect on each queue with
  `StopEffect`, which does not say that the sentinels are newly created.
  `JobQueue.Stop` does say so.
