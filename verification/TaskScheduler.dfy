/** The task scheduler (src/taskscheduler.cpp): a FIFO with one running task,
    three delete policies, rescheduling through zero-delay timers, and tasks
    that may complete synchronously inside run(). */
module TaskScheduler {
  import opened Common

  datatype Policy = Deletable | NonDeletable | Reschedulable

  /** id: rank at which the task was scheduled; sync: run() emits completed()
      before it returns. */
  datatype Task = Task(id: nat, policy: Policy, sync: bool)

  /** The scheduler, the reschedule timers still pending in the event loop, and
      the history of a run. */
  datatype Sched = Sched(
    queue: seq<Task>,
    running: Option<Task>,
    awaiting: seq<Task>,
    completed: seq<Task>,
    deleted: seq<Task>,
    scheduled: seq<Task>,
    started: seq<Task>,
    moved: set<Task>)

  datatype Event =
    | Schedule(policy: Policy, sync: bool)
    | Complete
    | Delete(forced: bool)
    | TimerFires(index: nat)

  // ------------------------------------------------------------------
  // Steps
  // ------------------------------------------------------------------

  function Finish(s: Sched): Sched
    requires s.running.Some?
  {
    s.(running := None, completed := s.completed + [s.running.value])
  }

  function StartFirst(s: Sched): Sched
    requires s.queue != []
  {
    s.(running := Some(s.queue[0]), queue := s.queue[1..], started := s.started + [s.queue[0]])
  }

  /** maybeRunTask(), with the recursion of synchronous completions. */
  function Drain(s: Sched): Sched
    decreases |s.queue|
  {
    if s.running.Some? || s.queue == [] then s
    else if s.queue[0].sync then Drain(Finish(StartFirst(s)))
    else StartFirst(s)
  }

  function DoSchedule(s: Sched, policy: Policy, sync: bool): Sched {
    var t := Task(|s.scheduled|, policy, sync);
    Drain(s.(queue := s.queue + [t], scheduled := s.scheduled + [t]))
  }

  function Select(q: seq<Task>, p: Policy): seq<Task> {
    if q == [] then []
    else Select(q[..|q| - 1], p) + (if q[|q| - 1].policy == p then [q[|q| - 1]] else [])
  }

  /** The loop of deleteTasksInternal. */
  function Purge(s: Sched, forced: bool): Sched {
    if forced then s.(queue := [], deleted := s.deleted + s.queue)
    else s.(queue := Select(s.queue, NonDeletable),
            awaiting := s.awaiting + Select(s.queue, Reschedulable),
            deleted := s.deleted + Select(s.queue, Deletable),
            moved := s.moved + set t | t in Select(s.queue, Reschedulable))
  }

  function CancelRunning(s: Sched, forced: bool): Sched {
    if s.running.Some? && (forced || s.running.value.policy == Deletable)
    then s.(running := None, deleted := s.deleted + [s.running.value])
    else s
  }

  function DoDelete(s: Sched, forced: bool): Sched {
    Drain(CancelRunning(Purge(s, forced), forced))
  }

  function DoTimer(s: Sched, index: nat): Sched
    requires index < |s.awaiting|
  {
    Drain(s.(queue := s.queue + [s.awaiting[index]],
             awaiting := s.awaiting[..index] + s.awaiting[index + 1..]))
  }

  function Step(s: Sched, e: Event): Sched {
    match e
    case Schedule(policy, sync) => DoSchedule(s, policy, sync)
    case Complete => if s.running.Some? then Drain(Finish(s)) else s
    case Delete(forced) => DoDelete(s, forced)
    case TimerFires(index) => if index < |s.awaiting| then DoTimer(s, index) else s
  }

  function Run(s: Sched, events: seq<Event>): Sched
    decreases |events|
  {
    if events == [] then s else Run(Step(s, events[0]), events[1..])
  }

  const EMPTY := Sched([], None, [], [], [], [], [], {})

  // ------------------------------------------------------------------
  // Invariants
  // ------------------------------------------------------------------

  function Occurrences(q: seq<Task>, t: Task): nat {
    if q == [] then 0
    else Occurrences(q[..|q| - 1], t) + (if q[|q| - 1] == t then 1 else 0)
  }

  /** How often t occurs in the five places a task can be. */
  function Places(s: Sched, t: Task): nat {
    Occurrences(s.queue, t) + (if s.running == Some(t) then 1 else 0)
    + Occurrences(s.awaiting, t) + Occurrences(s.completed, t) + Occurrences(s.deleted, t)
  }

  ghost predicate Conserved(s: Sched) {
    forall t :: Places(s, t) == Occurrences(s.scheduled, t)
  }

  /** Tasks that were never rescheduled appear in scheduling order. */
  ghost predicate InOrder(ts: seq<Task>, moved: set<Task>) {
    forall i, j :: 0 <= i < j < |ts| && ts[i] !in moved && ts[j] !in moved ==> ts[i].id < ts[j].id
  }

  /** Scheduling hands out ranks: the k-th task scheduled has id k. */
  ghost predicate Ranked(s: Sched) {
    && (forall k :: 0 <= k < |s.scheduled| ==> s.scheduled[k].id == k)
    && (forall t :: t in s.started ==> t.id < |s.scheduled|)
    && (forall t :: t in s.queue ==> t.id < |s.scheduled|)
    && (forall t :: t in s.awaiting ==> t.id < |s.scheduled| && t in s.moved)
  }

  /** Everything but "idle only when empty", which drains restore. */
  ghost predicate Consistent(s: Sched) {
    && Conserved(s)
    && Ranked(s)
    && InOrder(s.started + s.queue, s.moved)
  }

  ghost predicate Valid(s: Sched) {
    Consistent(s) && (s.running.None? ==> s.queue == [])
  }

  lemma {:induction false} OccurrencesAppend(a: seq<Task>, b: seq<Task>, t: Task)
    ensures Occurrences(a + b, t) == Occurrences(a, t) + Occurrences(b, t)
  {
    if b == [] {
      assert a + b == a;
    } else {
      OccurrencesAppend(a, b[..|b| - 1], t);
      assert (a + b)[..|a + b| - 1] == a + b[..|b| - 1];
    }
  }

  lemma OccurrencesOne(x: Task, t: Task)
    ensures Occurrences([x], t) == if x == t then 1 else 0
  {
    assert [x][..0] == [];
  }

  lemma StartKeeps(s: Sched)
    requires Consistent(s) && s.running.None? && s.queue != []
    ensures Consistent(StartFirst(s))
  {
    var d := StartFirst(s);
    assert s.queue == [s.queue[0]] + s.queue[1..];
    assert d.started + d.queue == s.started + s.queue;
    forall t ensures Places(d, t) == Places(s, t) {
      OccurrencesAppend([s.queue[0]], s.queue[1..], t);
      OccurrencesOne(s.queue[0], t);
    }
  }

  lemma FinishKeeps(s: Sched)
    requires Consistent(s) && s.running.Some?
    ensures Consistent(Finish(s))
  {
    forall t ensures Places(Finish(s), t) == Places(s, t) {
      OccurrencesAppend(s.completed, [s.running.value], t);
      OccurrencesOne(s.running.value, t);
    }
  }

  /** Draining moves tasks from the queue to the started ones, front first,
      and touches neither the deleted nor the awaiting ones. */
  lemma {:induction false} DrainFrame(s: Sched)
    ensures var d := Drain(s);
      && d.deleted == s.deleted && d.awaiting == s.awaiting
      && d.scheduled == s.scheduled && d.moved == s.moved
      && d.started + d.queue == s.started + s.queue && s.started <= d.started
    decreases |s.queue|
  {
    if s.running.None? && s.queue != [] {
      var d := StartFirst(s);
      assert s.queue == [s.queue[0]] + s.queue[1..];
      assert d.started + d.queue == s.started + s.queue;
      if s.queue[0].sync {
        DrainFrame(Finish(d));
      }
    }
  }

  lemma {:induction false} DrainKeeps(s: Sched)
    requires Consistent(s)
    ensures Valid(Drain(s))
    decreases |s.queue|
  {
    hide Consistent;
    if s.running.None? && s.queue != [] {
      StartKeeps(s);
      if s.queue[0].sync {
        FinishKeeps(StartFirst(s));
        DrainKeeps(Finish(StartFirst(s)));
      }
    }
  }

  function WithNewTask(s: Sched, t: Task): Sched {
    s.(queue := s.queue + [t], scheduled := s.scheduled + [t])
  }

  lemma NewTaskConserves(s: Sched, t: Task)
    requires Conserved(s)
    ensures Conserved(WithNewTask(s, t))
  {
    forall x ensures Places(WithNewTask(s, t), x) == Occurrences(s.scheduled + [t], x) {
      OccurrencesAppend(s.queue, [t], x);
      OccurrencesAppend(s.scheduled, [t], x);
    }
  }

  lemma NewTaskKeeps(s: Sched, t: Task)
    requires Consistent(s) && t.id == |s.scheduled|
    ensures Consistent(WithNewTask(s, t))
  {
    hide Conserved;
    NewTaskConserves(s, t);
    var d, before := WithNewTask(s, t), s.started + s.queue;
    assert d.started + d.queue == before + [t];
    forall i | 0 <= i < |before| ensures before[i].id < t.id {
      assert before[i] in s.started || before[i] in s.queue;
    }
  }

  lemma ScheduleKeeps(s: Sched, policy: Policy, sync: bool)
    requires Valid(s)
    ensures Valid(DoSchedule(s, policy, sync))
  {
    hide Consistent;
    var t := Task(|s.scheduled|, policy, sync);
    NewTaskKeeps(s, t);
    DrainKeeps(WithNewTask(s, t));
  }

  // -- deletion

  /** Every task of the queue has exactly one of the three policies. */
  lemma {:induction false} SelectSplits(q: seq<Task>, t: Task)
    ensures Occurrences(q, t) == Occurrences(Select(q, Deletable), t)
      + Occurrences(Select(q, NonDeletable), t) + Occurrences(Select(q, Reschedulable), t)
  {
    if q != [] {
      SelectSplits(q[..|q| - 1], t);
      SelectLast(q, Deletable, t);
      SelectLast(q, NonDeletable, t);
      SelectLast(q, Reschedulable, t);
    }
  }

  lemma SelectLast(q: seq<Task>, p: Policy, t: Task)
    requires q != []
    ensures Occurrences(Select(q, p), t) == Occurrences(Select(q[..|q| - 1], p), t)
      + (if q[|q| - 1].policy == p && q[|q| - 1] == t then 1 else 0)
  {
    var last := q[|q| - 1];
    OccurrencesAppend(Select(q[..|q| - 1], p), if last.policy == p then [last] else [], t);
    OccurrencesOne(last, t);
  }

  lemma {:induction false} SelectPolicy(q: seq<Task>, p: Policy, t: Task)
    ensures t in Select(q, p) <==> t in q && t.policy == p
  {
    if q != [] {
      SelectPolicy(q[..|q| - 1], p, t);
      assert q == q[..|q| - 1] + [q[|q| - 1]];
    }
  }

  /** Keeping some of the queue keeps the order. */
  lemma {:induction false} SelectInOrder(a: seq<Task>, q: seq<Task>, p: Policy, moved: set<Task>)
    requires InOrder(a + q, moved)
    ensures InOrder(a + Select(q, p), moved)
  {
    if q == [] {
      assert a + Select(q, p) == a + q;
    } else {
      var front, t := q[..|q| - 1], q[|q| - 1];
      assert a + q == (a + front) + [t];
      forall i, j | 0 <= i < j < |a + front| && (a + front)[i] !in moved && (a + front)[j] !in moved
        ensures (a + front)[i].id < (a + front)[j].id
      {
        assert (a + q)[i] == (a + front)[i] && (a + q)[j] == (a + front)[j];
      }
      SelectInOrder(a, front, p, moved);
      var r := Select(front, p);
      if t.policy == p {
        assert a + Select(q, p) == (a + r) + [t];
        forall i | 0 <= i < |a + r| && (a + r)[i] !in moved && t !in moved
          ensures (a + r)[i].id < t.id
        {
          FoundIn(a, front, p, i);
          var k :| 0 <= k < |a + front| && (a + front)[k] == (a + r)[i];
          assert (a + q)[k] == (a + r)[i] && (a + q)[|a + front|] == t;
        }
      } else {
        assert Select(q, p) == r;
      }
    }
  }

  lemma FoundIn(a: seq<Task>, q: seq<Task>, p: Policy, i: nat)
    requires i < |a + Select(q, p)|
    ensures exists k :: 0 <= k < |a + q| && (a + q)[k] == (a + Select(q, p))[i]
  {
    var t := (a + Select(q, p))[i];
    if i < |a| {
      assert (a + q)[i] == t;
    } else {
      assert t == Select(q, p)[i - |a|];
      SelectPolicy(q, p, t);
      var k :| 0 <= k < |q| && q[k] == t;
      assert (a + q)[|a| + k] == t;
    }
  }

  lemma InOrderMono(ts: seq<Task>, moved: set<Task>, more: set<Task>)
    requires InOrder(ts, moved) && moved <= more
    ensures InOrder(ts, more)
  {
  }

  lemma PurgeConserves(s: Sched, forced: bool)
    requires Conserved(s)
    ensures Conserved(Purge(s, forced))
  {
    forall t ensures Places(Purge(s, forced), t) == Places(s, t) {
      if forced {
        OccurrencesAppend(s.deleted, s.queue, t);
      } else {
        SelectSplits(s.queue, t);
        OccurrencesAppend(s.deleted, Select(s.queue, Deletable), t);
        OccurrencesAppend(s.awaiting, Select(s.queue, Reschedulable), t);
      }
    }
  }

  lemma PurgeKeeps(s: Sched, forced: bool)
    requires Consistent(s)
    ensures Consistent(Purge(s, forced))
  {
    hide Conserved;
    PurgeConserves(s, forced);
    var d := Purge(s, forced);
    if forced {
      assert d.started + d.queue == s.started;
      InOrderPrefix(s.started, s.queue, s.moved);
    } else {
      SelectInOrder(s.started, s.queue, NonDeletable, s.moved);
      InOrderMono(d.started + d.queue, s.moved, d.moved);
      forall t | t in d.queue ensures t in s.queue {
        SelectPolicy(s.queue, NonDeletable, t);
      }
      forall t | t in d.awaiting ensures t.id < |s.scheduled| && t in d.moved {
        SelectPolicy(s.queue, Reschedulable, t);
      }
    }
  }

  lemma InOrderPrefix(a: seq<Task>, b: seq<Task>, moved: set<Task>)
    requires InOrder(a + b, moved)
    ensures InOrder(a, moved)
  {
    forall i, j | 0 <= i < j < |a| && a[i] !in moved && a[j] !in moved ensures a[i].id < a[j].id {
      assert (a + b)[i] == a[i] && (a + b)[j] == a[j];
    }
  }

  lemma CancelKeeps(s: Sched, forced: bool)
    requires Consistent(s)
    ensures Consistent(CancelRunning(s, forced))
  {
    if s.running.Some? {
      forall t ensures Places(CancelRunning(s, forced), t) == Places(s, t) {
        OccurrencesAppend(s.deleted, [s.running.value], t);
        OccurrencesOne(s.running.value, t);
      }
    }
  }

  lemma RequeueKeeps(s: Sched, index: nat)
    requires Consistent(s) && index < |s.awaiting|
    ensures Consistent(s.(queue := s.queue + [s.awaiting[index]],
                          awaiting := s.awaiting[..index] + s.awaiting[index + 1..]))
  {
    var t, a, b := s.awaiting[index], s.awaiting[..index], s.awaiting[index + 1..];
    var d := s.(queue := s.queue + [t], awaiting := a + b);
    assert s.awaiting == a + [t] + b;
    forall x ensures Places(d, x) == Places(s, x) {
      OccurrencesAppend(s.queue, [t], x);
      OccurrencesAppend(a + [t], b, x);
      OccurrencesAppend(a, [t], x);
      OccurrencesAppend(a, b, x);
    }
    assert d.started + d.queue == (s.started + s.queue) + [t];
  }

  lemma TimerKeeps(s: Sched, index: nat)
    requires Valid(s) && index < |s.awaiting|
    ensures Valid(DoTimer(s, index))
  {
    hide Consistent;
    RequeueKeeps(s, index);
    DrainKeeps(s.(queue := s.queue + [s.awaiting[index]],
                  awaiting := s.awaiting[..index] + s.awaiting[index + 1..]));
  }

  lemma StepKeeps(s: Sched, e: Event)
    requires Valid(s)
    ensures Valid(Step(s, e))
  {
    match e
    case Schedule(policy, sync) => ScheduleKeeps(s, policy, sync);
    case Complete =>
      if s.running.Some? {
        FinishKeeps(s);
        DrainKeeps(Finish(s));
      }
    case Delete(forced) =>
      hide Consistent, Purge, CancelRunning;
      PurgeKeeps(s, forced);
      CancelKeeps(Purge(s, forced), forced);
      DrainKeeps(CancelRunning(Purge(s, forced), forced));
    case TimerFires(index) =>
      if index < |s.awaiting| {
        TimerKeeps(s, index);
      }
  }

  lemma {:induction false} RunKeeps(s: Sched, events: seq<Event>)
    requires Valid(s)
    ensures Valid(Run(s, events))
    decreases |events|
  {
    if events != [] {
      StepKeeps(s, events[0]);
      RunKeeps(Step(s, events[0]), events[1..]);
    }
  }

  // ------------------------------------------------------------------
  // Main results
  // ------------------------------------------------------------------

  lemma {:induction false} RankedOnce(ts: seq<Task>, t: Task)
    requires forall i :: 0 <= i < |ts| ==> ts[i].id == i
    ensures Occurrences(ts, t) == if t in ts then 1 else 0
  {
    if ts != [] {
      var n := |ts| - 1;
      RankedOnce(ts[..n], t);
      assert ts == ts[..n] + [ts[n]];
    }
  }

  /** Each scheduled task is in exactly one place, exactly once, and nothing else
      is in any; the scheduler idles only with an empty queue; and tasks never
      rescheduled have started in the order they were scheduled. */
  ghost predicate Safe(s: Sched) {
    && (forall t :: Places(s, t) == if t in s.scheduled then 1 else 0)
    && (s.running.None? ==> s.queue == [])
    && InOrder(s.started, s.moved)
  }

  lemma ValidIsSafe(s: Sched)
    requires Valid(s)
    ensures Safe(s)
  {
    forall t ensures Places(s, t) == if t in s.scheduled then 1 else 0 {
      RankedOnce(s.scheduled, t);
    }
    InOrderPrefix(s.started, s.queue, s.moved);
  }

  /** So it is after every run from the empty scheduler, or from any valid state. */
  lemma SchedulerSafe(s: Sched, events: seq<Event>)
    requires s == EMPTY || Valid(s)
    ensures Safe(Run(s, events))
  {
    assert Valid(EMPTY);
    hide Run, Valid, Safe;
    RunKeeps(s, events);
    ValidIsSafe(Run(s, events));
  }

  /** The tasks a deletion discards. */
  function Discarded(s: Sched, forced: bool): seq<Task> {
    (if forced then s.queue else Select(s.queue, Deletable)) +
    (if s.running.Some? && (forced || s.running.value.policy == Deletable)
     then [s.running.value] else [])
  }

  /** deleteTasks() deletes exactly the Deletable tasks of the queue, in order,
      and a Deletable running one: a NonDeletable or Reschedulable task is never
      lost. forceDeleteTasks() deletes the whole queue and the running task. */
  lemma DeleteLosesOnly(s: Sched, forced: bool)
    ensures DoDelete(s, forced).deleted == s.deleted + Discarded(s, forced)
    ensures !forced ==> forall t :: t in Discarded(s, forced) ==> t.policy == Deletable
  {
    var d := CancelRunning(Purge(s, forced), forced);
    assert d.deleted == s.deleted + Discarded(s, forced);
    DrainFrame(d);
    if !forced {
      forall t | t in Discarded(s, forced) ensures t.policy == Deletable {
        SelectPolicy(s.queue, Deletable, t);
      }
    }
  }

  /** xs are the tasks of q with this policy. */
  ghost predicate OfPolicy(q: seq<Task>, p: Policy, xs: seq<Task>) {
    Filtered(q, (t: Task) => t.policy == p, xs)
  }

  lemma SelectIsFilter(q: seq<Task>, p: Policy)
    ensures OfPolicy(q, p, Select(q, p))
  {
    FilteredIff(q, (t: Task) => t.policy == p, Select(q, p));
    SelectFilter(q, p, (t: Task) => t.policy == p);
  }

  lemma {:induction false} SelectFilter(q: seq<Task>, p: Policy, keep: Task -> bool)
    requires forall t :: keep(t) <==> t.policy == p
    ensures Select(q, p) == Kept(q, keep)
  {
    if q != [] {
      SelectFilter(q[..|q| - 1], p, keep);
    }
  }

  /** What deleteTasks() does with the queue: the NonDeletable tasks stay, the
      Reschedulable ones await their timers, the Deletable ones go, each kind in
      its order; a running task goes on unless it is Deletable. */
  lemma DeleteSorts(s: Sched)
    ensures var d := Step(s, Delete(false));
      && (exists kept :: OfPolicy(s.queue, NonDeletable, kept) && d.started + d.queue == s.started + kept)
      && (exists later :: OfPolicy(s.queue, Reschedulable, later) && d.awaiting == s.awaiting + later)
      && (exists gone :: OfPolicy(s.queue, Deletable, gone) && d.deleted == s.deleted + gone + Cancelled(s))
      && (s.running.Some? && s.running.value.policy != Deletable ==> d.running == s.running)
  {
    DeleteSelects(s);
    hide OfPolicy, Select, Step, Cancelled;
    SelectIsFilter(s.queue, NonDeletable);
    SelectIsFilter(s.queue, Reschedulable);
    SelectIsFilter(s.queue, Deletable);
  }

  lemma DeleteSelects(s: Sched)
    ensures var d := Step(s, Delete(false));
      && d.started + d.queue == s.started + Select(s.queue, NonDeletable)
      && d.awaiting == s.awaiting + Select(s.queue, Reschedulable)
      && d.deleted == s.deleted + Select(s.queue, Deletable) + Cancelled(s)
      && (s.running.Some? && s.running.value.policy != Deletable ==> d.running == s.running)
  {
    hide Select;
    var m := CancelRunning(Purge(s, false), false);
    DrainFrame(m);
    assert m.deleted == s.deleted + Select(s.queue, Deletable) + Cancelled(s);
  }

  /** The running task, if it may be cancelled. */
  function Cancelled(s: Sched): seq<Task> {
    if s.running.Some? && s.running.value.policy == Deletable then [s.running.value] else []
  }

  /** forceDeleteTasks() leaves nothing queued or running, and starts nothing. */
  lemma ForcedDeleteClears(s: Sched)
    ensures var d := Step(s, Delete(true));
      && d.queue == [] && d.running.None? && d.started == s.started && d.awaiting == s.awaiting
      && d.deleted == s.deleted + s.queue + (if s.running.Some? then [s.running.value] else [])
  {
  }

  // ------------------------------------------------------------------
  // Tasks that complete at once
  // ------------------------------------------------------------------

  ghost predicate NotDone(s: Sched) {
    s.running.Some? ==> !s.running.value.sync
  }

  lemma {:induction false} DrainNotDone(s: Sched)
    requires NotDone(s)
    ensures NotDone(Drain(s))
    decreases |s.queue|
  {
    if s.running.None? && s.queue != [] && s.queue[0].sync {
      DrainNotDone(Finish(StartFirst(s)));
    }
  }

  lemma StepNotDone(s: Sched, e: Event)
    requires NotDone(s)
    ensures NotDone(Step(s, e))
  {
    hide Drain, Purge;
    match e
    case Schedule(policy, sync) => DrainNotDone(WithNewTask(s, Task(|s.scheduled|, policy, sync)));
    case Complete => if s.running.Some? { DrainNotDone(Finish(s)); }
    case Delete(forced) =>
      assert NotDone(CancelRunning(Purge(s, forced), forced)) by { PurgeLeavesRunning(s, forced); }
      DrainNotDone(CancelRunning(Purge(s, forced), forced));
    case TimerFires(index) =>
      if index < |s.awaiting| {
        DrainNotDone(s.(queue := s.queue + [s.awaiting[index]],
                        awaiting := s.awaiting[..index] + s.awaiting[index + 1..]));
      }
  }

  lemma PurgeLeavesRunning(s: Sched, forced: bool)
    ensures Purge(s, forced).running == s.running
  {
  }

  /** In every run a task that completes within its run() is never left running:
      the scheduler goes on to the next one at once. */
  lemma {:induction false} SyncTasksDoNotLinger(s: Sched, events: seq<Event>)
    requires NotDone(s)
    ensures NotDone(Run(s, events))
    decreases |events|
  {
    hide Step, NotDone;
    if events != [] {
      StepNotDone(s, events[0]);
      SyncTasksDoNotLinger(Step(s, events[0]), events[1..]);
    }
  }

  // ------------------------------------------------------------------
  // Where tasks enter the queue
  // ------------------------------------------------------------------

  /** A new task goes to the end of the queue. */
  lemma ScheduleAppends(s: Sched, policy: Policy, sync: bool)
    ensures var d := Step(s, Schedule(policy, sync));
      && d.started + d.queue == s.started + s.queue + [Task(|s.scheduled|, policy, sync)]
      && d.awaiting == s.awaiting && d.deleted == s.deleted
  {
    var t := Task(|s.scheduled|, policy, sync);
    DrainFrame(s.(queue := s.queue + [t], scheduled := s.scheduled + [t]));
  }

  /** A rescheduled task returns to the end of the queue. */
  lemma TimerReturns(s: Sched, index: nat)
    requires index < |s.awaiting|
    ensures var d := Step(s, TimerFires(index));
      && d.started + d.queue == s.started + s.queue + [s.awaiting[index]]
      && d.awaiting == s.awaiting[..index] + s.awaiting[index + 1..] && d.deleted == s.deleted
  {
    DrainFrame(s.(queue := s.queue + [s.awaiting[index]],
                  awaiting := s.awaiting[..index] + s.awaiting[index + 1..]));
  }

  /** Wherever t is queued, x is queued before it. */
  ghost predicate Behind(q: seq<Task>, x: Task, t: Task) {
    forall j :: 0 <= j < |q| && q[j] == t ==> x in q[..j]
  }

  lemma {:induction false} SelectBehind(q: seq<Task>, p: Policy, x: Task, t: Task)
    requires Behind(q, x, t) && x in Select(q, p)
    ensures Behind(Select(q, p), x, t)
  {
    if q != [] {
      var n := |q| - 1;
      var front := q[..n];
      assert forall j :: 0 <= j < n ==> front[j] == q[j] && front[..j] == q[..j];
      SelectPolicy(q, p, x);
      SelectPolicy(front, p, x);
      if x in front {
        SelectBehind(front, p, x, t);
        assert forall j :: 0 <= j < |Select(front, p)| ==> Select(q, p)[..j] == Select(front, p)[..j];
        assert Select(q, p)[..|Select(front, p)|] == Select(front, p);
      } else {
        BehindPrefix(q, x, t, n);
        assert q[n] != t;
        SelectPolicy(q, p, t);
      }
    }
  }

  lemma BehindPrefix(q: seq<Task>, x: Task, t: Task, m: nat)
    requires Behind(q, x, t) && m <= |q|
    ensures t in q[..m] ==> x in q[..m]
  {
    if t in q[..m] {
      var j :| 0 <= j < m && q[..m][j] == t;
      var i :| 0 <= i < j && q[..j][i] == x;
      assert q[..m][i] == x;
    }
  }

  lemma {:induction false} TwiceOccurs(q: seq<Task>, t: Task, i: nat, j: nat)
    requires i < j < |q| && q[i] == t && q[j] == t
    ensures Occurrences(q, t) >= 2
  {
    var n := |q| - 1;
    if j < n {
      TwiceOccurs(q[..n], t, i, j);
    } else {
      OnceOccurs(q[..n], t, i);
    }
  }

  lemma {:induction false} OnceOccurs(q: seq<Task>, t: Task, i: nat)
    requires i < |q| && q[i] == t
    ensures Occurrences(q, t) >= 1
  {
    if i < |q| - 1 {
      OnceOccurs(q[..|q| - 1], t, i);
    }
  }

  lemma {:induction false} NeverOccurs(q: seq<Task>, t: Task)
    requires t !in q
    ensures Occurrences(q, t) == 0
  {
    if q != [] {
      NeverOccurs(q[..|q| - 1], t);
    }
  }

  /** No task is queued twice. */
  lemma QueuedOnce(s: Sched, t: Task, i: nat, j: nat)
    requires Consistent(s) && i < |s.queue| && j < |s.queue| && s.queue[i] == t && s.queue[j] == t
    ensures i == j
  {
    RankedOnce(s.scheduled, t);
    assert Places(s, t) == Occurrences(s.scheduled, t);
    if i < j {
      TwiceOccurs(s.queue, t, i, j);
    } else if j < i {
      TwiceOccurs(s.queue, t, j, i);
    }
  }

  /** If the same elements are split later, the second part is a rest of itself. */
  lemma SplitLater(a: seq<Task>, b: seq<Task>, c: seq<Task>, d: seq<Task>)
    requires a + b == c + d && |a| <= |c|
    ensures var n := |c| - |a|; n <= |b| && c == a + b[..n] && d == b[n..]
  {
    var n := |c| - |a|;
    assert |a| + |b| == |c| + |d|;
    assert c == (a + b)[..|c|] == a + b[..n];
    assert d == (a + b)[|c|..] == b[n..];
  }

  /** What is before x and what is behind it, when only the part from n on, with
      x in it, is left. */
  lemma BehindSuffix(q: seq<Task>, n: nat, x: Task, t: Task)
    requires n <= |q| && Behind(q, x, t) && x in q[n..]
    requires forall i, j :: 0 <= i < |q| && 0 <= j < |q| && q[i] == x && q[j] == x ==> i == j
    ensures Behind(q[n..], x, t) && t !in q[..n]
  {
    var i :| 0 <= i < |q[n..]| && q[n..][i] == x;
    assert q[n + i] == x;
    forall j | 0 <= j < |q| && q[j] == t ensures n + i < j {
      var k :| 0 <= k < j && q[..j][k] == x;
      assert q[k] == x;
    }
    forall j | 0 <= j < |q[n..]| && q[n..][j] == t ensures x in q[n..][..j] {
      assert q[n + j] == t;
      assert q[n..][..j][i] == x;
    }
  }

  /** Draining starts nothing that is behind a task it leaves queued. */
  lemma DrainBehind(m: Sched, x: Task, t: Task)
    requires Consistent(m) && Behind(m.queue, x, t) && x in Drain(m).queue
    ensures Behind(Drain(m).queue, x, t) && Occurrences(Drain(m).started, t) == Occurrences(m.started, t)
  {
    hide Drain, Consistent, Occurrences, Behind;
    var d := Drain(m);
    DrainFrame(m);
    SplitLater(m.started, m.queue, d.started, d.queue);
    var n := |d.started| - |m.started|;
    forall i, j | 0 <= i < |m.queue| && 0 <= j < |m.queue| && m.queue[i] == x && m.queue[j] == x ensures i == j {
      QueuedOnce(m, x, i, j);
    }
    BehindSuffix(m.queue, n, x, t);
    NeverOccurs(m.queue[..n], t);
    OccurrencesAppend(m.started, m.queue[..n], t);
  }

  /** The state just before the event drains the queue. */
  function BeforeDrain(s: Sched, e: Event): Sched {
    match e
    case Schedule(policy, sync) => WithNewTask(s, Task(|s.scheduled|, policy, sync))
    case Complete => if s.running.Some? then Finish(s) else s
    case Delete(forced) => CancelRunning(Purge(s, forced), forced)
    case TimerFires(index) =>
      if index < |s.awaiting| then
        s.(queue := s.queue + [s.awaiting[index]], awaiting := s.awaiting[..index] + s.awaiting[index + 1..])
      else s
  }

  lemma StepDrains(s: Sched, e: Event)
    requires Valid(s)
    ensures Step(s, e) == Drain(BeforeDrain(s, e)) && Consistent(BeforeDrain(s, e))
    ensures BeforeDrain(s, e).started == s.started
  {
    hide Consistent;
    match e
    case Schedule(policy, sync) => NewTaskKeeps(s, Task(|s.scheduled|, policy, sync));
    case Complete => if s.running.Some? { FinishKeeps(s); }
    case Delete(forced) =>
      PurgeKeeps(s, forced);
      CancelKeeps(Purge(s, forced), forced);
    case TimerFires(index) => if index < |s.awaiting| { RequeueKeeps(s, index); }
  }

  lemma AppendBehind(q: seq<Task>, y: Task, x: Task, t: Task)
    requires Behind(q, x, t) && x in q
    ensures Behind(q + [y], x, t)
  {
    forall j | 0 <= j < |q + [y]| && (q + [y])[j] == t ensures x in (q + [y])[..j] {
      assert (q + [y])[..j] == q[..j];
      assert q[..|q|] == q;
    }
  }

  lemma StepBehind(s: Sched, e: Event, x: Task, t: Task)
    requires Valid(s) && x in s.queue && Behind(s.queue, x, t) && x in Step(s, e).queue
    ensures Behind(Step(s, e).queue, x, t) && Occurrences(Step(s, e).started, t) == Occurrences(s.started, t)
  {
    var m := BeforeDrain(s, e);
    StepDrains(s, e);
    assert x in m.queue by { LeftQueued(m, x); }
    assert Behind(m.queue, x, t) by { BeforeBehind(s, e, x, t); }
    hide Step, Drain, Behind, Consistent, Occurrences, BeforeDrain;
    DrainBehind(m, x, t);
  }

  lemma LeftQueued(m: Sched, x: Task)
    requires x in Drain(m).queue
    ensures x in m.queue
  {
    hide Drain;
    var d := Drain(m);
    DrainFrame(m);
    SplitLater(m.started, m.queue, d.started, d.queue);
  }

  lemma BeforeBehind(s: Sched, e: Event, x: Task, t: Task)
    requires x in s.queue && Behind(s.queue, x, t) && x in BeforeDrain(s, e).queue
    ensures Behind(BeforeDrain(s, e).queue, x, t)
  {
    hide Behind;
    match e
    case Schedule(policy, sync) => AppendBehind(s.queue, Task(|s.scheduled|, policy, sync), x, t);
    case Complete =>
    case Delete(forced) =>
      if !forced {
        SelectBehind(s.queue, NonDeletable, x, t);
      }
    case TimerFires(index) =>
      if index < |s.awaiting| {
        AppendBehind(s.queue, s.awaiting[index], x, t);
      }
  }

  lemma {:induction false} WaitsBehind(s: Sched, events: seq<Event>, x: Task, t: Task)
    requires Valid(s) && Behind(s.queue, x, t)
    requires forall k :: 0 <= k <= |events| ==> x in Run(s, events[..k]).queue
    ensures Occurrences(Run(s, events).started, t) == Occurrences(s.started, t)
    decreases |events|
  {
    hide Step, Valid, Behind, Occurrences;
    assert events[..0] == [] && Run(s, []) == s && x in Run(s, events[..0]).queue;
    if events != [] {
      var s1, rest := Step(s, events[0]), events[1..];
      forall k: nat | k <= |rest| ensures x in Run(s1, rest[..k]).queue {
        assert events[..k + 1][1..] == rest[..k];
        assert x in Run(s, events[..k + 1]).queue;
      }
      assert rest[..0] == [] && Run(s1, rest[..0]) == s1;
      StepKeeps(s, events[0]);
      StepBehind(s, events[0], x, t);
      WaitsBehind(s1, rest, x, t);
    }
  }

  /** Over every run: a rescheduled task does not start while a task that was
      queued when its timer fired still is. */
  lemma RescheduledWaits(s: Sched, index: nat, events: seq<Event>, x: Task)
    requires Valid(s) && index < |s.awaiting| && x in s.queue
    requires forall k :: 0 <= k <= |events| ==> x in Run(Step(s, TimerFires(index)), events[..k]).queue
    ensures var t := s.awaiting[index];
      Occurrences(Run(Step(s, TimerFires(index)), events).started, t) == Occurrences(s.started, t)
  {
    hide Step, Valid, Behind, Occurrences, Run;
    var t, s1 := s.awaiting[index], Step(s, TimerFires(index));
    assert events[..0] == [] && x in Run(s1, events[..0]).queue;
    assert Run(s1, []) == s1 by { RunNothing(s1); }
    assert Behind(s.queue, x, t) by { AwaitingNotQueued(s, index, x); }
    StepKeeps(s, TimerFires(index));
    StepBehind(s, TimerFires(index), x, t);
    WaitsBehind(s1, events, x, t);
  }

  lemma RunNothing(s: Sched)
    ensures Run(s, []) == s
  {
  }

  lemma AwaitingNotQueued(s: Sched, index: nat, x: Task)
    requires Valid(s) && index < |s.awaiting|
    ensures Behind(s.queue, x, s.awaiting[index])
  {
    var t := s.awaiting[index];
    RankedOnce(s.scheduled, t);
    assert Places(s, t) == Occurrences(s.scheduled, t);
    OnceOccurs(s.awaiting, t, index);
    forall j | 0 <= j < |s.queue| ensures s.queue[j] != t {
      if s.queue[j] == t {
        OnceOccurs(s.queue, t, j);
      }
    }
  }

  /** One iteration of the deletion loop. */
  function PurgeOne(p: Sched, t: Task, forced: bool): Sched {
    if forced || t.policy == Deletable then p.(deleted := p.deleted + [t])
    else if t.policy == NonDeletable then p.(queue := p.queue + [t])
    else p.(awaiting := p.awaiting + [t], moved := p.moved + {t})
  }

  lemma PurgeSnoc(s: Sched, seen: seq<Task>, t: Task, forced: bool)
    ensures Purge(s.(queue := seen + [t]), forced) == PurgeOne(Purge(s.(queue := seen), forced), t, forced)
  {
    var p, q := Purge(s.(queue := seen), forced), Purge(s.(queue := seen + [t]), forced);
    assert (seen + [t])[..|seen|] == seen;
    if forced {
      assert s.deleted + (seen + [t]) == (s.deleted + seen) + [t];
    } else {
      forall x: Policy ensures Select(seen + [t], x) == Select(seen, x) + (if t.policy == x then [t] else []) {
      }
      assert q.deleted == p.deleted + (if t.policy == Deletable then [t] else []);
      assert q.awaiting == p.awaiting + (if t.policy == Reschedulable then [t] else []);
      assert q.queue == p.queue + (if t.policy == NonDeletable then [t] else []);
      assert q.moved == p.moved + (if t.policy == Reschedulable then {t} else {});
    }
  }

  // ------------------------------------------------------------------
  // The scheduler object
  // ------------------------------------------------------------------

  class Scheduler {
    var tasks: seq<Task>
    var running: Option<Task>
    /** Tasks captured by zero-delay timers that have not fired yet. */
    var awaiting: seq<Task>
    ghost var completed: seq<Task>
    ghost var deleted: seq<Task>
    ghost var scheduled: seq<Task>
    ghost var started: seq<Task>
    ghost var moved: set<Task>

    ghost function View(): Sched
      reads this
    {
      Sched(tasks, running, awaiting, completed, deleted, scheduled, started, moved)
    }

    constructor ()
      ensures View() == EMPTY
    {
      tasks, running, awaiting := [], None, [];
      completed, deleted, scheduled, started, moved := [], [], [], [], {};
    }

    method ScheduleTask(task: Task)
      requires Valid(View()) && task.id == |scheduled|
      modifies this
      ensures View() == DoSchedule(old(View()), task.policy, task.sync) && Valid(View())
    {
      ScheduleKeeps(View(), task.policy, task.sync);
      scheduled := scheduled + [task];
      ScheduleTaskInternal(task);
    }

    method ScheduleTaskInternal(task: Task)
      modifies this
      ensures View() == Drain(old(View()).(queue := old(tasks) + [task]))
    {
      tasks := tasks + [task];
      MaybeRunTask();
    }

    method MaybeRunTask()
      modifies this
      ensures View() == Drain(old(View()))
      decreases |tasks|, 0
    {
      if running.Some? || tasks == [] {
        return;
      }
      var task := tasks[0];
      running, tasks, started := Some(task), tasks[1..], started + [task];
      assert View() == StartFirst(old(View()));
      // run(): a synchronous task emits completed() from inside.
      if task.sync {
        TaskCompleted();
      }
    }

    method TaskCompleted()
      requires running.Some?
      modifies this
      ensures View() == Drain(Finish(old(View())))
      decreases |tasks|, 1
    {
      completed := completed + [running.value];
      running := None;
      assert View() == Finish(old(View()));
      MaybeRunTask();
    }

    /** The deferred scheduling of a rescheduled task. */
    method TimerFired(index: nat)
      requires index < |awaiting|
      modifies this
      ensures View() == DoTimer(old(View()), index)
      ensures started + tasks == old(started + tasks) + [old(awaiting)[index]]
    {
      TimerReturns(View(), index);
      var task := awaiting[index];
      awaiting := awaiting[..index] + awaiting[index + 1..];
      ScheduleTaskInternal(task);
    }

    /** One turn of the mutable-iterator loop; i is the iterator's position. */
    method VisitTask(i: nat, forced: bool) returns (next: nat)
      requires i < |tasks|
      modifies this
      ensures next <= |tasks| && tasks[next..] == old(tasks[i + 1..])
      ensures View().(queue := tasks[..next])
           == PurgeOne(old(View().(queue := tasks[..i])), old(tasks[i]), forced)
    {
      var task := tasks[i];
      if forced || task.policy == Deletable {
        deleted := deleted + [task];
        tasks := tasks[..i] + tasks[i + 1..];
        return i;
      }
      if task.policy == NonDeletable {
        assert tasks[..i + 1] == tasks[..i] + [task];
        return i + 1;
      }
      awaiting := awaiting + [task];
      moved := moved + {task};
      tasks := tasks[..i] + tasks[i + 1..];
      return i;
    }

    /** deleteTasksInternal's loop: the part of the list before the iterator is
        what the purge of the tasks seen so far keeps. */
    method PurgeQueue(forced: bool)
      modifies this
      ensures View() == Purge(old(View()), forced)
    {
      hide PurgeOne;
      var i := 0;
      ghost var before := View();
      ghost var k := 0;  // tasks seen so far
      PurgeNothing(before, forced);
      hide Purge;
      assert before.queue[..0] == [] == tasks[..0] && before.queue[0..] == tasks[0..];
      while i < |tasks|
        invariant 0 <= i <= |tasks| && 0 <= k <= |before.queue| && before.queue[k..] == tasks[i..]
        invariant View().(queue := tasks[..i]) == Purge(before.(queue := before.queue[..k]), forced)
        decreases |before.queue| - k
      {
        SuffixStep(before.queue, k, tasks, i);
        PurgeSnoc(before, before.queue[..k], before.queue[k], forced);
        i := VisitTask(i, forced);
        k := k + 1;
      }
      assert k == |before.queue| by { assert |before.queue[k..]| == |tasks[i..]| == 0; }
      assert before.queue[..k] == before.queue && tasks[..i] == tasks;
    }

    lemma SuffixStep(a: seq<Task>, k: nat, b: seq<Task>, i: nat)
      requires k <= |a| && i < |b| && a[k..] == b[i..]
      ensures k < |a| && a[k] == b[i] && a[k + 1..] == b[i + 1..]
      ensures a[..k + 1] == a[..k] + [a[k]]
    {
      assert |a[k..]| == |b[i..]|;
      assert a[k..][0] == b[i..][0];
      assert a[k + 1..] == a[k..][1..] && b[i + 1..] == b[i..][1..];
    }

    lemma PurgeNothing(s: Sched, forced: bool)
      ensures Purge(s.(queue := []), forced) == s.(queue := [])
    {
      assert s.deleted + [] == s.deleted && s.awaiting + [] == s.awaiting;
    }

    method DeleteTasks(forced: bool)
      modifies this
      ensures View() == DoDelete(old(View()), forced)
    {
      hide Purge;
      PurgeQueue(forced);
      if running.Some? && (forced || running.value.policy == Deletable) {
        deleted := deleted + [running.value];
        running := None;
      }
      MaybeRunTask();
    }
  }
}
