/** The page runtime's URL resolver: a queue that keeps at most 24 requests in flight, one request for each target at a
    time, and a bounded cache of replies. Every promise reaction is a step of its own, and steps interleave freely. */
module Resolver {
  import opened Wrappers

  const LIMIT: nat := 24
  const CAPACITY: nat := 4096

  type Outcome = Result<string, string>

  datatype Slot = Waiting | Running | Freed

  /** What is still to run once the request has settled: storing the reply, then forgetting the promise. */
  datatype Tail = Blank | ToStore | ToForget | Done

  /** A queued resolution: the target it asks for, and how far its promises have come. */
  datatype Task = Task(target: string, slot: Slot, outcome: Option<Outcome>, tail: Tail)

  /** What a caller was handed: a stored reply, or the promise of a task. */
  datatype Call = Hit(target: string, url: string) | Waits(target: string, task: nat)

  /** `queue` and `active` are the scheduler's; `keys` is the insertion order of `resolved`; `log` records every key
      ever stored. */
  datatype State = State(
    queue: seq<nat>, active: nat,
    keys: seq<string>, resolved: map<string, string>, resolving: map<string, nat>,
    tasks: seq<Task>, calls: seq<Call>, log: seq<string>)

  function Init(): State {
    State([], 0, [], map[], map[], [], [], [])
  }

  // ----- the steps --------------------------------------------------------------------------

  datatype Step = Ask(target: string) | Settle(task: nat, outcome: Outcome) | Store(task: nat) | Forget(task: nat) | Free(task: nat)

  predicate Enabled(s: State, step: Step) {
    match step
    case Ask(_) => true
    case Settle(k, _) => k < |s.tasks| && s.tasks[k].slot == Running && s.tasks[k].outcome.None?
    case Store(k) => k < |s.tasks| && s.tasks[k].tail == ToStore && s.tasks[k].outcome.Some? && s.tasks[k].outcome.value.Success?
    case Forget(k) => k < |s.tasks| && s.tasks[k].tail == ToForget
    case Free(k) => k < |s.tasks| && s.tasks[k].slot == Running && s.tasks[k].outcome.Some? && s.active > 0
  }

  /** `drainResolutions`. */
  function Drain(s: State): State
    decreases |s.queue|
  {
    if s.active < LIMIT && s.queue != [] && s.queue[0] < |s.tasks| then Drain(Start(s)) else s
  }

  function Start(s: State): State
    requires s.queue != [] && s.queue[0] < |s.tasks|
  {
    var k := s.queue[0];
    s.(queue := s.queue[1..], active := s.active + 1, tasks := s.tasks[k := s.tasks[k].(slot := Running)])
  }

  /** `scheduleResolution`. */
  function Schedule(s: State, target: string): State {
    Drain(s.(queue := s.queue + [|s.tasks|], tasks := s.tasks + [Task(target, Waiting, None, Blank)]))
  }

  /** The compatibility-mode part of `resolveURL`, for a target already made absolute. */
  function AskFor(s: State, target: string): State {
    if target in s.resolved then s.(calls := s.calls + [Hit(target, s.resolved[target])])
    else if target in s.resolving then s.(calls := s.calls + [Waits(target, s.resolving[target])])
    else
      var k := |s.tasks|;
      var s' := Schedule(s, target);
      s'.(resolving := s'.resolving[target := k], calls := s'.calls + [Waits(target, k)])
  }

  function StoreReply(s: State, target: string, url: string): State {
    var s' := if |s.keys| >= CAPACITY then s.(keys := s.keys[1..], resolved := s.resolved - {s.keys[0]}) else s;
    s'.(keys := if target in s'.resolved then s'.keys else s'.keys + [target],
        resolved := s'.resolved[target := url], log := s'.log + [target])
  }

  function Apply(s: State, step: Step): State
    requires Enabled(s, step)
  {
    match step
    case Ask(target) => AskFor(s, target)
    case Settle(k, outcome) =>
      s.(tasks := s.tasks[k := s.tasks[k].(outcome := Some(outcome), tail := if outcome.Success? then ToStore else ToForget)])
    case Store(k) =>
      StoreReply(s, s.tasks[k].target, s.tasks[k].outcome.value.value)
      .(tasks := s.tasks[k := s.tasks[k].(tail := ToForget)])
    case Forget(k) =>
      s.(tasks := s.tasks[k := s.tasks[k].(tail := Done)], resolving := s.resolving - {s.tasks[k].target})
    case Free(k) =>
      Drain(s.(tasks := s.tasks[k := s.tasks[k].(slot := Freed)], active := s.active - 1))
  }

  predicate Runs(s: State, steps: seq<Step>)
    decreases |steps|
  {
    steps == [] || (Enabled(s, steps[0]) && Runs(Apply(s, steps[0]), steps[1..]))
  }

  function Exec(s: State, steps: seq<Step>): State
    requires Runs(s, steps)
    decreases |steps|
  {
    if steps == [] then s else Exec(Apply(s, steps[0]), steps[1..])
  }

  // ----- what every run keeps ---------------------------------------------------------------

  function InFlight(tasks: seq<Task>): nat {
    if tasks == [] then 0
    else InFlight(tasks[..|tasks| - 1]) + if tasks[|tasks| - 1].slot == Running then 1 else 0
  }

  /** The queue holds the last tasks asked for, oldest first; the rest have been started. */
  ghost predicate Fifo(queue: seq<nat>, tasks: seq<Task>) {
    && |queue| <= |tasks|
    && (forall j :: 0 <= j < |queue| ==> queue[j] == |tasks| - |queue| + j)
    && (forall k :: 0 <= k < |tasks| ==> (tasks[k].slot == Waiting <==> k >= |tasks| - |queue|))
  }

  ghost predicate Counted(active: nat, tasks: seq<Task>) {
    active == InFlight(tasks) <= LIMIT
  }

  ghost predicate Busy(s: State) {
    s.active == LIMIT || s.queue == []
  }

  predicate TaskOk(t: Task) {
    && (t.tail == Blank <==> t.outcome.None?)
    && (t.slot == Waiting ==> t.outcome.None?) && (t.slot == Freed ==> t.outcome.Some?)
    && (t.tail == ToStore ==> t.outcome.Some? && t.outcome.value.Success?)
  }

  ghost predicate TasksOk(tasks: seq<Task>) {
    forall k :: 0 <= k < |tasks| ==> TaskOk(tasks[k])
  }

  /** The map of pending promises holds exactly the unfinished tasks, one for each target. */
  ghost predicate OnePerTarget(resolving: map<string, nat>, tasks: seq<Task>) {
    && (forall t :: t in resolving ==>
          resolving[t] < |tasks| && tasks[resolving[t]].target == t && tasks[resolving[t]].tail != Done)
    && (forall k :: 0 <= k < |tasks| && tasks[k].tail != Done ==>
          tasks[k].target in resolving && resolving[tasks[k].target] == k)
  }

  /** Some task asked for exactly this target and was answered with this. */
  ghost predicate Replied(tasks: seq<Task>, target: string, url: string) {
    exists k :: 0 <= k < |tasks| && tasks[k].target == target && tasks[k].outcome == Some(Success(url))
  }

  predicate Unstored(t: Task) {
    t.tail == Blank || t.tail == ToStore
  }

  /** What is stored is a reply to its own key, and nothing is stored for a target whose reply is still to come. */
  ghost predicate CacheTrue(resolved: map<string, string>, tasks: seq<Task>) {
    && (forall t :: t in resolved ==> Replied(tasks, t, resolved[t]))
    && (forall k :: 0 <= k < |tasks| && Unstored(tasks[k]) ==> tasks[k].target !in resolved)
  }

  /** The insertion order of a map: each key once. */
  ghost predicate Lists(keys: seq<string>, resolved: map<string, string>) {
    && (forall i, j :: 0 <= i < j < |keys| ==> keys[i] != keys[j])
    && (forall t :: t in resolved <==> t in keys)
  }

  function Window(log: seq<string>): seq<string> {
    log[if |log| > CAPACITY then |log| - CAPACITY else 0..]
  }

  /** The cache is a window over everything ever stored: the last 4096 keys. */
  ghost predicate CacheWindow(keys: seq<string>, resolved: map<string, string>, log: seq<string>) {
    keys == Window(log) && Lists(keys, resolved)
  }

  ghost predicate CallOk(tasks: seq<Task>, c: Call) {
    match c
    case Hit(target, url) => Replied(tasks, target, url)
    case Waits(target, k) => k < |tasks| && tasks[k].target == target
  }

  ghost predicate CallsOk(calls: seq<Call>, tasks: seq<Task>) {
    forall i :: 0 <= i < |calls| ==> CallOk(tasks, calls[i])
  }

  ghost predicate Core(s: State) {
    && Fifo(s.queue, s.tasks) && Counted(s.active, s.tasks) && TasksOk(s.tasks)
    && OnePerTarget(s.resolving, s.tasks) && CacheTrue(s.resolved, s.tasks) && CacheWindow(s.keys, s.resolved, s.log)
    && CallsOk(s.calls, s.tasks)
  }

  ghost predicate Inv(s: State) {
    Core(s) && Busy(s)
  }

  // ----- one task changes -------------------------------------------------------------------

  function Rank(slot: Slot): nat {
    match slot case Waiting => 0 case Running => 1 case Freed => 2
  }

  function TailRank(tail: Tail): nat {
    match tail case Blank => 0 case ToStore => 1 case ToForget => 2 case Done => 3
  }

  predicate Onwards(a: Task, b: Task) {
    && a.target == b.target && Rank(a.slot) <= Rank(b.slot) && TailRank(a.tail) <= TailRank(b.tail)
    && (a.outcome.Some? ==> b.outcome == a.outcome)
  }

  /** How tasks evolve: none disappears or changes its target, each starts, settles and finishes at most once, and an
      outcome, once there, stays. */
  ghost predicate Later(before: seq<Task>, after: seq<Task>) {
    |before| <= |after| && forall k :: 0 <= k < |before| ==> Onwards(before[k], after[k])
  }

  lemma LaterSelf(a: seq<Task>)
    ensures Later(a, a)
  {
  }

  lemma LaterTrans(a: seq<Task>, b: seq<Task>, c: seq<Task>)
    requires Later(a, b) && Later(b, c)
    ensures Later(a, c)
  {
    forall k | 0 <= k < |a|
      ensures Onwards(a[k], c[k])
    {
      assert Onwards(a[k], b[k]) && Onwards(b[k], c[k]);
    }
  }

  lemma UpdateIsLater(tasks: seq<Task>, k: nat, t: Task)
    requires k < |tasks| && Onwards(tasks[k], t)
    ensures Later(tasks, tasks[k := t])
  {
  }

  lemma SnocIsLater(tasks: seq<Task>, t: Task)
    ensures Later(tasks, tasks + [t])
  {
  }

  lemma RepliedStays(before: seq<Task>, after: seq<Task>, target: string, url: string)
    requires Later(before, after) && Replied(before, target, url)
    ensures Replied(after, target, url)
  {
    var k :| 0 <= k < |before| && before[k].target == target && before[k].outcome == Some(Success(url));
    assert Onwards(before[k], after[k]);
  }

  lemma CallsStay(calls: seq<Call>, before: seq<Task>, after: seq<Task>)
    requires CallsOk(calls, before) && Later(before, after)
    ensures CallsOk(calls, after)
  {
    hide Replied;
    forall i | 0 <= i < |calls|
      ensures CallOk(after, calls[i])
    {
      assert CallOk(before, calls[i]);
      match calls[i]
      case Hit(target, url) => RepliedStays(before, after, target, url);
      case Waits(_, k) => assert Onwards(before[k], after[k]);
    }
  }

  lemma CacheStays(resolved: map<string, string>, before: seq<Task>, after: seq<Task>)
    requires CacheTrue(resolved, before) && Later(before, after)
    requires forall k :: 0 <= k < |after| && Unstored(after[k]) ==>
               if k < |before| then Unstored(before[k]) else after[k].target !in resolved
    ensures CacheTrue(resolved, after)
  {
    hide Replied;
    forall t | t in resolved
      ensures Replied(after, t, resolved[t])
    {
      RepliedStays(before, after, t, resolved[t]);
    }
    forall k | 0 <= k < |after| && Unstored(after[k])
      ensures after[k].target !in resolved
    {
      if k < |before| {
        assert Onwards(before[k], after[k]);
      }
    }
  }

  lemma FifoStays(queue: seq<nat>, tasks: seq<Task>, k: nat, t: Task)
    requires Fifo(queue, tasks) && k < |tasks| && (t.slot == Waiting <==> tasks[k].slot == Waiting)
    ensures Fifo(queue, tasks[k := t])
  {
  }

  lemma TasksStay(tasks: seq<Task>, k: nat, t: Task)
    requires TasksOk(tasks) && k < |tasks| && TaskOk(t)
    ensures TasksOk(tasks[k := t])
  {
  }

  lemma PendingStays(resolving: map<string, nat>, tasks: seq<Task>, k: nat, t: Task)
    requires OnePerTarget(resolving, tasks) && k < |tasks| && t.target == tasks[k].target
    requires t.tail == Done <==> tasks[k].tail == Done
    ensures OnePerTarget(resolving, tasks[k := t])
  {
  }

  lemma {:induction false} InFlightUpdate(tasks: seq<Task>, k: nat, t: Task)
    requires k < |tasks|
    ensures InFlight(tasks[k := t])
            == InFlight(tasks) - (if tasks[k].slot == Running then 1 else 0) + if t.slot == Running then 1 else 0
  {
    var n := |tasks| - 1;
    if k < n {
      assert tasks[k := t][..n] == tasks[..n][k := t];
      InFlightUpdate(tasks[..n], k, t);
    } else {
      assert tasks[k := t][..n] == tasks[..n];
    }
  }

  lemma InFlightSnoc(tasks: seq<Task>, t: Task)
    ensures InFlight(tasks + [t]) == InFlight(tasks) + if t.slot == Running then 1 else 0
  {
    assert (tasks + [t])[..|tasks|] == tasks;
  }

  /** A task settles, is stored or frees its slot: everything but its own place in the map of pending promises. */
  lemma TaskMoves(s: State, k: nat, t: Task)
    requires Core(s) && k < |s.tasks| && Onwards(s.tasks[k], t) && TaskOk(t)
    requires t.slot == Waiting <==> s.tasks[k].slot == Waiting
    requires Unstored(t) ==> Unstored(s.tasks[k])
    ensures var tasks := s.tasks[k := t];
            && Later(s.tasks, tasks) && Fifo(s.queue, tasks) && TasksOk(tasks)
            && CacheTrue(s.resolved, tasks) && CallsOk(s.calls, tasks)
            && InFlight(tasks) == InFlight(s.tasks) - (if s.tasks[k].slot == Running then 1 else 0)
                                  + if t.slot == Running then 1 else 0
  {
    hide Fifo, TasksOk, OnePerTarget, CacheTrue, CacheWindow, CallsOk, Onwards, InFlight, Later;
    var tasks := s.tasks[k := t];
    UpdateIsLater(s.tasks, k, t);
    FifoStays(s.queue, s.tasks, k, t);
    TasksStay(s.tasks, k, t);
    CallsStay(s.calls, s.tasks, tasks);
    CacheStays(s.resolved, s.tasks, tasks);
    InFlightUpdate(s.tasks, k, t);
  }

  // ----- draining ---------------------------------------------------------------------------

  lemma StartKeeps(s: State)
    requires Core(s) && s.active < LIMIT && s.queue != []
    ensures s.queue[0] < |s.tasks| && Core(Start(s)) && Later(s.tasks, Start(s).tasks)
  {
    StartedFifo(s.queue, s.tasks);
    hide Fifo, OnePerTarget, CacheTrue, CacheWindow, CallsOk, Onwards, InFlight, Later;
    var k := s.queue[0];
    var t := s.tasks[k].(slot := Running);
    assert TaskOk(s.tasks[k]);
    assert Onwards(s.tasks[k], t) by {
      RunningIsOnwards(s.tasks[k]);
    }
    UpdateIsLater(s.tasks, k, t);
    TasksStay(s.tasks, k, t);
    CallsStay(s.calls, s.tasks, s.tasks[k := t]);
    CacheStays(s.resolved, s.tasks, s.tasks[k := t]);
    PendingStays(s.resolving, s.tasks, k, t);
    InFlightUpdate(s.tasks, k, t);
  }

  lemma RunningIsOnwards(t: Task)
    requires t.slot == Waiting
    ensures Onwards(t, t.(slot := Running))
  {
  }

  lemma StartedFifo(queue: seq<nat>, tasks: seq<Task>)
    requires Fifo(queue, tasks) && queue != []
    ensures queue[0] < |tasks| && tasks[queue[0]].slot == Waiting
    ensures Fifo(queue[1..], tasks[queue[0] := tasks[queue[0]].(slot := Running)])
  {
  }

  lemma {:induction false} DrainKeeps(s: State)
    requires Core(s)
    ensures Inv(Drain(s)) && Later(s.tasks, Drain(s).tasks) && |Drain(s).tasks| == |s.tasks|
    decreases |s.queue|
  {
    hide Core, Later;
    if s.active < LIMIT && s.queue != [] {
      StartKeeps(s);
      DrainKeeps(Start(s));
      LaterTrans(s.tasks, Start(s).tasks, Drain(s).tasks);
    } else {
      LaterSelf(s.tasks);
      CoreBusy(s);
    }
  }

  lemma CoreBusy(s: State)
    requires Core(s) && !(s.active < LIMIT && s.queue != [])
    ensures Inv(s)
  {
    hide Fifo, TasksOk, OnePerTarget, CacheTrue, CacheWindow, CallsOk;
  }

  /** The scheduler neither reads nor writes what surrounds it. */
  lemma {:induction false} DrainIgnoresRest(s: State, resolving: map<string, nat>, calls: seq<Call>)
    ensures Drain(s.(resolving := resolving, calls := calls)) == Drain(s).(resolving := resolving, calls := calls)
    ensures Drain(s).resolving == s.resolving && Drain(s).calls == s.calls
    decreases |s.queue|
  {
    if s.active < LIMIT && s.queue != [] && s.queue[0] < |s.tasks| {
      DrainIgnoresRest(Start(s), resolving, calls);
    }
  }

  // ----- each step keeps the invariant ------------------------------------------------------

  lemma AskKeeps(s: State, target: string)
    requires Inv(s)
    ensures Inv(AskFor(s, target)) && Later(s.tasks, AskFor(s, target).tasks)
  {
    hide Later, Drain, Core;
    if target in s.resolved || target in s.resolving {
      LaterSelf(s.tasks);
      KnownTarget(s, target);
    } else {
      var k := |s.tasks|;
      var added := s.(queue := s.queue + [k], tasks := s.tasks + [Task(target, Waiting, None, Blank)]);
      var whole := added.(resolving := s.resolving[target := k], calls := s.calls + [Waits(target, k)]);
      NewTarget(s, target);
      DrainKeeps(whole);
      DrainIgnoresRest(added, whole.resolving, whole.calls);
      assert AskFor(s, target) == Drain(whole);
      SnocIsLater(s.tasks, Task(target, Waiting, None, Blank));
      LaterTrans(s.tasks, whole.tasks, Drain(whole).tasks);
    }
  }

  lemma CallsSnoc(calls: seq<Call>, tasks: seq<Task>, c: Call)
    requires CallsOk(calls, tasks) && CallOk(tasks, c)
    ensures CallsOk(calls + [c], tasks)
  {
    hide CallOk;
  }

  lemma KnownTarget(s: State, target: string)
    requires Core(s) && (target in s.resolved || target in s.resolving)
    ensures Core(AskFor(s, target))
  {
    hide Fifo, CacheWindow, Replied, TasksOk, CallsOk, Schedule;
    CallsSnoc(s.calls, s.tasks,
              if target in s.resolved then Hit(target, s.resolved[target]) else Waits(target, s.resolving[target]));
  }

  /** A new task at the end of the queue. */
  lemma NewTarget(s: State, target: string)
    requires Core(s) && target !in s.resolved && target !in s.resolving
    ensures var k := |s.tasks|;
            Core(s.(queue := s.queue + [k], tasks := s.tasks + [Task(target, Waiting, None, Blank)],
                    resolving := s.resolving[target := k], calls := s.calls + [Waits(target, k)]))
  {
    var (k, t) := (|s.tasks|, Task(target, Waiting, None, Blank));
    var tasks := s.tasks + [t];
    InFlightSnoc(s.tasks, t);
    SnocIsLater(s.tasks, t);
    NewPending(s.resolving, s.tasks, t);
    NewInQueue(s.queue, s.tasks, t);
    hide InFlight, Fifo, OnePerTarget, CacheTrue, CacheWindow, CallsOk, Later;
    CallsStay(s.calls, s.tasks, tasks);
    CallsSnoc(s.calls, tasks, Waits(target, k));
    CacheStays(s.resolved, s.tasks, tasks);
  }

  lemma NewPending(resolving: map<string, nat>, tasks: seq<Task>, t: Task)
    requires OnePerTarget(resolving, tasks) && t.target !in resolving && t.tail != Done
    ensures OnePerTarget(resolving[t.target := |tasks|], tasks + [t])
  {
  }

  lemma NewInQueue(queue: seq<nat>, tasks: seq<Task>, t: Task)
    requires Fifo(queue, tasks) && t.slot == Waiting
    ensures Fifo(queue + [|tasks|], tasks + [t])
  {
  }

  lemma SettleKeeps(s: State, k: nat, outcome: Outcome)
    requires Inv(s) && Enabled(s, Settle(k, outcome))
    ensures Inv(Apply(s, Settle(k, outcome))) && Later(s.tasks, Apply(s, Settle(k, outcome)).tasks)
  {
    hide InFlight, Fifo, OnePerTarget, CacheTrue, CacheWindow, CallsOk, Later;
    assert TaskOk(s.tasks[k]);
    var t := s.tasks[k].(outcome := Some(outcome), tail := if outcome.Success? then ToStore else ToForget);
    TaskMoves(s, k, t);
    PendingStays(s.resolving, s.tasks, k, t);
  }

  lemma ForgetKeeps(s: State, k: nat)
    requires Inv(s) && Enabled(s, Forget(k))
    ensures Inv(Apply(s, Forget(k))) && Later(s.tasks, Apply(s, Forget(k)).tasks)
  {
    hide InFlight, Fifo, OnePerTarget, CacheTrue, CacheWindow, CallsOk, Later;
    assert TaskOk(s.tasks[k]);
    TaskMoves(s, k, s.tasks[k].(tail := Done));
    PendingForgotten(s.resolving, s.tasks, k);
  }

  lemma PendingForgotten(resolving: map<string, nat>, tasks: seq<Task>, k: nat)
    requires OnePerTarget(resolving, tasks) && k < |tasks| && tasks[k].tail != Done
    ensures OnePerTarget(resolving - {tasks[k].target}, tasks[k := tasks[k].(tail := Done)])
  {
  }

  lemma FreeKeeps(s: State, k: nat)
    requires Inv(s) && Enabled(s, Free(k))
    ensures Inv(Apply(s, Free(k))) && Later(s.tasks, Apply(s, Free(k)).tasks)
    ensures |Apply(s, Free(k)).tasks| == |s.tasks| && Apply(s, Free(k)).tasks[k].slot == Freed
  {
    hide InFlight, Fifo, OnePerTarget, CacheTrue, CacheWindow, CallsOk, Later, Drain;
    assert TaskOk(s.tasks[k]);
    var t := s.tasks[k].(slot := Freed);
    var freed := s.(tasks := s.tasks[k := t], active := s.active - 1);
    TaskMoves(s, k, t);
    PendingStays(s.resolving, s.tasks, k, t);
    DrainKeeps(freed);
    LaterTrans(s.tasks, freed.tasks, Drain(freed).tasks);
    FreedStays(freed.tasks, Drain(freed).tasks, k);
  }

  lemma FreedStays(before: seq<Task>, after: seq<Task>, k: nat)
    requires Later(before, after) && k < |before| && before[k].slot == Freed
    ensures after[k].slot == Freed
  {
    assert Onwards(before[k], after[k]);
  }

  lemma StoreKeeps(s: State, k: nat)
    requires Inv(s) && Enabled(s, Store(k))
    ensures Inv(Apply(s, Store(k))) && Later(s.tasks, Apply(s, Store(k)).tasks)
  {
    hide InFlight, Fifo, OnePerTarget, CacheTrue, CacheWindow, CallsOk, Later, StoreReply;
    assert TaskOk(s.tasks[k]);
    var t := s.tasks[k].(tail := ToForget);
    TaskMoves(s, k, t);
    PendingStays(s.resolving, s.tasks, k, t);
    var (target, url) := (s.tasks[k].target, s.tasks[k].outcome.value.value);
    StoredNow(s, k);
    WindowSlides(s, target, url);
    CacheGrows(s.resolved, StoreReply(s, target, url).resolved, s.resolving, s.tasks, k);
  }

  lemma StoredNow(s: State, k: nat)
    requires Core(s) && k < |s.tasks| && Unstored(s.tasks[k])
    ensures s.tasks[k].target !in s.resolved
  {
  }

  /** Storing a reply slides the window by one key and changes no other entry. */
  lemma WindowSlides(s: State, target: string, url: string)
    requires CacheWindow(s.keys, s.resolved, s.log) && target !in s.resolved
    ensures var s' := StoreReply(s, target, url);
            && CacheWindow(s'.keys, s'.resolved, s'.log)
            && s' == s.(keys := s'.keys, resolved := s'.resolved, log := s.log + [target])
            && target in s'.resolved && s'.resolved[target] == url
            && forall t :: t in s'.resolved && t != target ==> t in s.resolved && s'.resolved[t] == s.resolved[t]
  {
    WindowSnoc(s.log, target);
    hide Window, Lists;
    if |s.keys| >= CAPACITY {
      Oldest(s.keys, s.resolved);
      Newest(s.keys[1..], s.resolved - {s.keys[0]}, target, url);
    } else {
      Newest(s.keys, s.resolved, target, url);
    }
  }

  lemma StoreLeavesRest(s: State, target: string, url: string)
    ensures var s' := StoreReply(s, target, url); s' == s.(keys := s'.keys, resolved := s'.resolved, log := s.log + [target])
  {
  }

  lemma WindowSnoc(log: seq<string>, target: string)
    ensures Window(log + [target]) == (if |Window(log)| >= CAPACITY then Window(log)[1..] else Window(log)) + [target]
  {
    if |log| >= CAPACITY {
      assert log[|log| - CAPACITY..][1..] == log[|log| + 1 - CAPACITY..];
    } else {
      assert Window(log) == log && Window(log + [target]) == log + [target];
    }
  }

  lemma Oldest(keys: seq<string>, resolved: map<string, string>)
    requires Lists(keys, resolved) && keys != []
    ensures Lists(keys[1..], resolved - {keys[0]})
  {
    assert keys == [keys[0]] + keys[1..];
    forall t
      ensures t in resolved - {keys[0]} <==> t in keys[1..]
    {
    }
  }

  lemma Newest(keys: seq<string>, resolved: map<string, string>, target: string, url: string)
    requires Lists(keys, resolved) && target !in resolved
    ensures target !in keys && Lists(keys + [target], resolved[target := url])
  {
  }

  lemma CacheGrows(before: map<string, string>, after: map<string, string>, resolving: map<string, nat>,
                   tasks: seq<Task>, k: nat)
    requires CacheTrue(before, tasks) && OnePerTarget(resolving, tasks)
    requires k < |tasks| && tasks[k].tail == ToStore && tasks[k].outcome.Some? && tasks[k].outcome.value.Success?
    requires tasks[k].target in after && after[tasks[k].target] == tasks[k].outcome.value.value
    requires forall t :: t in after && t != tasks[k].target ==> t in before && after[t] == before[t]
    ensures CacheTrue(after, tasks[k := tasks[k].(tail := ToForget)])
  {
    var later := tasks[k := tasks[k].(tail := ToForget)];
    UpdateIsLater(tasks, k, tasks[k].(tail := ToForget));
    forall t | t in after
      ensures Replied(later, t, after[t])
    {
      if t == tasks[k].target {
        assert later[k].outcome == Some(Success(after[t]));
      } else {
        RepliedStays(tasks, later, t, after[t]);
      }
    }
  }

  lemma StepKeeps(s: State, step: Step)
    requires Inv(s) && Enabled(s, step)
    ensures Inv(Apply(s, step)) && Later(s.tasks, Apply(s, step).tasks)
  {
    hide Inv, Later, AskFor;
    match step
    case Ask(target) => AskKeeps(s, target);
    case Settle(k, outcome) => SettleKeeps(s, k, outcome);
    case Store(k) => StoreKeeps(s, k);
    case Forget(k) => ForgetKeeps(s, k);
    case Free(k) => FreeKeeps(s, k);
  }

  lemma {:induction false} RunKeeps(s: State, steps: seq<Step>)
    requires Inv(s) && Runs(s, steps)
    ensures Inv(Exec(s, steps)) && Later(s.tasks, Exec(s, steps).tasks)
    decreases |steps|
  {
    hide Inv, Later, Apply, Enabled;
    if steps == [] {
      LaterSelf(s.tasks);
    } else {
      StepKeeps(s, steps[0]);
      RunKeeps(Apply(s, steps[0]), steps[1..]);
      LaterTrans(s.tasks, Apply(s, steps[0]).tasks, Exec(s, steps).tasks);
    }
  }

  lemma InitInv()
    ensures Inv(Init())
  {
  }

  // ----- the scheduler, over every run ------------------------------------------------------

  function Finished(tasks: seq<Task>): nat {
    if tasks == [] then 0
    else Finished(tasks[..|tasks| - 1]) + if tasks[|tasks| - 1].slot == Freed then 1 else 0
  }

  /** At most 24 requests are in flight, the queue waits only while all 24 are, and every task asked for is queued, in
      flight or finished. */
  lemma SchedulerHolds(steps: seq<Step>)
    requires Runs(Init(), steps)
    ensures var s := Exec(Init(), steps);
            && s.active <= 24 && (s.active == 24 || s.queue == [])
            && s.active == InFlight(s.tasks)
            && |s.tasks| == |s.queue| + s.active + Finished(s.tasks)
  {
    hide Runs, Exec, InFlight, Finished;
    InitInv();
    RunKeeps(Init(), steps);
    var s := Exec(Init(), steps);
    Census(s.tasks, |s.tasks| - |s.queue|);
  }

  lemma {:induction false} Census(tasks: seq<Task>, started: nat)
    requires started <= |tasks| && forall k :: 0 <= k < |tasks| ==> (tasks[k].slot == Waiting <==> k >= started)
    ensures started == InFlight(tasks) + Finished(tasks)
  {
    if tasks != [] {
      var n := |tasks| - 1;
      Census(tasks[..n], if started <= n then started else n);
    }
  }

  /** Tasks start in the order they were asked for, and the queue holds the unstarted ones in that order. */
  lemma TasksStartInOrder(steps: seq<Step>, i: nat, j: nat)
    requires Runs(Init(), steps) && i < j < |Exec(Init(), steps).tasks|
    ensures var s := Exec(Init(), steps);
            && (s.tasks[j].slot != Waiting ==> s.tasks[i].slot != Waiting)
            && (s.tasks[i].slot == Waiting ==> exists a, b :: 0 <= a < b < |s.queue| && s.queue[a] == i && s.queue[b] == j)
  {
    hide Runs, Exec;
    InitInv();
    RunKeeps(Init(), steps);
    var s := Exec(Init(), steps);
    var started := |s.tasks| - |s.queue|;
    if s.tasks[i].slot == Waiting {
      assert s.queue[i - started] == i && s.queue[j - started] == j;
    }
  }

  /** As a run goes on, no task starts twice, settles twice or changes the outcome it settled with. */
  lemma TasksSettleOnce(steps: seq<Step>, more: seq<Step>)
    requires Runs(Init(), steps) && Runs(Exec(Init(), steps), more)
    ensures Later(Exec(Init(), steps).tasks, Exec(Exec(Init(), steps), more).tasks)
  {
    hide Runs, Exec, Later, Inv;
    InitInv();
    RunKeeps(Init(), steps);
    RunKeeps(Exec(Init(), steps), more);
  }

  // ----- the cache, over every run ----------------------------------------------------------

  /** There is never more than one outstanding request for a target. */
  lemma OneRequestPerTarget(steps: seq<Step>, i: nat, j: nat)
    requires Runs(Init(), steps)
    requires var tasks := Exec(Init(), steps).tasks;
             && i < |tasks| && j < |tasks| && tasks[i].target == tasks[j].target
             && tasks[i].slot != Freed && tasks[i].outcome.None? && tasks[j].slot != Freed && tasks[j].outcome.None?
    ensures i == j
  {
    hide Runs, Exec;
    InitInv();
    RunKeeps(Init(), steps);
    var s := Exec(Init(), steps);
    assert TaskOk(s.tasks[i]) && TaskOk(s.tasks[j]);
  }

  /** The cache holds exactly the last 4096 keys stored, each once, and each with a reply the server gave for that very
      key. */
  lemma CacheHoldsLatestReplies(steps: seq<Step>)
    requires Runs(Init(), steps)
    ensures var s := Exec(Init(), steps);
            && |s.keys| == |s.resolved.Keys| <= 4096
            && (forall t :: t in s.resolved <==> t in Window(s.log))
            && forall t :: t in s.resolved ==> Replied(s.tasks, t, s.resolved[t])
  {
    hide Runs, Exec, Replied;
    InitInv();
    RunKeeps(Init(), steps);
    var s := Exec(Init(), steps);
    KeysCounted(s.keys, s.resolved.Keys);
  }

  /** A successful task whose reaction has run is in the log of keys stored. */
  ghost predicate Logged(tasks: seq<Task>, log: seq<string>) {
    forall k :: 0 <= k < |tasks| && Stored(tasks[k]) ==> tasks[k].target in log
  }

  predicate Stored(t: Task) {
    t.outcome.Some? && t.outcome.value.Success? && (t.tail == ToForget || t.tail == Done)
  }

  lemma {:induction false} DrainStaysLogged(s: State)
    requires Logged(s.tasks, s.log)
    ensures Logged(Drain(s).tasks, Drain(s).log)
    decreases |s.queue|
  {
    if s.active < LIMIT && s.queue != [] && s.queue[0] < |s.tasks| {
      DrainStaysLogged(Start(s));
    }
  }

  lemma StepStaysLogged(s: State, step: Step)
    requires Logged(s.tasks, s.log) && Enabled(s, step)
    ensures Logged(Apply(s, step).tasks, Apply(s, step).log)
  {
    hide Drain;
    match step
    case Ask(target) =>
      DrainStaysLogged(s.(queue := s.queue + [|s.tasks|], tasks := s.tasks + [Task(target, Waiting, None, Blank)]));
    case Free(k) =>
      DrainStaysLogged(s.(tasks := s.tasks[k := s.tasks[k].(slot := Freed)], active := s.active - 1));
    case Settle(k, outcome) =>
    case Store(k) =>
    case Forget(k) =>
  }

  lemma {:induction false} RunStaysLogged(s: State, steps: seq<Step>)
    requires Logged(s.tasks, s.log) && Runs(s, steps)
    ensures Logged(Exec(s, steps).tasks, Exec(s, steps).log)
    decreases |steps|
  {
    hide Logged, Apply, Enabled;
    if steps != [] {
      StepStaysLogged(s, steps[0]);
      RunStaysLogged(Apply(s, steps[0]), steps[1..]);
    }
  }

  /** No reply is lost: every successful resolution whose reaction has run was stored under its target, so that it is in
      the cache unless 4096 later ones were stored. */
  lemma EveryReplyIsStored(steps: seq<Step>, k: nat)
    requires Runs(Init(), steps) && k < |Exec(Init(), steps).tasks|
    requires Stored(Exec(Init(), steps).tasks[k])
    ensures var s := Exec(Init(), steps);
            s.tasks[k].target in s.log && (|s.log| <= 4096 ==> s.tasks[k].target in s.resolved)
  {
    hide Runs, Exec, Replied, Drain;
    RunStaysLogged(Init(), steps);
    CacheHoldsLatestReplies(steps);
    var s := Exec(Init(), steps);
    assert |s.log| <= CAPACITY ==> Window(s.log) == s.log;
  }

  lemma {:induction false} KeysCounted(keys: seq<string>, all: set<string>)
    requires forall i, j :: 0 <= i < j < |keys| ==> keys[i] != keys[j]
    requires forall t :: t in all <==> t in keys
    ensures |keys| == |all|
  {
    if keys == [] {
      assert all == {};
    } else {
      var n := |keys| - 1;
      assert keys == keys[..n] + [keys[n]];
      KeysCounted(keys[..n], all - {keys[n]});
    }
  }

  // ----- it answers as the uncached resolver does -------------------------------------------

  /** What a caller has been told so far. */
  function Answer(tasks: seq<Task>, c: Call): Option<Outcome> {
    match c
    case Hit(_, url) => Some(Success(url))
    case Waits(_, k) => if k < |tasks| && tasks[k].tail == Done then tasks[k].outcome else None
  }

  /** The server answers each request with what `reply` says of its target. */
  predicate HonestStep(s: State, step: Step, reply: map<string, Outcome>)
    requires Enabled(s, step)
  {
    step.Settle? ==> s.tasks[step.task].target in reply && step.outcome == reply[s.tasks[step.task].target]
  }

  predicate HonestRun(s: State, steps: seq<Step>, reply: map<string, Outcome>)
    requires Runs(s, steps)
    decreases |steps|
  {
    steps == [] || (HonestStep(s, steps[0], reply) && HonestRun(Apply(s, steps[0]), steps[1..], reply))
  }

  ghost predicate HonestTasks(tasks: seq<Task>, reply: map<string, Outcome>) {
    forall k :: 0 <= k < |tasks| && tasks[k].outcome.Some? ==>
      tasks[k].target in reply && tasks[k].outcome.value == reply[tasks[k].target]
  }

  lemma {:induction false} DrainStaysHonest(s: State, reply: map<string, Outcome>)
    requires HonestTasks(s.tasks, reply)
    ensures HonestTasks(Drain(s).tasks, reply)
    decreases |s.queue|
  {
    if s.active < LIMIT && s.queue != [] && s.queue[0] < |s.tasks| {
      DrainStaysHonest(Start(s), reply);
    }
  }

  lemma StepStaysHonest(s: State, step: Step, reply: map<string, Outcome>)
    requires Enabled(s, step) && HonestTasks(s.tasks, reply) && HonestStep(s, step, reply)
    ensures HonestTasks(Apply(s, step).tasks, reply)
  {
    hide Drain;
    match step
    case Ask(target) =>
      var k := |s.tasks|;
      var added := s.(queue := s.queue + [k], tasks := s.tasks + [Task(target, Waiting, None, Blank)]);
      DrainStaysHonest(added, reply);
    case Free(k) =>
      DrainStaysHonest(s.(tasks := s.tasks[k := s.tasks[k].(slot := Freed)], active := s.active - 1), reply);
    case _ =>
  }

  lemma {:induction false} RunStaysHonest(s: State, steps: seq<Step>, reply: map<string, Outcome>)
    requires Runs(s, steps) && HonestTasks(s.tasks, reply) && HonestRun(s, steps, reply)
    ensures HonestTasks(Exec(s, steps).tasks, reply)
    decreases |steps|
  {
    hide HonestTasks, HonestStep, Apply, Enabled;
    if steps != [] {
      StepStaysHonest(s, steps[0], reply);
      RunStaysHonest(Apply(s, steps[0]), steps[1..], reply);
    }
  }

  /** When the server's reply depends on the target alone, every caller is told exactly what an uncached request for its
      target is told, whether it hit the cache, joined a pending request or made one. */
  lemma CachedAnswersAreUncachedAnswers(steps: seq<Step>, reply: map<string, Outcome>, i: nat)
    requires Runs(Init(), steps) && HonestRun(Init(), steps, reply) && i < |Exec(Init(), steps).calls|
    requires var s := Exec(Init(), steps); Answer(s.tasks, s.calls[i]).Some?
    ensures var s := Exec(Init(), steps);
            s.calls[i].target in reply && Answer(s.tasks, s.calls[i]).value == reply[s.calls[i].target]
  {
    hide Runs, Exec, HonestRun;
    InitInv();
    RunKeeps(Init(), steps);
    RunStaysHonest(Init(), steps, reply);
    var s := Exec(Init(), steps);
    assert CallOk(s.tasks, s.calls[i]);
    if s.calls[i].Hit? {
      var k :| 0 <= k < |s.tasks| && s.tasks[k].target == s.calls[i].target && s.tasks[k].outcome == Some(Success(s.calls[i].url));
    }
  }

  // ----- every caller is answered -----------------------------------------------------------

  lemma {:induction false} SomeInFlight(tasks: seq<Task>)
    ensures InFlight(tasks) > 0 <==> exists k :: 0 <= k < |tasks| && tasks[k].slot == Running
  {
    if tasks != [] {
      var n := |tasks| - 1;
      SomeInFlight(tasks[..n]);
      if k :| 0 <= k < |tasks| && tasks[k].slot == Running {
        assert k < n ==> tasks[..n][k].slot == Running;
      }
      if InFlight(tasks[..n]) > 0 {
        var k :| 0 <= k < n && tasks[..n][k].slot == Running;
        assert tasks[k].slot == Running;
      }
    }
  }

  /** Once the server has answered and every reaction has run, nothing is left queued or pending and every caller has
      its answer. */
  lemma QuietMeansAnswered(steps: seq<Step>)
    requires Runs(Init(), steps)
    requires forall step :: Enabled(Exec(Init(), steps), step) ==> step.Ask?
    ensures var s := Exec(Init(), steps);
            && s.queue == [] && s.active == 0 && s.resolving == map[]
            && forall i :: 0 <= i < |s.calls| ==> Answer(s.tasks, s.calls[i]).Some?
  {
    hide Runs, Exec, InFlight, CacheTrue, CacheWindow;
    InitInv();
    RunKeeps(Init(), steps);
    var s := Exec(Init(), steps);
    SomeInFlight(s.tasks);
    forall k | 0 <= k < |s.tasks|
      ensures s.tasks[k].slot != Running
    {
      assert !Enabled(s, Free(k)) && !Enabled(s, Settle(k, Failure("")));
    }
    forall k | 0 <= k < |s.tasks|
      ensures s.tasks[k].tail == Done && s.tasks[k].outcome.Some?
    {
      assert TaskOk(s.tasks[k]);
      assert !Enabled(s, Store(k)) && !Enabled(s, Forget(k));
    }
    forall i | 0 <= i < |s.calls|
      ensures Answer(s.tasks, s.calls[i]).Some?
    {
      assert CallOk(s.tasks, s.calls[i]);
    }
  }

  function Remaining(tasks: seq<Task>): nat {
    if tasks == [] then 0
    else var t := tasks[|tasks| - 1]; Remaining(tasks[..|tasks| - 1]) + 5 - Rank(t.slot) - TailRank(t.tail)
  }

  lemma {:induction false} RemainingShrinks(before: seq<Task>, after: seq<Task>, k: nat)
    requires Later(before, after) && |before| == |after|
    requires k < |before| ==> Rank(before[k].slot) + TailRank(before[k].tail) < Rank(after[k].slot) + TailRank(after[k].tail)
    ensures Remaining(after) <= Remaining(before)
    ensures k < |before| ==> Remaining(after) < Remaining(before)
    decreases |before|
  {
    if before != [] {
      var n := |before| - 1;
      assert Onwards(before[n], after[n]);
      forall j | 0 <= j < n
        ensures Onwards(before[..n][j], after[..n][j])
      {
        assert Onwards(before[j], after[j]);
      }
      hide Onwards, Rank, TailRank;
      RemainingShrinks(before[..n], after[..n], if k < n then k else n);
    }
  }

  /** Between two new requests only so many steps are left, so a server that answers lets every run come to rest. */
  lemma {:induction false} WorkRunsOut(s: State, steps: seq<Step>)
    requires Inv(s) && Runs(s, steps) && forall i :: 0 <= i < |steps| ==> !steps[i].Ask?
    ensures |steps| <= Remaining(s.tasks)
    decreases |steps|
  {
    hide Inv, Later, Remaining;
    if steps != [] {
      var step := steps[0];
      StepKeeps(s, step);
      var s' := Apply(s, step);
      WorkRunsOut(s', steps[1..]);
      if step.Free? {
        FreeKeeps(s, step.task);
      }
      var k := step.task;
      hide Drain;
      assert Rank(s.tasks[k].slot) + TailRank(s.tasks[k].tail) < Rank(s'.tasks[k].slot) + TailRank(s'.tasks[k].tail) by {
        MovedOn(s, step);
      }
      RemainingShrinks(s.tasks, s'.tasks, k);
    }
  }

  lemma MovedOn(s: State, step: Step)
    requires Inv(s) && Enabled(s, step) && !step.Ask?
    ensures var (before, after) := (s.tasks, Apply(s, step).tasks);
            |before| == |after|
            && Rank(before[step.task].slot) + TailRank(before[step.task].tail)
               < Rank(after[step.task].slot) + TailRank(after[step.task].tail)
  {
    hide Later, Fifo, OnePerTarget, CacheTrue, CacheWindow, CallsOk, InFlight, Drain;
    assert TaskOk(s.tasks[step.task]);
    if step.Free? {
      FreeKeeps(s, step.task);
      StepKeeps(s, step);
      assert Onwards(s.tasks[step.task], Apply(s, step).tasks[step.task]) by {
        OnwardsAt(s.tasks, Apply(s, step).tasks, step.task);
      }
    }
  }

  lemma OnwardsAt(before: seq<Task>, after: seq<Task>, k: nat)
    requires Later(before, after) && k < |before|
    ensures Onwards(before[k], after[k])
  {
  }

  // ----- the runtime ------------------------------------------------------------------------

  /** The page's side of it. `tasks` stands for the promises and closures, `calls` for what was handed to callers. */
  class Runtime {
    var queue: seq<nat>
    var active: nat
    var keys: seq<string>
    var resolved: map<string, string>
    var resolving: map<string, nat>
    var tasks: seq<Task>
    var calls: seq<Call>
    ghost var log: seq<string>

    ghost function Snapshot(): State
      reads this
    {
      State(queue, active, keys, resolved, resolving, tasks, calls, log)
    }

    constructor ()
      ensures Snapshot() == Init()
    {
      queue, active, keys, resolved, resolving, tasks, calls, log := [], 0, [], map[], map[], [], [], [];
    }

    method DrainResolutions()
      requires forall j :: 0 <= j < |queue| ==> queue[j] < |tasks|
      modifies this
      ensures Snapshot() == Drain(old(Snapshot()))
    {
      while active < LIMIT && |queue| > 0
        invariant forall j :: 0 <= j < |queue| ==> queue[j] < |tasks|
        invariant Drain(Snapshot()) == Drain(old(Snapshot()))
        decreases |queue|
      {
        var k := queue[0];
        queue := queue[1..];
        active := active + 1;
        tasks := tasks[k := tasks[k].(slot := Running)];
      }
    }

    method ResolveURL(target: string) returns (call: Call)
      requires Inv(Snapshot())
      modifies this
      ensures Snapshot() == Apply(old(Snapshot()), Ask(target)) && calls == old(calls) + [call]
      ensures Inv(Snapshot())
    {
      StepKeeps(Snapshot(), Ask(target));
      hide Counted, TasksOk, OnePerTarget, CacheTrue, CacheWindow, CallsOk, Drain;
      if target in resolved {
        call := Hit(target, resolved[target]);
      } else if target in resolving {
        call := Waits(target, resolving[target]);
      } else {
        call := Waits(target, |tasks|);
        var k := |tasks|;
        tasks := tasks + [Task(target, Waiting, None, Blank)];
        queue := queue + [k];
        ghost var pushed := Snapshot();
        DrainResolutions();
        DrainIgnoresRest(pushed, pushed.resolving, pushed.calls);
        resolving := resolving[target := k];
      }
      calls := calls + [call];
    }

    method OnSettled(k: nat, outcome: Outcome)
      requires Inv(Snapshot()) && Enabled(Snapshot(), Settle(k, outcome))
      modifies this
      ensures Snapshot() == Apply(old(Snapshot()), Settle(k, outcome)) && Inv(Snapshot())
    {
      hide Inv, Drain, AskFor;
      SettleKeeps(Snapshot(), k, outcome);
      tasks := tasks[k := tasks[k].(outcome := Some(outcome), tail := if outcome.Success? then ToStore else ToForget)];
    }

    method OnReply(k: nat)
      requires Inv(Snapshot()) && Enabled(Snapshot(), Store(k))
      modifies this
      ensures Snapshot() == Apply(old(Snapshot()), Store(k)) && Inv(Snapshot())
    {
      hide Inv, StoreReply, Drain, AskFor;
      ghost var s := Snapshot();
      StoreKeeps(s, k);
      var (target, url) := (tasks[k].target, tasks[k].outcome.value.value);
      StoreLeavesRest(s, target, url);
      Remember(target, url);
      tasks := tasks[k := tasks[k].(tail := ToForget)];
    }

    method Remember(target: string, url: string)
      modifies this
      ensures Snapshot() == StoreReply(old(Snapshot()), target, url)
    {
      if |keys| >= CAPACITY {
        resolved := resolved - {keys[0]};
        keys := keys[1..];
      }
      if target !in resolved {
        keys := keys + [target];
      }
      resolved := resolved[target := url];
      log := log + [target];
    }

    method OnFinally(k: nat)
      requires Inv(Snapshot()) && Enabled(Snapshot(), Forget(k))
      modifies this
      ensures Snapshot() == Apply(old(Snapshot()), Forget(k)) && Inv(Snapshot())
    {
      hide Inv, Drain, AskFor;
      ForgetKeeps(Snapshot(), k);
      resolving := resolving - {tasks[k].target};
      tasks := tasks[k := tasks[k].(tail := Done)];
    }

    method OnSlotFree(k: nat)
      requires Inv(Snapshot()) && Enabled(Snapshot(), Free(k))
      modifies this
      ensures Snapshot() == Apply(old(Snapshot()), Free(k)) && Inv(Snapshot())
    {
      FreeKeeps(Snapshot(), k);
      hide Counted, TasksOk, OnePerTarget, CacheTrue, CacheWindow, CallsOk, Drain;
      tasks := tasks[k := tasks[k].(slot := Freed)];
      active := active - 1;
      DrainResolutions();
    }
  }
}
