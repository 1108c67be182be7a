/** The runner tasks of a work queue thread: callers of Run and the serial worker share, under a mutex,
    a map of active tasks and a list of completed ones that each handler reclaims. The protocol is a
    state machine over the steps of all threads. */
module RunnerTasks {
  import opened Wrappers

  /** Tasks are numbered as they are allocated; an address may be used again once its task is freed. */
  type Task = nat
  type Address = nat
  type Caller = nat

  datatype Holder = Nobody | HeldBy(caller: Caller) | HeldByWorker

  /** Where a caller of Run is: outside the lock, or inside with the task not made yet, made, or
      scheduled. */
  datatype CallerAt = Outside | Locked | Made(task: Task) | Scheduled

  /** Where the worker is with its task: in the user's handler, waiting for the mutex, holding it
      before and after reclaiming, or about to return from the handler. */
  datatype WorkerAt = Idle | Executing(task: Task) | Waiting(task: Task) | Locked(task: Task) |
                      Reclaimed(task: Task) | Returning(task: Task)

  datatype State = State(
    made: nat, at: map<Task, Address>,
    active: map<Address, Task>, completed: seq<Task>, freed: set<Task>,
    queue: seq<Task>, ran: map<Task, nat>, returned: set<Task>,
    holder: Holder, callers: map<Caller, CallerAt>, worker: WorkerAt, fault: bool)
  {
    predicate Alive(t: Task) { t < made && t !in freed }

    predicate InUse(a: Address) { exists t :: t in at && Alive(t) && at[t] == a }

    /** Queued, or being handled until the handler has returned. */
    predicate Pending(t: Task) { t in queue || (worker != Idle && worker.task == t) }
  }

  datatype Action = Lock(caller: Caller) | Make(caller: Caller, address: Address) | Insert(caller: Caller) |
                    Unlock(caller: Caller) | Pop | Execute | WorkerLock | Reclaim | WorkerUnlock | Return

  function Initial(): State {
    State(0, map[], map[], [], {}, [], map[], {}, Nobody, map[], Idle, false)
  }

  function Where(s: State, c: Caller): CallerAt { if c in s.callers then s.callers[c] else Outside }

  function Keep(s: State, tasks: seq<Task>): seq<Task> {
    if tasks == [] then []
    else (if s.Pending(tasks[0]) then [tasks[0]] else []) + Keep(s, tasks[1..])
  }

  function Drop(s: State, tasks: seq<Task>): set<Task> {
    set t | t in tasks && !s.Pending(t)
  }

  /** One step of one thread; None where that thread cannot take it. */
  function Step(s: State, a: Action): Option<State> {
    match a
    case Lock(c) =>
      if s.holder == Nobody && Where(s, c) == Outside
      then Some(s.(holder := HeldBy(c), callers := s.callers[c := CallerAt.Locked])) else None
    case Make(c, address) =>
      // the allocator hands out an address that no living task has
      if Where(s, c) == CallerAt.Locked && !s.InUse(address)
      then Some(s.(made := s.made + 1, at := s.at[s.made := address], callers := s.callers[c := Made(s.made)]))
      else None
    case Insert(c) => if Where(s, c).Made? then Some(Inserted(s, c, Where(s, c).task)) else None
    case Unlock(c) =>
      if Where(s, c) == Scheduled then Some(s.(holder := Nobody, callers := s.callers[c := Outside])) else None
    case Pop =>
      if s.worker == Idle && s.queue != []
      then Some(s.(worker := Executing(s.queue[0]), queue := s.queue[1..])) else None
    case Execute =>
      if s.worker.Executing?
      then Some(s.(ran := s.ran[s.worker.task := Runs(s, s.worker.task) + 1], worker := Waiting(s.worker.task)))
      else None
    case WorkerLock =>
      if s.worker.Waiting? && s.holder == Nobody
      then Some(s.(holder := HeldByWorker, worker := WorkerAt.Locked(s.worker.task))) else None
    case Reclaim => if s.worker.Locked? then Some(Reclaiming(s, s.worker.task)) else None
    case WorkerUnlock =>
      if s.worker.Reclaimed? then Some(s.(holder := Nobody, worker := Returning(s.worker.task))) else None
    case Return =>
      if s.worker.Returning?
      then Some(s.(worker := Idle, returned := s.returned + {s.worker.task})) else None
  }

  function Runs(s: State, t: Task): nat { if t in s.ran then s.ran[t] else 0 }

  /** Schedules the task if the map took it; otherwise the task dies with the refused entry. */
  function Inserted(s: State, c: Caller, t: Task): State {
    var next := s.(callers := s.callers[c := Scheduled]);
    if t !in s.at then next.(fault := true)
    else if s.at[t] in s.active then next.(freed := s.freed + {t})
    else next.(active := s.active[s.at[t] := t], queue := s.queue + [t])
  }

  /** Frees the completed tasks that are no longer pending, then moves the handled task from the active
      map to the completed list. Taking an entry that is not there is a fault. */
  function Reclaiming(s: State, t: Task): State {
    var next := s.(freed := s.freed + Drop(s, s.completed), worker := Reclaimed(t));
    if t in s.at && s.at[t] in s.active && s.active[s.at[t]] == t then
      next.(completed := Keep(s, s.completed) + [t], active := s.active - {s.at[t]})
    else next.(completed := Keep(s, s.completed), fault := true)
  }

  /** The state after a run of steps from the beginning, if every thread could take its steps. */
  function Run(actions: seq<Action>): Option<State> {
    if actions == [] then Some(Initial())
    else
      var before := Run(actions[..|actions| - 1]);
      if before.None? then None else Step(before.value, actions[|actions| - 1])
  }

  // ----- what every step keeps -----

  /** The one caller inside the lock has made the task and not handed it over yet. */
  predicate Held(s: State, t: Task) {
    s.holder.HeldBy? && Where(s, s.holder.caller) == Made(t)
  }

  predicate Active(s: State, t: Task) {
    t in s.at && s.at[t] in s.active && s.active[s.at[t]] == t
  }

  predicate Current(s: State, t: Task) {
    s.worker != Idle && s.worker.task == t
  }

  /** The four owners a task can have, with what each of them knows about it. */
  predicate OwnedByCaller(s: State, t: Task) {
    Held(s, t) && !Active(s, t) && t !in s.completed && t !in s.freed && !s.Pending(t) && Runs(s, t) == 0
  }

  predicate OwnedByMap(s: State, t: Task) {
    Active(s, t) && !Held(s, t) && t !in s.completed && t !in s.freed &&
    if t in s.queue then !Current(s, t) && Runs(s, t) == 0
    else Current(s, t) && (if s.worker.Executing? then Runs(s, t) == 0
                           else (s.worker.Waiting? || s.worker.Locked?) && Runs(s, t) == 1)
  }

  predicate OwnedByList(s: State, t: Task) {
    t in s.completed && !Held(s, t) && !Active(s, t) && t !in s.freed && t !in s.queue && Runs(s, t) == 1 &&
    if Current(s, t) then s.worker.Reclaimed? || s.worker.Returning? else t in s.returned
  }

  predicate Released(s: State, t: Task) {
    t in s.freed && !Held(s, t) && !Active(s, t) && t !in s.completed && !s.Pending(t) && Runs(s, t) == 1 &&
    t in s.returned
  }

  predicate Owned(s: State, t: Task) {
    OwnedByCaller(s, t) || OwnedByMap(s, t) || OwnedByList(s, t) || Released(s, t)
  }

  /** The mutex has at most one holder, and only its holder is inside. */
  predicate Exclusive(s: State) {
    (forall c :: c in s.callers && s.callers[c] != Outside ==> s.holder == HeldBy(c)) &&
    (s.holder.HeldBy? ==> Where(s, s.holder.caller) != Outside) &&
    (s.holder == HeldByWorker <==> s.worker.Locked? || s.worker.Reclaimed?)
  }

  ghost predicate Bounded(s: State) {
    (forall t: Task :: t in s.at <==> t < s.made) &&
    (forall t :: t in s.ran ==> t < s.made) &&
    (forall a :: a in s.active ==> s.active[a] < s.made && s.at[s.active[a]] == a) &&
    (forall t :: t in s.completed || t in s.freed || t in s.queue ==> t < s.made) &&
    (s.worker != Idle ==> s.worker.task < s.made) &&
    (forall c :: c in s.callers && s.callers[c].Made? ==> s.callers[c].task < s.made)
  }

  ghost predicate Inv(s: State) {
    !s.fault && Exclusive(s) && Bounded(s) && |s.completed| <= 1 &&
    (forall t :: 0 <= t < s.made ==> Owned(s, t)) &&
    (forall t, u :: s.Alive(t) && s.Alive(u) && t in s.at && u in s.at && t != u ==> s.at[t] != s.at[u]) &&
    (forall i, j :: 0 <= i < j < |s.queue| ==> s.queue[i] != s.queue[j])
  }

  lemma LockKeeps(s: State, c: Caller)
    requires Inv(s) && Step(s, Lock(c)).Some?
    ensures Inv(Step(s, Lock(c)).value)
  {
    var r := Step(s, Lock(c)).value;
    forall t | 0 <= t < r.made
      ensures Owned(r, t)
    {
      assert Owned(s, t);
    }
  }

  lemma MakeOwned(s: State, c: Caller, a: Address, t: Task)
    requires Inv(s) && Step(s, Make(c, a)).Some? && t < Step(s, Make(c, a)).value.made
    ensures Owned(Step(s, Make(c, a)).value, t)
  {
    assert s.holder == HeldBy(c);
    if t < s.made {
      assert Owned(s, t);
    } else {
      assert OwnedByCaller(Step(s, Make(c, a)).value, t);
    }
  }

  lemma MakeKeeps(s: State, c: Caller, a: Address)
    requires Inv(s) && Step(s, Make(c, a)).Some?
    ensures Inv(Step(s, Make(c, a)).value)
  {
    hide Owned;
    var r := Step(s, Make(c, a)).value;
    assert s.holder == HeldBy(c);
    forall t: Task | t < r.made
      ensures Owned(r, t)
    {
      MakeOwned(s, c, a, t);
    }
  }

  /** Living tasks have different addresses, so the map never refuses one. */
  lemma HeldIsNotInMap(s: State, u: Task)
    requires Inv(s) && Held(s, u) && u < s.made
    ensures s.at[u] !in s.active
  {
    assert Owned(s, u);
    forall a | a in s.active
      ensures s.Alive(s.active[a]) && s.active[a] != u && s.at[s.active[a]] == a
    {
      assert Owned(s, s.active[a]);
    }
  }

  lemma HeldIsNotQueued(s: State, u: Task)
    requires Inv(s) && Held(s, u) && u < s.made
    ensures u !in s.queue && s.Alive(u)
  {
    assert Owned(s, u);
  }

  lemma InsertOwned(s: State, c: Caller, t: Task)
    requires Inv(s) && Step(s, Insert(c)).Some? && t < Step(s, Insert(c)).value.made
    ensures Owned(Step(s, Insert(c)).value, t)
  {
    assert s.holder == HeldBy(c);
    HeldIsNotInMap(s, Where(s, c).task);
    assert Owned(s, Where(s, c).task);
    assert Owned(s, t);
  }

  lemma InsertKeeps(s: State, c: Caller)
    requires Inv(s) && Step(s, Insert(c)).Some?
    ensures Inv(Step(s, Insert(c)).value)
  {
    hide Owned;
    var r := Step(s, Insert(c)).value;
    assert s.holder == HeldBy(c);
    HeldIsNotInMap(s, Where(s, c).task);
    HeldIsNotQueued(s, Where(s, c).task);
    forall t: Task | t < r.made
      ensures Owned(r, t)
    {
      InsertOwned(s, c, t);
    }
  }

  lemma UnlockKeeps(s: State, c: Caller)
    requires Inv(s) && Step(s, Unlock(c)).Some?
    ensures Inv(Step(s, Unlock(c)).value)
  {
    var r := Step(s, Unlock(c)).value;
    assert s.holder == HeldBy(c);
    forall t | 0 <= t < r.made
      ensures Owned(r, t)
    {
      assert Owned(s, t);
    }
  }

  lemma PopOwned(s: State, t: Task)
    requires Inv(s) && Step(s, Pop).Some? && t < Step(s, Pop).value.made
    ensures Owned(Step(s, Pop).value, t)
  {
    assert s.queue[0] in s.queue;
    assert Owned(s, t);
    assert t in s.queue[1..] <==> t in s.queue && t != s.queue[0];
  }

  lemma PopKeeps(s: State)
    requires Inv(s) && Step(s, Pop).Some?
    ensures Inv(Step(s, Pop).value)
  {
    hide Owned;
    var r := Step(s, Pop).value;
    assert s.queue[0] in s.queue;
    assert forall t :: t in r.queue ==> t in s.queue;
    forall t: Task | t < r.made
      ensures Owned(r, t)
    {
      PopOwned(s, t);
    }
  }

  lemma ExecuteKeeps(s: State)
    requires Inv(s) && Step(s, Execute).Some?
    ensures Inv(Step(s, Execute).value)
  {
    var r := Step(s, Execute).value;
    forall t | 0 <= t < r.made
      ensures Owned(r, t)
    {
      assert Owned(s, t);
    }
  }

  lemma WorkerLockKeeps(s: State)
    requires Inv(s) && Step(s, WorkerLock).Some?
    ensures Inv(Step(s, WorkerLock).value)
  {
    var r := Step(s, WorkerLock).value;
    forall t | 0 <= t < r.made
      ensures Owned(r, t)
    {
      assert Owned(s, t);
    }
  }

  /** At the worker's turn no completed task is pending, so all of them are freed. */
  lemma CompletedAreDone(s: State)
    requires Inv(s) && s.worker.Locked?
    ensures Keep(s, s.completed) == [] && forall t :: t in s.completed ==> !s.Pending(t)
  {
    forall t | t in s.completed
      ensures !s.Pending(t)
    {
      assert Owned(s, t);
    }
  }

  lemma WorkerFindsTask(s: State)
    requires Inv(s) && s.worker.Locked?
    ensures Active(s, s.worker.task)
  {
    assert Owned(s, s.worker.task);
  }

  lemma ReclaimOwned(s: State, t: Task)
    requires Inv(s) && Step(s, Reclaim).Some? && t < Step(s, Reclaim).value.made
    ensures Owned(Step(s, Reclaim).value, t)
  {
    CompletedAreDone(s);
    assert Owned(s, s.worker.task);
    assert Owned(s, t);
  }

  lemma ReclaimKeeps(s: State)
    requires Inv(s) && Step(s, Reclaim).Some?
    ensures Inv(Step(s, Reclaim).value)
  {
    hide Owned;
    var r := Step(s, Reclaim).value;
    CompletedAreDone(s);
    WorkerFindsTask(s);
    forall t: Task | t < r.made
      ensures Owned(r, t)
    {
      ReclaimOwned(s, t);
    }
  }

  lemma WorkerUnlockKeeps(s: State)
    requires Inv(s) && Step(s, WorkerUnlock).Some?
    ensures Inv(Step(s, WorkerUnlock).value)
  {
    var r := Step(s, WorkerUnlock).value;
    forall t | 0 <= t < r.made
      ensures Owned(r, t)
    {
      assert Owned(s, t);
    }
  }

  lemma ReturnKeeps(s: State)
    requires Inv(s) && Step(s, Return).Some?
    ensures Inv(Step(s, Return).value)
  {
    var r := Step(s, Return).value;
    forall t | 0 <= t < r.made
      ensures Owned(r, t)
    {
      assert Owned(s, t);
    }
  }

  lemma StepKeeps(s: State, a: Action)
    requires Inv(s) && Step(s, a).Some?
    ensures Inv(Step(s, a).value)
  {
    hide Inv, Step;
    match a
    case Lock(c) => LockKeeps(s, c);
    case Make(c, address) => MakeKeeps(s, c, address);
    case Insert(c) => InsertKeeps(s, c);
    case Unlock(c) => UnlockKeeps(s, c);
    case Pop => PopKeeps(s);
    case Execute => ExecuteKeeps(s);
    case WorkerLock => WorkerLockKeeps(s);
    case Reclaim => ReclaimKeeps(s);
    case WorkerUnlock => WorkerUnlockKeeps(s);
    case Return => ReturnKeeps(s);
  }

  lemma {:induction false} RunKeeps(actions: seq<Action>)
    requires Run(actions).Some?
    ensures Inv(Run(actions).value)
    decreases |actions|
  {
    if actions == [] {
      assert Bounded(Initial());
    } else {
      var n := |actions| - 1;
      RunKeeps(actions[..n]);
      StepKeeps(Run(actions[..n]).value, actions[n]);
    }
  }

  // ----- what follows for every run -----

  function Owners(s: State, t: Task): nat {
    (if Held(s, t) then 1 else 0) + (if Active(s, t) then 1 else 0) +
    (if t in s.completed then 1 else 0) + (if t in s.freed then 1 else 0)
  }

  /** Under every interleaving each task runs at most once and has exactly one owner; a freed task has
      run and its handler has returned, so the worker's own task is never freed; at most one task waits
      to be reclaimed; and every handler finds its task in the map. */
  lemma Reclamation(actions: seq<Action>)
    requires Run(actions).Some?
    ensures var s := Run(actions).value;
            !s.fault && |s.completed| <= 1 &&
            (forall t: Task :: t < s.made ==> Runs(s, t) <= 1 && Owners(s, t) == 1) &&
            (forall t :: t in s.freed ==> Runs(s, t) == 1 && t in s.returned && !s.Pending(t)) &&
            (s.worker != Idle ==> s.worker.task !in s.freed)
  {
    RunKeeps(actions);
    var s := Run(actions).value;
    forall t: Task | t < s.made
      ensures Runs(s, t) <= 1 && Owners(s, t) == 1
      ensures t in s.freed ==> Runs(s, t) == 1 && t in s.returned && !s.Pending(t)
    {
      assert Owned(s, t);
    }
  }

  predicate Quiet(s: State) {
    s.worker == Idle && s.queue == [] && s.holder == Nobody
  }

  /** When all threads have come to rest, every task handed in has run exactly once, and all are freed
      but perhaps the last. */
  lemma RestMeansDone(actions: seq<Action>)
    requires Run(actions).Some? && Quiet(Run(actions).value)
    ensures var s := Run(actions).value;
            s.active == map[] && |s.completed| <= 1 &&
            forall t: Task :: t < s.made ==> Runs(s, t) == 1 && (t in s.freed || s.completed == [t])
  {
    RunKeeps(actions);
    var s := Run(actions).value;
    forall t: Task | t < s.made
      ensures Runs(s, t) == 1 && (t in s.freed || s.completed == [t]) && !Active(s, t)
    {
      assert Owned(s, t);
    }
    assert forall a :: a in s.active ==> Active(s, s.active[a]);
    assert s.active.Keys == {};
  }

  /** The step the worker takes next. */
  function WorkerStep(s: State): Action {
    match s.worker
    case Idle => Pop
    case Executing(_) => Execute
    case Waiting(_) => WorkerLock
    case Locked(_) => Reclaim
    case Reclaimed(_) => WorkerUnlock
    case Returning(_) => Return
  }

  function WorkLeft(s: State): nat {
    6 * |s.queue| + match s.worker
                    case Idle => 0
                    case Executing(_) => 5
                    case Waiting(_) => 4
                    case Locked(_) => 3
                    case Reclaimed(_) => 2
                    case Returning(_) => 1
  }

  lemma WorkerProgress(s: State)
    requires Inv(s) && !s.holder.HeldBy? && !Quiet(s)
    ensures Step(s, WorkerStep(s)).Some?
    ensures WorkLeft(Step(s, WorkerStep(s)).value) < WorkLeft(s) && !Step(s, WorkerStep(s)).value.holder.HeldBy?
    ensures Step(s, WorkerStep(s)).value.made == s.made && Step(s, WorkerStep(s)).value.callers == s.callers
  {
  }

  /** The worker waits for nothing but tasks and the mutex: while a caller is inside, all its steps but
      the locking of the mutex can be taken. */
  lemma WorkerGoesOn(actions: seq<Action>)
    requires Run(actions).Some?
    requires var s := Run(actions).value;
             (s.worker == Idle ==> s.queue != []) && (s.worker.Waiting? ==> s.holder == Nobody)
    ensures Run(actions + [WorkerStep(Run(actions).value)]).Some?
  {
    Extends(actions, WorkerStep(Run(actions).value));
  }

  /** Once no caller is inside, the worker alone can bring any run to rest. */
  lemma {:induction false} WorkerDrains(actions: seq<Action>) returns (more: seq<Action>)
    requires Run(actions).Some? && !Run(actions).value.holder.HeldBy?
    ensures Run(actions + more).Some? && Quiet(Run(actions + more).value)
    ensures var s, r := Run(actions).value, Run(actions + more).value; r.made == s.made && r.callers == s.callers
    decreases WorkLeft(Run(actions).value)
  {
    hide Inv, Step, Quiet, WorkLeft;
    var s := Run(actions).value;
    if Quiet(s) {
      more := [];
      assert actions + [] == actions;
    } else {
      var a := WorkerStep(s);
      RunKeeps(actions);
      WorkerProgress(s);
      assert (actions + [a])[..|actions|] == actions;
      var rest := WorkerDrains(actions + [a]);
      more := [a] + rest;
      assert actions + more == actions + [a] + rest;
    }
  }

  // ----- what callers can do -----

  lemma Extends(actions: seq<Action>, a: Action)
    requires Run(actions).Some?
    ensures Run(actions + [a]) == Step(Run(actions).value, a)
  {
    assert (actions + [a])[..|actions|] == actions;
  }

  /** A call of Run by c, whose task gets that address. */
  function Call(c: Caller, address: Address): seq<Action> {
    [Lock(c)] + [Make(c, address)] + [Insert(c)] + [Unlock(c)]
  }

  /** The steps of a call, from a state with a free mutex: each can be taken. */
  lemma LocksAndMakes(s: State, c: Caller, address: Address) returns (r: State)
    requires Inv(s) && s.holder == Nobody && Where(s, c) == Outside && !s.InUse(address)
    ensures Step(s, Lock(c)).Some? && Step(Step(s, Lock(c)).value, Make(c, address)) == Some(r)
    ensures Inv(r) && Held(r, s.made) && r.holder == HeldBy(c) && Where(r, c) == Made(s.made)
    ensures r.made == s.made + 1 && s.made in r.at && r.queue == s.queue && r.worker == s.worker && r.ran == s.ran
    ensures r.callers[c := Outside] == s.callers[c := Outside]
  {
    hide Inv, Owned;
    var a := Step(s, Lock(c)).value;
    StepKeeps(s, Lock(c));
    assert !a.InUse(address);
    r := Step(a, Make(c, address)).value;
    StepKeeps(a, Make(c, address));
  }

  lemma InsertsAndUnlocks(s: State, c: Caller, t: Task) returns (r: State)
    requires Inv(s) && s.holder == HeldBy(c) && Where(s, c) == Made(t) && t < s.made && t in s.at
    ensures Step(s, Insert(c)).Some? && Step(Step(s, Insert(c)).value, Unlock(c)) == Some(r)
    ensures r.holder == Nobody && r.callers == s.callers[c := Outside] && r.queue == s.queue + [t]
    ensures r.made == s.made && r.worker == s.worker && r.ran == s.ran
  {
    HeldIsNotInMap(s, t);
    hide Inv, Owned;
    r := Step(Step(s, Insert(c)).value, Unlock(c)).value;
  }

  lemma NewHasNotRun(s: State, t: Task)
    requires Inv(s) && Held(s, t) && t < s.made
    ensures Runs(s, t) == 0
  {
    assert Owned(s, t);
  }

  /** Whatever has happened, as soon as the mutex is free a caller that is outside can call Run: its four
      steps can be taken, with any address that no living task has, and leave it outside, the mutex
      free, and its task the last in the queue. */
  lemma CallerProgress(actions: seq<Action>, c: Caller, address: Address)
    requires Run(actions).Some?
    requires var s := Run(actions).value; s.holder == Nobody && Where(s, c) == Outside && !s.InUse(address)
    ensures Run(actions + Call(c, address)).Some?
    ensures var s, r := Run(actions).value, Run(actions + Call(c, address)).value;
            r.holder == Nobody && r.callers == s.callers[c := Outside] && r.queue == s.queue + [s.made] &&
            r.made == s.made + 1 && r.worker == s.worker && Runs(r, s.made) == 0
  {
    hide Step, Inv;
    var s := Run(actions).value;
    RunKeeps(actions);
    var b := LocksAndMakes(s, c, address);
    NewHasNotRun(b, s.made);
    var r := InsertsAndUnlocks(b, c, s.made);
    Extends(actions, Lock(c));
    Extends(actions + [Lock(c)], Make(c, address));
    Extends(actions + [Lock(c)] + [Make(c, address)], Insert(c));
    Extends(actions + [Lock(c)] + [Make(c, address)] + [Insert(c)], Unlock(c));
    assert actions + [Lock(c)] + [Make(c, address)] + [Insert(c)] + [Unlock(c)] == actions + Call(c, address);
  }

  /** The step that a caller inside the lock takes next. */
  function CallerStep(s: State, c: Caller, address: Address): Action {
    match Where(s, c)
    case Locked => Make(c, address)
    case Made(_) => Insert(c)
    case _ => Unlock(c)
  }

  /** A caller inside the lock can always go on, whatever the other threads do. */
  lemma CallerGoesOn(actions: seq<Action>, address: Address)
    requires Run(actions).Some? && Run(actions).value.holder.HeldBy? && !Run(actions).value.InUse(address)
    ensures var s := Run(actions).value; Run(actions + [CallerStep(s, s.holder.caller, address)]).Some?
  {
    var s := Run(actions).value;
    RunKeeps(actions);
    Extends(actions, CallerStep(s, s.holder.caller, address));
  }

  lemma {:induction false} Above(a: set<nat>) returns (n: nat)
    ensures forall x :: x in a ==> x < n
  {
    if a == {} {
      n := 0;
    } else {
      var x :| x in a;
      var m := Above(a - {x});
      n := if x < m then m else x + 1;
      forall y | y in a
        ensures y < n
      {
        if y != x { assert y in a - {x}; }
      }
    }
  }

  lemma SomeAddressIsFree(s: State) returns (address: Address)
    ensures !s.InUse(address)
  {
    address := Above(s.at.Values);
    forall t: Task | t in s.at
      ensures s.at[t] != address
    {
      assert s.at[t] in s.at.Values;
    }
  }

  /** Run can be called any number of times: there is a run to rest with so many tasks, each of which has
      run once. */
  lemma {:induction false} ServesAll(n: nat, c: Caller) returns (actions: seq<Action>)
    ensures Run(actions).Some? && Quiet(Run(actions).value) && Where(Run(actions).value, c) == Outside
    ensures Run(actions).value.made == n && forall t: Task :: t < n ==> Runs(Run(actions).value, t) == 1
  {
    if n == 0 {
      actions := [];
    } else {
      var before := ServesAll(n - 1, c);
      var address := SomeAddressIsFree(Run(before).value);
      CallerProgress(before, c, address);
      var more := WorkerDrains(before + Call(c, address));
      actions := before + Call(c, address) + more;
      RestMeansDone(actions);
    }
  }

  // ----- order -----

  predicate Started(s: State, t: Task) { Runs(s, t) > 0 || Current(s, t) }

  /** Tasks wait in the order in which they were made, behind all that have started. */
  ghost predicate InOrder(s: State) {
    (forall i, j :: 0 <= i < j < |s.queue| ==> s.queue[i] < s.queue[j]) &&
    (forall t: Task, i :: Started(s, t) && 0 <= i < |s.queue| ==> t < s.queue[i]) &&
    (forall t: Task :: Held(s, t) ==> t == s.made - 1) &&
    (forall t: Task :: Started(s, t) && s.worker != Idle ==> t <= s.worker.task)
  }

  /** A step that starts no task and hands none over. */
  lemma OrderStays(s: State, r: State)
    requires InOrder(s) && r.queue == s.queue && r.made == s.made
    requires forall t: Task :: Started(r, t) ==> Started(s, t)
    requires forall t: Task :: Held(r, t) ==> Held(s, t)
    requires r.worker != Idle ==> s.worker != Idle && r.worker.task == s.worker.task
    ensures InOrder(r)
  {
    hide Held, Started;
  }

  lemma InsertKeepsOrder(s: State, c: Caller)
    requires Inv(s) && InOrder(s) && Step(s, Insert(c)).Some?
    ensures InOrder(Step(s, Insert(c)).value)
  {
    var t, r := Where(s, c).task, Step(s, Insert(c)).value;
    assert s.holder == HeldBy(c) && Held(s, t);
    HeldIsNotInMap(s, t);
    HeldIsNotQueued(s, t);
    assert Owned(s, t);
    assert !Started(s, t);
    StartedIsMade(s);
    hide Inv, Owned;
    assert r.queue == s.queue + [t];
    forall u: Task
      ensures Started(r, u) ==> Started(s, u)
      ensures !Held(r, u)
    {
    }
    forall i, j | 0 <= i < j < |r.queue|
      ensures r.queue[i] < r.queue[j]
    {
      if j == |s.queue| { assert s.queue[i] in s.queue; }
    }
  }

  lemma StartedIsMade(s: State)
    requires Inv(s)
    ensures forall u: Task :: Started(s, u) ==> u < s.made
    ensures forall u: Task :: u in s.queue ==> u < s.made
  {
  }

  lemma PopKeepsOrder(s: State)
    requires Inv(s) && InOrder(s) && Step(s, Pop).Some?
    ensures InOrder(Step(s, Pop).value)
  {
    hide Inv;
    var r := Step(s, Pop).value;
    assert forall i :: 0 <= i < |r.queue| ==> r.queue[i] == s.queue[i + 1];
    forall t: Task
      ensures Started(r, t) ==> Started(s, t) || t == s.queue[0]
      ensures Held(r, t) ==> Held(s, t)
    {
    }
  }

  lemma MakeKeepsOrder(s: State, c: Caller, a: Address)
    requires Inv(s) && InOrder(s) && Step(s, Make(c, a)).Some?
    ensures InOrder(Step(s, Make(c, a)).value)
  {
    assert s.holder == HeldBy(c);
    hide Inv;
    var r := Step(s, Make(c, a)).value;
    forall t: Task
      ensures Started(r, t) ==> Started(s, t)
      ensures Held(r, t) ==> t == s.made
    {
    }
  }

  lemma StepKeepsOrder(s: State, a: Action)
    requires Inv(s) && InOrder(s) && Step(s, a).Some?
    ensures InOrder(Step(s, a).value)
  {
    hide Inv, InOrder, Step;
    match a
    case Insert(c) => InsertKeepsOrder(s, c);
    case Pop => PopKeepsOrder(s);
    case Make(c, address) => MakeKeepsOrder(s, c, address);
    case _ => OtherStepKeepsOrder(s, a);
  }

  lemma OtherStepKeepsOrder(s: State, a: Action)
    requires Inv(s) && InOrder(s) && Step(s, a).Some? && !a.Insert? && !a.Pop? && !a.Make?
    ensures InOrder(Step(s, a).value)
  {
    hide Inv, InOrder;
    var r := Step(s, a).value;
    forall t: Task
      ensures Started(r, t) ==> Started(s, t)
      ensures Held(r, t) ==> Held(s, t)
    {
    }
    OrderStays(s, r);
  }

  lemma {:induction false} RunKeepsOrder(actions: seq<Action>)
    requires Run(actions).Some?
    ensures InOrder(Run(actions).value)
    decreases |actions|
  {
    hide Inv, Step, InOrder;
    if actions == [] {
      assert InOrder(Initial()) by { NothingIsInOrder(); }
    } else {
      var n := |actions| - 1;
      RunKeeps(actions[..n]);
      RunKeepsOrder(actions[..n]);
      StepKeepsOrder(Run(actions[..n]).value, actions[n]);
    }
  }

  lemma NothingIsInOrder()
    ensures InOrder(Initial())
  {
  }

  /** Tasks run in the order in which they were made: none has run before an earlier one has. */
  lemma RunsInOrder(actions: seq<Action>, t: Task, u: Task)
    requires Run(actions).Some? && t < u < Run(actions).value.made && Runs(Run(actions).value, u) > 0
    ensures Runs(Run(actions).value, t) == 1
  {
    RunKeeps(actions);
    RunKeepsOrder(actions);
    EarlierHasRun(Run(actions).value, t, u);
  }

  lemma EarlierHasRun(s: State, t: Task, u: Task)
    requires Inv(s) && InOrder(s) && t < u < s.made && Runs(s, u) > 0
    ensures Runs(s, t) == 1
  {
    assert Started(s, u);
    assert Owned(s, t);
  }
}
