/** The asynchronous transfer coordinator, for one object key: callers and I/O tasks interleave
    freely, backend calls may fail, and newer operations supersede older ones.

    A backend call that fails may or may not have taken effect. */
module TransferCoordinator {
  import opened Wrappers

  type Payload = seq<int>

  datatype EntryState = Absent | Fetching | Resident | Writing | Evicting | Failed
  {
    predicate Transitional() {
      Fetching? || Writing? || Evicting?
    }
  }

  datatype Operation = Fetch | Put(payload: Payload) | Evict

  datatype Phase =
    | Waiting                                          // for the previous task
    | Calling                                          // the backend call is under way
    | Called(ok: bool, found: Option<Payload>)         // the call has returned; `found` is what a fetch read
    // Nothing returned: the task raised. `superseded` says whether a newer operation had taken over
    // by then, `held` what the store held.
    | Done(returned: Option<Option<Payload>>, superseded: bool, held: Option<Payload>)

  datatype Task = Task(op: Operation, generation: nat, previous: Option<nat>, phase: Phase)

  /** Where a `get` call is. `Raised` covers the caller's own cancellation too. */
  datatype GetterState =
    | Looking                                          // about to take the lock
    | WaitingFor(task: nat, joined: bool, retry: bool)
    | Returned(found: Option<Payload>, via: Option<nat>)   // via the task waited for, if any
    | Raised

  /** A `get` call; `seen` are the store's values while it has been running. */
  datatype Getter = Getter(at: GetterState, seen: set<Option<Payload>>)
  {
    predicate Running() {
      at.Looking? || at.WaitingFor?
    }

    predicate Joined() {
      at.WaitingFor? && at.joined
    }
  }

  /** The store's object under the key, the entry's fields, and all tasks and `get` calls so far. */
  datatype Machine = Machine(
    store: Option<Payload>,
    state: EntryState,
    generation: nat,
    payload: Option<Payload>,
    task: Option<nat>,
    ioTail: Option<nat>,
    waiters: nat,
    tasks: seq<Task>,
    getters: seq<Getter>)
  {
    // ---------- the invariant ----------

    /** Generations number the tasks, and each task waits for the one just before it. */
    ghost predicate Chained() {
      && generation == |tasks|
      && ioTail == (if |tasks| == 0 then None else Some(|tasks| - 1))
      && forall g {:trigger tasks[g]} | 0 <= g < |tasks| ::
           tasks[g].generation == g + 1 && tasks[g].previous == if g == 0 then None else Some(g - 1)
    }

    /** Tasks run one at a time, in generation order. */
    ghost predicate InOrder() {
      forall g, h {:trigger tasks[g], tasks[h]} | 0 <= g < h < |tasks| :: !tasks[h].phase.Waiting? ==>
        tasks[g].phase.Done?
    }

    /** What a call that has returned says about the store. */
    ghost predicate CallOk(t: Task) {
      t.phase.Called? && t.phase.ok ==>
        match t.op
        case Fetch => t.phase.found == store
        case Put(v) => store == Some(v)
        case Evict => store == None
    }

    /** What a task that has ended returned: nothing exactly if it was superseded, or was to fetch what
        the store did not hold, or to evict. */
    ghost predicate DoneOk(t: Task) {
      t.phase.Done? && t.phase.returned.Some? ==>
        (t.phase.returned.value.None? <==> t.phase.superseded || t.op.Evict? || (t.op.Fetch? && t.phase.held.None?))
    }

    predicate Matches(op: Operation) {
      match op
      case Fetch => state == Fetching
      case Put(_) => state == Writing
      case Evict => state == Evicting
    }

    /** A transitional entry has its task, and only the newest task; a settled one says what the
        store holds. */
    ghost predicate EntryOk() {
      && (state.Transitional() <==> task.Some?)
      && (task.Some? ==>
           0 < |tasks| && task.value == |tasks| - 1 && !tasks[|tasks|-1].phase.Done? && Matches(tasks[|tasks|-1].op))
      && (task.None? ==> |tasks| > 0 ==> tasks[|tasks|-1].phase.Done?)
      && (payload.Some? <==> state == Resident)
      && (state == Resident ==> store == payload)
      && (state == Absent && |tasks| > 0 ==> store == None)
    }

    ghost predicate GetterOk(c: Getter) {
      && (c.Running() ==> store in c.seen)
      && (c.at.WaitingFor? ==>
           c.at.task < |tasks| && (c.at.retry <==> tasks[c.at.task].op.Evict?) && WaitOk(c, tasks[c.at.task]))
      && (c.at.Returned? ==> ReturnedOk(c))
    }

    /** What a call will return, or the nothing it will return, was in the store while it waited. */
    ghost predicate WaitOk(c: Getter, t: Task) {
      t.phase.Done? ==>
        t.phase.held in c.seen
        && (t.phase.returned.Some? && t.phase.returned.value.Some? ==> t.phase.returned.value in c.seen)
    }

    /** A call returns a resident payload, or what the task it waited for returned. */
    ghost predicate ReturnedOk(c: Getter)
      requires c.at.Returned?
    {
      && (c.at.found.Some? ==> c.at.found in c.seen)
      && (c.at.via.None? ==> c.at.found.Some?)
      && (c.at.via.Some? ==>
            && c.at.via.value < |tasks|
            && var t := tasks[c.at.via.value];
               !t.op.Evict? && t.phase.Done? && t.phase.returned == Some(c.at.found) && t.phase.held in c.seen)
    }

    ghost predicate TasksOk() {
      && Chained() && InOrder() && EntryOk()
      && forall g {:trigger tasks[g]} | 0 <= g < |tasks| :: CallOk(tasks[g]) && DoneOk(tasks[g])
    }

    ghost predicate GettersOk() {
      forall k {:trigger getters[k]} | 0 <= k < |getters| :: GetterOk(getters[k])
    }

    /** The waiter count is the number of `get` calls that joined somebody else's task. */
    ghost predicate Inv() {
      TasksOk() && GettersOk() && waiters == Joined(getters)
    }
  }

  ghost function Joined(getters: seq<Getter>): nat {
    if getters == [] then 0 else
      Joined(getters[..|getters|-1]) + if getters[|getters|-1].Joined() then 1 else 0
  }

  // ---------- steps ----------

  /** Every `get` under way observes the store. */
  function Observed(getters: seq<Getter>, store: Option<Payload>): (os: seq<Getter>)
    ensures |os| == |getters|
    ensures forall k {:trigger os[k]} | 0 <= k < |getters| ::
      os[k] == if getters[k].Running() then getters[k].(seen := getters[k].seen + {store}) else getters[k]
  {
    seq(|getters|, k requires 0 <= k < |getters| =>
      if getters[k].Running() then getters[k].(seen := getters[k].seen + {store}) else getters[k])
  }

  /** A new operation takes over the entry, and its task waits for the one before it. */
  function Start(m: Machine, op: Operation): Machine {
    m.(generation := m.generation + 1,
       state := match op case Fetch => Fetching case Put(_) => Writing case Evict => Evicting,
       payload := None, task := Some(|m.tasks|), ioTail := Some(|m.tasks|),
       tasks := m.tasks + [Task(op, m.generation + 1, m.ioTail, Waiting)])
  }

  function Arrive(m: Machine): Machine {
    m.(getters := m.getters + [Getter(Looking, {m.store})])
  }

  predicate CanLook(m: Machine, k: nat) {
    k < |m.getters| && m.getters[k].at.Looking?
  }

  function At(m: Machine, k: nat, at: GetterState): Machine
    requires k < |m.getters|
  {
    m.(getters := m.getters[k := m.getters[k].(at := at)])
  }

  /** A `get` looks at the entry under the lock: a resident payload is returned at once, a running
      operation is joined, otherwise a fetch is started. */
  function Look(m: Machine, k: nat): Machine
    requires CanLook(m, k)
  {
    if m.state == Resident then
      At(m, k, Returned(m.payload, None))
    else if m.state.Transitional() then
      if m.task.None? then At(m, k, Raised)
      else At(m, k, WaitingFor(m.task.value, true, m.state == Evicting)).(waiters := m.waiters + 1)
    else
      At(Start(m, Fetch), k, WaitingFor(|m.tasks|, false, false))
  }

  predicate CanBegin(m: Machine, g: nat) {
    && g < |m.tasks| && m.tasks[g].phase.Waiting?
    && (m.tasks[g].previous.Some? ==>
         m.tasks[g].previous.value < |m.tasks| && m.tasks[m.tasks[g].previous.value].phase.Done?)
  }

  function Begin(m: Machine, g: nat): Machine
    requires CanBegin(m, g)
  {
    m.(tasks := m.tasks[g := m.tasks[g].(phase := Calling)])
  }

  predicate CanReturn(m: Machine, g: nat) {
    g < |m.tasks| && m.tasks[g].phase.Calling?
  }

  /** The store after the backend call of an operation takes effect. */
  function Effect(store: Option<Payload>, op: Operation): Option<Payload> {
    match op
    case Fetch => store
    case Put(v) => Some(v)
    case Evict => None
  }

  /** The backend call returns, having taken effect if it succeeded, and perhaps if it failed. */
  function Return(m: Machine, g: nat, ok: bool, applied: bool): Machine
    requires CanReturn(m, g) && (ok ==> applied)
  {
    var store := if applied then Effect(m.store, m.tasks[g].op) else m.store;
    var found := if m.tasks[g].op.Fetch? then store else None;
    m.(store := store, tasks := m.tasks[g := m.tasks[g].(phase := Called(ok, found))],
      getters := Observed(m.getters, store))
  }

  predicate CanFinish(m: Machine, g: nat) {
    g < |m.tasks| && m.tasks[g].phase.Called?
  }

  /** What a task returns to those who wait for it: its payload, if nothing superseded it. */
  function Result(m: Machine, g: nat): Option<Option<Payload>>
    requires CanFinish(m, g)
  {
    var t := m.tasks[g];
    if !t.phase.ok then None
    else if t.op.Evict? || m.generation != t.generation then Some(None)
    else if t.op.Fetch? then Some(t.phase.found)
    else Some(Some(t.op.payload))
  }

  /** The task ends under the lock; only the newest generation touches the entry. */
  function Finish(m: Machine, g: nat): Machine
    requires CanFinish(m, g)
  {
    var t := m.tasks[g];
    var n := m.(tasks := m.tasks[g := t.(phase := Done(Result(m, g), m.generation != t.generation, m.store))]);
    if m.generation != t.generation then n
    else if !t.phase.ok then n.(state := Failed, payload := None, task := None)
    else match t.op
      case Fetch => n.(state := if t.phase.found.Some? then Resident else Absent, payload := t.phase.found,
        task := None)
      case Put(v) => n.(state := Resident, payload := Some(v), task := None)
      case Evict => n.(state := Absent, payload := None, task := None)
  }

  predicate CanLeave(m: Machine, k: nat, cancelled: bool) {
    && k < |m.getters| && m.getters[k].at.WaitingFor? && m.getters[k].at.task < |m.tasks|
    && (cancelled || m.tasks[m.getters[k].at.task].phase.Done?)
  }

  /** A `get` leaves the task it waited for, because the task has ended or because its caller went
      away. It returns what the task returned, or raises what the task raised, except that it looks
      again if it had joined an eviction. */
  function Leave(m: Machine, k: nat, cancelled: bool): Machine
    requires CanLeave(m, k, cancelled)
  {
    var at := m.getters[k].at;
    var n := if at.joined then m.(waiters := if m.waiters > 0 then m.waiters - 1 else 0) else m;
    if cancelled || m.tasks[at.task].phase.returned.None? then At(n, k, Raised)
    else if at.retry then At(n, k, Looking)
    else At(n, k, Returned(m.tasks[at.task].phase.returned.value, Some(at.task)))
  }

  // ---------- every step keeps the invariant ----------

  lemma {:induction false} JoinedUpdate(getters: seq<Getter>, k: nat, c: Getter)
    requires k < |getters|
    ensures Joined(getters[k := c]) + (if getters[k].Joined() then 1 else 0)
      == Joined(getters) + (if c.Joined() then 1 else 0)
  {
    var n := |getters| - 1;
    if k < n {
      JoinedUpdate(getters[..n], k, c);
      assert getters[k := c][..n] == getters[..n][k := c];
    } else {
      assert getters[k := c][..n] == getters[..n];
    }
  }

  lemma {:induction false} JoinedObserved(getters: seq<Getter>, store: Option<Payload>)
    ensures Joined(Observed(getters, store)) == Joined(getters)
  {
    if getters != [] {
      var n := |getters| - 1;
      JoinedObserved(getters[..n], store);
      assert Observed(getters, store)[..n] == Observed(getters[..n], store);
    }
  }

  lemma StartInv(m: Machine, op: Operation)
    requires m.Inv()
    ensures Start(m, op).Inv()
  {
    hide Joined;
    var n := Start(m, op);
    forall g | 0 <= g < |n.tasks|
      ensures n.CallOk(n.tasks[g]) && n.DoneOk(n.tasks[g])
    {
      if g < |m.tasks| {
        assert m.CallOk(m.tasks[g]) && m.DoneOk(m.tasks[g]);
      }
    }
    forall k | 0 <= k < |n.getters|
      ensures n.GetterOk(n.getters[k])
    {
      assert m.GetterOk(m.getters[k]);
    }
  }

  lemma ArriveInv(m: Machine)
    requires m.Inv()
    ensures Arrive(m).Inv()
  {
    assert Arrive(m).getters[..|m.getters|] == m.getters;
  }

  /** Moving one `get` call touches neither the tasks nor the other calls. */
  lemma AtInv(m: Machine, k: nat, at: GetterState, waiters: nat)
    requires m.TasksOk() && m.GettersOk() && k < |m.getters|
    requires m.GetterOk(m.getters[k].(at := at))
    requires waiters + (if m.getters[k].Joined() then 1 else 0)
      == Joined(m.getters) + (if at.WaitingFor? && at.joined then 1 else 0)
    ensures At(m, k, at).(waiters := waiters).Inv()
  {
    var n := At(m, k, at).(waiters := waiters);
    JoinedUpdate(m.getters, k, n.getters[k]);
    hide Joined;
    forall j | 0 <= j < |n.getters|
      ensures n.GetterOk(n.getters[j])
    {
      if j != k {
        assert m.GetterOk(m.getters[j]);
      }
    }
  }

  lemma LookInv(m: Machine, k: nat)
    requires m.Inv() && CanLook(m, k)
    ensures Look(m, k).Inv()
  {
    assert m.GetterOk(m.getters[k]);
    hide Joined;
    if m.state == Resident {
      AtInv(m, k, Returned(m.payload, None), m.waiters);
    } else if m.state.Transitional() {
      AtInv(m, k, WaitingFor(m.task.value, true, m.state == Evicting), m.waiters + 1);
    } else {
      StartInv(m, Fetch);
      AtInv(Start(m, Fetch), k, WaitingFor(|m.tasks|, false, false), m.waiters);
    }
  }

  lemma BeginInv(m: Machine, g: nat)
    requires m.Inv() && CanBegin(m, g)
    ensures Begin(m, g).Inv()
  {
    hide Joined;
    var n := Begin(m, g);
    forall a, b | 0 <= a < b < |n.tasks|
      ensures !n.tasks[b].phase.Waiting? ==> n.tasks[a].phase.Done?
    {
      if b == g && a < g - 1 {
        assert !m.tasks[g - 1].phase.Waiting?;
      }
    }
    forall k | 0 <= k < |n.getters|
      ensures n.GetterOk(n.getters[k])
    {
      assert m.GetterOk(m.getters[k]);
    }
  }

  /** While a call is under way or has just returned, it is the only one, so it alone can have
      changed the store. */
  lemma OnlyCall(m: Machine, g: nat, h: nat)
    requires m.InOrder() && g < |m.tasks| && h < |m.tasks| && g != h
    requires m.tasks[g].phase.Calling? || m.tasks[g].phase.Called?
    ensures m.tasks[h].phase.Done? || m.tasks[h].phase.Waiting?
  {
  }

  lemma ReturnInv(m: Machine, g: nat, ok: bool, applied: bool)
    requires m.Inv() && CanReturn(m, g) && (ok ==> applied)
    ensures Return(m, g, ok, applied).Inv()
  {
    var n := Return(m, g, ok, applied);
    JoinedObserved(m.getters, n.store);
    hide Joined;
    forall h | 0 <= h < |n.tasks|
      ensures n.CallOk(n.tasks[h]) && n.DoneOk(n.tasks[h])
    {
      assert m.DoneOk(m.tasks[h]);
      if h != g {
        OnlyCall(m, g, h);
      }
    }
    forall k | 0 <= k < |n.getters|
      ensures n.GetterOk(n.getters[k])
    {
      assert m.GetterOk(m.getters[k]);
    }
  }

  lemma FinishInv(m: Machine, g: nat)
    requires m.Inv() && CanFinish(m, g)
    ensures Finish(m, g).Inv()
  {
    hide Joined;
    var n := Finish(m, g);
    assert m.CallOk(m.tasks[g]);
    forall h | 0 <= h < |n.tasks|
      ensures n.CallOk(n.tasks[h]) && n.DoneOk(n.tasks[h])
    {
      assert m.CallOk(m.tasks[h]) && m.DoneOk(m.tasks[h]);
    }
    forall k | 0 <= k < |n.getters|
      ensures n.GetterOk(n.getters[k])
    {
      assert m.GetterOk(m.getters[k]);
    }
  }

  lemma {:induction false} JoinedPositive(getters: seq<Getter>, k: nat)
    requires k < |getters| && getters[k].Joined()
    ensures Joined(getters) > 0
  {
    JoinedUpdate(getters, k, getters[k].(at := Looking));
  }

  lemma LeaveInv(m: Machine, k: nat, cancelled: bool)
    requires m.Inv() && CanLeave(m, k, cancelled)
    ensures Leave(m, k, cancelled).Inv()
  {
    var c := m.getters[k];
    assert m.GetterOk(c);
    if c.Joined() {
      JoinedPositive(m.getters, k);
    }
    hide Joined;
    AtInv(m, k, Leave(m, k, cancelled).getters[k].at, if c.Joined() then m.waiters - 1 else m.waiters);
  }

  // ---------- every run ----------

  datatype Action =
    | CallGet | CallPut(payload: Payload) | CallEvict
    | BeginTask(g: nat) | ReturnTask(g: nat, ok: bool, applied: bool) | FinishTask(g: nat)
    | GetterLooks(k: nat) | GetterLeaves(k: nat, cancelled: bool)

  predicate Enabled(m: Machine, a: Action) {
    match a
    case CallGet | CallPut(_) | CallEvict => true
    case BeginTask(g) => CanBegin(m, g)
    case ReturnTask(g, ok, applied) => CanReturn(m, g) && (ok ==> applied)
    case FinishTask(g) => CanFinish(m, g)
    case GetterLooks(k) => CanLook(m, k)
    case GetterLeaves(k, cancelled) => CanLeave(m, k, cancelled)
  }

  function Step(m: Machine, a: Action): Machine
    requires Enabled(m, a)
  {
    match a
    case CallGet => Arrive(m)
    case CallPut(v) => Start(m, Put(v))
    case CallEvict => Start(m, Evict)
    case BeginTask(g) => Begin(m, g)
    case ReturnTask(g, ok, applied) => Return(m, g, ok, applied)
    case FinishTask(g) => Finish(m, g)
    case GetterLooks(k) => Look(m, k)
    case GetterLeaves(k, cancelled) => Leave(m, k, cancelled)
  }

  /** Nothing has happened to the key yet; the store may hold anything. */
  function Initial(store: Option<Payload>): Machine {
    Machine(store, Absent, 0, None, None, None, 0, [], [])
  }

  ghost predicate IsStep(m: Machine, n: Machine) {
    exists a :: Enabled(m, a) && n == Step(m, a)
  }

  /** `run` lists the states of an execution, one enabled step after the other. */
  ghost predicate IsRun(run: seq<Machine>) {
    && run != [] && run[0] == Initial(run[0].store)
    && forall n {:trigger run[n]} | 0 < n < |run| :: IsStep(run[n - 1], run[n])
  }

  lemma StepInv(m: Machine, a: Action)
    requires m.Inv() && Enabled(m, a)
    ensures Step(m, a).Inv()
  {
    match a
    case CallGet => ArriveInv(m);
    case CallPut(v) => StartInv(m, Put(v));
    case CallEvict => StartInv(m, Evict);
    case BeginTask(g) => BeginInv(m, g);
    case ReturnTask(g, ok, applied) => ReturnInv(m, g, ok, applied);
    case FinishTask(g) => FinishInv(m, g);
    case GetterLooks(k) => LookInv(m, k);
    case GetterLeaves(k, cancelled) => LeaveInv(m, k, cancelled);
  }

  /** Every interleaving of gets, puts and evictions, with whatever failures, keeps the
      invariant. */
  lemma {:induction false} EveryRun(run: seq<Machine>, n: nat)
    requires IsRun(run) && n < |run|
    ensures run[n].Inv()
  {
    if n > 0 {
      EveryRun(run, n - 1);
      assert IsStep(run[n - 1], run[n]);
      var a :| Enabled(run[n - 1], a) && run[n] == Step(run[n - 1], a);
      hide IsRun, Step, Enabled;
      StepInv(run[n - 1], a);
    }
  }

  // ---------- what that means ----------

  lemma TasksParts(m: Machine)
    requires m.TasksOk()
    ensures m.Chained() && m.InOrder() && m.EntryOk()
  {
  }

  /** A resident payload is what the store holds; an absent entry with a history means the store
      lacks the key; a transitional entry has its unfinished task. */
  lemma EntryTellsStore(run: seq<Machine>, n: nat)
    requires IsRun(run) && n < |run|
    ensures run[n].state == Resident ==> run[n].payload == run[n].store && run[n].store.Some?
    ensures run[n].state == Absent && run[n].generation > 0 ==> run[n].store == None
    ensures run[n].state.Transitional() ==>
      run[n].task.Some? && run[n].task.value < |run[n].tasks| && !run[n].tasks[run[n].task.value].phase.Done?
  {
    hide IsRun, Machine.TasksOk;
    EveryRun(run, n);
    TasksParts(run[n]);
  }

  /** At most one backend call is under way, and calls happen in generation order. */
  lemma OneCallAtATime(run: seq<Machine>, n: nat, g: nat, h: nat)
    requires IsRun(run) && n < |run| && g < |run[n].tasks| && h < |run[n].tasks|
    requires run[n].tasks[g].generation < run[n].tasks[h].generation
    ensures run[n].tasks[g].phase.Calling? ==> run[n].tasks[h].phase.Waiting?
    ensures !run[n].tasks[h].phase.Waiting? ==> run[n].tasks[g].phase.Done?
  {
    EveryRun(run, n);
  }

  /** No deadlock: as long as a task is unfinished, some task can take its next step. */
  lemma SomeTaskCanStep(m: Machine)
    requires m.Inv() && exists g :: 0 <= g < |m.tasks| && !m.tasks[g].phase.Done?
    ensures exists g: nat :: CanBegin(m, g) || CanReturn(m, g) || CanFinish(m, g)
  {
    var g := FirstUnfinished(m, 0);
    assert CanBegin(m, g) || CanReturn(m, g) || CanFinish(m, g);
  }

  lemma FirstUnfinished(m: Machine, from: nat) returns (g: nat)
    requires exists h :: from <= h < |m.tasks| && !m.tasks[h].phase.Done?
    requires forall h | 0 <= h < from && h < |m.tasks| :: m.tasks[h].phase.Done?
    ensures g < |m.tasks| && !m.tasks[g].phase.Done? && forall h | 0 <= h < g :: m.tasks[h].phase.Done?
    decreases |m.tasks| - from
  {
    if !m.tasks[from].phase.Done? {
      g := from;
    } else {
      g := FirstUnfinished(m, from + 1);
    }
  }

  /** No `get` is stuck: once every task has ended, one that waits can leave, and once it looks at
      the entry, nothing raises for want of a task. */
  lemma WaiterCanLeave(m: Machine, k: nat)
    requires m.Inv() && k < |m.getters| && m.getters[k].Running()
    requires forall g | 0 <= g < |m.tasks| :: m.tasks[g].phase.Done?
    ensures CanLook(m, k) || CanLeave(m, k, false)
    ensures CanLook(m, k) ==> !Look(m, k).getters[k].at.Raised?
  {
    assert m.GetterOk(m.getters[k]);
  }

  /** A superseded operation never publishes: when its task ends, the entry is left alone. */
  lemma SupersededIsSilent(m: Machine, g: nat)
    requires m.Inv() && CanFinish(m, g) && g != |m.tasks| - 1
    ensures Finish(m, g).state == m.state && Finish(m, g).payload == m.payload && Finish(m, g).task == m.task
    ensures Result(m, g) == None || Result(m, g) == Some(None)
  {
  }

  /** Every payload that a `get` returns was in the store at some moment while it ran. */
  lemma GetsAreLinearizable(run: seq<Machine>, n: nat, k: nat)
    requires IsRun(run) && n < |run| && k < |run[n].getters|
    requires run[n].getters[k].at.Returned? && run[n].getters[k].at.found.Some?
    ensures run[n].getters[k].at.found in run[n].getters[k].seen
  {
    EveryRun(run, n);
    assert run[n].GetterOk(run[n].getters[k]);
  }

  /** When a task that succeeded has nothing to return: a fetch if it is superseded or the store lacks
      the object, a put only if it is superseded, an eviction always. */
  lemma NothingReturnedExactly(m: Machine, g: nat)
    requires m.Inv() && CanFinish(m, g) && m.tasks[g].phase.ok
    ensures Result(m, g) == Some(None) <==>
      g != |m.tasks| - 1 || m.tasks[g].op.Evict? || (m.tasks[g].op.Fetch? && m.store == None)
  {
    assert m.CallOk(m.tasks[g]);
  }

  /** When a `get` returns nothing: exactly if it waited for a task that was superseded before it
      ended, or for a fetch that ended when the store lacked the object. So unless its task was
      superseded, the store did lack the object at some moment while the call ran. */
  lemma GetReturnsNothingExactly(run: seq<Machine>, n: nat, k: nat)
    requires IsRun(run) && n < |run| && k < |run[n].getters| && run[n].getters[k].at.Returned?
    ensures var (m, c) := (run[n], run[n].getters[k]);
      && (c.at.via.Some? ==> c.at.via.value < |m.tasks| && m.tasks[c.at.via.value].phase.Done?)
      && (c.at.found == None <==> c.at.via.Some? && var t := m.tasks[c.at.via.value];
            t.phase.superseded || (t.op.Fetch? && t.phase.held == None))
      && (c.at.found == None && !m.tasks[c.at.via.value].phase.superseded ==> None in c.seen)
  {
    EveryRun(run, n);
    var (m, c) := (run[n], run[n].getters[k]);
    hide IsRun;
    ReturnedVia(m, k);
  }

  lemma ReturnedVia(m: Machine, k: nat)
    requires m.Inv() && k < |m.getters| && m.getters[k].at.Returned?
    ensures m.ReturnedOk(m.getters[k])
    ensures var c := m.getters[k]; c.at.via.Some? ==> m.DoneOk(m.tasks[c.at.via.value])
  {
    assert m.GetterOk(m.getters[k]);
  }

  /** `superseded` and `held` are recorded as the task ends, and never change. */
  lemma EndIsRecorded(m: Machine, a: Action, g: nat)
    requires m.Inv() && Enabled(m, a) && g < |m.tasks|
    ensures var n := Step(m, a);
      && g < |n.tasks|
      && (m.tasks[g].phase.Done? ==> n.tasks[g] == m.tasks[g])
      && (!m.tasks[g].phase.Done? && n.tasks[g].phase.Done? ==>
            n.tasks[g].phase.held == n.store && (n.tasks[g].phase.superseded <==> g != |n.tasks| - 1))
  {
    hide Machine.Inv, Finish, CanFinish;
    match a
    case FinishTask(h) => FinishRecords(m, h, g);
    case _ => NothingEnds(m, a, g);
  }

  lemma FinishRecords(m: Machine, h: nat, g: nat)
    requires m.Inv() && CanFinish(m, h) && g < |m.tasks|
    ensures var n := Finish(m, h);
      && |n.tasks| == |m.tasks| && n.store == m.store && (g != h ==> n.tasks[g] == m.tasks[g])
      && !m.tasks[h].phase.Done?
      && n.tasks[h].phase.Done? && n.tasks[h].phase.held == m.store
      && (n.tasks[h].phase.superseded <==> h != |m.tasks| - 1)
  {
    assert m.CallOk(m.tasks[h]);
  }

  lemma NothingEnds(m: Machine, a: Action, g: nat)
    requires Enabled(m, a) && !a.FinishTask? && g < |m.tasks|
    ensures var n := Step(m, a);
      g < |n.tasks| && (m.tasks[g].phase.Done? ==> n.tasks[g] == m.tasks[g])
      && (!m.tasks[g].phase.Done? ==> !n.tasks[g].phase.Done?)
  {
  }

  /** `seen` is nothing but a record of the store: a value enters it only while the call is under
      way and the store holds it. */
  lemma SeenIsHistory(m: Machine, a: Action, k: nat, v: Option<Payload>)
    requires Enabled(m, a) && k < |Step(m, a).getters| && v in Step(m, a).getters[k].seen
    ensures (k < |m.getters| && v in m.getters[k].seen) || (Step(m, a).getters[k].Running() && v == Step(m, a).store)
  {
  }

  /** A fetch superseded by a newer operation returns nothing although the object was in the store
      throughout. */
  lemma SupersededFetchMisses(v: Payload, w: Payload)
    ensures var m1 := Look(Arrive(Initial(Some(v))), 0);
      var m2 := Start(m1, Put(w));
      && CanBegin(m2, 0)
      && var m3 := Begin(m2, 0);
      && CanReturn(m3, 0)
      && var m4 := Return(m3, 0, true, true);
      && CanFinish(m4, 0)
      && var m5 := Finish(m4, 0);
      && CanLeave(m5, 0, false) && m5.store == Some(v) && Leave(m5, 0, false).getters[0].at == Returned(None, Some(0))
  {
    var m1 := Look(Arrive(Initial(Some(v))), 0);
    assert m1.tasks == [Task(Fetch, 1, None, Waiting)];
    var m2 := Start(m1, Put(w));
    assert m2.tasks[0] == Task(Fetch, 1, None, Waiting);
  }

  // ---------- the code ----------

  /** One entry of the coordinator, with the tasks it started and the calls waiting for them. Each
      method is what happens between two awaits. */
  class Entry {
    var store: Option<Payload>
    var state: EntryState
    var generation: nat
    var payload: Option<Payload>
    var task: Option<nat>
    var ioTail: Option<nat>
    var waiters: nat
    var tasks: seq<Task>
    var getters: seq<Getter>

    function Value(): Machine
      reads this
    {
      Machine(store, state, generation, payload, task, ioTail, waiters, tasks, getters)
    }

    constructor (stored: Option<Payload>)
      ensures Value() == Initial(stored) && Value().Inv()
    {
      store, state, generation, payload, task := stored, Absent, 0, None, None;
      ioTail, waiters, tasks, getters := None, 0, [], [];
    }

    /** `asyncio.create_task`. */
    method CreateTask(op: Operation, previous: Option<nat>) returns (created: nat)
      modifies this`tasks
      ensures created == old(|tasks|) && tasks == old(tasks) + [Task(op, generation, previous, Waiting)]
    {
      created := |tasks|;
      tasks := tasks + [Task(op, generation, previous, Waiting)];
    }

    method StartFetch() returns (started: nat)
      modifies this
      ensures Value() == Start(old(Value()), Fetch) && started == old(|tasks|)
    {
      generation := generation + 1;
      state := Fetching;
      payload := None;
      var previous := ioTail;
      started := CreateTask(Fetch, previous);
      task := Some(started);
      ioTail := Some(started);
    }

    method StartPut(value: Payload)
      modifies this
      ensures Value() == Start(old(Value()), Put(value))
    {
      generation := generation + 1;
      state := Writing;
      payload := None;
      var previous := ioTail;
      var started := CreateTask(Put(value), previous);
      task := Some(started);
      ioTail := Some(started);
    }

    method StartEvict()
      modifies this
      ensures Value() == Start(old(Value()), Evict)
    {
      generation := generation + 1;
      state := Evicting;
      payload := None;
      var previous := ioTail;
      var started := CreateTask(Evict, previous);
      task := Some(started);
      ioTail := Some(started);
    }

    /** `get`, up to the point where it waits for a task or returns. The missing-task error cannot
        happen. */
    method LookUp(k: nat) returns (error: bool)
      requires Value().Inv() && CanLook(Value(), k)
      modifies this
      ensures Value() == Look(old(Value()), k) && Value().Inv() && !error
    {
      LookInv(Value(), k);
      TasksParts(Value());
      hide Joined, Machine.TasksOk, Machine.GettersOk;
      error := false;
      var at := Looking;
      if state == Resident {
        at := Returned(payload, None);
      } else if state in {Fetching, Writing, Evicting} {
        if task.None? {
          assert false;
        } else {
          waiters := waiters + 1;
          at := WaitingFor(task.value, true, state == Evicting);
        }
      } else {
        var started := StartFetch();
        at := WaitingFor(started, false, false);
      }
      getters := getters[k := getters[k].(at := at)];
    }

    /** `get`, once its wait is over. */
    method WaitOver(k: nat, cancelled: bool)
      requires CanLeave(Value(), k, cancelled)
      modifies this
      ensures Value() == Leave(old(Value()), k, cancelled)
    {
      var wait := getters[k].at;
      if wait.joined {
        waiters := if waiters - 1 > 0 then waiters - 1 else 0;
      }
      var at := Raised;
      if !cancelled && tasks[wait.task].phase.returned.Some? {
        at := if wait.retry then Looking else Returned(tasks[wait.task].phase.returned.value, Some(wait.task));
      }
      getters := getters[k := getters[k].(at := at)];
    }

    method FinishSuccess(g: nat, settled: EntryState, value: Option<Payload>) returns (current: bool)
      requires g < |tasks|
      modifies this`state, this`payload, this`task
      ensures current == (generation == tasks[g].generation)
      ensures if current then state == settled && payload == value && task == None else unchanged(this)
    {
      if generation != tasks[g].generation {
        return false;
      }
      state := settled;
      payload := value;
      task := None;
      return true;
    }

    method FinishFailure(g: nat)
      requires g < |tasks|
      modifies this`state, this`payload, this`task
      ensures if generation == tasks[g].generation then state == Failed && payload == None && task == None
        else unchanged(this)
    {
      if generation == tasks[g].generation {
        state := Failed;
        payload := None;
        task := None;
      }
    }

    /** The end of `_fetch`, `_put` or `_evict`, after the backend call. */
    method EndTask(g: nat)
      requires CanFinish(Value(), g)
      modifies this
      ensures Value() == Finish(old(Value()), g)
    {
      var t := tasks[g];
      var returned: Option<Option<Payload>> := None;
      if !t.phase.ok {
        FinishFailure(g);
      } else {
        match t.op
        case Fetch =>
          var current := FinishSuccess(g, if t.phase.found.Some? then Resident else Absent, t.phase.found);
          returned := Some(if current then t.phase.found else None);
        case Put(value) =>
          var current := FinishSuccess(g, Resident, Some(value));
          returned := Some(if current then Some(value) else None);
        case Evict =>
          var _ := FinishSuccess(g, Absent, None);
          returned := Some(None);
      }
      tasks := tasks[g := t.(phase := Done(returned, generation != t.generation, store))];
    }
  }
}
