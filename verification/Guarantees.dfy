/** What holds of every run of the simple machine: conservation, draining, and fair order. */
module Conservation {
  import opened Programs
  import opened Machine
  import opened IdPools

  function Ids(tasks: seq<TaskRecord>): (ids: seq<nat>)
    ensures |ids| == |tasks| && forall i | 0 <= i < |tasks| :: ids[i] == tasks[i].id
  {
    seq(|tasks|, i requires 0 <= i < |tasks| => tasks[i].id)
  }

  function CurrentIds(c: Config): seq<nat> {
    if c.current.Some? then [c.current.value.id] else []
  }

  /** The identifiers of all tasks the runtime owns, each as often as it occurs. */
  function Owned(c: Config): multiset<nat> {
    multiset(CurrentIds(c)) + multiset(Ids(c.ready)) + multiset(c.zombies)
  }

  /** The allocated identifiers are exactly those of the owned tasks, no two tasks
      share one, and all are below capacity. */
  ghost predicate Consistent(c: Config) {
    && Owned(c) == multiset(c.ids)
    && (forall id | id in c.ids :: id < CAPACITY)
  }

  lemma IdsSnoc(tasks: seq<TaskRecord>, t: TaskRecord)
    ensures Ids(tasks + [t]) == Ids(tasks) + [t.id]
  {}

  lemma IdsHead(tasks: seq<TaskRecord>)
    requires tasks != []
    ensures Ids(tasks) == [tasks[0].id] + Ids(tasks[1..])
  {}

  lemma CreateKeeps(c: Config, entry: Program, size: nat, v: Verdict)
    requires Consistent(c)
    ensures Consistent(Create(c, entry, size, v))
  {
    hide Create, Answer, LeastFree;
    CreateEffect(c, entry, size, v);
    var id := LeastFree(c.ids);
    IdsSnoc(c.ready, TaskRecord(id, entry));
    assert id !in c.ids;
    assert multiset(c.ids + {id}) == multiset(c.ids) + multiset{id};
    if Answer(c.ids, v).Refused? {
      assert Owned(Create(c, entry, size, v)) == Owned(c);
    }
  }

  lemma DispatchKeeps(c: Config)
    requires c.current.None? && Consistent(c)
    ensures Consistent(Dispatch(c))
  {
    if c.ready != [] {
      IdsHead(c.ready);
    }
  }

  lemma ExitKeeps(c: Config)
    requires c.current.Some? && Consistent(c)
    ensures Consistent(Exit(c))
  {
    var c' := c.(current := None, zombies := c.zombies + [c.current.value.id]);
    assert Owned(c') == Owned(c);
    DispatchKeeps(c');
  }

  lemma GiveWayKeeps(c: Config, rest: Program)
    requires c.current.Some? && Consistent(c)
    ensures Consistent(GiveWay(c, rest))
  {
    var me := TaskRecord(c.current.value.id, rest);
    var c' := c.(current := None, ready := c.ready + [me]);
    IdsSnoc(c.ready, me);
    assert Owned(c') == Owned(c);
    DispatchKeeps(c');
  }

  lemma StepKeeps(c: Config, v: Verdict)
    requires c.current.Some? && Consistent(c)
    ensures Consistent(Step(c, v))
  {
    hide Exit, GiveWay, Create, Answer;
    match c.current.value.rest {
      case Done => ExitKeeps(c);
      case Yield(rest) => GiveWayKeeps(c, rest);
      case Spawn(child, size, granted, refused) =>
        CreateKeeps(c, child, size, v);
        CreateKeepsCurrent(c, child, size, v);
        assert Owned(Step(c, v)) == Owned(Create(c, child, size, v));
    }
  }

  /** While tasks run, the runtime stays in the state the run began in; it is stopped just when main is back. */
  lemma PhaseFollows(c: Config, v: Verdict)
    requires c.current.Some?
    ensures var d := Step(c, v);
            d.phase == if d.current.Some? then c.phase else Stopped
  {
    hide Answer, Create;
    if c.current.value.rest.Spawn? {
      CreateEffect(c, c.current.value.rest.child, c.current.value.rest.stackSize, v);
    }
  }

  lemma CreateKeepsCurrent(c: Config, entry: Program, size: nat, v: Verdict)
    ensures Create(c, entry, size, v).current == c.current
  {}

  lemma {:induction false} DrainKeeps(c: Config, verdicts: seq<Verdict>)
    requires Consistent(c) && (c.current.None? ==> c.ready == [])
    ensures var r := Drain(c, verdicts);
            Consistent(r) && r.current.None? && r.ready == []
    decreases Work(c)
  {
    if c.current.Some? {
      var v := Next(c, verdicts);
      StepUsesWork(c, v);
      StepKeeps(c, v);
      DrainKeeps(Step(c, v), verdicts);
    }
  }

  lemma RunKeeps(c: Config, verdicts: seq<Verdict>)
    requires Consistent(c) && c.current.None?
    ensures var r := Run(c, verdicts);
            && r.current.None? && r.ready == [] && r.zombies == [] && r.ids == {}
            && r.phase == Stopped
  {
    var d := Dispatch(c.(phase := Running));
    DispatchKeeps(c.(phase := Running));
    DrainKeeps(d, verdicts);
    var e := Drain(d, verdicts);
    assert Owned(e) == multiset(e.zombies);
    forall id | id in e.ids ensures id in e.zombies {
      assert id in multiset(e.ids);
    }
    DrainStops(d, verdicts);
  }

  /** Main gets the processor back only when nobody waits for it. */
  lemma {:induction false} DrainStops(c: Config, verdicts: seq<Verdict>)
    requires c.current.None? ==> c.phase == Stopped && c.ready == []
    ensures var r := Drain(c, verdicts);
            r.phase == Stopped && r.ready == [] && r.current.None?
    decreases Work(c)
  {
    if c.current.Some? {
      StepUsesWork(c, Next(c, verdicts));
      DrainStops(Step(c, Next(c, verdicts)), verdicts);
    }
  }

  /** After any session main has the processor and the books balance. */
  lemma {:induction false} SessionKeeps(commands: seq<Command>, verdicts: seq<Verdict>)
    ensures var c := Session(commands, verdicts);
            Consistent(c) && c.current.None?
  {
    if commands == [] {
    } else {
      var before := Session(commands[..|commands| - 1], verdicts);
      SessionKeeps(commands[..|commands| - 1], verdicts);
      match commands[|commands| - 1] {
        case CreateTask(entry, size) => CreateKeeps(before, entry, size, Next(before, verdicts));
        case RunTasks => RunKeeps(before, verdicts);
      }
    }
  }

  /** There are as many owned tasks as allocated identifiers. */
  lemma OwnedCount(c: Config)
    requires Consistent(c)
    ensures |CurrentIds(c)| + |c.ready| + |c.zombies| == |c.ids| <= CAPACITY
  {
    assert |Owned(c)| == |CurrentIds(c)| + |c.ready| + |c.zombies|;
    assert |multiset(c.ids)| == |c.ids|;
    BelowFits(c.ids, CAPACITY);
  }
}

/** The order in which tasks get the processor. */
module Fairness {
  import opened Programs
  import opened Machine
  import opened IdPools
  import opened Conservation

  lemma DispatchOrder(c: Config)
    requires c.ready != []
    ensures Dispatch(c).trace + Ids(Dispatch(c).ready) == c.trace + Ids(c.ready)
  {
    IdsHead(c.ready);
  }

  /** Bounded waiting: whatever the running tasks do, the tasks now waiting are the next ones
      to be dispatched, in their present order. */
  lemma {:induction false} WaitingTasksComeNext(c: Config, verdicts: seq<Verdict>)
    requires c.current.Some?
    ensures c.trace + Ids(c.ready) <= Drain(c, verdicts).trace
    decreases Work(c)
  {
    var v := Next(c, verdicts);
    StepUsesWork(c, v);
    var c' := Step(c, v);
    StepExtendsOrder(c, v);
    if c'.current.Some? {
      WaitingTasksComeNext(c', verdicts);
      PrefixTransitive(c.trace + Ids(c.ready), c'.trace + Ids(c'.ready), Drain(c, verdicts).trace);
    }
  }

  lemma PrefixTransitive<T>(a: seq<T>, b: seq<T>, c: seq<T>)
    requires a <= b && b <= c
    ensures a <= c
  {}

  /** One action leaves the order of the dispatches so far and of the waiting tasks, and may add to its end. */
  lemma StepExtendsOrder(c: Config, v: Verdict)
    requires c.current.Some?
    ensures var c' := Step(c, v);
            && c.trace + Ids(c.ready) <= c'.trace + Ids(c'.ready)
            && (c'.current.None? ==> c.ready == [] && c'.trace == c.trace && c.current.value.rest == Done)
  {
    var me := c.current.value;
    match me.rest {
      case Done =>
        if c.ready != [] { DispatchOrder(c.(zombies := c.zombies + [me.id])); }
      case Yield(rest) =>
        hide Create, Answer;
        IdsSnoc(c.ready, TaskRecord(me.id, rest));
        DispatchOrder(c.(ready := c.ready + [TaskRecord(me.id, rest)]));
        OrderGrows(c.trace, Ids(c.ready), me.id);
      case Spawn(child, size, _, _) =>
        hide Create, Answer;
        CreateEffect(c, child, size, v);
        var id := LeastFree(c.ids);
        IdsSnoc(c.ready, TaskRecord(id, child));
        OrderGrows(c.trace, Ids(c.ready), id);
    }
  }

  lemma OrderGrows(trace: seq<nat>, ids: seq<nat>, id: nat)
    ensures trace + ids <= trace + (ids + [id])
  {}

  lemma OnceIsUnique(s: seq<nat>, i: nat, k: nat)
    requires i < k < |s| && multiset(s)[s[k]] <= 1
    ensures s[i] != s[k]
  {
    assert s == s[..k] + [s[k]] + s[k + 1..];
    assert multiset(s[..k])[s[k]] == 0;
    assert s[..k][i] in multiset(s[..k]);
  }

  lemma WaitingIdsDiffer(c: Config, i: nat, k: nat)
    requires Consistent(c) && i < k < |c.ready|
    ensures c.ready[i].id != c.ready[k].id
  {
    var ids := Ids(c.ready);
    assert multiset(ids)[ids[k]] <= Owned(c)[ids[k]] <= 1;
    OnceIsUnique(ids, i, k);
  }

  lemma WaitingIsNotCurrent(c: Config, i: nat)
    requires Consistent(c) && c.current.Some? && i < |c.ready|
    ensures c.ready[i].id != c.current.value.id
  {
    var me := c.current.value.id;
    assert multiset(CurrentIds(c))[me] == 1 && Owned(c)[me] <= 1;
    assert multiset(Ids(c.ready))[me] == 0;
    assert Ids(c.ready)[i] in multiset(Ids(c.ready));
  }

  /** The machine as soon as the tasks have the processor: now, or once main has started a run. */
  function Resumed(c: Config): Config {
    if c.current.Some? then c else Dispatch(c.(phase := Running))
  }

  /** The same for tasks that wait while main still has the processor. */
  lemma OrderFromAnywhere(c: Config, verdicts: seq<Verdict>)
    ensures c.trace + Ids(c.ready) <= Drain(Resumed(c), verdicts).trace
  {
    if c.current.Some? {
      WaitingTasksComeNext(c, verdicts);
    } else if c.ready != [] {
      DispatchOrder(c.(phase := Running));
      WaitingTasksComeNext(Resumed(c), verdicts);
    }
  }

  lemma NextDispatches(c: Config, verdicts: seq<Verdict>, k: nat)
    requires k < |c.ready|
    ensures var t := Drain(Resumed(c), verdicts).trace;
            |t| > |c.trace| + k && t[|c.trace| + k] == c.ready[k].id
  {
    OrderFromAnywhere(c, verdicts);
    assert (c.trace + Ids(c.ready))[|c.trace| + k] == c.ready[k].id;
  }

  /** A task with k tasks ahead of it gets exactly the (k+1)-th dispatch from now on, and none before,
      whether a task or main has the processor. */
  lemma DispatchedInTurn(c: Config, verdicts: seq<Verdict>, k: nat)
    requires Consistent(c) && k < |c.ready|
    ensures var t := Drain(Resumed(c), verdicts).trace;
            && |t| > |c.trace| + k && t[|c.trace| + k] == c.ready[k].id
            && forall i | |c.trace| <= i < |c.trace| + k :: t[i] != c.ready[k].id
  {
    hide Drain, Consistent, Resumed;
    var t := Drain(Resumed(c), verdicts).trace;
    NextDispatches(c, verdicts, k);
    forall i | |c.trace| <= i < |c.trace| + k ensures t[i] != c.ready[k].id {
      NextDispatches(c, verdicts, i - |c.trace|);
      WaitingIdsDiffer(c, i - |c.trace|, k);
    }
  }

  lemma DrainUnfolds(c: Config, verdicts: seq<Verdict>)
    requires c.current.Some?
    ensures Drain(c, verdicts) == Drain(Step(c, Next(c, verdicts)), verdicts)
  {
    hide Step;
  }

  lemma SpawnQueuesChild(c: Config, v: Verdict)
    requires Consistent(c) && c.current.Some? && c.current.value.rest.Spawn? && Answer(c.ids, v).Created?
    ensures var c' := Step(c, v);
            && Consistent(c') && c'.current.Some? && c'.current.value.id == c.current.value.id
            && c'.trace == c.trace
            && Ids(c'.ready) == Ids(c.ready) + [Answer(c.ids, v).id]
  {
    StepKeeps(c, v);
    IdsSnoc(c.ready, TaskRecord(Answer(c.ids, v).id, c.current.value.rest.child));
  }

  /** A child spawned in a turn runs after every task already waiting and before its parent's next turn. */
  lemma ChildBeforeParent(c: Config, verdicts: seq<Verdict>)
    requires Consistent(c) && c.current.Some? && c.current.value.rest.Spawn?
    requires Answer(c.ids, Next(c, verdicts)).Created?
    ensures var t := Drain(c, verdicts).trace;
            && c.trace + Ids(c.ready) + [Answer(c.ids, Next(c, verdicts)).id] <= t
            && forall i | |c.trace| <= i <= |c.trace| + |c.ready| :: t[i] != c.current.value.id
  {
    hide Drain, Consistent, Step, Answer;
    var v := Next(c, verdicts);
    var c' := Step(c, v);
    DrainUnfolds(c, verdicts);
    SpawnQueuesChild(c, v);
    WaitingTasksComeNext(c', verdicts);
    assert c.trace + (Ids(c.ready) + [Answer(c.ids, v).id]) == c.trace + Ids(c.ready) + [Answer(c.ids, v).id];
    var t := Drain(c, verdicts).trace;
    forall i | |c.trace| <= i <= |c.trace| + |c.ready| ensures t[i] != c.current.value.id {
      NextDispatches(c', verdicts, i - |c.trace|);
      WaitingIsNotCurrent(c', i - |c.trace|);
    }
  }

  /** A finished task is never dispatched again. */
  lemma {:induction false} FinishedStaysFinished(c: Config, verdicts: seq<Verdict>)
    requires Consistent(c)
    ensures var r := Drain(c, verdicts);
            && c.trace <= r.trace && c.zombies <= r.zombies
            && forall i | |c.trace| <= i < |r.trace| :: r.trace[i] !in c.zombies
    decreases Work(c)
  {
    if c.current.Some? {
      var v := Next(c, verdicts);
      StepUsesWork(c, v);
      StepKeeps(c, v);
      StepExtendsTrace(c, v);
      FinishedStaysFinished(Step(c, v), verdicts);
    }
  }

  lemma StepExtendsTrace(c: Config, v: Verdict)
    requires Consistent(c) && c.current.Some?
    ensures var c' := Step(c, v);
            && c.trace <= c'.trace && c.zombies <= c'.zombies
            && forall i | |c.trace| <= i < |c'.trace| :: c'.trace[i] !in c.zombies
  {
    hide Create, Answer, Consistent;
    var me := c.current.value;
    if me.rest.Spawn? {
      CreateEffect(c, me.rest.child, me.rest.stackSize, v);
    }
    forall z | z in c.zombies ensures z != me.id && forall t | t in c.ready :: t.id != z {
      ZombieIsNotAlive(c, z);
    }
  }

  lemma ZombieIsNotAlive(c: Config, z: nat)
    requires Consistent(c) && z in c.zombies
    ensures z !in CurrentIds(c)
    ensures forall t | t in c.ready :: t.id != z
  {
    assert multiset(c.zombies)[z] >= 1 && multiset(c.ids)[z] <= 1;
    assert z !in multiset(CurrentIds(c)) && z !in multiset(Ids(c.ready));
    forall i | 0 <= i < |c.ready| ensures c.ready[i].id != z {
      assert Ids(c.ready)[i] in multiset(Ids(c.ready));
    }
  }
}

/** Round robin: tasks that only give way take turns in rounds. */
module Rounds {
  import opened Programs
  import opened Machine
  import opened Conservation
  import Fairness

  predicate OnlyYields(p: Program) {
    match p
    case Done => true
    case Yield(rest) => OnlyYields(rest)
    case Spawn(_, _, _, _) => false
  }

  /** How often a program that only gives way does so. */
  function Yields(p: Program): nat
    requires OnlyYields(p)
  {
    if p.Yield? then 1 + Yields(p.rest) else 0
  }

  /** The program that gives way `n` times and returns. */
  function Yielding(n: nat): (p: Program)
    ensures OnlyYields(p) && Yields(p) == n
  {
    if n == 0 then Done else Yield(Yielding(n - 1))
  }

  ghost predicate AllYield(tasks: seq<TaskRecord>) {
    forall i | 0 <= i < |tasks| :: OnlyYields(tasks[i].rest)
  }

  /** What goes back to the queue after a turn: the task itself, if it gave way. */
  function Requeued(t: TaskRecord): (r: seq<TaskRecord>)
    requires OnlyYields(t.rest)
    ensures AllYield(r) && TotalSize(r) == Size(t.rest) - 1
  {
    if t.rest.Yield? then
      TotalSizeSnoc([], t.(rest := t.rest.rest));
      assert [] + [t.(rest := t.rest.rest)] == [t.(rest := t.rest.rest)];
      [t.(rest := t.rest.rest)]
    else []
  }

  lemma {:induction false} TotalSizeAppend(s: seq<TaskRecord>, t: seq<TaskRecord>)
    ensures TotalSize(s + t) == TotalSize(s) + TotalSize(t)
  {
    if t == [] {
      assert s + t == s;
    } else {
      assert s + t == (s + t[..|t| - 1]) + [t[|t| - 1]];
      TotalSizeSnoc(s + t[..|t| - 1], t[|t| - 1]);
      TotalSizeAppend(s, t[..|t| - 1]);
    }
  }

  /** The order of turns, read off a queue alone. */
  ghost function Turns(queue: seq<TaskRecord>): seq<nat>
    requires AllYield(queue)
    decreases TotalSize(queue)
  {
    if queue == [] then []
    else
      TotalSizeHead(queue);
      TotalSizeAppend(queue[1..], Requeued(queue[0]));
      [queue[0].id] + Turns(queue[1..] + Requeued(queue[0]))
  }

  lemma TurnsUnfold(queue: seq<TaskRecord>)
    requires queue != [] && AllYield(queue)
    ensures Turns(queue) == [queue[0].id] + Turns(queue[1..] + Requeued(queue[0]))
    ensures TotalSize(queue[1..] + Requeued(queue[0])) < TotalSize(queue)
  {
    TotalSizeHead(queue);
    TotalSizeAppend(queue[1..], Requeued(queue[0]));
  }

  /** The machine after a whole turn of the first waiting task, before the next dispatch. */
  function AfterTurn(c: Config): Config
    requires c.ready != [] && AllYield(c.ready)
  {
    var head := c.ready[0];
    c.(current := Some(head), ready := c.ready[1..] + Requeued(head), trace := c.trace + [head.id],
       events := c.events + [Ran(head.id)],
       zombies := if head.rest == Done then c.zombies + [head.id] else c.zombies)
  }

  lemma TurnOfHead(c: Config, v: Verdict)
    requires c.ready != [] && AllYield(c.ready)
    ensures Dispatch(c).current.Some?
    ensures Step(Dispatch(c), v) == Dispatch(AfterTurn(c))
  {
    assert OnlyYields(c.ready[0].rest);
  }

  lemma TurnsAfterTurn(c: Config)
    requires c.ready != [] && AllYield(c.ready)
    ensures var c' := AfterTurn(c);
            && AllYield(c'.ready) && TotalSize(c'.ready) < TotalSize(c.ready)
            && c.trace + Turns(c.ready) == c'.trace + Turns(c'.ready)
  {
    hide Turns, Requeued, TotalSize;
    TurnsUnfold(c.ready);
    AllYieldAppend(c.ready[1..], Requeued(c.ready[0]));
  }

  lemma DrainNobody(c: Config, verdicts: seq<Verdict>)
    requires c.ready == []
    ensures Drain(Dispatch(c), verdicts).trace == c.trace && Turns(c.ready) == []
  {}

  /** The machine takes turns exactly as the queue says, whatever the operating system would answer. */
  lemma {:induction false} DrainFollowsQueue(c: Config, verdicts: seq<Verdict>)
    requires AllYield(c.ready)
    ensures Drain(Dispatch(c), verdicts).trace == c.trace + Turns(c.ready)
    decreases TotalSize(c.ready)
  {
    hide Turns, TotalSize, Step, Dispatch, Drain, Next, AfterTurn, AllYield;
    if c.ready == [] {
      DrainNobody(c, verdicts);
    } else {
      TurnOfHead(c, Next(Dispatch(c), verdicts));
      Fairness.DrainUnfolds(Dispatch(c), verdicts);
      TurnsAfterTurn(c);
      DrainFollowsQueue(AfterTurn(c), verdicts);
    }
  }

  /** The tasks that gave way in a sweep, with one turn less to go. */
  function Survivors(tasks: seq<TaskRecord>): (r: seq<TaskRecord>)
    requires AllYield(tasks)
    ensures AllYield(r)
  {
    if tasks == [] then [] else Requeued(tasks[0]) + Survivors(tasks[1..])
  }

  lemma AllYieldAppend(s: seq<TaskRecord>, t: seq<TaskRecord>)
    ensures AllYield(s + t) <==> AllYield(s) && AllYield(t)
    ensures s != [] && AllYield(s) ==> OnlyYields(s[0].rest) && AllYield(s[1..])
  {
    if AllYield(s + t) {
      assert forall i | 0 <= i < |s| :: s[i] == (s + t)[i];
      assert forall i | 0 <= i < |t| :: t[i] == (s + t)[|s| + i];
    }
  }

  lemma SurvivorsUnfold(tasks: seq<TaskRecord>)
    requires tasks != [] && AllYield(tasks)
    ensures AllYield(tasks[1..]) && OnlyYields(tasks[0].rest)
    ensures Survivors(tasks) == Requeued(tasks[0]) + Survivors(tasks[1..])
  {}

  lemma Shuffle<T>(h: T, f: seq<T>, back: seq<T>, again: seq<T>, rest: seq<T>)
    ensures ([h] + f + back)[1..] + again == f + (back + again)
    ensures (back + again) + rest == back + (again + rest)
  {}

  /** One sweep over the tasks in front: each has a turn, and the ones that gave way line up behind the others. */
  lemma {:induction false} Sweep(front: seq<TaskRecord>, back: seq<TaskRecord>)
    requires AllYield(front) && AllYield(back)
    ensures AllYield(front + back) && AllYield(back + Survivors(front))
    ensures Turns(front + back) == Ids(front) + Turns(back + Survivors(front))
    decreases |front|
  {
    hide Requeued, Ids, Turns, TotalSize, Survivors, AllYield;
    AllYieldAppend(front, back);
    AllYieldAppend(back, Survivors(front));
    if front == [] {
      NoSurvivors();
      assert Ids(front) == [];
      assert front + back == back && back + Survivors(front) == back;
    } else {
      var again := Requeued(front[0]);
      AllYieldAppend(back, again);
      TurnsUnfold(front + back);
      assert front == [front[0]] + front[1..];
      Shuffle(front[0], front[1..], back, again, Survivors(front[1..]));
      Sweep(front[1..], back + again);
      IdsHead(front);
      SurvivorsUnfold(front);
    }
  }

  lemma NoSurvivors()
    ensures AllYield([]) && Survivors([]) == []
  {}

  /** Round r: the tasks that give way at least r times, in creation order. */
  function Round(tasks: seq<TaskRecord>, r: nat): seq<nat>
    requires AllYield(tasks)
  {
    if tasks == [] then []
    else (if Yields(tasks[0].rest) >= r then [tasks[0].id] else []) + Round(tasks[1..], r)
  }

  /** The tasks as they stand after `r` rounds. */
  function Later(tasks: seq<TaskRecord>, r: nat): (later: seq<TaskRecord>)
    requires AllYield(tasks)
    ensures AllYield(later)
  {
    if r == 0 then tasks else Survivors(Later(tasks, r - 1))
  }

  /** The most often any of the tasks gives way. */
  function MostYields(tasks: seq<TaskRecord>): (m: nat)
    requires AllYield(tasks)
    ensures forall i | 0 <= i < |tasks| :: Yields(tasks[i].rest) <= m
  {
    if tasks == [] then 0
    else
      var m := MostYields(tasks[1..]);
      assert forall i | 1 <= i < |tasks| :: tasks[i] == tasks[1..][i - 1];
      if Yields(tasks[0].rest) > m then Yields(tasks[0].rest) else m
  }

  /** The rounds from `r` on, one after the other. */
  function RoundsFrom(tasks: seq<TaskRecord>, r: nat): seq<nat>
    requires AllYield(tasks)
    decreases MostYields(tasks) + 1 - r
  {
    if r > MostYields(tasks) then [] else Round(tasks, r) + RoundsFrom(tasks, r + 1)
  }

  lemma {:induction false} SurvivorsAppend(s: seq<TaskRecord>, t: seq<TaskRecord>)
    requires AllYield(s) && AllYield(t)
    ensures AllYield(s + t)
    ensures Survivors(s + t) == Survivors(s) + Survivors(t)
    decreases |s|
  {
    hide Requeued, Survivors, AllYield;
    AllYieldAppend(s, t);
    if s == [] {
      NoSurvivors();
      assert s + t == t;
    } else {
      AllYieldAppend(s, []);
      assert (s + t)[1..] == s[1..] + t && (s + t)[0] == s[0];
      SurvivorsUnfold(s);
      SurvivorsUnfold(s + t);
      SurvivorsAppend(s[1..], t);
    }
  }

  /** What is left of one task after `r` rounds: nothing once it has returned. */
  function Left(t: TaskRecord, r: nat): (left: seq<TaskRecord>)
    requires OnlyYields(t.rest)
    ensures AllYield(left)
    ensures if Yields(t.rest) >= r then |left| == 1 && left[0].id == t.id && Yields(left[0].rest) == Yields(t.rest) - r
            else left == []
  {
    if r == 0 then [t] else
      var before := Left(t, r - 1);
      if before == [] then [] else Requeued(before[0])
  }

  lemma SurvivorsOfFew(tasks: seq<TaskRecord>)
    requires AllYield(tasks) && |tasks| <= 1
    ensures Survivors(tasks) == if tasks == [] then [] else Requeued(tasks[0])
  {
    hide Requeued;
  }

  lemma {:induction false} LaterHead(tasks: seq<TaskRecord>, r: nat)
    requires tasks != [] && AllYield(tasks)
    ensures OnlyYields(tasks[0].rest) && AllYield(tasks[1..])
    ensures Later(tasks, r) == Left(tasks[0], r) + Later(tasks[1..], r)
  {
    hide Requeued, Survivors;
    if r == 0 {
      assert tasks == [tasks[0]] + tasks[1..];
    } else {
      LaterHead(tasks, r - 1);
      SurvivorsAppend(Left(tasks[0], r - 1), Later(tasks[1..], r - 1));
      SurvivorsOfFew(Left(tasks[0], r - 1));
    }
  }

  lemma {:induction false} LaterNone(r: nat)
    ensures AllYield([]) && Later([], r) == []
  {
    NoSurvivors();
    if r != 0 {
      LaterNone(r - 1);
    }
  }

  /** Round r goes to exactly those tasks that are still there after r rounds. */
  lemma {:induction false} RoundIsLater(tasks: seq<TaskRecord>, r: nat)
    requires AllYield(tasks)
    ensures Ids(Later(tasks, r)) == Round(tasks, r)
  {
    if tasks == [] {
      LaterNone(r);
    } else {
      LaterHead(tasks, r);
      RoundIsLater(tasks[1..], r);
    }
  }

  lemma {:induction false} NoRoundAfterMost(tasks: seq<TaskRecord>, r: nat)
    requires AllYield(tasks) && r > MostYields(tasks)
    ensures Round(tasks, r) == []
  {
    if tasks != [] {
      NoRoundAfterMost(tasks[1..], r);
    }
  }

  lemma {:induction false} TurnsAreRounds(tasks: seq<TaskRecord>, r: nat)
    requires AllYield(tasks)
    ensures Turns(Later(tasks, r)) == RoundsFrom(tasks, r)
    decreases MostYields(tasks) + 1 - r
  {
    hide Later, Round, Turns, Ids, Survivors;
    RoundIsLater(tasks, r);
    if r > MostYields(tasks) {
      NoRoundAfterMost(tasks, r);
      EmptyByIds(Later(tasks, r));
    } else {
      NoSurvivors();
      Sweep(Later(tasks, r), []);
      assert Later(tasks, r) + [] == Later(tasks, r);
      assert [] + Survivors(Later(tasks, r)) == Survivors(Later(tasks, r));
      LaterNext(tasks, r);
      TurnsAreRounds(tasks, r + 1);
    }
  }

  lemma LaterNext(tasks: seq<TaskRecord>, r: nat)
    requires AllYield(tasks)
    ensures Later(tasks, r + 1) == Survivors(Later(tasks, r))
    ensures Later(tasks, 0) == tasks
  {}

  lemma EmptyByIds(tasks: seq<TaskRecord>)
    requires AllYield(tasks) && Ids(tasks) == []
    ensures Turns(tasks) == []
  {
    assert |Ids(tasks)| == |tasks|;
  }

  /** Round robin: tasks created before the run that only give way are dispatched in rounds; round r
      holds, in creation order, those that give way at least r times. */
  lemma RunGoesInRounds(c: Config, verdicts: seq<Verdict>)
    requires AllYield(c.ready)
    ensures Run(c, verdicts).trace == c.trace + RoundsFrom(c.ready, 0)
  {
    hide Drain, Turns, RoundsFrom;
    DrainFollowsQueue(c.(phase := Running), verdicts);
    LaterNext(c.ready, 0);
    TurnsAreRounds(c.ready, 0);
  }
}

/** Identifiers stay small: the lowest free one is always taken. */
module Density {
  import opened Programs
  import opened Statuses
  import opened Machine
  import opened IdPools

  function Max(a: nat, b: nat): nat { if a > b then a else b }

  /** The most identifiers held at once while the tasks run. */
  ghost function DrainPeak(c: Config, verdicts: seq<Verdict>): nat
    decreases Work(c)
  {
    if c.current.None? then |c.ids|
    else
      StepUsesWork(c, Next(c, verdicts));
      Max(|c.ids|, DrainPeak(Step(c, Next(c, verdicts)), verdicts))
  }

  /** The most identifiers held at once since init; finished tasks hold theirs until they are reaped. */
  ghost function SessionPeak(commands: seq<Command>, verdicts: seq<Verdict>): nat {
    if commands == [] then 0
    else
      var before := Session(commands[..|commands| - 1], verdicts);
      Max(SessionPeak(commands[..|commands| - 1], verdicts),
          match commands[|commands| - 1]
          case CreateTask(entry, size) => |Create(before, entry, size, Next(before, verdicts)).ids|
          case RunTasks => DrainPeak(Dispatch(before.(phase := Running)), verdicts))
  }

  /** All identifiers given out in the replies from `from` on are below `bound`. */
  ghost predicate GivenBelow(replies: seq<Reply>, from: nat, bound: nat) {
    forall i | from <= i < |replies| && replies[i].Created? :: replies[i].id < bound
  }

  lemma CreateDense(c: Config, entry: Program, size: nat, v: Verdict)
    ensures var r := Create(c, entry, size, v);
            && c.replies <= r.replies && |c.ids| <= |r.ids|
            && GivenBelow(r.replies, |c.replies|, |r.ids|)
  {
    if Answer(c.ids, v).Created? {
      assert |c.ids + {LeastFree(c.ids)}| == |c.ids| + 1;
    }
  }

  lemma StepDense(c: Config, v: Verdict)
    requires c.current.Some?
    ensures var r := Step(c, v);
            && c.replies <= r.replies && |c.ids| <= |r.ids|
            && GivenBelow(r.replies, |c.replies|, |r.ids|)
  {
    if c.current.value.rest.Spawn? {
      CreateDense(c, c.current.value.rest.child, c.current.value.rest.stackSize, v);
    }
  }

  lemma {:induction false} DrainDense(c: Config, verdicts: seq<Verdict>)
    ensures var r := Drain(c, verdicts);
            && c.replies <= r.replies && |c.ids| <= DrainPeak(c, verdicts)
            && GivenBelow(r.replies, |c.replies|, DrainPeak(c, verdicts))
    decreases Work(c)
  {
    if c.current.Some? {
      hide Step;
      var v := Next(c, verdicts);
      StepUsesWork(c, v);
      StepDense(c, v);
      DrainDense(Step(c, v), verdicts);
    }
  }

  /** Over any session, every identifier given out is below the most ever held at once. */
  lemma {:induction false} SessionDense(commands: seq<Command>, verdicts: seq<Verdict>)
    ensures GivenBelow(Session(commands, verdicts).replies, 0, SessionPeak(commands, verdicts))
  {
    if commands != [] {
      hide Create, Drain, Dispatch;
      SessionDense(commands[..|commands| - 1], verdicts);
      var before := Session(commands[..|commands| - 1], verdicts);
      match commands[|commands| - 1] {
        case CreateTask(entry, size) =>
          CreateDense(before, entry, size, Next(before, verdicts));
        case RunTasks =>
          DispatchReplies(before.(phase := Running));
          DrainDense(Dispatch(before.(phase := Running)), verdicts);
      }
    }
  }

  lemma DispatchReplies(c: Config)
    ensures Dispatch(c).replies == c.replies
  {}

  /** `k` requests to create a task, with nothing else in between. */
  function Requests(k: nat, entry: Program, stackSize: nat): (r: seq<Command>)
    ensures |r| == k
  {
    if k == 0 then [] else Requests(k - 1, entry, stackSize) + [CreateTask(entry, stackSize)]
  }

  /** What `k` creations lead to: 0, 1, ... in order until capacity is reached, then exhaustion. */
  ghost predicate Counted(c: Config, k: nat, entry: Program) {
    && |c.replies| == k && |c.ready| == (if k < CAPACITY then k else CAPACITY)
    && (forall i | 0 <= i < |c.ready| :: c.ready[i] == TaskRecord(i, entry))
    && c.current == None && c.trace == []
    && (forall i | 0 <= i < k :: c.replies[i] == if i < CAPACITY then Created(i) else Refused(ResourceExhausted))
    && (forall id :: id in c.ids <==> 0 <= id < k && id < CAPACITY)
  }

  lemma CreateCounts(c: Config, k: nat, entry: Program, size: nat)
    requires Counted(c, k, entry)
    ensures Counted(Create(c, entry, size, Granted), k + 1, entry)
  {
    var id := if k < CAPACITY then k else CAPACITY;
    LeastFreeIsUnique(c.ids, id);
    hide LeastFree;
  }

  /** In a fresh runtime with nothing refused by the layers below, creations are answered by counting. */
  lemma {:induction false} FreshRuntimeCounts(k: nat, entry: Program, stackSize: nat)
    ensures Counted(Session(Requests(k, entry, stackSize), []), k, entry)
  {
    hide Create, Counted, Run;
    if k == 0 {
      FreshCounts(entry);
    } else {
      var commands := Requests(k, entry, stackSize);
      assert commands[..k - 1] == Requests(k - 1, entry, stackSize);
      FreshRuntimeCounts(k - 1, entry, stackSize);
      CreateCounts(Session(commands[..k - 1], []), k - 1, entry, stackSize);
    }
  }

  lemma FreshCounts(entry: Program)
    ensures Counted(FRESH, 0, entry)
  {}
}

/** What the journal says decides what happens. */
module Evidence {
  import opened Programs
  import opened Statuses
  import opened Journals
  import opened Machine
  import opened IdPools
  import opened Density

  /** The verdict and the answer fit together. */
  predicate Matches(v: Verdict, reply: Reply) {
    if v == Granted then reply.Created? || reply == Refused(ResourceExhausted)
    else reply == Refused(Refusal(v)) && Refusal(v) != Success
  }

  lemma SettledMatches(ids: set<nat>, v: Verdict, reply: Reply)
    requires Settles(ids, v, reply)
    ensures Matches(v, reply)
  {
    hide LeastFree;
  }

  ghost predicate AllMatch(verdicts: seq<Verdict>, replies: seq<Reply>) {
    && |verdicts| == |replies|
    && forall i {:trigger verdicts[i]} | 0 <= i < |verdicts| :: Matches(verdicts[i], replies[i])
  }

  lemma AllMatchSnoc(verdicts: seq<Verdict>, replies: seq<Reply>, v: Verdict, reply: Reply)
    requires AllMatch(verdicts, replies) && Matches(v, reply)
    ensures AllMatch(verdicts + [v], replies + [reply])
  {
    hide Matches;
  }

  // Credible histories match

  /** The verdict on the k-th attempt; beyond the end of the record everything is granted. */
  function At(verdicts: seq<Verdict>, k: nat): Verdict {
    if k < |verdicts| then verdicts[k] else Granted
  }

  ghost predicate Witnessed(c: Config, verdicts: seq<Verdict>) {
    c.credible ==> forall k {:trigger c.replies[k]} | 0 <= k < |c.replies| :: Matches(At(verdicts, k), c.replies[k])
  }

  lemma CreateWitnessed(c: Config, entry: Program, size: nat, verdicts: seq<Verdict>)
    requires Witnessed(c, verdicts)
    ensures Witnessed(Create(c, entry, size, Next(c, verdicts)), verdicts)
  {
    hide LeastFree;
  }

  lemma StepWitnessed(c: Config, verdicts: seq<Verdict>)
    requires c.current.Some? && Witnessed(c, verdicts)
    ensures Witnessed(Step(c, Next(c, verdicts)), verdicts)
  {
    hide Create, Answer, Matches;
    if c.current.value.rest.Spawn? {
      CreateWitnessed(c, c.current.value.rest.child, c.current.value.rest.stackSize, verdicts);
    }
  }

  lemma {:induction false} DrainWitnessed(c: Config, verdicts: seq<Verdict>)
    requires Witnessed(c, verdicts)
    ensures Witnessed(Drain(c, verdicts), verdicts)
    decreases Work(c)
  {
    if c.current.Some? {
      hide Step, Witnessed;
      StepUsesWork(c, Next(c, verdicts));
      StepWitnessed(c, verdicts);
      DrainWitnessed(Step(c, Next(c, verdicts)), verdicts);
    }
  }

  lemma RunWitnessed(c: Config, verdicts: seq<Verdict>)
    requires Witnessed(c, verdicts)
    ensures Witnessed(Run(c, verdicts), verdicts)
  {
    hide Drain;
    DrainWitnessed(Dispatch(c.(phase := Running)), verdicts);
  }

  lemma {:induction false} SessionWitnessed(commands: seq<Command>, verdicts: seq<Verdict>)
    ensures Witnessed(Session(commands, verdicts), verdicts)
  {
    if commands != [] {
      hide Create, Run, Witnessed;
      var before := Session(commands[..|commands| - 1], verdicts);
      SessionWitnessed(commands[..|commands| - 1], verdicts);
      match commands[|commands| - 1] {
        case CreateTask(entry, size) => CreateWitnessed(before, entry, size, verdicts);
        case RunTasks => RunWitnessed(before, verdicts);
      }
    } else {
      FreshWitnessed(verdicts);
    }
  }

  lemma FreshWitnessed(verdicts: seq<Verdict>)
    ensures Witnessed(FRESH, verdicts)
  {}

  /** In a credible session with one verdict to each attempt, verdicts and answers match. */
  lemma SessionMatches(commands: seq<Command>, verdicts: seq<Verdict>)
    requires var c := Session(commands, verdicts); c.credible && |c.replies| == |verdicts|
    ensures AllMatch(verdicts, Session(commands, verdicts).replies)
  {
    hide Session, Matches;
    SessionWitnessed(commands, verdicts);
    var c := Session(commands, verdicts);
    forall i | 0 <= i < |verdicts| ensures Matches(verdicts[i], c.replies[i]) {
      assert At(verdicts, i) == verdicts[i];
    }
  }

  // What is heard is a code

  /** Each attempt starts with the heap, and no later layer is the heap. */
  lemma HeardStarts(v: Verdict, reply: Reply)
    ensures var h := Heard(v, reply);
            && |h| > 0 && h[0].layer == Allocation
            && forall i | 0 < i < |h| :: h[i].layer != Allocation
  {
    hide Refusal;
    AgreedAt(Passed(v));
    AgreedAt(6);
    AgreedAt(1);
  }

  lemma {:induction false} AgreedAt(n: nat)
    requires n <= 6
    ensures forall i | 0 <= i < n :: Agreed(n)[i] == Said(ORDER[i], Success)
  {
    if n != 0 {
      AgreedAt(n - 1);
    }
  }

  /** How much was heard in an attempt, and what last. */
  lemma HeardEnds(v: Verdict, reply: Reply)
    ensures var h := Heard(v, reply);
            && |h| == (if v != Granted then Passed(v) + 1 else if reply.Created? then 6 else 1)
            && h[|h| - 1].status == if v != Granted then Refusal(v) else Success
  {
    AgreedAt(6);
    AgreedAt(1);
  }

  /** What was heard in an attempt tells the verdict. */
  lemma HeardDecides(v: Verdict, r: Reply, w: Verdict, s: Reply)
    requires Matches(v, r) && Matches(w, s) && Heard(v, r) == Heard(w, s)
    ensures v == w && (r.Created? <==> s.Created?)
  {
    hide Heard;
    HeardEnds(v, r);
    HeardEnds(w, s);
  }

  /** Two histories that end in a block each, with the heap only at its start, end in the same block. */
  lemma LastBlock(a: seq<Entry>, h: seq<Entry>, b: seq<Entry>, g: seq<Entry>)
    requires a + h == b + g && |h| <= |g| && |h| > 0
    requires h[0].layer == Allocation && forall i | 0 < i < |g| :: g[i].layer != Allocation
    ensures a == b && h == g
  {
    var n := |g| - |h|;
    assert (a + h)[|a|] == h[0] && (b + g)[|a|] == g[n];
    assert n == 0;
    assert a == (a + h)[..|a|] == (b + g)[..|b|] == b;
    assert h == (a + h)[|a|..] == (b + g)[|b|..] == g;
  }

  /** The journal of a series of attempts tells all verdicts. */
  lemma {:induction false} TranscriptDecides(v: seq<Verdict>, r: seq<Reply>, w: seq<Verdict>, s: seq<Reply>)
    requires AllMatch(v, r) && AllMatch(w, s) && Transcript(v, r) == Transcript(w, s)
    ensures v == w
  {
    hide Heard, Matches;
    if v != [] {
      HeardStarts(v[|v| - 1], r[|r| - 1]);
    }
    if w != [] {
      HeardStarts(w[|w| - 1], s[|s| - 1]);
    }
    if v != [] && w != [] {
      var m, n := |v| - 1, |w| - 1;
      var a, b := Transcript(v[..m], r[..m]), Transcript(w[..n], s[..n]);
      if |Heard(v[m], r[m])| <= |Heard(w[n], s[n])| {
        LastBlock(a, Heard(v[m], r[m]), b, Heard(w[n], s[n]));
      } else {
        LastBlock(b, Heard(w[n], s[n]), a, Heard(v[m], r[m]));
      }
      HeardDecides(v[m], r[m], w[n], s[n]);
      TranscriptDecides(v[..m], r[..m], w[..n], s[..n]);
      assert v == v[..m] + [v[m]] && w == w[..n] + [w[n]];
    }
  }

  /** One session's commands and the journal decide all verdicts, and so every answer and every dispatch. */
  lemma SessionDecided(commands: seq<Command>, v: seq<Verdict>, w: seq<Verdict>)
    requires var c := Session(commands, v); c.credible && |c.replies| == |v|
    requires var d := Session(commands, w); d.credible && |d.replies| == |w|
    requires Transcript(v, Session(commands, v).replies) == Transcript(w, Session(commands, w).replies)
    ensures v == w && Session(commands, v) == Session(commands, w)
  {
    hide Session, Transcript, AllMatch;
    SessionMatches(commands, v);
    SessionMatches(commands, w);
    TranscriptDecides(v, Session(commands, v).replies, w, Session(commands, w).replies);
  }

  /** Likewise for a run from any state with such a history. */
  lemma RunDecided(c: Config, v: seq<Verdict>, w: seq<Verdict>)
    requires Witnessed(c, v) && Witnessed(c, w)
    requires var d := Run(c, v); d.credible && |d.replies| == |v|
    requires var d := Run(c, w); d.credible && |d.replies| == |w|
    requires Transcript(v, Run(c, v).replies) == Transcript(w, Run(c, w).replies)
    ensures v == w && Run(c, v) == Run(c, w)
  {
    hide Run, Transcript, Matches;
    RunWitnessed(c, v);
    RunWitnessed(c, w);
    TranscriptDecides(v, Run(c, v).replies, w, Run(c, w).replies);
  }

  // Verdicts that are not used do not matter

  lemma {:induction false} DrainUsesPrefix(c: Config, v: seq<Verdict>, w: seq<Verdict>)
    requires v <= w && |Drain(c, v).replies| <= |v|
    ensures Drain(c, w) == Drain(c, v)
    decreases Work(c)
  {
    if c.current.Some? {
      hide Create, Answer, Dispatch;
      StepUsesWork(c, Next(c, v));
      var d := Step(c, Next(c, v));
      DrainDense(d, v);
      if c.current.value.rest.Spawn? {
        OneReply(c, Next(c, v));
      }
      assert Step(c, Next(c, w)) == d;
      DrainUsesPrefix(d, v, w);
    }
  }

  lemma OneReply(c: Config, v: Verdict)
    requires c.current.Some? && c.current.value.rest.Spawn?
    ensures |Step(c, v).replies| == |c.replies| + 1
  {
    hide Answer;
  }

  lemma RunUsesPrefix(c: Config, v: seq<Verdict>, w: seq<Verdict>)
    requires v <= w && |Run(c, v).replies| <= |v|
    ensures Run(c, w) == Run(c, v) && c.replies <= Run(c, v).replies
  {
    hide Drain, Dispatch;
    var d := Dispatch(c.(phase := Running));
    DispatchReplies(c.(phase := Running));
    DrainDense(d, v);
    DrainUsesPrefix(d, v, w);
  }

  lemma {:induction false} SessionUsesPrefix(commands: seq<Command>, v: seq<Verdict>, w: seq<Verdict>)
    requires v <= w && |Session(commands, v).replies| <= |v|
    ensures Session(commands, w) == Session(commands, v)
  {
    if commands != [] {
      hide Create, Run;
      var before := Session(commands[..|commands| - 1], v);
      match commands[|commands| - 1] {
        case CreateTask(entry, size) =>
          CreateReply(before, entry, size, Next(before, v));
        case RunTasks =>
          RunUsesPrefix(before, v, w);
      }
      SessionUsesPrefix(commands[..|commands| - 1], v, w);
    }
  }

  lemma CreateReply(c: Config, entry: Program, size: nat, v: Verdict)
    ensures |Create(c, entry, size, v).replies| == |c.replies| + 1
  {
    hide Answer;
  }

  // One generation after the other

  /** What was dispatched and answered is what the machine says for these commands and credible verdicts. */
  ghost predicate AsSession(commands: seq<Command>, verdicts: seq<Verdict>, trace: seq<nat>, replies: seq<Reply>,
                            events: seq<Event>)
  {
    var c := Session(commands, verdicts);
    trace == c.trace && replies == c.replies && events == c.events && c.credible
  }

  /** There is a verdict to each reply. */
  ghost predicate Paired(verdicts: seq<seq<Verdict>>, replies: seq<seq<Reply>>) {
    |verdicts| == |replies| && forall i {:trigger verdicts[i]} | 0 <= i < |verdicts| :: |verdicts[i]| == |replies[i]|
  }

  /** What is heard in one generation after the other. */
  ghost function Chronicle(verdicts: seq<seq<Verdict>>, replies: seq<seq<Reply>>): seq<Entry>
    requires Paired(verdicts, replies)
  {
    if verdicts == [] then []
    else
      var k := |verdicts| - 1;
      Chronicle(verdicts[..k], replies[..k]) + Transcript(verdicts[k], replies[k])
  }

  lemma NoChronicle()
    ensures Chronicle([], []) == []
  {}

  lemma ChronicleGrows(verdicts: seq<seq<Verdict>>, replies: seq<seq<Reply>>, v: seq<Verdict>, r: seq<Reply>)
    requires Paired(verdicts, replies) && |v| == |r|
    ensures Paired(verdicts + [v], replies + [r])
    ensures Chronicle(verdicts + [v], replies + [r]) == Chronicle(verdicts, replies) + Transcript(v, r)
  {
    assert (verdicts + [v])[..|verdicts|] == verdicts && (replies + [r])[..|replies|] == replies;
  }

  function Flat<T>(parts: seq<seq<T>>): seq<T> {
    if parts == [] then [] else Flat(parts[..|parts| - 1]) + parts[|parts| - 1]
  }

  lemma Associative<T>(a: seq<T>, b: seq<T>, c: seq<T>)
    ensures (a + b) + c == a + (b + c)
  {}

  lemma {:induction false} FlatHead<T>(parts: seq<seq<T>>)
    requires parts != []
    ensures Flat(parts) == parts[0] + Flat(parts[1..])
  {
    var k := |parts| - 1;
    if k == 0 {
      assert parts[..0] == [] && parts[1..] == [];
    } else {
      FlatHead(parts[..k]);
      assert parts[..k][1..] == parts[1..][..k - 1] && parts[..k][0] == parts[0] && parts[1..][k - 1] == parts[k];
      Associative(parts[0], Flat(parts[1..][..k - 1]), parts[k]);
    }
  }

  lemma {:induction false} TranscriptAppend(v: seq<Verdict>, r: seq<Reply>, w: seq<Verdict>, s: seq<Reply>)
    requires |v| == |r| && |w| == |s|
    ensures Transcript(v + w, r + s) == Transcript(v, r) + Transcript(w, s)
  {
    hide Heard, Transcript;
    if w == [] {
      assert v + w == v && r + s == r;
      assert Transcript(w, s) == [] by { TranscriptOfNone(); }
    } else {
      var k := |w| - 1;
      TranscriptAppend(v, r, w[..k], s[..k]);
      SplitLast(v, w);
      SplitLast(r, s);
      TranscriptSnoc(v + w[..k], r + s[..k], w[k], s[k]);
      TranscriptSnoc(w[..k], s[..k], w[k], s[k]);
      Associative(Transcript(v, r), Transcript(w[..k], s[..k]), Heard(w[k], s[k]));
    }
  }

  lemma TranscriptOfNone()
    ensures Transcript([], []) == []
  {}

  lemma SplitLast<T>(a: seq<T>, b: seq<T>)
    requires b != []
    ensures a + b == (a + b[..|b| - 1]) + [b[|b| - 1]] && b == b[..|b| - 1] + [b[|b| - 1]]
  {}

  /** The answers of generations that went as sessions do, with credible verdicts, one to each attempt. */
  ghost predicate Lives(generations: seq<seq<Command>>, v: seq<seq<Verdict>>, r: seq<seq<Reply>>) {
    && |generations| == |v| && Paired(v, r)
    && forall i {:trigger v[i]} | 0 <= i < |v| ::
         Session(generations[i], v[i]).credible && r[i] == Session(generations[i], v[i]).replies
  }

  lemma {:induction false} LivesFlat(generations: seq<seq<Command>>, v: seq<seq<Verdict>>, r: seq<seq<Reply>>)
    requires Lives(generations, v, r)
    ensures AllMatch(Flat(v), Flat(r)) && Chronicle(v, r) == Transcript(Flat(v), Flat(r))
  {
    if v != [] {
      hide Session, Matches, Transcript;
      var k := |v| - 1;
      LivesFlat(generations[..k], v[..k], r[..k]);
      SessionMatches(generations[k], v[k]);
      TranscriptAppend(Flat(v[..k]), Flat(r[..k]), v[k], r[k]);
    }
  }

  /** The shorter of two histories that go on alike is the longer one. */
  lemma FirstDecided(commands: seq<Command>, v: seq<Verdict>, x: seq<Verdict>, w: seq<Verdict>, y: seq<Verdict>)
    requires |Session(commands, v).replies| == |v| && |Session(commands, w).replies| == |w|
    requires v + x == w + y && |v| <= |w|
    ensures v == w && x == y
  {
    assert v == (v + x)[..|v|] == (w + y)[..|v|] == w[..|v|];
    SessionUsesPrefix(commands, v, w);
    assert x == (v + x)[|v|..] && y == (w + y)[|w|..];
  }

  lemma LivesRest(generations: seq<seq<Command>>, v: seq<seq<Verdict>>, r: seq<seq<Reply>>)
    requires Lives(generations, v, r) && v != []
    ensures Lives(generations[1..], v[1..], r[1..]) && |v[0]| == |Session(generations[0], v[0]).replies|
  {
    hide Session;
    assert |v[0]| == |r[0]|;
  }

  lemma {:induction false} GenerationsDecided(generations: seq<seq<Command>>, v: seq<seq<Verdict>>,
                                              r: seq<seq<Reply>>, w: seq<seq<Verdict>>, s: seq<seq<Reply>>)
    requires Lives(generations, v, r) && Lives(generations, w, s) && Flat(v) == Flat(w)
    ensures v == w
  {
    if v != [] {
      hide Session, Flat;
      FlatHead(v);
      FlatHead(w);
      if |v[0]| <= |w[0]| {
        FirstDecided(generations[0], v[0], Flat(v[1..]), w[0], Flat(w[1..]));
      } else {
        FirstDecided(generations[0], w[0], Flat(w[1..]), v[0], Flat(v[1..]));
      }
      LivesRest(generations, v, r);
      LivesRest(generations, w, s);
      GenerationsDecided(generations[1..], v[1..], r[1..], w[1..], s[1..]);
      assert v == [v[0]] + v[1..] && w == [w[0]] + w[1..];
    }
  }

  /** The commands of all generations and the one journal, which does not say where a generation ends, decide
      every verdict and every answer of each. */
  lemma LifetimeDecided(generations: seq<seq<Command>>, v: seq<seq<Verdict>>, r: seq<seq<Reply>>,
                        w: seq<seq<Verdict>>, s: seq<seq<Reply>>)
    requires Lives(generations, v, r) && Lives(generations, w, s) && Chronicle(v, r) == Chronicle(w, s)
    ensures v == w && r == s
  {
    hide Session, Transcript, Matches, Flat;
    LivesFlat(generations, v, r);
    LivesFlat(generations, w, s);
    TranscriptDecides(Flat(v), Flat(r), Flat(w), Flat(s));
    GenerationsDecided(generations, v, r, w, s);
    forall i | 0 <= i < |r| ensures r[i] == s[i] {
      assert v[i] == w[i];
    }
  }
}
