/** Each task goes through its program exactly once, from the root to one leaf. */
module Walks {
  import opened Programs
  import opened Machine
  import opened IdPools
  import opened Conservation
  import Fairness

  // The path of one task

  /** The event is a dispatch of the task, or the answer to a request of its own. */
  predicate Concerns(e: Event, id: nat) {
    match e
    case Ran(i) => i == id
    case Told(asker, _, _) => asker == Some(id)
  }

  /** The events of one task, in order. */
  function Of(events: seq<Event>, id: nat): seq<Event> {
    if events == [] then []
    else (if Concerns(events[0], id) then [events[0]] else []) + Of(events[1..], id)
  }

  /** What happens to a task that goes on with `p`, from its place on the processor to its end: it comes back after
      each yield, and at each request it asks for the stack the program says and goes on as it is answered. */
  predicate Follows(p: Program, es: seq<Event>) {
    match p
    case Done => es == []
    case Yield(rest) => es != [] && es[0].Ran? && Follows(rest, es[1..])
    case Spawn(_, size, granted, refused) =>
      && es != [] && es[0].Told? && es[0].size == size
      && Follows(if es[0].reply.Created? then granted else refused, es[1..])
  }

  /** The tasks created on the way, each with the identifier it got. */
  function Children(p: Program, es: seq<Event>): seq<TaskRecord>
    requires Follows(p, es)
  {
    match p
    case Done => []
    case Yield(rest) => Children(rest, es[1..])
    case Spawn(child, _, granted, refused) =>
      if es[0].reply.Created? then [TaskRecord(es[0].reply.id, child)] + Children(granted, es[1..])
      else Children(refused, es[1..])
  }

  // All tasks of a run

  ghost function Born(events: seq<Event>): set<nat> {
    set e | e in events && e.Told? && e.reply.Created? :: e.reply.id
  }

  /** The events that are left once a waiting task has got the processor. */
  function Onward(waits: bool, es: seq<Event>): seq<Event>
    requires waits ==> es != []
  {
    if waits then es[1..] else es
  }

  /** The task follows its program to the end, and its children are those of the table. */
  ghost predicate Lives(programs: map<nat, Program>, id: nat, waits: bool, events: seq<Event>)
    requires id in programs
  {
    var es := Of(events, id);
    && (waits ==> es != [] && es[0].Ran?)
    && Follows(programs[id], Onward(waits, es))
    && forall t | t in Children(programs[id], Onward(waits, es)) :: t.id in programs && programs[t.id] == t.rest
  }

  ghost predicate Listed(programs: map<nat, Program>, tasks: seq<TaskRecord>) {
    forall t | t in tasks :: t.id in programs && programs[t.id] == t.rest
  }

  function Holder(current: Option<TaskRecord>): seq<TaskRecord> {
    if current.Some? then [current.value] else []
  }

  function Waits(current: Option<TaskRecord>, id: nat): bool {
    current.None? || current.value.id != id
  }

  /** The table has the program of every task that is alive at first or born later, each of them follows it to the
      end, and nothing else happens. */
  ghost predicate Accounts(programs: map<nat, Program>, current: Option<TaskRecord>, queue: seq<TaskRecord>,
                           events: seq<Event>)
  {
    && Listed(programs, Holder(current) + queue)
    && (forall id | id in programs :: id in Ids(Holder(current) + queue) || id in Born(events))
    && (forall id | id in programs :: Lives(programs, id, Waits(current, id), events))
    && (forall e | e in events :: exists id :: id in programs && Concerns(e, id))
  }

  /** From when these tasks wait until none is left, exactly these events happen: each task, and each task born on
      the way, gets the processor and then follows its program to the end. */
  ghost predicate Walked(queue: seq<TaskRecord>, events: seq<Event>) {
    exists programs :: Accounts(programs, None, queue, events)
  }

  // One event more

  lemma OfCons(e: Event, events: seq<Event>, id: nat)
    ensures Of([e] + events, id) == (if Concerns(e, id) then [e] else []) + Of(events, id)
  {
    assert ([e] + events)[1..] == events;
  }

  lemma {:induction false} OfMember(events: seq<Event>, id: nat, e: Event)
    requires e in Of(events, id)
    ensures e in events
  {
    if e != events[0] {
      OfMember(events[1..], id, e);
    }
  }

  lemma {:induction false} OfNothing(events: seq<Event>, id: nat)
    requires forall e | e in events :: !Concerns(e, id)
    ensures Of(events, id) == []
  {
    if events != [] {
      OfNothing(events[1..], id);
    }
  }

  lemma BornCons(e: Event, events: seq<Event>)
    ensures Born([e] + events) == Born(events) + if e.Told? && e.reply.Created? then {e.reply.id} else {}
  {}

  /** Children are born in the events that tell of them. */
  lemma {:induction false} ChildrenAreBorn(p: Program, es: seq<Event>, events: seq<Event>, t: TaskRecord)
    requires Follows(p, es) && t in Children(p, es) && forall e | e in es :: e in events
    ensures t.id in Born(events)
  {
    match p
    case Done =>
    case Yield(rest) => ChildrenAreBorn(rest, es[1..], events, t);
    case Spawn(child, _, granted, refused) =>
      assert es[0] in events;
      if es[0].reply.Created? {
        if t != TaskRecord(es[0].reply.id, child) {
          ChildrenAreBorn(granted, es[1..], events, t);
        }
      } else {
        ChildrenAreBorn(refused, es[1..], events, t);
      }
  }

  /** A task lives on in a table that differs in the program of a task not born later. */
  lemma LivesOn(programs: map<nat, Program>, id: nat, waits: bool, events: seq<Event>, other: nat, p: Program)
    requires id in programs && id != other && Lives(programs, id, waits, events) && other !in Born(events)
    ensures Lives(programs[other := p], id, waits, events)
  {
    hide Follows, Children, Born;
    var es := Onward(waits, Of(events, id));
    forall t | t in Children(programs[id], es) ensures t.id != other {
      forall e | e in es ensures e in events {
        OfMember(events, id, e);
      }
      ChildrenAreBorn(programs[id], es, events, t);
    }
  }

  lemma LivesElsewhere(programs: map<nat, Program>, id: nat, waits: bool, e: Event, events: seq<Event>)
    requires id in programs && !Concerns(e, id) && Lives(programs, id, waits, events)
    ensures Lives(programs, id, waits, [e] + events)
  {
    hide Follows, Children;
    OfCons(e, events, id);
    assert Of([e] + events, id) == Of(events, id);
  }

  // The steps

  /** The first task of the queue gets the processor. */
  lemma DispatchWalks(programs: map<nat, Program>, queue: seq<TaskRecord>, later: seq<Event>)
    requires queue != [] && Accounts(programs, Some(queue[0]), queue[1..], later)
    ensures Accounts(programs, None, queue, [Ran(queue[0].id)] + later)
  {
    hide Lives, Born, Of;
    var e := Ran(queue[0].id);
    assert Holder(Some(queue[0])) + queue[1..] == queue == Holder(None) + queue;
    BornCons(e, later);
    forall id | id in programs ensures Lives(programs, id, true, [e] + later) {
      if id == queue[0].id {
        assert Lives(programs, id, false, later);
        DispatchedLives(programs, id, later);
      } else {
        LivesElsewhere(programs, id, true, e, later);
      }
    }
    forall f | f in [e] + later ensures exists id :: id in programs && Concerns(f, id) {
      if f == e {
        assert queue[0] in queue && queue[0].id in programs && Concerns(e, queue[0].id);
      }
    }
  }

  lemma DispatchedLives(programs: map<nat, Program>, id: nat, later: seq<Event>)
    requires id in programs && Lives(programs, id, false, later)
    ensures Lives(programs, id, true, [Ran(id)] + later)
  {
    hide Follows, Children;
    OfCons(Ran(id), later, id);
  }

  lemma IdsHas(tasks: seq<TaskRecord>, t: TaskRecord)
    requires t in tasks
    ensures t.id in Ids(tasks)
  {
    var i :| 0 <= i < |tasks| && tasks[i] == t;
    assert Ids(tasks)[i] == t.id;
  }

  lemma IdsFrom(tasks: seq<TaskRecord>, id: nat)
    requires id in Ids(tasks)
    ensures exists t :: t in tasks && t.id == id
  {
    var i :| 0 <= i < |tasks| && Ids(tasks)[i] == id;
    assert tasks[i] in tasks;
  }

  /** The current task has returned: nothing more is heard of it. */
  lemma DoneWalks(programs: map<nat, Program>, me: TaskRecord, queue: seq<TaskRecord>, events: seq<Event>)
    requires Accounts(programs, None, queue, events) && me.rest == Done
    requires me.id !in Ids(queue) && me.id !in Born(events)
    ensures Accounts(programs[me.id := Done], Some(me), queue, events)
  {
    hide Lives, Born, Ids;
    assert Holder(None) + queue == queue;
    assert me.id !in programs;
    var all := programs[me.id := Done];
    forall e | e in events ensures !Concerns(e, me.id) && exists id :: id in all && Concerns(e, id) {
      var id :| id in programs && Concerns(e, id);
      assert id in all;
    }
    OfNothing(events, me.id);
    assert Lives(all, me.id, false, events) by { DoneLives(all, me.id, events); }
    forall id | id in all && id != me.id ensures Lives(all, id, true, events) {
      LivesOn(programs, id, true, events, me.id, Done);
    }
    CurrentListed(programs, me, queue, Done);
  }

  lemma DoneLives(programs: map<nat, Program>, id: nat, events: seq<Event>)
    requires id in programs && programs[id] == Done && Of(events, id) == []
    ensures Lives(programs, id, false, events)
  {}

  /** The table with the program of the current task. */
  lemma CurrentListed(programs: map<nat, Program>, me: TaskRecord, queue: seq<TaskRecord>, p: Program)
    requires Listed(programs, queue) && me.id !in Ids(queue) && me.rest == p
    ensures Listed(programs[me.id := p], Holder(Some(me)) + queue)
    ensures me.id in Ids(Holder(Some(me)) + queue)
    ensures forall id | id in Ids(queue) :: id in Ids(Holder(Some(me)) + queue)
  {
    hide Ids;
    var all := Holder(Some(me)) + queue;
    forall t | t in all ensures t.id in programs[me.id := p] && programs[me.id := p][t.id] == t.rest {
      if t in queue {
        IdsHas(queue, t);
      }
    }
    IdsHas(all, me);
    forall id | id in Ids(queue) ensures id in Ids(all) {
      IdsFrom(queue, id);
      var t :| t in queue && t.id == id;
      IdsHas(all, t);
    }
  }

  /** The current task has given way: it will be back. */
  lemma YieldWalks(programs: map<nat, Program>, me: TaskRecord, queue: seq<TaskRecord>, rest: Program,
                   events: seq<Event>)
    requires Accounts(programs, None, queue + [TaskRecord(me.id, rest)], events) && me.rest == Yield(rest)
    requires me.id !in Ids(queue) && me.id !in Born(events)
    ensures Accounts(programs[me.id := me.rest], Some(me), queue, events)
  {
    hide Lives, Born, Ids, Listed;
    var again := TaskRecord(me.id, rest);
    var all := programs[me.id := me.rest];
    assert Holder(None) + (queue + [again]) == queue + [again];
    WithoutLast(programs, queue, again);
    assert Lives(all, me.id, false, events) by {
      YieldLives(programs, me.id, rest, events);
    }
    forall id | id in all && id != me.id ensures Lives(all, id, true, events) {
      LivesOn(programs, id, true, events, me.id, me.rest);
    }
    CurrentListed(programs, me, queue, me.rest);
    forall e | e in events ensures exists id :: id in all && Concerns(e, id) {
      var id :| id in programs && Concerns(e, id);
      assert id in all;
    }
  }

  lemma WithoutLast(programs: map<nat, Program>, queue: seq<TaskRecord>, last: TaskRecord)
    requires Listed(programs, queue + [last])
    ensures Listed(programs, queue) && last.id in programs && programs[last.id] == last.rest
    ensures forall id | id in Ids(queue + [last]) && id != last.id :: id in Ids(queue)
  {
    assert last in queue + [last];
    assert forall t | t in queue :: t in queue + [last];
    IdsSnoc(queue, last);
  }

  lemma YieldLives(programs: map<nat, Program>, id: nat, rest: Program, events: seq<Event>)
    requires id in programs && programs[id] == rest && Lives(programs, id, true, events) && id !in Born(events)
    ensures Lives(programs[id := Yield(rest)], id, false, events)
  {
    hide Born;
    var es := Of(events, id);
    assert Follows(Yield(rest), es) && Children(Yield(rest), es) == Children(rest, es[1..]);
    forall t | t in Children(rest, es[1..]) ensures t.id != id {
      forall e | e in es[1..] ensures e in events {
        OfMember(events, id, e);
      }
      ChildrenAreBorn(rest, es[1..], events, t);
    }
  }

  /** The current task has been told the answer to its request. */
  lemma SpawnWalks(programs: map<nat, Program>, me: TaskRecord, queue: seq<TaskRecord>, reply: Reply,
                   later: seq<Event>)
    requires me.rest.Spawn?
    requires var next := if reply.Created? then me.rest.granted else me.rest.refused;
             var born := if reply.Created? then [TaskRecord(reply.id, me.rest.child)] else [];
             Accounts(programs, Some(TaskRecord(me.id, next)), queue + born, later)
    requires me.id !in Ids(queue) && me.id !in Born(later) && (reply.Created? ==> reply.id != me.id)
    ensures Accounts(programs[me.id := me.rest], Some(me), queue, [Told(Some(me.id), me.rest.stackSize, reply)] + later)
  {
    hide Lives, Born, Ids;
    var next := TaskRecord(me.id, if reply.Created? then me.rest.granted else me.rest.refused);
    var born := if reply.Created? then [TaskRecord(reply.id, me.rest.child)] else [];
    var e := Told(Some(me.id), me.rest.stackSize, reply);
    var all := programs[me.id := me.rest];
    BornCons(e, later);
    assert next in Holder(Some(next)) + (queue + born);
    assert forall t | t in queue + born :: t in Holder(Some(next)) + (queue + born);
    SpawnLives(programs, me, reply, later);
    forall id | id in all && id != me.id ensures Lives(all, id, true, [e] + later) {
      LivesOn(programs, id, true, later, me.id, me.rest);
      LivesElsewhere(all, id, true, e, later);
    }
    CurrentListed(programs, me, queue, me.rest);
    forall id | id in all ensures id in Ids(Holder(Some(me)) + queue) || id in Born([e] + later) {
      if id != me.id && id !in Born(later) {
        IdsFrom(Holder(Some(next)) + (queue + born), id);
        var t :| t in Holder(Some(next)) + (queue + born) && t.id == id;
        if t in queue {
          IdsHas(queue, t);
        }
      }
    }
    forall f | f in [e] + later ensures exists id :: id in all && Concerns(f, id) {
      if f == e {
        assert me.id in all && Concerns(e, me.id);
      } else {
        var id :| id in programs && Concerns(f, id);
        assert id in all;
      }
    }
  }

  lemma SpawnLives(programs: map<nat, Program>, me: TaskRecord, reply: Reply, later: seq<Event>)
    requires me.rest.Spawn? && me.id in programs && Lives(programs, me.id, false, later)
    requires programs[me.id] == if reply.Created? then me.rest.granted else me.rest.refused
    requires reply.Created? ==> reply.id in programs && programs[reply.id] == me.rest.child && reply.id != me.id
    requires me.id !in Born(later)
    ensures Lives(programs[me.id := me.rest], me.id, false, [Told(Some(me.id), me.rest.stackSize, reply)] + later)
  {
    hide Born;
    var e := Told(Some(me.id), me.rest.stackSize, reply);
    var es := Of(later, me.id);
    OfCons(e, later, me.id);
    assert ([e] + es)[1..] == es;
    assert Follows(me.rest, [e] + es);
    forall t | t in Children(programs[me.id], es) ensures t.id != me.id {
      forall f | f in es ensures f in later {
        OfMember(later, me.id, f);
      }
      ChildrenAreBorn(programs[me.id], es, later, t);
    }
  }

  // Runs

  lemma Suffix<T>(a: seq<T>, e: seq<T>, r: seq<T>)
    requires a + e <= r
    ensures a <= r && r[|a|..] == e + r[|a + e|..]
  {
    assert a == (a + e)[..|a|] == r[..|a + e|][..|a|] == r[..|a|];
    assert r[|a|..] == r[|a|..][..|e|] + r[|a|..][|e|..];
    assert r[|a|..][..|e|] == (a + e)[|a|..] == e;
  }

  lemma AliveIsHeld(c: Config)
    requires Consistent(c)
    ensures forall t | t in c.ready :: t.id in c.ids
    ensures c.current.Some? ==> c.current.value.id in c.ids && c.current.value.id !in Ids(c.ready)
  {
    forall t | t in c.ready ensures t.id in c.ids {
      IdsHas(c.ready, t);
      assert t.id in multiset(Ids(c.ready)) && t.id in Owned(c) && t.id in multiset(c.ids);
    }
    if c.current.Some? {
      var me := c.current.value.id;
      assert CurrentIds(c) == [me];
      assert me in multiset(CurrentIds(c)) && me in Owned(c) && me in multiset(c.ids);
      forall i | 0 <= i < |c.ready| ensures Ids(c.ready)[i] != me {
        Fairness.WaitingIsNotCurrent(c, i);
      }
    }
  }

  /** The next task of a queue has been dispatched: how its events account for the whole queue. */
  lemma OnwardWalks(c: Config, queue: seq<TaskRecord>, d: Config, r: Config, later: map<nat, Program>)
    requires d.events == c.events + if queue == [] then [] else [Ran(queue[0].id)]
    requires if queue == [] then d.current == None && d.ready == []
             else d.current == Some(queue[0]) && d.ready == queue[1..]
    requires d.events <= r.events && Accounts(later, d.current, d.ready, r.events[|d.events|..])
    ensures c.events <= r.events && Accounts(later, None, queue, r.events[|c.events|..])
    ensures Born(r.events[|c.events|..]) == Born(r.events[|d.events|..])
  {
    hide Accounts, Born;
    Suffix(c.events, d.events[|c.events|..], r.events);
    assert d.events[|c.events|..] == if queue == [] then [] else [Ran(queue[0].id)];
    assert c.events + d.events[|c.events|..] == d.events;
    if queue == [] {
      assert r.events[|c.events|..] == r.events[|d.events|..];
    } else {
      DispatchWalks(later, queue, r.events[|d.events|..]);
      BornCons(Ran(queue[0].id), r.events[|d.events|..]);
    }
  }

  lemma DoneEvents(c: Config, v: Verdict)
    requires c.current.Some? && c.current.value.rest.Done?
    ensures var d := Step(c, v);
            && d.events == c.events + (if c.ready == [] then [] else [Ran(c.ready[0].id)]) && d.ids == c.ids
            && if c.ready == [] then d.current == None && d.ready == []
               else d.current == Some(c.ready[0]) && d.ready == c.ready[1..]
  {}

  lemma YieldEvents(c: Config, v: Verdict)
    requires c.current.Some? && c.current.value.rest.Yield?
    ensures var d, queue := Step(c, v), c.ready + [TaskRecord(c.current.value.id, c.current.value.rest.rest)];
            && d.events == c.events + [Ran(queue[0].id)] && d.ids == c.ids
            && d.current == Some(queue[0]) && d.ready == queue[1..]
  {}

  lemma SpawnEvents(c: Config, v: Verdict)
    requires c.current.Some? && c.current.value.rest.Spawn?
    ensures var d, reply, me := Step(c, v), Answer(c.ids, v), c.current.value;
            && d.events == c.events + [Told(Some(me.id), me.rest.stackSize, reply)]
            && d.current == Some(TaskRecord(me.id, if reply.Created? then me.rest.granted else me.rest.refused))
            && d.ready == c.ready + (if reply.Created? then [TaskRecord(reply.id, me.rest.child)] else [])
            && d.ids == c.ids + (if reply.Created? then {reply.id} else {})
            && (reply.Created? ==> reply.id !in c.ids)
  {
    hide Answer, LeastFree;
    CreateEffect(c, c.current.value.rest.child, c.current.value.rest.stackSize, v);
  }

  /** Whatever the layers below say, each task that is alive, or born until main is back, follows its program. */
  lemma {:induction false} DrainWalks(c: Config, verdicts: seq<Verdict>) returns (programs: map<nat, Program>)
    requires Consistent(c) && (c.current.None? ==> c.ready == [])
    ensures var r := Drain(c, verdicts);
            && c.events <= r.events && Accounts(programs, c.current, c.ready, r.events[|c.events|..])
            && forall id | id in Born(r.events[|c.events|..]) :: id !in c.ids
    decreases Work(c)
  {
    hide Step, Drain, Consistent, Accounts, Born, Answer, LeastFree, Ids;
    if c.current.None? {
      programs := map[];
      NobodyWalks(c, verdicts);
    } else {
      var v, me := Next(c, verdicts), c.current.value;
      var d := Step(c, v);
      StepUsesWork(c, v);
      StepKeeps(c, v);
      Fairness.DrainUnfolds(c, verdicts);
      var r := Drain(c, verdicts);
      MainIsLast(c, v);
      programs := DrainWalks(d, verdicts);
      AliveIsHeld(c);
      match me.rest {
        case Done =>
          DoneEvents(c, v);
          OnwardWalks(c, c.ready, d, r, programs);
          DoneWalks(programs, me, c.ready, r.events[|c.events|..]);
        case Yield(rest) =>
          YieldEvents(c, v);
          OnwardWalks(c, c.ready + [TaskRecord(me.id, rest)], d, r, programs);
          YieldWalks(programs, me, c.ready, rest, r.events[|c.events|..]);
        case Spawn(_, size, _, _) =>
          SpawnEvents(c, v);
          var reply, later := Answer(c.ids, v), r.events[|d.events|..];
          Suffix(c.events, [Told(Some(me.id), size, reply)], r.events);
          BornCons(Told(Some(me.id), size, reply), later);
          SpawnWalks(programs, me, c.ready, reply, later);
      }
      programs := programs[me.id := me.rest];
    }
  }

  lemma NobodyWalks(c: Config, verdicts: seq<Verdict>)
    requires c.current.None? && c.ready == []
    ensures var r := Drain(c, verdicts);
            && c.events <= r.events && Accounts(map[], None, [], r.events[|c.events|..])
            && Born(r.events[|c.events|..]) == {}
  {
    assert Drain(c, verdicts).events[|c.events|..] == [];
  }

  lemma MainIsLast(c: Config, v: Verdict)
    requires c.current.Some?
    ensures Step(c, v).current.None? ==> Step(c, v).ready == []
  {
    Fairness.StepExtendsOrder(c, v);
    if c.current.value.rest.Spawn? {
      SpawnEvents(c, v);
    }
  }

  /** A run: each task that waits, and each task born meanwhile, gets the processor and then follows its program from
      the root to one leaf, coming back after each yield and taking the branch it was told; its children run what its
      program says; and nothing else happens. */
  lemma RunWalks(c: Config, verdicts: seq<Verdict>)
    requires Consistent(c) && c.current.None?
    ensures var r := Run(c, verdicts);
            c.events <= r.events && Walked(c.ready, r.events[|c.events|..])
  {
    hide Drain, Consistent, Accounts, Born, Dispatch;
    var start := c.(phase := Running);
    var d := Dispatch(start);
    StartKeeps(c);
    DispatchKeeps(start);
    DispatchEvents(start);
    var programs := DrainWalks(d, verdicts);
    OnwardWalks(c, c.ready, d, Drain(d, verdicts), programs);
  }

  lemma StartKeeps(c: Config)
    requires Consistent(c)
    ensures Consistent(c.(phase := Running))
  {
    assert Owned(c.(phase := Running)) == Owned(c);
  }

  lemma DispatchEvents(c: Config)
    requires c.current.None?
    ensures var d := Dispatch(c);
            && d.events == c.events + (if c.ready == [] then [] else [Ran(c.ready[0].id)])
            && if c.ready == [] then d.current == None && d.ready == []
               else d.current == Some(c.ready[0]) && d.ready == c.ready[1..]
  {}

  // Sessions

  /** Command by command: a creation by main asks for the stack of the command, and a task that is granted waits
      behind the others with the entry of the command; a run is walked through to the end. */
  lemma SessionWalks(commands: seq<Command>, verdicts: seq<Verdict>, k: nat)
    requires k < |commands|
    ensures var c, d := Session(commands[..k], verdicts), Session(commands[..k + 1], verdicts);
            match commands[k]
            case CreateTask(entry, size) =>
              && |d.replies| == |c.replies| + 1
              && var reply := d.replies[|c.replies|];
                 && d.events == c.events + [Told(None, size, reply)] && d.trace == c.trace
                 && d.ready == c.ready + if reply.Created? then [TaskRecord(reply.id, entry)] else []
            case RunTasks =>
              && c.events <= d.events && Walked(c.ready, d.events[|c.events|..]) && d.ready == []
  {
    hide Create, Answer, Run, Walked, Consistent;
    assert commands[..k + 1][..k] == commands[..k] && commands[..k + 1][k] == commands[k];
    SessionKeeps(commands[..k], verdicts);
    var c := Session(commands[..k], verdicts);
    match commands[k] {
      case CreateTask(entry, size) =>
        CreateEffect(c, entry, size, Next(c, verdicts));
      case RunTasks =>
        RunWalks(c, verdicts);
        RunKeeps(c, verdicts);
    }
  }

  // The records of dispatches and answers are those of the events

  function Dispatches(events: seq<Event>): seq<nat> {
    if events == [] then []
    else
      var e := events[|events| - 1];
      Dispatches(events[..|events| - 1]) + if e.Ran? then [e.id] else []
  }

  function Answers(events: seq<Event>): seq<Reply> {
    if events == [] then []
    else
      var e := events[|events| - 1];
      Answers(events[..|events| - 1]) + if e.Told? then [e.reply] else []
  }

  ghost predicate Tallies(c: Config) {
    c.trace == Dispatches(c.events) && c.replies == Answers(c.events)
  }

  lemma EventAdded(events: seq<Event>, e: Event)
    ensures Dispatches(events + [e]) == Dispatches(events) + if e.Ran? then [e.id] else []
    ensures Answers(events + [e]) == Answers(events) + if e.Told? then [e.reply] else []
  {
    assert (events + [e])[..|events|] == events;
  }

  lemma DispatchTallies(c: Config)
    requires Tallies(c)
    ensures Tallies(Dispatch(c))
  {
    hide Dispatches, Answers;
    if c.ready != [] {
      EventAdded(c.events, Ran(c.ready[0].id));
    }
  }

  lemma CreateTallies(c: Config, entry: Program, size: nat, v: Verdict)
    requires Tallies(c)
    ensures Tallies(Create(c, entry, size, v))
  {
    hide Dispatches, Answers, Create, Answer;
    CreateEffect(c, entry, size, v);
    EventAdded(c.events, Told(Asker(c), size, Answer(c.ids, v)));
  }

  lemma {:induction false} DrainTallies(c: Config, verdicts: seq<Verdict>)
    requires Tallies(c)
    ensures Tallies(Drain(c, verdicts))
    decreases Work(c)
  {
    if c.current.Some? {
      hide Dispatches, Answers, Create, Answer, Dispatch;
      var v, me := Next(c, verdicts), c.current.value;
      StepUsesWork(c, v);
      match me.rest {
        case Done => DispatchTallies(c.(zombies := c.zombies + [me.id]));
        case Yield(rest) => DispatchTallies(c.(ready := c.ready + [TaskRecord(me.id, rest)]));
        case Spawn(child, size, _, _) => CreateTallies(c, child, size, v);
      }
      DrainTallies(Step(c, v), verdicts);
    }
  }

  /** In every session the trace lists the dispatches among the events, and the replies the answers. */
  lemma {:induction false} SessionTallies(commands: seq<Command>, verdicts: seq<Verdict>)
    ensures Tallies(Session(commands, verdicts))
  {
    hide Dispatch, Create, Drain;
    if commands != [] {
      var before := Session(commands[..|commands| - 1], verdicts);
      SessionTallies(commands[..|commands| - 1], verdicts);
      match commands[|commands| - 1] {
        case CreateTask(entry, size) =>
          CreateTallies(before, entry, size, Next(before, verdicts));
        case RunTasks =>
          DispatchTallies(before.(phase := Running));
          DrainTallies(Dispatch(before.(phase := Running)), verdicts);
      }
    }
  }
}
