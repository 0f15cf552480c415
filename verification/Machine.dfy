/** What a task does, as far as the runtime can tell. */
module Programs {

  /** The rest of a task's life: return from the entry function, give way to the other tasks,
      or ask for a new task and go on in one of two ways, depending on the status. */
  datatype Program =
    | Done
    | Yield(rest: Program)
    | Spawn(child: Program, stackSize: nat, granted: Program, refused: Program)

  function Size(p: Program): (n: nat)
    ensures n > 0
  {
    match p
    case Done => 1
    case Yield(rest) => 1 + Size(rest)
    case Spawn(child, _, granted, refused) => 1 + Size(child) + Size(granted) + Size(refused)
  }
}

/** The status codes the runtime can answer with. */
module Statuses {
  datatype Status =
    | Success
    | InvalidArgument
    | InvalidState
    | OutOfMemory
    | Unsupported
    | InternalError
    | ResourceExhausted
    | VmReservationFailed
    | VmProtectionFailed
    | PageSizeUnavailable
}

/** What the layers below the runtime have said: every request to one of them is noted with its answer. */
module Journals {
  import opened Statuses

  datatype Layer = Allocation | Reservation | Protection | ContextSetup | EntrySetup | Admission

  datatype Entry = Said(layer: Layer, status: Status)

  class Journal {
    var entries: seq<Entry>

    constructor ()
      ensures entries == []
    {
      entries := [];
    }

    method Note(layer: Layer, status: Status)
      modifies this
      ensures entries == old(entries) + [Said(layer, status)]
    {
      entries := entries + [Said(layer, status)];
    }
  }
}

/** The simple machine: the whole runtime as a sequence of tasks and a set of identifiers.

    There are no links, bitmaps, stacks or contexts here.  The only thing left open is how the
    operating system answers each attempt to create a task; a `seq<Verdict>` fixes that, one
    verdict per attempt. */
module Machine {
  import opened Programs
  import opened Statuses
  import opened Journals
  import opened IdPools

  const CAPACITY: nat := 100000

  datatype Phase = Uninitialized | Initialized | Running | Stopped

  datatype Option<T> = None | Some(value: T)

  datatype TaskRecord = TaskRecord(id: nat, rest: Program)

  /** What the layers below say to one attempt to create a task: the first refusal, if any. */
  datatype Verdict =
    | NoHeap
    | NoReservation(outOfMemory: bool)
    | NoProtection
    | NoContext(status: Status)
    | NoEntry(status: Status)
    | NoAdmission(status: Status)
    | Granted

  datatype Reply = Created(id: nat) | Refused(status: Status)

  /** What happens, in order: a task gets the processor, or the one that has it, or main, is told the answer to its
      request for a task with a stack of `size` bytes. */
  datatype Event = Ran(id: nat) | Told(asker: Option<nat>, size: nat, reply: Reply)

  /** `credible` as long as the layers below can have said what the verdicts make them say. */
  datatype Config = Config(
    phase: Phase,
    current: Option<TaskRecord>,
    ready: seq<TaskRecord>,
    zombies: seq<nat>,
    ids: set<nat>,
    replies: seq<Reply>,
    trace: seq<nat>,
    events: seq<Event>,
    credible: bool)

  const BLANK := Config(Uninitialized, None, [], [], {}, [], [], [], true)

  const FRESH := BLANK.(phase := Initialized)

  // Steps

  function Refusal(v: Verdict): Status
    requires v != Granted
  {
    match v
    case NoHeap => OutOfMemory
    case NoReservation(outOfMemory) => if outOfMemory then OutOfMemory else VmReservationFailed
    case NoProtection => VmProtectionFailed
    case NoContext(status) => status
    case NoEntry(status) => status
    case NoAdmission(status) => status
  }

  /** The layers in the order in which an attempt to create a task asks them. */
  const ORDER: seq<Layer> := [Allocation, Reservation, Protection, ContextSetup, EntrySetup, Admission]

  /** The first `n` layers agree. */
  function Agreed(n: nat): (entries: seq<Entry>)
    requires n <= 6
    ensures |entries| == n
  {
    if n == 0 then [] else Agreed(n - 1) + [Said(ORDER[n - 1], Success)]
  }

  /** How many layers agree before one refuses, if any does. */
  function Passed(v: Verdict): (n: nat)
    ensures n <= 6 && (n == 6 <==> v == Granted)
  {
    match v
    case NoHeap => 0
    case NoReservation(_) => 1
    case NoProtection => 2
    case NoContext(_) => 3
    case NoEntry(_) => 4
    case NoAdmission(_) => 5
    case Granted => 6
  }

  /** What is heard in an attempt: a refusal ends it, and so does the lack of an identifier, for
      which no layer is asked beyond the heap. */
  function Heard(v: Verdict, reply: Reply): seq<Entry> {
    if v != Granted then Agreed(Passed(v)) + [Said(ORDER[Passed(v)], Refusal(v))]
    else if reply.Created? then Agreed(6)
    else Agreed(1)
  }

  /** What is heard in a series of attempts. */
  function Transcript(verdicts: seq<Verdict>, replies: seq<Reply>): seq<Entry>
    requires |verdicts| == |replies|
  {
    if verdicts == [] then []
    else
      var k := |verdicts| - 1;
      Transcript(verdicts[..k], replies[..k]) + Heard(verdicts[k], replies[k])
  }

  /** The answer to a creation attempt: heap first, then an identifier, then stack and context. */
  ghost function Answer(ids: set<nat>, v: Verdict): Reply {
    if v == NoHeap then Refused(OutOfMemory)
    else if LeastFree(ids) >= CAPACITY then Refused(ResourceExhausted)
    else if v == Granted then Created(LeastFree(ids))
    else Refused(Refusal(v))
  }

  /** A refusal is not a success, and with no identifier free no layer beyond the heap is asked. */
  ghost predicate Credible(ids: set<nat>, v: Verdict) {
    && (v != Granted ==> Refusal(v) != Success)
    && (LeastFree(ids) >= CAPACITY ==> v == NoHeap || v == Granted)
  }

  /** This verdict can have been given, and this is the answer to the attempt. */
  ghost predicate Settles(ids: set<nat>, v: Verdict, reply: Reply) {
    Credible(ids, v) && Answer(ids, v) == reply
  }

  lemma TranscriptSnoc(verdicts: seq<Verdict>, replies: seq<Reply>, v: Verdict, reply: Reply)
    requires |verdicts| == |replies|
    ensures Transcript(verdicts + [v], replies + [reply]) == Transcript(verdicts, replies) + Heard(v, reply)
  {
    assert (verdicts + [v])[..|verdicts|] == verdicts && (replies + [reply])[..|replies|] == replies;
  }

  /** Who asks: the current task, or main. */
  function Asker(c: Config): Option<nat> {
    if c.current.Some? then Some(c.current.value.id) else None
  }

  ghost function Create(c: Config, entry: Program, size: nat, v: Verdict): Config {
    var reply := Answer(c.ids, v);
    var c' := c.(replies := c.replies + [reply], events := c.events + [Told(Asker(c), size, reply)],
                 credible := c.credible && Credible(c.ids, v));
    match reply
    case Created(id) => c'.(ready := c.ready + [TaskRecord(id, entry)], ids := c.ids + {id})
    case Refused(_) => c'
  }

  lemma CreateEffect(c: Config, entry: Program, size: nat, v: Verdict)
    ensures var d, reply := Create(c, entry, size, v), Answer(c.ids, v);
            && d.phase == c.phase && d.current == c.current && d.zombies == c.zombies && d.trace == c.trace
            && d.replies == c.replies + [reply] && d.events == c.events + [Told(Asker(c), size, reply)]
            && (reply.Created? ==>
                  && reply.id == LeastFree(c.ids) < CAPACITY
                  && d.ids == c.ids + {reply.id} && d.ready == c.ready + [TaskRecord(reply.id, entry)])
            && (reply.Refused? ==> d.ids == c.ids && d.ready == c.ready)
  {
    hide LeastFree, Credible;
  }

  /** The head of the ready queue gets the processor; with nobody ready, main does. */
  function Dispatch(c: Config): Config {
    if c.ready == [] then c.(phase := Stopped, current := None)
    else c.(current := Some(c.ready[0]), ready := c.ready[1..], trace := c.trace + [c.ready[0].id],
            events := c.events + [Ran(c.ready[0].id)])
  }

  function GiveWay(c: Config, rest: Program): Config
    requires c.current.Some?
  {
    Dispatch(c.(ready := c.ready + [TaskRecord(c.current.value.id, rest)]))
  }

  function Exit(c: Config): Config
    requires c.current.Some?
  {
    Dispatch(c.(zombies := c.zombies + [c.current.value.id]))
  }

  /** One action of the current task. */
  ghost function Step(c: Config, v: Verdict): Config
    requires c.current.Some?
  {
    var me := c.current.value;
    match me.rest
    case Done => Exit(c)
    case Yield(rest) => GiveWay(c, rest)
    case Spawn(child, size, granted, refused) =>
      var c' := Create(c, child, size, v);
      c'.(current := Some(me.(rest := if Answer(c.ids, v).Created? then granted else refused)))
  }

  // Runs

  function TotalSize(tasks: seq<TaskRecord>): nat {
    if tasks == [] then 0 else TotalSize(tasks[..|tasks| - 1]) + Size(tasks[|tasks| - 1].rest)
  }

  /** What is left to do for the tasks that are still alive. */
  function Work(c: Config): nat {
    TotalSize(c.ready) + if c.current.Some? then Size(c.current.value.rest) else 0
  }

  lemma {:induction false} TotalSizeHead(tasks: seq<TaskRecord>)
    requires tasks != []
    ensures TotalSize(tasks) == Size(tasks[0].rest) + TotalSize(tasks[1..])
  {
    if |tasks| > 1 {
      TotalSizeHead(tasks[..|tasks| - 1]);
      assert tasks[..|tasks| - 1][1..] == tasks[1..][..|tasks| - 2];
    } else {
      assert tasks[..0] == [];
    }
  }

  lemma TotalSizeSnoc(tasks: seq<TaskRecord>, t: TaskRecord)
    ensures TotalSize(tasks + [t]) == TotalSize(tasks) + Size(t.rest)
  {
    assert (tasks + [t])[..|tasks|] == tasks;
  }

  lemma DispatchKeepsWork(c: Config)
    ensures Work(Dispatch(c)) == TotalSize(c.ready)
  {
    if c.ready != [] {
      TotalSizeHead(c.ready);
    }
  }

  /** Every action uses up work, so no run of finite programs goes on for ever. */
  lemma StepUsesWork(c: Config, v: Verdict)
    requires c.current.Some?
    ensures Work(Step(c, v)) < Work(c)
  {
    var me := c.current.value;
    match me.rest {
      case Done =>
        DispatchKeepsWork(c.(zombies := c.zombies + [me.id]));
      case Yield(rest) =>
        TotalSizeSnoc(c.ready, TaskRecord(me.id, rest));
        DispatchKeepsWork(c.(ready := c.ready + [TaskRecord(me.id, rest)]));
      case Spawn(child, _, granted, refused) =>
        TotalSizeSnoc(c.ready, TaskRecord(LeastFree(c.ids), child));
    }
  }

  /** The verdict on the next attempt; beyond the end of the record everything is granted. */
  function Next(c: Config, verdicts: seq<Verdict>): Verdict {
    if |c.replies| < |verdicts| then verdicts[|c.replies|] else Granted
  }

  /** Lets the tasks run until main gets the processor back. */
  ghost function Drain(c: Config, verdicts: seq<Verdict>): Config
    decreases Work(c)
  {
    if c.current.None? then c
    else
      StepUsesWork(c, Next(c, verdicts));
      Drain(Step(c, Next(c, verdicts)), verdicts)
  }

  ghost function Reap(c: Config): Config {
    c.(zombies := [], ids := c.ids - set id | id in c.zombies)
  }

  /** Reaping goes through the zombies one at a time. */
  ghost function ReapFirst(c: Config): Config
    requires c.zombies != []
  {
    c.(zombies := c.zombies[1..], ids := c.ids - {c.zombies[0]})
  }

  lemma ReapInTurn(c: Config)
    ensures c.zombies == [] ==> Reap(c) == c
    ensures c.zombies != [] ==> Reap(ReapFirst(c)) == Reap(c)
  {
    if c.zombies != [] {
      assert forall id :: id in c.zombies <==> id == c.zombies[0] || id in c.zombies[1..];
      assert (set id | id in c.zombies) == {c.zombies[0]} + set id | id in c.zombies[1..];
    } else {
      assert (set id | id in c.zombies) == {};
    }
  }

  /** A whole call of `gt_run` from main. */
  ghost function Run(c: Config, verdicts: seq<Verdict>): Config {
    Reap(Drain(Dispatch(c.(phase := Running)), verdicts))
  }

  // Sessions

  datatype Command = CreateTask(entry: Program, stackSize: nat) | RunTasks

  ghost function Perform(c: Config, command: Command, verdicts: seq<Verdict>): Config {
    match command
    case CreateTask(entry, size) => Create(c, entry, size, Next(c, verdicts))
    case RunTasks => Run(c, verdicts)
  }

  /** One generation of the runtime: everything main asks for between init and destroy. */
  ghost function Session(commands: seq<Command>, verdicts: seq<Verdict>): Config {
    if commands == [] then FRESH
    else Perform(Session(commands[..|commands| - 1], verdicts), commands[|commands| - 1], verdicts)
  }
}
