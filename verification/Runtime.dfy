/** The runtime over its real structures: linked queues and lists, bitmap identifiers, stacks and heap blocks. */
module Runtimes {
  import opened Programs
  import opened Statuses
  import opened Journals
  import opened Sequences
  import opened Lists
  import opened Words
  import opened Bitmaps
  import opened IdPools
  import opened Pages
  import opened VirtualMemory
  import opened Stacks
  import opened Tasks
  import opened Machine
  import Conservation
  import Fairness
  import Rounds
  import Density
  import Evidence
  import Walks
  import Memories
  import Contexts

  /** The machine after a granted creation. */
  function Granting(c: Config, id: nat, entry: Program, size: nat): Config {
    c.(replies := c.replies + [Created(id)], events := c.events + [Told(Asker(c), size, Created(id))],
       ready := c.ready + [TaskRecord(id, entry)], ids := c.ids + {id})
  }

  /** The machine after a refused creation. */
  function Refusing(c: Config, status: Status, size: nat): Config {
    c.(replies := c.replies + [Refused(status)], events := c.events + [Told(Asker(c), size, Refused(status))])
  }

  lemma CreateCases(c: Config, entry: Program, size: nat, v: Verdict)
    requires c.credible && Credible(c.ids, v)
    ensures match Answer(c.ids, v)
            case Created(id) => Create(c, entry, size, v) == Granting(c, id, entry, size)
            case Refused(status) => Create(c, entry, size, v) == Refusing(c, status, size)
  {
    hide Answer, Credible;
  }

  lemma GrantingFields(c: Config, id: nat, entry: Program, size: nat)
    ensures var d := Granting(c, id, entry, size);
            && d.phase == c.phase && d.current == c.current && d.ids == c.ids + {id}
            && d.replies == c.replies + [Created(id)] && d.trace == c.trace && d.credible == c.credible
            && d.events == c.events + [Told(Asker(c), size, Created(id))]
  {}

  /** No stack size a program asks for wraps when it is rounded up and given its guard pages. */
  predicate Modest(p: Program, page: nat) {
    match p
    case Done => true
    case Yield(rest) => Modest(rest, page)
    case Spawn(child, size, granted, refused) =>
      Legal(size, page) && Modest(child, page) && Modest(granted, page) && Modest(refused, page)
  }

  ghost predicate AllModest(c: Config, page: nat) {
    && (forall i | 0 <= i < |c.ready| :: Modest(c.ready[i].rest, page))
    && (c.current.Some? ==> Modest(c.current.value.rest, page))
  }

  /** The stack sizes main asks for, and those its tasks will ask for, do not wrap. */
  predicate ModestCommand(command: Command, page: nat) {
    match command
    case CreateTask(entry, stackSize) => Legal(stackSize, page) && Modest(entry, page)
    case RunTasks => true
  }

  lemma CreateStaysModest(c: Config, entry: Program, size: nat, v: Verdict, page: nat)
    requires AllModest(c, page) && Modest(entry, page)
    ensures AllModest(Create(c, entry, size, v), page) && Create(c, entry, size, v).phase == c.phase
  {
    hide Answer, Modest;
  }

  lemma StaysModest(c: Config, v: Verdict, page: nat)
    requires c.current.Some? && AllModest(c, page)
    ensures AllModest(Step(c, v), page)
  {
    hide Answer, Legal, Create;
    if c.current.value.rest.Spawn? {
      CreateEffect(c, c.current.value.rest.child, c.current.value.rest.stackSize, v);
    }
  }

  /** Each task of `blocks` has its identifier to itself, and `byId` finds it. */
  ghost predicate NamesAgree(byId: map<nat, Task>, blocks: set<Task>)
    reads blocks`id
  {
    && (forall t | t in blocks :: t.id in byId && byId[t.id] == t)
    && (forall i | i in byId :: byId[i] in blocks && byId[i].id == i)
  }

  /** Each task of `blocks` has its mapping to itself, and `byBase` finds it. */
  ghost predicate BasesAgree(byBase: map<nat, Task>, blocks: set<Task>, live: map<nat, Region>, page: nat)
    reads blocks`stack, blocks`request
  {
    && live.Keys == byBase.Keys
    && (forall t | t in blocks ::
          && t.stack.mapping.base in byBase && byBase[t.stack.mapping.base] == t
          && live[t.stack.mapping.base] == RegionOf(t.stack) && Serves(t.stack, t.request, page))
    && (forall b | b in byBase :: byBase[b] in blocks && byBase[b].stack.mapping.base == b)
  }

  lemma NamesAdd(byId: map<nat, Task>, blocks: set<Task>, t: Task)
    requires NamesAgree(byId, blocks) && t !in blocks && t.id !in byId
    ensures NamesAgree(byId[t.id := t], blocks + {t})
    ensures |byId[t.id := t]| == |byId| + 1
  {}

  lemma NamesRemove(byId: map<nat, Task>, blocks: set<Task>, t: Task)
    requires NamesAgree(byId, blocks) && t in blocks
    ensures NamesAgree(byId - {t.id}, blocks - {t})
    ensures |byId - {t.id}| == |byId| - 1
  {
    assert byId.Keys == (byId - {t.id}).Keys + {t.id};
    assert |byId.Keys| == |byId|;
    assert |(byId - {t.id}).Keys| == |byId - {t.id}|;
  }

  lemma BasesAdd(byBase: map<nat, Task>, blocks: set<Task>, live: map<nat, Region>, page: nat, t: Task)
    requires BasesAgree(byBase, blocks, live, page) && Serves(t.stack, t.request, page)
    requires t !in blocks && t.stack.mapping.base !in live
    ensures BasesAgree(byBase[t.stack.mapping.base := t], blocks + {t},
                       live[t.stack.mapping.base := RegionOf(t.stack)], page)
  {}

  lemma BasesRemove(byBase: map<nat, Task>, blocks: set<Task>, live: map<nat, Region>, page: nat, t: Task)
    requires BasesAgree(byBase, blocks, live, page) && t in blocks
    ensures BasesAgree(byBase - {t.stack.mapping.base}, blocks - {t}, live - {t.stack.mapping.base}, page)
  {}

  lemma {:induction false} AtMostOnce(s: seq<nat>, x: nat)
    requires Distinct(s)
    ensures multiset(s)[x] == if x in s then 1 else 0
  {
    if s != [] {
      var front, last := s[..|s| - 1], s[|s| - 1];
      assert s == front + [last];
      AtMostOnce(front, x);
    }
  }

  lemma OnceEach(s: seq<nat>, names: set<nat>)
    requires Distinct(s) && (forall x | x in s :: x in names) && (forall x | x in names :: x in s)
    ensures multiset(s) == multiset(names)
  {
    forall x: nat ensures multiset(s)[x] == multiset(names)[x] {
      AtMostOnce(s, x);
    }
  }

  /** `struct gt_runtime`, with the heap and the virtual memory it draws on.

      `rq`, `ts` and `zs` are the tasks linked in the ready queue, the task list and the zombie
      list, in order; `byId` and `byBase` say which task holds an identifier or a mapping.
      `dispatched` are the identifiers of the tasks that have got the processor since init, in order,
      `answered` the answers to the creation attempts, `events` both, with who asked for what.  `model` is the
      state of the simple machine this state stands for, `verdicts` what the layers below have said to each attempt,
      according to their journal, which held `since` at init. */
  class Runtime {
    var state: Phase
    const scheduler: Scheduler
    const storage: array<Word>
    const ids: IdPool
    const tasks: List
    const zombies: List
    var count: nat
    var current: Task?

    const heap: Heap
    const vm: Vm
    const boot: Boot

    var dispatched: seq<nat>
    var answered: seq<Reply>
    var events: seq<Event>

    ghost var rq: seq<Task>
    ghost var ts: seq<Task>
    ghost var zs: seq<Task>
    ghost var byId: map<nat, Task>
    ghost var byBase: map<nat, Task>
    ghost var model: Config
    ghost var verdicts: seq<Verdict>
    ghost var since: seq<Entry>
    ghost var repr: set<object>
    ghost var links: set<Node>

    /** Static storage: all zeros until the first init. */
    constructor (vm: Vm, boot: Boot)
      requires boot.trampoline != 0
      ensures state == Uninitialized && Assembled() && Rooted() && this.vm == vm && this.boot == boot
      ensures heap.Empty() && fresh(repr - {vm, vm.journal})
    {
      state, count, current := Uninitialized, 0, null;
      scheduler := new Scheduler();
      storage := new Word[TotalWords(CAPACITY)](_ => 0);
      ids := new IdPool();
      tasks := new List();
      zombies := new List();
      heap := new Heap(vm.journal);
      this.vm := vm;
      this.boot := boot;
      dispatched, answered, events := [], [], [];
      rq, ts, zs, byId, byBase, model, verdicts, since, links := [], [], [], map[], map[], BLANK, [], [], {};
      new;
      repr := {this, Ready(), Ready().head, tasks, tasks.head, zombies, zombies.head};
      repr := repr + {ids.bits, storage, heap, vm, vm.journal};
    }

    ghost function Ready(): List {
      scheduler.readyQueue.list
    }

    ghost function ListSet(): set<List> {
      {Ready(), tasks, zombies}
    }

    ghost function Heads(): set<Node> {
      {Ready().head, tasks.head, zombies.head}
    }

    /** The part of the structure that belongs to the lists is all zeros. */
    ghost predicate NoLinks()
      reads scheduler.readyQueue.list.head`prev, scheduler.readyQueue.list.head`next
      reads tasks.head`prev, tasks.head`next, zombies.head`prev, zombies.head`next
    {
      && Ready().head.prev == Ready().head.next == null
      && tasks.head.prev == tasks.head.next == null
      && zombies.head.prev == zombies.head.next == null
    }

    /** The part of the structure that belongs to the identifiers is all zeros. */
    ghost predicate NoBits()
      reads ids.bits, storage
    {
      && ids.bits.words == null && ids.bits.totalBits == ids.bits.totalWords == 0
      && forall i | 0 <= i < storage.Length :: storage[i] == 0
    }

    /** All zeros, as before the first init and after each destroy. */
    ghost predicate Blank()
      reads this, ids.bits, storage
      reads scheduler.readyQueue.list.head`prev, scheduler.readyQueue.list.head`next
      reads tasks.head`prev, tasks.head`next, zombies.head`prev, zombies.head`next
    {
      && state == Uninitialized && count == 0 && current == null && NoLinks() && NoBits()
      && rq == ts == zs == [] && byId == byBase == map[] && links == {} && model == BLANK && verdicts == []
      && dispatched == [] && answered == [] && events == []
    }

    /** The sentinels belong to their lists and stay allocated, initialized or not. */
    ghost predicate Rooted()
      reads scheduler.readyQueue.list.head`home, scheduler.readyQueue.list.head`live
      reads tasks.head`home, tasks.head`live, zombies.head`home, zombies.head`live
    {
      && Ready().head.home == Ready() && Ready().head.live
      && tasks.head.home == tasks && tasks.head.live
      && zombies.head.home == zombies && zombies.head.live
      && storage.Length == TotalWords(CAPACITY)
    }

    // The parts of the invariant, each with the memory it speaks of

    /** The fixed parts of the runtime are its own. */
    ghost predicate Assembled()
      reads this`repr
    {
      && {this, Ready(), Ready().head, tasks, tasks.head, zombies, zombies.head} <= repr
      && {ids.bits, storage, heap, vm, vm.journal} <= repr
      && heap.journal == vm.journal && boot.trampoline != 0
      && Ready() != tasks && Ready() != zombies && tasks != zombies
    }

    /** `t` is the runtime's own, its two nodes lead back to it, and its memory is allocated. */
    ghost predicate Sound(t: Task)
      reads this`repr, this`links, t.readyNode`owner, t.readyNode`live, t.runtimeNode`owner, t.runtimeNode`live
    {
      && t in repr && t.readyNode in links && t.runtimeNode in links
      && t.Wired() && t.readyNode.live && t.runtimeNode.live
    }

    ghost predicate AllSoundIn(ts: seq<Task>, zs: seq<Task>)
      reads this`repr, this`links, links`owner, links`live
    {
      && Assembled() && (forall n | n in links :: n in repr && n !in Heads())
      && (forall t | t in ts :: t.readyNode in links && t.runtimeNode in links && Sound(t))
      && (forall t | t in zs :: t.readyNode in links && t.runtimeNode in links && Sound(t))
    }

    ghost predicate AllSound()
      reads this`repr, this`links, this`ts, this`zs, links`owner, links`live
    {
      AllSoundIn(ts, zs)
    }

    /** The list links the runtime nodes of exactly these tasks, in order. */
    ghost predicate LinksTo(list: List, members: seq<Task>)
      reads list, list.head, list.nodes
    {
      && list.Valid() && |list.nodes| == |members|
      && forall i {:trigger members[i]} | 0 <= i < |members| :: list.nodes[i] == members[i].runtimeNode
    }

    ghost predicate Listed()
      reads this`ts, this`zs, tasks, tasks.head, tasks.nodes, zombies, zombies.head, zombies.nodes
    {
      LinksTo(tasks, ts) && LinksTo(zombies, zs)
    }

    /** The ready queue links exactly the tasks of `rq`, in order; the ready nodes of all others are detached. */
    ghost predicate QueuedIn(rq: seq<Task>, ts: seq<Task>, zs: seq<Task>)
      reads this`links, links`home
      reads scheduler.readyQueue.list, scheduler.readyQueue.list.head, scheduler.readyQueue.list.nodes
    {
      && Ready().Valid()
      && |Ready().nodes| == |rq| && (forall i {:trigger rq[i]} | 0 <= i < |rq| :: Ready().nodes[i] == rq[i].readyNode)
      && (forall t | t in rq :: t in ts)
      && (forall t | t in ts && t !in rq :: t.readyNode in links && t.readyNode.home == null)
      && (forall t | t in zs :: t.readyNode in links && t.readyNode.home == null)
    }

    ghost predicate Queued()
      reads this`rq, this`ts, this`zs, this`links, links`home
      reads scheduler.readyQueue.list, scheduler.readyQueue.list.head, scheduler.readyQueue.list.nodes
    {
      QueuedIn(rq, ts, zs)
    }

    /** All tasks of the task list wait in the ready queue, except `out`; the zombies have finished.
        A task that waits has run before, or its first frame stands ready on its stack. */
    ghost predicate PartitionedOver(out: Task?, rq: seq<Task>, ts: seq<Task>, zs: seq<Task>, memory: Memories.Memory)
      reads rq`state, zs`state, rq`begun, rq`stack, rq`rsp, rq`entry, rq`rest
    {
      && (forall t | t in rq :: t.state == ReadyTask && t != out)
      && (forall t | t in rq :: t.begun || t.Poised(boot, memory))
      && (forall t | t in ts :: t in rq || t == out)
      && (forall t | t in zs :: t.state == ZombieTask && t != out)
      && (out != null ==> out in ts)
    }

    ghost predicate PartitionedIn(out: Task?, rq: seq<Task>, ts: seq<Task>, zs: seq<Task>)
      reads rq`state, zs`state, rq`begun, rq`stack, rq`rsp, rq`entry, rq`rest, vm`memory
    {
      PartitionedOver(out, rq, ts, zs, vm.memory)
    }

    ghost predicate Partitioned(out: Task?)
      reads this`rq, this`ts, this`zs, rq`state, zs`state, rq`begun, rq`stack, rq`rsp, rq`entry, rq`rest, vm`memory
    {
      PartitionedIn(out, rq, ts, zs)
    }

    /** The tasks of `blocks` are those of the two sequences, each in one of them. */
    ghost predicate Divided(blocks: set<Task>, ts: seq<Task>, zs: seq<Task>) {
      && (forall t | t in ts :: t in blocks && t !in zs)
      && (forall t | t in zs :: t in blocks)
      && (forall t | t in blocks :: t in ts || t in zs)
    }

    /** The owned heap blocks are the tasks of the two lists, and they are counted. */
    ghost predicate RosteredIn(ts: seq<Task>, zs: seq<Task>)
      reads this`byId, this`count, heap`blocks
    {
      |byId| == count == |ts| + |zs| && Divided(heap.blocks, ts, zs)
    }

    ghost predicate Rostered()
      reads this`byId, this`count, this`ts, this`zs, heap`blocks
    {
      RosteredIn(ts, zs)
    }

    /** The set bits are exactly the identifiers of the owned tasks, and no two tasks share one. */
    ghost predicate Numbered()
      reads this`byId, heap`blocks, heap.blocks`id, ids.bits, ids.bits.words
    {
      && ids.Valid() && ids.bits.words == storage && ids.bits.totalBits == CAPACITY
      && ids.Held() == byId.Keys && NamesAgree(byId, heap.blocks)
    }

    /** The mappings are exactly the stacks of the owned tasks, and no two tasks share one. */
    ghost predicate Mapped()
      reads this`byBase, heap`blocks, heap.blocks`stack, heap.blocks`request, vm`live, vm.page
    {
      vm.Valid() && Supported(vm.page.size) && BasesAgree(byBase, heap.blocks, vm.live, vm.page.size)
    }

    /** All books on what the owned tasks hold. */
    ghost predicate Settled()
      reads this`byId, this`byBase, heap, heap.blocks`id, heap.blocks`stack, heap.blocks`request, vm`live, vm.page
      reads ids.bits, ids.bits.words
    {
      Numbered() && Mapped() && heap.Housed(vm.live)
    }

    /** The records stand for these tasks, in order. */
    ghost predicate RecordsOf(records: seq<TaskRecord>, members: seq<Task>)
      reads members`id, members`rest
    {
      && |records| == |members|
      && forall i {:trigger members[i]} | 0 <= i < |members| :: records[i] == TaskRecord(members[i].id, members[i].rest)
    }

    /** The machine's waiting and finished tasks stand for these tasks. */
    ghost predicate Reflects(c: Config, rq: seq<Task>, zs: seq<Task>)
      reads rq`id, rq`rest, zs`id
    {
      && RecordsOf(c.ready, rq)
      && |c.zombies| == |zs| && (forall i {:trigger zs[i]} | 0 <= i < |zs| :: c.zombies[i] == zs[i].id)
    }

    /** The state of the simple machine, but for who has the processor. */
    ghost predicate MirrorsIn(c: Config, rq: seq<Task>, zs: seq<Task>)
      reads this`state, this`byId, rq`id, rq`rest, zs`id
    {
      c.phase == state && c.ids == byId.Keys && Reflects(c, rq, zs)
    }

    ghost predicate Mirrors(c: Config)
      reads this`state, this`rq, this`zs, this`byId, rq`id, rq`rest, zs`id
    {
      MirrorsIn(c, rq, zs)
    }

    /** The machine's trace and replies are what has been dispatched and answered, and its verdicts are what
        the layers below have said. */
    ghost predicate Observed(c: Config)
      reads this`dispatched, this`answered, this`events, this`verdicts, this`since, vm.journal
    {
      && c.trace == dispatched && c.replies == answered && c.events == events && c.credible
      && |verdicts| == |answered| && Evidence.AllMatch(verdicts, answered)
      && vm.journal.entries == since + Transcript(verdicts, answered)
    }

    ghost function CurrentRecord(): Option<TaskRecord>
      reads this`current, (if current == null then {} else {current})`id
      reads (if current == null then {} else {current})`rest
    {
      if current == null then None else Some(TaskRecord(current.id, current.rest))
    }

    /** The invariant while `out`, if anyone, is between the processor and the ready queue. */
    ghost predicate Between(out: Task?)
      reads *
    {
      && AllSound() && Listed() && Queued() && Rostered() && Settled()
      && Partitioned(out) && Mirrors(model) && Observed(model)
    }

    /** What holds whenever a task or main has the processor. */
    ghost predicate Valid()
      reads *
    {
      && Between(current) && (current != null ==> current.state == RunningTask && current.begun)
      && model.current == CurrentRecord()
      && state != Uninitialized
    }

    // What the invariant says

    /** Every owned task is in one place, and its state says where; nobody sees a new task. */
    lemma EveryTaskHasItsPlace(t: Task)
      requires Valid() && t in heap.blocks
      ensures t.state == ReadyTask <==> t in rq
      ensures t.state == RunningTask <==> t == current
      ensures t.state == ZombieTask <==> t in zs
      ensures t.state != NewTask
      ensures t in ts <==> t in rq || t == current
      ensures t in zs <==> t !in ts
    {
      hide AllSound, Listed, Settled, Mirrors;
      if current != null && t == current {
        assert t !in rq;
      }
    }

    /** The lists link exactly these tasks, each once, and a task's nodes are in no other list. */
    lemma EveryNodeHasItsList(t: Task)
      requires Valid() && t in heap.blocks
      ensures t.runtimeNode in tasks.nodes <==> t in ts
      ensures t.runtimeNode in zombies.nodes <==> t in zs
      ensures t.readyNode in Ready().nodes <==> t in rq
      ensures t.runtimeNode !in Ready().nodes && t.readyNode !in tasks.nodes && t.readyNode !in zombies.nodes
      ensures Distinct(Ready().nodes) && Distinct(tasks.nodes) && Distinct(zombies.nodes)
    {
      hide Settled, Mirrors, Partitioned;
      assert forall i | 0 <= i < |ts| :: tasks.nodes[i] == ts[i].runtimeNode && ts[i].runtimeNode.owner == ts[i];
      assert forall i | 0 <= i < |zs| :: zombies.nodes[i] == zs[i].runtimeNode && zs[i].runtimeNode.owner == zs[i];
      assert forall i | 0 <= i < |rq| :: Ready().nodes[i] == rq[i].readyNode && rq[i].readyNode.owner == rq[i];
    }

    /** Conservation: the counter, the two lists and the set bits agree, and the bits are the tasks' identifiers. */
    lemma BooksBalance()
      requires Valid()
      ensures ids.Valid() && count == |ts| + |zs| == |ids.Held()|
      ensures forall t | t in heap.blocks :: t.id in ids.Held() && t.id < CAPACITY
      ensures forall i | i in ids.Held() :: exists t :: t in heap.blocks && t.id == i
      ensures forall t, u | t in heap.blocks && u in heap.blocks && t != u :: t.id != u.id
    {
      hide AllSound, Listed, Queued, Mapped, Mirrors, Partitioned, Shaped;
      assert |byId.Keys| == |byId|;
      forall i | i in ids.Held() ensures exists t :: t in heap.blocks && t.id == i {
        assert byId[i] in heap.blocks;
      }
    }

    /** All owned tasks, in the order in which the machine lists their identifiers. */
    ghost function Everybody(): seq<Task>
      reads this`current, this`rq, this`zs
    {
      (if current == null then [] else [current]) + rq + zs
    }

    lemma EverybodyOnce()
      requires Valid()
      ensures Distinct(Everybody())
      ensures forall t | t in Everybody() :: t in heap.blocks
      ensures forall t | t in heap.blocks :: t in Everybody()
    {
      hide Settled, Mirrors, LinksTo;
      QueueOwners();
      TasksDistinct();
      forall t | t in heap.blocks ensures t in Everybody() {
        EveryTaskHasItsPlace(t);
      }
    }

    lemma EverybodysNames()
      requires Valid()
      ensures Conservation.CurrentIds(model) + Conservation.Ids(model.ready) + model.zombies == Names(Everybody())
    {
      hide Observed, AllSound, Listed, Queued, Settled, Rostered, Partitioned;
    }

    ghost function Names(members: seq<Task>): (names: seq<nat>)
      reads members`id
      ensures |names| == |members| && forall i | 0 <= i < |members| :: names[i] == members[i].id
    {
      if members == [] then [] else Names(members[..|members| - 1]) + [members[|members| - 1].id]
    }

    /** The machine's books balance because the runtime's do. */
    lemma ModelIsConsistent()
      requires Valid()
      ensures Conservation.Consistent(model)
    {
      hide AllSound, Listed, Queued, Mapped, RosteredIn, Partitioned, Reflects;
      var all := Everybody();
      EverybodyOnce();
      EverybodysNames();
      BooksBalance();
      forall i, j | 0 <= i < j < |all| ensures Names(all)[i] != Names(all)[j] {
        assert all[i] in heap.blocks && all[j] in heap.blocks && all[i] != all[j];
      }
      forall i | i in byId ensures i in Names(all) {
        assert byId[i] in all;
      }
      OnceEach(Names(all), byId.Keys);
    }

    /** Bounded waiting: with k tasks ahead of it, a waiting task gets exactly the (k+1)-th dispatch from now on,
        whatever the tasks do and the layers below say, whether a task or main has the processor. */
    lemma WaitingTasksRunInTurn(k: nat, answers: seq<Verdict>)
      requires Valid() && k < |rq|
      ensures var trace := Drain(Fairness.Resumed(model), answers).trace;
              && |trace| > |dispatched| + k && trace[|dispatched| + k] == rq[k].id
              && forall i | |dispatched| <= i < |dispatched| + k :: trace[i] != rq[k].id
    {
      hide AllSound, Listed, Queued, Settled, Rostered, Partitioned, Drain, Fairness.Resumed, Conservation.Consistent;
      ModelIsConsistent();
      assert model.ready[k] == TaskRecord(rq[k].id, rq[k].rest);
      Fairness.DispatchedInTurn(model, answers, k);
    }

    /** Two owned tasks lie at different addresses, and their structures overlap neither each other nor any stack. */
    lemma StructuresKeepApart(t: Task, u: Task)
      requires Valid() && t in heap.blocks && u in heap.blocks
      ensures t.address > 0 && t.address + BLOCK <= SIZE_MODULUS
      ensures t != u ==> t.address + BLOCK <= u.address || u.address + BLOCK <= t.address
      ensures t.address + BLOCK <= u.stack.mapping.base || u.stack.mapping.base + u.stack.mapping.size <= t.address
    {
      hide AllSound, Listed, Queued, Numbered, Rostered, Mirrors, Partitioned, Observed, Separate;
      assert vm.live[u.stack.mapping.base] == RegionOf(u.stack);
    }

    /** The stacks of two owned tasks are at least two pages apart. */
    lemma StacksKeepApart(t: Task, u: Task)
      requires Valid() && t in heap.blocks && u in heap.blocks && t != u
      ensures t.stack.base + t.stack.size + GUARD_PAGES * vm.page.size <= u.stack.base
              || u.stack.base + u.stack.size + GUARD_PAGES * vm.page.size <= t.stack.base
    {
      hide AllSound, Listed, Queued, Numbered, Rostered, Mirrors, Partitioned, Separate, Framed;
      StacksAreApart(vm.live, vm.page.size, t.stack, u.stack);
    }

    /** Of the addresses of a task's mapping exactly the usable stack can be accessed. */
    lemma StackIsGuarded(t: Task, a: nat)
      requires Valid() && t in heap.blocks
      requires t.stack.mapping.base <= a < t.stack.mapping.base + t.stack.mapping.size
      ensures Accessible(vm.live, a) <==> t.stack.base <= a < t.stack.base + t.stack.size
      ensures t.stack.base == t.stack.mapping.base + vm.page.size
      ensures t.stack.mapping.base + t.stack.mapping.size == t.stack.base + t.stack.size + vm.page.size
    {
      hide AllSound, Listed, Queued, Numbered, Rostered, Mirrors, Partitioned, Separate, Accessible;
      forall b {:trigger vm.live[b]} | b in vm.live
        ensures vm.live[b].openAt == b + vm.page.size
        ensures vm.live[b].size == vm.live[b].openSize + GUARD_PAGES * vm.page.size
      {
        assert byBase[b] in heap.blocks && byBase[b].stack.mapping.base == b;
      }
      GuardPagesAreClosed(vm.live, vm.page.size, t.stack, a);
    }

    // Ready queue

    /** A task outside the queue is still the runtime's own and can be admitted. */
    lemma Outside(out: Task)
      requires AllSound() && Queued() && Partitioned(out)
      ensures Sound(out) && out in ts && out !in rq && out !in zs && out.readyNode.home == null
    {}

    lemma QueueIsOurs(i: int)
      requires AllSound() && Queued()
      ensures Assembled()
      ensures Ready().At(i) == Ready().head || Ready().At(i) in links
    {
      if 0 <= i < |rq| {
        assert Ready().nodes[i] == rq[i].readyNode;
      }
    }

    /** Every task has nodes of its own. */
    lemma OwnNodes(t: Task)
      requires AllSound() && (t in ts || t in zs)
      ensures Sound(t) && t.readyNode in links && t.runtimeNode in links
      ensures forall u | u in ts || u in zs ::
                && u.readyNode in links && u.runtimeNode in links
                && u.readyNode != t.runtimeNode && u.runtimeNode != t.readyNode
                && (u != t ==> u.readyNode != t.readyNode && u.runtimeNode != t.runtimeNode)
    {
      assert forall u | u in ts || u in zs :: Sound(u);
    }

    lemma QueueOwners()
      requires AllSound() && Queued()
      ensures forall n | n in Ready().nodes :: n.owner != null && n.owner is Task
      ensures forall i | 0 <= i < |rq| :: Ready().nodes[i].owner == rq[i]
      ensures Distinct(rq) && forall t | t in rq :: t in ts
      ensures rq != [] ==> rq[0] !in rq[1..]
    {
      forall i | 0 <= i < |rq| ensures Ready().nodes[i].owner == rq[i] {
        assert Ready().nodes[i] == rq[i].readyNode && Sound(rq[i]);
      }
      forall i, j | 0 <= i < j < |rq| ensures rq[i] != rq[j] {
        assert Ready().nodes[i] != Ready().nodes[j];
        assert Ready().nodes[i] == rq[i].readyNode && Ready().nodes[j] == rq[j].readyNode;
      }
    }

    /** Links `t` behind the tasks in the ready queue. */
    method Enqueue(t: Task)
      requires AllSound() && Listed() && Queued()
      requires t in ts && t !in rq && t.state == ReadyTask
      modifies this`rq, Ready()`nodes, Ready().head`prev, Ready().head`next, links`prev, links`next, links`home
      ensures AllSound() && Listed() && Queued()
      ensures rq == old(rq) + [t]
      ensures unchanged(`ts, `zs, `byId, `count, `state, `model, `verdicts, `current)
      ensures unchanged(`dispatched, `answered, `events, `since)
    {
      hide Linked, Around, AllSound;
      OwnNodes(t);
      QueueIsOurs(|rq| - 1);
      var status := scheduler.Admit(t);
      rq := rq + [t];
      assert Queued();
    }

    /** `gt_scheduler_next` on the runtime's own queue. */
    method Pop() returns (t: Task?)
      requires AllSound() && Listed() && Queued()
      modifies Ready()`nodes, Ready().head`prev, Ready().head`next, links`prev, links`next, links`home
      ensures AllSound() && Listed() && Ready().Valid()
      ensures if rq == [] then t == null && Ready().nodes == []
              else t == rq[0] && Ready().nodes == old(Ready().nodes)[1..]
      ensures forall u | u in ts || u in zs ::
                u.readyNode in links && u.readyNode.home == if u == t then null else old(u.readyNode.home)
    {
      hide Linked, Around, AllSound, Sound, Distinct;
      QueueIsOurs(0);
      QueueIsOurs(1);
      QueueOwners();
      if rq != [] {
        assert Ready().nodes[0] == rq[0].readyNode;
        OwnNodes(rq[0]);
      }
      t := scheduler.Next();
    }

    /** Takes the first task out of the ready queue, if there is one. */
    method Dequeue() returns (t: Task?)
      requires AllSound() && Listed() && Queued()
      modifies this`rq, Ready()`nodes, Ready().head`prev, Ready().head`next, links`prev, links`next, links`home
      ensures AllSound() && Listed() && Queued()
      ensures if old(rq) == [] then t == null && rq == [] else t != null && t == old(rq)[0] && rq == old(rq)[1..]
    {
      hide List.Valid, AllSound, Sound, Distinct, Listed;
      QueueOwners();
      t := Pop();
      if t != null {
        rq := rq[1..];
        assert forall i | 0 <= i < |rq| :: Ready().nodes[i] == rq[i].readyNode;
      }
    }

    // Dispatch

    lemma MirrorsFront(c: Config, rq: seq<Task>, zs: seq<Task>)
      requires MirrorsIn(c, rq, zs)
      ensures rq == [] <==> c.ready == []
      ensures rq != [] ==> c.ready[0] == TaskRecord(rq[0].id, rq[0].rest)
      ensures rq != [] ==> MirrorsIn(c.(ready := c.ready[1..]), rq[1..], zs)
    {
      if rq != [] {
        assert forall i {:trigger rq[1..][i]} | 0 <= i < |rq| - 1 :: rq[1..][i] == rq[i + 1];
      }
    }

    lemma MirrorsBack(c: Config, rq: seq<Task>, zs: seq<Task>, t: Task)
      requires MirrorsIn(c, rq, zs)
      ensures MirrorsIn(c.(ready := c.ready + [TaskRecord(t.id, t.rest)]), rq + [t], zs)
    {}

    lemma PartitionedFront(rq: seq<Task>)
      requires PartitionedIn(null, rq, ts, zs) && rq != [] && rq[0] !in rq[1..] && rq[0] in ts
      ensures PartitionedIn(rq[0], rq[1..], ts, zs) && rq[0].state == ReadyTask
      ensures rq[0].begun || rq[0].entry == rq[0].rest
    {
      assert rq[0] in rq;
      assert forall t | t in rq :: t == rq[0] || t in rq[1..];
      assert forall t | t in rq[1..] :: t in rq;
    }

    lemma PartitionedBack(t: Task)
      requires PartitionedIn(t, rq, ts, zs) && t.state == ReadyTask && t.begun
      ensures PartitionedIn(null, rq + [t], ts, zs)
    {
      hide Task.Poised;
    }

    lemma ObservedAlike(c: Config, d: Config)
      requires Observed(c) && d.trace == c.trace && d.replies == c.replies && d.credible == c.credible
      requires d.events == c.events
      ensures Observed(d)
    {}

    /** The task that gave way goes back to the queue. */
    method Readmit(prev: Task)
      requires Between(prev) && prev.state == ReadyTask && prev.begun
      modifies this`rq, this`model
      modifies Ready()`nodes, Ready().head`prev, Ready().head`next, links`prev, links`next, links`home
      ensures Between(null)
      ensures model == old(model).(ready := old(model).ready + [TaskRecord(prev.id, prev.rest)])
    {
      hide AllSound, Listed, Queued, Rostered, Settled, MirrorsIn, Observed, PartitionedIn;
      ghost var c := model.(ready := model.ready + [TaskRecord(prev.id, prev.rest)]);
      Outside(prev);
      PartitionedBack(prev);
      MirrorsBack(model, rq, zs, prev);
      ObservedAlike(model, c);
      Enqueue(prev);
      model := c;
    }

    lemma MirrorsIgnoresCurrent(c: Config, d: Config)
      requires Mirrors(c) && d == c.(current := d.current, trace := d.trace, events := d.events)
      ensures Mirrors(d)
    {}

    /** `__gt_runtime_resume_main` */
    method ResumeMain()
      requires Between(null) && rq == []
      modifies this`current, this`state, this`model
      ensures Valid() && model == Dispatch(old(model))
    {
      hide Transcript, Evidence.AllMatch, AllSound, Listed, Queued, Rostered, Settled, Partitioned;
      MainFields(Dispatch(model));
    }

    method MainFields(ghost c: Config)
      modifies this`current, this`state, this`model
      ensures current == null && state == Stopped && model == c
    {
      current := null;
      state := Stopped;
      model := c;
    }

    /** `__gt_runtime_resume_task`: the task has just left the queue. */
    method ResumeTask(t: Task)
      requires Between(t) && t.state == ReadyTask && state != Uninitialized && (t.begun || t.entry == t.rest)
      modifies this`current, this`model, this`dispatched, this`events, t`state, t`begun, t`rest
      ensures Valid() && dispatched == old(dispatched) + [t.id] && events == old(events) + [Ran(t.id)]
      ensures model == old(model).(current := Some(TaskRecord(t.id, t.rest)), trace := old(model).trace + [t.id],
                                   events := old(model).events + [Ran(t.id)])
      ensures t.rest == old(if t.begun then t.rest else t.entry)
    {
      hide AllSound, Listed, Queued, Rostered, Settled, Mirrors, Transcript, Task.Poised, Evidence.AllMatch;
      ghost var c := model.(current := Some(TaskRecord(t.id, t.rest)), trace := model.trace + [t.id],
                            events := model.events + [Ran(t.id)]);
      MirrorsIgnoresCurrent(model, c);
      TaskFields(t, c);
    }

    /** The task goes on where it was: behind its last yield, or in the trampoline, which calls its entry function. */
    method TaskFields(t: Task, ghost c: Config)
      modifies this`current, this`model, this`dispatched, this`events, t`state, t`begun, t`rest
      ensures t.state == RunningTask && t.begun && t.rest == old(if t.begun then t.rest else t.entry)
      ensures current == t && model == c
      ensures dispatched == old(dispatched) + [t.id] && events == old(events) + [Ran(t.id)]
    {
      t.state := RunningTask;
      if !t.begun {
        t.rest := t.entry;
        t.begun := true;
      }
      current := t;
      dispatched := dispatched + [t.id];
      events := events + [Ran(t.id)];
      model := c;
    }

    lemma ListedIsOwned(t: Task)
      requires Rostered() && (t in ts || t in zs)
      ensures t in heap.blocks
    {}

    /** What is left when the first task has been taken out, for the machine as for the queue. */
    lemma FrontTaken() returns (c: Config)
      requires Between(null)
      ensures rq == [] ==> c == model && model.ready == []
      ensures rq != [] ==>
                && rq[0] in heap.blocks && rq[0].state == ReadyTask && PartitionedIn(rq[0], rq[1..], ts, zs)
                && (rq[0].begun || rq[0].entry == rq[0].rest)
                && model.ready != [] && model.ready[0] == TaskRecord(rq[0].id, rq[0].rest)
                && c == model.(ready := model.ready[1..]) && MirrorsIn(c, rq[1..], zs) && Observed(c)
    {
      hide AllSound, Listed, Queued, Rostered, Settled, MirrorsIn, Observed, PartitionedIn;
      QueueOwners();
      MirrorsFront(model, rq, zs);
      c := model;
      if rq != [] {
        PartitionedFront(rq);
        ListedIsOwned(rq[0]);
        c := model.(ready := model.ready[1..]);
        ObservedAlike(model, c);
      }
    }

    /** Takes the next task for dispatch. */
    method SelectNext() returns (next: Task?)
      requires Between(null)
      modifies this`rq, this`model
      modifies Ready()`nodes, Ready().head`prev, Ready().head`next, links`prev, links`next, links`home
      ensures Between(next) && (next != null ==> next in heap.blocks)
      ensures next == null ==> rq == [] && model == old(model) && model.ready == []
      ensures next != null ==>
                && next.state == ReadyTask && (next.begun || next.entry == next.rest) && old(model).ready != []
                && old(model).ready[0] == TaskRecord(next.id, next.rest)
                && model == old(model).(ready := old(model).ready[1..])
    {
      hide AllSound, Listed, Queued, Rostered, Settled, MirrorsIn, Observed, PartitionedIn;
      ghost var c := FrontTaken();
      next := Dequeue();
      model := c;
    }

    /** `__gt_runtime_schedule`: never returns to its caller; the processor goes on with `current`, or with main. */
    method Schedule(prev: Task?)
      requires Between(prev) && (prev != null ==> prev.state == ReadyTask && prev.begun) && state != Uninitialized
      modifies this`rq, this`current, this`state, this`model, this`dispatched, this`events
      modifies heap.blocks`state, heap.blocks`begun, heap.blocks`rest
      modifies Ready()`nodes, Ready().head`prev, Ready().head`next, links`prev, links`next, links`home
      ensures Valid()
      ensures model == Dispatch(old(model).(ready := old(model).ready +
                                            if prev == null then [] else [TaskRecord(prev.id, old(prev.rest))]))
    {
      hide Between, Valid;
      if prev != null && prev.state == ReadyTask {
        Readmit(prev);
      }
      var next := SelectNext();
      if next == null {
        ResumeMain();
      } else {
        ResumeTask(next);
      }
    }

    // Execution

    /** What the tasks of `blocks`, but for `me`, have saved and hold is as it was. */
    twostate predicate Spared(blocks: set<Task>, me: Task?)
      reads blocks
    {
      forall t | t in blocks && t != me ::
        t.rsp == old(t.rsp) && t.entry == old(t.entry) && t.stack == old(t.stack) && t.request == old(t.request)
    }

    /** `gt_runtime_yield`: saving the context keeps what is left of the task's program. */
    method GiveWay()
      requires Valid() && current != null && current.rest.Yield?
      modifies this`rq, this`current, this`state, this`model, this`dispatched, this`events
      modifies heap.blocks`state, heap.blocks`begun, heap.blocks`rest, heap.blocks`rsp
      modifies Ready()`nodes, Ready().head`prev, Ready().head`next, links`prev, links`next, links`home
      ensures Valid()
      ensures model == Machine.GiveWay(old(model), old(current.rest.rest))
      ensures Spared(old(heap.blocks), old(current))
      ensures unchanged(`answered, `verdicts, `repr)
    {
      hide Valid, Between, Dispatch;
      var me := current;
      CurrentIsOurs();
      StepAside(me);
      Schedule(me);
    }

    /** The current task gives up the processor, and keeps what is left of its program. */
    method StepAside(me: Task)
      requires Valid() && current == me && me.rest.Yield?
      modifies me`state, me`rest, me`rsp
      ensures Between(me) && me.state == ReadyTask && me.begun && me.rest == old(me.rest.rest)
      ensures state != Uninitialized && me in heap.blocks
      ensures model.current == Some(TaskRecord(me.id, old(me.rest)))
    {
      hide AllSound, Listed, Queued, Rostered, Settled, Observed, PartitionedIn, MirrorsIn, Task.Poised;
      CurrentIsOwned();
      Outside(me);
      SaveContext(me);
    }

    /** The task is ready again, and its context holds the stack pointer of the moment. */
    method SaveContext(me: Task)
      requires me.rest.Yield?
      modifies me`state, me`rest, me`rsp
      ensures me.state == ReadyTask && me.rest == old(me.rest.rest)
    {
      me.state := ReadyTask;
      me.rest := me.rest.rest;
      var sp: Memories.Word := *;
      me.rsp := sp;
    }

    // Task list and zombie list

    lemma NodesAreOurs(list: List, members: seq<Task>, i: int)
      requires AllSound() && LinksTo(list, members) && forall t | t in members :: t in ts || t in zs
      ensures list.At(i) == list.head || list.At(i) in links
      ensures 0 <= i < |members| ==> list.nodes[i] == members[i].runtimeNode
    {
      if 0 <= i < |members| {
        assert list.nodes[i] == members[i].runtimeNode;
      }
    }

    lemma Apart()
      requires AllSound()
      ensures Assembled()
    {}

    lemma TasksDistinct()
      requires Listed()
      ensures Distinct(ts) && Distinct(zs)
    {
      forall i, j | 0 <= i < j < |ts| ensures ts[i] != ts[j] {
        assert tasks.nodes[i] == ts[i].runtimeNode && tasks.nodes[j] == ts[j].runtimeNode;
      }
      forall i, j | 0 <= i < j < |zs| ensures zs[i] != zs[j] {
        assert zombies.nodes[i] == zs[i].runtimeNode && zombies.nodes[j] == zs[j].runtimeNode;
      }
    }

    /** Cutting tasks and their nodes at the same position keeps them aligned. */
    lemma CutAligned(nodes: seq<Node>, members: seq<Task>, k: nat)
      requires |nodes| == |members| && k < |members|
      requires forall i {:trigger members[i]} | 0 <= i < |members| :: nodes[i] == members[i].runtimeNode
      ensures forall i {:trigger Cut(members, k)[i]} | 0 <= i < |members| - 1 ::
                Cut(nodes, k)[i] == Cut(members, k)[i].runtimeNode
    {
      forall i | 0 <= i < |members| - 1 ensures Cut(nodes, k)[i] == Cut(members, k)[i].runtimeNode {
        CutAt(nodes, k, i);
        CutAt(members, k, i);
      }
    }

    /** Takes the node of `t` out of the task list or the zombie list. */
    method TakeOut(ghost list: List, ghost members: seq<Task>, t: Task, ghost k: nat)
      requires AllSound() && Listed() && k < |members| && t == members[k]
      requires (list == tasks && members == ts) || (list == zombies && members == zs)
      modifies list`nodes, list.head`prev, list.head`next, links`prev, links`next, links`home
      ensures AllSound() && t.runtimeNode in links && t.runtimeNode.live && t.runtimeNode.home == null
      ensures LinksTo(list, Cut(members, k))
      ensures if list == tasks then LinksTo(zombies, zs) else LinksTo(tasks, ts)
      ensures old(Queued()) ==> Queued()
    {
      hide Linked, Around, AllSoundIn, Sound, Cut;
      Apart();
      NodesAreOurs(list, members, k - 1);
      NodesAreOurs(list, members, k);
      NodesAreOurs(list, members, k + 1);
      OwnNodes(t);
      CutAligned(list.nodes, members, k);
      Remove(t.runtimeNode, list, k);
    }

    /** Links the detached node of `t` behind the zombies. */
    method LayDown(t: Task, ghost others: seq<Task>)
      requires AllSound() && Queued() && LinksTo(tasks, others) && LinksTo(zombies, zs) && (t in ts || t in zs)
      requires t.runtimeNode.home == null
      modifies zombies`nodes, zombies.head`prev, zombies.head`next, links`prev, links`next, links`home
      ensures AllSound() && Queued() && LinksTo(tasks, others) && LinksTo(zombies, zs + [t])
    {
      hide Linked, Around, AllSoundIn, Sound;
      Apart();
      OwnNodes(t);
      NodesAreOurs(zombies, zs, |zs| - 1);
      PushBack(zombies, t.runtimeNode);
    }

    /** The bookkeeping of a task's move from the task list to the zombies. */
    lemma RetireBooks(k: nat)
      requires k < |ts| && Distinct(ts) && AllSound() && Queued() && ts[k] !in rq
      ensures AllSoundIn(Cut(ts, k), zs + [ts[k]]) && QueuedIn(rq, Cut(ts, k), zs + [ts[k]])
      ensures Rostered() ==> RosteredIn(Cut(ts, k), zs + [ts[k]])
      ensures Partitioned(ts[k]) && ts[k].state == ZombieTask ==> PartitionedIn(null, rq, Cut(ts, k), zs + [ts[k]])
    {
      hide List.Valid, Distinct, Cut, Sound;
      CutMembers(ts, k);
      assert forall t | t in zs + [ts[k]] :: t in zs || t == ts[k];
    }

    /** Moves `t` from the task list to the end of the zombie list. */
    method Retire(t: Task, ghost k: nat)
      requires AllSound() && Listed() && Queued() && Rostered() && Partitioned(t)
      requires k < |ts| && t == ts[k] && t.state == ZombieTask
      modifies this`ts, this`zs, tasks`nodes, tasks.head`prev, tasks.head`next
      modifies zombies`nodes, zombies.head`prev, zombies.head`next, links`prev, links`next, links`home
      ensures AllSound() && Listed() && Queued() && Rostered() && Partitioned(null)
      ensures ts == Cut(old(ts), k) && zs == old(zs) + [t]
    {
      hide Transcript, Task.Poised, LinksTo, AllSoundIn, QueuedIn, RosteredIn, Cut, Distinct;
      TasksDistinct();
      TakeOut(tasks, ts, t, k);
      LayDown(t, Cut(ts, k));
      RetireBooks(k);
      ts, zs := Cut(ts, k), zs + [t];
    }

    lemma MirrorsBuried(c: Config, zs: seq<Task>, t: Task)
      requires MirrorsIn(c, rq, zs)
      ensures MirrorsIn(c.(zombies := c.zombies + [t.id]), rq, zs + [t])
    {}

    lemma PositionOf(t: Task) returns (k: nat)
      requires t in ts
      ensures k < |ts| && ts[k] == t
    {
      k :| 0 <= k < |ts| && ts[k] == t;
    }

    /** Where the current task is listed, and what the machine will say of it. */
    lemma Farewell(me: Task) returns (k: nat, c: Config)
      requires Between(me)
      ensures me in ts && me !in rq && me !in zs && k < |ts| && ts[k] == me
      ensures c == model.(zombies := model.zombies + [me.id]) && MirrorsIn(c, rq, zs + [me]) && Observed(c)
    {
      hide AllSound, Listed, Queued, Rostered, Settled, PartitionedIn, MirrorsIn, Observed;
      Outside(me);
      k := PositionOf(me);
      c := model.(zombies := model.zombies + [me.id]);
      MirrorsBuried(model, zs, me);
      ObservedAlike(model, c);
    }

    /** The first half of `__gt_runtime_task_exit`: the current task becomes a zombie for good. */
    method Bury()
      requires Between(current) && current != null && state != Uninitialized
      modifies this`ts, this`zs, this`current, this`model, current`state
      modifies tasks`nodes, tasks.head`prev, tasks.head`next, zombies`nodes, zombies.head`prev, zombies.head`next
      modifies links`prev, links`next, links`home
      ensures Between(null) && current == null
      ensures model == old(model).(zombies := old(model).zombies + [old(current.id)])
    {
      hide AllSound, Listed, Queued, Rostered, Settled, PartitionedIn, MirrorsIn, Observed, Cut;
      var me := current;
      ghost var k, c := Farewell(me);
      me.state := ZombieTask;
      Retire(me, k);
      Vacate(c);
    }

    /** Nobody has the processor, and the machine is in state `c`. */
    method Vacate(ghost c: Config)
      requires AllSound() && Listed() && Queued() && Rostered() && Settled() && Partitioned(null)
      requires Mirrors(c) && Observed(c)
      modifies this`current, this`model
      ensures Between(null) && current == null && model == c
    {
      hide AllSound, Listed, Queued, Rostered, Settled, PartitionedIn, MirrorsIn, Observed;
      current := null;
      model := c;
    }

    /** `__gt_runtime_task_exit` */
    method Exit()
      requires Valid() && current != null && current.rest.Done?
      modifies this`rq, this`ts, this`zs, this`current, this`state, this`model, this`dispatched, this`events
      modifies heap.blocks`state, heap.blocks`begun, heap.blocks`rest
      modifies tasks`nodes, tasks.head`prev, tasks.head`next, zombies`nodes, zombies.head`prev, zombies.head`next
      modifies Ready()`nodes, Ready().head`prev, Ready().head`next, links`prev, links`next, links`home
      ensures Valid()
      ensures model == Machine.Exit(old(model))
      ensures unchanged(`answered, `verdicts, `repr)
    {
      hide Valid, Between;
      CurrentIsOurs();
      Bury();
      Schedule(null);
    }

    lemma CurrentIsOurs()
      requires Valid() && current != null
      ensures current in heap.blocks && Between(current) && state != Uninitialized
      ensures model.current == Some(TaskRecord(current.id, current.rest))
    {
      hide Between;
      CurrentIsOwned();
    }

    lemma CurrentIsOwned()
      requires Between(current) && current != null
      ensures current in heap.blocks
    {}

    // Creation

    /** Who has the processor, the zombies and the records of the past are as they were. */
    twostate predicate Steady()
      reads this, current
    {
      && state == old(state) && model == old(model) && verdicts == old(verdicts) && zs == old(zs)
      && dispatched == old(dispatched) && answered == old(answered) && events == old(events) && since == old(since)
      && current == old(current)
      && (current != null ==>
            && current.state == old(current.state) && current.begun == old(current.begun)
            && current.id == old(current.id) && current.rest == old(current.rest))
    }

    /** What `Acquire` has taken, given what there was before. */
    ghost predicate Taken(task: Task, entry: Program, size: nat, names: set<nat>, blocks: set<Task>,
                          live: map<nat, Region>, memory: Memories.Memory, entries: seq<Entry>)
      reads heap, vm, vm.journal, task, task.readyNode, task.runtimeNode
    {
      && vm.journal.entries == entries + (Agreed(1) + Middle(4))
      && LeastFree(names) < CAPACITY && task.id == LeastFree(names)
      && task.Wired() && task.Detached() && task.readyNode.live && task.runtimeNode.live
      && task !in blocks && heap.blocks == blocks + {task} && Made(task, boot, entry, size, vm.memory, memory)
      && task.stack.mapping.base !in live && vm.live == live[task.stack.mapping.base := RegionOf(task.stack)]
    }

    lemma TakenFacts(task: Task, entry: Program, size: nat, names: set<nat>, blocks: set<Task>,
                     live: map<nat, Region>, memory: Memories.Memory, entries: seq<Entry>)
      requires Taken(task, entry, size, names, blocks, live, memory, entries)
      ensures task !in blocks && heap.blocks == blocks + {task} && task.id == LeastFree(names)
      ensures vm.live == live[task.stack.mapping.base := RegionOf(task.stack)] && task.stack.mapping.base !in live
      ensures Made(task, boot, entry, size, vm.memory, memory) && task.request == size
    {}

    /** `Acquire` on the runtime's own resources, as the tasks of `blocks` see it. */
    method Fetch(entry: Program, stackSize: nat, ghost blocks: set<Task>, ghost names: map<nat, Task>,
                 ghost bases: map<nat, Task>, ghost live: map<nat, Region>, ghost page: nat)
      returns (status: Status, task: Task?, ghost verdict: Verdict)
      requires NamesAgree(names, blocks) && BasesAgree(bases, blocks, live, page)
      requires ids.Valid() && ids.bits.words == storage && ids.bits.totalBits == CAPACITY
      requires vm.Valid() && Supported(vm.page.size) && Assembled() && Legal(stackSize, vm.page.size)
      requires heap.Housed(vm.live)
      modifies heap, storage, vm`live, vm`memory, vm.journal
      ensures NamesAgree(names, blocks) && BasesAgree(bases, blocks, live, page)
      ensures ids.Valid() && vm.Valid() && heap.Housed(vm.live)
      ensures status == Success ==>
                && task != null && fresh(task) && fresh(task.readyNode) && fresh(task.runtimeNode)
                && Taken(task, entry, stackSize, old(ids.Held()), old(heap.blocks), old(vm.live), old(vm.memory),
                         old(vm.journal.entries))
                && ids.Held() == old(ids.Held()) + {task.id} && Serves(task.stack, stackSize, vm.page.size)
      ensures status != Success ==>
                && Settles(old(ids.Held()), verdict, Refused(status))
                && vm.journal.entries == old(vm.journal.entries) + Heard(verdict, Refused(status))
                && ids.Held() == old(ids.Held()) && storage[..] == old(storage[..])
                && heap.blocks == old(heap.blocks) && vm.live == old(vm.live) && vm.memory == old(vm.memory)
    {
      hide Heap.Housed, Legal, Supported, NamesAgree, BasesAgree, Bitmap.Valid, MembersOf, LeastFree;
      hide Separate, Serves, Settles;
      hide Made, Heard, Agreed, Middle;
      status, task, verdict := Acquire(heap, ids, vm, boot, entry, stackSize);
    }

    /** `Acquire` on the runtime's own resources, entered in the books. */
    method Obtain(entry: Program, stackSize: nat) returns (status: Status, task: Task?, ghost verdict: Verdict)
      requires Settled() && Assembled() && Legal(stackSize, vm.page.size)
      modifies heap, storage, vm`live, vm`memory, vm.journal, this`byId, this`byBase
      ensures Settled()
      ensures status == Success ==>
                && task != null && fresh(task) && fresh(task.readyNode) && fresh(task.runtimeNode)
                && Taken(task, entry, stackSize, old(byId).Keys, old(heap.blocks), old(vm.live), old(vm.memory),
                         old(vm.journal.entries))
                && byId == old(byId)[task.id := task]
      ensures status != Success ==>
                && Settles(old(byId).Keys, verdict, Refused(status))
                && vm.journal.entries == old(vm.journal.entries) + Heard(verdict, Refused(status))
                && byId == old(byId) && byBase == old(byBase) && vm.memory == old(vm.memory)
                && storage[..] == old(storage[..]) && heap.blocks == old(heap.blocks) && vm.live == old(vm.live)
    {
      hide Heap.Housed, Legal, Supported, NamesAgree, BasesAgree, Bitmap.Valid, MembersOf, LeastFree;
      hide Separate, Serves, Settles;
      hide Heard, Taken;
      ghost var blocks, live, names, bases, page := heap.blocks, vm.live, byId, byBase, vm.page.size;
      ghost var memory, entries := vm.memory, vm.journal.entries;
      status, task, verdict := Fetch(entry, stackSize, blocks, names, bases, live, page);
      if status == Success {
        Enter(task, entry, stackSize, blocks, names, bases, live, memory, entries);
      } else {
        Rebook(names, bases);
      }
    }

    /** Enters what `Fetch` has taken for a new task. */
    ghost method Enter(task: Task, entry: Program, size: nat, blocks: set<Task>, names: map<nat, Task>,
                       bases: map<nat, Task>,
                       live: map<nat, Region>, memory: Memories.Memory, entries: seq<Entry>)
      requires NamesAgree(names, blocks) && BasesAgree(bases, blocks, live, vm.page.size)
      requires Taken(task, entry, size, names.Keys, blocks, live, memory, entries)
      requires Serves(task.stack, size, vm.page.size)
      requires ids.Valid() && ids.bits.words == storage && ids.bits.totalBits == CAPACITY
      requires ids.Held() == names.Keys + {task.id}
      requires vm.Valid() && Supported(vm.page.size) && heap.Housed(vm.live)
      modifies this`byId, this`byBase
      ensures Settled() && byId == names[task.id := task]
    {
      hide Heap.Housed, NamesAgree, BasesAgree, Bitmap.Valid, MembersOf, LeastFree, Separate, Serves, Taken, Supported;
      TakenFacts(task, entry, size, names.Keys, blocks, live, memory, entries);
      NamesAdd(names, blocks, task);
      BasesAdd(bases, blocks, live, vm.page.size, task);
      Rebook(names[task.id := task], bases[task.stack.mapping.base := task]);
    }

    /** `gt_list_push_back` of a new task's node onto the task list. */
    method Append(t: Task)
      requires AllSound() && Listed() && Queued()
      requires t !in ts && t !in zs && t.readyNode !in links && t.runtimeNode !in links
      requires t.Wired() && t.Detached() && t.readyNode.live && t.runtimeNode.live
      modifies tasks`nodes, tasks.head`prev, tasks.head`next
      modifies links`prev, links`next, t.runtimeNode`prev, t.runtimeNode`next, t.runtimeNode`home
      ensures AllSound() && Queued() && LinksTo(tasks, ts + [t]) && LinksTo(zombies, zs)
    {
      hide Linked, Around, AllSoundIn;
      Apart();
      NodesAreOurs(tasks, ts, |ts| - 1);
      PushBack(tasks, t.runtimeNode);
    }

    /** Counts a new task among the runtime's own. */
    ghost method Adopt(t: Task)
      requires AllSound() && Queued() && LinksTo(tasks, ts + [t]) && LinksTo(zombies, zs)
      requires t.Wired() && t.readyNode.home == null && t.readyNode.live && t.runtimeNode.live && t !in rq
      requires t.readyNode !in Heads() && t.runtimeNode !in Heads()
      modifies this`ts, this`links, this`repr
      ensures AllSound() && Listed() && Queued()
      ensures ts == old(ts) + [t] && links == old(links) + {t.readyNode, t.runtimeNode}
      ensures repr == old(repr) + {t, t.readyNode, t.runtimeNode}
    {
      hide List.Valid, Around;
      ts := ts + [t];
      links := links + {t.readyNode, t.runtimeNode};
      repr := repr + {t, t.readyNode, t.runtimeNode};
    }

    lemma NotWaiting(t: Task)
      requires Queued() && t !in ts
      ensures t !in rq
    {}

    lemma HeadsHaveHomes()
      requires Listed() && Queued()
      ensures forall n | n in Heads() :: n.home != null
    {}

    /** Links a new task at the end of the task list. */
    method Enlist(t: Task)
      requires AllSound() && Listed() && Queued()
      requires t !in ts && t !in zs && t.readyNode !in links && t.runtimeNode !in links
      requires t.Wired() && t.Detached() && t.readyNode.live && t.runtimeNode.live
      modifies this`ts, this`links, this`repr, tasks`nodes, tasks.head`prev, tasks.head`next
      modifies links`prev, links`next, t.runtimeNode`prev, t.runtimeNode`next, t.runtimeNode`home
      ensures AllSound() && Listed() && Queued()
      ensures ts == old(ts) + [t] && links == old(links) + {t.readyNode, t.runtimeNode} && t !in rq
      ensures repr == old(repr) + {t, t.readyNode, t.runtimeNode}
    {
      hide AllSoundIn, LinksTo, QueuedIn, List.Valid;
      NotWaiting(t);
      HeadsHaveHomes();
      Append(t);
      Adopt(t);
    }

    /** The books are right but for `t`, which is owned already and in no list yet. */
    ghost predicate RosteredBut(t: Task)
      reads this`byId, this`count, this`ts, this`zs, heap`blocks
    {
      && t in heap.blocks && t !in ts && t !in zs
      && |byId| == count + 1 && count == |ts| + |zs|
      && (forall u | u in ts :: u in heap.blocks && u !in zs)
      && (forall u | u in zs :: u in heap.blocks)
      && (forall u | u in heap.blocks :: u in ts || u in zs || u == t)
    }

    lemma DividedWith(t: Task)
      requires RosteredBut(t)
      ensures t !in ts && t !in zs && |byId| == count + 1 == |ts| + |zs| + 1 && Divided(heap.blocks, ts + [t], zs)
    {}

    lemma PartitionedAdd(out: Task?, rq: seq<Task>, ts: seq<Task>, zs: seq<Task>, t: Task)
      requires PartitionedIn(out, rq, ts, zs) && t !in ts && t !in zs
      requires t.state == ReadyTask && t.Poised(boot, vm.memory)
      ensures PartitionedIn(out, rq + [t], ts + [t], zs)
    {
      hide Task.Poised;
    }

    // The memory of waiting tasks while another task gets its first frame

    /** Pushing the frame of `u` does not reach the frame of another owned task. */
    lemma FrameStands(t: Task, u: Task, entry: Program, size: nat, before: Memories.Memory)
      requires Settled() && t in heap.blocks && u in heap.blocks && t != u
      requires Made(u, boot, entry, size, vm.memory, before) && t.Poised(boot, before)
      ensures t.Poised(boot, vm.memory)
    {
      hide Numbered, Separate, Framed, Contexts.Pushed, Memories.Read, Memories.Up, Memories.Down, Memories.Above;
      var mine, other := t.stack.base + t.stack.size, u.stack.base + u.stack.size;
      Contexts.PushedFacts(boot.code, before, other, boot.trampoline, u.address);
      OwnFrames(t, u);
      Contexts.FrameBytes(mine);
      Contexts.FrameBytes(other);
      assert Memories.Agree(vm.memory, before, Memories.Down(mine, 24), FRAME);
      Contexts.SameFrame(vm.memory, before, mine);
    }

    lemma OwnFrames(t: Task, u: Task)
      requires Settled() && t in heap.blocks && u in heap.blocks && t != u
      ensures var mine, other := t.stack.base + t.stack.size, u.stack.base + u.stack.size;
              mine - FRAME >= other || other - FRAME >= mine
    {
      hide Numbered, Separate;
      StacksAreApart(vm.live, vm.page.size, t.stack, u.stack);
    }

    lemma PartitionedStays(u: Task, entry: Program, size: nat, before: Memories.Memory)
      requires Settled() && u in heap.blocks && Made(u, boot, entry, size, vm.memory, before)
      requires forall t | t in rq :: t in heap.blocks && t != u
      requires PartitionedOver(current, rq, ts, zs, before)
      ensures Partitioned(current)
    {
      hide Settled, Made, Task.Poised;
      forall t | t in rq && t.Poised(boot, before) ensures t.Poised(boot, vm.memory) {
        FrameStands(t, u, entry, size, before);
      }
    }

    lemma MadeIsPoised(u: Task, entry: Program, size: nat, before: Memories.Memory)
      requires Made(u, boot, entry, size, vm.memory, before)
      ensures u.Poised(boot, vm.memory) && u.state == ReadyTask && u.rest == entry && !u.begun
    {
      hide Contexts.Pushed, Memories.Read, Memories.Down;
      Contexts.PushedFacts(boot.code, before, u.stack.base + u.stack.size, boot.trampoline, u.address);
    }

    /** A new task as it was asked for: its entry function, and a stack laid out for the size. */
    ghost predicate Ordered(t: Task, entry: Program, size: nat)
      reads t, vm.page
    {
      && t.state == ReadyTask && !t.begun && t.entry == t.rest == entry
      && t.request == size && Serves(t.stack, size, vm.page.size)
    }

    lemma TakenOrdered(t: Task, entry: Program, size: nat, names: set<nat>, blocks: set<Task>,
                       live: map<nat, Region>, memory: Memories.Memory, entries: seq<Entry>)
      requires Taken(t, entry, size, names, blocks, live, memory, entries) && Settled()
      ensures t.state == ReadyTask && !t.begun && t.entry == t.rest == entry
      ensures t.request == size && Serves(t.stack, size, vm.page.size)
    {
      hide Settled, Serves;
      StackServes(t);
    }

    lemma OrderedFrom(t: Task, entry: Program, size: nat)
      requires t.state == ReadyTask && !t.begun && t.entry == t.rest == entry
      requires t.request == size && Serves(t.stack, size, vm.page.size)
      ensures Ordered(t, entry, size)
    {}

    lemma OrderedRuns(t: Task, entry: Program, size: nat)
      requires Ordered(t, entry, size)
      ensures t.rest == entry && t.state == ReadyTask
    {}

    /** What an answer means for those who wait, given who waited before. */
    ghost predicate Enlisted(reply: Reply, before: seq<Task>, entry: Program, size: nat)
      reads this`rq, rq, vm.page
    {
      if reply.Created? then
        |rq| == |before| + 1 && rq[..|before|] == before && rq[|before|].id == reply.id
        && Ordered(rq[|before|], entry, size)
      else rq == before
    }

    /** Every owned task has the stack that was asked for. */
    lemma StackServes(t: Task)
      requires Settled() && t in heap.blocks
      ensures Serves(t.stack, t.request, vm.page.size)
    {
      hide Numbered, Serves, Separate;
    }

    /** No byte that could be accessed then has changed. */
    static ghost predicate Untouched(live: map<nat, Region>, before: Memories.Memory, after: Memories.Memory) {
      forall a: Memories.Word | Accessible(live, a) :: after(a) == before(a)
    }

    /** The frame of a new task is written where nobody had access. */
    lemma OthersUntouched(u: Task, entry: Program, size: nat, live: map<nat, Region>, before: Memories.Memory)
      requires Settled() && u in heap.blocks && Made(u, boot, entry, size, vm.memory, before)
      requires u.stack.mapping.base !in live && vm.live == live[u.stack.mapping.base := RegionOf(u.stack)]
      ensures Untouched(live, before, vm.memory)
    {
      hide Numbered, Serves, Separate, Contexts.Pushed, Memories.Read, Memories.Up, Memories.Above;
      var top := u.stack.base + u.stack.size;
      Contexts.PushedFacts(boot.code, before, top, boot.trampoline, u.address);
      Contexts.FrameBytes(top);
      forall a: Memories.Word | Accessible(live, a) ensures vm.memory(a) == before(a) {
        var b :| b in live && live[b].openAt <= a < live[b].openAt + live[b].openSize;
        var t := byBase[b];
        assert vm.live[b] == live[b] == RegionOf(t.stack);
        OwnStacks(t, u);
      }
    }

    lemma OwnStacks(t: Task, u: Task)
      requires Settled() && t in heap.blocks && u in heap.blocks && t != u
      ensures t.stack.base + t.stack.size <= u.stack.base || u.stack.base + u.stack.size <= t.stack.base
      ensures u.stack.size >= FRAME
    {
      hide Numbered, Separate;
      StacksAreApart(vm.live, vm.page.size, t.stack, u.stack);
    }

    // The steps of creation

    /** `Obtain`, as the lists see it. */
    method Grab(entry: Program, stackSize: nat) returns (status: Status, task: Task?, ghost verdict: Verdict)
      requires AllSound() && Listed() && Queued() && Settled() && Partitioned(current) && Reflects(model, rq, zs)
      requires Legal(stackSize, vm.page.size)
      modifies heap, storage, vm`live, vm`memory, vm.journal, this`byId, this`byBase
      ensures AllSound() && Listed() && Queued() && Settled() && Reflects(model, rq, zs)
      ensures PartitionedOver(current, rq, ts, zs, old(vm.memory))
      ensures Steady() && unchanged(`rq, `ts, `zs, `count, `repr, `links, `state)
      ensures unchanged(`model, `verdicts, `dispatched, `answered, `events, `since)
      ensures status == Success ==>
                && task != null && fresh(task) && fresh(task.readyNode) && fresh(task.runtimeNode)
                && Taken(task, entry, stackSize, old(byId).Keys, old(heap.blocks), old(vm.live), old(vm.memory),
                         old(vm.journal.entries))
                && byId == old(byId)[task.id := task]
      ensures status != Success ==>
                && Settles(old(byId).Keys, verdict, Refused(status))
                && vm.journal.entries == old(vm.journal.entries) + Heard(verdict, Refused(status))
                && byId == old(byId) && storage[..] == old(storage[..]) && vm.memory == old(vm.memory)
                && heap.blocks == old(heap.blocks) && vm.live == old(vm.live)
    {
      hide Legal, AllSoundIn, Listed, Queued, Settled, PartitionedOver, Settles, Reflects, Heard, Taken;
      Apart();
      status, task, verdict := Obtain(entry, stackSize);
    }

    /** The acquiring half of creation: refused, nothing has changed; granted, only the lists lack the new task. */
    method Attempt(entry: Program, stackSize: nat) returns (status: Status, task: Task?, ghost verdict: Verdict)
      requires Between(current) && Legal(stackSize, vm.page.size)
      modifies heap, storage, vm`live, vm`memory, vm.journal, this`byId, this`byBase
      ensures AllSound() && Listed() && Queued() && Settled() && Partitioned(current) && Reflects(model, rq, zs)
      ensures Untouched(old(vm.live), old(vm.memory), vm.memory)
      ensures Steady() && unchanged(`rq, `ts, `zs, `count, `repr, `links, `state)
      ensures unchanged(`model, `verdicts, `dispatched, `answered, `events, `since)
      ensures status == Success ==>
                && task != null && fresh(task) && fresh(task.readyNode) && fresh(task.runtimeNode)
                && Taken(task, entry, stackSize, old(byId).Keys, old(heap.blocks), old(vm.live), old(vm.memory),
                         old(vm.journal.entries))
                && byId == old(byId)[task.id := task]
                && task.state == ReadyTask && task.rest == entry && task.Poised(boot, vm.memory) && RosteredBut(task)
      ensures status != Success ==>
                && Settles(old(byId).Keys, verdict, Refused(status)) && Rostered()
                && vm.journal.entries == old(vm.journal.entries) + Heard(verdict, Refused(status))
                && byId == old(byId) && storage[..] == old(storage[..]) && vm.memory == old(vm.memory)
                && heap.blocks == old(heap.blocks) && vm.live == old(vm.live)
    {
      hide Legal, AllSound, Listed, Queued, Settled, PartitionedOver, Settles, Reflects, LeastFree;
      hide Made, Accessible, Task.Poised, Heard, Taken, RosteredIn;
      ghost var names, before, blocks, live, entries := byId, vm.memory, heap.blocks, vm.live, vm.journal.entries;
      RosterNames();
      WaitingAreOwned();
      RosterDivides();
      status, task, verdict := Grab(entry, stackSize);
      if status == Success {
        TakenFacts(task, entry, stackSize, names.Keys, blocks, live, before, entries);
        RosterGrows(blocks, names, task);
        MadeIsPoised(task, entry, stackSize, before);
        PartitionedStays(task, entry, stackSize, before);
        OthersUntouched(task, entry, stackSize, live, before);
      } else {
        RosterFrom();
      }
    }

    lemma RosterDivides()
      requires Rostered()
      ensures |byId| == count == |ts| + |zs| && Divided(heap.blocks, ts, zs)
    {}

    lemma RosterGrows(blocks: set<Task>, names: map<nat, Task>, t: Task)
      requires |names| == count == |ts| + |zs| && Divided(blocks, ts, zs)
      requires heap.blocks == blocks + {t} && t !in blocks && t.id !in names && byId == names[t.id := t]
      ensures RosteredBut(t)
    {
      assert |byId| == |names| + 1;
    }

    lemma WaitingAreOwned()
      requires Queued() && Rostered()
      ensures forall t | t in rq :: t in heap.blocks
    {}

    lemma RosterNames()
      requires Settled()
      ensures LeastFree(byId.Keys) !in byId
    {}

    /** A new task that has joined the task list, and is in the ready queue no more than in the count. */
    ghost predicate Joining(t: Task, before: seq<Task>)
      reads *
    {
      && AllSound() && Listed() && Queued() && Settled() && PartitionedIn(current, rq, before, zs)
      && Reflects(model, rq, zs) && ts == before + [t] && t !in before && t !in zs && t !in rq
      && |byId| == count + 1 == |ts| + |zs| && Divided(heap.blocks, ts, zs)
      && t.state == ReadyTask && t.Poised(boot, vm.memory)
    }

    /** The new task joins the task list. */
    method Enroll(t: Task)
      requires AllSound() && Listed() && Queued() && Settled() && RosteredBut(t) && Partitioned(current)
      requires Reflects(model, rq, zs) && t.state == ReadyTask && t.Poised(boot, vm.memory)
      requires t.Wired() && t.Detached() && t.readyNode.live && t.runtimeNode.live
      requires t.readyNode !in links && t.runtimeNode !in links
      modifies this`ts, this`links, this`repr, tasks`nodes, tasks.head`prev, tasks.head`next
      modifies links`prev, links`next, t.runtimeNode`prev, t.runtimeNode`next, t.runtimeNode`home
      ensures Joining(t, old(ts)) && Steady() && ts == old(ts) + [t]
      ensures unchanged(`rq, `byId, `count, heap, vm, vm.journal, t)
      ensures links == old(links) + {t.readyNode, t.runtimeNode}
      ensures repr == old(repr) + {t, t.readyNode, t.runtimeNode}
    {
      hide AllSound, Listed, Queued, Settled, PartitionedIn, Reflects, RosteredBut, Divided, Task.Poised;
      DividedWith(t);
      Enlist(t);
    }

    /** The scheduler is asked about the new task. */
    method Ask(t: Task, ghost before: seq<Task>) returns (status: Status)
      requires Joining(t, before)
      modifies vm.journal
      ensures Joining(t, before) && Steady()
      ensures vm.journal.entries == old(vm.journal.entries) + [Said(Admission, status)]
      ensures unchanged(`rq, `ts, `byId, `count, `links, `repr, heap, vm, t)
      ensures vm.memory == old(vm.memory)
    {
      hide AllSound, Listed, Queued, Settled, PartitionedIn, Reflects, Divided, Task.Poised;
      status := scheduler.Consider(vm.journal);
    }

    /** The scheduler admits the new task, and it is counted. */
    method Accept(t: Task, ghost before: seq<Task>)
      requires Joining(t, before)
      modifies this`rq, this`count, Ready()`nodes, Ready().head`prev, Ready().head`next
      modifies links`prev, links`next, links`home
      ensures AllSound() && Listed() && Queued() && Rostered() && Settled() && Partitioned(current)
      ensures Reflects(model, old(rq), zs) && Steady()
      ensures rq == old(rq) + [t] && count == old(count) + 1 && unchanged(`ts, `byId, `repr, vm.journal, t)
      ensures vm.memory == old(vm.memory)
    {
      hide AllSound, Listed, Queued, Settled, PartitionedIn, Reflects, Divided, Task.Poised;
      PartitionedAdd(current, rq, before, zs, t);
      Enqueue(t);
      Recount(old(rq));
    }

    /** The count catches up with the lists. */
    method Recount(ghost before: seq<Task>)
      requires Reflects(model, before, zs) && AllSound() && Listed() && Queued() && Settled() && Partitioned(current)
      requires |byId| == count + 1 == |ts| + |zs| && Divided(heap.blocks, ts, zs)
      modifies this`count
      ensures AllSound() && Listed() && Queued() && Rostered() && Settled() && Partitioned(current)
      ensures count == old(count) + 1 && Reflects(model, before, zs)
      ensures unchanged(`rq, `ts, `zs, `byId, `links, `state, `model, `verdicts, `repr, `current)
      ensures unchanged(`dispatched, `answered, `events, `since)
    {
      hide AllSound, Listed, Queued, Settled, PartitionedIn, Divided, Reflects;
      count := count + 1;
    }

    lemma LastOut(t: Task, before: seq<Task>)
      requires Listed() && Divided(heap.blocks, ts, zs) && ts == before + [t]
      ensures Position(t, tasks, |before|, before, zs) && Without(t, before, zs) && t in heap.blocks
      ensures Divided(heap.blocks - {t}, before, zs)
    {
      hide LinksTo;
      OneGoes(|before|);
      assert Cut(ts, |before|) == before;
    }

    /** The rollback after a refused admission: the task leaves the task list, and what it holds is given back. */
    method Withdraw(t: Task, ghost before: seq<Task>)
      requires Joining(t, before)
      modifies this`ts, this`links, this`zs, this`byId, this`byBase, heap, storage, vm`live
      modifies tasks`nodes, tasks.head`prev, tasks.head`next, links`prev, links`next, links`home, links`live
      modifies t
      ensures AllSound() && Listed() && Queued() && Rostered() && Settled() && Partitioned(current)
      ensures Reflects(model, rq, zs) && Steady()
      ensures ts == before && byId == old(byId) - {old(t.id)} && unchanged(`rq, `count, `repr, vm.journal)
      ensures heap.blocks == old(heap.blocks) - {t} && vm.live == old(vm.live) - {old(t.stack.mapping.base)}
      ensures links == old(links) - {t.readyNode, t.runtimeNode}
      ensures vm.memory == old(vm.memory)
    {
      hide AllSound, Listed, Queued, Settled, PartitionedOver, Reflects, Divided, RosteredIn, Without, Cut, Task.Poised;
      LastOut(t, before);
      NotCurrent(t, before);
      ghost var blocks := heap.blocks;
      Dispose(t, tasks, |before|, before, zs);
      assert heap.blocks == blocks - {t};
      RosterFrom();
    }

    lemma NotCurrent(t: Task, before: seq<Task>)
      requires PartitionedIn(current, rq, before, zs) && t !in before
      ensures current != t
    {}

    /** The last part of `__gt_runtime_task_create`: the new task joins the task list, and the ready queue if the
        scheduler admits it; otherwise it is taken out again and what it holds is given back. */
    method Join(t: Task) returns (status: Status)
      requires AllSound() && Listed() && Queued() && Settled() && RosteredBut(t) && Partitioned(current)
      requires Reflects(model, rq, zs) && t.state == ReadyTask && t.Poised(boot, vm.memory)
      requires t.Wired() && t.Detached() && t.readyNode.live && t.runtimeNode.live
      requires t.readyNode !in links && t.runtimeNode !in links
      modifies this`rq, this`ts, this`zs, this`links, this`repr, this`count, this`byId, this`byBase
      modifies heap, storage, vm`live, vm.journal, ListSet(), Heads(), links, t, t.readyNode, t.runtimeNode
      ensures vm.journal.entries == old(vm.journal.entries) + [Said(Admission, status)]
      ensures AllSound() && Listed() && Queued() && Rostered() && Settled() && Partitioned(current)
      ensures Reflects(model, old(rq), zs) && Steady() && repr == old(repr) + {t, t.readyNode, t.runtimeNode}
      ensures status == Success ==>
                && rq == old(rq) + [t] && ts == old(ts) + [t] && count == old(count) + 1 && byId == old(byId)
                && unchanged(t)
      ensures status != Success ==>
                && rq == old(rq) && ts == old(ts) && count == old(count) && byId == old(byId) - {old(t.id)}
                && heap.blocks == old(heap.blocks) - {t} && vm.live == old(vm.live) - {old(t.stack.mapping.base)}
                && links == old(links)
      ensures vm.memory == old(vm.memory)
    {
      hide AllSound, Listed, Queued, Settled, PartitionedIn, Reflects, RosteredBut, RosteredIn, Task.Poised, Joining;
      ghost var before, ours := ts, links;
      AddedAndGone(ours, t.readyNode, t.runtimeNode);
      Enroll(t);
      status := Ask(t, before);
      if status == Success {
        Accept(t, before);
      } else {
        Withdraw(t, before);
      }
    }

    lemma AddedAndGone(ours: set<Node>, n: Node, o: Node)
      requires n !in ours && o !in ours
      ensures ours + {n, o} - {n, o} == ours
    {}

    /** The words hold nothing but the identifiers. */
    lemma StorageHoldsNames()
      requires Settled()
      ensures Shaped(storage[..], CAPACITY) && MembersOf(storage[..], CAPACITY) == byId.Keys
    {
      hide Mapped, NamesAgree;
    }

    lemma SameNamesSameWords(words: seq<Word>)
      requires Settled() && Shaped(words, CAPACITY) && |words| == storage.Length
      requires MembersOf(words, CAPACITY) == byId.Keys
      ensures storage[..] == words
    {
      hide Shaped, MembersOf, Settled;
      StorageHoldsNames();
      MembersDetermineWords(storage[..], words, CAPACITY);
    }

    /** What is heard from the scheduler completes the transcript of the attempt. */
    lemma HeardLast(entries: seq<Entry>, status: Status, id: nat)
      ensures entries + (Agreed(1) + Middle(4)) + [Said(Admission, status)]
              == entries + if status == Success then Heard(Granted, Created(id))
                           else Heard(NoAdmission(status), Refused(status))
    {
      hide Agreed;
      MiddleLists();
      HeardInParts(NoAdmission(status), Refused(status));
      HeardInParts(Granted, Created(id));
      var last := [Said(Admission, status)];
      assert entries + (Agreed(1) + Middle(4)) + last == entries + (Agreed(1) + (Middle(4) + last));
    }

    lemma AnswersOf(names: set<nat>, status: Status)
      requires LeastFree(names) < CAPACITY
      ensures Settles(names, Granted, Created(LeastFree(names)))
      ensures status != Success ==> Settles(names, NoAdmission(status), Refused(status))
    {}

    /** What was taken for a new task is put to use, or given back to the last word. */
    method Finish(t: Task, entry: Program, ghost size: nat, ghost names: map<nat, Task>, ghost blocks: set<Task>,
                  ghost live: map<nat, Region>, ghost memory: Memories.Memory, ghost entries: seq<Entry>,
                  ghost words: seq<Word>)
      returns (status: Status, ghost verdict: Verdict)
      requires AllSound() && Listed() && Queued() && Settled() && RosteredBut(t) && Partitioned(current)
      requires Reflects(model, rq, zs) && t.state == ReadyTask && t.rest == entry && t.Poised(boot, vm.memory)
      requires t.readyNode !in links && t.runtimeNode !in links
      requires Taken(t, entry, size, names.Keys, blocks, live, memory, entries)
      requires byId == names[t.id := t] && LeastFree(names.Keys) !in names
      requires Shaped(words, CAPACITY) && |words| == storage.Length && MembersOf(words, CAPACITY) == names.Keys
      modifies this`rq, this`ts, this`zs, this`links, this`repr, this`count, this`byId, this`byBase
      modifies heap, storage, vm`live, vm.journal, ListSet(), Heads(), links, t, t.readyNode, t.runtimeNode
      ensures AllSound() && Listed() && Queued() && Rostered() && Settled() && Partitioned(current)
      ensures Reflects(model, old(rq), zs) && Steady() && repr == old(repr) + {t, t.readyNode, t.runtimeNode}
      ensures status == Success ==>
                && Settles(names.Keys, verdict, Created(LeastFree(names.Keys)))
                && vm.journal.entries == entries + Heard(verdict, Created(t.id))
                && t.id == LeastFree(names.Keys) && Ordered(t, entry, size)
                && ts == old(ts) + [t] && rq == old(rq) + [t] && count == old(count) + 1 && byId == names[t.id := t]
      ensures status != Success ==>
                && Settles(names.Keys, verdict, Refused(status))
                && vm.journal.entries == entries + Heard(verdict, Refused(status))
                && rq == old(rq) && ts == old(ts) && count == old(count) && byId == names
                && storage[..] == words && heap.blocks == blocks && vm.live == live
      ensures vm.memory == old(vm.memory)
    {
      hide AllSound, Listed, Queued, Settled, PartitionedIn, RosteredIn, Settles, LeastFree, Reflects;
      hide Ordered, Made, Serves, Heard, Taken, Shaped, MembersOf, RosteredBut, Task.Poised;
      TakenFacts(t, entry, size, names.Keys, blocks, live, memory, entries);
      TakenReady(t, entry, size, names.Keys, blocks, live, memory, entries);
      TakenOrdered(t, entry, size, names.Keys, blocks, live, memory, entries);
      ghost var id := t.id;
      GivenBack(blocks, names, live, t, id, t.stack.mapping.base, RegionOf(t.stack));
      AnswersOf(names.Keys, Success);
      status := Join(t);
      if status == Success {
        OrderedFrom(t, entry, size);
      }
      HeardLast(entries, status, id);
      verdict := Granted;
      if status != Success {
        verdict := NoAdmission(status);
        AnswersOf(names.Keys, status);
        SameNamesSameWords(words);
      }
    }

    /** `__gt_runtime_task_create`: acquires everything a task needs and links it, or changes nothing. */
    method MakeTask(entry: Program, stackSize: nat) returns (status: Status, task: Task?, ghost verdict: Verdict)
      requires Between(current) && Legal(stackSize, vm.page.size)
      modifies heap, storage, vm`live, vm`memory, vm.journal, this`byId, this`byBase
      modifies this`rq, this`ts, this`zs, this`links, this`repr, this`count
      modifies ListSet(), Heads(), links
      ensures AllSound() && Listed() && Queued() && Rostered() && Settled() && Partitioned(current)
      ensures Reflects(model, old(rq), zs) && Steady() && Untouched(old(vm.live), old(vm.memory), vm.memory)
      ensures task == null ==> repr == old(repr)
      ensures task != null ==>
                && fresh(task) && fresh(task.readyNode) && fresh(task.runtimeNode)
                && repr == old(repr) + {task, task.readyNode, task.runtimeNode}
      ensures status == Success ==>
                && Settles(old(byId).Keys, verdict, Created(LeastFree(old(byId).Keys)))
                && task != null && vm.journal.entries == old(vm.journal.entries) + Heard(verdict, Created(task.id))
                && task.id == LeastFree(old(byId).Keys) && Ordered(task, entry, stackSize)
                && ts == old(ts) + [task] && rq == old(rq) + [task] && count == old(count) + 1
                && byId == old(byId)[task.id := task]
      ensures status != Success ==>
                && Settles(old(byId).Keys, verdict, Refused(status))
                && vm.journal.entries == old(vm.journal.entries) + Heard(verdict, Refused(status))
                && rq == old(rq) && ts == old(ts) && count == old(count) && byId == old(byId)
                && storage[..] == old(storage[..]) && heap.blocks == old(heap.blocks) && vm.live == old(vm.live)
    {
      hide Legal, AllSound, Listed, Queued, Settled, PartitionedIn, RosteredIn, Settles, LeastFree, Reflects;
      hide Heard, Taken, Shaped, MembersOf, RosteredBut, Task.Poised, Untouched, Ordered;
      ghost var words, names, entries, blocks, live := storage[..], byId, vm.journal.entries, heap.blocks, vm.live;
      ghost var memory := vm.memory;
      StorageHoldsNames();
      RosterNames();
      status, task, verdict := Attempt(entry, stackSize);
      if status == Success {
        status, verdict := Finish(task, entry, stackSize, names, blocks, live, memory, entries, words);
      } else {
        task := null;
      }
    }

    /** Taken and given back. */
    lemma GivenBack(blocks: set<Task>, names: map<nat, Task>, live: map<nat, Region>, t: Task, id: nat, base: nat,
                    region: Region)
      requires t !in blocks && id !in names && base !in live
      ensures blocks + {t} - {t} == blocks && names[id := t] - {id} == names && live[base := region] - {base} == live
    {}

    lemma TakenReady(task: Task, entry: Program, size: nat, names: set<nat>, blocks: set<Task>,
                     live: map<nat, Region>, memory: Memories.Memory, entries: seq<Entry>)
      requires Taken(task, entry, size, names, blocks, live, memory, entries)
      ensures task.Wired() && task.Detached() && task.readyNode.live && task.runtimeNode.live
      ensures vm.journal.entries == entries + (Agreed(1) + Middle(4)) && LeastFree(names) < CAPACITY
    {}

    /** Enters the outcome of a creation attempt. */
    method Record(reply: Reply, size: nat, ghost verdict: Verdict, ghost c: Config)
      requires AllSound() && Listed() && Queued() && Rostered() && Settled() && Partitioned(current)
      requires state != Uninitialized && (current != null ==> current.state == RunningTask && current.begun)
      requires c.phase == state && c.ids == byId.Keys && Reflects(c, rq, zs) && c.current == CurrentRecord()
      requires c.trace == dispatched && c.replies == answered + [reply] && c.credible
      requires |verdicts| == |answered| && Evidence.AllMatch(verdicts, answered) && Evidence.Matches(verdict, reply)
      requires vm.journal.entries == since + Transcript(verdicts, answered) + Heard(verdict, reply)
      requires c.events == events + [Told(if current == null then None else Some(current.id), size, reply)]
      modifies this`verdicts, this`model, this`answered, this`events
      ensures Valid() && model == c && verdicts == old(verdicts) + [verdict] && answered == old(answered) + [reply]
      ensures unchanged(`repr, `current) && (current != null ==> current.rest == old(current.rest))
    {
      hide Evidence.AllMatch;
      hide AllSound, Listed, Queued, Settled, Partitioned, Rostered, Reflects, Transcript, Heard, Evidence.Matches;
      TranscriptSnoc(verdicts, answered, verdict, reply);
      Evidence.AllMatchSnoc(verdicts, answered, verdict, reply);
      answered := answered + [reply];
      events := events + [Told(if current == null then None else Some(current.id), size, reply)];
      verdicts := verdicts + [verdict];
      model := c;
    }

    lemma ReflectsReplied(c: Config, rq: seq<Task>, zs: seq<Task>, reply: Reply, e: Event)
      requires Reflects(c, rq, zs)
      ensures Reflects(c.(replies := c.replies + [reply], events := c.events + [e]), rq, zs)
    {}

    lemma ReflectsCreated(c: Config, rq: seq<Task>, zs: seq<Task>, t: Task, size: nat)
      requires Reflects(c, rq, zs)
      ensures Reflects(Granting(c, t.id, t.rest, size), rq + [t], zs)
    {}

    /** `gt_runtime_create_task`: all or nothing, and the answer says which.

        The caller may be main or a running task; the state must not be uninitialized. */
    method CreateTask(entry: Program, stackSize: nat) returns (status: Status)
      requires Valid() && Legal(stackSize, vm.page.size)
      modifies repr
      ensures Valid() && fresh(repr - old(repr))
      ensures |verdicts| == |old(verdicts)| + 1 && verdicts[..|old(verdicts)|] == old(verdicts)
      ensures Credible(old(model).ids, verdicts[|old(verdicts)|])
      ensures var reply := Answer(old(model).ids, verdicts[|old(verdicts)|]);
              && model == Create(old(model), entry, stackSize, verdicts[|old(verdicts)|])
              && answered == old(answered) + [reply] && dispatched == old(dispatched)
              && (status == Success <==> reply.Created?) && (status != Success ==> reply == Refused(status))
              && vm.journal.entries == old(vm.journal.entries) + Heard(verdicts[|old(verdicts)|], reply)
      ensures Enlisted(answered[|old(answered)|], old(rq), entry, stackSize)
      ensures Untouched(old(vm.live), old(vm.memory), vm.memory) && Spared(old(heap.blocks), null)
      ensures current == old(current) && (current != null ==> current.rest == old(current.rest))
      ensures since == old(since) && vm.page.size == old(vm.page.size)
    {
      hide Between, Legal, Create, Answer, Credible, Heard, Enlisted, Ordered, Untouched;
      EverythingIsOurs();
      var task;
      ghost var verdict;
      ghost var before := rq;
      status, task, verdict := CreateHere(entry, stackSize);
      EnlistedBy(answered[|answered| - 1], before, entry, stackSize, task);
    }

    lemma EnlistedBy(reply: Reply, before: seq<Task>, entry: Program, size: nat, t: Task?)
      requires reply.Created? ==> t != null && rq == before + [t] && Ordered(t, entry, size) && reply.id == t.id
      requires reply.Refused? ==> rq == before
      ensures Enlisted(reply, before, entry, size)
    {
      hide Ordered;
    }

    /** A creation attempt, with what it may change. */
    method CreateHere(entry: Program, stackSize: nat) returns (status: Status, task: Task?, ghost verdict: Verdict)
      requires Valid() && Legal(stackSize, vm.page.size)
      modifies heap, storage, vm`live, vm`memory, vm.journal, this`byId, this`byBase
      modifies this`rq, this`ts, this`zs, this`links, this`repr, this`count, this`verdicts, this`model
      modifies this`answered, this`events, ListSet(), Heads(), links
      ensures Valid() && verdicts == old(verdicts) + [verdict] && Credible(old(model).ids, verdict)
      ensures task == null ==> repr == old(repr)
      ensures task != null ==>
                && fresh(task) && fresh(task.readyNode) && fresh(task.runtimeNode)
                && repr == old(repr) + {task, task.readyNode, task.runtimeNode}
      ensures var reply := Answer(old(model).ids, verdict);
              && model == Create(old(model), entry, stackSize, verdict)
              && answered == old(answered) + [reply] && dispatched == old(dispatched)
              && (status == Success <==> reply.Created?) && (status != Success ==> reply == Refused(status))
              && vm.journal.entries == old(vm.journal.entries) + Heard(verdict, reply)
      ensures status == Success ==>
                && task != null && rq == old(rq) + [task] && Ordered(task, entry, stackSize)
                && answered == old(answered) + [Created(task.id)]
      ensures status != Success ==> rq == old(rq)
      ensures Untouched(old(vm.live), old(vm.memory), vm.memory)
      ensures current == old(current) && (current != null ==> current.rest == old(current.rest))
      ensures vm.page.size == old(vm.page.size)
    {
      hide Valid, Between, AllSound, Listed, Queued, Settled, Partitioned, Legal;
      hide Rostered, LeastFree, Reflects, Create, Answer, Settles, Credible, Granting, Heard, Transcript;
      hide Evidence.Matches, Evidence.AllMatch, Untouched, Ordered;
      FixedParts();
      ghost var names, before := byId, rq;
      status, task, verdict := MakeTask(entry, stackSize);
      var reply := if status == Success then Created(task.id) else Refused(status);
      if status == Success {
        OrderedRuns(task, entry, stackSize);
      }
      Outcome(entry, stackSize, verdict, reply, task, names, before);
      Record(reply, stackSize, verdict, Create(model, entry, stackSize, verdict));
    }

    /** What the machine makes of the attempt. */
    lemma Outcome(entry: Program, size: nat, verdict: Verdict, reply: Reply, task: Task?, names: map<nat, Task>,
                  before: seq<Task>)
      requires Reflects(model, before, zs) && model.ids == names.Keys && model.credible
      requires Settles(names.Keys, verdict, reply)
      requires reply.Created? ==>
                 && task != null && reply.id == task.id && task.rest == entry
                 && rq == before + [task] && byId == names[task.id := task]
      requires reply.Refused? ==> rq == before && byId == names
      ensures var c := Create(model, entry, size, verdict);
              && c.phase == model.phase && c.ids == byId.Keys && Reflects(c, rq, zs) && c.current == model.current
              && c.trace == model.trace && c.replies == model.replies + [reply] && c.credible
              && c.events == model.events + [Told(Asker(model), size, reply)]
      ensures Credible(names.Keys, verdict) && Answer(names.Keys, verdict) == reply && Evidence.Matches(verdict, reply)
    {
      hide Reflects, Create, Answer, Granting, Credible, Evidence.Matches;
      Evidence.SettledMatches(names.Keys, verdict, reply);
      CreateCases(model, entry, size, verdict);
      if reply.Created? {
        KeysAdd(names, task.id, task);
        GrantingFields(model, task.id, entry, size);
        ReflectsCreated(model, before, zs, task, size);
      } else {
        ReflectsReplied(model, rq, zs, reply, Told(Asker(model), size, reply));
      }
    }

    /** What an attempt to create a task has to know. */
    lemma FixedParts()
      requires Valid()
      ensures Between(current) && (current != null ==> current.state == RunningTask && current.begun)
      ensures model.current == CurrentRecord() && state != Uninitialized
      ensures model.phase == state && model.ids == byId.Keys && model.trace == dispatched && model.replies == answered
      ensures model.events == events
      ensures |verdicts| == |answered| && vm.journal.entries == since + Transcript(verdicts, answered)
      ensures model.credible && Evidence.AllMatch(verdicts, answered)
    {
      hide AllSound, Listed, Queued, Settled, Rostered, Partitioned, Reflects, Transcript;
    }

    lemma KeysAdd(names: map<nat, Task>, id: nat, t: Task)
      ensures names[id := t].Keys == names.Keys + {id}
    {}

    // Destruction

    /** `Release` on the runtime's own resources, as the tasks of `rest` see it. */
    method Part(t: Task, ghost rest: set<Task>, ghost names: map<nat, Task>, ghost bases: map<nat, Task>,
                ghost live: map<nat, Region>, ghost page: nat)
      requires t !in rest && NamesAgree(names, rest) && BasesAgree(bases, rest, live, page)
      requires t in heap.blocks && t.readyNode.live && t.runtimeNode.live
      requires ids.Valid() && ids.bits.words == storage && t.id in ids.Held()
      requires vm.Valid() && t.stack.mapping.base in vm.live && vm.live[t.stack.mapping.base] == RegionOf(t.stack)
      requires heap.Housed(vm.live)
      modifies heap, storage, vm`live
      modifies t, t.readyNode`prev, t.readyNode`next, t.readyNode`live
      modifies t.runtimeNode`prev, t.runtimeNode`next, t.runtimeNode`live
      ensures NamesAgree(names, rest) && BasesAgree(bases, rest, live, page)
      ensures ids.Valid() && ids.bits.words == storage && ids.Held() == old(ids.Held()) - {old(t.id)}
      ensures vm.Valid() && vm.live == old(vm.live) - {old(t.stack.mapping.base)}
      ensures heap.blocks == old(heap.blocks) - {t} && heap.Housed(vm.live)
    {
      hide Heap.Housed, NamesAgree, BasesAgree, Bitmap.Valid, MembersOf, Separate;
      Release(heap, ids, vm, t);
    }

    /** Enters which task holds what. */
    ghost method Rebook(names: map<nat, Task>, bases: map<nat, Task>)
      requires ids.Valid() && ids.bits.words == storage && ids.bits.totalBits == CAPACITY && ids.Held() == names.Keys
      requires vm.Valid() && Supported(vm.page.size) && heap.Housed(vm.live)
      requires NamesAgree(names, heap.blocks) && BasesAgree(bases, heap.blocks, vm.live, vm.page.size)
      modifies this`byId, this`byBase
      ensures Settled() && byId == names && byBase == bases
    {
      hide Heap.Housed, NamesAgree, BasesAgree, Bitmap.Valid, MembersOf, Separate, Supported;
      byId, byBase := names, bases;
    }

    /** Takes a task's resources off the books. */
    method Discard(t: Task)
      requires Settled() && t in heap.blocks && t.readyNode.live && t.runtimeNode.live
      modifies heap, storage, vm`live, this`byId, this`byBase
      modifies t, t.readyNode`prev, t.readyNode`next, t.readyNode`live
      modifies t.runtimeNode`prev, t.runtimeNode`next, t.runtimeNode`live
      ensures Settled() && vm.live == old(vm.live) - {old(t.stack.mapping.base)}
      ensures heap.blocks == old(heap.blocks) - {t} && byId == old(byId) - {old(t.id)} && |byId| == |old(byId)| - 1
    {
      hide Heap.Housed, NamesAgree, BasesAgree, Bitmap.Valid, MembersOf, Separate, Supported;
      ghost var rest, names, bases, live := Listing(t);
      Part(t, rest, names, bases, live, vm.page.size);
      assert heap.blocks == rest && vm.live == live;
      Rebook(names, bases);
    }

    /** The books without an owned task. */
    lemma Listing(t: Task)
      returns (rest: set<Task>, names: map<nat, Task>, bases: map<nat, Task>, live: map<nat, Region>)
      requires Settled() && t in heap.blocks
      ensures t.id in ids.Held()
      ensures t.stack.mapping.base in vm.live && vm.live[t.stack.mapping.base] == RegionOf(t.stack)
      ensures rest == heap.blocks - {t} && NamesAgree(names, rest) && BasesAgree(bases, rest, live, vm.page.size)
      ensures live == vm.live - {t.stack.mapping.base}
      ensures names == byId - {t.id} && names.Keys == byId.Keys - {t.id} && |names| == |byId| - 1
    {
      NamesRemove(byId, heap.blocks, t);
      BasesRemove(byBase, heap.blocks, vm.live, vm.page.size, t);
      rest, live := heap.blocks - {t}, vm.live - {t.stack.mapping.base};
      names, bases := byId - {t.id}, byBase - {t.stack.mapping.base};
    }

    /** Without `t` the runtime's lists hold the tasks of `others` and `dead`. */
    ghost predicate Without(t: Task, others: seq<Task>, dead: seq<Task>)
      reads this`ts, this`zs
    {
      && (t in ts || t in zs) && |others| + |dead| == |ts| + |zs| - 1
      && (forall u | u in others :: u in ts && u != t)
      && (forall u | u in dead :: u in zs && u != t)
      && (forall u | u in ts :: u == t || u in others)
      && (forall u | u in zs :: u == t || u in dead)
    }

    lemma StillSound(t: Task, others: seq<Task>, dead: seq<Task>)
      requires AllSound() && Without(t, others, dead)
      ensures Assembled() && t.readyNode in links && t.runtimeNode in links && t.readyNode.live && t.runtimeNode.live
      ensures t.readyNode !in Heads() && t.runtimeNode !in Heads()
      ensures forall u | u in others || u in dead ::
                && u.readyNode in links - {t.readyNode, t.runtimeNode}
                && u.runtimeNode in links - {t.readyNode, t.runtimeNode} && Sound(u)
    {
      OwnNodes(t);
      assert forall u | u in ts || u in zs :: Sound(u);
    }

    /** No list links a node that is not the runtime's own. */
    lemma Unlinked(n: Node)
      requires AllSound() && Listed() && n !in links && n !in Heads()
      ensures n !in tasks.nodes && n != tasks.head && n !in zombies.nodes && n != zombies.head
      ensures Queued() ==> n !in Ready().nodes && n != Ready().head
    {
      hide List.Valid;
      assert forall i | 0 <= i < |ts| :: tasks.nodes[i] == ts[i].runtimeNode && Sound(ts[i]);
      assert forall i | 0 <= i < |zs| :: zombies.nodes[i] == zs[i].runtimeNode && Sound(zs[i]);
      if Queued() {
        assert forall i | 0 <= i < |rq| :: Ready().nodes[i] == rq[i].readyNode && Sound(rq[i]);
      }
    }

    lemma StillQueued(t: Task, others: seq<Task>, dead: seq<Task>)
      requires Queued() && Without(t, others, dead) && t !in rq
      ensures QueuedIn(rq, others, dead)
    {}

    /** Takes `t` off the runtime's ghost lists. */
    ghost method Strike(t: Task, others: seq<Task>, dead: seq<Task>)
      requires AllSound() && LinksTo(tasks, others) && LinksTo(zombies, dead) && Without(t, others, dead)
      modifies this`ts, this`zs, this`links
      ensures AllSound() && Listed() && ts == others && zs == dead
      ensures links == old(links) - {t.readyNode, t.runtimeNode}
      ensures t.readyNode.live && t.runtimeNode.live && {t.readyNode, t.runtimeNode} !! links + Heads()
      ensures old(Queued()) && t !in rq ==> Queued()
    {
      hide List.Valid, LinksTo, Without;
      StillSound(t, others, dead);
      ghost var ours := links - {t.readyNode, t.runtimeNode};
      if Queued() && t !in rq {
        StillQueued(t, others, dead);
      }
      ts, zs := others, dead;
      links := ours;
    }

    /** Gives back what a task holds that is in no list; the lists do not notice. */
    method Scrap(t: Task)
      requires AllSound() && Listed() && Settled() && t in heap.blocks
      requires {t.readyNode, t.runtimeNode} !! links + Heads() && t.readyNode.live && t.runtimeNode.live
      modifies heap, storage, vm`live, this`byId, this`byBase
      modifies t, t.readyNode`prev, t.readyNode`next, t.readyNode`live
      modifies t.runtimeNode`prev, t.runtimeNode`next, t.runtimeNode`live
      ensures AllSound() && Listed() && Settled()
      ensures old(Queued()) ==> Queued()
      ensures vm.live == old(vm.live) - {old(t.stack.mapping.base)}
      ensures heap.blocks == old(heap.blocks) - {t} && byId == old(byId) - {old(t.id)} && |byId| == |old(byId)| - 1
      ensures unchanged(`ts, `zs, `count, `links, `rq, `state, `current, `model, `verdicts, `repr)
    {
      hide AllSound, Listed, Queued, Settled;
      Unlinked(t.runtimeNode);
      Unlinked(t.readyNode);
      Discard(t);
    }

    /** The lists without one of their tasks. */
    lemma OneGoes(k: nat)
      requires Listed() && Divided(heap.blocks, ts, zs)
      ensures k < |ts| ==> Without(ts[k], Cut(ts, k), zs) && ts[k] in heap.blocks
      ensures k < |zs| ==> Without(zs[k], ts, Cut(zs, k)) && zs[k] in heap.blocks && zs[k] !in ts
    {
      hide LinksTo, Cut;
      TasksDistinct();
      if k < |ts| {
        CutMembers(ts, k);
      }
      if k < |zs| {
        CutMembers(zs, k);
      }
    }

    /** `t` is the task at position `k` of the list, and these are the lists without it. */
    ghost predicate Position(t: Task, list: List, k: nat, others: seq<Task>, dead: seq<Task>)
      reads this`ts, this`zs
    {
      if list == tasks then k < |ts| && t == ts[k] && others == Cut(ts, k) && dead == zs
      else list == zombies && k < |zs| && t == zs[k] && others == ts && dead == Cut(zs, k)
    }

    /** Takes a task out of its list. */
    method Detach(t: Task, ghost list: List, ghost k: nat, ghost others: seq<Task>, ghost dead: seq<Task>)
      requires AllSound() && Listed() && Without(t, others, dead) && Position(t, list, k, others, dead)
      modifies this`ts, this`zs, this`links
      modifies list`nodes, list.head`prev, list.head`next, links`prev, links`next, links`home
      ensures AllSound() && Listed() && ts == others && zs == dead
      ensures old(Queued()) && t !in rq ==> Queued()
      ensures {t.readyNode, t.runtimeNode} !! links + Heads() && t.readyNode.live && t.runtimeNode.live
      ensures {t.readyNode, t.runtimeNode} <= old(links) && links == old(links) - {t.readyNode, t.runtimeNode}
      ensures unchanged(`byId, `count, `rq, `state, `current, `model, `verdicts, `repr)
    {
      hide AllSound, LinksTo, Queued, Without, Cut;
      StillSound(t, others, dead);
      TakeOut(list, if list == tasks then ts else zs, t, k);
      Strike(t, others, dead);
    }

    /** Unlinks a task from its list and gives back what it holds. */
    method Dispose(t: Task, ghost list: List, ghost k: nat, ghost others: seq<Task>, ghost dead: seq<Task>)
      requires AllSound() && Listed() && Settled() && t in heap.blocks
      requires Without(t, others, dead) && Position(t, list, k, others, dead)
      modifies this`ts, this`zs, this`links, this`byId, this`byBase, heap, storage, vm`live
      modifies list`nodes, list.head`prev, list.head`next, links`prev, links`next, links`home, links`live
      modifies t
      ensures AllSound() && Listed() && Settled() && ts == others && zs == dead
      ensures old(Queued()) && t !in rq ==> Queued()
      ensures vm.live == old(vm.live) - {old(t.stack.mapping.base)}
      ensures heap.blocks == old(heap.blocks) - {t} && byId == old(byId) - {old(t.id)} && |byId| == |old(byId)| - 1
      ensures links == old(links) - {t.readyNode, t.runtimeNode}
      ensures unchanged(`count, `rq, `state, `current, `model, `verdicts, `repr)
    {
      hide AllSound, Listed, Queued, Settled, Without, Cut;
      Detach(t, list, k, others, dead);
      Scrap(t);
    }

    /** The owned tasks without `t` are those of the shortened lists. */
    lemma RosterLess(t: Task, others: seq<Task>, dead: seq<Task>)
      requires Rostered() && Without(t, others, dead)
      ensures |byId| == count == |others| + |dead| + 1 && Divided(heap.blocks - {t}, others, dead)
    {}

    lemma RosterFrom()
      requires |byId| == count == |ts| + |zs| && Divided(heap.blocks, ts, zs)
      ensures Rostered()
    {}

    /** `__gt_runtime_task_destroy`, for any task of the task list or of the zombies. */
    method TaskDestroy(t: Task, ghost list: List, ghost k: nat)
      requires AllSound() && Listed() && Settled() && Rostered()
      requires if list == tasks then k < |ts| && t == ts[k] else list == zombies && k < |zs| && t == zs[k]
      modifies this`ts, this`zs, this`links, this`count, this`byId, this`byBase, heap, storage, vm`live
      modifies list`nodes, list.head`prev, list.head`next, links`prev, links`next, links`home, links`live
      modifies t
      ensures AllSound() && Listed() && Settled() && Rostered()
      ensures list == tasks ==> ts == Cut(old(ts), k) && zs == old(zs)
      ensures list != tasks ==> zs == Cut(old(zs), k) && ts == old(ts)
      ensures list != tasks && old(Queued()) ==> Queued()
      ensures heap.blocks == old(heap.blocks) - {t} && byId == old(byId) - {old(t.id)} && count == old(count) - 1
      ensures links <= old(links) && unchanged(`rq, `state, `current, `model, `verdicts, `repr)
    {
      hide AllSound, Listed, Queued, Settled, Without, Cut, RosteredIn, Divided;
      RosterDivides();
      OneGoes(k);
      ghost var blocks := heap.blocks;
      ghost var others, dead := if list == tasks then Cut(ts, k) else ts, if list == tasks then zs else Cut(zs, k);
      RosterLess(t, others, dead);
      if list != tasks {
        NotWaitingZombie(t);
      }
      Dispose(t, list, k, others, dead);
      Uncount();
      assert heap.blocks == blocks - {t};
      RosterFrom();
    }

    method Uncount()
      requires AllSound() && Listed() && Settled() && count > 0
      modifies this`count
      ensures AllSound() && Listed() && Settled() && count == old(count) - 1
      ensures old(Queued()) ==> Queued()
      ensures unchanged(`rq, `ts, `zs, `byId, `links, `state, `current, `model, `verdicts, `repr)
    {
      hide AllSound, Listed, Queued, Settled;
      count := count - 1;
    }

    lemma NotWaitingZombie(t: Task)
      requires Rostered() && t in zs
      ensures Queued() ==> t !in rq
    {}

    /** The ready queue, the zombies and the machine agree, with nobody on the processor. */
    ghost predicate Calm()
      reads this`links, links`home, scheduler.readyQueue.list, scheduler.readyQueue.list.head
      reads scheduler.readyQueue.list.nodes
      reads this`state, this`rq, this`ts, this`zs, this`byId, this`model
      reads rq`state, zs`state, rq`begun, rq`stack, rq`rsp, rq`entry, rq`rest, vm`memory, rq`id, rq`rest, zs`id
    {
      Queued() && Partitioned(null) && Mirrors(model)
    }

    /** Lists and books agree, whatever the ready queue looks like. */
    ghost predicate Standing()
      reads *
    {
      AllSound() && Listed() && Settled() && Rostered()
    }

    /** What the machine sees of the first zombie, and of the rest once it is gone. */
    lemma FirstBuried()
      requires Calm() && Rostered() && Listed() && zs != []
      ensures zs[0] !in rq && zs[0] !in zs[1..] && model.zombies != []
      ensures Queued() && PartitionedIn(null, rq, ts, zs[1..])
      ensures StandsFor(ReapFirst(model), byId.Keys - {zs[0].id}, zs[1..])
    {
      hide LinksTo;
      TasksDistinct();
      assert forall i {:trigger zs[1..][i]} | 0 <= i < |zs| - 1 :: zs[1..][i] == zs[i + 1];
    }

    /** `c` stands for the ready queue, with these identifiers and zombies. */
    ghost predicate StandsFor(c: Config, names: set<nat>, zs: seq<Task>)
      reads this`state, this`rq, rq`id, rq`rest, zs`id
    {
      c.phase == state && c.ids == names && Reflects(c, rq, zs)
    }

    /** Enters that a zombie is gone. */
    ghost method Forget(c: Config)
      requires Standing() && Queued() && Partitioned(null) && StandsFor(c, byId.Keys, zs)
      modifies this`model
      ensures Standing() && Calm() && model == c
      ensures unchanged(`rq, `ts, `zs, `links, heap`blocks, `state, `current, `verdicts, `repr)
    {
      hide AllSound, Listed, Queued, Settled, RosteredIn, PartitionedIn, Reflects;
      model := c;
    }

    /** The front node of a list leads to its first task. */
    lemma FrontOwner(list: List, members: seq<Task>)
      requires AllSound() && LinksTo(list, members) && members != [] && forall t | t in members :: t in ts || t in zs
      ensures list.nodes != [] && list.nodes[0].owner == members[0]
    {
      assert list.nodes[0] == members[0].runtimeNode && Sound(members[0]);
    }

    ghost function Members(list: List): seq<Task>
      reads this`ts, this`zs
    {
      if list == tasks then ts else zs
    }

    /** All but the first. */
    static function Behind(members: seq<Task>): seq<Task> {
      if members == [] then [] else members[1..]
    }

    lemma CutFirst(members: seq<Task>)
      ensures members != [] ==> Cut(members, 0) == members[1..]
    {}

    /** One turn of `__gt_runtime_destroy_task_list`; a calm runtime stays calm when the task is a zombie. */
    method DestroyFirst(t: Task, ghost list: List, ghost calm: bool)
      requires Standing()
      requires list == tasks || list == zombies
      requires Members(list) != [] && t == Members(list)[0]
      requires calm ==> Calm() && list == zombies
      modifies this`ts, this`zs, this`links, this`count, this`byId, this`byBase, this`model, heap, storage, vm`live
      modifies list`nodes, list.head`prev, list.head`next, links`prev, links`next, links`home, links`live
      modifies t
      ensures Standing()
      ensures ts == if list == tasks then old(ts)[1..] else old(ts)
      ensures zs == if list == tasks then old(zs) else old(zs)[1..]
      ensures calm ==> Calm() && old(model).zombies != [] && model == ReapFirst(old(model))
      ensures heap.blocks == old(heap.blocks) - {t}
      ensures links <= old(links) && unchanged(`rq, `state, `current, `verdicts, `repr)
    {
      hide AllSound, Listed, Queued, Settled, RosteredIn, PartitionedIn, StandsFor, Calm;
      Distinguished();
      CutFirst(Members(list));
      if calm {
        FirstBuried();
      }
      TaskDestroy(t, list, 0);
      if calm {
        Forget(ReapFirst(model));
      }
    }

    /** The first task goes, and the list says who is first now. */
    method DestroyNext(t: Task, list: List, ghost calm: bool) returns (next: Task?)
      requires Standing()
      requires list == tasks || list == zombies
      requires Members(list) != [] && t == Members(list)[0]
      requires calm ==> Calm() && list == zombies
      modifies this`ts, this`zs, this`links, this`count, this`byId, this`byBase, this`model, heap, storage, vm`live
      modifies list`nodes, list.head`prev, list.head`next, links`prev, links`next, links`home, links`live
      modifies t
      ensures Standing() && Members(list) == Behind(old(Members(list)))
      ensures if list == tasks then zs == old(zs) else ts == old(ts)
      ensures calm ==> Calm() && Reap(model) == Reap(old(model))
      ensures next == if Members(list) == [] then null else Members(list)[0]
      ensures links <= old(links) && unchanged(`rq, `state, `current, `verdicts, `repr)
    {
      hide Standing, Calm, Reap;
      ReapInTurn(model);
      Distinguished();
      DestroyFirst(t, list, calm);
      next := First(list);
    }

    /** `__gt_runtime_destroy_task_list` */
    method DestroyTaskList(list: List, ghost calm: bool)
      requires Standing()
      requires list == tasks || list == zombies
      requires calm ==> Calm() && list == zombies
      modifies this`ts, this`zs, this`links, this`count, this`byId, this`byBase, this`model, heap, storage, vm`live
      modifies list`nodes, list.head`prev, list.head`next, links`prev, links`next, links`home, links`live
      modifies Members(list)
      ensures Standing()
      ensures ts == if list == tasks then [] else old(ts)
      ensures zs == if list == tasks then old(zs) else []
      ensures calm ==> Calm() && model == Reap(old(model))
      ensures links <= old(links) && unchanged(`rq, `state, `current, `verdicts, `repr)
    {
      hide Standing, Calm, Reap;
      Distinguished();
      ghost var members := Members(list);
      var task := First(list);
      while task != null
        invariant Standing()
        invariant if list == tasks then zs == old(zs) else ts == old(ts)
        invariant calm ==> Calm() && Reap(model) == Reap(old(model))
        invariant links <= old(links) && unchanged(`rq, `state, `current, `verdicts, `repr)
        invariant task == if Members(list) == [] then null else Members(list)[0]
        invariant forall t | t in Members(list) :: t in members
        decreases |Members(list)|
      {
        assert task in members;
        task := DestroyNext(task, list, calm);
      }
      if calm {
        NoneBuried();
        ReapInTurn(model);
      }
    }

    lemma Distinguished()
      requires Standing()
      ensures tasks != zombies
    {
      Apart();
    }

    lemma NoneBuried()
      requires Calm() && zs == []
      ensures model.zombies == []
    {}

    /** `gt_list_front`, and the task the node is embedded in. */
    method First(list: List) returns (t: Task?)
      requires Standing() && (list == tasks || list == zombies)
      ensures t == if Members(list) == [] then null else Members(list)[0]
    {
      hide Settled, RosteredIn, List.IsEmpty, Linked, AllSoundIn;
      Distinguished();
      var node := list.Front();
      if node == null {
        return null;
      }
      FrontOwner(list, Members(list));
      return node.owner as Task;
    }

    /** `__gt_runtime_reap_zombies`, called from main. */
    method ReapZombies()
      requires Valid() && current == null
      modifies this`ts, this`zs, this`links, this`count, this`byId, this`byBase, this`model, heap, storage, vm`live
      modifies zombies`nodes, zombies.head`prev, zombies.head`next, links`prev, links`next, links`home, links`live
      modifies zs
      ensures Valid() && model == Reap(old(model)) && zs == []
      ensures unchanged(`rq, `ts, `state, `current, `verdicts, `repr) && vm.page.size == old(vm.page.size)
    {
      hide Transcript, Task.Poised, Evidence.AllMatch;
      hide AllSound, Listed, Queued, Settled, RosteredIn, PartitionedIn, Reflects;
      Distinguished();
      DestroyTaskList(zombies, true);
    }

    // Running programs

    /** The task with the processor goes on with `next`. */
    method Proceed(next: Program)
      requires Valid() && current != null
      modifies current`rest, this`model
      ensures Valid() && old(model).current.Some?
      ensures model == old(model).(current := Some(TaskRecord(old(model).current.value.id, next)))
      ensures unchanged(`verdicts, `repr, `current)
    {
      hide Evidence.AllMatch, AllSound, Listed, Queued, Settled, Rostered, Transcript, Task.Poised;
      current.rest := next;
      model := model.(current := CurrentRecord());
    }

    lemma EverythingIsOurs()
      requires Valid()
      ensures Assembled() && links <= repr && heap.blocks <= repr
      ensures {this, Ready(), tasks, zombies} + Heads() + {vm, vm.journal, heap, storage, ids.bits} <= repr
      ensures current != null ==> current in repr
      ensures forall t | t in zs :: t in repr
      ensures model.phase == state
    {
      hide Listed, Queued, Settled, Reflects;
      assert forall t | t in ts || t in zs :: Sound(t);
    }

    lemma CurrentWaitsNot()
      requires Valid() && current != null
      ensures current !in rq
    {
      hide AllSound, Listed, Queued, Settled, Rostered, Mirrors, Observed;
    }

    /** What the machine does for a creation attempt of the current task. */
    lemma SpawnStep(c: Config, v: Verdict)
      requires c.current.Some? && c.current.value.rest.Spawn?
      ensures var me := c.current.value;
              var next := if Answer(c.ids, v).Created? then me.rest.granted else me.rest.refused;
              Step(c, v) == Create(c, me.rest.child, me.rest.stackSize, v).(current := Some(TaskRecord(me.id, next)))
      ensures Create(c, c.current.value.rest.child, c.current.value.rest.stackSize, v).current == c.current
    {
      hide Answer;
    }

    /** The current task asks for a new one and goes on with the answer. */
    method Spawn()
      requires Valid() && current != null && current.rest.Spawn? && Modest(current.rest, vm.page.size)
      modifies repr
      ensures Valid() && fresh(repr - old(repr)) && old(verdicts) <= verdicts
      ensures forall o | verdicts <= o :: model == Step(old(model), Next(old(model), o))
      ensures |answered| == |old(answered)| + 1
      ensures Enlisted(answered[|old(answered)|], old(rq), old(current.rest.child), old(current.rest.stackSize))
      ensures Untouched(old(vm.live), old(vm.memory), vm.memory) && Spared(old(heap.blocks), null)
      ensures since == old(since) && vm.page.size == old(vm.page.size)
    {
      hide Valid, Between, Enlisted, Untouched, Transcript, Legal, Create, Answer, Step;
      EverythingIsOurs();
      FixedParts();
      CurrentIsOurs();
      SpawnStep(model, Granted);
      var me := current.rest;
      var status := CreateTask(me.child, me.stackSize);
      CurrentWaitsNot();
      FixedParts();
      SpawnStep(old(model), verdicts[|old(verdicts)|]);
      Proceed(if status == Success then me.granted else me.refused);
    }

    /** At the end of its entry function the trampoline exits for the current task. */
    method Return()
      requires Valid() && current != null && current.rest.Done?
      modifies repr
      ensures Valid() && model == Machine.Exit(old(model))
      ensures unchanged(vm) && Spared(old(heap.blocks), null)
      ensures unchanged(`verdicts, `repr, `since) && vm.page.size == old(vm.page.size)
    {
      hide Valid;
      EverythingIsOurs();
      Exit();
    }

    /** The current task calls yield. */
    method Pause()
      requires Valid() && current != null && current.rest.Yield?
      modifies repr
      ensures Valid() && model == Machine.GiveWay(old(model), old(current.rest.rest))
      ensures unchanged(vm) && Spared(old(heap.blocks), old(current))
      ensures unchanged(`verdicts, `repr, `since) && vm.page.size == old(vm.page.size)
    {
      hide Valid;
      EverythingIsOurs();
      GiveWay();
    }

    /** One action of the current task. */
    method Act()
      requires Valid() && current != null && Modest(current.rest, vm.page.size)
      modifies repr
      ensures Valid() && fresh(repr - old(repr)) && old(verdicts) <= verdicts
      ensures forall o | verdicts <= o :: model == Step(old(model), Next(old(model), o))
      ensures old(current.rest.Spawn?) ==>
                && |answered| == |old(answered)| + 1
                && Enlisted(answered[|old(answered)|], old(rq), old(current.rest.child), old(current.rest.stackSize))
      ensures Untouched(old(vm.live), old(vm.memory), vm.memory)
      ensures Spared(old(heap.blocks), if old(current.rest.Yield?) then old(current) else null)
      ensures since == old(since) && vm.page.size == old(vm.page.size)
    {
      hide Enlisted, Between, Legal, Create, Answer, Dispatch;
      match current.rest
      case Done => Return();
      case Yield(_) => Pause();
      case Spawn(_, _, _, _) => Spawn();
    }

    /** What one action does to the machine's whole run. */
    lemma RunsOn(start: Config, c: Config, d: Config, before: seq<Verdict>, after: seq<Verdict>, page: nat)
      requires c.current.Some? && AllModest(c, page) && before <= after
      requires forall o {:trigger Next(c, o)} | after <= o :: d == Step(c, Next(c, o))
      requires forall o {:trigger Drain(start, o)} | before <= o :: Drain(start, o) == Drain(c, o)
      ensures forall o {:trigger Drain(start, o)} | after <= o :: Drain(start, o) == Drain(d, o)
      ensures Work(d) < Work(c) && AllModest(d, page)
    {
      hide Step, Work, AllModest;
      StepUsesWork(c, Next(c, after));
      StaysModest(c, Next(c, after), page);
      forall o | after <= o ensures Drain(start, o) == Drain(d, o) {
        assert before <= o && Drain(c, o) == Drain(Step(c, Next(c, o)), o);
      }
    }

    /** Lets the tasks run until main is resumed. */
    method RunTasks()
      requires Valid() && AllModest(model, vm.page.size)
      modifies repr
      ensures Valid() && fresh(repr - old(repr)) && old(verdicts) <= verdicts && current == null
      ensures forall o {:trigger Drain(old(model), o)} | verdicts <= o :: model == Drain(old(model), o)
      ensures since == old(since) && vm.page.size == old(vm.page.size)
    {
      hide Enlisted, Untouched, Valid, Drain, Work, AllModest, Step;
      while current != null
        invariant Valid() && fresh(repr - old(repr)) && old(verdicts) <= verdicts
        invariant AllModest(model, vm.page.size) && since == old(since) && vm.page.size == old(vm.page.size)
        invariant forall o {:trigger Drain(old(model), o)} | verdicts <= o :: Drain(old(model), o) == Drain(model, o)
        decreases Work(model)
      {
        CurrentIsModelled();
        ghost var before, heard, page := model, verdicts, vm.page.size;
        Act();
        RunsOn(old(model), before, model, heard, verdicts, page);
      }
      CurrentIsModelled();
    }

    lemma CurrentIsModelled()
      requires Valid()
      ensures model.current == CurrentRecord()
      ensures AllModest(model, vm.page.size) && current != null ==> Modest(current.rest, vm.page.size)
      ensures current == null ==> forall o :: Drain(model, o) == model
    {
      hide Between;
    }

    /** Main leaves the processor. */
    method Start()
      requires Valid() && current == null
      modifies this`state, this`model
      ensures Between(null) && state == Running && model == old(model).(phase := Running)
      ensures unchanged(`verdicts, `repr)
    {
      hide Transcript, Task.Poised, Evidence.AllMatch;
      hide AllSound, Listed, Queued, Settled, Rostered, Partitioned, RecordsOf;
      state := Running;
      model := model.(phase := Running);
    }

    /** The first half of `gt_runtime_run`: from main to the first task, or straight back. */
    method Leave()
      requires Valid() && current == null
      modifies this`rq, this`current, this`state, this`model, this`dispatched, this`events
      modifies heap.blocks`state, heap.blocks`begun, heap.blocks`rest
      modifies Ready()`nodes, Ready().head`prev, Ready().head`next, links`prev, links`next, links`home
      ensures Valid() && model == Dispatch(old(model).(phase := Running))
      ensures unchanged(`verdicts, `repr)
    {
      hide Between, Dispatch;
      Start();
      Schedule(null);
      assert old(model).ready + [] == old(model).ready;
    }

    method Depart()
      requires Valid() && current == null
      modifies repr
      ensures Valid() && model == Dispatch(old(model).(phase := Running))
      ensures unchanged(`verdicts, `repr, `since) && vm.page.size == old(vm.page.size)
    {
      hide Valid, Dispatch;
      EverythingIsOurs();
      Leave();
    }

    lemma ModestDispatch(c: Config, page: nat)
      requires AllModest(c, page) && c.current == None
      ensures AllModest(Dispatch(c.(phase := Running)), page)
    {
      hide Modest;
    }

    /** From the first dispatch until main is resumed. */
    method RunAll()
      requires Valid() && current == null && AllModest(model, vm.page.size)
      modifies repr
      ensures Valid() && fresh(repr - old(repr)) && old(verdicts) <= verdicts && current == null
      ensures forall o {:trigger Drain(Dispatch(old(model).(phase := Running)), o)} | verdicts <= o ::
                model == Drain(Dispatch(old(model).(phase := Running)), o)
      ensures model.ready == [] && model.phase == Stopped && since == old(since) && vm.page.size == old(vm.page.size)
    {
      hide Valid, Drain, AllModest, Dispatch;
      CurrentIsModelled();
      ModestDispatch(model, vm.page.size);
      Depart();
      RunTasks();
      LeaveStops(old(model), verdicts);
    }

    lemma LeaveStops(c: Config, verdicts: seq<Verdict>)
      ensures var r := Drain(Dispatch(c.(phase := Running)), verdicts);
              r.ready == [] && r.phase == Stopped
    {
      Conservation.DrainStops(Dispatch(c.(phase := Running)), verdicts);
    }

    /** When main is back, nobody waits, and once the zombies are gone the runtime owns nothing. */
    lemma NothingLeft()
      requires Valid() && current == null && zs == [] && model.ready == []
      ensures rq == ts == [] && count == 0 && heap.blocks == {} && vm.live == map[]
      ensures ids.Valid() && ids.Held() == {}
    {
      hide AllSound, Listed, Bitmap.Valid, MembersOf, Separate;
      assert ts == [];
      assert heap.blocks == {};
      assert byId.Keys == {} && byBase.Keys == {};
    }

    ghost function Records(members: seq<Task>): (records: seq<TaskRecord>)
      reads members`id, members`rest
      ensures |records| == |members|
      ensures forall i | 0 <= i < |members| :: records[i] == TaskRecord(members[i].id, members[i].rest)
    {
      if members == [] then []
      else
        var k := |members| - 1;
        Records(members[..k]) + [TaskRecord(members[k].id, members[k].rest)]
    }

    /** The tasks that wait, as the machine sees them. */
    ghost function Waiting(): seq<TaskRecord>
      reads this`rq, rq`id, rq`rest
    {
      Records(rq)
    }

    lemma WaitingIsReady()
      requires Valid()
      ensures model.ready == Waiting() && model.trace == dispatched && model.events == events
      ensures model.current == CurrentRecord()
    {
      hide AllSound, Listed, Queued, Settled, Rostered, Partitioned;
    }

    /** A run in the terms of what is dispatched. */
    lemma DispatchesOfRun(c: Config, verdicts: seq<Verdict>)
      requires c.current.None?
      ensures c.trace + Conservation.Ids(c.ready) <= Machine.Run(c, verdicts).trace
      ensures Rounds.AllYield(c.ready) ==> Machine.Run(c, verdicts).trace == c.trace + Rounds.RoundsFrom(c.ready, 0)
    {
      hide Drain, Dispatch, Rounds.RoundsFrom;
      Fairness.OrderFromAnywhere(c, verdicts);
      if Rounds.AllYield(c.ready) {
        Rounds.RunGoesInRounds(c, verdicts);
      }
    }

    /** `gt_runtime_run`: from the first dispatch until no task is left, and the burial of all that finished.

        What has been dispatched and answered is what the machine says for the verdicts of the layers below; the
        waiting tasks come first, in their order, and if tasks only give way, all dispatches go in rounds.  Each
        waiting task, and each that is created meanwhile, goes through its program exactly once. */
    method Run()
      requires Valid() && current == null && (state == Initialized || state == Stopped)
      requires AllModest(model, vm.page.size)
      modifies repr
      ensures Valid() && fresh(repr - old(repr)) && old(verdicts) <= verdicts
      ensures forall o {:trigger Machine.Run(old(model), o)} | verdicts <= o :: model == Machine.Run(old(model), o)
      ensures dispatched == Machine.Run(old(model), verdicts).trace
      ensures answered == Machine.Run(old(model), verdicts).replies && Machine.Run(old(model), verdicts).credible
      ensures events == Machine.Run(old(model), verdicts).events
      ensures old(events) <= events && Walks.Walked(old(Waiting()), events[|old(events)|..])
      ensures Evidence.AllMatch(verdicts, answered)
      ensures since == old(since) && vm.journal.entries == since + Transcript(verdicts, answered)
      ensures old(dispatched) + Conservation.Ids(old(Waiting())) <= dispatched
      ensures Rounds.AllYield(old(Waiting())) ==>
                dispatched == old(dispatched) + Rounds.RoundsFrom(old(Waiting()), 0)
      ensures state == Stopped && current == null && rq == ts == zs == [] && count == 0
      ensures ids.Valid() && ids.Held() == {} && heap.blocks == {} && vm.live == map[]
      ensures vm.page.size == old(vm.page.size)
    {
      hide Valid, Transcript, Evidence.AllMatch, Machine.Run, AllModest;
      hide Rounds.RoundsFrom, Rounds.AllYield, Conservation.Ids, Conservation.Consistent, Walks.Walked;
      WaitingIsReady();
      ModelIsConsistent();
      RunThrough();
      FixedParts();
      DispatchesOfRun(old(model), verdicts);
      Walks.RunWalks(old(model), verdicts);
      NothingLeft();
    }

    /** A run and the burial after it. */
    method RunThrough()
      requires Valid() && current == null && (state == Initialized || state == Stopped)
      requires AllModest(model, vm.page.size)
      modifies repr
      ensures Valid() && fresh(repr - old(repr)) && old(verdicts) <= verdicts
      ensures forall o {:trigger Machine.Run(old(model), o)} | verdicts <= o :: model == Machine.Run(old(model), o)
      ensures state == Stopped && current == null && zs == [] && model.ready == []
      ensures since == old(since) && vm.page.size == old(vm.page.size)
    {
      hide Between, Drain;
      RunAll();
      EverythingIsOurs();
      ReapZombies();
    }

    // Generations

    method WipeLinks()
      modifies Heads()`prev, Heads()`next
      ensures NoLinks()
    {
      var head := scheduler.readyQueue.list.head;
      head.prev, head.next := null, null;
      tasks.head.prev, tasks.head.next := null, null;
      zombies.head.prev, zombies.head.next := null, null;
    }

    method WipeBits()
      modifies ids.bits, storage
      ensures NoBits()
    {
      ids.bits.words, ids.bits.totalBits, ids.bits.totalWords := null, 0, 0;
      forall i | 0 <= i < storage.Length {
        storage[i] := 0;
      }
    }

    /** `gt_mem_clear` on the whole runtime structure. */
    method Wipe()
      requires Rooted() && Assembled()
      modifies this`state, this`count, this`current, ids.bits, storage, Heads()`prev, Heads()`next
      modifies this`rq, this`ts, this`zs, this`byId, this`byBase, this`links, this`model, this`verdicts
      modifies this`dispatched, this`answered, this`events
      ensures Blank() && state == Uninitialized && Rooted() && Assembled() && unchanged(`repr)
    {
      hide NoLinks, NoBits, Rooted, Assembled;
      WipeLinks();
      WipeBits();
      WipeFields();
    }

    method WipeFields()
      modifies this`state, this`count, this`current, this`dispatched, this`answered, this`events
      modifies this`rq, this`ts, this`zs, this`byId, this`byBase, this`links, this`model, this`verdicts
      ensures state == Uninitialized && count == 0 && current == null
      ensures dispatched == [] && answered == [] && events == []
      ensures rq == ts == zs == [] && byId == byBase == map[] && links == {} && model == BLANK && verdicts == []
    {
      state, count, current := Uninitialized, 0, null;
      dispatched, answered, events := [], [], [];
      ForgetAll();
    }

    ghost method ForgetAll()
      modifies this`rq, this`ts, this`zs, this`byId, this`byBase, this`links, this`model, this`verdicts
      ensures rq == ts == zs == [] && byId == byBase == map[] && links == {} && model == BLANK && verdicts == []
    {
      rq, ts, zs := [], [], [];
      byId, byBase, links := map[], map[], {};
      model, verdicts := BLANK, [];
    }

    /** Without tasks nothing is held. */
    lemma NoTasksNoHoldings()
      requires Standing() && ts == [] && zs == []
      ensures heap.Empty() && vm.live == map[] && vm.Valid() && Supported(vm.page.size)
    {
      hide AllSound, Listed, Bitmap.Valid, MembersOf, Separate;
      assert heap.blocks == {};
      assert byBase.Keys == {};
    }

    lemma WellRooted()
      requires Valid()
      ensures Rooted() && Assembled() && Heads() !! links && Standing()
      ensures forall t | t in ts || t in zs :: t in heap.blocks
    {
      hide Settled, Mirrors, Partitioned, Linked;
      StorageSize();
    }

    lemma StorageSize()
      requires Settled()
      ensures storage.Length == TotalWords(CAPACITY)
    {
      hide Mapped;
    }

    /** The first half of `gt_runtime_destroy`: all tasks go, whatever state they are in. */
    method TearDown()
      requires Valid() && current == null
      modifies this`ts, this`zs, this`links, this`count, this`byId, this`byBase, this`model, heap, storage, vm`live
      modifies tasks`nodes, tasks.head`prev, tasks.head`next, zombies`nodes, zombies.head`prev, zombies.head`next
      modifies links`prev, links`next, links`home, links`live, heap.blocks
      ensures heap.Empty() && vm.live == map[] && vm.Valid() && Supported(vm.page.size)
      ensures Rooted() && unchanged(`repr) && vm.page.size == old(vm.page.size)
    {
      hide Valid, Rooted, Standing;
      WellRooted();
      DestroyTaskList(tasks, false);
      DestroyTaskList(zombies, false);
      NoTasksNoHoldings();
    }

    /** `gt_runtime_destroy`: whatever is still waiting or finished is released, each task once. */
    method Destroy()
      requires Valid() && current == null
      modifies repr
      ensures Blank() && state == Uninitialized && Rooted() && Assembled() && unchanged(`repr)
      ensures heap.Empty() && vm.live == map[] && vm.Valid() && Supported(vm.page.size)
      ensures unchanged(vm.journal) && vm.page.size == old(vm.page.size)
    {
      hide Valid, Rooted, Assembled, Blank, Separate, Supported;
      EverythingIsOurs();
      TearDown();
      scheduler.Destroy();
      Wipe();
    }

    /** The page size can be established, or is already, and suits the stack layout. */
    ghost predicate PageFits(reported: int)
      reads vm.page
    {
      if vm.page.initialized then vm.page.Ready() && Supported(vm.page.size)
      else reported > 0 ==> Supported(reported)
    }

    method InitLists()
      requires Rooted() && Assembled() && rq == ts == zs == [] && links == {}
      modifies Ready()`nodes, tasks`nodes, zombies`nodes, Heads()`prev, Heads()`next
      ensures AllSound() && Listed() && Queued()
    {
      var status := scheduler.Init();
      tasks.Init();
      zombies.Init();
    }

    method InitBooks()
      requires storage.Length == TotalWords(CAPACITY)
      requires byId == byBase == map[] && heap.Empty() && vm.live == map[]
      requires vm.page.Ready() && Supported(vm.page.size)
      modifies ids.bits, storage
      ensures Settled()
    {
      ids.Init(storage, CAPACITY);
    }

    method InitFields()
      requires AllSound() && Listed() && Queued() && Settled()
      requires rq == ts == zs == [] && byId == map[] && heap.Empty() && verdicts == []
      requires dispatched == [] && answered == [] && events == []
      modifies this`count, this`current, this`state, this`model, this`since
      ensures Valid() && model == FRESH && verdicts == [] && current == null
    {
      hide AllSound, Listed, Queued, Settled;
      SetFields();
    }

    method SetFields()
      modifies this`count, this`current, this`state, this`model, this`since
      ensures count == 0 && current == null && state == Initialized && model == FRESH
      ensures since == vm.journal.entries
    {
      since := vm.journal.entries;
      count := 0;
      current := null;
      state := Initialized;
      model := FRESH;
    }

    /** The last part of `gt_runtime_init`, on a wiped structure. */
    method Open()
      requires Rooted() && Assembled() && rq == ts == zs == [] && links == {} && verdicts == []
      requires byId == byBase == map[] && heap.Empty() && vm.live == map[]
      requires dispatched == [] && answered == [] && events == []
      requires vm.page.Ready() && Supported(vm.page.size)
      modifies Ready()`nodes, tasks`nodes, zombies`nodes, Heads()`prev, Heads()`next, ids.bits, storage
      modifies this`count, this`current, this`state, this`model, this`since
      ensures Valid() && model == FRESH && verdicts == [] && current == null
      ensures unchanged(`repr)
    {
      hide AllSound, Listed, Queued, Settled, Valid, Supported;
      InitLists();
      InitBooks();
      InitFields();
    }

    /** `gt_runtime_init`: every generation starts in the same state. */
    method Init(reported: int) returns (status: Status)
      requires state == Uninitialized && Rooted() && Assembled() && heap.Empty() && vm.live == map[]
      requires PageFits(reported)
      modifies repr, vm.page
      ensures status == if old(vm.page.initialized) || reported > 0 then Success else PageSizeUnavailable
      ensures status == Success ==> Valid() && model == FRESH && verdicts == [] && current == null
      ensures status == Success ==> vm.page.size == if old(vm.page.initialized) then old(vm.page.size) else reported
      ensures status != Success ==>
                && Blank() && state == Uninitialized && Rooted() && Assembled()
                && heap.Empty() && vm.live == map[] && !vm.page.initialized
      ensures unchanged(`repr, vm.journal)
    {
      hide Rooted, Assembled, NoLinks, NoBits, Valid, PowerOfTwo, AlignDownAny;
      Parts();
      Wipe();
      status := vm.page.Init(reported);
      if status != Success {
        return;
      }
      Open();
    }

    lemma Parts()
      requires Assembled()
      ensures {this, Ready(), tasks, zombies} + Heads() + {storage, ids.bits} <= repr
    {}

    // Sessions

    /** Main has the processor and everything any task may ask for is in range. */
    ghost predicate AtRest()
      reads *
    {
      && Valid() && current == null && (state == Initialized || state == Stopped)
      && AllModest(model, vm.page.size)
    }

    lemma IdleIsModest(page: nat)
      requires Valid() && current == null && rq == []
      ensures AllModest(model, page)
    {
      hide AllSound, Listed, Queued, Settled, Rostered, Partitioned;
    }

    /** Carries out one command of main. */
    method PerformOne(command: Command)
      requires AtRest() && ModestCommand(command, vm.page.size)
      modifies repr
      ensures AtRest() && fresh(repr - old(repr)) && old(verdicts) <= verdicts
      ensures since == old(since) && vm.page.size == old(vm.page.size)
      ensures forall o {:trigger Machine.Perform(old(model), command, o)} | verdicts <= o ::
                model == Machine.Perform(old(model), command, o)
      ensures match command
              case CreateTask(entry, stackSize) =>
                && |answered| == |old(answered)| + 1
                && Enlisted(answered[|old(answered)|], old(rq), entry, stackSize)
                && Untouched(old(vm.live), old(vm.memory), vm.memory) && Spared(old(heap.blocks), null)
              case RunTasks =>
                && rq == [] && old(events) <= events
                && Walks.Walked(old(Waiting()), events[|old(events)|..])
    {
      hide Enlisted, Untouched, Walks.Walked;
      hide Valid, AllModest, Legal, Modest, Create, Machine.Run;
      FixedParts();
      match command
      case CreateTask(entry, stackSize) =>
        var status := CreateTask(entry, stackSize);
        CreateStaysModest(old(model), entry, stackSize, verdicts[|old(verdicts)|], vm.page.size);
        FixedParts();
      case RunTasks =>
        Run();
        IdleIsModest(vm.page.size);
    }

    /** Main's whole session, command by command, is that of the simple machine: the tasks are dispatched as it
        says, the creations are answered as it says, and the verdicts it is given are what the layers below have
        said meanwhile.  No identifier given out reaches the most that were held at once. */
    method PerformAll(commands: seq<Command>)
      requires AtRest() && model == FRESH && verdicts == []
      requires forall command | command in commands :: ModestCommand(command, vm.page.size)
      modifies repr
      ensures AtRest() && fresh(repr - old(repr)) && vm.page.size == old(vm.page.size)
      ensures model == Session(commands, verdicts)
      ensures Evidence.AsSession(commands, verdicts, dispatched, answered, events)
      ensures |verdicts| == |answered|
      ensures vm.journal.entries == old(vm.journal.entries) + Transcript(verdicts, answered)
      ensures Density.GivenBelow(answered, 0, Density.SessionPeak(commands, verdicts))
    {
      hide AtRest, ModestCommand, Session, Transcript, Density.SessionPeak, Density.GivenBelow, Evidence.AsSession;
      SinceInit();
      PerformEach(commands);
      SessionSeen(commands);
    }

    /** Nothing has been said since init when there are no verdicts. */
    lemma SinceInit()
      requires AtRest() && verdicts == []
      ensures since == vm.journal.entries
    {
      hide Valid, AllModest, Transcript;
      FixedParts();
      NothingSaid();
      assert answered == [];
    }

    /** What the invariant says of the records when the machine is at the end of a session. */
    lemma SessionSeen(commands: seq<Command>)
      requires AtRest() && model == Session(commands, verdicts)
      ensures Evidence.AsSession(commands, verdicts, dispatched, answered, events)
      ensures |verdicts| == |answered| && vm.journal.entries == since + Transcript(verdicts, answered)
      ensures Density.GivenBelow(answered, 0, Density.SessionPeak(commands, verdicts))
    {
      hide Valid, AllModest, Session, Transcript, Density.SessionPeak, Density.GivenBelow, Evidence.AllMatch;
      FixedParts();
      Density.SessionDense(commands, verdicts);
    }

    lemma NothingSaid()
      ensures Transcript([], []) == [] && vm.journal.entries + [] == vm.journal.entries
    {}

    method PerformEach(commands: seq<Command>)
      requires AtRest() && model == FRESH && verdicts == []
      requires forall command | command in commands :: ModestCommand(command, vm.page.size)
      modifies repr
      ensures AtRest() && fresh(repr - old(repr)) && since == old(since) && vm.page.size == old(vm.page.size)
      ensures model == Session(commands, verdicts)
    {
      hide AtRest, ModestCommand, Machine.Perform;
      for k := 0 to |commands|
        invariant AtRest() && fresh(repr - old(repr)) && since == old(since) && vm.page.size == old(vm.page.size)
        invariant forall o {:trigger Session(commands[..k], o)} | verdicts <= o :: Session(commands[..k], o) == model
      {
        PerformOne(commands[k]);
        SessionStep(commands, k);
        assert forall o {:trigger Session(commands[..k + 1], o)} | verdicts <= o ::
            Session(commands[..k + 1], o) == Machine.Perform(Session(commands[..k], o), commands[k], o);
      }
      assert commands[..|commands|] == commands;
    }

    lemma SessionStep(commands: seq<Command>, k: nat)
      requires k < |commands|
      ensures forall o :: Session(commands[..k + 1], o) == Machine.Perform(Session(commands[..k], o), commands[k], o)
    {
      assert commands[..k + 1][..k] == commands[..k];
    }

    // Generations, from init to destroy

    /** Before the first generation and between any two. */
    ghost predicate Idle(reported: int)
      reads this, heap, vm, vm.page
      reads scheduler.readyQueue.list.head`home, scheduler.readyQueue.list.head`live
      reads tasks.head`home, tasks.head`live, zombies.head`home, zombies.head`live
    {
      state == Uninitialized && Rooted() && Assembled() && heap.Empty() && vm.live == map[] && PageFits(reported)
    }

    /** The page size the runtime works with: once found, it stays. */
    ghost function PageSize(reported: int): int
      reads vm.page
    {
      if vm.page.initialized then vm.page.size else reported
    }

    lemma StillFits(reported: int)
      requires vm.Valid() && Supported(vm.page.size)
      ensures PageFits(reported) && PageSize(reported) == vm.page.size
    {}

    lemma Resting()
      requires Valid() && model == FRESH && current == null
      ensures AtRest()
    {
      hide Between, Modest;
      FixedParts();
    }

    /** One generation, from init to destroy: `trace` is what was dispatched in it and `replies` what creations were
        told; `answers` is what the layers below said according to their journal. */
    method Generation(commands: seq<Command>, reported: int)
      returns (status: Status, trace: seq<nat>, replies: seq<Reply>, log: seq<Event>, ghost answers: seq<Verdict>)
      requires Idle(reported)
      requires PageSize(reported) > 0 ==> forall c | c in commands :: ModestCommand(c, PageSize(reported))
      modifies repr, vm.page
      ensures Idle(reported) && fresh(repr - old(repr))
      ensures status == if old(PageSize(reported)) > 0 then Success else PageSizeUnavailable
      ensures status == Success ==>
                && PageSize(reported) == old(PageSize(reported))
                && Evidence.AsSession(commands, answers, trace, replies, log)
      ensures status != Success ==>
                && trace == [] && replies == [] && log == [] && answers == []
                && vm.journal.entries == old(vm.journal.entries)
      ensures |answers| == |replies| && vm.journal.entries == old(vm.journal.entries) + Transcript(answers, replies)
    {
      hide Valid, AllModest, Blank, ModestCommand, Supported, Rooted, Assembled, Separate, Session, Transcript;
      trace, replies, log, answers := [], [], [], [];
      NothingSaid();
      status := Init(reported);
      if status != Success {
        return;
      }
      Resting();
      PerformAll(commands);
      trace, replies, log, answers := dispatched, answered, events, verdicts;
      Destroy();
      StillFits(reported);
    }

    /** Any number of generations: each is a session of its own, whatever the earlier ones did. */
    method Lifetime(generations: seq<seq<Command>>, reported: int)
      returns (status: Status, traces: seq<seq<nat>>, replies: seq<seq<Reply>>, logs: seq<seq<Event>>,
               ghost answers: seq<seq<Verdict>>)
      requires Idle(reported)
      requires PageSize(reported) > 0 ==>
                 forall g, c | g in generations && c in g :: ModestCommand(c, PageSize(reported))
      modifies repr, vm.page
      ensures Idle(reported)
      ensures status == if generations == [] || old(PageSize(reported)) > 0 then Success else PageSizeUnavailable
      ensures status == Success ==>
                && |traces| == |replies| == |logs| == |answers| == |generations|
                && forall i | 0 <= i < |generations| ::
                     Evidence.AsSession(generations[i], answers[i], traces[i], replies[i], logs[i])
      ensures Evidence.Paired(answers, replies)
      ensures vm.journal.entries == old(vm.journal.entries) + Evidence.Chronicle(answers, replies)
    {
      hide Idle, PageSize, Session, ModestCommand, Transcript, Evidence.Chronicle;
      status, traces, replies, logs, answers := Success, [], [], [], [];
      Evidence.NoChronicle();
      for k := 0 to |generations|
        invariant Idle(reported) && fresh(repr - old(repr)) && PageSize(reported) == old(PageSize(reported))
        invariant status == Success && |traces| == |replies| == |logs| == |answers| == k
        invariant k > 0 ==> PageSize(reported) > 0
        invariant forall i | 0 <= i < k ::
                    Evidence.AsSession(generations[i], answers[i], traces[i], replies[i], logs[i])
        invariant Evidence.Paired(answers, replies)
        invariant vm.journal.entries == old(vm.journal.entries) + Evidence.Chronicle(answers, replies)
      {
        var trace, reply, log;
        ghost var answer;
        status, trace, reply, log, answer := Generation(generations[k], reported);
        if status != Success {
          return;
        }
        Evidence.ChronicleGrows(answers, replies, answer, reply);
        traces, replies, logs, answers := traces + [trace], replies + [reply], logs + [log], answers + [answer];
      }
    }
  }
}
