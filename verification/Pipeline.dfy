/** The pipeline example: three tasks, one shared channel, and the runtime's first-in first-out order. */
module Pipelines {
  import opened Machine
  import opened Conservation
  import opened Rounds
  import opened Density

  const INT_MAX: int := 0x7FFF_FFFF

  /** The largest item whose square is an `int`. */
  const LARGEST: nat := 46340

  // The identifiers of the three tasks, in creation order
  const PRODUCER: nat := 0
  const PROCESSOR: nat := 1
  const CONSUMER: nat := 2

  /** 1, 4, ..., n * n */
  function Squares(n: nat): (r: seq<int>)
    ensures |r| == n && forall i | 0 <= i < n :: r[i] == (i + 1) * (i + 1)
  {
    if n == 0 then [] else Squares(n - 1) + [n * n]
  }

  /** `lap`, n times over. */
  function Laps(lap: seq<nat>, n: nat): seq<nat> {
    if n == 0 then [] else Laps(lap, n - 1) + lap
  }

  /** What main asks the runtime for: three tasks, each of which will give way `n` times, and a run. */
  function Commands(n: nat): seq<Command> {
    Requests(3, Yielding(n), 16384) + [RunTasks]
  }

  /** The state of the example: the channel, the producer's loop variable, the values the consumer has
      printed, and the tasks that wait for their turn. */
  class Pipeline {
    const items: nat
    var rawValue: int
    var processedValue: int
    var producerDone: bool
    var processorDone: bool
    var value: int
    var consumed: seq<int>
    var waiting: seq<nat>
    var turns: seq<nat>

    constructor (items: nat)
      ensures this.items == items && Fresh()
    {
      this.items := items;
      rawValue, processedValue, producerDone, processorDone := 0, 0, false, false;
      value, consumed, waiting, turns := 0, [], [PRODUCER, PROCESSOR, CONSUMER], [];
    }

    ghost predicate Fresh()
      reads this
    {
      && rawValue == processedValue == value == 0 && !producerDone && !processorDone
      && consumed == [] && waiting == [PRODUCER, PROCESSOR, CONSUMER] && turns == []
    }

    /** The loop of `producer_task_entry`, from one yield to the next; entering the loop counts as coming
        back with the variable at 0.  Without `defined` an `int` has overflowed. */
    method ProducerTurn() returns (again: bool, defined: bool)
      modifies `value, `rawValue, `producerDone
      ensures defined <==> old(value) < INT_MAX
      ensures defined ==> value == old(value) + 1 && (again <==> value <= items)
      ensures defined && again ==> rawValue == value && producerDone == old(producerDone)
      ensures defined && !again ==> rawValue == old(rawValue) && producerDone
    {
      if value >= INT_MAX {
        return false, false;
      }
      value := value + 1;
      if value <= items {
        rawValue := value;
        return true, true;
      }
      producerDone := true;
      return false, true;
    }

    /** The loop of `processor_task_entry`, from one yield to the next. */
    method ProcessorTurn() returns (again: bool, defined: bool)
      modifies `rawValue, `processedValue, `processorDone
      ensures again <==> !producerDone || old(rawValue) != 0
      ensures defined <==> again ==> old(rawValue) * old(rawValue) <= INT_MAX
      ensures defined && again ==>
                && rawValue == 0 && processorDone == old(processorDone)
                && processedValue == if old(rawValue) == 0 then old(processedValue) else old(rawValue) * old(rawValue)
      ensures !again ==> processorDone && rawValue == old(rawValue) && processedValue == old(processedValue)
    {
      if !producerDone || rawValue != 0 {
        if rawValue != 0 {
          if rawValue * rawValue > INT_MAX {
            return true, false;
          }
          processedValue := rawValue * rawValue;
          rawValue := 0;
        }
        return true, true;
      }
      processorDone := true;
      return false, true;
    }

    /** The loop of `consumer_task_entry`, from one yield to the next. */
    method ConsumerTurn() returns (again: bool)
      modifies `processedValue, `consumed
      ensures again <==> !processorDone || old(processedValue) != 0
      ensures processedValue == 0
      ensures consumed == old(consumed) + if old(processedValue) != 0 then [old(processedValue)] else []
    {
      if !processorDone || processedValue != 0 {
        if processedValue != 0 {
          consumed := consumed + [processedValue];
          processedValue := 0;
        }
        return true;
      }
      return false;
    }

    /** The state after `lap` whole laps and `place` turns of the next one: item `lap + 1` is on its way
        through the channel, or, once all items are through, the tasks finish one after the other. */
    ghost predicate At(lap: nat, place: nat)
      reads this
    {
      && lap <= items && place <= 3 && (lap < items ==> place < 3)
      && value == lap + (if place > 0 then 1 else 0)
      && consumed == Squares(lap) && turns == Laps(LAP, lap) + LAP[..place]
      && rawValue == (if lap < items && place == 1 then lap + 1 else 0)
      && processedValue == (if lap < items && place == 2 then (lap + 1) * (lap + 1) else 0)
      && (producerDone <==> lap == items && place > 0)
      && (processorDone <==> lap == items && place > 1)
      && waiting == LAP[place..] + if lap < items then LAP[..place] else []
    }

    /** One turn of the first waiting task. */
    method Turn(ghost lap: nat, ghost place: nat) returns (defined: bool)
      requires At(lap, place) && waiting != [] && lap <= LARGEST
      modifies this
      ensures defined <==> (lap < items && place == 1 ==> lap < LARGEST)
      ensures defined ==> if lap < items && place == 2 then At(lap + 1, 0) else At(lap, place + 1)
      ensures consumed == if lap < items && place == 2 then Squares(lap + 1) else Squares(lap)
    {
      SquareFits(lap + 1);
      LapsGrow(lap, place);
      var id := waiting[0];
      waiting, turns := waiting[1..], turns + [id];
      var again;
      if id == PRODUCER {
        again, defined := ProducerTurn();
      } else if id == PROCESSOR {
        again, defined := ProcessorTurn();
      } else {
        again := ConsumerTurn();
        defined := true;
      }
      if again {
        waiting := waiting + [id];
      }
    }

    /** The whole run: if and only if no item's square overflows, all three tasks finish, the consumer has
        printed 1, 4, ..., items * items in order, and the turns were dealt out as the runtime does. */
    method Run() returns (defined: bool)
      requires Fresh()
      modifies this
      ensures defined <==> items <= LARGEST
      ensures defined ==> consumed == Squares(items) && waiting == [] && producerDone && processorDone
      ensures defined ==> turns == Session(Commands(items), []).trace
      ensures !defined ==> consumed == Squares(LARGEST)
    {
      hide Session;
      ghost var lap, place := 0, 0;
      while waiting != []
        invariant At(lap, place) && lap <= LARGEST
        invariant lap < items && place == 2 ==> lap < LARGEST
        decreases 3 * (items - lap) + 3 - place
      {
        defined := Turn(lap, place);
        if !defined {
          return;
        }
        if lap < items && place == 2 {
          lap, place := lap + 1, 0;
        } else {
          place := place + 1;
        }
      }
      defined := true;
      SessionTurns(items);
    }
  }

  const LAP: seq<nat> := [PRODUCER, PROCESSOR, CONSUMER]

  lemma SquareGrows(a: nat, b: nat)
    requires a <= b
    ensures a * a <= b * b
  {
    assert b * b == a * a + (b - a) * (b + a);
  }

  lemma SquareFits(n: nat)
    ensures n * n <= INT_MAX <==> n <= LARGEST
  {
    if n <= LARGEST {
      SquareGrows(n, LARGEST);
    } else {
      SquareGrows(LARGEST + 1, n);
    }
  }

  lemma LapsGrow(lap: nat, place: nat)
    ensures Squares(lap + 1) == Squares(lap) + [(lap + 1) * (lap + 1)]
    ensures Laps(LAP, lap + 1) == Laps(LAP, lap) + LAP
    ensures place < 3 ==> LAP[..place + 1] == LAP[..place] + [LAP[place]] && LAP[place..][0] == LAP[place]
    ensures place < 3 ==> LAP[place..][1..] == LAP[place + 1..]
  {}

  // The order of turns

  lemma LapsHead(lap: seq<nat>, n: nat)
    ensures Laps(lap, n + 1) == lap + Laps(lap, n)
  {
    if n != 0 {
      LapsHead(lap, n - 1);
    }
  }

  /** While nobody has finished, a round is everybody. */
  lemma {:induction false} FullRound(tasks: seq<TaskRecord>, n: nat, r: nat)
    requires AllYield(tasks) && (forall i | 0 <= i < |tasks| :: Yields(tasks[i].rest) == n)
    ensures Round(tasks, r) == if r <= n then Ids(tasks) else []
    ensures tasks != [] ==> MostYields(tasks) == n
  {
    if tasks != [] {
      FullRound(tasks[1..], n, r);
      IdsHead(tasks);
    }
  }

  /** Tasks that give way equally often go through whole laps. */
  lemma {:induction false} EvenRounds(tasks: seq<TaskRecord>, n: nat, r: nat)
    requires AllYield(tasks) && tasks != [] && (forall i | 0 <= i < |tasks| :: Yields(tasks[i].rest) == n)
    requires r <= n + 1
    ensures RoundsFrom(tasks, r) == Laps(Ids(tasks), n + 1 - r)
    decreases n + 1 - r
  {
    hide Round, MostYields, Ids;
    FullRound(tasks, n, r);
    if r <= n {
      EvenRounds(tasks, n, r + 1);
      LapsHead(Ids(tasks), n - r);
    }
  }

  /** The runtime dispatches the three tasks of the example in laps. */
  lemma SessionTurns(n: nat)
    ensures Session(Commands(n), []).trace == Laps(LAP, n + 1)
  {
    hide Run, RoundsFrom, Laps, MostYields;
    var commands := Commands(n);
    assert commands[..3] == Requests(3, Yielding(n), 16384);
    FreshRuntimeCounts(3, Yielding(n), 16384);
    var c := Session(Requests(3, Yielding(n), 16384), []);
    RunGoesInRounds(c, []);
    EvenRounds(c.ready, n, 0);
    assert Ids(c.ready) == LAP;
  }
}
