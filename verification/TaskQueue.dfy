/** The two Redis lists behind the task queue (packages/shared/src/redis/task-queue.ts). */
module TaskQueues {
  import opened Types
  import opened Sequences

  // ----- The Redis commands, each of them atomic -----

  /** The head of a Redis list is index 0. */
  datatype Lists = Lists(queue: seq<Id>, processing: seq<Id>)

  function Lpush(list: seq<Id>, x: Id): seq<Id> {
    [x] + list
  }

  function LpushAll(list: seq<Id>, xs: seq<Id>): (r: seq<Id>)
    ensures r == Reverse(xs) + list
    decreases |xs|
  {
    if xs == [] then list else LpushAll(Lpush(list, xs[0]), xs[1..])
  }

  /** `BRPOPLPUSH`: from the tail of the queue to the head of the processing list. */
  function Brpoplpush(l: Lists): (Lists, Option<Id>) {
    if l.queue == [] then (l, None) else
      var x := l.queue[|l.queue| - 1];
      (Lists(l.queue[..|l.queue| - 1], Lpush(l.processing, x)), Some(x))
  }

  /** `LREM key 1 x`: the copy nearest the head goes. */
  function Lrem(list: seq<Id>, x: Id): seq<Id> {
    if list == [] then []
    else if list[0] == x then list[1..] else [list[0]] + Lrem(list[1..], x)
  }

  lemma {:induction false} LremTakesOne(list: seq<Id>, x: Id)
    ensures multiset(Lrem(list, x)) == multiset(list) - multiset{x}
  {
    if list != [] {
      assert list == [list[0]] + list[1..];
      if list[0] != x {
        LremTakesOne(list[1..], x);
      }
    }
  }

  /** It is the copy nearest the head, and everything else stays where it is. */
  lemma {:induction false} LremTakesTheFirst(before: seq<Id>, x: Id, after: seq<Id>)
    requires x !in before
    ensures Lrem(before + [x] + after, x) == before + after && Lrem(before, x) == before
  {
    var list := before + [x] + after;
    if before == [] {
      assert list[1..] == after;
    } else {
      LremTakesTheFirst(before[1..], x, after);
      assert list[1..] == before[1..] + [x] + after;
      assert before == [before[0]] + before[1..];
    }
  }

  // ----- First in, first out, over any interleaving of commands -----

  datatype Command = Push(x: Id) | Claim | Remove(x: Id)

  function Do(l: Lists, c: Command): Lists {
    match c
    case Push(x) => l.(queue := Lpush(l.queue, x))
    case Claim => Brpoplpush(l).0
    case Remove(x) => l.(processing := Lrem(l.processing, x))
  }

  function After(l: Lists, commands: seq<Command>): Lists
    decreases |commands|
  {
    if commands == [] then l else After(Do(l, commands[0]), commands[1..])
  }

  function PushedBy(c: Command): seq<Id> {
    if c.Push? then [c.x] else []
  }

  function ClaimedBy(l: Lists, c: Command): seq<Id> {
    if c.Claim? && Brpoplpush(l).1.Some? then [Brpoplpush(l).1.value] else []
  }

  /** Everything pushed, in order: single enqueues, batches item by item, and requeues. */
  function Pushed(commands: seq<Command>): seq<Id> {
    if commands == [] then [] else PushedBy(commands[0]) + Pushed(commands[1..])
  }

  /** What the claims returned, in order. */
  function Claimed(l: Lists, commands: seq<Command>): seq<Id>
    decreases |commands|
  {
    if commands == [] then [] else ClaimedBy(l, commands[0]) + Claimed(Do(l, commands[0]), commands[1..])
  }

  lemma CommandKeepsOrder(l: Lists, c: Command)
    ensures ClaimedBy(l, c) + Reverse(Do(l, c).queue) == Reverse(l.queue) + PushedBy(c)
  {
    match c
    case Push(x) => ReverseSplits(l.queue, x);
    case Claim =>
      if l.queue != [] {
        var front, x := l.queue[..|l.queue| - 1], l.queue[|l.queue| - 1];
        assert l.queue == front + [x];
        ReverseSplits(front, x);
      }
    case Remove(_) =>
  }

  lemma Regroup(l: seq<Id>, p: seq<Id>, rest: seq<Id>, c: seq<Id>, l1: seq<Id>, after: seq<Id>, last: seq<Id>)
    requires c + l1 == l + p && l1 + rest == after + last
    ensures l + (p + rest) == (c + after) + last
  {
    assert l + (p + rest) == (l + p) + rest == c + (l1 + rest);
  }

  /** Whatever the executors do, ids are claimed in the order in which they were pushed. */
  lemma {:induction false} OrderIsKept(l: Lists, commands: seq<Command>)
    ensures Reverse(l.queue) + Pushed(commands) == Claimed(l, commands) + Reverse(After(l, commands).queue)
    decreases |commands|
  {
    if commands == [] {
      assert Claimed(l, commands) == [];
    } else {
      var l1 := Do(l, commands[0]);
      CommandKeepsOrder(l, commands[0]);
      OrderIsKept(l1, commands[1..]);
      Regroup(Reverse(l.queue), PushedBy(commands[0]), Pushed(commands[1..]), ClaimedBy(l, commands[0]),
              Reverse(l1.queue), Claimed(l1, commands[1..]), Reverse(After(l1, commands[1..]).queue));
    }
  }

  /** From empty lists: the pushes are the claims followed by the queue read from tail to head. */
  lemma FirstInFirstOut(commands: seq<Command>)
    ensures Pushed(commands) ==
            Claimed(Lists([], []), commands) + Reverse(After(Lists([], []), commands).queue)
  {
    OrderIsKept(Lists([], []), commands);
    assert Reverse(Lists([], []).queue) == [];
  }

  // ----- The client class -----

  class TaskQueue {
    var queue: seq<Id>
    var processing: seq<Id>

    ghost function State(): Lists
      reads this
    {
      Lists(queue, processing)
    }

    constructor ()
      ensures State() == Lists([], [])
    {
      queue, processing := [], [];
    }

    method Enqueue(taskStateId: Id)
      modifies this
      ensures State() == old(State()).(queue := Lpush(old(queue), taskStateId))
      ensures queue == [taskStateId] + old(queue) && processing == old(processing)
    {
      queue := Lpush(queue, taskStateId);
    }

    method EnqueueBatch(taskStateIds: seq<Id>)
      modifies this
      ensures State() == old(State()).(queue := Reverse(taskStateIds) + old(queue))
    {
      if |taskStateIds| == 0 { return; }
      for i := 0 to |taskStateIds|
        invariant processing == old(processing)
        invariant LpushAll(queue, taskStateIds[i..]) == LpushAll(old(queue), taskStateIds)
      {
        assert taskStateIds[i..][1..] == taskStateIds[i + 1..];
        queue := Lpush(queue, taskStateIds[i]);
      }
    }

    method Claim() returns (result: Option<Id>)
      modifies this
      ensures (State(), result) == Brpoplpush(old(State()))
      ensures old(queue) == [] ==> result == None && queue == [] && processing == old(processing)
      ensures old(queue) != [] ==>
                result.Some? && old(queue) == queue + [result.value] && processing == [result.value] + old(processing)
    {
      if queue == [] {
        return None;
      }
      result := Some(queue[|queue| - 1]);
      queue, processing := queue[..|queue| - 1], Lpush(processing, result.value);
    }

    /** Two Redis calls; other clients may act between them. */
    method Requeue(taskStateId: Id)
      modifies this
      ensures State() == Lists(Lpush(old(queue), taskStateId), Lrem(old(processing), taskStateId))
      ensures queue == [taskStateId] + old(queue)
    {
      RemoveFromProcessing(taskStateId);
      Enqueue(taskStateId);
    }

    method RemoveFromProcessing(taskStateId: Id)
      modifies this
      ensures State() == old(State()).(processing := Lrem(old(processing), taskStateId))
      ensures multiset(processing) == multiset(old(processing)) - multiset{taskStateId}
    {
      LremTakesOne(processing, taskStateId);
      processing := Lrem(processing, taskStateId);
    }
  }
}
