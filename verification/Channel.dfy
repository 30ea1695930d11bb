/** The simulated transport's queue of items and waiters. */
module SimulatedTransport {

  /** The promise of the k-th `next()` is named k. `settled` says which promises hold what. */
  datatype ChannelState<T> = ChannelState(queue: seq<T>, waiters: seq<nat>, asked: nat, settled: map<nat, T>)

  datatype Op<T> = Push(item: T) | Next

  function Fresh<T>(): ChannelState<T> {
    ChannelState([], [], 0, map[])
  }

  function Step<T>(c: ChannelState<T>, op: Op<T>): ChannelState<T> {
    match op
    case Push(item) =>
      if c.waiters != [] then c.(settled := c.settled[c.waiters[0] := item], waiters := c.waiters[1..])
      else c.(queue := c.queue + [item])
    case Next =>
      if c.queue != [] then c.(settled := c.settled[c.asked := c.queue[0]], queue := c.queue[1..], asked := c.asked + 1)
      else c.(waiters := c.waiters + [c.asked], asked := c.asked + 1)
  }

  function Run<T>(ops: seq<Op<T>>): ChannelState<T> {
    if ops == [] then Fresh() else Step(Run(ops[..|ops| - 1]), ops[|ops| - 1])
  }

  function Pushed<T>(ops: seq<Op<T>>): seq<T> {
    if ops == [] then []
    else
      var op := ops[|ops| - 1];
      Pushed(ops[..|ops| - 1]) + if op.Push? then [op.item] else []
  }

  function Asked<T>(ops: seq<Op<T>>): nat {
    if ops == [] then 0 else Asked(ops[..|ops| - 1]) + if ops[|ops| - 1].Next? then 1 else 0
  }

  function Min(a: nat, b: nat): nat {
    if a < b then a else b
  }

  /** The channel after any interleaving of pushes and nexts: the k-th next holds exactly the k-th pushed
      item, as soon as both have happened; items too many wait in order, nexts too many wait in order,
      and never both. */
  ghost predicate Paired<T(!new)>(c: ChannelState<T>, pushed: seq<T>, asked: nat) {
    var done := Min(|pushed|, asked);
    && c.asked == asked
    && c.queue == pushed[done..]
    && |c.waiters| == asked - done && (forall i :: 0 <= i < |c.waiters| ==> c.waiters[i] == done + i)
    && (forall k: nat :: k in c.settled <==> k < done)
    && (forall k: nat :: k < done ==> c.settled[k] == pushed[k])
    && (c.queue == [] || c.waiters == [])
  }

  lemma StepPairs<T(!new)>(c: ChannelState<T>, op: Op<T>, pushed: seq<T>, asked: nat)
    requires Paired(c, pushed, asked)
    ensures Paired(Step(c, op), pushed + (if op.Push? then [op.item] else []), asked + if op.Next? then 1 else 0)
  {
    var done := Min(|pushed|, asked);
    if op.Push? {
      var pushed' := pushed + [op.item];
      if c.waiters != [] {
        assert c.waiters[0] == done && pushed[done..] == [] && pushed'[done + 1..] == [];
      } else {
        assert pushed'[done..] == pushed[done..] + [op.item];
      }
    } else {
      assert pushed + [] == pushed;
    }
  }

  lemma {:induction false} ChannelPairsByIndex<T(!new)>(ops: seq<Op<T>>)
    ensures Paired(Run(ops), Pushed(ops), Asked(ops))
  {
    if ops != [] {
      var n := |ops| - 1;
      ChannelPairsByIndex(ops[..n]);
      StepPairs(Run(ops[..n]), ops[n], Pushed(ops[..n]), Asked(ops[..n]));
    }
  }

  class Channel<T> {
    var queue: seq<T>
    var waiters: seq<nat>          // the promises still to be settled, oldest first
    var asked: nat
    var settled: map<nat, T>
    ghost var history: seq<Op<T>>

    ghost function State(): ChannelState<T>
      reads this
    {
      ChannelState(queue, waiters, asked, settled)
    }

    ghost predicate Valid()
      reads this
    {
      State() == Run(history)
    }

    constructor ()
      ensures Valid() && history == []
    {
      queue, waiters, asked, settled, history := [], [], 0, map[], [];
    }

    method Push(item: T)
      requires Valid()
      modifies this
      ensures Valid() && history == old(history) + [Op.Push(item)]
    {
      if waiters != [] {
        var waiter := waiters[0];
        waiters := waiters[1..];
        settled := settled[waiter := item];
      } else {
        queue := queue + [item];
      }
      history := history + [Op.Push(item)];
      assert history[..|history| - 1] == old(history);
    }

    method Next() returns (promise: nat)
      requires Valid()
      modifies this
      ensures Valid() && history == old(history) + [Op.Next]
      ensures promise == old(asked) && asked == promise + 1
    {
      promise := asked;
      if queue != [] {
        settled := settled[promise := queue[0]];
        queue := queue[1..];
      } else {
        waiters := waiters + [promise];
      }
      asked := asked + 1;
      history := history + [Op.Next];
      assert history[..|history| - 1] == old(history);
    }
  }
}
