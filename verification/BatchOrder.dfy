/** A batch of tool calls hands the loop one result per call, in some order: what the loop relies on. */
module BatchOrder {
  import opened ToolBatch
  import AgentLoop

  /** The calls of a batch in the order in which their results were emitted. */
  function ResultOrder(log: seq<Emitted>): seq<nat> {
    if log == [] then []
    else ResultOrder(log[..|log| - 1]) + (if log[|log| - 1].ResultMessage? then [log[|log| - 1].call] else [])
  }

  /** Results for call i in a log. */
  function ResultCount(log: seq<Emitted>, i: nat): nat {
    if log == [] then 0
    else ResultCount(log[..|log| - 1], i) + (if log[|log| - 1].ResultMessage? && log[|log| - 1].call == i then 1 else 0)
  }

  lemma CountLast(log: seq<Emitted>, e: Emitted, i: nat)
    ensures ResultCount(log + [e], i) == ResultCount(log, i) + (if e.ResultMessage? && e.call == i then 1 else 0)
  {
    assert (log + [e])[..|log|] == log;
  }

  lemma {:induction false} CountInOrder(log: seq<Emitted>, i: nat)
    ensures multiset(ResultOrder(log))[i] == ResultCount(log, i)
    decreases |log|
  {
    if log != [] {
      CountInOrder(log[..|log| - 1], i);
    }
  }

  lemma {:induction false} CountInEvents(log: seq<Emitted>, i: nat)
    ensures ResultCount(For(log, i), i) == ResultCount(log, i)
    decreases |log|
  {
    if log != [] {
      var before, e := log[..|log| - 1], log[|log| - 1];
      CountInEvents(before, i);
      CountLast(For(before, i), e, i);
      assert For(before, i) + [] == For(before, i);
    }
  }

  lemma CountOfThree(i: nat, kind: Kind)
    ensures ResultCount([StartEvent(i), EndEvent(i), ResultMessage(i, kind)], i) == 1
  {
    CountLast([], StartEvent(i), i);
    CountLast([StartEvent(i)], EndEvent(i), i);
    CountLast([StartEvent(i), EndEvent(i)], ResultMessage(i, kind), i);
    assert [] + [StartEvent(i)] == [StartEvent(i)];
    assert [StartEvent(i)] + [EndEvent(i)] == [StartEvent(i), EndEvent(i)];
    assert [StartEvent(i), EndEvent(i)] + [ResultMessage(i, kind)] == [StartEvent(i), EndEvent(i), ResultMessage(i, kind)];
  }

  lemma {:induction false} OrderBounded(log: seq<Emitted>, n: nat)
    requires forall k :: 0 <= k < |log| ==> log[k].call < n
    ensures forall k :: 0 <= k < |ResultOrder(log)| ==> ResultOrder(log)[k] < n
    decreases |log|
  {
    if log != [] {
      OrderBounded(log[..|log| - 1], n);
    }
  }

  lemma CountOne(order: seq<nat>, i: nat, j: nat, k: nat)
    requires j < k < |order| && order[j] == order[k] == i
    ensures multiset(order)[i] >= 2
  {
    assert order == order[..k] + [order[k]] + order[k + 1..];
    assert order[..k][j] == i;
  }

  /** n distinct numbers are needed to name each of n. */
  lemma {:induction false} TooFew(order: seq<nat>, n: nat)
    requires forall i: nat :: i < n ==> i in order
    ensures |order| >= n
    decreases n
  {
    if n > 0 {
      var last: nat := n - 1;
      assert last in order;
      var k :| 0 <= k < |order| && order[k] == last;
      var less := order[..k] + order[k + 1..];
      forall i: nat | i < n - 1 ensures i in less {
        assert i in order;
        var j :| 0 <= j < |order| && order[j] == i;
        assert j < k ==> less[j] == i;
        assert j > k ==> less[j - 1] == i;
      }
      TooFew(less, n - 1);
    }
  }

  lemma CountsMakeOrder(order: seq<nat>, n: nat)
    requires forall k :: 0 <= k < |order| ==> order[k] < n
    requires forall i: nat :: i < n ==> multiset(order)[i] == 1
    ensures AgentLoop.EachOnce(order, n)
  {
    forall j: nat, k: nat | j < k < |order| ensures order[j] != order[k] {
      if order[j] == order[k] {
        CountOne(order, order[j], j, k);
      }
    }
    forall i: nat | i < n ensures i in order {
      assert i in multiset(order);
    }
    TooFew(order, n);
    if |order| > n {
      AgentLoop.TooMany(order, n);
    }
  }

  lemma {:induction false} SweepBounded(b: Batch, k: nat)
    requires k <= |b.records| && forall j :: 0 <= j < |b.log| ==> b.log[j].call < |b.records|
    ensures forall j :: 0 <= j < |Sweep(b, k).log| ==> Sweep(b, k).log[j].call < |b.records|
    decreases |b.records| - k
  {
    if k < |b.records| {
      SweepBounded(Emit(b, k, Placeholder(false), b.records[k].phase), k + 1);
    }
  }

  /**
   The results of every settled batch, in the order in which they were emitted, are those of each of
   its calls once, which is what the loop takes a batch to return.
   */
  lemma BatchAnswersEachOnce(config: Config, calls: seq<Call>, external: bool, events: seq<Event>)
    requires IsRun(Initial(config, calls, external), events)
    requires AllSettled(After(Initial(config, calls, external), events))
    ensures AgentLoop.EachOnce(ResultOrder(Sweep(After(Initial(config, calls, external), events), 0).log), |calls|)
  {
    var start := Initial(config, calls, external);
    var b := After(start, events);
    InitialOk(config, calls, external);
    RunOk(start, events);
    CallsFixed(start, events);
    SweepBounded(b, 0);
    var log := Sweep(b, 0).log;
    OrderBounded(log, |calls|);
    forall i: nat | i < |calls| ensures multiset(ResultOrder(log))[i] == 1 {
      OneResultPerCall(b, i);
      OneCount(b, log, i);
    }
    CountsMakeOrder(ResultOrder(log), |calls|);
  }

  lemma OneCount(b: Batch, log: seq<Emitted>, i: nat)
    requires In(b, i) && FairlyAnswered(b, log, i)
    ensures multiset(ResultOrder(log))[i] == 1
  {
    var kind :| For(log, i) == [StartEvent(i), EndEvent(i), ResultMessage(i, kind)];
    CountInOrder(log, i);
    CountInEvents(log, i);
    CountOfThree(i, kind);
  }
}
