/** The O-RU's uplink from the fronthaul's jobs to the workers: the scheduler and the work queue
    put together. */
module OruUplink {
  import opened OruUplinkScheduler
  import Queue = OruWorkQueue

  /** An item occurs among all dispatched ones as often as among those of its own job. */
  lemma {:induction false} CountInOwnJob(sent: seq<WorkItem>, x: WorkItem)
    ensures multiset(sent)[x] == multiset(Of(sent, x.tag))[x]
  {
    if sent != [] {
      var last := |sent| - 1;
      CountInOwnJob(sent[..last], x);
      assert sent == sent[..last] + [sent[last]];
    }
  }

  lemma {:induction false} OfHasItsTag(sent: seq<WorkItem>, tag: nat, k: nat)
    requires k < |Of(sent, tag)|
    ensures Of(sent, tag)[k].tag == tag
  {
    if k < |Of(sent[..|sent| - 1], tag)| {
      OfHasItsTag(sent[..|sent| - 1], tag, k);
    }
  }

  /** A job's items differ in their symbols, so each of them occurs once. */
  lemma {:induction false} EachItemOnce(items: seq<WorkItem>, j: UlJob, spf: nat, k: nat)
    requires InOrder(items, j, spf) && k < |items|
    ensures multiset(items)[items[k]] == 1
  {
    var last := |items| - 1;
    var rest := items[..last];
    assert items == rest + [items[last]];
    assert InOrder(rest, j, spf);
    if k < last {
      EachItemOnce(rest, j, spf, k);
      assert items[last].symbol != items[k].symbol;
    } else {
      assert forall i :: 0 <= i < last ==> rest[i].symbol == j.symbol + i;
      assert items[last] !in rest;
    }
  }

  /** Some run of the pool from its start. */
  ghost predicate Reached(q: Queue.State<WorkItem>, steps: seq<Queue.Step<WorkItem>>, t: Queue.State<WorkItem>) {
    Queue.Init(q) && (Queue.InitHolds(q); Queue.Run(q, steps, t))
  }

  /** The pool has been stopped, and no worker can go on. */
  ghost predicate AtRest(t: Queue.State<WorkItem>) {
    && t.ring.Valid() && !t.ring.running
    && forall step :: Queue.IsWork(step) ==> !Queue.Enabled(t, step)
  }

  ghost predicate ProcessedOnce(done: seq<WorkItem>, x: WorkItem) {
    multiset(done)[x] == 1
  }

  /** Put together: the scheduler dispatches into the queue, in whatever way producer and workers
      interleave; the pool is stopped and comes to rest. Every symbol dispatched for a job has been
      processed exactly once, and nothing else has been processed for it. */
  lemma EverySymbolProcessedOnce(s: Sched, run: seq<Slot>, q: Queue.State<WorkItem>, steps: seq<Queue.Step<WorkItem>>,
                                 t: Queue.State<WorkItem>, tag: nat)
    requires Initial(s) && WellTyped(run) && tag < |Slots(s, run).admitted|
    requires Reached(q, steps, t) && AtRest(t) && Queue.Calls(steps) == Slots(s, run).sent
    ensures var items := Of(Slots(s, run).sent, tag);
            && (forall k :: 0 <= k < |items| ==> ProcessedOnce(t.done, items[k]))
            && (forall x :: x in t.done && x.tag == tag ==> x in items)
  {
    Queue.InitHolds(q);
    Queue.EveryRunIsSafe(q, steps, t);
    Queue.ShutdownDrains(t, [], t);
    Queue.CallsAreSent(q, steps, t);
    assert [] + [] + Queue.Calls(steps) == t.sent + [];
    EveryJobAllOrNothing(s, run, tag);
    var sent := Slots(s, run).sent;
    var items := Of(sent, tag);
    forall k | 0 <= k < |items|
      ensures ProcessedOnce(t.done, items[k])
    {
      OfHasItsTag(sent, tag, k);
      CountInOwnJob(sent, items[k]);
      EachItemOnce(items, Slots(s, run).admitted[tag], s.now.spf, k);
    }
    forall x | x in t.done && x.tag == tag
      ensures x in items
    {
      CountInOwnJob(sent, x);
      assert multiset(t.done)[x] > 0;
      assert multiset(items)[x] > 0;
    }
  }

  /** So every well-formed job that was started at all has exactly the symbols it asks for processed,
      from its first one on, each once, and no other. */
  lemma StartedJobIsProcessed(s: Sched, run: seq<Slot>, q: Queue.State<WorkItem>, steps: seq<Queue.Step<WorkItem>>,
                              t: Queue.State<WorkItem>, tag: nat)
    requires Initial(s) && WellTyped(run) && tag < |Slots(s, run).admitted|
    requires WellFormed(Slots(s, run).admitted[tag]) && Of(Slots(s, run).sent, tag) != []
    requires Reached(q, steps, t) && AtRest(t) && Queue.Calls(steps) == Slots(s, run).sent
    ensures var j, items := Slots(s, run).admitted[tag], Of(Slots(s, run).sent, tag);
            && |items| == j.numSymbols
            && (forall k :: 0 <= k < |items| ==> items[k].symbol == j.symbol + k && ProcessedOnce(t.done, items[k]))
            && (forall x :: x in t.done && x.tag == tag ==> x in items)
  {
    EverySymbolProcessedOnce(s, run, q, steps, t, tag);
    EveryJobAllOrNothing(s, run, tag);
  }

  /** And for every run of the scheduler there is such a run of the pool. */
  lemma SomeRunProcessesAll(s: Sched, run: seq<Slot>, q: Queue.State<WorkItem>)
    returns (steps: seq<Queue.Step<WorkItem>>, t: Queue.State<WorkItem>)
    requires Initial(s) && WellTyped(run) && Queue.Init(q)
    ensures Reached(q, steps, t) && AtRest(t) && Queue.Calls(steps) == Slots(s, run).sent
  {
    Queue.InitHolds(q);
    steps, t := Queue.SomeRunServesAll(q, Slots(s, run).sent);
  }
}
