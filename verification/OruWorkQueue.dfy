/** The O-RU's uplink work queue: a 128-entry ring under one mutex and two condition
    variables, filled by one producer and emptied by any number of workers. */
module OruWorkQueue {

  const DEPTH: nat := 128

  lemma PlacesDiffer(head: nat, i: nat, j: nat)
    requires i < j < i + DEPTH
    ensures (head + i) % DEPTH != (head + j) % DEPTH
  {
  }

  lemma NextPlace(n: nat)
    ensures (n % DEPTH + 1) % DEPTH == (n + 1) % DEPTH
  {
  }

  /** The ring as a value: what the mutex protects. */
  datatype Ring<T> = Ring(slots: seq<T>, head: nat, tail: nat, count: nat, running: bool) {

    ghost predicate Valid() {
      && |slots| == DEPTH && head < DEPTH && count <= DEPTH
      && tail == Index(count)
    }

    /** Ring position of the i-th oldest item. */
    ghost function Index(i: nat): nat {
      (head + i) % DEPTH
    }

    /** The queue the ring stands for, oldest first. */
    ghost function Contents(): seq<T>
      requires Valid()
    {
      seq(count, i requires 0 <= i < count => slots[Index(i)])
    }

    function Put(x: T): Ring<T>
      requires |slots| == DEPTH && tail < DEPTH
    {
      Ring(slots[tail := x], head, (tail + 1) % DEPTH, count + 1, running)
    }

    function Take(): (T, Ring<T>)
      requires |slots| == DEPTH && head < DEPTH && count > 0
    {
      (slots[head], Ring(slots, (head + 1) % DEPTH, tail, count - 1, running))
    }

    lemma PutAppends(x: T)
      requires Valid() && count < DEPTH
      ensures Put(x).Valid()
      ensures Put(x).Contents() == Contents() + [x]
    {
      var r := Put(x);
      NextPlace(head + count);
      forall i: nat | i < count
        ensures r.Index(i) == Index(i) != tail
      {
        PlacesDiffer(head, i, count);
      }
      assert r.Contents() == Contents() + [x];
    }

    lemma CloseChangesNothingElse()
      requires Valid()
      ensures this.(running := false).Valid()
      ensures this.(running := false).Contents() == Contents()
    {
      var r := this.(running := false);
      assert forall i :: 0 <= i < count ==> r.Index(i) == Index(i);
    }

    lemma TakeRemovesOldest()
      requires Valid() && count > 0
      ensures Take().1.Valid()
      ensures Contents() == [Take().0] + Take().1.Contents()
    {
      var r := Take().1;
      assert forall i :: 0 <= i < r.count ==> r.Index(i) == Index(i + 1);
      assert Contents() == [Take().0] + r.Contents();
    }
  }

  /** What a worker does next, once it holds the lock. */
  datatype Verdict<T> = MustWait | MustExit | Got(item: T)

  /** The queue object, updated in place. Each method is one critical section. */
  class UlWorkQueue<T(0)> {
    var ring: array<T>
    var head: nat
    var tail: nat
    var count: nat
    var running: bool

    ghost function View(): Ring<T>
      reads this, ring
    {
      Ring(ring[..], head, tail, count, running)
    }

    ghost predicate Valid()
      reads this, ring
    {
      View().Valid()
    }

    constructor ()
      ensures Valid() && fresh(ring) && running
      ensures View().Contents() == []
    {
      ring := new T[DEPTH];
      head, tail, count, running := 0, 0, 0, true;
    }

    /** dispatch_ul_work from the loop test on: false when the producer has to wait. */
    method TryPut(x: T) returns (ok: bool)
      requires Valid()
      modifies this`tail, this`count, ring
      ensures Valid() && ring == old(ring)
      ensures ok == (old(count) < DEPTH)
      ensures View() == if ok then old(View()).Put(x) else old(View())
      ensures View().Contents() == if ok then old(View().Contents()) + [x] else old(View().Contents())
    {
      ok := count != DEPTH;
      if ok {
        old(View()).PutAppends(x);
        ring[tail] := x;
        tail := (tail + 1) % DEPTH;
        count := count + 1;
        assert View() == old(View()).Put(x);
      }
    }

    /** ul_worker_thread from the loop test on. */
    method TryTake() returns (v: Verdict<T>)
      requires Valid()
      modifies this`head, this`count
      ensures Valid() && ring == old(ring)
      ensures v.Got? <==> old(count) > 0
      ensures v.MustExit? <==> old(count) == 0 && !running
      ensures v.Got? ==> (v.item, View()) == old(View()).Take()
      ensures v.Got? ==> old(View().Contents()) == [v.item] + View().Contents()
      ensures !v.Got? ==> View() == old(View())
    {
      if count == 0 && running {
        return MustWait;
      }
      if !running && count == 0 {
        return MustExit;
      }
      old(View()).TakeRemovesOldest();
      var item := ring[head];
      head := (head + 1) % DEPTH;
      count := count - 1;
      assert (item, View()) == old(View()).Take();
      return Got(item);
    }

    method Shutdown()
      requires Valid()
      modifies this`running
      ensures Valid() && ring == old(ring)
      ensures View() == old(View()).(running := false)
      ensures View().Contents() == old(View().Contents())
    {
      running := false;
    }
  }

  // ------------------------------------------------------------------ the monitor

  /** A worker that was signalled, woke up by itself or finished an item has to take the lock
      and test the loop condition: `Ready` stands for all three. */
  datatype Worker<T> = Ready | Asleep | Busy(item: T) | Exited

  datatype Producer<T> = Idle | Wanting(item: T) | Blocked(item: T) | Closed

  /** `sent`, `taken` and `done` record history: items dispatched, items removed from the ring,
      items fully processed. */
  datatype State<T> = State(ring: Ring<T>, workers: seq<Worker<T>>, producer: Producer<T>,
                            sent: seq<T>, taken: seq<T>, done: seq<T>)

  datatype Step<T> =
    | Call(x: T)                 // the scheduler calls dispatch_ul_work
    | Put(wake: nat)             // lock, store, signal work_available
    | Block                      // lock, ring full, wait for space
    | ProducerWakes              // spurious wake-up of the producer
    | Take(w: nat)               // lock, remove, signal space_available
    | Sleep(w: nat)              // lock, nothing to do, wait for work
    | WorkerWakes(w: nat)        // spurious wake-up of a worker
    | Finish(w: nat)             // receive_pusch returns
    | Exit(w: nat)               // lock, stopped and empty
    | Close                      // running = false, broadcast

  ghost predicate SomeAsleep<T(!new)>(ws: seq<Worker<T>>) {
    exists i :: 0 <= i < |ws| && ws[i] == Asleep
  }

  ghost predicate Is<T(!new)>(ws: seq<Worker<T>>, w: nat, x: Worker<T>) {
    w < |ws| && ws[w] == x
  }

  ghost predicate Enabled<T(!new)>(s: State<T>, step: Step<T>)
    requires s.ring.Valid()
  {
    match step
    case Call(x) => s.producer == Idle
    case Put(wake) => s.producer.Wanting? && s.ring.count < DEPTH && (SomeAsleep(s.workers) ==> Is(s.workers, wake, Asleep))
    case Block => s.producer.Wanting? && s.ring.count == DEPTH
    case ProducerWakes => s.producer.Blocked?
    case Take(w) => Is(s.workers, w, Ready) && s.ring.count > 0
    case Sleep(w) => Is(s.workers, w, Ready) && s.ring.count == 0 && s.ring.running
    case WorkerWakes(w) => Is(s.workers, w, Asleep)
    case Finish(w) => w < |s.workers| && s.workers[w].Busy?
    case Exit(w) => Is(s.workers, w, Ready) && s.ring.count == 0 && !s.ring.running
    case Close => s.producer == Idle
  }

  function WakeAll<T>(ws: seq<Worker<T>>): seq<Worker<T>> {
    seq(|ws|, i requires 0 <= i < |ws| => if ws[i].Asleep? then Ready else ws[i])
  }

  ghost function Apply<T(!new)>(s: State<T>, step: Step<T>): State<T>
    requires s.ring.Valid() && Enabled(s, step)
  {
    match step
    case Call(x) => s.(producer := Wanting(x))
    case Put(wake) =>
      s.(ring := s.ring.Put(s.producer.item), producer := Idle, sent := s.sent + [s.producer.item],
         workers := if SomeAsleep(s.workers) then s.workers[wake := Ready] else s.workers)
    case Block => s.(producer := Blocked(s.producer.item))
    case ProducerWakes => s.(producer := Wanting(s.producer.item))
    case Take(w) =>
      var (x, r) := s.ring.Take();
      s.(ring := r, workers := s.workers[w := Busy(x)], taken := s.taken + [x],
         producer := if s.producer.Blocked? then Wanting(s.producer.item) else s.producer)
    case Sleep(w) => s.(workers := s.workers[w := Asleep])
    case WorkerWakes(w) => s.(workers := s.workers[w := Ready])
    case Finish(w) => s.(workers := s.workers[w := Ready], done := s.done + [s.workers[w].item])
    case Exit(w) => s.(workers := s.workers[w := Exited])
    case Close => s.(ring := s.ring.(running := false), producer := Closed, workers := WakeAll(s.workers))
  }

  // ------------------------------------------------------------------- measures

  function Min(a: nat, b: nat): nat { if a < b then a else b }

  function Up<T>(w: Worker<T>): nat {
    if w.Ready? || w.Busy? then 1 else 0
  }

  ghost function Held<T>(w: Worker<T>): multiset<T> {
    if w.Busy? then multiset{w.item} else multiset{}
  }

  /** Lock acquisitions a worker is still certain to make. */
  function Phase<T>(w: Worker<T>): nat {
    match w case Busy(_) => 2 case Exited => 0 case _ => 1
  }

  /** Workers that are neither asleep on the condition variable nor gone. */
  function Awake<T>(ws: seq<Worker<T>>): nat {
    if ws == [] then 0 else Up(ws[0]) + Awake(ws[1..])
  }

  /** Items being processed. */
  ghost function InHand<T>(ws: seq<Worker<T>>): multiset<T> {
    if ws == [] then multiset{} else Held(ws[0]) + InHand(ws[1..])
  }

  function Phases<T>(ws: seq<Worker<T>>): nat {
    if ws == [] then 0 else Phase(ws[0]) + Phases(ws[1..])
  }

  lemma {:induction false} UpdateOne<T>(ws: seq<Worker<T>>, i: nat, x: Worker<T>)
    requires i < |ws|
    ensures Awake(ws[i := x]) == Awake(ws) + Up(x) - Up(ws[i])
    ensures Phases(ws[i := x]) == Phases(ws) + Phase(x) - Phase(ws[i])
  {
    if i == 0 {
      assert ws[0 := x][1..] == ws[1..];
    } else {
      assert ws[i := x][1..] == ws[1..][i - 1 := x];
      UpdateOne(ws[1..], i - 1, x);
    }
  }

  lemma {:induction false} UpdateInHand<T>(ws: seq<Worker<T>>, i: nat, x: Worker<T>)
    requires i < |ws|
    ensures InHand(ws[i := x]) + Held(ws[i]) == InHand(ws) + Held(x)
  {
    if i == 0 {
      assert ws[0 := x][1..] == ws[1..];
    } else {
      var rest := ws[1..];
      assert ws[i := x][1..] == rest[i - 1 := x];
      UpdateInHand(rest, i - 1, x);
      Exchange(Held(ws[0]), InHand(rest[i - 1 := x]), Held(ws[i]), InHand(rest), Held(x));
    }
  }

  lemma Exchange<T>(a: multiset<T>, b: multiset<T>, c: multiset<T>, d: multiset<T>, e: multiset<T>)
    requires b + c == d + e
    ensures a + b + c == a + d + e
  {
    assert a + b + c == a + (b + c);
    assert a + d + e == a + (d + e);
  }

  lemma {:induction false} WakeAllMeasures<T>(ws: seq<Worker<T>>)
    ensures Awake(WakeAll(ws)) >= Awake(ws)
    ensures InHand(WakeAll(ws)) == InHand(ws)
  {
    if ws != [] {
      assert WakeAll(ws)[1..] == WakeAll(ws[1..]);
      WakeAllMeasures(ws[1..]);
    }
  }

  lemma {:induction false} AllAwake<T>(ws: seq<Worker<T>>)
    requires forall i :: 0 <= i < |ws| ==> ws[i].Ready? || ws[i].Busy?
    ensures Awake(ws) == |ws|
  {
    if ws != [] {
      AllAwake(ws[1..]);
    }
  }

  lemma {:induction false} SomeoneAwake<T>(ws: seq<Worker<T>>) returns (i: nat)
    requires Awake(ws) > 0
    ensures i < |ws| && (ws[i].Ready? || ws[i].Busy?)
  {
    if ws[0].Ready? || ws[0].Busy? {
      i := 0;
    } else {
      i := SomeoneAwake(ws[1..]);
      i := i + 1;
    }
  }

  lemma {:induction false} NobodyBusy<T>(ws: seq<Worker<T>>)
    requires forall i :: 0 <= i < |ws| ==> !ws[i].Busy?
    ensures InHand(ws) == multiset{}
  {
    if ws != [] {
      NobodyBusy(ws[1..]);
    }
  }

  // ------------------------------------------------------------------- invariant

  ghost predicate Inv<T(!new)>(s: State<T>) {
    && s.ring.Valid()
    && |s.workers| >= 1
    // the ring refines a FIFO queue
    && s.sent == s.taken + s.ring.Contents()
    // nothing is lost or duplicated on the way through the workers
    && multiset(s.taken) == multiset(s.done) + InHand(s.workers)
    // enough workers are awake for the items there are
    && Awake(s.workers) >= Min(s.ring.count, |s.workers|)
    // the producer sleeps unsignalled only on a full ring
    && (s.producer.Blocked? ==> s.ring.count == DEPTH)
    && (s.producer.Closed? <==> !s.ring.running)
    && (s.ring.running ==> forall i :: 0 <= i < |s.workers| ==> s.workers[i] != Exited)
    && (!s.ring.running ==> forall i :: 0 <= i < |s.workers| ==> s.workers[i] != Asleep)
  }

  ghost predicate Init<T>(s: State<T>) {
    && s.ring.Valid() && s.ring.running && s.ring.count == 0
    && |s.workers| >= 1 && (forall i :: 0 <= i < |s.workers| ==> s.workers[i] == Ready)
    && s.producer == Idle && s.sent == s.taken == s.done == []
  }

  lemma InitHolds<T(!new)>(s: State<T>)
    requires Init(s)
    ensures Inv(s)
  {
    NobodyBusy(s.workers);
  }

  /** A worker changes state without getting or giving up an item. */
  lemma SameInHand<T>(ws: seq<Worker<T>>, w: nat, x: Worker<T>)
    requires w < |ws| && !ws[w].Busy? && !x.Busy?
    ensures InHand(ws[w := x]) == InHand(ws)
    ensures Awake(ws[w := x]) == Awake(ws) + Up(x) - Up(ws[w])
  {
    UpdateOne(ws, w, x);
    UpdateInHand(ws, w, x);
    assert InHand(ws[w := x]) + multiset{} == InHand(ws[w := x]);
    assert InHand(ws) + multiset{} == InHand(ws);
  }

  lemma PickUp<T>(ws: seq<Worker<T>>, w: nat, x: T)
    requires w < |ws| && !ws[w].Busy?
    ensures InHand(ws[w := Busy(x)]) == InHand(ws) + multiset{x}
  {
    UpdateInHand(ws, w, Busy(x));
    assert InHand(ws[w := Busy(x)]) + multiset{} == InHand(ws[w := Busy(x)]);
  }

  lemma PutDown<T>(ws: seq<Worker<T>>, w: nat)
    requires w < |ws| && ws[w].Busy?
    ensures InHand(ws) == multiset{ws[w].item} + InHand(ws[w := Ready])
  {
    UpdateInHand(ws, w, Ready);
    assert InHand(ws) + multiset{} == InHand(ws);
  }

  lemma PutKeeps<T(!new)>(s: State<T>, wake: nat)
    requires Inv(s) && Enabled(s, Step.Put(wake))
    ensures Inv(Apply(s, Step.Put(wake)))
  {
    var x := s.producer.item;
    s.ring.PutAppends(x);
    assert s.taken + (s.ring.Contents() + [x]) == s.taken + s.ring.Contents() + [x];
    if SomeAsleep(s.workers) {
      SameInHand(s.workers, wake, Ready);
    } else {
      AllAwake(s.workers);
    }
  }

  /** The oldest item moves from the ring to the taken ones. */
  lemma TakeInOrder<T>(r: Ring<T>, taken: seq<T>)
    requires r.Valid() && r.count > 0
    ensures r.Take().1.Valid()
    ensures taken + r.Contents() == (taken + [r.Take().0]) + r.Take().1.Contents()
  {
    r.TakeRemovesOldest();
    assert taken + ([r.Take().0] + r.Take().1.Contents()) == (taken + [r.Take().0]) + r.Take().1.Contents();
  }

  /** What one worker takes into its hand is accounted for. */
  lemma TakeIsAccounted<T>(taken: seq<T>, done: multiset<T>, ws: seq<Worker<T>>, w: nat, x: T)
    requires w < |ws| && !ws[w].Busy? && multiset(taken) == done + InHand(ws)
    ensures multiset(taken + [x]) == done + InHand(ws[w := Busy(x)])
  {
    PickUp(ws, w, x);
    assert multiset(taken + [x]) == multiset(taken) + multiset{x};
    assert done + (InHand(ws) + multiset{x}) == done + InHand(ws) + multiset{x};
  }

  lemma TakeKeeps<T(!new)>(s: State<T>, w: nat)
    requires Inv(s) && Enabled(s, Step.Take(w))
    ensures Inv(Apply(s, Step.Take(w)))
  {
    var (x, r) := s.ring.Take();
    TakeInOrder(s.ring, s.taken);
    TakeIsAccounted(s.taken, multiset(s.done), s.workers, w, x);
    UpdateOne(s.workers, w, Busy(x));
  }

  /** What one worker puts down is done. */
  lemma FinishIsAccounted<T>(all: multiset<T>, done: seq<T>, ws: seq<Worker<T>>, w: nat)
    requires w < |ws| && ws[w].Busy? && all == multiset(done) + InHand(ws)
    ensures all == multiset(done + [ws[w].item]) + InHand(ws[w := Ready])
  {
    var x := ws[w].item;
    PutDown(ws, w);
    assert multiset(done + [x]) == multiset(done) + multiset{x};
    assert multiset(done) + (multiset{x} + InHand(ws[w := Ready])) == multiset(done) + multiset{x} + InHand(ws[w := Ready]);
  }

  lemma FinishKeeps<T(!new)>(s: State<T>, w: nat)
    requires Inv(s) && Enabled(s, Step.Finish(w))
    ensures Inv(Apply(s, Step.Finish(w)))
  {
    UpdateOne(s.workers, w, Ready);
    FinishIsAccounted(multiset(s.taken), s.done, s.workers, w);
  }

  lemma CloseKeeps<T(!new)>(s: State<T>)
    requires Inv(s) && Enabled(s, Step.Close)
    ensures Inv(Apply(s, Step.Close))
  {
    WakeAllMeasures(s.workers);
    s.ring.CloseChangesNothingElse();
  }

  /** Every step of every thread keeps the invariant. */
  lemma StepKeeps<T(!new)>(s: State<T>, step: Step<T>)
    requires Inv(s) && Enabled(s, step)
    ensures Inv(Apply(s, step))
  {
    match step
    case Put(wake) => PutKeeps(s, wake);
    case Take(w) => TakeKeeps(s, w);
    case Finish(w) => FinishKeeps(s, w);
    case Sleep(w) => SameInHand(s.workers, w, Asleep);
    case WorkerWakes(w) => SameInHand(s.workers, w, Ready);
    case Exit(w) => SameInHand(s.workers, w, Exited);
    case Close => CloseKeeps(s);
    case _ =>
  }

  /** t is reached from s by these steps, whichever threads they belong to. */
  ghost predicate Run<T(!new)>(s: State<T>, steps: seq<Step<T>>, t: State<T>)
    requires Inv(s)
    decreases |steps|
  {
    if steps == [] then s == t
    else Enabled(s, steps[0]) && (StepKeeps(s, steps[0]); Run(Apply(s, steps[0]), steps[1..], t))
  }

  // -------------------------------------------------------------------- theorems

  /** Every reachable state: FIFO order, one taker per item, work conservation and no missed
      wake-up, for any number of workers and any interleaving. */
  lemma {:induction false} EveryRunIsSafe<T(!new)>(s: State<T>, steps: seq<Step<T>>, t: State<T>)
    requires Inv(s) && Run(s, steps, t)
    ensures Inv(t)
    ensures |t.workers| == |s.workers|
    decreases |steps|
  {
    if steps != [] {
      StepKeeps(s, steps[0]);
      EveryRunIsSafe(Apply(s, steps[0]), steps[1..], t);
    }
  }

  /** What sends a worker to sleep, and what wakes it: the signal of a put that picked it, the
      broadcast of the stop, or nothing at all. */
  lemma WakesIff<T(!new)>(s: State<T>, step: Step<T>, w: nat)
    requires Inv(s) && Enabled(s, step) && w < |s.workers|
    ensures var t := Apply(s, step);
            && |t.workers| == |s.workers|
            && (s.workers[w] != Asleep ==> (t.workers[w] == Asleep <==> step == Sleep(w)))
            && (s.workers[w] == Asleep ==>
                  && t.workers[w] in {Asleep, Ready}
                  && (t.workers[w] == Ready <==> step == Step.Put(w) || step == WorkerWakes(w) || step == Close))
  {
  }

  /** A thread that is not asleep, gone or closed has exactly one thing to do next. */
  lemma ThreadsGoOn<T(!new)>(s: State<T>, w: nat) returns (wake: nat)
    requires Inv(s) && w < |s.workers|
    ensures s.producer.Wanting? ==> (Enabled(s, Step.Put(wake)) <==> s.ring.count < DEPTH)
                                    && (Enabled(s, Block) <==> s.ring.count == DEPTH)
    ensures s.workers[w] == Ready ==> (Enabled(s, Step.Take(w)) <==> s.ring.count > 0)
                                      && (Enabled(s, Sleep(w)) <==> s.ring.count == 0 && s.ring.running)
                                      && (Enabled(s, Exit(w)) <==> s.ring.count == 0 && !s.ring.running)
    ensures s.workers[w].Busy? ==> Enabled(s, Finish(w))
  {
    if SomeAsleep(s.workers) {
      wake :| wake < |s.workers| && s.workers[wake] == Asleep;
    } else {
      wake := 0;
    }
  }

  /** The items dispatch_ul_work is called with. */
  function Calls<T>(steps: seq<Step<T>>): seq<T> {
    if steps == [] then [] else CalledBy(steps[0]) + Calls(steps[1..])
  }

  function CalledBy<T>(step: Step<T>): seq<T> {
    if step.Call? then [step.x] else []
  }

  /** In the producer's hand, not yet in the ring. */
  function ToPut<T>(p: Producer<T>): seq<T> {
    match p case Wanting(x) => [x] case Blocked(x) => [x] case _ => []
  }

  lemma StepConserves<T(!new)>(s: State<T>, step: Step<T>)
    requires s.ring.Valid() && Enabled(s, step)
    ensures var t := Apply(s, step);
            s.sent + ToPut(s.producer) + CalledBy(step) == t.sent + ToPut(t.producer)
  {
  }

  /** In every run each item the scheduler hands over goes into the ring, once, in order and
      unchanged, unless the producer is still waiting with it. */
  lemma {:induction false} CallsAreSent<T(!new)>(s: State<T>, steps: seq<Step<T>>, t: State<T>)
    requires Inv(s) && Run(s, steps, t)
    ensures s.sent + ToPut(s.producer) + Calls(steps) == t.sent + ToPut(t.producer)
    decreases |steps|
  {
    if steps != [] {
      StepKeeps(s, steps[0]);
      StepConserves(s, steps[0]);
      CallsAreSent(Apply(s, steps[0]), steps[1..], t);
      Regroup(s.sent + ToPut(s.producer), CalledBy(steps[0]), Calls(steps[1..]));
    }
  }

  lemma Regroup<T>(a: seq<T>, b: seq<T>, c: seq<T>)
    ensures a + (b + c) == (a + b) + c
  {
  }

  /** A step that only a worker which is really awake can take. */
  predicate IsWork<T>(step: Step<T>) {
    step.Take? || step.Finish? || step.Exit?
  }

  /** No missed wake-up: with an item in the ring, or the producer asleep, or the pool being
      stopped, some worker can go on without anybody's help. */
  lemma NoDeadlock<T(!new)>(s: State<T>) returns (step: Step<T>)
    requires Inv(s)
    requires s.ring.count > 0 || s.producer.Blocked?
          || (!s.ring.running && exists i :: 0 <= i < |s.workers| && s.workers[i] != Exited)
    ensures IsWork(step) && Enabled(s, step)
  {
    var w: nat;
    if s.ring.count > 0 {
      w := SomeoneAwake(s.workers);
    } else {
      w :| w < |s.workers| && s.workers[w] != Exited;
    }
    step := if s.workers[w].Busy? then Finish(w) else if s.ring.count > 0 then Step.Take(w) else Exit(w);
  }

  function Remaining<T>(s: State<T>): nat {
    3 * s.ring.count + Phases(s.workers)
  }

  lemma StepsAfterCloseAreWork<T(!new)>(s: State<T>, step: Step<T>)
    requires Inv(s) && !s.ring.running && Enabled(s, step)
    ensures !Apply(s, step).ring.running
    ensures Apply(s, step).sent == s.sent
    ensures Remaining(Apply(s, step)) < Remaining(s)
  {
    match step
    case Take(w) => UpdateOne(s.workers, w, Busy(s.ring.Take().0));
    case Finish(w) => UpdateOne(s.workers, w, Ready);
    case Exit(w) => UpdateOne(s.workers, w, Exited);
    case _ =>
  }

  /** After `running = false` every schedule stops within a bound fixed at that moment ... */
  lemma {:induction false} ShutdownIsBounded<T(!new)>(s: State<T>, steps: seq<Step<T>>, t: State<T>)
    requires Inv(s) && !s.ring.running && Run(s, steps, t)
    ensures |steps| <= Remaining(s) - Remaining(t)
    ensures !t.ring.running && t.sent == s.sent
    decreases |steps|
  {
    if steps != [] {
      StepKeeps(s, steps[0]);
      StepsAfterCloseAreWork(s, steps[0]);
      ShutdownIsBounded(Apply(s, steps[0]), steps[1..], t);
    }
  }

  /** ... and where it stops, every worker has left and every item ever dispatched has been
      processed exactly once. */
  lemma ShutdownDrains<T(!new)>(s: State<T>, steps: seq<Step<T>>, t: State<T>)
    requires Inv(s) && !s.ring.running && Run(s, steps, t)
    requires forall step :: IsWork(step) ==> (EveryRunIsSafe(s, steps, t); !Enabled(t, step))
    ensures forall i :: 0 <= i < |t.workers| ==> t.workers[i] == Exited
    ensures t.taken == t.sent == s.sent
    ensures multiset(t.done) == multiset(s.sent)
  {
    EveryRunIsSafe(s, steps, t);
    ShutdownIsBounded(s, steps, t);
    if t.ring.count > 0 || exists i :: 0 <= i < |t.workers| && t.workers[i] != Exited {
      var step := NoDeadlock(t);
      assert false;
    }
    NobodyBusy(t.workers);
    assert t.ring.Contents() == [];
    assert t.taken + [] == t.taken;
  }

  // ------------------------------------------------------------- such runs exist

  lemma Prepend<T(!new)>(s: State<T>, step: Step<T>, u: State<T>, steps: seq<Step<T>>, t: State<T>) returns (all: seq<Step<T>>)
    requires Inv(s) && Enabled(s, step) && u == Apply(s, step) && Inv(u) && Run(u, steps, t)
    ensures Run(s, all, t) && Calls(all) == CalledBy(step) + Calls(steps)
  {
    all := [step] + steps;
    assert all[1..] == steps;
  }

  ghost predicate Leads<T(!new)>(s: State<T>, step: Step<T>, u: State<T>) {
    Inv(s) && Enabled(s, step) && u == Apply(s, step) && Inv(u)
  }

  /** Nothing in the ring, nobody asleep, everybody with the loop test ahead. */
  ghost predicate Calm<T(!new)>(s: State<T>) {
    && Inv(s) && s.producer == Idle && s.ring.count == 0
    && forall i :: 0 <= i < |s.workers| ==> s.workers[i] == Ready
  }

  ghost predicate NoWork<T(!new)>(s: State<T>) {
    s.ring.Valid() && forall step :: IsWork(step) ==> !Enabled(s, step)
  }

  lemma LeaveAll<T(!new)>(s: State<T>, k: nat) returns (steps: seq<Step<T>>, t: State<T>)
    requires Inv(s) && !s.ring.running && s.ring.count == 0 && k <= |s.workers|
    requires forall i :: 0 <= i < |s.workers| ==> s.workers[i] == if i < k then Exited else Ready
    ensures Run(s, steps, t) && Calls(steps) == [] && !t.ring.running && NoWork(t)
    decreases |s.workers| - k
  {
    if k == |s.workers| {
      steps, t := [], s;
    } else {
      var u := Apply(s, Exit(k));
      StepKeeps(s, Exit(k));
      steps, t := LeaveAll(u, k + 1);
      steps := Prepend(s, Exit(k), u, steps, t);
    }
  }

  /** An item on its way, nobody asleep: in the producer's hand, in the ring, or in a worker's hand. */
  ghost predicate OnItsWay<T(!new)>(s: State<T>, producer: Producer<T>, count: nat, first: Worker<T>) {
    && Inv(s) && s.producer == producer && s.ring.count == count && s.workers[0] == first
    && forall i :: 1 <= i < |s.workers| ==> s.workers[i] == Ready
  }

  lemma CallOne<T(!new)>(s: State<T>, x: T) returns (u: State<T>)
    requires Calm(s)
    ensures Leads(s, Call(x), u) && OnItsWay(u, Wanting(x), 0, Ready)
  {
    StepKeeps(s, Call(x));
    u := Apply(s, Call(x));
  }

  lemma PutOne<T(!new)>(s: State<T>, x: T) returns (u: State<T>)
    requires OnItsWay(s, Wanting(x), 0, Ready)
    ensures Leads(s, Step.Put(0), u) && OnItsWay(u, Idle, 1, Ready)
  {
    StepKeeps(s, Step.Put(0));
    u := Apply(s, Step.Put(0));
  }

  lemma TakeOne<T(!new)>(s: State<T>) returns (u: State<T>)
    requires OnItsWay(s, Idle, 1, Ready)
    ensures Leads(s, Step.Take(0), u) && u.workers != [] && u.workers[0].Busy?
    ensures OnItsWay(u, Idle, 0, u.workers[0])
  {
    StepKeeps(s, Step.Take(0));
    u := Apply(s, Step.Take(0));
  }

  lemma FinishOne<T(!new)>(s: State<T>) returns (u: State<T>)
    requires s.workers != [] && s.workers[0].Busy? && OnItsWay(s, Idle, 0, s.workers[0])
    ensures Leads(s, Finish(0), u) && Calm(u)
  {
    StepKeeps(s, Finish(0));
    u := Apply(s, Finish(0));
  }

  lemma StopCalm<T(!new)>(s: State<T>) returns (steps: seq<Step<T>>, t: State<T>)
    requires Calm(s)
    ensures Run(s, steps, t) && Calls(steps) == [] && !t.ring.running && NoWork(t)
  {
    var u := Apply(s, Close);
    StepKeeps(s, Close);
    steps, t := LeaveAll(u, 0);
    steps := Prepend(s, Close, u, steps, t);
  }

  /** Runs that hand over these items, and then end with the pool stopped and all workers gone. */
  ghost predicate Serves<T(!new)>(s: State<T>, steps: seq<Step<T>>, t: State<T>, items: seq<T>) {
    Inv(s) && Run(s, steps, t) && Calls(steps) == items && !t.ring.running && NoWork(t)
  }

  lemma FromFinish<T(!new)>(s: State<T>, items: seq<T>) returns (steps: seq<Step<T>>, t: State<T>)
    requires s.workers != [] && s.workers[0].Busy? && OnItsWay(s, Idle, 0, s.workers[0])
    ensures Serves(s, steps, t, items)
    decreases |items|, 1
  {
    var u := FinishOne(s);
    steps, t := SomeRunServesAll(u, items);
    steps := Prepend(s, Finish(0), u, steps, t);
  }

  lemma FromTake<T(!new)>(s: State<T>, items: seq<T>) returns (steps: seq<Step<T>>, t: State<T>)
    requires OnItsWay(s, Idle, 1, Ready)
    ensures Serves(s, steps, t, items)
    decreases |items|, 2
  {
    var u := TakeOne(s);
    steps, t := FromFinish(u, items);
    steps := Prepend(s, Step.Take(0), u, steps, t);
  }

  lemma FromPut<T(!new)>(s: State<T>, x: T, items: seq<T>) returns (steps: seq<Step<T>>, t: State<T>)
    requires OnItsWay(s, Wanting(x), 0, Ready)
    ensures Serves(s, steps, t, items)
    decreases |items|, 3
  {
    var u := PutOne(s, x);
    steps, t := FromTake(u, items);
    steps := Prepend(s, Step.Put(0), u, steps, t);
  }

  /** Whatever the scheduler has to hand over, there are runs in which it does so, the pool is stopped
      and all workers leave. */
  lemma {:induction false} SomeRunServesAll<T(!new)>(s: State<T>, items: seq<T>) returns (steps: seq<Step<T>>, t: State<T>)
    requires Calm(s)
    ensures Serves(s, steps, t, items)
    decreases |items|, 0
  {
    if items == [] {
      steps, t := StopCalm(s);
    } else {
      var u := CallOne(s, items[0]);
      steps, t := FromPut(u, items[0], items[1..]);
      steps := Prepend(s, Call(items[0]), u, steps, t);
    }
  }
}
