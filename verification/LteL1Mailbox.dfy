/** The hand-over from the eNB's L1 receive thread to its L1 transmit thread: one slot, a counter
    that is 0 when the slot is full and -1 when it is free, and one condition variable on which
    both threads sleep. */
module LteL1Mailbox {

  datatype Msg = Msg(frameTx: int, subframeTx: int, timestampTx: int)

  /** What the mutex protects. */
  datatype Box = Box(instanceCnt: int, msg: Msg)

  /** The critical section of wakeup_tx once the slot is free. */
  function Put(b: Box, m: Msg): Box {
    Box(0, m)
  }

  /** The critical section of L1_thread_tx after processing. */
  function Release(b: Box): Box {
    b.(instanceCnt := -1)
  }

  class Mailbox {
    var instanceCnt: int
    var frameTx: int
    var subframeTx: int
    var timestampTx: int

    ghost function View(): Box
      reads this
    {
      Box(instanceCnt, Msg(frameTx, subframeTx, timestampTx))
    }

    /** One pass through the loop of wakeup_tx; false means that the caller has to sleep. */
    method TryPut(m: Msg) returns (ok: bool)
      modifies this
      ensures ok <==> old(instanceCnt) != 0
      ensures View() == if ok then Put(old(View()), m) else old(View())
    {
      if instanceCnt == 0 {
        return false;
      }
      instanceCnt := 0;
      subframeTx := m.subframeTx;
      frameTx := m.frameTx;
      timestampTx := m.timestampTx;
      ok := true;
    }

    /** The copies L1_thread_tx takes before it frees the slot. */
    method TakeAndRelease() returns (m: Msg)
      modifies this`instanceCnt
      ensures m == old(View().msg) && View() == Release(old(View()))
    {
      m := Msg(frameTx, subframeTx, timestampTx);
      instanceCnt := -1;
    }
  }

  // ------------------------------------------------------------------- the two threads

  /** The receive thread: outside wakeup_tx, about to look at the counter, or asleep. */
  datatype Producer = PIdle | PWant(m: Msg) | PAsleep(m: Msg)

  /** The transmit thread: about to look at the counter, asleep, processing what is in the slot,
      done with it, or about to hand its copies on. */
  datatype Consumer = CWant | CAsleep | CProcess | CProcessed | CHand(copy: Msg)

  datatype State = State(box: Box, p: Producer, c: Consumer, posted: seq<Msg>, processed: seq<Msg>, handed: seq<Msg>)

  datatype Action =
    | Call(m: Msg, uplink: bool)
    | PTest
    | CTest
    | CProcessing
    | CRelease
    | CHandOn
    | PSpurious
    | CSpurious

  predicate Enabled(s: State, a: Action) {
    match a
    case Call(_, _) => s.p == PIdle
    case PTest => s.p.PWant?
    case CTest => s.c == CWant
    case CProcessing => s.c == CProcess
    case CRelease => s.c == CProcessed
    case CHandOn => s.c.CHand?
    case PSpurious => s.p.PAsleep?
    case CSpurious => s.c == CAsleep
  }

  /** A signal of the condition variable wakes one sleeper, if there is any; `first` says which
      one the system prefers. */
  function Signal(s: State, first: bool): State {
    if s.p.PAsleep? && (first || s.c != CAsleep) then s.(p := PWant(s.p.m))
    else if s.c == CAsleep then s.(c := CWant)
    else s
  }

  function Next(s: State, a: Action, first: bool): State
    requires Enabled(s, a)
  {
    match a
    case Call(m, uplink) => if uplink then s else s.(p := PWant(m))
    case PTest =>
      if s.box.instanceCnt == 0 then s.(p := PAsleep(s.p.m))
      else Signal(s.(box := Put(s.box, s.p.m), p := PIdle, posted := s.posted + [s.p.m]), first)
    case CTest => s.(c := if s.box.instanceCnt < 0 then CAsleep else CProcess)
    case CProcessing => s.(c := CProcessed, processed := s.processed + [s.box.msg])
    case CRelease => Signal(s.(box := Release(s.box), c := CHand(s.box.msg)), first)
    case CHandOn => s.(c := CWant, handed := s.handed + [s.c.copy])
    case PSpurious => s.(p := PWant(s.p.m))
    case CSpurious => s.(c := CWant)
  }

  predicate Initial(s: State) {
    s.box.instanceCnt == -1 && s.p == PIdle && s.c == CWant && s.posted == [] && s.processed == [] && s.handed == []
  }

  datatype Choice = Choice(action: Action, first: bool)

  predicate Allowed(s: State, run: seq<Choice>)
    decreases |run|
  {
    run == [] || (Enabled(s, run[0].action) && Allowed(Next(s, run[0].action, run[0].first), run[1..]))
  }

  function After(s: State, run: seq<Choice>): State
    requires Allowed(s, run)
    decreases |run|
  {
    if run == [] then s else After(Next(s, run[0].action, run[0].first), run[1..])
  }

  // -------------------------------------------------------------------------- safety

  /** Released and on its way. */
  function InHand(c: Consumer): seq<Msg> {
    if c.CHand? then [c.copy] else []
  }

  function InBox(b: Box): seq<Msg> {
    if b.instanceCnt == 0 then [b.msg] else []
  }

  ghost predicate Inv(s: State) {
    && s.box.instanceCnt in {-1, 0}
    && (s.p.PAsleep? ==> s.box.instanceCnt == 0)
    && (s.c == CAsleep ==> s.box.instanceCnt == -1)
    && (s.c in {CProcess, CProcessed} ==> s.box.instanceCnt == 0)
    && s.posted == s.handed + InHand(s.c) + InBox(s.box)
    && s.processed == s.handed + InHand(s.c) + (if s.c == CProcessed then [s.box.msg] else [])
  }

  lemma StepKeeps(s: State, a: Action, first: bool)
    requires Inv(s) && Enabled(s, a)
    ensures Inv(Next(s, a, first))
  {
  }

  lemma {:induction false} RunKeeps(s: State, run: seq<Choice>)
    requires Inv(s) && Allowed(s, run)
    ensures Inv(After(s, run))
    decreases |run|
  {
    if run != [] {
      StepKeeps(s, run[0].action, run[0].first);
      RunKeeps(Next(s, run[0].action, run[0].first), run[1..]);
    }
  }

  /** Over every run, with spurious wake-ups and any choice of whom a signal wakes: the counter is
      0 or -1, the two threads never sleep together, and what was posted has been handed on in
      order, each once and unchanged, but for at most one message in the slot and one in hand;
      what was processed is what was posted. */
  lemma EveryRunIsSafe(s: State, run: seq<Choice>)
    requires Initial(s) && Allowed(s, run)
    ensures var t := After(s, run);
            && t.box.instanceCnt in {-1, 0}
            && !(t.p.PAsleep? && t.c == CAsleep)
            && t.posted == t.handed + InHand(t.c) + InBox(t.box)
            && t.handed <= t.processed <= t.posted
  {
    RunKeeps(s, run);
    var t := After(s, run);
    assert t.processed == t.posted[..|t.processed|];
  }

  /** Both threads sleep on one condition variable, yet no signal goes astray, whomever the system
      prefers: the transmit thread is woken by every post, the receive thread by every release, and
      otherwise only by themselves; and each sleeps only after finding the slot not as it needs it. */
  lemma WakesIff(s: State, a: Action, first: bool)
    requires Inv(s) && Enabled(s, a)
    ensures var t := Next(s, a, first);
            && (s.c == CAsleep ==> (t.c == CWant <==> a == PTest || a == CSpurious) && t.c in {CAsleep, CWant})
            && (s.c != CAsleep ==> (t.c == CAsleep <==> a == CTest && s.box.instanceCnt == -1))
            && (s.p.PAsleep? ==> (t.p == PWant(s.p.m) <==> a == CRelease || a == PSpurious) && t.p in {s.p, PWant(s.p.m)})
            && (!s.p.PAsleep? ==> (t.p.PAsleep? <==> a == PTest && s.box.instanceCnt == 0))
  {
  }

  // ------------------------------------------------------------------------- progress

  /** Everything but a new call and a spurious wake-up. */
  predicate Internal(a: Action) {
    !a.Call? && a != PSpurious && a != CSpurious
  }

  function Rank(s: State): nat {
    (match s.p case PIdle => 0 case PAsleep(_) => 9 case PWant(_) => 10)
    + (if s.box.instanceCnt == 0 then
         match s.c case CAsleep => 0 case CProcessed => 4 case CProcess => 5 case CWant => 6 case CHand(_) => 7
       else
         match s.c case CWant => 1 case CHand(_) => 2 case _ => 0)
  }

  /** Each internal step comes nearer to rest. */
  lemma InternalStepsEnd(s: State, a: Action, first: bool)
    requires Inv(s) && Enabled(s, a) && Internal(a)
    ensures Rank(Next(s, a, first)) < Rank(s) <= 17
  {
  }

  /** So at most 17 of them follow one another. */
  lemma {:induction false} InternalRunsAreShort(s: State, run: seq<Choice>)
    requires Inv(s) && Allowed(s, run) && forall k :: 0 <= k < |run| ==> Internal(run[k].action)
    ensures |run| + Rank(After(s, run)) <= Rank(s)
    decreases |run|
  {
    if run != [] {
      InternalStepsEnd(s, run[0].action, run[0].first);
      StepKeeps(s, run[0].action, run[0].first);
      InternalRunsAreShort(Next(s, run[0].action, run[0].first), run[1..]);
    }
  }

  /** The threads come to rest only when everything posted has been processed and handed on, the
      transmit thread asleep and the receive thread outside, ready for any call: neither can block the
      other. */
  lemma RestIff(s: State)
    requires Inv(s)
    ensures (forall a :: Internal(a) ==> !Enabled(s, a)) <==> s.p == PIdle && s.c == CAsleep
    ensures s.p == PIdle && s.c == CAsleep ==> s.posted == s.processed == s.handed
    ensures s.p == PIdle ==> forall m, uplink :: Enabled(s, Call(m, uplink))
  {
    if forall a :: Internal(a) ==> !Enabled(s, a) {
      assert !Enabled(s, PTest) && !Enabled(s, CTest) && !Enabled(s, CProcessing);
      assert !Enabled(s, CRelease) && !Enabled(s, CHandOn);
    }
  }

  // ------------------------------------------------------------- from the call to the hand-on

  /** The messages wakeup_tx is called with for subframes that are not uplink. */
  function ToSend(run: seq<Choice>): seq<Msg> {
    if run == [] then []
    else (match run[0].action case Call(m, uplink) => (if uplink then [] else [m]) case _ => []) + ToSend(run[1..])
  }

  /** What the receive thread has not posted yet. */
  function ToPost(p: Producer): seq<Msg> {
    match p case PIdle => [] case PWant(m) => [m] case PAsleep(m) => [m]
  }

  lemma StepConserves(s: State, c: Choice)
    requires Enabled(s, c.action)
    ensures var t := Next(s, c.action, c.first);
            s.posted + ToPost(s.p) + ToSend([c]) == t.posted + ToPost(t.p)
  {
    assert [c][1..] == [];
  }

  lemma SendHead(run: seq<Choice>)
    requires run != []
    ensures ToSend(run) == ToSend([run[0]]) + ToSend(run[1..])
  {
    assert [run[0]][1..] == [];
  }

  /** Over every run, each call for a subframe with something to transmit is posted, once, in order
      and unchanged, unless the thread is still waiting with it; uplink calls are not. */
  lemma {:induction false} CallsArePosted(s: State, run: seq<Choice>)
    requires Allowed(s, run)
    ensures var t := After(s, run); s.posted + ToPost(s.p) + ToSend(run) == t.posted + ToPost(t.p)
    decreases |run|
  {
    if run != [] {
      var u := Next(s, run[0].action, run[0].first);
      StepConserves(s, run[0]);
      SendHead(run);
      CallsArePosted(u, run[1..]);
      assert s.posted + ToPost(s.p) + (ToSend([run[0]]) + ToSend(run[1..]))
          == (s.posted + ToPost(s.p) + ToSend([run[0]])) + ToSend(run[1..]);
    }
  }

  /** From the start until both threads rest, exactly those messages have been handed on, in order. */
  lemma AtRestAllSent(s: State, run: seq<Choice>)
    requires Initial(s) && Allowed(s, run) && forall a :: Internal(a) ==> !Enabled(After(s, run), a)
    ensures After(s, run).processed == After(s, run).handed == ToSend(run)
  {
    CallsArePosted(s, run);
    RunKeeps(s, run);
    RestIff(After(s, run));
    assert [] + [] + ToSend(run) == ToSend(run);
  }
}
