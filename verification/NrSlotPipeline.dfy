/** The gNB's slot pipeline: RU thread, L1 TX thread and L1 RX thread, joined by the queues
    L1_tx_out, resp_L1 and L1_rx_out, with a busy flag for each of the receive buffers. */
module NrSlotPipeline {

  const DEPTH: nat := 4

  datatype Msg = Msg(frame: nat, slot: nat) {
    /** The receive buffer of this slot. */
    function Buffer(): nat { slot % DEPTH }
  }

  /** For each slot of the frame, whether it is an uplink or a mixed slot. */
  type Pattern = seq<bool>

  predicate Ul(cfg: Pattern, m: Msg) {
    m.slot < |cfg| && cfg[m.slot]
  }

  // ------------------------------------------------------- wait_free_rx_tti, in place

  /** The flags after these completions have been pulled. */
  function Released(busy: seq<bool>, done: seq<Msg>): (b: seq<bool>)
    requires |busy| == DEPTH
    ensures |b| == DEPTH
  {
    if done == [] then busy else Released(busy, done[..|done| - 1])[done[|done| - 1].Buffer() := false]
  }

  lemma {:induction false} ReleasedFlag(busy: seq<bool>, done: seq<Msg>, b: nat)
    requires |busy| == DEPTH && b < DEPTH
    ensures Released(busy, done)[b] <==> busy[b] && forall k :: 0 <= k < |done| ==> done[k].Buffer() != b
  {
    if done != [] {
      ReleasedFlag(busy, done[..|done| - 1], b);
    }
  }

  /** `completions` is what pulling L1_rx_out yields, in order; after them the queue has been
      aborted and yields nothing. */
  method WaitFreeRxTti(busy: array<bool>, completions: seq<Msg>, m: Msg) returns (ok: bool, pulls: nat)
    requires busy.Length == DEPTH
    modifies busy
    ensures pulls <= |completions|
    ensures ok <==> !old(busy[m.Buffer()]) || exists k :: 0 <= k < |completions| && completions[k].Buffer() == m.Buffer()
    ensures !old(busy[m.Buffer()]) ==> pulls == 0
    ensures ok && old(busy[m.Buffer()]) ==> pulls > 0 && completions[pulls - 1].Buffer() == m.Buffer()
    ensures forall k :: 0 <= k < pulls - 1 ==> completions[k].Buffer() != m.Buffer()
    ensures busy[..] == if ok then Released(old(busy[..]), completions[..pulls])[m.Buffer() := true]
                        else Released(old(busy[..]), completions)
  {
    var idx := m.Buffer();
    pulls := 0;
    if busy[idx] {
      var notDone := true;
      while notDone
        invariant pulls <= |completions|
        invariant busy[..] == Released(old(busy[..]), completions[..pulls])
        invariant notDone ==> forall k :: 0 <= k < pulls ==> completions[k].Buffer() != idx
        invariant !notDone ==> pulls > 0 && completions[pulls - 1].Buffer() == idx
        invariant forall k :: 0 <= k < pulls - 1 ==> completions[k].Buffer() != idx
        decreases |completions| - pulls, notDone
      {
        if pulls == |completions| {
          assert completions[..pulls] == completions;
          return false, pulls;
        }
        var info := completions[pulls];
        assert completions[..pulls + 1][..pulls] == completions[..pulls];
        pulls := pulls + 1;
        busy[info.Buffer()] := false;
        if info.Buffer() == idx {
          notDone := false;
        }
      }
    }
    busy[idx] := true;
    ok := true;
  }

  // ------------------------------------------------------------------ the three threads

  datatype Ru = RuIdle | RuWaiting(m: Msg) | RuHolding(m: Msg)
  datatype Tx = TxIdle | TxRun(m: Msg) | TxTail(m: Msg)
  datatype Rx = RxIdle | RxRun(m: Msg)

  /** `started` and `finished` are history: receive slots whose buffer was claimed, and those
      whose completion was pulled. */
  datatype State = State(busy: seq<bool>, ru: Ru, tx: Tx, rx: Rx,
                         l1TxOut: seq<Msg>, respL1: seq<Msg>, l1RxOut: seq<Msg>,
                         started: seq<Msg>, finished: seq<Msg>)

  datatype Step =
    | Arrive(m: Msg)  // the RU thread has read slot m; if its buffer is free, claim it
    | PullDone        // the RU thread, waiting, pulls L1_rx_out
    | Push            // the RU thread hands the slot to L1_tx_out
    | TxPull          // the TX thread pulls L1_tx_out
    | TxTrigger       // tx_func pushes resp_L1
    | TxFinish        // tx_func returns
    | RxPull          // the RX thread pulls resp_L1
    | RxFinish        // rx_func ends, with a completion for a receive slot

  predicate Enabled(s: State, step: Step) {
    match step
    case Arrive(m) => s.ru == RuIdle
    case PullDone => s.ru.RuWaiting? && s.l1RxOut != []
    case Push => s.ru.RuHolding?
    case TxPull => s.tx == TxIdle && s.l1TxOut != []
    case TxTrigger => s.tx.TxRun?
    case TxFinish => s.tx.TxTail?
    case RxPull => s.rx == RxIdle && s.respL1 != []
    case RxFinish => s.rx.RxRun?
  }

  function Claim(s: State, m: Msg): State
    requires |s.busy| == DEPTH
  {
    s.(busy := s.busy[m.Buffer() := true], ru := RuHolding(m), started := s.started + [m])
  }

  function Apply(cfg: Pattern, s: State, step: Step): State
    requires Enabled(s, step) && |s.busy| == DEPTH
  {
    match step
    case Arrive(m) =>
      if !Ul(cfg, m) then s.(ru := RuHolding(m))
      else if s.busy[m.Buffer()] then s.(ru := RuWaiting(m))
      else Claim(s, m)
    case PullDone =>
      var done := s.l1RxOut[0];
      var s1 := s.(busy := Released(s.busy, [done]), l1RxOut := s.l1RxOut[1..], finished := s.finished + [done]);
      if done.Buffer() == s.ru.m.Buffer() then Claim(s1, s.ru.m) else s1
    case Push => s.(ru := RuIdle, l1TxOut := s.l1TxOut + [s.ru.m])
    case TxPull => s.(tx := TxRun(s.l1TxOut[0]), l1TxOut := s.l1TxOut[1..])
    case TxTrigger => s.(tx := TxTail(s.tx.m), respL1 := s.respL1 + [s.tx.m])
    case TxFinish => s.(tx := TxIdle)
    case RxPull => s.(rx := RxRun(s.respL1[0]), respL1 := s.respL1[1..])
    case RxFinish =>
      s.(rx := RxIdle, l1RxOut := if Ul(cfg, s.rx.m) then s.l1RxOut + [s.rx.m] else s.l1RxOut)
  }

  // ------------------------------------------------------------------------ invariant

  function UlOnly(cfg: Pattern, ms: seq<Msg>): seq<Msg> {
    if ms == [] then []
    else (if Ul(cfg, ms[0]) then [ms[0]] else []) + UlOnly(cfg, ms[1..])
  }

  function RuPart(s: State): seq<Msg> {
    if s.ru.RuHolding? then [s.ru.m] else []
  }

  function TxPart(s: State): seq<Msg> {
    if s.tx.TxRun? then [s.tx.m] else []
  }

  function RxPart(s: State): seq<Msg> {
    if s.rx.RxRun? then [s.rx.m] else []
  }

  /** All slots on their way, from the completions back to the RU thread. */
  function Everything(s: State): seq<Msg> {
    s.l1RxOut + (RxPart(s) + (s.respL1 + (TxPart(s) + (s.l1TxOut + RuPart(s)))))
  }

  /** The receive slots in flight, oldest first, wherever they are. */
  function Flight(cfg: Pattern, s: State): seq<Msg> {
    UlOnly(cfg, Everything(s))
  }

  /** No two of them share a receive buffer. */
  predicate OneEach(ms: seq<Msg>) {
    forall i, k :: 0 <= i < k < |ms| ==> ms[i].Buffer() != ms[k].Buffer()
  }

  ghost predicate Occupied(ms: seq<Msg>, b: nat) {
    exists i :: 0 <= i < |ms| && ms[i].Buffer() == b
  }

  ghost predicate Inv(cfg: Pattern, s: State) {
    var f := Flight(cfg, s);
    && |s.busy| == DEPTH
    && OneEach(f)
    && (forall b :: 0 <= b < DEPTH ==> (s.busy[b] <==> Occupied(f, b)))
    && s.started == s.finished + f
    && (forall i :: 0 <= i < |s.l1RxOut| ==> Ul(cfg, s.l1RxOut[i]))
    && (s.ru.RuWaiting? ==> Ul(cfg, s.ru.m) && s.busy[s.ru.m.Buffer()])
  }

  ghost predicate Init(s: State) {
    && |s.busy| == DEPTH && (forall b :: 0 <= b < DEPTH ==> !s.busy[b])
    && s.ru == RuIdle && s.tx == TxIdle && s.rx == RxIdle
    && s.l1TxOut == s.respL1 == s.l1RxOut == s.started == s.finished == []
  }

  lemma {:induction false} UlOnlyAppend(cfg: Pattern, a: seq<Msg>, b: seq<Msg>)
    ensures UlOnly(cfg, a + b) == UlOnly(cfg, a) + UlOnly(cfg, b)
  {
    if a == [] {
      assert a + b == b;
    } else {
      assert (a + b)[0] == a[0] && (a + b)[1..] == a[1..] + b;
      UlOnlyAppend(cfg, a[1..], b);
      Regroup(if Ul(cfg, a[0]) then [a[0]] else [], UlOnly(cfg, a[1..]), UlOnly(cfg, b));
    }
  }

  lemma Regroup(a: seq<Msg>, b: seq<Msg>, c: seq<Msg>)
    ensures a + (b + c) == (a + b) + c
  {
  }

  lemma ClaimKeeps(cfg: Pattern, s: State, t: State, m: Msg, f: seq<Msg>)
    requires |s.busy| == DEPTH && t == Claim(s, m) && Ul(cfg, m)
    requires Flight(cfg, t) == f + [m] && OneEach(f) && s.started == s.finished + f
    requires forall b :: 0 <= b < DEPTH ==> (s.busy[b] <==> Occupied(f, b))
    requires !s.busy[m.Buffer()]
    requires forall i :: 0 <= i < |s.l1RxOut| ==> Ul(cfg, s.l1RxOut[i])
    ensures Inv(cfg, t)
  {
    var g := f + [m];
    forall b | 0 <= b < DEPTH
      ensures t.busy[b] <==> Occupied(g, b)
    {
      if Occupied(f, b) {
        var i :| 0 <= i < |f| && f[i].Buffer() == b;
        assert g[i].Buffer() == b;
      }
      assert g[|f|].Buffer() == m.Buffer();
    }
    assert !Occupied(f, m.Buffer());
  }

  /** A slot without uplink symbols is not in flight. */
  lemma DownlinkFlight(cfg: Pattern, s: State, m: Msg)
    requires s.ru == RuIdle && !Ul(cfg, m)
    ensures Flight(cfg, s.(ru := RuHolding(m))) == Flight(cfg, s)
  {
    var t := s.(ru := RuHolding(m));
    assert s.l1TxOut + RuPart(t) == s.l1TxOut + RuPart(s) + [m];
    assert Everything(t) == Everything(s) + [m];
    UlOnlyAppend(cfg, Everything(s), [m]);
    assert UlOnly(cfg, [m]) == [];
    assert UlOnly(cfg, Everything(s)) + [] == UlOnly(cfg, Everything(s));
  }

  lemma ArriveKeeps(cfg: Pattern, s: State, m: Msg)
    requires Inv(cfg, s) && Enabled(s, Arrive(m))
    ensures Inv(cfg, Apply(cfg, s, Arrive(m)))
  {
    var t := Apply(cfg, s, Arrive(m));
    if Ul(cfg, m) && t.ru.RuHolding? {
      ClaimedFlight(cfg, s, m);
      ClaimKeeps(cfg, s, t, m, Flight(cfg, s));
    } else if t.ru.RuHolding? {
      DownlinkFlight(cfg, s, m);
    } else {
      assert Everything(t) == Everything(s);
    }
  }

  lemma ReleaseOldest(busy: seq<bool>, done: Msg, g: seq<Msg>)
    requires |busy| == DEPTH && OneEach([done] + g)
    requires forall b :: 0 <= b < DEPTH ==> (busy[b] <==> Occupied([done] + g, b))
    ensures OneEach(g)
    ensures forall b :: 0 <= b < DEPTH ==> (busy[done.Buffer() := false][b] <==> Occupied(g, b))
  {
    var f := [done] + g;
    assert forall i :: 0 <= i < |g| ==> g[i] == f[i + 1];
    forall b | 0 <= b < DEPTH
      ensures Occupied(f, b) <==> b == done.Buffer() || Occupied(g, b)
    {
      if Occupied(g, b) {
        var i :| 0 <= i < |g| && g[i].Buffer() == b;
        assert f[i + 1].Buffer() == b;
      }
      assert f[0].Buffer() == done.Buffer();
    }
    assert !Occupied(g, done.Buffer()) by {
      assert f[0].Buffer() == done.Buffer();
    }
  }

  /** The state just after a completion has been pulled. */
  function Pulled(s: State): State
    requires |s.busy| == DEPTH && s.l1RxOut != []
  {
    s.(busy := Released(s.busy, [s.l1RxOut[0]]), l1RxOut := s.l1RxOut[1..], finished := s.finished + [s.l1RxOut[0]])
  }

  lemma PulledFlight(cfg: Pattern, s: State)
    requires Inv(cfg, s) && s.l1RxOut != []
    ensures Flight(cfg, s) == [s.l1RxOut[0]] + Flight(cfg, Pulled(s))
  {
    var t := Pulled(s);
    assert s.l1RxOut == [s.l1RxOut[0]] + t.l1RxOut;
    assert Everything(s) == [s.l1RxOut[0]] + Everything(t);
    assert Everything(s)[1..] == Everything(t);
  }

  lemma ClaimedFlight(cfg: Pattern, s: State, m: Msg)
    requires |s.busy| == DEPTH && !s.ru.RuHolding? && Ul(cfg, m)
    ensures Flight(cfg, Claim(s, m)) == Flight(cfg, s) + [m]
  {
    var t := Claim(s, m);
    assert s.l1TxOut + RuPart(t) == s.l1TxOut + RuPart(s) + [m];
    assert Everything(t) == Everything(s) + [m];
    UlOnlyAppend(cfg, Everything(s), [m]);
  }

  lemma PullKeeps(cfg: Pattern, s: State)
    requires Inv(cfg, s) && Enabled(s, PullDone)
    ensures Inv(cfg, Apply(cfg, s, PullDone))
    ensures Flight(cfg, s) != [] && Flight(cfg, s)[0] == s.l1RxOut[0]
    ensures var t := Apply(cfg, s, PullDone);
            Flight(cfg, t) == Flight(cfg, s)[1..] + (if t.ru.RuHolding? then [t.ru.m] else [])
  {
    var done, s1 := s.l1RxOut[0], Pulled(s);
    PulledFlight(cfg, s);
    var g := Flight(cfg, s1);
    assert Released(s.busy, [done]) == s.busy[done.Buffer() := false] by {
      assert [done][..0] == [];
      assert Released(s.busy, []) == s.busy;
    }
    assert s1.finished + g == s.finished + Flight(cfg, s);
    ReleaseOldest(s.busy, done, g);
    if done.Buffer() == s.ru.m.Buffer() {
      ClaimedFlight(cfg, s1, s.ru.m);
      ClaimKeeps(cfg, s1, Claim(s1, s.ru.m), s.ru.m, g);
    }
  }

  /** Pushing and pulling between the stages. */
  lemma PassedOn(cfg: Pattern, s: State, step: Step)
    requires |s.busy| == DEPTH && Enabled(s, step)
    requires step.Push? || step.TxPull? || step.TxTrigger? || step.TxFinish? || step.RxPull?
    ensures Everything(Apply(cfg, s, step)) == Everything(s)
  {
    var t := Apply(cfg, s, step);
    var afterTx := s.l1TxOut + RuPart(s);
    match step
    case Push => assert t.l1TxOut + RuPart(t) == afterTx;
    case TxPull => assert TxPart(t) + (t.l1TxOut + RuPart(t)) == TxPart(s) + afterTx;
    case TxTrigger => assert t.respL1 + (TxPart(t) + afterTx) == s.respL1 + (TxPart(s) + afterTx);
    case RxPull => assert RxPart(t) + (t.respL1 + (TxPart(t) + afterTx)) == RxPart(s) + (s.respL1 + (TxPart(s) + afterTx));
    case _ =>
  }

  lemma RxFinishFlight(cfg: Pattern, s: State)
    requires |s.busy| == DEPTH && Enabled(s, RxFinish)
    ensures Flight(cfg, Apply(cfg, s, RxFinish)) == Flight(cfg, s)
  {
    var t := Apply(cfg, s, RxFinish);
    var afterRx := s.respL1 + (TxPart(s) + (s.l1TxOut + RuPart(s)));
    assert RxPart(t) == [] && [] + afterRx == afterRx;
    if Ul(cfg, s.rx.m) {
      Regroup(s.l1RxOut, [s.rx.m], afterRx);
    } else {
      DropOther(cfg, s.l1RxOut, s.rx.m, afterRx);
    }
  }

  /** The other steps only move a slot along. */
  lemma MoveKeeps(cfg: Pattern, s: State, step: Step)
    requires Inv(cfg, s) && Enabled(s, step) && !step.Arrive? && !step.PullDone?
    ensures Inv(cfg, Apply(cfg, s, step))
    ensures Flight(cfg, Apply(cfg, s, step)) == Flight(cfg, s)
  {
    if step.RxFinish? {
      RxFinishFlight(cfg, s);
    } else {
      PassedOn(cfg, s, step);
    }
  }

  lemma DropOther(cfg: Pattern, a: seq<Msg>, m: Msg, b: seq<Msg>)
    requires !Ul(cfg, m)
    ensures UlOnly(cfg, a + ([m] + b)) == UlOnly(cfg, a + b)
  {
    UlOnlyAppend(cfg, a, [m] + b);
    UlOnlyAppend(cfg, a, b);
    assert ([m] + b)[1..] == b;
  }

  lemma StepKeeps(cfg: Pattern, s: State, step: Step)
    requires Inv(cfg, s) && Enabled(s, step)
    ensures Inv(cfg, Apply(cfg, s, step))
  {
    match step
    case Arrive(m) => ArriveKeeps(cfg, s, m);
    case PullDone => PullKeeps(cfg, s);
    case _ => MoveKeeps(cfg, s, step);
  }

  ghost predicate Run(cfg: Pattern, s: State, steps: seq<Step>, t: State)
    requires Inv(cfg, s)
    decreases |steps|
  {
    if steps == [] then s == t
    else Enabled(s, steps[0]) && (StepKeeps(cfg, s, steps[0]); Run(cfg, Apply(cfg, s, steps[0]), steps[1..], t))
  }

  // ------------------------------------------------------------------------ theorems

  /** Every interleaving of the three threads, for every slot pattern and slot sequence. */
  lemma {:induction false} EveryRunIsSafe(cfg: Pattern, s: State, steps: seq<Step>, t: State)
    requires Inv(cfg, s) && Run(cfg, s, steps, t)
    ensures Inv(cfg, t)
    decreases |steps|
  {
    if steps != [] {
      StepKeeps(cfg, s, steps[0]);
      EveryRunIsSafe(cfg, Apply(cfg, s, steps[0]), steps[1..], t);
    }
  }

  lemma InitHolds(cfg: Pattern, s: State)
    requires Init(s)
    ensures Inv(cfg, s)
  {
    assert Everything(s) == [];
  }

  ghost function Buffers(ms: seq<Msg>): set<nat> {
    set i | 0 <= i < |ms| :: ms[i].Buffer()
  }

  lemma {:induction false} OneEachCounts(ms: seq<Msg>)
    requires OneEach(ms)
    ensures |Buffers(ms)| == |ms|
  {
    if ms != [] {
      var n := |ms| - 1;
      OneEachCounts(ms[..n]);
      assert ms == ms[..n] + [ms[n]];
      BuffersAppend(ms[..n], ms[n]);
    }
  }

  lemma BuffersAppend(ms: seq<Msg>, m: Msg)
    ensures Buffers(ms + [m]) == Buffers(ms) + {m.Buffer()}
  {
    var all := ms + [m];
    assert all[|ms|] == m && forall i :: 0 <= i < |ms| ==> all[i] == ms[i];
  }

  lemma SubsetSize(a: set<nat>, b: set<nat>)
    requires a <= b
    ensures |a| <= |b|
  {
    assert b == a + (b - a);
  }

  /** At most DEPTH receive slots are in flight. */
  lemma AtMostDepthInFlight(cfg: Pattern, s: State)
    requires Inv(cfg, s)
    ensures |Flight(cfg, s)| <= DEPTH
  {
    OneEachCounts(Flight(cfg, s));
    SubsetSize(Buffers(Flight(cfg, s)), {0, 1, 2, 3});
  }

  /** When the RU thread starts filling a receive buffer, nobody else has it. */
  lemma BufferIsExclusive(cfg: Pattern, s: State)
    requires Inv(cfg, s) && s.ru.RuHolding? && Ul(cfg, s.ru.m)
    ensures var f := Flight(cfg, s);
            && f != [] && f[|f| - 1] == s.ru.m
            && forall i :: 0 <= i < |f| - 1 ==> f[i].slot % DEPTH != s.ru.m.slot % DEPTH
  {
    var all := Everything(s);
    assert all == all[..|all| - 1] + [s.ru.m];
    UlOnlyAppend(cfg, all[..|all| - 1], [s.ru.m]);
  }

  /** A busy flag is set exactly while a receive slot with a slot number of its residue is in flight. */
  lemma BusyIffInFlight(cfg: Pattern, s: State, b: nat)
    requires Inv(cfg, s) && b < DEPTH
    ensures s.busy[b] <==> exists i :: 0 <= i < |Flight(cfg, s)| && Flight(cfg, s)[i].slot % DEPTH == b
  {
    var f := Flight(cfg, s);
    if i :| 0 <= i < |f| && f[i].slot % DEPTH == b {
      assert f[i].Buffer() == b;
    }
    if Occupied(f, b) {
      var i :| 0 <= i < |f| && f[i].Buffer() == b;
    }
  }

  /** The wanted buffer is held by the p-th oldest slot in flight. */
  ghost predicate IsHolder(cfg: Pattern, s: State, p: nat)
    requires s.ru.RuWaiting?
  {
    && p < |Flight(cfg, s)| && Flight(cfg, s)[p].Buffer() == s.ru.m.Buffer()
    && forall i :: 0 <= i < p ==> Flight(cfg, s)[i].Buffer() != s.ru.m.Buffer()
  }

  /** A waiting RU thread waits for exactly one slot in flight, one of the DEPTH oldest. */
  lemma SomeoneHolds(cfg: Pattern, s: State) returns (p: nat)
    requires Inv(cfg, s) && s.ru.RuWaiting?
    ensures IsHolder(cfg, s, p) && p < DEPTH
  {
    AtMostDepthInFlight(cfg, s);
    var f := Flight(cfg, s);
    assert Occupied(f, s.ru.m.Buffer());
    p :| p < |f| && f[p].Buffer() == s.ru.m.Buffer();
  }

  /** Messages weighted by the stages ahead of them. */
  function Ahead(s: State): nat {
    6 * |s.l1TxOut| + 3 * |s.respL1| + |s.l1RxOut|
    + (match s.tx case TxIdle => 0 case TxRun(_) => 5 case TxTail(_) => 1)
    + (if s.rx.RxRun? then 2 else 0)
  }

  /** While the RU thread waits, some thread can always go on ... */
  lemma WaitNeverStalls(cfg: Pattern, s: State) returns (step: Step)
    requires Inv(cfg, s) && s.ru.RuWaiting?
    ensures Enabled(s, step)
  {
    if s.l1RxOut != [] {
      step := PullDone;
    } else if s.rx.RxRun? {
      step := RxFinish;
    } else if s.respL1 != [] {
      step := RxPull;
    } else if s.tx.TxRun? {
      step := TxTrigger;
    } else if s.tx.TxTail? {
      step := TxFinish;
    } else {
      assert Everything(s) == s.l1TxOut;
      assert Occupied(Flight(cfg, s), s.ru.m.Buffer());
      step := TxPull;
    }
  }

  /** The RU thread has its buffer after these steps. */
  ghost predicate HoldsAfter(cfg: Pattern, s: State, steps: seq<Step>)
    requires Inv(cfg, s)
    decreases |steps|
  {
    if steps == [] then s.ru.RuHolding?
    else Enabled(s, steps[0]) && (StepKeeps(cfg, s, steps[0]); HoldsAfter(cfg, Apply(cfg, s, steps[0]), steps[1..]))
  }

  /** Completions pulled by the RU thread. */
  function Pulls(steps: seq<Step>): nat {
    if steps == [] then 0 else (if steps[0].PullDone? then 1 else 0) + Pulls(steps[1..])
  }

  /** One step of a wait: a pull brings the holder one place forward, or frees the buffer; any
      other step leaves the wait as it is. */
  lemma WaitStep(cfg: Pattern, s: State, step: Step, p: nat)
    requires Inv(cfg, s) && s.ru.RuWaiting? && IsHolder(cfg, s, p) && Enabled(s, step)
    ensures var u := Apply(cfg, s, step);
            && Inv(cfg, u) && Ahead(u) < Ahead(s)
            && (step.PullDone? && p == 0 ==> u.ru.RuHolding?)
            && (step.PullDone? && p > 0 ==> u.ru == s.ru && IsHolder(cfg, u, p - 1))
            && (!step.PullDone? ==> u.ru == s.ru && IsHolder(cfg, u, p))
  {
    StepKeeps(cfg, s, step);
    if step.PullDone? {
      PullKeeps(cfg, s);
    } else {
      MoveKeeps(cfg, s, step);
    }
  }

  /** The wait ends with pull number p + 1 exactly: fewer pulls leave the RU thread waiting ... */
  lemma {:induction false} FewerPullsWait(cfg: Pattern, s: State, steps: seq<Step>, t: State, p: nat)
    requires Inv(cfg, s) && s.ru.RuWaiting? && IsHolder(cfg, s, p) && Run(cfg, s, steps, t) && Pulls(steps) <= p
    ensures t.ru == s.ru
    decreases |steps|
  {
    if steps != [] {
      var step := steps[0];
      WaitStep(cfg, s, step, p);
      FewerPullsWait(cfg, Apply(cfg, s, step), steps[1..], t, if step.PullDone? then p - 1 else p);
    }
  }

  lemma HoldsLater(cfg: Pattern, s: State, u: State, steps: seq<Step>, n: nat)
    requires Inv(cfg, s) && n < |steps| && Enabled(s, steps[0]) && u == Apply(cfg, s, steps[0])
    requires Inv(cfg, u) && HoldsAfter(cfg, u, steps[1..][..n])
    ensures HoldsAfter(cfg, s, steps[..n + 1])
    ensures Pulls(steps[..n + 1]) == (if steps[0].PullDone? then 1 else 0) + Pulls(steps[1..][..n])
  {
    assert steps[..n + 1][1..] == steps[1..][..n];
  }

  /** ... and once that many pulls, or more steps than Ahead(s), have been made, it is over. */
  lemma {:induction false} WaitTakes(cfg: Pattern, s: State, steps: seq<Step>, t: State, p: nat)
    requires Inv(cfg, s) && s.ru.RuWaiting? && IsHolder(cfg, s, p) && Run(cfg, s, steps, t)
    requires Pulls(steps) > p || |steps| > Ahead(s)
    ensures exists n :: 0 < n <= |steps| && n <= Ahead(s) && HoldsAfter(cfg, s, steps[..n]) && Pulls(steps[..n]) == p + 1
    decreases |steps|
  {
    var step := steps[0];
    var u := Apply(cfg, s, step);
    WaitStep(cfg, s, step, p);
    if step.PullDone? && p == 0 {
      assert steps[1..][..0] == [];
      HoldsLater(cfg, s, u, steps, 0);
    } else {
      var q := if step.PullDone? then p - 1 else p;
      WaitTakes(cfg, u, steps[1..], t, q);
      var n :| 0 < n <= |steps[1..]| && n <= Ahead(u) && HoldsAfter(cfg, u, steps[1..][..n]) && Pulls(steps[1..][..n]) == q + 1;
      HoldsLater(cfg, s, u, steps, n);
    }
  }

  /** Under every schedule the wait is over after at most Ahead(s) steps, of which at least one
      and at most DEPTH are pulls; and as soon as DEPTH pulls have been made, however many steps
      that took. */
  lemma WaitIsBounded(cfg: Pattern, s: State, steps: seq<Step>, t: State)
    requires Inv(cfg, s) && s.ru.RuWaiting? && Run(cfg, s, steps, t)
    requires Pulls(steps) >= DEPTH || |steps| > Ahead(s)
    ensures exists n :: 0 < n <= |steps| && n <= Ahead(s) && HoldsAfter(cfg, s, steps[..n]) && 1 <= Pulls(steps[..n]) <= DEPTH
  {
    var p := SomeoneHolds(cfg, s);
    WaitTakes(cfg, s, steps, t, p);
  }

  // ------------------------------------------------------- every slot through every stage

  /** Slots the RU thread has read. */
  function Arrived(steps: seq<Step>): seq<Msg> {
    if steps == [] then [] else ArrivedBy(steps[0]) + Arrived(steps[1..])
  }

  /** What a step makes the stages do: the slot tx_func is called for, and the one rx_func is. */
  function TxCall(s: State, step: Step): seq<Msg>
    requires Enabled(s, step)
  {
    if step.TxPull? then [s.l1TxOut[0]] else []
  }

  function RxCall(s: State, step: Step): seq<Msg>
    requires Enabled(s, step)
  {
    if step.RxPull? then [s.respL1[0]] else []
  }

  /** The calls of tx_func and of rx_func in a run, in order. */
  ghost function TxCalls(cfg: Pattern, s: State, steps: seq<Step>, t: State): seq<Msg>
    requires Inv(cfg, s) && Run(cfg, s, steps, t)
    decreases |steps|
  {
    if steps == [] then []
    else StepKeeps(cfg, s, steps[0]); TxCall(s, steps[0]) + TxCalls(cfg, Apply(cfg, s, steps[0]), steps[1..], t)
  }

  ghost function RxCalls(cfg: Pattern, s: State, steps: seq<Step>, t: State): seq<Msg>
    requires Inv(cfg, s) && Run(cfg, s, steps, t)
    decreases |steps|
  {
    if steps == [] then []
    else StepKeeps(cfg, s, steps[0]); RxCall(s, steps[0]) + RxCalls(cfg, Apply(cfg, s, steps[0]), steps[1..], t)
  }

  /** Read, but tx_func has not been called for it yet. */
  function BeforeTx(s: State): seq<Msg> {
    s.l1TxOut + (match s.ru case RuIdle => [] case RuWaiting(m) => [m] case RuHolding(m) => [m])
  }

  /** tx_func has been called for it, rx_func not yet. */
  function BeforeRx(s: State): seq<Msg> {
    s.respL1 + TxPart(s)
  }

  /** Waiting for its receive buffer. */
  function BeforeClaim(s: State): seq<Msg> {
    if s.ru.RuWaiting? then [s.ru.m] else []
  }

  function ArrivedBy(step: Step): seq<Msg> {
    if step.Arrive? then [step.m] else []
  }

  lemma StepConserves(cfg: Pattern, s: State, step: Step)
    requires |s.busy| == DEPTH && Enabled(s, step)
    ensures BeforeTx(s) + ArrivedBy(step) == TxCall(s, step) + BeforeTx(Apply(cfg, s, step))
  {
  }

  lemma StepPassesOn(cfg: Pattern, s: State, step: Step)
    requires |s.busy| == DEPTH && Enabled(s, step)
    ensures BeforeRx(s) + TxCall(s, step) == RxCall(s, step) + BeforeRx(Apply(cfg, s, step))
  {
  }

  /** A receive slot claims its buffer on arrival or waits for it. */
  lemma StepClaims(cfg: Pattern, s: State, step: Step)
    requires Inv(cfg, s) && Enabled(s, step)
    ensures var t := Apply(cfg, s, step);
            s.started + BeforeClaim(s) + UlOnly(cfg, ArrivedBy(step)) == t.started + BeforeClaim(t)
  {
    if step.Arrive? {
      assert UlOnly(cfg, [step.m]) == (if Ul(cfg, step.m) then [step.m] else []);
    }
  }

  /** One step more at the front: what goes in at one end comes out at the other. */
  lemma Shift(before: seq<Msg>, x: seq<Msg>, more: seq<Msg>, y: seq<Msg>, between: seq<Msg>, out: seq<Msg>, after: seq<Msg>)
    requires before + x == y + between && between + more == out + after
    ensures before + (x + more) == (y + out) + after
  {
    assert before + (x + more) == (before + x) + more;
    assert (y + out) + after == y + (out + after) == (y + between) + more;
  }

  /** In every run, whatever the pattern says of a slot: tx_func is called for every slot read, and
      rx_func for every one of those, each once and in order, but for those still on their way. */
  lemma {:induction false} EverySlotOnce(cfg: Pattern, s: State, steps: seq<Step>, t: State)
    requires Inv(cfg, s) && Run(cfg, s, steps, t)
    ensures BeforeTx(s) + Arrived(steps) == TxCalls(cfg, s, steps, t) + BeforeTx(t)
    ensures BeforeRx(s) + TxCalls(cfg, s, steps, t) == RxCalls(cfg, s, steps, t) + BeforeRx(t)
    decreases |steps|
  {
    if steps != [] {
      var step := steps[0];
      var u := Apply(cfg, s, step);
      StepKeeps(cfg, s, step);
      StepConserves(cfg, s, step);
      StepPassesOn(cfg, s, step);
      EverySlotOnce(cfg, u, steps[1..], t);
      Shift(BeforeTx(s), ArrivedBy(step), Arrived(steps[1..]),
            TxCall(s, step), BeforeTx(u), TxCalls(cfg, u, steps[1..], t), BeforeTx(t));
      Shift(BeforeRx(s), TxCall(s, step), TxCalls(cfg, u, steps[1..], t),
            RxCall(s, step), BeforeRx(u), RxCalls(cfg, u, steps[1..], t), BeforeRx(t));
    }
  }

  /** The receive slots claim their buffers in the order read. */
  lemma {:induction false} ClaimedInOrder(cfg: Pattern, s: State, steps: seq<Step>, t: State)
    requires Inv(cfg, s) && Run(cfg, s, steps, t)
    ensures s.started + BeforeClaim(s) + UlOnly(cfg, Arrived(steps)) == t.started + BeforeClaim(t)
    decreases |steps|
  {
    if steps != [] {
      var u := Apply(cfg, s, steps[0]);
      StepKeeps(cfg, s, steps[0]);
      StepClaims(cfg, s, steps[0]);
      ClaimedInOrder(cfg, u, steps[1..], t);
      UlOnlyAppend(cfg, ArrivedBy(steps[0]), Arrived(steps[1..]));
      Regroup(s.started + BeforeClaim(s), UlOnly(cfg, ArrivedBy(steps[0])), UlOnly(cfg, Arrived(steps[1..])));
    }
  }

  /** Nothing is left to do but to read the next slot. */
  ghost predicate AtRest(s: State) {
    forall step :: Enabled(s, step) ==> step.Arrive?
  }

  lemma NothingLeft(cfg: Pattern, s: State)
    requires Inv(cfg, s) && AtRest(s)
    ensures s.ru == RuIdle && BeforeTx(s) == [] && BeforeRx(s) == [] && s.rx == RxIdle
  {
    if s.ru.RuWaiting? {
      var step := WaitNeverStalls(cfg, s);
    }
    assert !Enabled(s, Push) && !Enabled(s, TxPull) && !Enabled(s, TxTrigger) && !Enabled(s, TxFinish);
    assert !Enabled(s, RxPull) && !Enabled(s, RxFinish);
  }

  /** From the start until the threads come to rest: tx_func and rx_func have been called for every
      slot read, uplink or not, each once and in order, every receive slot has had its buffer, and any slot may come next. */
  lemma RestServesAll(cfg: Pattern, s: State, steps: seq<Step>, t: State)
    requires Init(s) && Inv(cfg, s) && Run(cfg, s, steps, t) && AtRest(t)
    ensures TxCalls(cfg, s, steps, t) == RxCalls(cfg, s, steps, t) == Arrived(steps)
    ensures t.started == UlOnly(cfg, Arrived(steps))
    ensures forall m :: Enabled(t, Arrive(m))
  {
    EverySlotOnce(cfg, s, steps, t);
    ClaimedInOrder(cfg, s, steps, t);
    EveryRunIsSafe(cfg, s, steps, t);
    NothingLeft(cfg, t);
    FromEndToEnd(BeforeTx(s), Arrived(steps), TxCalls(cfg, s, steps, t), BeforeTx(t));
    FromEndToEnd(BeforeRx(s), TxCalls(cfg, s, steps, t), RxCalls(cfg, s, steps, t), BeforeRx(t));
    FromEndToEnd(s.started + BeforeClaim(s), UlOnly(cfg, Arrived(steps)), t.started, BeforeClaim(t));
  }

  lemma FromEndToEnd(before: seq<Msg>, into: seq<Msg>, out: seq<Msg>, after: seq<Msg>)
    requires before == after == [] && before + into == out + after
    ensures out == into
  {
    assert [] + into == into && out + [] == out;
  }

  function Rank(s: State): nat {
    Ahead(s) + (match s.ru case RuIdle => 0 case RuHolding(_) => 7 case RuWaiting(_) => 8)
  }

  lemma StepNearsRest(cfg: Pattern, s: State, step: Step)
    requires |s.busy| == DEPTH && Enabled(s, step) && !step.Arrive?
    ensures Rank(Apply(cfg, s, step)) < Rank(s)
  {
  }

  /** The rest is reached: without new slots at most Rank(s) steps follow one another. */
  lemma {:induction false} RestIsNear(cfg: Pattern, s: State, steps: seq<Step>, t: State)
    requires Inv(cfg, s) && Run(cfg, s, steps, t) && Arrived(steps) == []
    ensures |steps| + Rank(t) <= Rank(s)
    decreases |steps|
  {
    if steps != [] {
      StepKeeps(cfg, s, steps[0]);
      StepNearsRest(cfg, s, steps[0]);
      RestIsNear(cfg, Apply(cfg, s, steps[0]), steps[1..], t);
    }
  }
}
