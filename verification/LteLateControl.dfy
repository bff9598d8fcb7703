/** Recovery from late or short transfers in the LTE radio unit: a volatile global that the
    receiving thread may set at any moment while the transmitting thread steps through it. */
module LteLateControl {

  datatype Late = Normal | Terminate | Stop1 | Stop2 | Restart

  datatype Flag = Middle | Start | End | EndNoTimeSpec

  /** A write to the device; `forced` when late_control chose its flag in place of `base`, the
      flag the subframe asked for. */
  datatype Burst = Burst(flag: Flag, forced: bool, base: Flag)

  /** Where tx_rf stands: it has read late_control and not yet replaced it, it is about to
      write to the device, or it has written and not yet checked the result. */
  datatype Phase = Idle | Decided(seen: Late) | Ready(burst: Burst) | Written

  /** `log` is what was written, `bases` what each attempt's subframe asked for, `dropped` counts the
      attempts that wrote nothing. */
  datatype State = State(late: Late, phase: Phase, log: seq<Burst>, bases: seq<Flag>, dropped: nat)

  /** `base` is the flag of the subframe at hand; `short` says that the device took too little
      of a write made by this thread itself;
      RxFault is any other thread's note of a fault. */
  datatype Action = TxRead(base: Flag) | TxStore | TxSend | TxCheck(short: bool) | RxFault

  predicate Enabled(s: State, a: Action) {
    match a
    case TxRead(base) => s.phase == Idle && base != EndNoTimeSpec
    case TxStore => s.phase.Decided? && s.phase.seen != Normal && s.bases != []
    case TxSend => s.phase.Ready?
    case TxCheck(_) => s.phase == Written
    case RxFault => true
  }

  function Next(s: State, a: Action): State
    requires Enabled(s, a)
  {
    match a
    case TxRead(base) =>
      s.(phase := if s.late == Normal then Ready(Burst(base, false, base)) else Decided(s.late), bases := s.bases + [base])
    case TxStore =>
      var base := s.bases[|s.bases| - 1];
      (match s.phase.seen
       case Terminate => s.(late := Stop1, phase := Ready(Burst(EndNoTimeSpec, true, base)))
       case Stop1 => s.(late := Stop2, phase := Idle, dropped := s.dropped + 1)
       case Stop2 => s.(late := Restart, phase := Idle, dropped := s.dropped + 1)
       case Restart => s.(late := Normal, phase := Ready(Burst(Start, true, base))))
    case TxSend => s.(log := s.log + [s.phase.burst], phase := Written)
    case TxCheck(short) => s.(phase := Idle, late := if short && s.late == Normal then Terminate else s.late)
    case RxFault => s.(late := Terminate)
  }

  function Initial(): State {
    State(Normal, Idle, [], [], 0)
  }

  predicate Allowed(s: State, run: seq<Action>)
    decreases |run|
  {
    run == [] || (Enabled(s, run[0]) && Allowed(Next(s, run[0]), run[1..]))
  }

  /** The state after a run of actions. */
  function After(s: State, run: seq<Action>): State
    requires Allowed(s, run)
    decreases |run|
  {
    if run == [] then s else After(Next(s, run[0]), run[1..])
  }

  // -------------------------------------------------------------------------- safety

  predicate AfterCut(log: seq<Burst>, i: nat)
    requires i <= |log|
  {
    i > 0 && log[i - 1].flag == EndNoTimeSpec
  }

  /** What may stand at position i: after END_NO_TIME_SPEC another one or a forced START, and a
      forced START nowhere else. */
  predicate InPlace(log: seq<Burst>, i: nat)
    requires i < |log|
  {
    && (AfterCut(log, i) ==> log[i].forced && log[i].flag in {EndNoTimeSpec, Start})
    && (log[i].forced && log[i].flag != EndNoTimeSpec ==> AfterCut(log, i) && log[i].flag == Start)
    && (log[i].flag == EndNoTimeSpec ==> log[i].forced)
    && (!log[i].forced ==> log[i].flag == log[i].base)
  }

  ghost predicate WellFormed(log: seq<Burst>) {
    forall i :: 0 <= i < |log| ==> InPlace(log, i)
  }

  ghost predicate Inv(s: State) {
    var cut := AfterCut(s.log, |s.log|);
    && WellFormed(s.log)
    && match s.phase
       case Idle => (s.late == Normal ==> !cut) && (s.late in {Stop1, Stop2, Restart} ==> cut)
       case Decided(v) => v != Normal && s.bases != [] && (v in {Stop1, Stop2, Restart} ==> cut) && s.late in {v, Terminate}
       case Ready(b) =>
         if b.flag == EndNoTimeSpec then b.forced && s.late in {Stop1, Terminate}
         else (if b.forced then b.flag == Start else b.flag == b.base) && (b.forced <==> cut) && s.late in {Normal, Terminate}
       case Written => if cut then s.late in {Stop1, Terminate} else s.late in {Normal, Terminate}
  }

  lemma AppendInPlace(log: seq<Burst>, b: Burst)
    requires WellFormed(log) && InPlace(log + [b], |log|)
    ensures WellFormed(log + [b])
  {
    var m := log + [b];
    forall i | 0 <= i < |m|
      ensures InPlace(m, i)
    {
      if i < |log| {
        assert InPlace(log, i) && m[i] == log[i];
        assert AfterCut(m, i) == AfterCut(log, i);
      }
    }
  }

  lemma StepKeeps(s: State, a: Action)
    requires Inv(s) && Enabled(s, a)
    ensures Inv(Next(s, a))
  {
    if a == TxSend {
      AppendInPlace(s.log, s.phase.burst);
    }
  }

  lemma {:induction false} RunKeeps(s: State, run: seq<Action>)
    requires Inv(s) && Allowed(s, run)
    ensures Inv(After(s, run))
    decreases |run|
  {
    if run != [] {
      StepKeeps(s, run[0]);
      RunKeeps(Next(s, run[0]), run[1..]);
    }
  }

  /** Over every run, with faults and short writes anywhere: what follows an END_NO_TIME_SPEC is
      another one or START, never MIDDLE or END, and a forced START follows nothing else. */
  lemma EveryRunIsWellFormed(run: seq<Action>)
    requires Allowed(Initial(), run)
    ensures WellFormed(After(Initial(), run).log)
  {
    RunKeeps(Initial(), run);
  }

  /** FDD, where every subframe asks for MIDDLE. */
  predicate AllMiddle(run: seq<Action>) {
    forall i :: 0 <= i < |run| ==> (run[i].TxRead? ==> run[i].base == Middle)
  }

  lemma {:induction false} UnforcedIsMiddle(s: State, run: seq<Action>)
    requires Allowed(s, run) && AllMiddle(run)
    requires forall i :: 0 <= i < |s.log| ==> s.log[i].forced || s.log[i].flag == Middle
    requires s.phase.Ready? ==> s.phase.burst.forced || s.phase.burst.flag == Middle
    ensures forall i :: 0 <= i < |After(s, run).log| ==> After(s, run).log[i].forced || After(s, run).log[i].flag == Middle
    decreases |run|
  {
    if run != [] {
      UnforcedIsMiddle(Next(s, run[0]), run[1..]);
    }
  }

  /** In FDD the flags alone tell: START exactly where a cut ends, MIDDLE exactly outside. */
  lemma FddFlags(run: seq<Action>, i: nat)
    requires Allowed(Initial(), run) && AllMiddle(run) && i < |After(Initial(), run).log|
    ensures var log := After(Initial(), run).log;
            && log[i].flag != End
            && (log[i].flag == Start <==> AfterCut(log, i) && log[i].flag != EndNoTimeSpec)
            && (log[i].flag == Middle <==> !AfterCut(log, i) && log[i].flag != EndNoTimeSpec)
  {
    EveryRunIsWellFormed(run);
    UnforcedIsMiddle(Initial(), run);
    assert InPlace(After(Initial(), run).log, i);
  }

  // ------------------------------------------------------------------------ recovery

  /** No fault of the receiver and no short write. */
  predicate Quiet(run: seq<Action>) {
    forall i :: 0 <= i < |run| ==> run[i] != RxFault && run[i] != TxCheck(true)
  }

  /** late_control k attempts after a fault was noticed. */
  function Stage(k: nat): Late {
    if k == 0 then Terminate else if k == 1 then Stop1 else if k == 2 then Stop2 else if k == 3 then Restart else Normal
  }

  /** Writes among the first k attempts, and attempts that wrote nothing. */
  function Writes(k: nat): nat {
    if k == 0 then 0 else if k <= 3 then 1 else k - 2
  }

  function Drops(k: nat): nat {
    if k <= 1 then 0 else if k == 2 then 1 else 2
  }

  /** The first k attempts of a recovery that began in state s0. */
  ghost predicate Recovered(s0: State, s: State, k: nat) {
    var n := |s0.log|;
    && |s.log| == n + Writes(k) && s.log[..n] == s0.log && s.dropped == s0.dropped + Drops(k)
    && (k >= 1 ==> s.log[n].forced && s.log[n].flag == EndNoTimeSpec)
    && (k >= 4 ==> s.log[n + 1].forced && s.log[n + 1].flag == Start)
    && |s.bases| >= |s0.bases| + k
    && (k >= 4 ==> s.log[n + 1].base == s.bases[|s0.bases| + 3])
    && forall i :: n + 2 <= i < |s.log| ==> AsAsked(s.log[i], s.bases[|s0.bases| + (i - n) + 2])
  }

  predicate AsAsked(b: Burst, base: Flag) {
    b == Burst(base, false, base)
  }

  ghost predicate RecoveryInv(s0: State, s: State) {
    && |s.bases| >= |s0.bases|
    && var k := |s.bases| - |s0.bases|;
       match s.phase
       case Idle => s.late == Stage(k) && Recovered(s0, s, k)
       case Decided(v) => 1 <= k <= 4 && v == s.late == Stage(k - 1) && Recovered(s0, s, k - 1)
       case Ready(b) =>
         && k >= 1 && k != 2 && k != 3 && s.late == Stage(k)
         && b.base == s.bases[|s.bases| - 1] && (k > 4 ==> b.flag == b.base)
         && b.forced == (k <= 4) && (k == 1 ==> b.flag == EndNoTimeSpec) && (k == 4 ==> b.flag == Start)
         && |s.log| == |s0.log| + Writes(k - 1) && Recovered(s0, s.(dropped := s0.dropped + Drops(k - 1)), k - 1)
         && s.dropped == s0.dropped + Drops(k)
       case Written => k >= 1 && k != 2 && k != 3 && s.late == Stage(k) && Recovered(s0, s, k)
  }

  lemma RecoveryStep(s0: State, s: State, a: Action)
    requires RecoveryInv(s0, s) && Enabled(s, a) && a != RxFault && a != TxCheck(true)
    ensures RecoveryInv(s0, Next(s, a))
  {
    var t := Next(s, a);
    if a == TxSend {
      assert t.log[..|s0.log|] == s.log[..|s0.log|];
    }
  }

  lemma {:induction false} RecoveryRun(s0: State, s: State, run: seq<Action>)
    requires RecoveryInv(s0, s) && Allowed(s, run) && Quiet(run)
    ensures RecoveryInv(s0, After(s, run))
    decreases |run|
  {
    if run != [] {
      RecoveryStep(s0, s, run[0]);
      RecoveryRun(s0, Next(s, run[0]), run[1..]);
    }
  }

  /** Without a further fault, recovery takes exactly four attempts: the first writes
      END_NO_TIME_SPEC, two write nothing, the fourth writes START, and every later one its own
      flag. */
  lemma RecoveryTakesFour(s: State, run: seq<Action>)
    requires s.phase == Idle && s.late == Terminate && Allowed(s, run) && Quiet(run) && After(s, run).phase == Idle
    ensures |After(s, run).bases| >= |s.bases|
    ensures var t := After(s, run);
            var k := |t.bases| - |s.bases|;
            && Recovered(s, t, k)
            && (t.late == Normal <==> k >= 4)
  {
    RecoveryRun(s, s, run);
  }

  /** The rest of an attempt, undisturbed. */
  function Finish(s: State): State
    requires s.phase.Decided? ==> s.phase.seen != Normal && s.bases != []
    decreases match s.phase case Idle => 0 case Written => 1 case Ready(_) => 2 case Decided(_) => 3
  {
    match s.phase
    case Idle => s
    case Decided(_) => Finish(Next(s, TxStore))
    case Ready(_) => Finish(Next(s, TxSend))
    case Written => Finish(Next(s, TxCheck(false)))
  }

  /** A fault of the receiver is acted on by the next attempt if and only if it does not fall
      between the transmitter's reading of late_control and its replacing it. */
  lemma FaultIsKeptIff(s: State)
    requires Inv(s)
    ensures Finish(Next(s, RxFault)).late == Terminate <==> !s.phase.Decided?
  {
    var t := Next(s, RxFault);
    match t.phase {
      case Idle =>
      case Written =>
      case Ready(_) => FinishReady(t);
      case Decided(v) =>
        var u := Next(t, TxStore);
        if u.phase.Ready? {
          FinishReady(u);
        }
    }
  }

  lemma FinishReady(s: State)
    requires s.phase.Ready?
    ensures Finish(s) == s.(log := s.log + [s.phase.burst], phase := Idle)
  {
    var u := Next(s, TxSend);
    assert Finish(s) == Finish(u);
    assert Finish(u) == Finish(Next(u, TxCheck(false)));
  }

  // ------------------------------------------------------------- when a recovery begins

  /** A fault is waiting to be acted on: since late_control was last replaced the receiver has noted
      one, or a write other than END_NO_TIME_SPEC has been short. */
  predicate Noted(run: seq<Action>)
    requires Allowed(Initial(), run)
    decreases |run|
  {
    run != [] &&
      var last := |run| - 1;
      PrefixAllowed(Initial(), run, last);
      match run[last]
      case RxFault => true
      case TxStore => false
      case TxCheck(short) =>
        Noted(run[..last]) || (short && !AfterCut(After(Initial(), run[..last]).log, |After(Initial(), run[..last]).log|))
      case _ => Noted(run[..last])
  }

  lemma {:induction false} PrefixAllowed(s: State, run: seq<Action>, n: nat)
    requires Allowed(s, run) && n <= |run|
    ensures Allowed(s, run[..n])
    ensures n < |run| ==> && Allowed(s, run[..n + 1]) && Enabled(After(s, run[..n]), run[n])
                          && After(s, run[..n + 1]) == Next(After(s, run[..n]), run[n])
    decreases n
  {
    if n > 0 {
      var t := Next(s, run[0]);
      assert run[..n][1..] == run[1..][..n - 1];
      PrefixAllowed(t, run[1..], n - 1);
      if n < |run| {
        assert run[..n + 1][1..] == run[1..][..n];
      }
    } else if run != [] {
      assert run[..1][1..] == [];
    }
  }

  /** Over every run late_control asks for a recovery exactly if a fault or a short write is waiting. */
  lemma {:induction false} TerminateIff(run: seq<Action>)
    requires Allowed(Initial(), run)
    ensures After(Initial(), run).late == Terminate <==> Noted(run)
    decreases |run|
  {
    if run != [] {
      var last := |run| - 1;
      PrefixAllowed(Initial(), run, last);
      assert run[..last + 1] == run;
      TerminateIff(run[..last]);
      RunKeeps(Initial(), run[..last]);
    }
  }

  /** A whole attempt for a subframe that asks for `base`, undisturbed. */
  function Attempt(s: State, base: Flag): State
    requires s.phase == Idle && base != EndNoTimeSpec
  {
    Finish(Next(s, TxRead(base)))
  }

  lemma AttemptIs(s: State, base: Flag)
    requires s.phase == Idle && base != EndNoTimeSpec
    ensures Attempt(s, base).log == s.log + (match s.late
                                             case Normal => [Burst(base, false, base)]
                                             case Terminate => [Burst(EndNoTimeSpec, true, base)]
                                             case Restart => [Burst(Start, true, base)]
                                             case _ => [])
  {
    var t := Next(s, TxRead(base));
    if t.phase.Ready? {
      FinishReady(t);
    } else {
      var u := Next(t, TxStore);
      assert Finish(t) == Finish(u);
      if u.phase.Ready? {
        FinishReady(u);
      }
    }
  }

  /** Over every run: the next attempt cuts the burst if and only if a receiver fault or a short write
      is waiting to be acted on. */
  lemma NextAttemptCutsIff(run: seq<Action>, base: Flag)
    requires Allowed(Initial(), run) && After(Initial(), run).phase == Idle && base != EndNoTimeSpec
    ensures var s := After(Initial(), run);
            Attempt(s, base).log == s.log + [Burst(EndNoTimeSpec, true, base)] <==> Noted(run)
  {
    var s := After(Initial(), run);
    TerminateIff(run);
    AttemptIs(s, base);
    var log, cut := Attempt(s, base).log, Burst(EndNoTimeSpec, true, base);
    if log == s.log + [cut] {
      assert log[|s.log|] == cut;
    }
  }

  /** From every reachable state with a write just made and no fault waiting: if the device took too
      little the next attempt writes END_NO_TIME_SPEC, otherwise its own flag. */
  lemma ShortWriteCuts(run: seq<Action>, short: bool, base: Flag)
    requires Allowed(Initial(), run) && base != EndNoTimeSpec
    requires var s := After(Initial(), run); s.phase == Written && s.late == Normal
    ensures var s := After(Initial(), run);
            Attempt(Next(s, TxCheck(short)), base).log
            == s.log + [if short then Burst(EndNoTimeSpec, true, base) else Burst(base, false, base)]
  {
    AttemptIs(Next(After(Initial(), run), TxCheck(short)), base);
  }

  ghost predicate AllAsAsked(log: seq<Burst>, bases: seq<Flag>) {
    |log| == |bases| && forall i :: 0 <= i < |log| ==> AsAsked(log[i], bases[i])
  }

  /** Every attempt so far has written its own flag, or is about to. */
  ghost predicate Undisturbed(s: State) {
    && s.late == Normal && s.dropped == 0
    && match s.phase
       case Ready(b) => s.bases != [] && AsAsked(b, s.bases[|s.bases| - 1]) && AllAsAsked(s.log, s.bases[..|s.bases| - 1])
       case Decided(_) => false
       case _ => AllAsAsked(s.log, s.bases)
  }

  lemma StaysUndisturbed(s: State, a: Action)
    requires Undisturbed(s) && Enabled(s, a) && a != RxFault && a != TxCheck(true)
    ensures Undisturbed(Next(s, a))
  {
    if a.TxRead? {
      assert (s.bases + [a.base])[..|s.bases|] == s.bases;
    }
  }

  /** Without faults and short writes every attempt writes its own flag. */
  lemma {:induction false} NothingForced(s: State, run: seq<Action>)
    requires Undisturbed(s) && Allowed(s, run) && Quiet(run)
    ensures Undisturbed(After(s, run))
    decreases |run|
  {
    if run != [] {
      StaysUndisturbed(s, run[0]);
      NothingForced(Next(s, run[0]), run[1..]);
    }
  }

  // ------------------------------------------------------------------------ TDD

  /** The subframes ask for bursts: START exactly after END. */
  predicate FormBursts(bases: seq<Flag>) {
    forall i :: 0 <= i < |bases| - 1 ==> OpensAfter(bases, i)
  }

  predicate OpensAfter(bases: seq<Flag>, i: nat)
    requires i < |bases| - 1
  {
    bases[i + 1] == Start <==> bases[i] == End
  }

  predicate Closes(b: Burst) {
    b.flag == End || b.flag == EndNoTimeSpec
  }

  /** A write that is not a cut opens a burst exactly when none is open. */
  predicate OpensRightly(log: seq<Burst>, i: nat)
    requires 0 < i < |log|
  {
    log[i].flag == EndNoTimeSpec || (log[i].flag == Start <==> Closes(log[i - 1]))
  }

  /** The write before asked for END and was turned into the START of a recovery. */
  predicate HidesEnd(log: seq<Burst>, i: nat)
    requires 0 < i < |log|
  {
    log[i].flag != EndNoTimeSpec && log[i - 1].forced && log[i - 1].flag == Start && log[i - 1].base == End
  }

  /** An unforced write follows the write of the attempt just before it. */
  predicate FollowsBase(log: seq<Burst>, i: nat)
    requires 0 < i < |log|
  {
    !log[i].forced ==> (log[i].base == Start <==> log[i - 1].base == End)
  }

  /** With late_control normal, the last attempt was the last write. */
  ghost predicate TddInv(s: State) {
    && Inv(s)
    && (forall i :: 0 < i < |s.log| ==> FollowsBase(s.log, i))
    && match s.phase
       case Idle => s.late == Normal ==> LastBase(s, |s.bases|)
       case Decided(_) => s.bases != []
       case Ready(b) => s.bases != [] && b.base == s.bases[|s.bases| - 1] && (!b.forced ==> LastBase(s, |s.bases| - 1))
       case Written => s.log != [] && LastBase(s, |s.bases|)
  }

  /** The first n attempts end with the last write, or there were none. */
  predicate LastBase(s: State, n: nat) {
    n <= |s.bases| && (n == 0 ==> s.log == []) && (n > 0 ==> s.log != [] && s.log[|s.log| - 1].base == s.bases[n - 1])
  }

  lemma TddStep(s: State, a: Action)
    requires TddInv(s) && Enabled(s, a) && FormBursts(s.bases)
    ensures TddInv(Next(s, a))
  {
    StepKeeps(s, a);
    var t := Next(s, a);
    if a == TxSend {
      var n := |s.log|;
      assert forall i :: 0 < i < n ==> FollowsBase(t.log, i) == FollowsBase(s.log, i);
      if n > 0 && !s.phase.burst.forced {
        assert |s.bases| - 1 > 0;
        assert OpensAfter(s.bases, |s.bases| - 2);
      }
    }
  }

  lemma {:induction false} BasesGrow(s: State, run: seq<Action>)
    requires Allowed(s, run)
    ensures s.bases <= After(s, run).bases
    decreases |run|
  {
    if run != [] {
      BasesGrow(Next(s, run[0]), run[1..]);
    }
  }

  lemma PrefixFormsBursts(a: seq<Flag>, b: seq<Flag>)
    requires a <= b && FormBursts(b)
    ensures FormBursts(a)
  {
    forall i | 0 <= i < |a| - 1
      ensures OpensAfter(a, i)
    {
      assert OpensAfter(b, i) && a[i] == b[i] && a[i + 1] == b[i + 1];
    }
  }

  lemma {:induction false} TddRun(s: State, run: seq<Action>)
    requires TddInv(s) && Allowed(s, run) && FormBursts(After(s, run).bases)
    ensures TddInv(After(s, run))
    decreases |run|
  {
    if run != [] {
      BasesGrow(s, run);
      PrefixFormsBursts(s.bases, After(s, run).bases);
      TddStep(s, run[0]);
      TddRun(Next(s, run[0]), run[1..]);
    }
  }

  /** TDD, over every run with faults and short writes anywhere: a write opens a burst exactly when
      none is open, if and only if the write before it is not a recovery's START that took the place
      of an END. */
  lemma OpensRightlyIff(run: seq<Action>, i: nat)
    requires Allowed(Initial(), run) && FormBursts(After(Initial(), run).bases) && 0 < i < |After(Initial(), run).log|
    ensures OpensRightly(After(Initial(), run).log, i) <==> !HidesEnd(After(Initial(), run).log, i)
  {
    TddRun(Initial(), run);
    var log := After(Initial(), run).log;
    assert InPlace(log, i) && InPlace(log, i - 1) && FollowsBase(log, i);
  }

  /** A whole recovery in TDD, from a fault noticed in any reachable state: the write after it is a
      second START, with the burst open, if and only if the restarting attempt, the fourth, had been
      asked for END. */
  lemma RestartHidesEndIff(head: seq<Action>, run: seq<Action>)
    requires Allowed(Initial(), head) && var s := After(Initial(), head); s.phase == Idle && s.late == Terminate
    requires Allowed(After(Initial(), head), run) && Quiet(run)
    requires var t := After(After(Initial(), head), run);
             t.phase == Idle && FormBursts(t.bases) && |t.bases| >= |After(Initial(), head).bases| + 5
    ensures var s := After(Initial(), head); var t := After(s, run); var n := |s.log|;
            && |t.log| >= n + 3
            && t.log[n].flag == EndNoTimeSpec && t.log[n + 1].flag == Start
            && t.log[n + 1].base == t.bases[|s.bases| + 3] && t.log[n + 2].flag == t.bases[|s.bases| + 4]
            && (t.log[n + 2].flag == Start <==> t.bases[|s.bases| + 3] == End)
  {
    var s := After(Initial(), head);
    var t, n := After(s, run), |s.log|;
    RecoveryRun(s, s, run);
    assert AsAsked(t.log[n + 2], t.bases[|s.bases| + 4]);
    assert OpensAfter(t.bases, |s.bases| + 3);
  }
}
