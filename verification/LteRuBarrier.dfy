/** The "all radio units have reported" barrier of the LTE eNB: one bit mask per subframe number,
    shared by all RU threads under a mutex. */
module LteRuBarrier {
  import opened Arith
  import opened Bits

  const SUBFRAMES := 10

  /** What the loop over the RUs looks at. */
  datatype Ru = Ru(waitCnt: nat, sync: bool, slave: bool)
  {
    predicate Active() { waitCnt == 0 && !sync }
  }

  /** The masks and the ticks the eNB was woken for. */
  datatype Barrier = Barrier(masks: seq<nat>, woken: seq<nat>)

  // ------------------------------------------------------------------------ the code

  function Settle(r: Ru, tti: nat): Ru {
    if r.waitCnt == 1 && tti != 9 then r.(waitCnt := 0) else r
  }

  predicate Contributes(r: Ru, mine: bool) {
    if mine && r.waitCnt == 0 then true else r.sync || (r.slave && r.waitCnt > 0 && !mine)
  }

  /** The mask after the first k RUs have been looked at, for a report by RU `me`. */
  function GatherMask(rus: seq<Ru>, me: nat, tti: nat, k: nat, mask: nat): nat
    requires k <= |rus|
  {
    if k == 0 then mask
    else
      var m := GatherMask(rus, me, tti, k - 1, mask);
      if Contributes(Settle(rus[k - 1], tti), me == k - 1) then SetBit(m, k - 1) else m
  }

  /** A report by RU `me` of its subframe `tick`, whatever the states of the others: when the
      mask is full it is reset, and the eNB woken unless the reporter is still waiting. */
  function ReportAny(rus: seq<Ru>, b: Barrier, me: nat, tick: nat): Barrier
    requires |b.masks| == SUBFRAMES && me < |rus|
  {
    var tti := tick % 10;
    var mask := GatherMask(rus, me, tti, |rus|, b.masks[tti]);
    if mask == Pow2(|rus|) - 1 then
      Barrier(b.masks[tti := 0], if Settle(rus[me], tti).waitCnt == 0 then b.woken + [tick] else b.woken)
    else Barrier(b.masks[tti := mask], b.woken)
  }

  class L1Barrier {
    const masks: array<nat>
    const rus: array<Ru>
    var woken: seq<nat>

    ghost predicate Valid()
      reads this
    {
      masks.Length == SUBFRAMES
    }

    ghost function View(): Barrier
      reads this, masks
    {
      Barrier(masks[..], woken)
    }

    constructor (units: array<Ru>)
      ensures Valid() && rus == units && fresh(masks) && View() == Initial()
    {
      masks := new nat[SUBFRAMES](i => 0);
      rus, woken := units, [];
      new;
      assert masks[..] == Initial().masks;
    }

    /** wakeup_L1s for RU `me`, whose samples are those of subframe `tick` since the start. */
    method WakeupL1s(me: nat, tick: nat)
      requires Valid() && me < rus.Length
      modifies masks, rus, `woken
      ensures Valid()
      ensures rus[..] == seq(rus.Length, i requires 0 <= i < rus.Length => Settle(old(rus[i]), tick % 10))
      ensures View() == ReportAny(old(rus[..]), old(View()), me, tick)
    {
      var tti := tick % 10;
      var i := 0;
      while i < rus.Length
        invariant i <= rus.Length && woken == old(woken)
        invariant forall k :: 0 <= k < rus.Length ==> rus[k] == if k < i then Settle(old(rus[k]), tti) else old(rus[k])
        invariant masks[..] == old(masks[..])[tti := GatherMask(old(rus[..]), me, tti, i, old(masks[tti]))]
      {
        if rus[i].waitCnt == 1 && tti != 9 {
          rus[i] := rus[i].(waitCnt := 0);
        }
        if me == i && rus[i].waitCnt == 0 {
          masks[tti] := SetBit(masks[tti], i);
        } else if rus[i].sync || (rus[i].slave && rus[i].waitCnt > 0 && me != i) {
          masks[tti] := SetBit(masks[tti], i);
        }
        i := i + 1;
      }
      if masks[tti] == Pow2(rus.Length) - 1 {
        masks[tti] := 0;
        if rus[me].waitCnt == 0 {
          woken := woken + [tick];
        }
      }
    }
  }

  // --------------------------------------------------------- the barrier, all RUs active

  function Initial(): Barrier {
    Barrier(seq(SUBFRAMES, i => 0), [])
  }

  function Report(n: nat, b: Barrier, me: nat, tick: nat): Barrier
    requires |b.masks| == SUBFRAMES
  {
    var mask := SetBit(b.masks[tick % 10], me);
    if mask == Pow2(n) - 1 then Barrier(b.masks[tick % 10 := 0], b.woken + [tick])
    else Barrier(b.masks[tick % 10 := mask], b.woken)
  }

  /** With every RU active, the loop sets the reporter's bit and no other. */
  lemma {:induction false} ActiveMask(rus: seq<Ru>, me: nat, tti: nat, k: nat, mask: nat)
    requires k <= |rus| && forall i :: 0 <= i < |rus| ==> rus[i].Active()
    ensures GatherMask(rus, me, tti, k, mask) == if me < k then SetBit(mask, me) else mask
  {
    if k > 0 {
      ActiveMask(rus, me, tti, k - 1, mask);
    }
  }

  lemma ActiveReport(rus: seq<Ru>, b: Barrier, me: nat, tick: nat)
    requires |b.masks| == SUBFRAMES && me < |rus| && forall i :: 0 <= i < |rus| ==> rus[i].Active()
    ensures ReportAny(rus, b, me, tick) == Report(|rus|, b, me, tick)
  {
    ActiveMask(rus, me, tick % 10, |rus|, b.masks[tick % 10]);
  }

  /** The barrier and how many subframes each RU has reported. */
  datatype System = System(b: Barrier, counts: seq<nat>)

  function Begin(n: nat): System {
    System(Initial(), seq(n, i => 0))
  }

  function Step(s: System, me: nat): (t: System)
    requires |s.b.masks| == SUBFRAMES && me < |s.counts|
    ensures |t.b.masks| == SUBFRAMES && |t.counts| == |s.counts|
  {
    System(Report(|s.counts|, s.b, me, s.counts[me]), s.counts[me := s.counts[me] + 1])
  }

  predicate Run(n: nat, run: seq<nat>) {
    n >= 1 && forall k :: 0 <= k < |run| ==> run[k] < n
  }

  /** The RUs report in any order. */
  function After(n: nat, run: seq<nat>): (s: System)
    requires Run(n, run)
    ensures |s.b.masks| == SUBFRAMES && |s.counts| == n
  {
    if run == [] then Begin(n) else Step(After(n, run[..|run| - 1]), run[|run| - 1])
  }

  function Low(counts: seq<nat>): (m: nat)
    requires counts != []
    ensures forall i :: 0 <= i < |counts| ==> m <= counts[i]
    ensures exists i :: 0 <= i < |counts| && m == counts[i]
  {
    var last := |counts| - 1;
    if last == 0 then counts[0]
    else
      var m := Low(counts[..last]);
      assert forall i :: 0 <= i < last ==> counts[..last][i] == counts[i];
      if counts[last] < m then counts[last] else m
  }

  /** No RU reports while ten subframes ahead of the slowest. */
  predicate Paced(n: nat, run: seq<nat>)
    requires Run(n, run)
  {
    run != [] ==>
      var last := |run| - 1;
      var s := After(n, run[..last]);
      Paced(n, run[..last]) && s.counts[run[last]] < Low(s.counts) + 10
  }

  /** The tick a mask is collecting: the one of the next ten with this subframe number. */
  function Due(m: nat, sf: nat): nat {
    m + (sf + 10 - m % 10) % 10
  }

  function UpTo(m: nat): seq<nat> {
    seq(m, k => k)
  }

  lemma DueIs(m: nat, tick: nat)
    requires m <= tick < m + 10
    ensures Due(m, tick % 10) == tick
  {
    ModUnique(tick % 10 + 10 - m % 10, 10, m / 10 - tick / 10 + 1, tick - m);
  }

  /** The tick after next ten takes over the mask of the one completed. */
  lemma DueStep(m: nat, sf: nat)
    requires sf < SUBFRAMES
    ensures m <= Due(m, sf) < m + 10 && (Due(m, sf) == m <==> sf == m % 10)
    ensures Due(m + 1, sf) == if sf == m % 10 then m + 10 else Due(m, sf)
  {
  }

  /** A mask has exactly the RUs that are past tick `due`. */
  ghost predicate MaskRight(mask: nat, counts: seq<nat>, due: nat) {
    && mask < Pow2(|counts|)
    && forall i :: 0 <= i < |counts| ==> (Bit(mask, i) <==> counts[i] > due)
  }

  ghost predicate BitsRight(s: System, m: nat, sf: nat)
    requires sf < |s.b.masks|
  {
    MaskRight(s.b.masks[sf], s.counts, Due(m, sf))
  }

  ghost predicate Inv(s: System) {
    && |s.b.masks| == SUBFRAMES && s.counts != []
    && var m := Low(s.counts);
       && (forall i :: 0 <= i < |s.counts| ==> s.counts[i] <= m + 10)
       && s.b.woken == UpTo(m)
       && forall sf :: 0 <= sf < SUBFRAMES ==> BitsRight(s, m, sf)
  }

  lemma BeginInv(n: nat)
    requires n >= 1
    ensures Inv(Begin(n))
  {
    var s := Begin(n);
    forall sf | 0 <= sf < SUBFRAMES
      ensures BitsRight(s, 0, sf)
    {
      forall i | 0 <= i < n
        ensures !Bit(0, i)
      {
        ZeroHasNoBit(i);
      }
    }
  }

  lemma LowIs(counts: seq<nat>, m: nat)
    requires counts != [] && (forall i :: 0 <= i < |counts| ==> counts[i] >= m) && m in counts
    ensures Low(counts) == m
  {
  }

  /** A mask below 2^n with all n bits is the full one. */
  lemma FullIsAll(mask: nat, n: nat)
    requires mask < Pow2(n)
    ensures mask == Pow2(n) - 1 <==> AllBelow(mask, n)
  {
    FullIff(mask, n);
    HighBitIff(mask, n);
  }

  lemma StaysBelow(mask: nat, n: nat, i: nat)
    requires mask < Pow2(n) && i < n
    ensures SetBit(mask, i) < Pow2(n)
  {
    HighBitIff(mask, n);
    HighBitIff(SetBit(mask, i), n);
    if j: nat :| j >= n && Bit(SetBit(mask, i), j) {
      BitOfSetBit(mask, i, j);
    }
  }

  lemma SetMaskRight(mask: nat, counts: seq<nat>, me: nat)
    requires me < |counts| && MaskRight(mask, counts, counts[me])
    ensures MaskRight(SetBit(mask, me), counts[me := counts[me] + 1], counts[me])
  {
    StaysBelow(mask, |counts|, me);
    forall i | 0 <= i < |counts|
      ensures Bit(SetBit(mask, me), i) <==> counts[me := counts[me] + 1][i] > counts[me]
    {
      BitOfSetBit(mask, me, i);
    }
  }

  lemma NobodyPast(counts: seq<nat>, due: nat)
    requires forall i :: 0 <= i < |counts| ==> counts[i] <= due
    ensures MaskRight(0, counts, due)
  {
    forall i | 0 <= i < |counts|
      ensures !Bit(0, i)
    {
      ZeroHasNoBit(i);
    }
  }

  lemma StillRight(mask: nat, counts: seq<nat>, me: nat, due: nat)
    requires me < |counts| && MaskRight(mask, counts, due) && counts[me] != due
    ensures MaskRight(mask, counts[me := counts[me] + 1], due)
  {
  }

  /** The report of the tick the slowest RU is at completes it if everybody else is further. */
  lemma StepKeeps(s: System, me: nat)
    requires Inv(s) && me < |s.counts| && s.counts[me] < Low(s.counts) + 10
    ensures Inv(Step(s, me))
  {
    var n, m, tick := |s.counts|, Low(s.counts), s.counts[me];
    var sf, t := tick % 10, Step(s, me);
    DueIs(m, tick);
    assert BitsRight(s, m, sf);
    var mask := SetBit(s.b.masks[sf], me);
    SetMaskRight(s.b.masks[sf], s.counts, me);
    FullIsAll(mask, n);
    if mask == Pow2(n) - 1 {
      assert forall i :: 0 <= i < n ==> Bit(mask, i);
      Completes(s, t, me, m);
    } else {
      var j :| 0 <= j < n && !Bit(mask, j);
      Continues(s, t, me, m, mask, j);
    }
  }

  lemma Completes(s: System, t: System, me: nat, m: nat)
    requires Inv(s) && me < |s.counts| && m == Low(s.counts)
    requires t.counts == s.counts[me := s.counts[me] + 1] && forall i :: 0 <= i < |t.counts| ==> t.counts[i] > s.counts[me]
    requires t.b == Barrier(s.b.masks[s.counts[me] % 10 := 0], s.b.woken + [s.counts[me]])
    ensures Inv(t)
  {
    var slow :| 0 <= slow < |s.counts| && s.counts[slow] == m;
    assert t.counts[slow] > s.counts[me];
    assert t.counts[me] == m + 1;
    var next := m + 1;
    LowIs(t.counts, next);
    forall sf: nat | sf < SUBFRAMES
      ensures BitsRight(t, next, sf)
    {
      DueStep(m, sf);
      assert BitsRight(s, m, sf);
      if sf == m % 10 {
        NobodyPast(t.counts, m + 10);
      } else {
        StillRight(s.b.masks[sf], s.counts, me, Due(m, sf));
      }
    }
  }

  lemma Continues(s: System, t: System, me: nat, m: nat, mask: nat, j: nat)
    requires Inv(s) && me < |s.counts| && m == Low(s.counts) && s.counts[me] < m + 10
    requires t.counts == s.counts[me := s.counts[me] + 1]
    requires t.b == Barrier(s.b.masks[s.counts[me] % 10 := mask], s.b.woken)
    requires MaskRight(mask, t.counts, s.counts[me]) && j < |s.counts| && !Bit(mask, j)
    ensures Inv(t)
  {
    var slow :| 0 <= slow < |s.counts| && s.counts[slow] == m;
    assert t.counts[if slow == me then j else slow] == m;
    LowIs(t.counts, m);
    DueIs(m, s.counts[me]);
    forall sf: nat | sf < SUBFRAMES
      ensures BitsRight(t, m, sf)
    {
      DueStep(m, sf);
      assert BitsRight(s, m, sf);
      if sf != s.counts[me] % 10 {
        DueIs(m, Due(m, sf));
        OtherSubframe(m, sf, s.counts[me]);
        StillRight(s.b.masks[sf], s.counts, me, Due(m, sf));
      }
    }
  }

  lemma OtherSubframe(m: nat, sf: nat, tick: nat)
    requires sf < SUBFRAMES && m <= tick && sf != tick % 10
    ensures Due(m, sf) != tick
  {
  }

  /** Ten ahead, the report changes nothing: its bit is still set for the tick ten before. */
  lemma LostReport(s: System, me: nat)
    requires Inv(s) && me < |s.counts| && s.counts[me] == Low(s.counts) + 10
    ensures Step(s, me).b == s.b && Bit(s.b.masks[s.counts[me] % 10], me)
  {
    var n, m, sf := |s.counts|, Low(s.counts), s.counts[me] % 10;
    DueStep(m, sf);
    assert BitsRight(s, m, sf);
    var slow :| 0 <= slow < n && s.counts[slow] == m;
    assert !Bit(s.b.masks[sf], slow);
    SetAgain(s.b.masks[sf], me);
    FullIsAll(s.b.masks[sf], n);
  }

  lemma {:induction false} SetAgain(mask: nat, i: nat)
    requires Bit(mask, i)
    ensures SetBit(mask, i) == mask
  {
    if i > 0 {
      SetAgain(mask / 2, i - 1);
    }
  }

  /** The invariant is kept by exactly the reports that are not ten ahead. */
  lemma StepKeepsIff(s: System, me: nat)
    requires Inv(s) && me < |s.counts|
    ensures Inv(Step(s, me)) <==> s.counts[me] < Low(s.counts) + 10
  {
    if s.counts[me] < Low(s.counts) + 10 {
      StepKeeps(s, me);
    } else {
      var slow :| 0 <= slow < |s.counts| && s.counts[slow] == Low(s.counts);
      var t := Step(s, me);
      assert t.counts[slow] == Low(s.counts);
      LowIs(t.counts, Low(s.counts));
      assert t.counts[me] > Low(t.counts) + 10;
    }
  }

  lemma {:induction false} PacedRunKeepsInv(n: nat, run: seq<nat>)
    requires Run(n, run) && Paced(n, run)
    ensures Inv(After(n, run))
  {
    if run == [] {
      BeginInv(n);
    } else {
      PacedRunKeepsInv(n, run[..|run| - 1]);
      StepKeeps(After(n, run[..|run| - 1]), run[|run| - 1]);
    }
  }

  /** Paced runs: the eNB is woken exactly once for every tick that all RUs have reported, in
      order, and for no other. */
  lemma EveryTickOnceInOrder(n: nat, run: seq<nat>)
    requires Run(n, run) && Paced(n, run)
    ensures After(n, run).b.woken == UpTo(Low(After(n, run).counts))
  {
    PacedRunKeepsInv(n, run);
  }

  // --------------------------------------------------------------- unpaced runs lose ticks

  /** Set bits among the first n. */
  function Ones(mask: nat, n: nat): (c: nat)
    ensures c <= n
  {
    if n == 0 then 0 else Ones(mask, n - 1) + (if Bit(mask, n - 1) then 1 else 0)
  }

  lemma {:induction false} OnesOfSetBit(mask: nat, i: nat, n: nat)
    ensures Ones(SetBit(mask, i), n) == Ones(mask, n) + (if i < n && !Bit(mask, i) then 1 else 0)
  {
    if n > 0 {
      OnesOfSetBit(mask, i, n - 1);
      BitOfSetBit(mask, i, n - 1);
    }
  }

  lemma {:induction false} OnesOfFull(mask: nat, n: nat)
    requires AllBelow(mask, n)
    ensures Ones(mask, n) == n
  {
    if n > 0 {
      OnesOfFull(mask, n - 1);
    }
  }

  lemma {:induction false} OnesOfZero(n: nat)
    ensures Ones(0, n) == 0
  {
    if n > 0 {
      OnesOfZero(n - 1);
      ZeroHasNoBit(n - 1);
    }
  }

  function AllOnes(masks: seq<nat>, n: nat): nat {
    if masks == [] then 0 else AllOnes(masks[..|masks| - 1], n) + Ones(masks[|masks| - 1], n)
  }

  lemma {:induction false} AllOnesUpdate(masks: seq<nat>, n: nat, k: nat, mask: nat)
    requires k < |masks|
    ensures AllOnes(masks[k := mask], n) == AllOnes(masks, n) - Ones(masks[k], n) + Ones(mask, n)
  {
    var last := |masks| - 1;
    if k < last {
      assert masks[k := mask][..last] == masks[..last][k := mask];
      AllOnesUpdate(masks[..last], n, k, mask);
    } else {
      assert masks[k := mask][..last] == masks[..last];
    }
  }

  function Total(counts: seq<nat>): nat {
    if counts == [] then 0 else Total(counts[..|counts| - 1]) + counts[|counts| - 1]
  }

  lemma {:induction false} TotalUpdate(counts: seq<nat>, k: nat, c: nat)
    requires k < |counts|
    ensures Total(counts[k := c]) == Total(counts) - counts[k] + c
  {
    var last := |counts| - 1;
    if k < last {
      assert counts[k := c][..last] == counts[..last][k := c];
      TotalUpdate(counts[..last], k, c);
    } else {
      assert counts[k := c][..last] == counts[..last];
    }
  }

  lemma {:induction false} TotalOfEqual(counts: seq<nat>, c: nat)
    requires forall i :: 0 <= i < |counts| ==> counts[i] == c
    ensures Total(counts) == |counts| * c
  {
    if counts != [] {
      TotalOfEqual(counts[..|counts| - 1], c);
      assert |counts| * c == (|counts| - 1) * c + c;
    }
  }

  /** Reports that arrived while their bit was still set. */
  function Lost(n: nat, run: seq<nat>): nat
    requires Run(n, run)
  {
    if run == [] then 0
    else
      var last := |run| - 1;
      var s := After(n, run[..last]);
      Lost(n, run[..last]) + (if Bit(s.b.masks[s.counts[run[last]] % 10], run[last]) then 1 else 0)
  }

  /** The reports in completed ticks and in masks. */
  function Accounted(b: Barrier, n: nat): nat {
    Times(n, |b.woken|) + AllOnes(b.masks, n)
  }

  ghost predicate Balanced(s: System, lost: nat) {
    && (forall sf :: 0 <= sf < |s.b.masks| ==> s.b.masks[sf] < Pow2(|s.counts|))
    && Accounted(s.b, |s.counts|) + lost == Total(s.counts)
  }

  /** What one report does to the set bits and to the number of completed ticks. */
  lemma StepOnes(s: System, me: nat) returns (done: nat)
    requires |s.b.masks| == SUBFRAMES && me < |s.counts|
    requires forall sf :: 0 <= sf < SUBFRAMES ==> s.b.masks[sf] < Pow2(|s.counts|)
    ensures forall sf :: 0 <= sf < SUBFRAMES ==> Step(s, me).b.masks[sf] < Pow2(|s.counts|)
    ensures done <= 1 && |Step(s, me).b.woken| == |s.b.woken| + done
    ensures AllOnes(Step(s, me).b.masks, |s.counts|) + (if done == 1 then |s.counts| else 0)
         == AllOnes(s.b.masks, |s.counts|) + (if Bit(s.b.masks[s.counts[me] % 10], me) then 0 else 1)
  {
    var n, sf := |s.counts|, s.counts[me] % 10;
    var mask := SetBit(s.b.masks[sf], me);
    StaysBelow(s.b.masks[sf], n, me);
    OnesOfSetBit(s.b.masks[sf], me, n);
    FullIsAll(mask, n);
    if mask == Pow2(n) - 1 {
      OnesOfFull(mask, n);
      OnesOfZero(n);
      AllOnesUpdate(s.b.masks, n, sf, 0);
      done := 1;
    } else {
      AllOnesUpdate(s.b.masks, n, sf, mask);
      done := 0;
    }
  }

  lemma StepBalances(s: System, me: nat, lost: nat)
    requires |s.b.masks| == SUBFRAMES && me < |s.counts| && Balanced(s, lost)
    ensures Balanced(Step(s, me), lost + (if Bit(s.b.masks[s.counts[me] % 10], me) then 1 else 0))
  {
    var lose := if Bit(s.b.masks[s.counts[me] % 10], me) then 1 else 0;
    StepAccounts(s, me);
    BalanceMoves(s, Step(s, me), me, lost, lose);
  }

  lemma BalanceMoves(s: System, t: System, me: nat, lost: nat, lose: nat)
    requires me < |s.counts| && Balanced(s, lost) && t.counts == s.counts[me := s.counts[me] + 1]
    requires forall sf :: 0 <= sf < |t.b.masks| ==> t.b.masks[sf] < Pow2(|s.counts|)
    requires Accounted(t.b, |s.counts|) + lose == Accounted(s.b, |s.counts|) + 1
    ensures Balanced(t, lost + lose)
  {
    TotalUpdate(s.counts, me, s.counts[me] + 1);
  }

  /** Unless it is lost, a report adds one to the completed and the collected ones. */
  lemma StepAccounts(s: System, me: nat)
    requires |s.b.masks| == SUBFRAMES && me < |s.counts|
    requires forall sf :: 0 <= sf < SUBFRAMES ==> s.b.masks[sf] < Pow2(|s.counts|)
    ensures forall sf :: 0 <= sf < SUBFRAMES ==> Step(s, me).b.masks[sf] < Pow2(|s.counts|)
    ensures Accounted(Step(s, me).b, |s.counts|)
         == Accounted(s.b, |s.counts|) + (if Bit(s.b.masks[s.counts[me] % 10], me) then 0 else 1)
  {
    var done := StepOnes(s, me);
    AddWoken(|s.counts|, |s.b.woken|, done);
  }

  lemma AddWoken(n: nat, woken: nat, done: nat)
    requires done <= 1
    ensures Times(n, woken + done) == Times(n, woken) + (if done == 1 then n else 0)
  {
  }

  /** Conservation, in every run: each report is in a completed tick, in a mask, or lost. */
  lemma {:induction false} ReportsAreConserved(n: nat, run: seq<nat>)
    requires Run(n, run)
    ensures Balanced(After(n, run), Lost(n, run))
  {
    if run == [] {
      TotalOfEqual(Begin(n).counts, 0);
      BeginOnes(n, SUBFRAMES);
      assert Pow2(n) >= 1;
    } else {
      var last := |run| - 1;
      ReportsAreConserved(n, run[..last]);
      StepBalances(After(n, run[..last]), run[last], Lost(n, run[..last]));
    }
  }

  lemma {:induction false} BeginOnes(n: nat, k: nat)
    ensures AllOnes(seq(k, i => 0), n) == 0
  {
    if k > 0 {
      BeginOnes(n, k - 1);
      OnesOfZero(n);
      assert seq(k, i => 0)[..k - 1] == seq(k - 1, i => 0);
    }
  }

  lemma LosesIff(s: System, me: nat)
    requires Inv(s) && me < |s.counts|
    ensures Bit(s.b.masks[s.counts[me] % 10], me) <==> s.counts[me] == Low(s.counts) + 10
  {
    if s.counts[me] < Low(s.counts) + 10 {
      DueIs(Low(s.counts), s.counts[me]);
      assert BitsRight(s, Low(s.counts), s.counts[me] % 10);
    } else {
      LostReport(s, me);
    }
  }

  lemma {:induction false} LostIffUnpaced(n: nat, run: seq<nat>)
    requires Run(n, run)
    ensures Paced(n, run) <==> Lost(n, run) == 0
  {
    if run != [] {
      var last := |run| - 1;
      LostIffUnpaced(n, run[..last]);
      if Paced(n, run[..last]) {
        PacedRunKeepsInv(n, run[..last]);
        LosesIff(After(n, run[..last]), run[last]);
      }
    }
  }

  /** When all RUs have reported the same k subframes, the eNB has been woken once for each of
      them, in order, if and only if no RU ever reported while ten ahead of the slowest. */
  lemma AllTicksIffPaced(n: nat, run: seq<nat>, k: nat)
    requires Run(n, run) && forall i :: 0 <= i < n ==> After(n, run).counts[i] == k
    ensures After(n, run).b.woken == UpTo(k) <==> Paced(n, run)
  {
    LostIffUnpaced(n, run);
    ReportsAreConserved(n, run);
    TotalOfEqual(After(n, run).counts, k);
    if Paced(n, run) {
      EveryTickOnceInOrder(n, run);
    }
  }

  // ------------------------------------------------------ RUs that wait, follow or synchronise

  /** What a report does to the RUs themselves. */
  function SettleAll(rus: seq<Ru>, tick: nat): seq<Ru> {
    seq(|rus|, i requires 0 <= i < |rus| => Settle(rus[i], tick % 10))
  }

  /** The RUs after reports of these subframes, by whichever RUs. */
  function SettledBy(rus: seq<Ru>, ticks: seq<nat>): (r: seq<Ru>)
    ensures |r| == |rus|
  {
    if ticks == [] then rus else SettleAll(SettledBy(rus, ticks[..|ticks| - 1]), ticks[|ticks| - 1])
  }

  /** An RU in its last turn of waiting starts to count with anybody's first report of a subframe
      other than 9; no other RU ever changes. */
  lemma {:induction false} WaitingEnds(rus: seq<Ru>, ticks: seq<nat>, i: nat)
    requires i < |rus|
    ensures SettledBy(rus, ticks)[i]
         == if rus[i].waitCnt == 1 && exists k :: 0 <= k < |ticks| && ticks[k] % 10 != 9 then rus[i].(waitCnt := 0) else rus[i]
  {
    if ticks != [] {
      var last := |ticks| - 1;
      WaitingEnds(rus, ticks[..last], i);
      assert ticks == ticks[..last] + [ticks[last]];
    }
  }

  /** The barrier after reports of one subframe, with RUs that these do not change. */
  ghost predicate Reporting(rus: seq<Ru>, b: Barrier, order: seq<nat>, tick: nat) {
    && |rus| >= 1 && |b.masks| == SUBFRAMES && b.masks[tick % 10] == 0
    && SettleAll(rus, tick) == rus
    && forall k :: 0 <= k < |order| ==> order[k] < |rus|
  }

  function ReportsOf(rus: seq<Ru>, b: Barrier, order: seq<nat>, tick: nat): (t: Barrier)
    requires |b.masks| == SUBFRAMES && forall k :: 0 <= k < |order| ==> order[k] < |rus|
    ensures |t.masks| == SUBFRAMES
  {
    if order == [] then b else ReportAny(rus, ReportsOf(rus, b, order[..|order| - 1], tick), order[|order| - 1], tick)
  }

  /** RU i is in: it is synchronising, or has reported itself without waiting, or is a slave that waits
      and somebody else has reported. */
  predicate Counted(rus: seq<Ru>, order: seq<nat>, i: nat)
    requires i < |rus|
  {
    && order != []
    && (rus[i].sync
        || (rus[i].waitCnt == 0 && i in order)
        || (rus[i].waitCnt > 0 && rus[i].slave && exists k :: 0 <= k < |order| && order[k] != i))
  }

  ghost predicate Quorum(rus: seq<Ru>, order: seq<nat>) {
    forall i :: 0 <= i < |rus| ==> Counted(rus, order, i)
  }

  lemma {:induction false} GatherBits(rus: seq<Ru>, me: nat, tti: nat, k: nat, mask: nat, i: nat)
    requires k <= |rus| && mask < Pow2(|rus|)
    ensures GatherMask(rus, me, tti, k, mask) < Pow2(|rus|)
    ensures Bit(GatherMask(rus, me, tti, k, mask), i) <==> Bit(mask, i) || (i < k && Contributes(Settle(rus[i], tti), me == i))
  {
    if k > 0 {
      var m := GatherMask(rus, me, tti, k - 1, mask);
      GatherBits(rus, me, tti, k - 1, mask, i);
      BitOfSetBit(m, k - 1, i);
      StaysBelow(m, |rus|, k - 1);
    }
  }

  lemma CountedOneMore(rus: seq<Ru>, order: seq<nat>, i: nat)
    requires order != [] && i < |rus|
    ensures Counted(rus, order, i)
       <==> Counted(rus, order[..|order| - 1], i) || Contributes(rus[i], order[|order| - 1] == i)
  {
    var last := |order| - 1;
    assert order == order[..last] + [order[last]];
    if k :| 0 <= k < last && order[..last][k] != i {
      assert order[k] != i;
    }
  }

  ghost predicate MaskCounts(rus: seq<Ru>, mask: nat, order: seq<nat>) {
    mask < Pow2(|rus|) && forall i :: 0 <= i < |rus| ==> (Bit(mask, i) <==> Counted(rus, order, i))
  }

  /** The mask a report gathers, before the test. */
  lemma GatherCounts(rus: seq<Ru>, mask: nat, order: seq<nat>, tick: nat)
    requires SettleAll(rus, tick) == rus && order != [] && MaskCounts(rus, mask, order[..|order| - 1])
    ensures MaskCounts(rus, GatherMask(rus, order[|order| - 1], tick % 10, |rus|, mask), order)
  {
    var me := order[|order| - 1];
    GatherBits(rus, me, tick % 10, |rus|, mask, 0);
    forall i | 0 <= i < |rus|
      ensures Bit(GatherMask(rus, me, tick % 10, |rus|, mask), i) <==> Counted(rus, order, i)
    {
      GatherBits(rus, me, tick % 10, |rus|, mask, i);
      CountedOneMore(rus, order, i);
      assert SettleAll(rus, tick)[i] == rus[i];
    }
  }

  lemma QuorumIff(rus: seq<Ru>, mask: nat, order: seq<nat>)
    requires MaskCounts(rus, mask, order)
    ensures mask == Pow2(|rus|) - 1 <==> Quorum(rus, order)
  {
    FullIsAll(mask, |rus|);
    if AllBelow(mask, |rus|) {
      forall i | 0 <= i < |rus|
        ensures Counted(rus, order, i)
      {
        assert Bit(mask, i);
      }
    }
  }

  lemma {:induction false} NoQuorumYet(rus: seq<Ru>, b: Barrier, order: seq<nat>, tick: nat)
    requires Reporting(rus, b, order, tick) && forall k :: 0 <= k <= |order| ==> !Quorum(rus, order[..k])
    ensures ReportsOf(rus, b, order, tick).woken == b.woken
    ensures MaskCounts(rus, ReportsOf(rus, b, order, tick).masks[tick % 10], order)
  {
    if order == [] {
      assert Pow2(|rus|) >= 1;
      forall i | 0 <= i < |rus|
        ensures !Bit(0, i)
      {
        ZeroHasNoBit(i);
      }
    } else {
      var last := |order| - 1;
      assert forall k :: 0 <= k <= last ==> order[..last][..k] == order[..k];
      NoQuorumYet(rus, b, order[..last], tick);
      var before := ReportsOf(rus, b, order[..last], tick);
      GatherCounts(rus, before.masks[tick % 10], order, tick);
      assert order[..|order|] == order;
      QuorumIff(rus, GatherMask(rus, order[last], tick % 10, |rus|, before.masks[tick % 10]), order);
    }
  }

  /** Reports of one subframe by RUs in any states, until the first quorum: the eNB is woken by the
      report that makes it, unless its RU is itself still waiting, and the mask starts anew; and
      without a quorum it is not woken. */
  lemma WokenByQuorum(rus: seq<Ru>, b: Barrier, order: seq<nat>, tick: nat)
    requires Reporting(rus, b, order, tick) && order != [] && forall k :: 0 <= k < |order| ==> !Quorum(rus, order[..k])
    ensures var t, me := ReportsOf(rus, b, order, tick), order[|order| - 1];
            && t.woken == (if Quorum(rus, order) && rus[me].waitCnt == 0 then b.woken + [tick] else b.woken)
            && (Quorum(rus, order) ==> t.masks[tick % 10] == 0)
            && (!Quorum(rus, order) ==> MaskCounts(rus, t.masks[tick % 10], order))
  {
    var last := |order| - 1;
    assert forall k :: 0 <= k <= last ==> order[..last][..k] == order[..k];
    NoQuorumYet(rus, b, order[..last], tick);
    var before := ReportsOf(rus, b, order[..last], tick);
    GatherCounts(rus, before.masks[tick % 10], order, tick);
    QuorumIff(rus, GatherMask(rus, order[last], tick % 10, |rus|, before.masks[tick % 10]), order);
    assert SettleAll(rus, tick)[order[last]] == rus[order[last]];
  }
}
