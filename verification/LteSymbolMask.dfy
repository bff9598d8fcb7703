/** Gathering a subframe's symbols from fronthaul packets in any order. */
module LteSymbolMask {
  import opened Bits

  const SUBFRAMES := 10
  const TICK_MASK := 0xffff

  datatype Kind = PULFFT | PULTICK | PRACH

  /** A packet of the fronthaul; the symbol field of its header has four bits. */
  datatype Packet = Packet(kind: Kind, f: nat, sf: nat, symbol: nat)
  {
    predicate Valid() { sf < SUBFRAMES && symbol < 16 }
  }

  /** A packet, and whether the process or this RU is found stopped right after it came in. */
  datatype Arrival = Arrival(p: Packet, stop: bool)

  datatype Outcome = Returned(f: nat, sf: nat) | Stopped(f: nat, sf: nat) | Blocked

  /** What happens to the masks: a packet is recorded, or a subframe is handed on and cleared. */
  datatype Event = Recorded(p: Packet) | Cleared(sf: nat)

  // ------------------------------------------------------------------- specification

  function Record(mask: nat, p: Packet): nat {
    match p.kind
    case PULFFT => SetBit(mask, p.symbol)
    case PULTICK => TICK_MASK
    case PRACH => mask
  }

  /** The mask of subframe s after a history. */
  function MaskOf(log: seq<Event>, s: nat): nat {
    if log == [] then 0
    else
      var before := MaskOf(log[..|log| - 1], s);
      match log[|log| - 1]
      case Recorded(p) => if p.sf == s then Record(before, p) else before
      case Cleared(sf) => if sf == s then 0 else before
  }

  predicate ValidLog(log: seq<Event>) {
    forall i :: 0 <= i < |log| ==> (log[i].Recorded? ==> log[i].p.Valid())
  }

  /** A history, and then the first n arrivals. */
  function History(log: seq<Event>, arrivals: seq<Arrival>, n: nat): seq<Event>
    requires n <= |arrivals|
  {
    if n == 0 then log else History(log, arrivals, n - 1) + [Recorded(arrivals[n - 1].p)]
  }

  /** After each of the first n arrivals there is no stop, and subframe s is not complete yet. */
  ghost predicate StillWaiting(log: seq<Event>, arrivals: seq<Arrival>, n: nat, s: nat, symbols: nat)
    requires n <= |arrivals|
  {
    && MaskOf(History(log, arrivals, n), s) < Full(symbols)
    && (n > 0 ==> !arrivals[n - 1].stop && StillWaiting(log, arrivals, n - 1, s, symbols))
  }

  /** symbol_mask_full. */
  function Full(n: nat): nat {
    Pow2(n) - 1
  }

  // ------------------------------------------------------------------------ the code

  class Gatherer {
    const masks: array<nat>
    var firstRx: bool
    var waitResynch: bool
    ghost var log: seq<Event>

    ghost predicate Valid()
      reads this, masks
    {
      && masks.Length == SUBFRAMES
      && ValidLog(log)
      && forall s :: 0 <= s < SUBFRAMES ==> masks[s] == MaskOf(log, s)
    }

    constructor ()
      ensures Valid() && fresh(masks) && log == [] && firstRx && !waitResynch
    {
      masks := new nat[SUBFRAMES](i => 0);
      firstRx, waitResynch, log := true, false, [];
    }

    /** fh_if4p5_south_in up to the clearing of the mask; n symbols make the requested subframe
        complete. Blocked means that the packets at hand do not complete it. */
    method Gather(n: nat, frame: nat, subframe: nat, arrivals: seq<Arrival>) returns (r: Outcome, used: nat)
      requires Valid() && subframe < SUBFRAMES && forall i :: 0 <= i < |arrivals| ==> arrivals[i].p.Valid()
      modifies masks, `log
      ensures Valid() && used <= |arrivals|
      ensures old(MaskOf(log, subframe)) >= Full(n) ==> used == 0 && r == Returned(frame, subframe)
      ensures used > 0 ==> StillWaiting(old(log), arrivals, used - 1, subframe, n)
      ensures match r
              case Returned(f, sf) =>
                && sf == subframe
                && (used > 0 ==> arrivals[used - 1].p.f == f && arrivals[used - 1].p.sf == sf && !arrivals[used - 1].stop)
                && MaskOf(History(old(log), arrivals, used), subframe) >= Full(n)
                && log == History(old(log), arrivals, used) + [Cleared(subframe)]
              case Stopped(f, sf) =>
                && used > 0 && arrivals[used - 1].p.f == f && arrivals[used - 1].p.sf == sf && arrivals[used - 1].stop
                && log == History(old(log), arrivals, used - 1) + [Cleared(sf)]
              case Blocked =>
                && used == |arrivals| && StillWaiting(old(log), arrivals, used, subframe, n)
                && log == History(old(log), arrivals, used)
    {
      used := 0;
      ghost var log0 := log;
      var f, sf := frame, subframe;
      if masks[subframe] < Full(n) {
        while true
          invariant used <= |arrivals| && log == History(log0, arrivals, used) && Valid()
          invariant StillWaiting(log0, arrivals, used, subframe, n)
          decreases |arrivals| - used
        {
          if used == |arrivals| {
            return Blocked, used;
          }
          var p := arrivals[used].p;
          f, sf := p.f, p.sf;
          used := used + 1;
          if arrivals[used - 1].stop {
            Clear(sf);
            return Stopped(f, sf), used;
          }
          Take(p);
          if masks[subframe] >= Full(n) {
            break;
          }
        }
      }
      Clear(sf);
      r := Returned(f, sf);
    }

    /** One packet recorded. */
    method Take(p: Packet)
      requires Valid() && p.Valid()
      modifies masks, `log
      ensures Valid() && log == old(log) + [Recorded(p)]
    {
      if p.kind == PULFFT {
        masks[p.sf] := SetBit(masks[p.sf], p.symbol);
      } else if p.kind == PULTICK {
        masks[p.sf] := TICK_MASK;
      }
      log := log + [Recorded(p)];
      assert log[..|log| - 1] == old(log);
    }

    /** The last packet's subframe is handed on. */
    method Clear(sf: nat)
      requires Valid() && sf < SUBFRAMES
      modifies masks, `log
      ensures Valid() && log == old(log) + [Cleared(sf)]
    {
      masks[sf] := 0;
      log := log + [Cleared(sf)];
      assert log[..|log| - 1] == old(log);
    }

    /** The rest of fh_if4p5_south_in: the loop's counters after the call. */
    method SouthIn(n: nat, frame: nat, subframe: nat, arrivals: seq<Arrival>)
      returns (r: Outcome, used: nat, newFrame: nat, newSubframe: nat)
      requires Valid() && subframe < SUBFRAMES && forall i :: 0 <= i < |arrivals| ==> arrivals[i].p.Valid()
      modifies this, masks
      ensures Valid() && used <= |arrivals|
      ensures r.Returned? ==> newSubframe == r.sf == subframe
      ensures !r.Blocked? && used > 0 ==> arrivals[used - 1].p.f == r.f && arrivals[used - 1].p.sf == r.sf
      ensures !r.Blocked? && used > 0 ==> (r.Stopped? <==> arrivals[used - 1].stop)
      ensures !r.Blocked? && used == 0 ==> r == Returned(frame, subframe)
      ensures r.Stopped? ==> newSubframe == r.sf && log == History(old(log), arrivals, used - 1) + [Cleared(r.sf)]
      ensures !r.Blocked? ==> newFrame == if old(firstRx) || (old(waitResynch) && r.f != frame) then r.f else frame
      ensures r.Returned? ==> log == History(old(log), arrivals, used) + [Cleared(subframe)]
      ensures r.Returned? ==> MaskOf(History(old(log), arrivals, used), subframe) >= Full(n)
      ensures r.Blocked? ==> newFrame == frame && newSubframe == subframe && log == History(old(log), arrivals, used)
      ensures r.Blocked? ==> firstRx == old(firstRx) && waitResynch == old(waitResynch)
      ensures !r.Blocked? ==> !firstRx && (waitResynch <==> old(waitResynch) && (old(firstRx) || r.f == frame))
    {
      r, used := Gather(n, frame, subframe, arrivals);
      newFrame, newSubframe := frame, subframe;
      if r.Blocked? {
        return;
      }
      if !firstRx {
        if r.sf != subframe {
          newSubframe := r.sf;
        }
        if waitResynch && r.f != frame {
          waitResynch := false;
          newFrame := r.f;
        }
      } else {
        firstRx := false;
        newFrame, newSubframe := r.f, r.sf;
      }
    }
  }

  // ---------------------------------------------------------------- what a mask means

  /** The event delivers symbol j of subframe s; a tick stands for all sixteen. */
  predicate Delivers(e: Event, s: nat, j: nat) {
    e.Recorded? && e.p.sf == s && ((e.p.kind == PULFFT && e.p.symbol == j) || (e.p.kind == PULTICK && j < 16))
  }

  /** Event i delivered it, and the subframe has not been handed on since. */
  ghost predicate Waits(log: seq<Event>, i: nat, s: nat, j: nat) {
    i < |log| && Delivers(log[i], s, j) && forall k :: i < k < |log| ==> log[k] != Cleared(s)
  }

  ghost predicate Received(log: seq<Event>, s: nat, j: nat) {
    exists i :: Waits(log, i, s, j)
  }

  lemma TickBits(j: nat)
    ensures Bit(TICK_MASK, j) <==> j < 16
  {
    assert Pow2(4) == 16 && Pow2(8) == 256 && Pow2(12) == 4096 && Pow2(16) == TICK_MASK + 1;
    FullIff(TICK_MASK, 16);
    HighBitIff(TICK_MASK, 16);
  }

  lemma WaitsIffBefore(log: seq<Event>, i: nat, s: nat, j: nat)
    requires log != [] && i < |log| - 1
    ensures Waits(log, i, s, j) <==> Waits(log[..|log| - 1], i, s, j) && log[|log| - 1] != Cleared(s)
  {
    var last := |log| - 1;
    if Waits(log, i, s, j) {
      assert forall k :: i < k < last ==> log[..last][k] == log[k];
    }
    if Waits(log[..last], i, s, j) && log[last] != Cleared(s) {
      forall k | i < k < |log|
        ensures log[k] != Cleared(s)
      {
        if k < last {
          assert log[..last][k] == log[k];
        }
      }
    }
  }

  /** One event more. */
  lemma ReceivedStep(log: seq<Event>, s: nat, j: nat)
    requires log != []
    ensures Received(log, s, j)
       <==> Delivers(log[|log| - 1], s, j) || (log[|log| - 1] != Cleared(s) && Received(log[..|log| - 1], s, j))
  {
    var last := |log| - 1;
    if i: nat :| Waits(log, i, s, j) {
      if i < last {
        WaitsIffBefore(log, i, s, j);
      }
    }
    if Delivers(log[last], s, j) {
      assert Waits(log, last, s, j);
    }
    if i: nat :| Waits(log[..last], i, s, j) {
      WaitsIffBefore(log, i, s, j);
    }
  }

  /** A bit of a mask is set exactly when its symbol came in since the subframe was last handed
      on: no symbol is lost, whatever the order and whatever other subframes do in between. */
  lemma {:induction false} BitIffReceived(log: seq<Event>, s: nat, j: nat)
    requires ValidLog(log)
    ensures Bit(MaskOf(log, s), j) <==> Received(log, s, j)
  {
    if log == [] {
      ZeroHasNoBit(j);
    } else {
      var last := |log| - 1;
      BitIffReceived(log[..last], s, j);
      ReceivedStep(log, s, j);
      match log[last] {
        case Cleared(sf) => ZeroHasNoBit(j);
        case Recorded(p) =>
          BitOfSetBit(MaskOf(log[..last], s), p.symbol, j);
          TickBits(j);
          if p.kind == PULTICK && p.sf == s && j >= 16 {
            NothingAbove(log[..last], s, j);
          }
      }
    }
  }

  /** Four bits of symbol number reach no further. */
  lemma NothingAbove(log: seq<Event>, s: nat, j: nat)
    requires ValidLog(log) && j >= 16
    ensures !Received(log, s, j)
  {
  }

  ghost predicate AllReceived(log: seq<Event>, s: nat, n: nat) {
    forall j :: 0 <= j < n ==> Received(log, s, j)
  }

  ghost predicate StrayReceived(log: seq<Event>, s: nat, n: nat) {
    exists j :: j >= n && Received(log, s, j)
  }

  /** The numeric comparison: the mask counts as full if and only if all n symbols have been
      received, or one whose number is n or more. */
  lemma FullMeans(log: seq<Event>, s: nat, n: nat)
    requires ValidLog(log)
    ensures MaskOf(log, s) >= Full(n) <==> AllReceived(log, s, n) || StrayReceived(log, s, n)
  {
    var m := MaskOf(log, s);
    FullIff(m, n);
    forall j: nat
      ensures Bit(m, j) <==> Received(log, s, j)
    {
      BitIffReceived(log, s, j);
    }
    assert AllBelow(m, n) <==> AllReceived(log, s, n);
    assert SomeAbove(m, n) <==> StrayReceived(log, s, n);
  }

  /** No symbol number of subframe s reaches the expected count; ticks are fine. */
  predicate InRange(log: seq<Event>, s: nat, n: nat) {
    forall i :: 0 <= i < |log| ==> (log[i].Recorded? && log[i].p.sf == s && log[i].p.kind == PULFFT ==> log[i].p.symbol < n)
  }

  /** With symbol numbers in range the comparison means exactly: every symbol has come in, or a
      tick in place of them. */
  lemma FullMeansComplete(log: seq<Event>, s: nat, n: nat)
    requires ValidLog(log) && n <= 16 && InRange(log, s, n)
    ensures MaskOf(log, s) >= Full(n) <==> AllReceived(log, s, n)
  {
    FullMeans(log, s, n);
    if j :| j >= n && Received(log, s, j) {
      var i: nat :| Waits(log, i, s, j);
      forall k | 0 <= k < n
        ensures Received(log, s, k)
      {
        assert Waits(log, i, s, k);
      }
    }
  }

  /** Out of range it does not: a single packet numbered 14 ends a subframe of 14 symbols. */
  lemma StrayEndsSubframe()
    ensures var log := [Recorded(Packet(PULFFT, 0, 3, 14))];
            ValidLog(log) && MaskOf(log, 3) >= Full(14) && !Received(log, 3, 0)
  {
    var log := [Recorded(Packet(PULFFT, 0, 3, 14))];
    assert Waits(log, 0, 3, 14);
    assert Received(log, 3, 14);
    FullMeans(log, 3, 14);
  }

  /** A stop loses what had been received for the last packet's subframe. */
  lemma ClearedIsEmpty(log: seq<Event>, sf: nat, j: nat)
    requires ValidLog(log)
    ensures !Received(log + [Cleared(sf)], sf, j)
  {
    ReceivedStep(log + [Cleared(sf)], sf, j);
  }
}
