/** The gNB's receive clock: how the RU thread turns arbitrary device timestamps into exact
    slot numbers, and the transmit look-ahead computed from them. */
module NrRxClock {
  import opened Arith
  import opened NrNumerology

  /** What rx_rf and the RU thread's loop keep. `frame` and `slot` are the loop's own counters,
      frameRx and ttiRx those derived from the samples; `failed` records a call of exit_fun. */
  datatype Clock = Clock(timestampRx: int, tsOffset: int, firstRx: bool, frameRx: int, ttiRx: int,
                         frame: int, slot: int, failed: bool)

  /** Division of the C language. */
  function TruncDiv(a: int, b: int): int
    requires b > 0
  {
    if a >= 0 then a / b else -((-a) / b)
  }

  function FrameOf(fp: FrameParms, timestamp: int): int
    requires fp.Valid()
  {
    TruncDiv(timestamp, fp.samplesPerSubframe * 10) % 1024
  }

  /** A negative timestamp has a negative remainder, which is below the first slot's length. */
  function SlotOf(fp: FrameParms, timestamp: int): int
    requires fp.Valid()
  {
    if timestamp < 0 then 0 else SlotFromTimestamp(fp, timestamp)
  }

  /** Head of the RU thread's loop. */
  function NextSlot(fp: FrameParms, c: Clock): Clock {
    if c.slot == fp.slotsPerFrame - 1 then c.(slot := 0, frame := (c.frame + 1) % 1024) else c.(slot := c.slot + 1)
  }

  /** Samples of the slot before `slot`; for slot 0 the code asks for slot -1. */
  function PrevLen(fp: FrameParms, slot: int): nat
    requires fp.Valid()
  {
    SamplesPerSlot(fp, if slot == 0 then -1 else slot - 1)
  }

  /** Every read but the first: absorb the drift, then compare with the loop's counters. */
  function SteadyRead(fp: FrameParms, c: Clock, ts: int): Clock
    requires fp.Valid()
  {
    Compare(fp, Absorb(c, PrevLen(fp, c.slot), ts))
  }

  function Absorb(c: Clock, prev: nat, ts: int): Clock {
    var drift := ts - c.tsOffset - c.timestampRx - prev;
    var offset := if drift != 0 then c.tsOffset + drift else c.tsOffset;
    c.(timestampRx := ts - offset, tsOffset := offset)
  }

  function Compare(fp: FrameParms, c: Clock): Clock
    requires fp.Valid()
  {
    var frameRx, ttiRx := FrameOf(fp, c.timestampRx), SlotOf(fp, c.timestampRx);
    c.(frameRx := frameRx, ttiRx := ttiRx, failed := c.failed || ttiRx != c.slot || frameRx != c.frame)
  }

  /** Samples from the start of the slot to this one. */
  function IntoSlot(fp: FrameParms, timestamp: int, slot: int): int
    requires fp.Valid()
  {
    (if timestamp >= 0 then timestamp % fp.samplesPerFrame else -((-timestamp) % fp.samplesPerFrame))
    - (if slot >= 0 then SlotTimestamp(fp, slot) else 0)
  }

  /** The first read: take over the device's position and go on to the next slot boundary. */
  function FirstRead(fp: FrameParms, c: Clock, ts: int): Clock
    requires fp.Valid()
  {
    var timestamp := ts - c.tsOffset;
    var frameRx, ttiRx := FrameOf(fp, timestamp), SlotOf(fp, timestamp);
    Align(fp.slotsPerFrame, Labelled(c, timestamp, frameRx, ttiRx), IntoSlot(fp, timestamp, ttiRx), SamplesPerSlot(fp, ttiRx))
  }

  /** The loop's counters start as the sample's labels. */
  function Labelled(c: Clock, timestamp: int, frame: int, slot: int): Clock {
    c.(timestampRx := timestamp, firstRx := false, frameRx := frame, ttiRx := slot, frame := frame, slot := slot)
  }

  /** Skip the rest of a slot that is already under way (the offset is unsigned in the program, so
      a negative one counts as well). The frame counter is not reduced
      modulo 1024 here. */
  function Align(spf: nat, c: Clock, into: int, len: nat): Clock
    requires spf > 0
  {
    if into != 0 then
      c.(timestampRx := c.timestampRx + len - into,
         frame := if c.slot + 1 >= spf then c.frame + 1 else c.frame,
         slot := (c.slot + 1) % spf)
    else c
  }

  function RxRf(fp: FrameParms, c: Clock, ts: int): Clock
    requires fp.Valid()
  {
    if c.firstRx then FirstRead(fp, c, ts) else SteadyRead(fp, c, ts)
  }

  /** Turns of the loop, one device timestamp each. */
  function Reads(fp: FrameParms, c: Clock, ts: seq<int>): Clock
    requires fp.Valid()
  {
    if ts == [] then c else RxRf(fp, NextSlot(fp, Reads(fp, c, ts[..|ts| - 1])), ts[|ts| - 1])
  }

  /** Clock fields and loop counters, updated in place. */
  class RuClock {
    var timestampRx: int
    var tsOffset: int
    var firstRx: bool
    var frameRx: int
    var ttiRx: int
    var frame: int
    var slot: int
    var failed: bool

    ghost function View(): Clock
      reads this
    {
      Clock(timestampRx, tsOffset, firstRx, frameRx, ttiRx, frame, slot, failed)
    }

    /** init_RU_proc and the loop's initial counters. */
    constructor (fp: FrameParms)
      ensures View() == Clock(0, 0, true, 0, 0, 1023, fp.slotsPerFrame - 1, false)
    {
      timestampRx, tsOffset, firstRx, frameRx, ttiRx := 0, 0, true, 0, 0;
      frame, slot, failed := 1023, fp.slotsPerFrame - 1, false;
    }

    /** Head of the loop. */
    method CountSlot(fp: FrameParms)
      modifies this`frame, this`slot
      ensures View() == NextSlot(fp, old(View()))
    {
      if slot == fp.slotsPerFrame - 1 {
        slot := 0;
        frame := frame + 1;
        frame := frame % 1024;
      } else {
        slot := slot + 1;
      }
    }

    /** rx_rf; `ts` is what the device reports. */
    method Read(fp: FrameParms, ts: int)
      requires fp.Valid()
      modifies this
      ensures View() == RxRf(fp, old(View()), ts)
    {
      var oldTs := timestampRx;
      ghost var was := View();
      timestampRx := ts - tsOffset;
      if !firstRx {
        var prev := PrevLen(fp, slot);
        if timestampRx - oldTs != prev {
          tsOffset := tsOffset + (timestampRx - oldTs - prev);
          timestampRx := ts - tsOffset;
        }
        assert View() == Absorb(was, prev, ts);
      }
      frameRx := FrameOf(fp, timestampRx);
      ttiRx := SlotOf(fp, timestampRx);
      if !firstRx {
        if ttiRx != slot || frameRx != frame {
          failed := true;
        }
        assert View() == SteadyRead(fp, was, ts);
      } else {
        firstRx := false;
        frame := frameRx;
        slot := ttiRx;
        assert View() == Labelled(was, ts - was.tsOffset, frameRx, ttiRx);
        SkipToBoundary(fp.slotsPerFrame, IntoSlot(fp, timestampRx, slot), SamplesPerSlot(fp, slot));
      }
    }

    /** The alignment at the end of the first read. */
    method SkipToBoundary(spf: nat, into: int, len: nat)
      requires spf > 0
      modifies this`timestampRx, this`frame, this`slot
      ensures View() == Align(spf, old(View()), into, len)
    {
      if into != 0 {
        timestampRx := timestampRx + len - into;
        if slot + 1 >= spf {
          frame := frame + 1;
        }
        slot := (slot + 1) % spf;
      }
    }
  }

  // ---------------------------------------------------------------------- the clock

  /** Sample time and loop counters agree on slot n, counted from the stream's frame 0. */
  predicate At(fp: FrameParms, c: Clock, n: nat)
    requires fp.Valid()
  {
    && !c.firstRx && !c.failed
    && c.timestampRx == SlotStart(fp, n)
    && c.slot == n % fp.slotsPerFrame
    && c.frame == n / fp.slotsPerFrame % 1024
  }

  /** Frame and slot derived from a slot's first sample are that slot's own. */
  lemma StartLabels(fp: FrameParms, n: nat)
    requires fp.Valid()
    ensures SlotOf(fp, SlotStart(fp, n)) == n % fp.slotsPerFrame
    ensures FrameOf(fp, SlotStart(fp, n)) == n / fp.slotsPerFrame % 1024
  {
    var q, r := DivMod(n, fp.slotsPerFrame);
    ModUnique(n, fp.slotsPerFrame, q, r);
    SamplesPerSlotIsTheSum(fp, n);
    SampleLabels(fp, q, r, SlotStart(fp, n));
  }

  /** So are those of any sample inside the slot. */
  lemma SampleLabels(fp: FrameParms, q: nat, r: nat, t: nat)
    requires fp.Valid() && r < fp.slotsPerFrame
    requires SlotStart(fp, q * fp.slotsPerFrame + r) <= t < SlotStart(fp, q * fp.slotsPerFrame + r + 1)
    ensures SlotOf(fp, t) == r
    ensures FrameOf(fp, t) == q % 1024
    ensures t % fp.samplesPerFrame == t - q * fp.samplesPerFrame
    ensures t - SlotStart(fp, q * fp.slotsPerFrame + r) == t % fp.samplesPerFrame - SlotStart(fp, r)
  {
    FramesAddUp(fp, q, r);
    FramesAddUp(fp, q, r + 1);
    assert q * fp.slotsPerFrame + (r + 1) == q * fp.slotsPerFrame + r + 1;
    EndOfFrame(fp, r);
    ModUnique(t, fp.samplesPerFrame, q, t - q * fp.samplesPerFrame);
    SlotFromTimestampIsRight(fp, t);
    SlotIsUnique(fp, t % fp.samplesPerFrame, SlotFromTimestamp(fp, t), r);
  }

  lemma EndOfFrame(fp: FrameParms, r: nat)
    requires fp.Valid() && r < fp.slotsPerFrame
    ensures SlotStart(fp, r + 1) <= fp.samplesPerFrame
  {
    OneFrame(fp, 0);
    if r + 1 < fp.slotsPerFrame {
      StartsIncrease(fp, r + 1, fp.slotsPerFrame);
    }
  }

  lemma SlotIsUnique(fp: FrameParms, x: nat, a: nat, b: nat)
    requires fp.Valid()
    requires SlotStart(fp, a) <= x < SlotStart(fp, a + 1) && SlotStart(fp, b) <= x < SlotStart(fp, b + 1)
    ensures a == b
  {
    if a + 1 < b {
      StartsIncrease(fp, a + 1, b);
    } else if b + 1 < a {
      StartsIncrease(fp, b + 1, a);
    }
  }

  /** C's remainder makes slot -1 look up the length of the frame's last slot, so the length
      is right across the frame boundary too. */
  lemma PrevLenIsRight(fp: FrameParms, n: nat)
    requires fp.Valid()
    ensures PrevLen(fp, (n + 1) % fp.slotsPerFrame) == SamplesPerSlot(fp, n)
  {
    NextDivMod(n, fp.slotsPerFrame);
    SlotLengthsRepeat(fp, n);
    LastSlot(fp);
  }

  lemma LastSlot(fp: FrameParms)
    requires fp.Valid()
    ensures SamplesPerSlot(fp, -1) == SamplesPerSlot(fp, fp.slotsPerFrame - 1)
  {
  }

  lemma CountersFollow(fp: FrameParms, c: Clock, n: nat)
    requires fp.Valid() && At(fp, c, n)
    ensures NextSlot(fp, c) == c.(slot := (n + 1) % fp.slotsPerFrame, frame := (n + 1) / fp.slotsPerFrame % 1024)
  {
    NextDivMod(n, fp.slotsPerFrame);
  }

  /** Whatever the device reports, one turn advances the logical time by exactly the previous
      slot's length; the counters then agree and all drift has gone into the offset. */
  lemma TurnIsExact(fp: FrameParms, c: Clock, n: nat, ts: int)
    requires fp.Valid() && At(fp, c, n)
    ensures var d := RxRf(fp, NextSlot(fp, c), ts);
            && At(fp, d, n + 1)
            && d.timestampRx == c.timestampRx + SamplesPerSlot(fp, n)
            && d.frameRx == d.frame && d.ttiRx == d.slot
            && d.timestampRx + d.tsOffset == ts
  {
    CountersFollow(fp, c, n);
    PrevLenIsRight(fp, n);
    SamplesPerSlotIsTheSum(fp, n);
    StartLabels(fp, n + 1);
    var e := Absorb(NextSlot(fp, c), SamplesPerSlot(fp, n), ts);
    assert e.timestampRx == SlotStart(fp, n + 1);
    assert RxRf(fp, NextSlot(fp, c), ts) == Compare(fp, e);
  }

  /** Over any number of turns, for arbitrary device timestamps, the counter checks never fail
      and turn k is slot n + k. */
  lemma {:induction false} EveryTurnIsExact(fp: FrameParms, c: Clock, n: nat, ts: seq<int>)
    requires fp.Valid() && At(fp, c, n)
    ensures At(fp, Reads(fp, c, ts), n + |ts|)
  {
    if ts != [] {
      EveryTurnIsExact(fp, c, n, ts[..|ts| - 1]);
      TurnIsExact(fp, Reads(fp, c, ts[..|ts| - 1]), n + |ts| - 1, ts[|ts| - 1]);
    }
  }

  /** The first sample lies in slot n of the stream, `into` samples after its start. */
  predicate Begins(fp: FrameParms, t: int, n: nat, into: nat)
    requires fp.Valid()
  {
    t == SlotStart(fp, n) + into && into < SamplesPerSlot(fp, n)
  }

  /** A stream that starts inside the last slot of frame 1023: the frame counter then becomes
      1024, which no sample ever shows. */
  predicate BadStart(spf: nat, n: nat, into: nat)
    requires spf > 0
  {
    into > 0 && n % spf == spf - 1 && n / spf % 1024 == 1023
  }

  lemma FirstLabels(fp: FrameParms, t: int, n: nat, into: nat)
    requires fp.Valid() && Begins(fp, t, n, into)
    ensures SlotOf(fp, t) == n % fp.slotsPerFrame && FrameOf(fp, t) == n / fp.slotsPerFrame % 1024
    ensures IntoSlot(fp, t, n % fp.slotsPerFrame) == into
    ensures SamplesPerSlot(fp, n % fp.slotsPerFrame) == SlotStart(fp, n + 1) - SlotStart(fp, n)
  {
    var q, r := DivMod(n, fp.slotsPerFrame);
    ModUnique(n, fp.slotsPerFrame, q, r);
    SamplesPerSlotIsTheSum(fp, n);
    SampleLabels(fp, q, r, t);
    SlotTimestampIsTheSum(fp, r);
    SlotLengthsRepeat(fp, n);
  }

  /** Counters of slot n + 1, as the skip computes them from those of slot n. */
  lemma SkipCounters(spf: nat, n: nat, frame: nat, slot: nat)
    requires spf > 0 && frame == n / spf % 1024 && slot == n % spf
    ensures (slot + 1) % spf == (n + 1) % spf
    ensures slot + 1 == spf ==> (slot + 1) % spf == 0
    ensures slot + 1 < spf ==> (n + 1) / spf % 1024 == frame
    ensures slot + 1 == spf && frame < 1023 ==> (n + 1) / spf % 1024 == frame + 1
  {
    NextDivMod(n, spf);
    ModUnique(slot, spf, 0, slot);
    NextDivMod(slot, spf);
    NextDivMod(n / spf, 1024);
  }

  /** The first read's result, once the labels of its sample are known. */
  lemma FirstReadIs(fp: FrameParms, c: Clock, ts: int, n: nat, into: nat)
    requires fp.Valid() && c.firstRx && Begins(fp, ts - c.tsOffset, n, into)
    ensures RxRf(fp, c, ts)
         == Align(fp.slotsPerFrame, Labelled(c, ts - c.tsOffset, n / fp.slotsPerFrame % 1024, n % fp.slotsPerFrame),
                  into, SamplesPerSlot(fp, n % fp.slotsPerFrame))
  {
    FirstLabels(fp, ts - c.tsOffset, n, into);
  }

  /** A clock whose next read ends the process: its frame counter is 1024, which no sample ever
      shows, or its logical time is a frame or more before the stream's start while the loop counts
      on; negative time is always labelled slot 0. */
  predicate Doomed(fp: FrameParms, d: Clock)
    requires fp.Valid()
  {
    && !d.firstRx && !d.failed
    && ((d.frame == 1024 && d.slot == 0) || (0 <= d.slot <= 1 && d.timestampRx + fp.samplesPerFrame <= SlotStart(fp, d.slot)))
  }

  /** First logical times that doom the clock: inside the last slot of frame 1023, or a frame or
      more before zero. */
  predicate BadTime(fp: FrameParms, t: int)
    requires fp.Valid()
  {
    if t < 0 then t + fp.samplesPerFrame <= 0
    else FrameOf(fp, t) == 1023 && SlotOf(fp, t) == fp.slotsPerFrame - 1 && IntoSlot(fp, t, SlotOf(fp, t)) > 0
  }

  /** The slot the clock is on after the first read: the one that starts at the first sample or
      next after it; slot 1 if the first sample is less than a frame before zero. */
  function FirstSlot(fp: FrameParms, t: int): nat
    requires fp.Valid()
  {
    if t < 0 then 1
    else
      var slot := SlotOf(fp, t);
      Times(Quotient(t, fp.samplesPerFrame), fp.slotsPerFrame) + AtLeastZero(slot) + (if IntoSlot(fp, t, slot) > 0 then 1 else 0)
  }

  /** What the first read makes of a clock, for any first logical time t. */
  predicate Aligned(fp: FrameParms, d: Clock, t: int)
    requires fp.Valid()
  {
    if BadTime(fp, t) then Doomed(fp, d) else At(fp, d, FirstSlot(fp, t))
  }

  lemma AlignedByLabels(fp: FrameParms, e: Clock, n: nat, into: nat, len: nat)
    requires fp.Valid() && !e.firstRx && !e.failed
    requires e.timestampRx == SlotStart(fp, n) + into && len == SlotStart(fp, n + 1) - SlotStart(fp, n)
    requires e.slot == n % fp.slotsPerFrame && e.frame == n / fp.slotsPerFrame % 1024
    ensures var d := Align(fp.slotsPerFrame, e, into, len);
            if BadStart(fp.slotsPerFrame, n, into) then Doomed(fp, d) else At(fp, d, if into > 0 then n + 1 else n)
  {
    SkipCounters(fp.slotsPerFrame, n, e.frame, e.slot);
  }

  /** Slot and offset of a sample from zero on. */
  lemma StreamPosition(fp: FrameParms, t: nat) returns (n: nat, into: nat)
    requires fp.Valid()
    ensures Begins(fp, t, n, into)
    ensures BadStart(fp.slotsPerFrame, n, into) <==> BadTime(fp, t)
    ensures (if into > 0 then n + 1 else n) == FirstSlot(fp, t)
  {
    var q, x := Euclid(t, fp.samplesPerFrame);
    SlotFromTimestampIsRight(fp, t);
    var r: nat := SlotFromTimestamp(fp, t);
    n := Times(q, fp.slotsPerFrame) + r;
    FramesAddUp(fp, q, r);
    FramesAddUp(fp, q, r + 1);
    SamplesPerSlotIsTheSum(fp, n);
    into := x - SlotStart(fp, r);
    FirstLabels(fp, t, n, into);
    ModUnique(n, fp.slotsPerFrame, q, r);
  }

  lemma StartFromZeroOn(fp: FrameParms, c: Clock, ts: int)
    requires fp.Valid() && c.firstRx && !c.failed && ts - c.tsOffset >= 0
    ensures Aligned(fp, RxRf(fp, c, ts), ts - c.tsOffset)
  {
    var n, into := StreamPosition(fp, ts - c.tsOffset);
    FirstReadIs(fp, c, ts, n, into);
    FirstLabels(fp, ts - c.tsOffset, n, into);
    AlignedByLabels(fp, Labelled(c, ts - c.tsOffset, n / fp.slotsPerFrame % 1024, n % fp.slotsPerFrame), n, into,
                    SamplesPerSlot(fp, n % fp.slotsPerFrame));
  }

  /** Quotient and remainder of a negative time, as C computes them. */
  lemma NegativeLabels(fp: FrameParms, q: nat, x: nat)
    requires fp.Valid() && x < fp.samplesPerFrame && Times(q, fp.samplesPerFrame) + x > 0
    ensures var t := -(Times(q, fp.samplesPerFrame) + x);
            FrameOf(fp, t) == (0 - q) % 1024 && SlotOf(fp, t) == 0 && IntoSlot(fp, t, 0) == 0 - x
  {
    ModUnique(Times(q, fp.samplesPerFrame) + x, fp.samplesPerFrame, q, x);
  }

  lemma OneFrameOrMore(q: nat, frame: nat)
    requires q >= 1
    ensures Times(q, frame) >= frame
  {
    AddOneFactor(q - 1, frame);
    assert (q - 1) * frame >= 0;
  }

  lemma StartBeforeZero(fp: FrameParms, c: Clock, ts: int)
    requires fp.Valid() && c.firstRx && !c.failed && ts - c.tsOffset < 0
    ensures Aligned(fp, RxRf(fp, c, ts), ts - c.tsOffset)
  {
    var t := ts - c.tsOffset;
    var q, x := Euclid(-t, fp.samplesPerFrame);
    NegativeLabels(fp, q, x);
    SamplesPerSlotIsTheSum(fp, 0);
    AlignBeforeZero(fp, Labelled(c, t, FrameOf(fp, t), 0), q, x);
  }

  lemma AlignBeforeZero(fp: FrameParms, e: Clock, q: nat, x: nat)
    requires fp.Valid() && !e.firstRx && !e.failed && x < fp.samplesPerFrame && Times(q, fp.samplesPerFrame) + x > 0
    requires e.timestampRx == -(Times(q, fp.samplesPerFrame) + x) && e.slot == 0 && e.frame == (0 - q) % 1024
    ensures Aligned(fp, Align(fp.slotsPerFrame, e, 0 - x, SamplesPerSlot(fp, 0)), e.timestampRx)
  {
    SamplesPerSlotIsTheSum(fp, 0);
    ModUnique(1, fp.slotsPerFrame, 0, 1);
    if q >= 1 {
      OneFrameOrMore(q, fp.samplesPerFrame);
    } else {
      assert Times(q, fp.samplesPerFrame) == 0;
    }
  }

  /** The first read, whatever the device reports. */
  lemma FirstReadAligns(fp: FrameParms, c: Clock, ts: int)
    requires fp.Valid() && c.firstRx && !c.failed
    ensures Aligned(fp, RxRf(fp, c, ts), ts - c.tsOffset)
  {
    if ts - c.tsOffset >= 0 {
      StartFromZeroOn(fp, c, ts);
    } else {
      StartBeforeZero(fp, c, ts);
    }
  }

  /** The first read leaves the offset as it was, and the labels of the sample it read: after a skip
      the loop's slot is the next one. */
  lemma FirstReadLabels(fp: FrameParms, c: Clock, ts: int)
    requires fp.Valid() && c.firstRx
    ensures var d, t := RxRf(fp, c, ts), ts - c.tsOffset;
            && d.tsOffset == c.tsOffset && d.frameRx == FrameOf(fp, t) && d.ttiRx == SlotOf(fp, t)
            && (d.timestampRx == t && IntoSlot(fp, t, SlotOf(fp, t)) == 0 ==> d.slot == d.ttiRx && d.frame == d.frameRx)
            && (IntoSlot(fp, t, SlotOf(fp, t)) != 0 ==> d.slot == (d.ttiRx + 1) % fp.slotsPerFrame)
  {
  }

  lemma OverflowedFrameFails(fp: FrameParms, c: Clock, ts: int)
    requires fp.Valid() && !c.firstRx && c.frame == 1024 && c.slot == 0
    ensures RxRf(fp, NextSlot(fp, c), ts).failed
  {
    var e := Absorb(NextSlot(fp, c), PrevLen(fp, 1), ts);
    assert FrameOf(fp, e.timestampRx) < 1024;
  }

  lemma NegativeTimeFails(fp: FrameParms, c: Clock, ts: int)
    requires fp.Valid() && !c.firstRx && 0 <= c.slot <= 1 && c.timestampRx + fp.samplesPerFrame <= SlotStart(fp, c.slot)
    ensures RxRf(fp, NextSlot(fp, c), ts).failed
  {
    SamplesPerSlotIsTheSum(fp, c.slot);
    SamplesPerSlotIsTheSum(fp, c.slot + 1);
    EndOfFrame(fp, c.slot + 1);
    var e := Absorb(NextSlot(fp, c), PrevLen(fp, c.slot + 1), ts);
    assert e.timestampRx == c.timestampRx + SamplesPerSlot(fp, c.slot) < 0;
    assert SlotOf(fp, e.timestampRx) == 0;
  }

  /** What `count` reads make of a clock whose first read was at a bad time or in slot `first`. */
  predicate Outcome(fp: FrameParms, d: Clock, bad: bool, first: nat, count: nat)
    requires fp.Valid() && count >= 1
  {
    && !d.firstRx
    && (d.failed <==> count >= 2 && bad)
    && (count == 1 && bad ==> Doomed(fp, d))
    && (!bad ==> At(fp, d, first + count - 1))
  }

  /** From power-up, for any device: the counter checks fail if and only if the first logical time
      is a bad one and at least two slots have been read; otherwise every read is one slot further. */
  lemma ClockFailsIff(fp: FrameParms, c: Clock, ts: seq<int>)
    requires fp.Valid() && c.firstRx && !c.failed && |ts| >= 1
    ensures var t := ts[0] - c.tsOffset;
            Outcome(fp, Reads(fp, c, ts), BadTime(fp, t), FirstSlot(fp, t), |ts|)
  {
    var t := ts[0] - c.tsOffset;
    var bad, first := BadTime(fp, t), FirstSlot(fp, t);
    FirstOutcome(fp, c, ts, bad, first);
    OutcomeOfReads(fp, c, ts, bad, first);
  }

  lemma {:induction false} OutcomeOfReads(fp: FrameParms, c: Clock, ts: seq<int>, bad: bool, first: nat)
    requires fp.Valid() && |ts| >= 1 && Outcome(fp, Reads(fp, c, ts[..1]), bad, first, 1)
    ensures Outcome(fp, Reads(fp, c, ts), bad, first, |ts|)
  {
    var last := |ts| - 1;
    if last == 0 {
      assert ts[..1] == ts;
    } else {
      assert ts[..last][..1] == ts[..1];
      OutcomeOfReads(fp, c, ts[..last], bad, first);
      OneMoreRead(fp, Reads(fp, c, ts[..last]), ts[last], bad, first, last);
    }
  }

  lemma FirstOutcome(fp: FrameParms, c: Clock, ts: seq<int>, bad: bool, first: nat)
    requires fp.Valid() && c.firstRx && !c.failed && |ts| >= 1
    requires bad == BadTime(fp, ts[0] - c.tsOffset) && first == FirstSlot(fp, ts[0] - c.tsOffset)
    ensures Outcome(fp, Reads(fp, c, ts[..1]), bad, first, 1)
  {
    FirstReadAligns(fp, NextSlot(fp, c), ts[0]);
    assert ts[..1][..0] == [];
    assert Reads(fp, c, ts[..1]) == RxRf(fp, NextSlot(fp, c), ts[0]);
  }

  lemma OneMoreRead(fp: FrameParms, c: Clock, ts: int, bad: bool, first: nat, count: nat)
    requires fp.Valid() && count >= 1 && Outcome(fp, c, bad, first, count)
    ensures Outcome(fp, RxRf(fp, NextSlot(fp, c), ts), bad, first, count + 1)
  {
    ClockGoesOn(fp, c, ts, first + count - 1);
  }

  /** One more read: in step it stays in step; failed it stays failed; doomed it fails. */
  lemma ClockGoesOn(fp: FrameParms, c: Clock, ts: int, n: nat)
    requires fp.Valid() && !c.firstRx
    ensures var d := RxRf(fp, NextSlot(fp, c), ts);
            && !d.firstRx
            && (At(fp, c, n) ==> At(fp, d, n + 1))
            && (c.failed ==> d.failed)
            && (Doomed(fp, c) ==> d.failed)
  {
    if At(fp, c, n) {
      TurnIsExact(fp, c, n, ts);
    }
    if Doomed(fp, c) {
      if c.frame == 1024 && c.slot == 0 {
        OverflowedFrameFails(fp, c, ts);
      } else {
        NegativeTimeFails(fp, c, ts);
      }
    }
  }

  // -------------------------------------------------------------------- look-ahead

  function TtiTx(fp: FrameParms, ttiRx: nat, ahead: nat): nat
    requires fp.slotsPerFrame > 0
  {
    (ttiRx + ahead) % fp.slotsPerFrame
  }

  function FrameTx(fp: FrameParms, frameRx: nat, ttiRx: nat, ahead: nat): nat
    requires fp.slotsPerFrame > 0
  {
    if ttiRx > TtiTx(fp, ttiRx, ahead) then (frameRx + 1) % 1024 else frameRx
  }

  /** The loop that adds up the slots in between: `ahead` slots after the one just read. */
  method TimestampTx(fp: FrameParms, timestampRx: int, ttiRx: nat, ahead: nat) returns (timestampTx: int)
    requires fp.Valid()
    ensures timestampTx == timestampRx + SlotStart(fp, ttiRx + ahead) - SlotStart(fp, ttiRx)
  {
    timestampTx := timestampRx;
    for i := ttiRx to ttiRx + ahead
      invariant timestampTx == timestampRx + SlotStart(fp, i) - SlotStart(fp, ttiRx)
    {
      SlotLengthsRepeat(fp, i);
      SamplesPerSlotIsTheSum(fp, i);
      timestampTx := timestampTx + SamplesPerSlot(fp, i % fp.slotsPerFrame);
    }
  }

  /** With the clock on slot n, the loop's sum is exactly the start of slot n + ahead, and the
      transmit slot number is that slot's. */
  lemma LookAheadTime(fp: FrameParms, n: nat, ahead: nat)
    requires fp.Valid()
    ensures var tti := n % fp.slotsPerFrame;
            && SlotStart(fp, n) + SlotStart(fp, tti + ahead) - SlotStart(fp, tti) == SlotStart(fp, n + ahead)
            && TtiTx(fp, tti, ahead) == (n + ahead) % fp.slotsPerFrame
  {
    var q, r := DivMod(n, fp.slotsPerFrame);
    ModUnique(n, fp.slotsPerFrame, q, r);
    FramesAddUp(fp, q, r);
    FramesAddUp(fp, q, r + ahead);
    assert q * fp.slotsPerFrame + (r + ahead) == n + ahead;
    var q2, r2 := DivMod(r + ahead, fp.slotsPerFrame);
    ModUnique(r + ahead, fp.slotsPerFrame, q2, r2);
    SumOfProducts(q, q2, fp.slotsPerFrame);
    ModUnique(n + ahead, fp.slotsPerFrame, q + q2, r2);
  }

  /** The transmit frame number is right, for look-aheads short of 1023 frames, exactly when
      the look-ahead is less than a frame. */
  lemma LookAheadFrameIff(fp: FrameParms, n: nat, ahead: nat)
    requires fp.Valid() && ahead < 1023 * fp.slotsPerFrame
    ensures FrameTx(fp, n / fp.slotsPerFrame % 1024, n % fp.slotsPerFrame, ahead) == (n + ahead) / fp.slotsPerFrame % 1024
       <==> ahead < fp.slotsPerFrame
  {
    var q, r := DivMod(n, fp.slotsPerFrame);
    ModUnique(n, fp.slotsPerFrame, q, r);
    var q2, r2 := DivMod(r + ahead, fp.slotsPerFrame);
    ModUnique(r + ahead, fp.slotsPerFrame, q2, r2);
    SumOfProducts(q, q2, fp.slotsPerFrame);
    ModUnique(n + ahead, fp.slotsPerFrame, q + q2, r2);
    FactorBelow(q2, r2, fp.slotsPerFrame, 1024);
    FramesAhead(fp.slotsPerFrame, r, ahead, q2, r2);
    SameFrameIff(q, q2, r > r2);
  }

  lemma SameFrameIff(q: nat, ahead: nat, carry: bool)
    requires ahead < 1024 && (carry ==> ahead >= 1)
    ensures (if carry then (q % 1024 + 1) % 1024 else q % 1024) == (q + ahead) % 1024 <==> ahead == (if carry then 1 else 0)
  {
    NextDivMod(q, 1024);
    if carry {
      ShiftedMod(q + 1, ahead - 1, 1024);
    } else {
      ShiftedMod(q, ahead, 1024);
    }
  }

  lemma FramesAhead(spf: nat, r: nat, ahead: nat, q2: nat, r2: nat)
    requires r < spf && r2 < spf && r + ahead == q2 * spf + r2
    ensures r > r2 ==> q2 >= 1
    ensures ahead < spf ==> q2 == (if r > r2 then 1 else 0)
    ensures ahead >= spf ==> q2 > 1 || (q2 == 1 && r <= r2)
  {
    if q2 >= 2 {
      assert (q2 - 2) * spf >= 0;
      assert q2 * spf == (q2 - 2) * spf + 2 * spf;
    }
  }
}
