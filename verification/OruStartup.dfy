/** Start-up synchronisation of the O-RU uplink thread: move the anchor slot by slot past
    the first read, then read up to it. `dur` lists the sample count of every slot of a
    frame, as get_samples_slot_duration(fp, slot, 1) returns it. */
module OruStartup {
  import opened Arith
  import opened NrNumerology

  const CHUNK := 3000
  const INT31 := 0x8000_0000

  datatype Outcome =
    | Synced(start: int, frame: nat, slot: nat, samplesRead: nat)
      /** The next read would ask for no samples, or for a negative number of them: the gap
          can no longer close. */
    | Stuck(request: int)

  /** A 64-bit difference squeezed into C's int. */
  function ToInt32(x: int): int {
    var low := x % 0x1_0000_0000;
    if low < INT31 then low else low - 0x1_0000_0000
  }

  predicate ValidDurations(dur: seq<nat>) {
    |dur| > 0 && forall i :: 0 <= i < |dur| ==> 0 < dur[i] < INT31
  }

  /** Samples in the k slots from the start of `slot` on. */
  function Elapsed(dur: seq<nat>, slot: nat, k: nat): nat
    requires |dur| > 0
  {
    if k == 0 then 0 else Elapsed(dur, slot, k - 1) + dur[(slot + k - 1) % |dur|]
  }

  /** k is the least number of slots that brings the anchor to or past the first read. */
  ghost predicate IsSkip(dur: seq<nat>, start: int, slot: nat, next: int, k: nat)
    requires |dur| > 0
  {
    && start + Elapsed(dur, slot, k) >= next
    && forall i: nat :: i < k ==> start + Elapsed(dur, slot, i) < next
  }

  /** The anchor moved k slots on, and its slot and frame numbers with it. */
  ghost predicate IsLabel(dur: seq<nat>, anchor: int, frame0: nat, slot0: nat, k: nat, start: int, frame: nat, slot: nat)
    requires |dur| > 0
  {
    && start == anchor + Elapsed(dur, slot0, k)
    && slot == (slot0 + k) % |dur|
    && frame == (frame0 + (slot0 + k) / |dur|) % 1024
  }

  /** Counting up slot and frame by hand is counting up the slot number. */
  lemma NextLabel(spf: nat, frame0: nat, n: nat)
    requires spf > 0
    ensures var slot, frame := n % spf, (frame0 + n / spf) % 1024;
            && (n + 1) % spf == (if slot + 1 == spf then 0 else slot + 1)
            && (frame0 + (n + 1) / spf) % 1024
               == if slot + 1 == spf then (if frame + 1 == 1024 then 0 else frame + 1) else frame
  {
    NextDivMod(n, spf);
    NextDivMod(frame0 + n / spf, 1024);
  }

  lemma LabelStep(dur: seq<nat>, anchor: int, frame0: nat, slot0: nat, k: nat, start: int, frame: nat, slot: nat)
    requires |dur| > 0 && IsLabel(dur, anchor, frame0, slot0, k, start, frame, slot)
    ensures slot < |dur|
    ensures IsLabel(dur, anchor, frame0, slot0, k + 1, start + dur[slot],
                    if slot + 1 < |dur| then frame else if frame + 1 == 1024 then 0 else frame + 1,
                    if slot + 1 < |dur| then slot + 1 else 0)
  {
    NextLabel(|dur|, frame0, slot0 + k);
  }

  /** The first loop: skip whole slots, wrapping slot and frame numbers. */
  method SkipSlots(dur: seq<nat>, anchor: int, frame0: nat, slot0: nat, next: int)
    returns (start: int, frame: nat, slot: nat)
    requires ValidDurations(dur) && frame0 < 1024 && slot0 < |dur|
    ensures exists k: nat :: IsSkip(dur, anchor, slot0, next, k) && IsLabel(dur, anchor, frame0, slot0, k, start, frame, slot)
    ensures next > anchor ==> start - next < INT31
    ensures next <= anchor ==> start == anchor
  {
    start, frame, slot := anchor, frame0, slot0;
    ghost var k: nat := 0;
    ModUnique(slot0, |dur|, 0, slot0);
    while next > start
      invariant IsLabel(dur, anchor, frame0, slot0, k, start, frame, slot)
      invariant forall i: nat :: i < k ==> anchor + Elapsed(dur, slot0, i) < next
      invariant next > anchor ==> start - next < INT31
      invariant next <= anchor ==> start == anchor
    {
      LabelStep(dur, anchor, frame0, slot0, k, start, frame, slot);
      start := start + dur[slot];
      slot := slot + 1;
      k := k + 1;
      if slot == |dur| {
        slot := 0;
        frame := frame + 1;
        if frame == 1024 {
          frame := 0;
        }
      }
    }
  }

  /** The second loop: read in chunks up to the anchor. It gets there exactly when the gap
      fits in an int. */
  method ReadUpTo(start: int, first: int) returns (ok: bool, next: int, request: int)
    requires first <= start
    ensures ok <==> start - first < INT31
    ensures ok ==> next == start
    ensures !ok ==> request <= 0 && next < start && request == ToInt32(start - next)
  {
    next, request := first, 0;
    while next < start
      invariant first <= next <= start
      invariant start - first < INT31 || start - next >= INT31
    {
      var gap := ToInt32(start - next);
      request := if CHUNK < gap then CHUNK else gap;
      if request <= 0 {
        return false, next, request;
      }
      next := next + request;
    }
    ok := true;
  }

  /** Synchronisation from the anchor label and the first read of CHUNK samples. */
  method Sync(dur: seq<nat>, anchor: int, frame0: nat, slot0: nat, firstTimestamp: int) returns (r: Outcome)
    requires ValidDurations(dur) && frame0 < 1024 && slot0 < |dur|
    ensures r.Synced? <==> anchor - (firstTimestamp + CHUNK) < INT31
    ensures r.Synced? ==> exists k: nat ::
              && IsSkip(dur, anchor, slot0, firstTimestamp + CHUNK, k)
              && IsLabel(dur, anchor, frame0, slot0, k, r.start, r.frame, r.slot)
    ensures r.Synced? ==> r.samplesRead == r.start - firstTimestamp
  {
    var next := firstTimestamp + CHUNK;
    var start, frame, slot := SkipSlots(dur, anchor, frame0, slot0, next);
    var ok, last, request := ReadUpTo(start, next);
    if !ok {
      return Stuck(request);
    }
    r := Synced(start, frame, slot, last - firstTimestamp);
  }

  // ------------------------------------------------------ the lengths really used

  function SlotDuration(fp: FrameParms, start: nat, num: nat): int
    requires fp.Valid()
  {
    if start == 0 && num == 0 then 0 else SlotTimestamp(fp, start + num) - SlotTimestamp(fp, start)
  }

  function OneSlot(fp: FrameParms, slot: nat): (d: nat)
    requires fp.Valid()
    ensures d == SlotDuration(fp, slot, 1) > 0
  {
    SlotTimestampStep(fp, slot);
    SamplesPerSlotIsTheSum(fp, slot);
    SamplesPerSlot(fp, slot)
  }

  function Durations(fp: FrameParms): seq<nat>
    requires fp.Valid()
  {
    seq(fp.slotsPerFrame, i => if i >= 0 then OneSlot(fp, i) else 0)
  }

  /** `dur` lists the true slot lengths. */
  ghost predicate IsDuration(fp: FrameParms, dur: seq<nat>, n: nat)
    requires fp.Valid() && |dur| > 0
  {
    dur[n % |dur|] == SamplesPerSlot(fp, n)
  }

  lemma DurationsAreRight(fp: FrameParms, n: nat)
    requires fp.Valid()
    ensures |Durations(fp)| > 0 && IsDuration(fp, Durations(fp), n)
  {
    SlotLengthsRepeat(fp, n);
  }

  lemma {:induction false} ElapsedSums(fp: FrameParms, dur: seq<nat>, slot: nat, k: nat)
    requires fp.Valid() && |dur| > 0 && forall n: nat :: IsDuration(fp, dur, n)
    ensures SlotStart(fp, slot + k) == SlotStart(fp, slot) + Elapsed(dur, slot, k)
  {
    if k > 0 {
      var n := slot + k - 1;
      ElapsedSums(fp, dur, slot, k - 1);
      SamplesPerSlotIsTheSum(fp, n);
      assert IsDuration(fp, dur, n);
    }
  }

  /** Skipping k slots moves the anchor by the true distance between two slot starts. */
  lemma ElapsedIsTheSum(fp: FrameParms, slot: nat, k: nat)
    requires fp.Valid()
    ensures |Durations(fp)| > 0
    ensures SlotStart(fp, slot + k) == SlotStart(fp, slot) + Elapsed(Durations(fp), slot, k)
  {
    forall n: nat
      ensures |Durations(fp)| > 0 && IsDuration(fp, Durations(fp), n)
    {
      DurationsAreRight(fp, n);
    }
    ElapsedSums(fp, Durations(fp), slot, k);
  }
}
