/** Sample arithmetic of the NR frame with normal cyclic prefix
    (section 5.3.1 of 3GPP TS 38.211).

    `SymbolStart` is the reference: the running sum of symbol lengths, where the
    standard says which symbols carry the long prefix. Everything else mirrors the
    closed formulas of the code, and the lemmas tie each of them to that sum. */
module NrNumerology {
  import opened Arith

  /** The fields of the frame-parameter record that the sample arithmetic reads. */
  datatype FrameParms = FrameParms(mu: nat, ofdm: nat, cp: nat, cp0: nat,
                                   slotsPerSubframe: nat, slotsPerFrame: nat,
                                   samplesPerSlotN0: nat, samplesPerSlot0: nat,
                                   samplesPerSubframe: nat, samplesPerFrame: nat)
  {
    /** What initialisation establishes, numerology by numerology. */
    predicate Valid() {
      && 0 < ofdm && cp <= cp0
      && slotsPerFrame == 10 * slotsPerSubframe
      && samplesPerSlotN0 == 14 * (cp + ofdm)
      && samplesPerSlot0 == cp0 + 13 * cp + 14 * ofdm
      && samplesPerFrame == 10 * samplesPerSubframe
      && match mu
         case 0 => slotsPerSubframe == 1 && samplesPerSubframe == 2 * (cp0 + ofdm) + 12 * (cp + ofdm)
         case 1 => slotsPerSubframe == 2 && samplesPerSubframe == 2 * (cp0 + ofdm) + 26 * (cp + ofdm)
         case 2 => slotsPerSubframe == 4 && samplesPerSubframe == 2 * (cp0 + ofdm) + 54 * (cp + ofdm)
         case 3 => slotsPerSubframe == 8 && samplesPerSubframe == 2 * (cp0 + ofdm) + 110 * (cp + ofdm)
         case 4 => slotsPerSubframe == 16 && samplesPerSubframe == 2 * (cp0 + ofdm) + 222 * (cp + ofdm)
         case _ => false
    }

    /** slots_per_subframe / 2, the divisor used for every numerology but 0. */
    function HalfSlots(): nat { slotsPerSubframe / 2 }

    /** slot / (slots_per_subframe / 2), spelled out for its four divisors. */
    function HalfOfSlot(slot: nat): nat {
      match mu
      case 1 => slot
      case 2 => slot / 2
      case 3 => slot / 4
      case 4 => slot / 8
      case _ => 0
    }

    /** slot % (slots_per_subframe / 2), with the sign of C's remainder. */
    function SlotInHalf(slot: int): int {
      match mu
      case 1 => 0
      case 2 => if slot >= 0 then slot % 2 else -((-slot) % 2)
      case 3 => if slot >= 0 then slot % 4 else -((-slot) % 4)
      case 4 => if slot >= 0 then slot % 8 else -((-slot) % 8)
      case _ => 0
    }

    /** Position of a symbol in its subframe: n % (14 * slots_per_subframe). */
    function SymbolInSubframe(n: nat): nat {
      match mu
      case 0 => n % 14
      case 1 => n % 28
      case 2 => n % 56
      case 3 => n % 112
      case _ => n % 224
    }

    function ShortLen(): nat { cp + ofdm }

    function LongLen(): nat { cp0 + ofdm }
  }

  /** The slots-per-subframe table and the sums of oru_init_frame_parms. (The gNB's own
      initialisation sets samplesPerSlot0 to a whole subframe for numerology 0, where no
      formula below can tell the difference.) */
  function InitFrameParms(mu: nat, ofdm: nat, cp: nat, cp0: nat): (fp: FrameParms)
    requires mu <= 4 && 0 < ofdm && cp <= cp0
    ensures fp.Valid()
  {
    var spsf := [1, 2, 4, 8, 16][mu];
    var subframe := (cp0 + ofdm) * 2 + (cp + ofdm) * (14 * spsf - 2);
    FrameParms(mu, ofdm, cp, cp0, spsf, 10 * spsf, (cp + ofdm) * 14, cp0 + 13 * cp + 14 * ofdm,
               subframe, 10 * subframe)
  }

  // ---------------------------------------------------------------- reference

  /** Section 5.3.1 of 3GPP TS 38.211: in a subframe of 14 * 2^mu symbols the long
      prefix belongs to symbols 0 and 7 * 2^mu. */
  predicate LongPrefix(fp: FrameParms, n: nat)
    requires fp.Valid()
  {
    var l := fp.SymbolInSubframe(n);
    l == 0 || l == 7 * fp.slotsPerSubframe
  }

  function SymbolLen(fp: FrameParms, n: nat): nat
    requires fp.Valid()
  {
    if LongPrefix(fp, n) then fp.LongLen() else fp.ShortLen()
  }

  /** First sample of the n-th symbol counted from the start of a frame. */
  function SymbolStart(fp: FrameParms, n: nat): nat
    requires fp.Valid()
  {
    if n == 0 then 0 else SymbolStart(fp, n - 1) + SymbolLen(fp, n - 1)
  }

  function SlotStart(fp: FrameParms, slot: nat): nat
    requires fp.Valid()
  {
    SymbolStart(fp, 14 * slot)
  }

  // ---------------------------------------------------------- the code's forms

  function SamplesPerSlot(fp: FrameParms, slot: int): nat
    requires fp.Valid()
  {
    if fp.mu == 0 then fp.samplesPerSubframe
    else if fp.SlotInHalf(slot) != 0 then fp.samplesPerSlotN0 else fp.samplesPerSlot0
  }

  function SymbolDuration(fp: FrameParms, slot: nat, start: nat, num: nat): nat
    requires fp.Valid() && 1 <= num && start + num <= 14
  {
    var end := start + num - 1;
    if num == 14 then SamplesPerSlot(fp, slot)
    else if fp.mu == 0 then
      var added := (if start == 0 then 1 else 0) + (if start <= 7 <= end then 1 else 0);
      (if start == 0 then fp.cp0 + fp.ofdm else 0)
      + (if start <= 7 <= end then fp.cp0 + fp.ofdm else 0)
      + Times(AtLeastZero(num - added), fp.cp + fp.ofdm)
    else
      var added := if start == 0 then 1 else 0;
      (if start == 0 then (if fp.SlotInHalf(slot) != 0 then fp.cp else fp.cp0) + fp.ofdm else 0)
      + Times(num - added, fp.cp + fp.ofdm)
  }

  function SymbolTimestamp(fp: FrameParms, slot: nat, symbol: nat): nat
    requires fp.Valid() && symbol < 14
  {
    if symbol == 0 then 0 else SymbolDuration(fp, slot, 0, symbol)
  }

  function SlotTimestamp(fp: FrameParms, slot: nat): nat
    requires fp.Valid()
  {
    if slot == 0 then 0
    else if fp.mu == 0 then Times(slot, fp.samplesPerSubframe)
    else HalvesAndSlots(fp, fp.HalfOfSlot(slot), fp.SlotInHalf(slot))
  }

  function HalvesAndSlots(fp: FrameParms, halves: nat, rem: int): nat
    requires fp.Valid()
  {
    Times(halves, fp.samplesPerSubframe) / 2
    + (if rem > 0 then fp.samplesPerSlot0 + Times(rem - 1, fp.samplesPerSlotN0) else 0)
  }

  /** The slot a sample belongs to. `whole` is the ceiling of rem / samples_per_slotN0. */
  function SlotFromTimestamp(fp: FrameParms, timestamp: nat): int
    requires fp.Valid()
  {
    SlotInFrame(fp, timestamp % fp.samplesPerFrame)
  }

  function SlotInFrame(fp: FrameParms, t: nat): int
    requires fp.Valid()
  {
    if t < fp.samplesPerSlot0 then 0
    else if fp.mu == 0 then t / fp.samplesPerSubframe
    else
      var half := fp.samplesPerSubframe / 2;
      var halves := t / half;
      var index := halves * half - 1 + fp.samplesPerSlot0;
      var whole := if index < t then (t - index + fp.samplesPerSlotN0 - 1) / fp.samplesPerSlotN0 else 0;
      halves * fp.HalfSlots() + 1 + whole - 1
  }

  /** The prefix choice made when a symbol is emitted: true for the long one. */
  predicate EmitsLongPrefix(fp: FrameParms, slot: nat, symbol: nat)
    requires fp.Valid()
  {
    if fp.mu != 0 then fp.SlotInHalf(slot) == 0 && symbol == 0 else symbol % 7 == 0
  }

  // -------------------------------------------------------------------- lemmas

  /** The emitter takes the long-prefix branch exactly where the standard puts it. */
  lemma EmittedPrefixIsTheStandardOne(fp: FrameParms, slot: nat, symbol: nat)
    requires fp.Valid() && symbol < 14
    ensures EmitsLongPrefix(fp, slot, symbol) <==> LongPrefix(fp, 14 * slot + symbol)
  {
    if fp.mu == 0 {
      SymbolOfSlot(slot, symbol, 1);
    } else {
      PrefixAt(slot, symbol, fp.HalfSlots());
      LiteralDivisors(fp, slot, 14 * slot + symbol);
    }
  }

  /** The spelled-out divisors are slots_per_subframe / 2 and 14 * slots_per_subframe. */
  lemma LiteralDivisors(fp: FrameParms, slot: nat, n: nat)
    requires fp.Valid() && fp.mu != 0
    ensures fp.HalfSlots() > 0 && fp.slotsPerSubframe == 2 * fp.HalfSlots()
    ensures fp.SlotInHalf(slot) == slot % fp.HalfSlots() && fp.HalfOfSlot(slot) == slot / fp.HalfSlots()
    ensures fp.SymbolInSubframe(n) == n % (28 * fp.HalfSlots())
  {
  }

  lemma PrefixAt(slot: nat, symbol: nat, h: nat)
    requires h > 0 && symbol < 14
    ensures slot % h == 0 && symbol == 0
       <==> (14 * slot + symbol) % (28 * h) == 0 || (14 * slot + symbol) % (28 * h) == 14 * h
  {
    SymbolOfSlot(slot, symbol, 2 * h);
    ModOfDouble(slot, h);
  }

  lemma SymbolOfSlot(slot: nat, symbol: nat, slots: nat)
    requires slots > 0 && symbol < 14
    ensures (14 * slot + symbol) % (14 * slots) == 14 * (slot % slots) + symbol
  {
    var q, r := slot / slots, slot % slots;
    ModUnique(14 * slot + symbol, 14 * slots, q, 14 * r + symbol);
  }

  lemma OneSymbol(fp: FrameParms, slot: nat, k: nat)
    requires fp.Valid() && k < 14
    ensures SymbolStart(fp, 14 * slot + k + 1) == SymbolStart(fp, 14 * slot + k)
            + (if EmitsLongPrefix(fp, slot, k) then fp.LongLen() else fp.ShortLen())
  {
    EmittedPrefixIsTheStandardOne(fp, slot, k);
  }

  /** What the long prefixes among the first k symbols of a slot add. */
  function ExtraBefore(fp: FrameParms, slot: nat, k: nat): int
    requires fp.Valid() && k <= 14
  {
    var d := fp.cp0 - fp.cp;
    if k == 0 then 0
    else if fp.mu == 0 then if k <= 7 then d else 2 * d
    else if fp.SlotInHalf(slot) == 0 then d else 0
  }

  lemma OneMoreSymbol(fp: FrameParms, slot: nat, k: nat)
    requires fp.Valid() && k < 14
    ensures (k + 1) * fp.ShortLen() + ExtraBefore(fp, slot, k + 1)
         == k * fp.ShortLen() + ExtraBefore(fp, slot, k) + (if EmitsLongPrefix(fp, slot, k) then fp.LongLen() else fp.ShortLen())
  {
    AddOneFactor(k, fp.ShortLen());
  }

  /** First sample of symbol k of a slot (k = 14: of the next slot). */
  lemma {:induction false} StartInSlot(fp: FrameParms, slot: nat, k: nat)
    requires fp.Valid() && k <= 14
    ensures SymbolStart(fp, 14 * slot + k) == SlotStart(fp, slot) + k * fp.ShortLen() + ExtraBefore(fp, slot, k)
  {
    if k > 0 {
      StartInSlot(fp, slot, k - 1);
      OneSymbol(fp, slot, k - 1);
      OneMoreSymbol(fp, slot, k - 1);
    }
  }

  lemma DurationInShorts(fp: FrameParms, slot: nat, start: nat, num: nat)
    requires fp.Valid() && 1 <= num && start + num <= 14
    ensures SymbolDuration(fp, slot, start, num)
         == num * fp.ShortLen() + ExtraBefore(fp, slot, start + num) - ExtraBefore(fp, slot, start)
  {
    AddOneFactor(num - 1, fp.ShortLen());
    AddOneFactor(num - 2, fp.ShortLen());
  }

  /** Every symbol-range duration is the sum of its symbols' lengths. */
  lemma SymbolDurationIsTheSum(fp: FrameParms, slot: nat, start: nat, num: nat)
    requires fp.Valid() && 1 <= num && start + num <= 14
    ensures SymbolStart(fp, 14 * slot + start + num) == SymbolStart(fp, 14 * slot + start) + SymbolDuration(fp, slot, start, num)
  {
    StartInSlot(fp, slot, start);
    StartInSlot(fp, slot, start + num);
    DurationInShorts(fp, slot, start, num);
    SumOfProducts(start, num, fp.ShortLen());
  }

  lemma SumOfProducts(a: int, b: int, s: int)
    ensures (a + b) * s == a * s + b * s
  {
  }

  lemma SamplesPerSlotIsTheSum(fp: FrameParms, slot: nat)
    requires fp.Valid()
    ensures SlotStart(fp, slot + 1) == SlotStart(fp, slot) + SamplesPerSlot(fp, slot)
    ensures SamplesPerSlot(fp, slot) > 0
  {
    SymbolDurationIsTheSum(fp, slot, 0, 14);
    assert 14 * slot + 0 + 14 == 14 * (slot + 1);
  }

  /** Half a subframe, the unit get_samples_slot_timestamp counts in. */
  function HalfLen(fp: FrameParms): nat
    requires fp.Valid()
  {
    fp.samplesPerSubframe / 2
  }

  lemma HalvesTimesSubframe(q: nat, sub: nat, half: nat)
    requires sub == 2 * half
    ensures Times(q, sub) / 2 == q * half
  {
    assert q * sub == 2 * (q * half);
  }

  /** The slots of the last, unfinished half subframe. */
  function Tail(fp: FrameParms, r: int): int
    requires fp.Valid()
  {
    if r > 0 then fp.samplesPerSlot0 + Times(r - 1, fp.samplesPerSlotN0) else 0
  }

  lemma SlotTimestampByHalves(fp: FrameParms, slot: nat)
    requires fp.Valid() && fp.mu != 0
    ensures SlotTimestamp(fp, slot) == fp.HalfOfSlot(slot) * HalfLen(fp) + Tail(fp, fp.SlotInHalf(slot))
  {
    CountHalves(fp, fp.HalfOfSlot(slot), fp.SlotInHalf(slot));
  }

  lemma CountHalves(fp: FrameParms, halves: nat, rem: int)
    requires fp.Valid() && fp.mu != 0
    ensures HalvesAndSlots(fp, halves, rem) == halves * HalfLen(fp) + Tail(fp, rem)
  {
    EvenSubframe(fp);
    HalvesTimesSubframe(halves, fp.samplesPerSubframe, HalfLen(fp));
  }

  lemma EvenSubframe(fp: FrameParms)
    requires fp.Valid()
    ensures fp.samplesPerSubframe == 2 * HalfLen(fp)
  {
    var shorts := match fp.mu case 0 => 6 case 1 => 13 case 2 => 27 case 3 => 55 case _ => 111;
    Halve(fp.samplesPerSubframe, fp.cp0 + fp.ofdm + shorts * (fp.cp + fp.ofdm));
  }

  lemma Halve(x: int, half: int)
    requires x == 2 * half
    ensures x / 2 == half
  {
  }

  lemma NextSlotInHalf(fp: FrameParms, slot: nat)
    requires fp.Valid() && fp.mu != 0
    ensures var q, r := fp.HalfOfSlot(slot), fp.SlotInHalf(slot);
            && 0 <= r < fp.HalfSlots()
            && (if r + 1 < fp.HalfSlots() then fp.HalfOfSlot(slot + 1) == q && fp.SlotInHalf(slot + 1) == r + 1
                else fp.HalfOfSlot(slot + 1) == q + 1 && fp.SlotInHalf(slot + 1) == 0)
  {
  }

  /** A half subframe is full after HalfSlots() slots. */
  lemma TailStep(fp: FrameParms, r: nat)
    requires fp.Valid() && fp.mu != 0 && r < fp.HalfSlots()
    ensures (if r + 1 < fp.HalfSlots() then Tail(fp, r + 1) else HalfLen(fp))
         == Tail(fp, r) + (if r == 0 then fp.samplesPerSlot0 else fp.samplesPerSlotN0)
  {
    AddOneFactor(r - 1, fp.samplesPerSlotN0);
  }

  /** get_samples_slot_timestamp grows by one slot length per slot. */
  lemma SlotTimestampStep(fp: FrameParms, slot: nat)
    requires fp.Valid()
    ensures SlotTimestamp(fp, slot + 1) == SlotTimestamp(fp, slot) + SamplesPerSlot(fp, slot)
  {
    if fp.mu == 0 {
      AddOneFactor(slot, fp.samplesPerSubframe);
    } else {
      SlotTimestampByHalves(fp, slot);
      SlotTimestampByHalves(fp, slot + 1);
      NextSlotInHalf(fp, slot);
      TailStep(fp, fp.SlotInHalf(slot));
      AddOneFactor(fp.HalfOfSlot(slot), HalfLen(fp));
    }
  }

  /** get_samples_slot_timestamp is the sum of all symbol lengths before the slot. */
  lemma {:induction false} SlotTimestampIsTheSum(fp: FrameParms, slot: nat)
    requires fp.Valid()
    ensures SlotTimestamp(fp, slot) == SlotStart(fp, slot)
  {
    if slot > 0 {
      SlotTimestampIsTheSum(fp, slot - 1);
      SlotTimestampStep(fp, slot - 1);
      SamplesPerSlotIsTheSum(fp, slot - 1);
    }
  }

  /** get_samples_symbol_timestamp continues the slot's own start. */
  lemma SymbolTimestampIsTheSum(fp: FrameParms, slot: nat, symbol: nat)
    requires fp.Valid() && symbol < 14
    ensures SlotTimestamp(fp, slot) + SymbolTimestamp(fp, slot, symbol) == SymbolStart(fp, 14 * slot + symbol)
  {
    SlotTimestampIsTheSum(fp, slot);
    if symbol > 0 {
      SymbolDurationIsTheSum(fp, slot, 0, symbol);
    }
  }

  lemma TwentyHalves(fp: FrameParms, slot: nat)
    requires fp.Valid() && fp.mu != 0
    ensures fp.HalfOfSlot(slot + fp.slotsPerFrame) == fp.HalfOfSlot(slot) + 20
    ensures fp.SlotInHalf(slot + fp.slotsPerFrame) == fp.SlotInHalf(slot)
    ensures fp.samplesPerFrame == 20 * HalfLen(fp)
  {
    EvenSubframe(fp);
    match fp.mu {
      case 1 =>
      case 2 => TwentyMore(slot, 2);
      case 3 => TwentyMore(slot, 4);
      case 4 => TwentyMore(slot, 8);
    }
  }

  lemma TwentyMore(slot: nat, d: nat)
    requires d > 0
    ensures (slot + 20 * d) / d == slot / d + 20 && (slot + 20 * d) % d == slot % d
  {
    var q, r := Euclid(slot, d);
    SumOfProducts(q, 20, d);
    ModUnique(slot + 20 * d, d, q + 20, r);
  }

  /** The pattern of symbol lengths repeats every frame of samplesPerFrame samples. */
  lemma OneFrame(fp: FrameParms, slot: nat)
    requires fp.Valid()
    ensures SlotStart(fp, slot + fp.slotsPerFrame) == SlotStart(fp, slot) + fp.samplesPerFrame
  {
    SlotTimestampIsTheSum(fp, slot);
    SlotTimestampIsTheSum(fp, slot + fp.slotsPerFrame);
    if fp.mu == 0 {
      SumOfProducts(slot, 10, fp.samplesPerSubframe);
    } else {
      TwentyHalves(fp, slot);
      SlotTimestampByHalves(fp, slot);
      SlotTimestampByHalves(fp, slot + fp.slotsPerFrame);
      SumOfProducts(fp.HalfOfSlot(slot), 20, HalfLen(fp));
    }
  }

  lemma {:induction false} FramesLater(fp: FrameParms, frames: nat, slot: nat, n: nat)
    requires fp.Valid() && n == frames * fp.slotsPerFrame + slot
    ensures SlotStart(fp, n) == frames * fp.samplesPerFrame + SlotStart(fp, slot)
    decreases frames
  {
    if frames > 0 {
      AddOneFactor(frames - 1, fp.slotsPerFrame);
      AddOneFactor(frames - 1, fp.samplesPerFrame);
      EarlierFrame(frames - 1, fp.slotsPerFrame, slot, n);
      FramesLater(fp, frames - 1, slot, n - fp.slotsPerFrame);
      OneFrame(fp, n - fp.slotsPerFrame);
    }
  }

  lemma EarlierFrame(frames: nat, spf: nat, slot: nat, n: nat)
    requires n == frames * spf + spf + slot
    ensures n >= spf
  {
  }

  lemma FramesAddUp(fp: FrameParms, frames: nat, slot: nat)
    requires fp.Valid()
    ensures frames * fp.slotsPerFrame >= 0
    ensures SlotStart(fp, frames * fp.slotsPerFrame + slot) == frames * fp.samplesPerFrame + SlotStart(fp, slot)
  {
    FramesLater(fp, frames, slot, Times(frames, fp.slotsPerFrame) + slot);
  }

  /** The same symbol of a later frame starts that many whole frames later. */
  lemma SymbolFramesLater(fp: FrameParms, frames: nat, slot: nat, symbol: nat)
    requires fp.Valid() && symbol < 14
    ensures SymbolStart(fp, 14 * (frames * fp.slotsPerFrame + slot) + symbol)
         == frames * fp.samplesPerFrame + SymbolStart(fp, 14 * slot + symbol)
  {
    FramesAddUp(fp, frames, slot);
    FramesKeepPhase(fp, frames, slot);
    StartInSlot(fp, slot, symbol);
    StartInSlot(fp, frames * fp.slotsPerFrame + slot, symbol);
  }

  lemma {:induction false} FramesKeepPhase(fp: FrameParms, frames: nat, slot: nat)
    requires fp.Valid() && frames * fp.slotsPerFrame >= 0
    ensures fp.SlotInHalf(frames * fp.slotsPerFrame + slot) == fp.SlotInHalf(slot)
  {
    if frames > 0 && fp.mu != 0 {
      var n := (frames - 1) * fp.slotsPerFrame + slot;
      AddOneFactor(frames - 1, fp.slotsPerFrame);
      assert frames * fp.slotsPerFrame + slot == n + fp.slotsPerFrame;
      FramesKeepPhase(fp, frames - 1, slot);
      TwentyHalves(fp, n);
    }
  }

  lemma SlotLengthsRepeat(fp: FrameParms, slot: nat)
    requires fp.Valid()
    ensures SamplesPerSlot(fp, slot) == SamplesPerSlot(fp, slot % fp.slotsPerFrame)
  {
    var q, r := DivMod(slot, fp.slotsPerFrame);
    ModUnique(slot, fp.slotsPerFrame, q, r);
    FramesKeepPhase(fp, q, r);
  }

  lemma {:induction false} StartsIncrease(fp: FrameParms, a: nat, b: nat)
    requires fp.Valid() && a < b
    ensures SlotStart(fp, a) < SlotStart(fp, b)
    decreases b
  {
    SamplesPerSlotIsTheSum(fp, b - 1);
    if a < b - 1 {
      StartsIncrease(fp, a, b - 1);
    }
  }

  /** get_slot_from_timestamp names the one slot of the frame that holds the sample. */
  lemma SlotFromTimestampIsRight(fp: FrameParms, timestamp: nat)
    requires fp.Valid()
    ensures var s := SlotFromTimestamp(fp, timestamp);
            && 0 <= s < fp.slotsPerFrame
            && SlotStart(fp, s) <= timestamp % fp.samplesPerFrame < SlotStart(fp, s + 1)
  {
    SlotInFrameIsRight(fp, timestamp % fp.samplesPerFrame);
  }

  lemma SlotInFrameIsRight(fp: FrameParms, t: nat)
    requires fp.Valid() && t < fp.samplesPerFrame
    ensures 0 <= SlotInFrame(fp, t) < fp.slotsPerFrame
    ensures SlotStart(fp, SlotInFrame(fp, t)) <= t < SlotStart(fp, SlotInFrame(fp, t) + 1)
  {
    if t < fp.samplesPerSlot0 {
      SamplesPerSlotIsTheSum(fp, 0);
    } else if fp.mu == 0 {
      SlotOfSubframe(fp, t, t / fp.samplesPerSubframe);
    } else {
      SlotInSomeHalf(fp, t);
    }
  }

  lemma SlotInSomeHalf(fp: FrameParms, t: nat)
    requires fp.Valid() && fp.mu != 0 && fp.samplesPerSlot0 <= t < fp.samplesPerFrame
    ensures 0 <= SlotInFrame(fp, t) < fp.slotsPerFrame
    ensures SlotStart(fp, SlotInFrame(fp, t)) <= t < SlotStart(fp, SlotInFrame(fp, t) + 1)
  {
    var q, x := DivMod(t, HalfLen(fp));
    SlotInHalfIsRight(fp, t, q, x);
  }

  lemma DivMod(t: nat, d: nat) returns (q: nat, r: nat)
    requires d > 0
    ensures t == q * d + r && r < d
    ensures q == t / d
  {
    q, r := t / d, t % d;
  }

  lemma SlotOfSubframe(fp: FrameParms, t: nat, s: nat)
    requires fp.Valid() && fp.mu == 0 && t < fp.samplesPerFrame && s == t / fp.samplesPerSubframe
    ensures s < fp.slotsPerFrame
    ensures SlotStart(fp, s) <= t < SlotStart(fp, s + 1)
  {
    var _, _ := DivMod(t, fp.samplesPerSubframe);
    QuotientBelow(t, fp.samplesPerSubframe, 10);
    SlotTimestampIsTheSum(fp, s);
    SlotTimestampIsTheSum(fp, s + 1);
    AddOneFactor(s, fp.samplesPerSubframe);
  }

  /** The slot count of the last case: q half subframes and x samples into the next. */
  lemma CountInHalf(fp: FrameParms, t: nat, q: nat, x: nat) returns (k: nat, s: nat)
    requires fp.Valid() && fp.mu != 0 && x < HalfLen(fp)
    requires fp.samplesPerSlot0 <= t == q * HalfLen(fp) + x
    ensures SlotInFrame(fp, t) == s == q * fp.HalfSlots() + k
    ensures k < fp.HalfSlots()
    ensures Tail(fp, k) <= x < Tail(fp, k) + (if k == 0 then fp.samplesPerSlot0 else fp.samplesPerSlotN0)
  {
    var n0 := fp.samplesPerSlotN0;
    ModUnique(t, HalfLen(fp), q, x);
    k := 0;
    if x >= fp.samplesPerSlot0 {
      var y := x - fp.samplesPerSlot0;
      k := CeilingIsNext(y, n0, fp.HalfSlots() - 1);
    }
    s := Times(q, fp.HalfSlots()) + k;
  }

  lemma SlotInHalfIsRight(fp: FrameParms, t: nat, q: nat, x: nat)
    requires fp.Valid() && fp.mu != 0 && x < HalfLen(fp)
    requires fp.samplesPerSlot0 <= t == q * HalfLen(fp) + x
    requires t < fp.samplesPerFrame
    ensures 0 <= SlotInFrame(fp, t) < fp.slotsPerFrame
    ensures SlotStart(fp, SlotInFrame(fp, t)) <= t < SlotStart(fp, SlotInFrame(fp, t) + 1)
  {
    var k, s := CountInHalf(fp, t, q, x);
    StartOfTheCount(fp, t, q, x, s, k);
  }

  lemma StartOfTheCount(fp: FrameParms, t: nat, q: nat, x: nat, s: nat, k: nat)
    requires fp.Valid() && fp.mu != 0 && k < fp.HalfSlots() && s == q * fp.HalfSlots() + k
    requires t == q * HalfLen(fp) + x && t < fp.samplesPerFrame
    requires Tail(fp, k) <= x < Tail(fp, k) + (if k == 0 then fp.samplesPerSlot0 else fp.samplesPerSlotN0)
    ensures s < fp.slotsPerFrame
    ensures SlotStart(fp, s) <= t < SlotStart(fp, s + 1)
  {
    HalvesOfFrame(fp, q, x);
    DivideSlot(fp, s, q, k);
    SlotTimestampByHalves(fp, s);
    SlotTimestampIsTheSum(fp, s);
    SamplesPerSlotIsTheSum(fp, s);
  }

  lemma HalvesOfFrame(fp: FrameParms, q: nat, x: nat)
    requires fp.Valid() && fp.mu != 0 && q * HalfLen(fp) + x < fp.samplesPerFrame
    ensures q < 20
  {
    TwentyHalves(fp, 0);
    FactorBelow(q, x, HalfLen(fp), 20);
  }

  lemma DivideSlot(fp: FrameParms, s: int, q: nat, k: nat)
    requires fp.Valid() && fp.mu != 0 && k < fp.HalfSlots() && s == q * fp.HalfSlots() + k && q < 20
    ensures 0 <= s < fp.slotsPerFrame
    ensures fp.HalfOfSlot(s) == q && fp.SlotInHalf(s) == k
  {
    match fp.mu {
      case 1 => assert s == q;
      case 2 => ModUnique(s, 2, q, k);
      case 3 => ModUnique(s, 4, q, k);
      case 4 => ModUnique(s, 8, q, k);
    }
  }
}
