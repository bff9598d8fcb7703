/** Downlink timestamps of the O-RU: the UTC anchor, and the start sample given to each
    symbol that arrives from the fronthaul. */
module OruDownlink {
  import opened Arith
  import opened NrNumerology

  const UINT32 := 0x1_0000_0000

  datatype Position = Position(hyperFrame: nat, frame: nat, slot: nat, symbol: nat)

  predicate ValidPosition(fp: FrameParms, p: Position) {
    p.frame < 1024 && p.slot < fp.slotsPerFrame && p.symbol < 14
  }

  function Next(fp: FrameParms, p: Position): Position {
    if p.symbol < 13 then p.(symbol := p.symbol + 1)
    else if p.slot + 1 < fp.slotsPerFrame then p.(slot := p.slot + 1, symbol := 0)
    else if p.frame < 1023 then p.(frame := p.frame + 1, slot := 0, symbol := 0)
    else Position(p.hyperFrame + 1, 0, 0, 0)
  }

  /** The anchor's distance from the start of its hyper frame. */
  function AnchorOffset(fp: FrameParms, frame: nat, slot: nat): nat
    requires fp.Valid()
  {
    Times(frame, fp.samplesPerFrame) + SlotTimestamp(fp, slot)
  }

  /** start_timestamp after the subtraction. Frame number, frame length and slot offset are
      all unsigned 32-bit operands, so the subtrahend wraps. */
  function StartTimestamp(fp: FrameParms, anchor: int, frame: nat, slot: nat): int
    requires fp.Valid()
  {
    anchor - AnchorOffset(fp, frame, slot) % UINT32
  }

  /** The sample at which symbol p goes out; the hyper frame is counted from the anchor's. */
  function DlTimestamp(fp: FrameParms, start: int, h0: nat, p: Position): int
    requires fp.Valid() && ValidPosition(fp, p) && h0 <= p.hyperFrame
  {
    var frames := (p.hyperFrame - h0) * 1024 + p.frame;
    start + frames * fp.samplesPerFrame + SlotTimestamp(fp, p.slot) + SymbolTimestamp(fp, p.slot, p.symbol)
  }

  datatype Decision = Skip | Send(timestamp: int)

  /** One turn of the read loop: symbols before the anchor's hyper frame, or with a negative
      sample number, are not sent. */
  function Decide(fp: FrameParms, start: int, h0: nat, p: Position): Decision
    requires fp.Valid() && ValidPosition(fp, p)
  {
    if h0 > p.hyperFrame then Skip
    else
      var t := DlTimestamp(fp, start, h0, p);
      if t < 0 then Skip else Send(t)
  }

  /** Samples put into the buffer for one symbol. */
  function EmittedLen(fp: FrameParms, p: Position): nat
    requires fp.Valid()
  {
    if EmitsLongPrefix(fp, p.slot, p.symbol) then fp.cp0 + fp.ofdm else fp.cp + fp.ofdm
  }

  /** Symbols since the start of hyper frame h0. */
  function SlotIndex(fp: FrameParms, h0: nat, p: Position): nat
    requires h0 <= p.hyperFrame
  {
    ((p.hyperFrame - h0) * 1024 + p.frame) * fp.slotsPerFrame + p.slot
  }

  function SymbolIndex(fp: FrameParms, h0: nat, p: Position): nat
    requires h0 <= p.hyperFrame
  {
    14 * SlotIndex(fp, h0, p) + p.symbol
  }

  /** The timestamp is the sum of all symbol lengths of the standard since hyper frame h0. */
  lemma TimestampIsTheSum(fp: FrameParms, start: int, h0: nat, p: Position)
    requires fp.Valid() && ValidPosition(fp, p) && h0 <= p.hyperFrame
    ensures DlTimestamp(fp, start, h0, p) == start + SymbolStart(fp, SymbolIndex(fp, h0, p))
  {
    SymbolTimestampIsTheSum(fp, p.slot, p.symbol);
    SymbolFramesLater(fp, (p.hyperFrame - h0) * 1024 + p.frame, p.slot, p.symbol);
  }

  /** What goes into the buffer has the length the standard gives that symbol. */
  lemma EmittedLenIsTheStandardOne(fp: FrameParms, h0: nat, p: Position)
    requires fp.Valid() && ValidPosition(fp, p) && h0 <= p.hyperFrame
    ensures EmittedLen(fp, p) == SymbolLen(fp, SymbolIndex(fp, h0, p))
  {
    EmittedPrefixIsTheStandardOne(fp, SlotIndex(fp, h0, p), p.symbol);
    FramesKeepPhase(fp, (p.hyperFrame - h0) * 1024 + p.frame, p.slot);
  }

  lemma NextIsOneLater(fp: FrameParms, h0: nat, p: Position)
    requires fp.Valid() && ValidPosition(fp, p) && h0 <= p.hyperFrame
    ensures ValidPosition(fp, Next(fp, p)) && h0 <= Next(fp, p).hyperFrame
    ensures SymbolIndex(fp, h0, Next(fp, p)) == SymbolIndex(fp, h0, p) + 1
  {
    var frames := (p.hyperFrame - h0) * 1024 + p.frame;
    AddOneFactor(frames, fp.slotsPerFrame);
    assert (p.hyperFrame + 1 - h0) * 1024 == (p.hyperFrame - h0) * 1024 + 1024;
  }

  /** Consecutive symbols abut: across slot, frame and hyper-frame wrap the next timestamp is
      this one plus exactly the samples emitted for this symbol. */
  lemma ConsecutiveSymbolsAbut(fp: FrameParms, start: int, h0: nat, p: Position)
    requires fp.Valid() && ValidPosition(fp, p) && h0 <= p.hyperFrame
    ensures ValidPosition(fp, Next(fp, p)) && h0 <= Next(fp, p).hyperFrame
    ensures DlTimestamp(fp, start, h0, Next(fp, p)) == DlTimestamp(fp, start, h0, p) + EmittedLen(fp, p)
  {
    TimestampIsTheSum(fp, start, h0, p);
    NextIsOneLater(fp, h0, p);
    TimestampIsTheSum(fp, start, h0, Next(fp, p));
    EmittedLenIsTheStandardOne(fp, h0, p);
  }

  /** A symbol is sent exactly when it is not of an earlier hyper frame and its sample number,
      the sum of all symbols before it, is not negative. */
  lemma SentIff(fp: FrameParms, start: int, h0: nat, p: Position)
    requires fp.Valid() && ValidPosition(fp, p)
    ensures Decide(fp, start, h0, p).Send? <==> h0 <= p.hyperFrame && start + SymbolStart(fp, SymbolIndex(fp, h0, p)) >= 0
    ensures Decide(fp, start, h0, p).Send? ==>
              Decide(fp, start, h0, p).timestamp == start + SymbolStart(fp, SymbolIndex(fp, h0, p))
  {
    if h0 <= p.hyperFrame {
      TimestampIsTheSum(fp, start, h0, p);
    }
  }

  lemma {:induction false} SymbolsInOrder(fp: FrameParms, a: nat, b: nat)
    requires fp.Valid() && a < b
    ensures SymbolStart(fp, a) + SymbolLen(fp, a) <= SymbolStart(fp, b)
    decreases b
  {
    if a < b - 1 {
      SymbolsInOrder(fp, a, b - 1);
    }
  }

  /** Whatever order symbols arrive in, those sent occupy disjoint sample ranges, in the
      order of their positions on the air. */
  lemma SentSymbolsAreDisjoint(fp: FrameParms, start: int, h0: nat, p: Position, q: Position)
    requires fp.Valid() && ValidPosition(fp, p) && ValidPosition(fp, q)
    requires Decide(fp, start, h0, p).Send? && Decide(fp, start, h0, q).Send?
    requires SymbolIndex(fp, h0, p) < SymbolIndex(fp, h0, q)
    ensures Decide(fp, start, h0, p).timestamp + EmittedLen(fp, p) <= Decide(fp, start, h0, q).timestamp
  {
    TimestampIsTheSum(fp, start, h0, p);
    TimestampIsTheSum(fp, start, h0, q);
    EmittedLenIsTheStandardOne(fp, h0, p);
    SymbolsInOrder(fp, SymbolIndex(fp, h0, p), SymbolIndex(fp, h0, q));
  }

  /** The anchor's own first symbol is sent at the anchor's sample exactly when the offset
      fits in 32 bits. */
  lemma AnchorIsExactIff(fp: FrameParms, anchor: int, h0: nat, frame: nat, slot: nat)
    requires fp.Valid() && frame < 1024 && slot < fp.slotsPerFrame
    ensures DlTimestamp(fp, StartTimestamp(fp, anchor, frame, slot), h0, Position(h0, frame, slot, 0)) == anchor
       <==> AnchorOffset(fp, frame, slot) < UINT32
  {
    var w := AnchorOffset(fp, frame, slot);
    assert (h0 - h0) * 1024 + frame == frame;
    if w < UINT32 {
      assert w % UINT32 == w;
    }
  }

  /** It does not always: 120 kHz spacing with the 4096-point FFT, late in the hyper frame. */
  lemma AnchorCanWrap()
    ensures var fp := InitFrameParms(3, 4096, 288, 544);
            AnchorOffset(fp, 1023, 0) >= UINT32
  {
  }
}
