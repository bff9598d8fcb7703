/** The LTE UE's sample loop: block sizes, the per-frame timing correction, and the times its
    transmissions are written for. */
module LteUeBlocks {

  const AHEAD := 2

  /** samples_per_tti, the length of a subframe's first symbol with its prefix, and frame_rx once
      the stream has been started. */
  datatype Parms = Parms(spt: int, first: int, frame: int)
  {
    predicate Valid() { 0 < first && first + 1 < spt }
  }

  datatype Interval = Interval(at: int, len: int)
  {
    function End(): int { at + len }
  }

  /** What the thread finds when it computes the correction of a frame, and whether it then waits in
      vain for the processing thread's lock. */
  datatype Input = Input(rxOffset: int, noTimingCorrection: bool, missed: bool)

  /** What the processing thread is told. */
  datatype Told = Nothing | Label(frameTx: int, subframeTx: int, timestampTx: int)

  /** The thread's counters, its last correction, the device's position in the receive stream, what
      has been read and written, and what each turn has told the processing thread. */
  datatype Ue = Ue(subFrame: int, diff: int, pos: int, received: seq<Interval>, sent: seq<Interval>,
                   cantCompensate: bool, frameRx: int, told: seq<Told>)

  function Diff(p: Parms, x: Input): (d: int)
    ensures -1 <= d <= 1
  {
    if x.noTimingCorrection then 0
    else if 0 < x.rxOffset < 5 * p.spt then -1
    else if 5 * p.spt < x.rxOffset < 10 * p.spt then 1
    else 0
  }

  /** One turn of the loop: samples, then the processing thread. */
  function Turn(p: Parms, u: Ue, x: Input): Ue {
    Tell(p, Move(p, u, x), u.pos, x)
  }

  function Tell(p: Parms, u: Ue, timestamp: int, x: Input): Ue {
    if x.missed then u.(told := u.told + [Nothing])
    else
      var frame := if u.subFrame == 0 then u.frameRx + 1 else u.frameRx;
      u.(frameRx := frame,
         told := u.told + [Label(frame + (if u.subFrame > 5 then 1 else 0), (u.subFrame + 4) % 10, timestamp + 4 * p.spt - p.first)])
  }

  function Move(p: Parms, u: Ue, x: Input): Ue {
    var sf := (u.subFrame + 1) % 10;
    var d := if sf < 9 then u.diff else Diff(p, x);
    var readLen := if sf < 9 then p.spt else p.spt - p.first - d;
    var writeLen := if sf < 9 then p.spt else p.spt - d;
    var read := Interval(u.pos, readLen);
    var write := Interval(u.pos + AHEAD * p.spt - p.first, writeLen);
    var firstSymbols := if sf == 9 then writeLen - readLen else 0;
    if firstSymbols > 0 then
      Ue(sf, d, u.pos + readLen + firstSymbols, u.received + [read, Interval(u.pos + readLen, firstSymbols)],
         u.sent + [write], u.cantCompensate, u.frameRx, u.told)
    else
      Ue(sf, d, u.pos + readLen, u.received + [read], u.sent + [write], u.cantCompensate || firstSymbols < 0, u.frameRx, u.told)
  }

  /** After synchronisation: the frame starts at device time `start`, and its first symbol has
      just been read. */
  function Begin(p: Parms, start: int): Ue {
    Ue(-1, 0, start + p.first, [Interval(start, p.first)], [], false, p.frame, [])
  }

  function Run(p: Parms, start: int, xs: seq<Input>): Ue {
    if xs == [] then Begin(p, start) else Turn(p, Run(p, start, xs[..|xs| - 1]), xs[|xs| - 1])
  }

  // ------------------------------------------------------------------------ the code

  class UeThread {
    var subFrame: int
    var diff: int
    var pos: int
    var received: seq<Interval>
    var sent: seq<Interval>
    var cantCompensate: bool
    var frameRx: int
    var told: seq<Told>

    ghost function View(): Ue
      reads this
    {
      Ue(subFrame, diff, pos, received, sent, cantCompensate, frameRx, told)
    }

    /** The device hands out consecutive samples and the time of the first of them. */
    method TrxRead(len: int) returns (timestamp: int)
      modifies `pos, `received
      ensures timestamp == old(pos) && pos == old(pos) + len && received == old(received) + [Interval(old(pos), len)]
    {
      timestamp := pos;
      received := received + [Interval(pos, len)];
      pos := pos + len;
    }

    /** Start of the stream: skip rx_offset samples, a subframe at most at a time, then read the
        first symbol. */
    method StartStream(p: Parms, rxOffset: nat)
      requires p.Valid() && p.frame == frameRx + 1
      modifies this
      ensures View() == Begin(p, old(pos) + rxOffset)
    {
      var left := rxOffset;
      while left != 0
        invariant 0 <= left && pos == old(pos) + rxOffset - left && frameRx == old(frameRx)
      {
        var s := if left < p.spt then left else p.spt;
        var _ := TrxRead(s);
        left := left - s;
      }
      received, sent, told, subFrame, diff, cantCompensate := [], [], [], -1, 0, false;
      frameRx := frameRx + 1;
      var _ := TrxRead(p.first);
    }

    /** The correction of a frame. */
    method Correct(p: Parms, x: Input)
      modifies `diff
      ensures diff == Diff(p, x)
    {
      diff := 0;
      if !x.noTimingCorrection {
        if x.rxOffset < 5 * p.spt && x.rxOffset > 0 {
          diff := -1;
        }
        if x.rxOffset > 5 * p.spt && x.rxOffset < 10 * p.spt {
          diff := 1;
        }
      }
    }

    method OneTurn(p: Parms, x: Input)
      modifies this
      ensures View() == Turn(p, old(View()), x)
    {
      subFrame := subFrame + 1;
      subFrame := subFrame % 10;
      var readBlockSize, writeBlockSize;
      if subFrame < 9 {
        readBlockSize, writeBlockSize := p.spt, p.spt;
      } else {
        Correct(p, x);
        readBlockSize := p.spt - p.first - diff;
        writeBlockSize := p.spt - diff;
      }
      var timestamp := TrxRead(readBlockSize);
      sent := sent + [Interval(timestamp + AHEAD * p.spt - p.first, writeBlockSize)];
      if subFrame == 9 {
        var firstSymbols := writeBlockSize - readBlockSize;
        if firstSymbols > 0 {
          var _ := TrxRead(firstSymbols);
          assert received == old(received) + [Interval(timestamp, readBlockSize),
                                              Interval(timestamp + readBlockSize, firstSymbols)];
        }
        if firstSymbols < 0 {
          cantCompensate := true;
        }
      }
      assert View() == Move(p, old(View()), x);
      TellProcessing(p, timestamp, x);
    }

    /** From the attempt to lock the processing thread's mutex on. */
    method TellProcessing(p: Parms, timestamp: int, x: Input)
      modifies `frameRx, `told
      ensures View() == Tell(p, old(View()), timestamp, x)
    {
      if x.missed {
        told := told + [Nothing];
        return;
      }
      if subFrame == 0 {
        frameRx := frameRx + 1;
      }
      told := told + [Label(frameRx + (if subFrame > 5 then 1 else 0), (subFrame + 4) % 10, timestamp + 4 * p.spt - p.first)];
    }
  }

  // ---------------------------------------------------------------------- the schedule

  /** Sum of the corrections of the frames that are complete after n turns. */
  function Corrections(p: Parms, xs: seq<Input>, n: nat): int
    requires n <= |xs|
  {
    if n == 0 then 0 else Corrections(p, xs, n - 1) + (if n % 10 == 0 then Diff(p, xs[n - 1]) else 0)
  }

  /** Device time of the start of the frame that turn n belongs to: ten subframes each, less the
      corrections made so far. */
  function FrameStart(p: Parms, start: int, xs: seq<Input>, n: nat): int
    requires n <= |xs|
  {
    start + n / 10 * (10 * p.spt) - Corrections(p, xs, n)
  }

  /** Block n starts here, in receive time after the first symbol. */
  function BlockStart(p: Parms, start: int, xs: seq<Input>, n: nat): int
    requires n <= |xs|
  {
    FrameStart(p, start, xs, n) + n % 10 * p.spt
  }

  predicate Tiles(intervals: seq<Interval>, from: int, to: int) {
    if intervals == [] then from == to
    else
      var last := |intervals| - 1;
      intervals[last].End() == to && intervals[last].len > 0 && Tiles(intervals[..last], from, intervals[last].at)
  }

  lemma NextBlock(p: Parms, start: int, xs: seq<Input>, n: nat)
    requires n < |xs|
    ensures BlockStart(p, start, xs, n + 1)
         == BlockStart(p, start, xs, n) + p.spt - (if n % 10 == 9 then Diff(p, xs[n]) else 0)
  {
    assert (n / 10 + 1) * (10 * p.spt) == n / 10 * (10 * p.spt) + 10 * p.spt;
    assert (n % 10 + 1) * p.spt == n % 10 * p.spt + p.spt;
    if n % 10 == 9 {
      assert (n + 1) / 10 == n / 10 + 1 && (n + 1) % 10 == 0;
    } else {
      assert (n + 1) / 10 == n / 10 && (n + 1) % 10 == n % 10 + 1;
    }
  }

  lemma {:induction false} CorrectionsPrefix(p: Parms, xs: seq<Input>, m: nat, n: nat)
    requires n <= m <= |xs|
    ensures Corrections(p, xs[..m], n) == Corrections(p, xs, n)
  {
    if n > 0 {
      CorrectionsPrefix(p, xs, m, n - 1);
    }
  }

  lemma TilesMore(intervals: seq<Interval>, from: int, to: int, x: Interval)
    requires Tiles(intervals, from, to) && x.at == to && x.len > 0
    ensures Tiles(intervals + [x], from, x.End())
  {
    assert (intervals + [x])[..|intervals|] == intervals;
  }

  /** After n turns, with the next block starting at `block`. */
  ghost predicate InvAt(p: Parms, start: int, n: nat, block: int, u: Ue) {
    && u.subFrame == (if n == 0 then -1 else (n - 1) % 10)
    && u.pos == block + p.first && !u.cantCompensate
    && |u.sent| == n
    && Tiles(u.received, start, block + p.first)
    && Tiles(u.sent, start + AHEAD * p.spt, block + AHEAD * p.spt)
  }

  ghost predicate Inv(p: Parms, start: int, xs: seq<Input>, u: Ue) {
    InvAt(p, start, |xs|, BlockStart(p, start, xs, |xs|), u)
  }

  /** How far turn n gets. */
  function BlockLen(p: Parms, n: nat, x: Input): int {
    p.spt - (if n % 10 == 9 then Diff(p, x) else 0)
  }

  lemma LastBlock(p: Parms, start: int, xs: seq<Input>)
    requires xs != []
    ensures var n := |xs| - 1;
            BlockStart(p, start, xs, |xs|) == BlockStart(p, start, xs[..n], n) + BlockLen(p, n, xs[n])
  {
    BlockPrefix(p, start, xs, |xs| - 1);
    NextBlock(p, start, xs, |xs| - 1);
  }

  lemma BlockPrefix(p: Parms, start: int, xs: seq<Input>, m: nat)
    requires m <= |xs|
    ensures BlockStart(p, start, xs[..m], m) == BlockStart(p, start, xs, m)
  {
    CorrectionsPrefix(p, xs, m, m);
  }

  lemma SentTiles(p: Parms, u: Ue, x: Input, n: nat, from: int, block: int)
    requires p.Valid() && (u.subFrame + 1) % 10 == n % 10 && u.pos == block + p.first
    requires Tiles(u.sent, from, block + AHEAD * p.spt)
    ensures var t := Turn(p, u, x);
            |t.sent| == |u.sent| + 1 && Tiles(t.sent, from, block + BlockLen(p, n, x) + AHEAD * p.spt)
  {
    var t := Turn(p, u, x);
    TilesMore(u.sent, from, block + AHEAD * p.spt, t.sent[|u.sent|]);
  }

  lemma ReceivedTiles(p: Parms, u: Ue, x: Input, n: nat, from: int)
    requires p.Valid() && (u.subFrame + 1) % 10 == n % 10 && Tiles(u.received, from, u.pos)
    ensures var t := Turn(p, u, x);
            t.pos == u.pos + BlockLen(p, n, x) && t.cantCompensate == u.cantCompensate && Tiles(t.received, from, t.pos)
  {
    var t, k := Turn(p, u, x), |u.received|;
    if n % 10 == 9 {
      TilesTwice(u.received, from, u.pos, t.received[k], t.received[k + 1]);
    } else {
      TilesMore(u.received, from, u.pos, t.received[k]);
    }
  }

  lemma TilesTwice(intervals: seq<Interval>, from: int, to: int, x: Interval, y: Interval)
    requires Tiles(intervals, from, to) && x.at == to && x.len > 0 && y.at == x.End() && y.len > 0
    ensures Tiles(intervals + [x, y], from, y.End())
  {
    TilesMore(intervals, from, to, x);
    TilesMore(intervals + [x], from, x.End(), y);
    assert intervals + [x, y] == intervals + [x] + [y];
  }

  lemma TurnKeeps(p: Parms, start: int, n: nat, block: int, u: Ue, x: Input)
    requires p.Valid() && InvAt(p, start, n, block, u)
    ensures InvAt(p, start, n + 1, block + BlockLen(p, n, x), Turn(p, u, x))
  {
    assert (u.subFrame + 1) % 10 == n % 10;
    SentTiles(p, u, x, n, start + AHEAD * p.spt, block);
    ReceivedTiles(p, u, x, n, start);
  }

  /** One turn's write. */
  lemma TurnSends(p: Parms, u: Ue, v: Ue, x: Input, n: nat, block: int)
    requires v == Turn(p, u, x) && (u.subFrame + 1) % 10 == n % 10 && u.pos == block + p.first
    ensures v.sent == u.sent + [Interval(block + AHEAD * p.spt, BlockLen(p, n, x))]
  {
  }

  lemma NextOfTen(m: nat)
    ensures ((if m == 0 then -1 else (m - 1) % 10) + 1) % 10 == m % 10
  {
  }

  /** Over every run and every sequence of corrections: reads and writes both tile device time
      without gap or overlap, and the "can't compensate" branch is never taken. */
  lemma {:induction false} EveryRunTiles(p: Parms, start: int, xs: seq<Input>)
    requires p.Valid()
    ensures Inv(p, start, xs, Run(p, start, xs))
  {
    if xs != [] {
      var last := |xs| - 1;
      EveryRunTiles(p, start, xs[..last]);
      TurnKeeps(p, start, last, BlockStart(p, start, xs[..last], last), Run(p, start, xs[..last]), xs[last]);
      LastBlock(p, start, xs);
    } else {
      assert Begin(p, start).received[..0] == [];
    }
  }

  lemma LastWrite(p: Parms, start: int, xs: seq<Input>, block: int)
    requires p.Valid() && xs != [] && block == BlockStart(p, start, xs, |xs| - 1)
    ensures var n := |xs| - 1;
            && |Run(p, start, xs[..n]).sent| == n
            && Run(p, start, xs).sent
               == Run(p, start, xs[..n]).sent + [Interval(block + AHEAD * p.spt, BlockLen(p, n, xs[n]))]
  {
    var n := |xs| - 1;
    EveryRunTiles(p, start, xs[..n]);
    BlockPrefix(p, start, xs, n);
    NextOfTen(n);
    TurnSends(p, Run(p, start, xs[..n]), Run(p, start, xs), xs[n], n, block);
  }

  /** The n-th write is for exactly two subframes after the block it is read with. */
  lemma {:induction false} WriteTimes(p: Parms, start: int, xs: seq<Input>, n: nat)
    requires p.Valid() && n < |xs|
    ensures |Run(p, start, xs).sent| == |xs|
    ensures Run(p, start, xs).sent[n] == Interval(BlockStart(p, start, xs, n) + AHEAD * p.spt, BlockLen(p, n, xs[n]))
  {
    var last := |xs| - 1;
    LastWrite(p, start, xs, BlockStart(p, start, xs, last));
    if n < last {
      WriteTimes(p, start, xs[..last], n);
      LaterPrefix(p, start, xs, last, n);
    }
  }

  lemma LaterPrefix(p: Parms, start: int, xs: seq<Input>, m: nat, n: nat)
    requires n <= m <= |xs|
    ensures BlockStart(p, start, xs[..m], n) == BlockStart(p, start, xs, n)
  {
    CorrectionsPrefix(p, xs, m, n);
  }

  lemma FrameBlock(p: Parms, start: int, xs: seq<Input>, k: nat)
    requires 10 * k <= |xs|
    ensures BlockStart(p, start, xs, 10 * k) == start + k * (10 * p.spt) - Corrections(p, xs, 10 * k)
  {
    assert 10 * k / 10 == k && 10 * k % 10 == 0;
  }

  /** Where turn m starts, by the run up to it alone. */
  lemma RunUpTo(p: Parms, start: int, xs: seq<Input>, m: nat, at: int) returns (u: Ue)
    requires p.Valid() && m <= |xs| && at == BlockStart(p, start, xs, m)
    ensures u == Run(p, start, xs[..m]) && InvAt(p, start, m, at, u)
  {
    u := Run(p, start, xs[..m]);
    EveryRunTiles(p, start, xs[..m]);
    BlockPrefix(p, start, xs, m);
  }

  lemma NextFrame(k: nat, len: int)
    ensures (k + 1) * len == k * len + len
  {
  }

  lemma OneFrameOn(p: Parms, start: int, xs: seq<Input>, k: nat)
    requires 10 * (k + 1) <= |xs|
    ensures BlockStart(p, start, xs, 10 * (k + 1)) == BlockStart(p, start, xs, 10 * k) + 10 * p.spt - Diff(p, xs[10 * k + 9])
  {
    FrameBlock(p, start, xs, k);
    FrameBlock(p, start, xs, k + 1);
    FrameCorrections(p, xs, k);
    NextFrame(k, 10 * p.spt);
  }

  /** Each frame reads and writes the same number of samples, ten subframes less its correction: what
      is read, and what is written, before it and after it tiles time up to `at` and `next`. */
  lemma FrameLength(p: Parms, start: int, xs: seq<Input>, k: nat) returns (before: Ue, after: Ue, at: int, next: int)
    requires p.Valid() && 10 * (k + 1) <= |xs|
    ensures before == Run(p, start, xs[..10 * k]) && after == Run(p, start, xs[..10 * (k + 1)])
    ensures next == at + 10 * p.spt - Diff(p, xs[10 * k + 9])
    ensures before.pos == at + p.first && after.pos == next + p.first
    ensures Tiles(before.received, start, at + p.first) && Tiles(after.received, start, next + p.first)
    ensures Tiles(before.sent, start + AHEAD * p.spt, at + AHEAD * p.spt)
    ensures Tiles(after.sent, start + AHEAD * p.spt, next + AHEAD * p.spt)
  {
    at, next := BlockStart(p, start, xs, 10 * k), BlockStart(p, start, xs, 10 * (k + 1));
    OneFrameOn(p, start, xs, k);
    before := RunUpTo(p, start, xs, 10 * k, at);
    after := RunUpTo(p, start, xs, 10 * (k + 1), next);
  }

  /** The correction in force after n turns: that of the last complete frame. */
  function InForce(p: Parms, xs: seq<Input>, n: nat): int
    requires n <= |xs|
  {
    if n == 0 then 0 else if n % 10 == 0 then Diff(p, xs[n - 1]) else InForce(p, xs, n - 1)
  }

  lemma {:induction false} InForcePrefix(p: Parms, xs: seq<Input>, m: nat, n: nat)
    requires n <= m <= |xs|
    ensures InForce(p, xs[..m], n) == InForce(p, xs, n)
  {
    if n > 0 && n % 10 != 0 {
      InForcePrefix(p, xs, m, n - 1);
    }
  }

  lemma TurnCorrects(p: Parms, u: Ue, x: Input, n: nat)
    requires (u.subFrame + 1) % 10 == n % 10
    ensures Turn(p, u, x).diff == if (n + 1) % 10 == 0 then Diff(p, x) else u.diff
  {
  }

  lemma {:induction false} LastCorrection(p: Parms, start: int, xs: seq<Input>)
    requires p.Valid()
    ensures Run(p, start, xs).diff == InForce(p, xs, |xs|)
  {
    if xs != [] {
      var last := |xs| - 1;
      LastCorrection(p, start, xs[..last]);
      EveryRunTiles(p, start, xs[..last]);
      NextOfTen(last);
      TurnCorrects(p, Run(p, start, xs[..last]), xs[last], last);
      InForcePrefix(p, xs, last, last);
    }
  }

  /** rx_offset as a distance from the nearest start of a frame, before or after. */
  function Folded(p: Parms, rxOffset: int): int {
    if rxOffset <= 5 * p.spt then rxOffset else rxOffset - 10 * p.spt
  }

  function Abs(x: int): nat {
    if x >= 0 then x else -x
  }

  /** What a correction is for: `cell` is where the cell's own frame starts, going by rx_offset. Ten
      subframes later the thread's frame is one sample nearer to the cell's, unless it was exact, half
      a frame off, or corrections are switched off. */
  lemma CorrectionComesNearer(p: Parms, start: int, xs: seq<Input>, k: nat, cell: int)
    requires p.Valid() && 10 * (k + 1) <= |xs| && 0 <= xs[10 * k + 9].rxOffset < 10 * p.spt
    requires cell == BlockStart(p, start, xs, 10 * k) + Folded(p, xs[10 * k + 9].rxOffset)
    ensures var x, off := xs[10 * k + 9], cell - BlockStart(p, start, xs, 10 * k);
            var still := x.noTimingCorrection || off == 0 || off == 5 * p.spt;
            Abs(cell + 10 * p.spt - BlockStart(p, start, xs, 10 * (k + 1))) == if still then Abs(off) else Abs(off) - 1
  {
    OneFrameOn(p, start, xs, k);
  }

  lemma FrameCorrections(p: Parms, xs: seq<Input>, k: nat)
    requires 10 * k + 10 <= |xs|
    ensures Corrections(p, xs, 10 * k + 10) == Corrections(p, xs, 10 * k) + Diff(p, xs[10 * k + 9])
  {
    NoCorrection(p, xs, k, 9);
  }

  lemma {:induction false} NoCorrection(p: Parms, xs: seq<Input>, k: nat, j: nat)
    requires j <= 9 && 10 * k + j <= |xs|
    ensures Corrections(p, xs, 10 * k + j) == Corrections(p, xs, 10 * k)
  {
    if j > 0 {
      NoCorrection(p, xs, k, j - 1);
    }
  }

  /** Transmit subframe (n + 2) mod 10 lies where its own frame says, except that subframes 0 and
      1 of the next frame are written before that frame's correction is known and so lie `Diff`
      samples late, the second of them being shortened or lengthened to make up for it. */
  lemma TransmitAlignment(p: Parms, start: int, xs: seq<Input>, k: nat, j: nat)
    requires p.Valid() && j < 10 && 10 * k + 10 <= |xs|
    ensures var w := Run(p, start, xs).sent; |w| == |xs|
    ensures var w, d := Run(p, start, xs).sent[10 * k + j], Diff(p, xs[10 * k + 9]);
            var mine, next := FrameStart(p, start, xs, 10 * k), FrameStart(p, start, xs, 10 * k + 10);
            && (j < 8 ==> w == Interval(mine + (j + 2) * p.spt, p.spt))
            && (j == 8 ==> w == Interval(next + d, p.spt))
            && (j == 9 ==> w == Interval(next + p.spt + d, p.spt - d))
  {
    WriteTimes(p, start, xs, 10 * k + j);
    NoCorrection(p, xs, k, j);
    FrameCorrections(p, xs, k);
    assert (k + 1) * (10 * p.spt) == k * (10 * p.spt) + 10 * p.spt;
    assert (10 * k + j) / 10 == k && (10 * k + j) % 10 == j && 10 * k / 10 == k && (10 * k + 10) / 10 == k + 1;
    assert (j + 2) * p.spt == j * p.spt + 2 * p.spt;
  }

  /** Turns among the first n that missed the processing thread in the first subframe of a frame. */
  function MissedFrames(xs: seq<Input>, n: nat): nat
    requires n <= |xs|
  {
    if n == 0 then 0 else MissedFrames(xs, n - 1) + (if (n - 1) % 10 == 0 && xs[n - 1].missed then 1 else 0)
  }

  lemma {:induction false} MissedPrefix(xs: seq<Input>, m: nat, n: nat)
    requires n <= m <= |xs|
    ensures MissedFrames(xs[..m], n) == MissedFrames(xs, n)
  {
    if n > 0 {
      MissedPrefix(xs, m, n - 1);
    }
  }

  lemma TenthsOf(n: nat)
    ensures (n + 9) / 10 == n / 10 + (if n % 10 > 0 then 1 else 0) && (n + 10) / 10 == n / 10 + 1
    ensures (n + 4) / 10 == n / 10 + (if n % 10 > 5 then 1 else 0) && (n + 4) % 10 == (n % 10 + 4) % 10
  {
  }

  function LabelOf(p: Parms, n: nat, missed: nat, block: int): Told {
    Label(p.frame + 1 + (n + 4) / 10 - missed, (n + 4) % 10, block + 4 * p.spt)
  }

  /** Turn n, with `missed` frames missed before it. */
  lemma TurnTells(p: Parms, u: Ue, v: Ue, x: Input, n: nat, missed: nat, block: int)
    requires (u.subFrame + 1) % 10 == n % 10 && u.pos == block + p.first && u.frameRx == p.frame + (n + 9) / 10 - missed
    requires v == Turn(p, u, x)
    ensures v.frameRx == p.frame + (n + 10) / 10 - (missed + (if n % 10 == 0 && x.missed then 1 else 0))
    ensures v.told == u.told + [if x.missed then Nothing else LabelOf(p, n, missed, block)]
  {
    TenthsOf(n);
    var w := Move(p, u, x);
    assert w.subFrame == n % 10 && w.frameRx == u.frameRx && w.told == u.told;
  }

  /** frame_rx counts the frames begun, less those it missed. */
  lemma {:induction false} FramesCounted(p: Parms, start: int, xs: seq<Input>)
    requires p.Valid()
    ensures Run(p, start, xs).frameRx == p.frame + (|xs| + 9) / 10 - MissedFrames(xs, |xs|)
    ensures |Run(p, start, xs).told| == |xs|
  {
    if xs != [] {
      var last := |xs| - 1;
      FramesCounted(p, start, xs[..last]);
      LastTurnTells(p, start, xs);
    }
  }

  lemma LastTurnTells(p: Parms, start: int, xs: seq<Input>)
    requires p.Valid() && xs != []
    requires Run(p, start, xs[..|xs| - 1]).frameRx == p.frame + (|xs| - 1 + 9) / 10 - MissedFrames(xs[..|xs| - 1], |xs| - 1)
    ensures Run(p, start, xs).frameRx == p.frame + (|xs| + 9) / 10 - MissedFrames(xs, |xs|)
    ensures var n := |xs| - 1;
            Run(p, start, xs).told == Run(p, start, xs[..n]).told
                                    + [if xs[n].missed then Nothing
                                       else LabelOf(p, n, MissedFrames(xs, n), BlockStart(p, start, xs, n))]
  {
    var n := |xs| - 1;
    var block := BlockStart(p, start, xs, n);
    var u := RunUpTo(p, start, xs, n, block);
    NextOfTen(n);
    MissedPrefix(xs, n, n);
    TurnTells(p, u, Run(p, start, xs), xs[n], n, MissedFrames(xs, n), block);
  }

  /** What turn n tells the processing thread, unless it misses it: to transmit four subframes on, at
      that many subframes after its own block. The frame number is that of the transmit subframe,
      less the frames missed so far. */
  lemma {:induction false} ProcessingLabels(p: Parms, start: int, xs: seq<Input>, n: nat)
    requires p.Valid() && n < |xs|
    ensures |Run(p, start, xs).told| == |xs|
    ensures Run(p, start, xs).told[n]
         == if xs[n].missed then Nothing
            else LabelOf(p, n, MissedFrames(xs, n), BlockStart(p, start, xs, n))
  {
    var last := |xs| - 1;
    FramesCounted(p, start, xs[..last]);
    LastTurnTells(p, start, xs);
    if n < last {
      ProcessingLabels(p, start, xs[..last], n);
      LaterPrefix(p, start, xs, last, n);
      MissedPrefix(xs, last, n);
    }
  }

  /** The frame number told is the transmit subframe's own if and only if no first subframe of a
      frame has been missed so far. */
  lemma FrameToldIff(p: Parms, start: int, xs: seq<Input>, n: nat)
    requires p.Valid() && n < |xs| && !xs[n].missed
    ensures |Run(p, start, xs).told| == |xs| && Run(p, start, xs).told[n].Label?
    ensures Run(p, start, xs).told[n].frameTx == p.frame + 1 + (n + 4) / 10
       <==> forall i :: 0 <= i <= n && xs[i].missed ==> i % 10 != 0
  {
    ProcessingLabels(p, start, xs, n);
    NoneMissedIff(xs, n + 1);
  }

  lemma {:induction false} NoneMissedIff(xs: seq<Input>, n: nat)
    requires n <= |xs|
    ensures MissedFrames(xs, n) == 0 <==> forall i :: 0 <= i < n && xs[i].missed ==> i % 10 != 0
  {
    if n > 0 {
      NoneMissedIff(xs, n - 1);
    }
  }

  /** The time told is the transmit subframe's start for the subframes of the same frame; for those
      of the next frame, it lies the frame's correction after it. */
  lemma ProcessingAlignment(p: Parms, start: int, xs: seq<Input>, k: nat, j: nat)
    requires p.Valid() && j < 10 && 10 * k + 10 <= |xs| && !xs[10 * k + j].missed
    ensures |Run(p, start, xs).told| == |xs| && Run(p, start, xs).told[10 * k + j].Label?
    ensures var t, d := Run(p, start, xs).told[10 * k + j].timestampTx, Diff(p, xs[10 * k + 9]);
            var mine, next := FrameStart(p, start, xs, 10 * k), FrameStart(p, start, xs, 10 * k + 10);
            t == if j < 6 then mine + (j + 4) * p.spt else next + (j - 6) * p.spt + d
  {
    ProcessingLabels(p, start, xs, 10 * k + j);
    NoCorrection(p, xs, k, j);
    FrameCorrections(p, xs, k);
    NextFrame(k, 10 * p.spt);
    assert (10 * k + j) / 10 == k && (10 * k + j) % 10 == j && 10 * k / 10 == k && (10 * k + 10) / 10 == k + 1;
    ShiftedFactor(j, 4, p.spt);
    ShiftedFactor(j, -6, p.spt);
  }

  lemma ShiftedFactor(j: int, k: int, spt: int)
    ensures (j + k) * spt == j * spt + k * spt
  {
  }
}
