/** The LTE radio unit's receive clock: drift absorption, the frame resynchronisation command,
    and the transmit look-ahead. */
module LteRxClock {
  import opened Arith

  /** What rx_rf and the RU thread's loop keep: `frame` and `subframe` are the loop's counters,
      frameRx and ttiRx those derived from the samples; `failed` records a call of exit_fun. */
  datatype Clock = Clock(timestampRx: int, tsOffset: int, firstRx: bool, frameRx: int, ttiRx: int,
                         frame: int, subframe: int, failed: bool)

  /** The RU's pending command at the time of a read. */
  datatype Command = NoCommand | FrameResync(cmdval: nat)

  /** Quotient and remainder of the C language. */
  function TruncDiv(a: int, b: int): int
    requires b > 0
  {
    if a >= 0 then a / b else -((-a) / b)
  }

  function TruncMod10(a: int): int {
    if a >= 0 then a % 10 else -((-a) % 10)
  }

  function FrameOf(spt: nat, timestamp: int): int
    requires spt > 0
  {
    TruncDiv(timestamp, spt * 10) % 1024
  }

  function TtiOf(spt: nat, timestamp: int): int
    requires spt > 0
  {
    TruncMod10(TruncDiv(timestamp, spt))
  }

  /** Head of the RU thread's loop. */
  function NextSubframe(c: Clock): Clock {
    if c.subframe == 9 then c.(subframe := 0, frame := (c.frame + 1) % 1024) else c.(subframe := c.subframe + 1)
  }

  /** Apply a pending frame resynchronisation. */
  function Resync(spt: nat, c: Clock, cmd: Command): Clock {
    match cmd
    case NoCommand => c
    case FrameResync(v) => c.(tsOffset := c.tsOffset + (c.frameRx - v) * (spt * 10), frame := v)
  }

  /** Turn the device's timestamp into logical time. */
  function Absorb(spt: nat, c: Clock, resynced: bool, ts: int): Clock {
    var timestamp := ts - c.tsOffset;
    if c.firstRx then c.(tsOffset := timestamp, timestampRx := 0)
    else if !resynced && timestamp - c.timestampRx != spt then
      var offset := c.tsOffset + (timestamp - c.timestampRx - spt);
      c.(tsOffset := offset, timestampRx := ts - offset)
    else c.(timestampRx := timestamp)
  }

  /** Label the samples and compare with the loop's counters, or take them over. */
  function Label(spt: nat, c: Clock): Clock
    requires spt > 0
  {
    var frameRx, ttiRx := FrameOf(spt, c.timestampRx), TtiOf(spt, c.timestampRx);
    if c.firstRx then c.(frameRx := frameRx, ttiRx := ttiRx, firstRx := false, frame := frameRx, subframe := ttiRx)
    else c.(frameRx := frameRx, ttiRx := ttiRx, failed := c.failed || ttiRx != c.subframe || frameRx != c.frame)
  }

  function RxRf(spt: nat, c: Clock, cmd: Command, ts: int): Clock
    requires spt > 0
  {
    Label(spt, Absorb(spt, Resync(spt, c, cmd), cmd != NoCommand, ts))
  }

  /** Turns of the loop without a command, one device timestamp each. */
  function Reads(spt: nat, c: Clock, ts: seq<int>): Clock
    requires spt > 0
  {
    if ts == [] then c
    else RxRf(spt, NextSubframe(Reads(spt, c, ts[..|ts| - 1])), NoCommand, ts[|ts| - 1])
  }

  class RuClock {
    var timestampRx: int
    var tsOffset: int
    var firstRx: bool
    var frameRx: int
    var ttiRx: int
    var frame: int
    var subframe: int
    var failed: bool

    ghost function View(): Clock
      reads this
    {
      Clock(timestampRx, tsOffset, firstRx, frameRx, ttiRx, frame, subframe, failed)
    }

    constructor ()
      ensures View() == Clock(0, 0, true, 0, 0, 1023, 9, false)
    {
      timestampRx, tsOffset, firstRx, frameRx, ttiRx := 0, 0, true, 0, 0;
      frame, subframe, failed := 1023, 9, false;
    }

    method CountSubframe()
      modifies this`frame, this`subframe
      ensures View() == NextSubframe(old(View()))
    {
      if subframe == 9 {
        subframe := 0;
        frame := frame + 1;
        frame := frame % 1024;
      } else {
        subframe := subframe + 1;
      }
    }

    /** rx_rf; `ts` is what the device reports. */
    method Read(spt: nat, cmd: Command, ts: int)
      requires spt > 0
      modifies this
      ensures View() == RxRf(spt, old(View()), cmd, ts)
    {
      ghost var was := View();
      var oldTs, resynch := timestampRx, false;
      match cmd {
        case NoCommand =>
        case FrameResync(v) =>
          if frameRx > v {
            tsOffset := tsOffset + (frameRx - v) * (spt * 10);
          } else {
            tsOffset := tsOffset - (-frameRx + v) * (spt * 10);
            Negated(frameRx - v, spt * 10);
          }
          frame := v;
          resynch := true;
      }
      assert View() == Resync(spt, was, cmd);
      timestampRx := ts - tsOffset;
      if firstRx {
        tsOffset := timestampRx;
        timestampRx := 0;
      } else if !resynch && timestampRx - oldTs != spt {
        tsOffset := tsOffset + (timestampRx - oldTs - spt);
        timestampRx := ts - tsOffset;
      }
      assert View() == Absorb(spt, Resync(spt, was, cmd), cmd != NoCommand, ts);
      frameRx := FrameOf(spt, timestampRx);
      ttiRx := TtiOf(spt, timestampRx);
      if !firstRx {
        if ttiRx != subframe || frameRx != frame {
          failed := true;
        }
      } else {
        firstRx := false;
        frame := frameRx;
        subframe := ttiRx;
      }
    }
  }

  lemma Negated(a: int, b: int)
    ensures -((-a) * b) == a * b
  {
  }

  // ---------------------------------------------------------------------- the clock

  /** The clock is on subframe n since its start, `phase` samples after the boundary; loop
      counters and sample counters agree on it. */
  predicate At(spt: nat, c: Clock, n: nat, phase: nat)
    requires spt > 0
  {
    && !c.firstRx && !c.failed && phase < spt
    && c.timestampRx == n * spt + phase
    && c.subframe == n % 10 == c.ttiRx
    && c.frame == n / 10 % 1024 == c.frameRx
  }

  lemma LabelsOf(spt: nat, n: nat, phase: nat)
    requires phase < spt
    ensures n * spt >= 0
    ensures TtiOf(spt, n * spt + phase) == n % 10 && FrameOf(spt, n * spt + phase) == n / 10 % 1024
  {
    var t, q, s := n * spt + phase, n / 10, n % 10;
    ModUnique(t, spt, n, phase);
    Tenfold(spt, q, s, phase);
    InFrame(spt, s, phase);
    ModUnique(t, spt * 10, q, s * spt + phase);
  }

  lemma Tenfold(spt: nat, q: nat, s: nat, phase: nat)
    ensures (10 * q + s) * spt + phase == q * (spt * 10) + (s * spt + phase)
  {
  }

  lemma InFrame(spt: nat, s: nat, phase: nat)
    requires s < 10 && phase < spt
    ensures 0 <= s * spt + phase < spt * 10
  {
  }

  /** The first read makes its samples the start of logical time, whatever the device says and
      whatever command is pending. */
  lemma FirstReadStarts(spt: nat, c: Clock, cmd: Command, ts: int)
    requires spt > 0 && c.firstRx && !c.failed
    ensures At(spt, RxRf(spt, c, cmd, ts), 0, 0)
    ensures RxRf(spt, c, cmd, ts).timestampRx + RxRf(spt, c, cmd, ts).tsOffset == ts
       <==> Resync(spt, c, cmd).tsOffset == 0
  {
    LabelsOf(spt, 0, 0);
  }

  lemma CountersFollow(spt: nat, c: Clock, n: nat, phase: nat)
    requires spt > 0 && At(spt, c, n, phase)
    ensures NextSubframe(c) == c.(subframe := (n + 1) % 10, frame := (n + 1) / 10 % 1024)
  {
    NextDivMod(n, 10);
    NextDivMod(n / 10, 1024);
  }

  /** Without a command, one turn of the loop is one subframe, for any device timestamp. */
  lemma TurnIsExact(spt: nat, c: Clock, n: nat, phase: nat, ts: int)
    requires spt > 0 && At(spt, c, n, phase)
    ensures At(spt, RxRf(spt, NextSubframe(c), NoCommand, ts), n + 1, phase)
    ensures var d := RxRf(spt, NextSubframe(c), NoCommand, ts); d.timestampRx + d.tsOffset == ts
  {
    CountersFollow(spt, c, n, phase);
    AddOneFactor(n, spt);
    LabelsOf(spt, n + 1, phase);
  }

  /** Over any number of turns the comparison never fails, and turn k is subframe n + k. */
  lemma {:induction false} EveryTurnIsExact(spt: nat, c: Clock, n: nat, phase: nat, ts: seq<int>)
    requires spt > 0 && At(spt, c, n, phase)
    ensures At(spt, Reads(spt, c, ts), n + |ts|, phase)
    ensures ts != [] ==> Reads(spt, c, ts).timestampRx + Reads(spt, c, ts).tsOffset == ts[|ts| - 1]
  {
    if ts != [] {
      EveryTurnIsExact(spt, c, n, phase, ts[..|ts| - 1]);
      TurnIsExact(spt, Reads(spt, c, ts[..|ts| - 1]), n + |ts| - 1, phase, ts[|ts| - 1]);
    }
  }

  /** From power-up: call k leaves the logical time at exactly (k - 1) subframes. */
  lemma {:induction false} FromPowerUp(spt: nat, c: Clock, ts: seq<int>)
    requires spt > 0 && c.firstRx && !c.failed && c.tsOffset == 0 && ts != []
    ensures At(spt, Reads(spt, c, ts), |ts| - 1, 0)
    ensures Reads(spt, c, ts).timestampRx + Reads(spt, c, ts).tsOffset == ts[|ts| - 1]
  {
    var last := |ts| - 1;
    if last == 0 {
      assert ts[..0] == [];
      FirstReadStarts(spt, NextSubframe(c), NoCommand, ts[0]);
    } else {
      FromPowerUp(spt, c, ts[..last]);
      TurnIsExact(spt, Reads(spt, c, ts[..last]), last - 1, 0, ts[last]);
    }
  }

  // ------------------------------------------------------------------ resynchronisation

  /** Where the samples of a resynchronising read come to lie, in subframes since the start of
      a cycle of 1024 frames: `drift` is how far the device is from where it should be. */
  function Landing(spt: nat, n: nat, phase: nat, v: nat, drift: int): int {
    ResyncPoint(n, v) * spt + phase + drift
  }

  /** The subframe the command asks for, except that right after the last subframe of a frame
      the old frame number is one too small and so the result one frame too large. */
  function ResyncPoint(n: nat, v: nat): nat {
    10 * (n / 10240 * 1024 + v) + n % 10 + 1
  }

  /** For n the subframe read before: the new logical time. */
  lemma ResyncTime(spt: nat, c: Clock, n: nat, phase: nat, v: nat, ts: int, drift: int)
    requires spt > 0 && At(spt, c, n, phase)
    requires ts - c.tsOffset == c.timestampRx + spt + drift
    ensures var r := Absorb(spt, Resync(spt, NextSubframe(c), FrameResync(v)), true, ts);
            && r.timestampRx == Landing(spt, n, phase, v, drift)
            && r.timestampRx + r.tsOffset == ts
            && r.frame == v && r.subframe == (n + 1) % 10 && !r.firstRx && !r.failed
  {
    CountersFollow(spt, c, n, phase);
    FrameParts(n);
    ResyncProduct(spt, n, n / 10240, n / 10 % 1024, n % 10, v);
  }

  lemma FrameParts(n: nat)
    ensures n == 10240 * (n / 10240) + 10 * (n / 10 % 1024) + n % 10
  {
    var t := n / 10;
    ModUnique(n, 10240, t / 1024, 10 * (t % 1024) + n % 10);
  }

  lemma ResyncProduct(spt: nat, n: nat, cycle: nat, frame: nat, s: nat, v: nat)
    requires n == 10240 * cycle + 10 * frame + s
    ensures n * spt + spt - (frame - v) * (spt * 10) == (10 * (cycle * 1024 + v) + s + 1) * spt
  {
    var m := 10 * (cycle * 1024 + v) + s + 1;
    assert m == n + 1 - 10 * (frame - v);
    assert m * spt == (n + 1) * spt - (10 * (frame - v)) * spt;
  }

  /** A resynchronising read passes the comparison exactly when the device's drift, in whole
      subframes, makes up for the missing frame: not at all inside a frame, by minus ten
      subframes right after its end, and anything modulo 1024 frames. */
  lemma ResyncPassesIff(spt: nat, c: Clock, n: nat, phase: nat, v: nat, ts: int, drift: int) returns (m: nat)
    requires spt > 0 && At(spt, c, n, phase)
    requires ts - c.tsOffset == c.timestampRx + spt + drift
    requires Landing(spt, n, phase, v, drift) >= 0
    ensures m == Landing(spt, n, phase, v, drift) / spt == ResyncPoint(n, v) + (phase + drift) / spt
    ensures var d := RxRf(spt, NextSubframe(c), FrameResync(v), ts);
            && (!d.failed <==> v < 1024 && ((phase + drift) / spt + (if n % 10 == 9 then 10 else 0)) % 10240 == 0)
            && (!d.failed ==> At(spt, d, m, (phase + drift) % spt)
                              && d.frame == v && d.subframe == (n + 1) % 10)
  {
    ResyncTime(spt, c, n, phase, v, ts, drift);
    var u, r := SplitLanding(spt, ResyncPoint(n, v), phase + drift);
    LabelsOf(spt, u, r);
    SameLabelsIff(n, v, (phase + drift) / spt, u);
    m := u;
  }

  lemma SplitLanding(spt: nat, point: nat, x: int) returns (u: nat, r: nat)
    requires spt > 0 && point * spt + x >= 0
    ensures u == point + x / spt && r == x % spt
    ensures r < spt && point * spt + x == u * spt + r
    ensures u == (point * spt + x) / spt
  {
    var e := x / spt;
    r := x % spt;
    assert (point + e) * spt == point * spt + e * spt;
    if point + e < 0 {
      AddOneFactor(point + e, spt);
      AtMostZero(point + e + 1, spt);
    }
    u := point + e;
    ModUnique(point * spt + x, spt, u, r);
  }

  lemma AtMostZero(a: int, b: nat)
    requires a <= 0
    ensures a * b <= 0
  {
  }

  lemma SameLabelsIff(n: nat, v: nat, e: int, u: nat)
    requires u == ResyncPoint(n, v) + e
    ensures u % 10 == (n + 1) % 10 && u / 10 % 1024 == v
       <==> v < 1024 && (e + (if n % 10 == 9 then 10 else 0)) % 10240 == 0
  {
    var s := (n + 1) % 10;
    NextDivMod(n, 10);
    SameLabels(n / 10240, v, s, e + (if n % 10 == 9 then 10 else 0), u);
  }

  lemma SameLabels(cycle: nat, v: nat, s: nat, shift: int, u: nat)
    requires s < 10 && u == 10240 * cycle + 10 * v + s + shift
    ensures u % 10 == s && u / 10 % 1024 == v <==> v < 1024 && shift % 10240 == 0
  {
    if v < 1024 && shift % 10240 == 0 {
      var k := shift / 10240;
      ModUnique(u, 10, 1024 * (cycle + k) + v, s);
      ModUnique(u / 10, 1024, cycle + k, v);
    }
    if u % 10 == s && u / 10 % 1024 == v {
      var k := u / 10 / 1024;
      assert shift == 10240 * (k - cycle);
    }
  }

  lemma EarlyLabels(spt: nat, w: nat, r: nat)
    requires r < spt && w * spt + r > 0
    ensures TtiOf(spt, -(w * spt + r)) == -(w % 10) && FrameOf(spt, -(w * spt + r)) == (-(w / 10)) % 1024
  {
    ModUnique(w * spt + r, spt, w, r);
    Tenfold(spt, w / 10, w % 10, r);
    InFrame(spt, w % 10, r);
    ModUnique(w * spt + r, spt * 10, w / 10, w % 10 * spt + r);
  }

  lemma NegatedFrameIff(f: nat, v: nat)
    ensures (0 - f) % 1024 == v <==> v < 1024 && (f + v) % 1024 == 0
  {
  }

  /** A device reporting a time `w` subframes and `r` samples before its own stream's start: the
      comparison passes only in the first subframe of a frame, and then only as stated. */
  lemma EarlyResyncPassesIff(spt: nat, c: Clock, n: nat, phase: nat, v: nat, ts: int, drift: int, w: nat, r: nat)
    requires spt > 0 && At(spt, c, n, phase) && r < spt
    requires ts - c.tsOffset == c.timestampRx + spt + drift
    requires 0 < w * spt + r == -Landing(spt, n, phase, v, drift)
    ensures !RxRf(spt, NextSubframe(c), FrameResync(v), ts).failed
       <==> n % 10 == 9 && v < 1024 && w % 10 == 0 && (w / 10 + v) % 1024 == 0
  {
    ResyncTime(spt, c, n, phase, v, ts, drift);
    EarlyLabels(spt, w, r);
    NegatedFrameIff(w / 10, v);
  }

  lemma LandsLate(spt: nat, n: nat, phase: nat, v: nat)
    ensures Landing(spt, n, phase, v, 0) >= 0
  {
  }

  lemma NoDrift(spt: nat, n: nat, phase: nat, v: nat)
    requires phase < spt
    ensures (phase + 0) % spt == phase && ResyncPoint(n, v) + (phase + 0) / spt == ResyncPoint(n, v)
    ensures ((phase + 0) / spt + (if n % 10 == 9 then 10 else 0)) % 10240 == 0 <==> (n + 1) % 10 != 0
  {
    NextDivMod(n, 10);
    ModUnique(phase, spt, 0, phase);
  }

  /** Without drift: a command naming a frame is obeyed, and the subframe kept, in nine reads
      out of ten; right after the end of a frame it ends the process. */
  lemma DriftFreeResync(spt: nat, c: Clock, n: nat, phase: nat, v: nat, ts: int)
    requires spt > 0 && At(spt, c, n, phase) && v < 1024
    requires ts - c.tsOffset == c.timestampRx + spt
    ensures var d := RxRf(spt, NextSubframe(c), FrameResync(v), ts);
            && (d.failed <==> (n + 1) % 10 == 0)
            && (!d.failed ==> d.frame == d.frameRx == v && d.subframe == d.ttiRx == (n + 1) % 10
                              && At(spt, d, ResyncPoint(n, v), phase))
  {
    LandsLate(spt, n, phase, v);
    NoDrift(spt, n, phase, v);
    var _ := ResyncPassesIff(spt, c, n, phase, v, ts, 0);
  }

  // -------------------------------------------------------------------------- look-ahead

  function TtiTx(ttiRx: nat, ahead: nat): nat {
    (ttiRx + ahead) % 10
  }

  function FrameTx(frameRx: nat, ttiRx: nat, ahead: nat): nat {
    if ttiRx > 9 - ahead then (frameRx + 1) % 1024 else frameRx
  }

  /** The transmit subframe is always right; the transmit frame, for look-aheads short of 1023
      frames, exactly when it is this frame or the next. */
  lemma LookAheadIff(n: nat, ahead: nat)
    requires ahead < 10230
    ensures TtiTx(n % 10, ahead) == (n + ahead) % 10
    ensures FrameTx(n / 10 % 1024, n % 10, ahead) == (n + ahead) / 10 % 1024 <==> n % 10 + ahead < 20
  {
    var k := (n % 10 + ahead) / 10;
    assert (n + ahead) / 10 == n / 10 + k;
  }

  /** With the usual look-ahead of at most ten subframes every label is right, and the
      transmit time is that subframe's, at the clock's phase. */
  lemma LookAheadIsRight(spt: nat, c: Clock, n: nat, phase: nat, ahead: nat)
    requires spt > 0 && At(spt, c, n, phase) && ahead <= 10
    ensures TtiTx(c.ttiRx, ahead) == (n + ahead) % 10 && FrameTx(c.frameRx, c.ttiRx, ahead) == (n + ahead) / 10 % 1024
    ensures c.timestampRx + ahead * spt == (n + ahead) * spt + phase
  {
    LookAheadIff(n, ahead);
    assert (n + ahead) * spt == n * spt + ahead * spt;
  }
}
