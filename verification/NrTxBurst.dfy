/** Whole-slot transmission of the gNB under TDD: which burst flag each write to the device
    carries, and whether the flags form bursts. */
module NrTxBurst {
  import opened Arith
  import opened NrNumerology

  const SYMBOLS := 14

  datatype SlotType = Downlink | Uplink | Mixed

  datatype Flag = Start | Middle | End

  /** One write to the device. `at` is in the logical time of the receive clock. */
  datatype Write = Write(flag: Flag, at: int, len: int)

  /** `aborted` is the failed assertion about a mixed slot without downlink symbols. */
  datatype Tx = Tx(firstTx: bool, log: seq<Write>, aborted: bool)

  /** A TDD period: `dl` downlink slots, one mixed slot, `ul` uplink slots. */
  datatype Pattern = Pattern(dl: nat, dlSymbols: nat, ulSymbols: nat, ul: nat)
  {
    function Period(): nat { dl + 1 + ul }

    /** The slot in between has symbols that are not downlink, and others that are not uplink. */
    predicate Valid() { dlSymbols < SYMBOLS && (dlSymbols == 0 ==> ulSymbols < SYMBOLS) }

    /** Use of symbol s of the slot at a position of the period: 0 downlink, 1 uplink, 2 flexible. */
    function SymbolUse(position: nat, s: nat): nat {
      if position < dl then 0
      else if position > dl then 1
      else if s < dlSymbols then 0
      else if s < SYMBOLS - ulSymbols then 2
      else 1
    }

    function Kind(position: nat): SlotType {
      if position < dl || (position == dl && dlSymbols >= SYMBOLS) then Downlink
      else if position == dl && Valid() then Mixed
      else Uplink
    }

    /** Slots of a period that are downlink throughout. */
    function DlSlots(): nat { if dlSymbols >= SYMBOLS then dl + 1 else dl }
  }

  // ------------------------------------------------------------------ the slot table

  function Row(p: Pattern, position: nat): (row: seq<nat>)
    ensures |row| == SYMBOLS
  {
    seq(SYMBOLS, s requires 0 <= s < SYMBOLS => p.SymbolUse(position, s))
  }

  /** max_tdd_periodicity_list: one row of symbol uses per slot of the frame. */
  predicate IsTable(table: seq<seq<nat>>, p: Pattern, slots: nat) {
    && |table| == slots
    && forall n :: 0 <= n < slots ==> table[n] == Row(p, n % p.Period())
  }

  method FillTable(p: Pattern, slots: nat) returns (table: seq<seq<nat>>)
    requires p.dlSymbols <= SYMBOLS
    ensures IsTable(table, p, slots)
  {
    table := [];
    for n := 0 to slots
      invariant IsTable(table, p, n)
    {
      var position := n % p.Period();
      var row := [];
      var s := 0;
      if position < p.dl {
        while s < SYMBOLS
          invariant s <= SYMBOLS && row == Row(p, position)[..s]
        {
          row, s := row + [0], s + 1;
        }
      } else if position == p.dl {
        while s < p.dlSymbols
          invariant s <= p.dlSymbols && row == Row(p, position)[..s]
        {
          row, s := row + [0], s + 1;
        }
        while s < SYMBOLS - p.ulSymbols
          invariant p.dlSymbols <= s <= SYMBOLS && (s > p.dlSymbols ==> s <= SYMBOLS - p.ulSymbols)
          invariant row == Row(p, position)[..s]
        {
          row, s := row + [2], s + 1;
        }
        while s < SYMBOLS
          invariant p.dlSymbols <= s <= SYMBOLS && SYMBOLS - p.ulSymbols <= s && row == Row(p, position)[..s]
        {
          row, s := row + [1], s + 1;
        }
      } else {
        while s < SYMBOLS
          invariant s <= SYMBOLS && row == Row(p, position)[..s]
        {
          row, s := row + [1], s + 1;
        }
      }
      assert row == Row(p, position);
      table := table + [row];
    }
  }

  function CountUse(row: seq<nat>, use: nat): (c: nat)
    ensures c <= |row|
    ensures c == |row| <==> forall s :: 0 <= s < |row| ==> row[s] == use
  {
    if row == [] then 0
    else
      var rest := row[..|row| - 1];
      assert forall s :: 0 <= s < |row| ==> row[s] == (if s < |rest| then rest[s] else row[|row| - 1]);
      CountUse(rest, use) + (if row[|row| - 1] == use then 1 else 0)
  }

  function TypeOf(row: seq<nat>): SlotType {
    if CountUse(row, 1) == SYMBOLS then Uplink else if CountUse(row, 0) == SYMBOLS then Downlink else Mixed
  }

  method CountSymbols(row: seq<nat>, use: nat) returns (c: nat)
    requires |row| == SYMBOLS
    ensures c == CountUse(row, use)
  {
    c := 0;
    for s := 0 to SYMBOLS
      invariant c == CountUse(row[..s], use)
    {
      assert row[..s + 1][..s] == row[..s];
      if row[s] == use {
        c := c + 1;
      }
    }
    assert row[..SYMBOLS] == row;
  }

  /** nr_slot_select for TDD. */
  method SlotSelect(row: seq<nat>) returns (t: SlotType)
    requires |row| == SYMBOLS
    ensures t == TypeOf(row)
  {
    var c := CountSymbols(row, 1);
    if c == SYMBOLS {
      return Uplink;
    }
    c := CountSymbols(row, 0);
    return if c == SYMBOLS then Downlink else Mixed;
  }

  /** The table is read back as the pattern it was filled with. */
  lemma TypeIsKind(p: Pattern, position: nat)
    requires p.dlSymbols <= SYMBOLS
    ensures TypeOf(Row(p, position)) == p.Kind(position)
  {
    var row := Row(p, position);
    assert row[0] == p.SymbolUse(position, 0) && row[13] == p.SymbolUse(position, 13);
    if p.Valid() {
      assert row[p.dlSymbols] == p.SymbolUse(position, p.dlSymbols);
    } else if position == p.dl {
      var use := if p.dlSymbols == SYMBOLS then 0 else 1;
      assert forall s :: 0 <= s < SYMBOLS ==> row[s] == p.SymbolUse(p.dl, s) == use;
    }
  }

  /** The slot after the downlink ones is classified as mixed exactly for the valid patterns. */
  lemma MixedIff(p: Pattern)
    requires p.dlSymbols <= SYMBOLS
    ensures TypeOf(Row(p, p.dl)) == Mixed <==> p.Valid()
  {
    TypeIsKind(p, p.dl);
  }

  function SymbolsAt(p: Pattern, position: nat): nat {
    if position < p.dl then SYMBOLS else if position == p.dl then p.dlSymbols else 0
  }

  lemma DownlinkSymbols(p: Pattern, position: nat)
    requires p.dlSymbols <= SYMBOLS
    ensures CountUse(Row(p, position), 0) == SymbolsAt(p, position)
  {
    UsesBetween(Row(p, position), 0, SymbolsAt(p, position), 0);
  }

  lemma {:induction false} UsesBetween(row: seq<nat>, a: nat, b: nat, use: nat)
    requires a <= b <= |row| && forall s :: 0 <= s < |row| ==> (row[s] == use <==> a <= s < b)
    ensures CountUse(row, use) == b - a
  {
    if row != [] {
      var last := |row| - 1;
      var rest := row[..last];
      assert forall s :: 0 <= s < last ==> rest[s] == row[s];
      UsesBetween(rest, if a > last then last else a, if b > last then last else b, use);
    }
  }

  /** The slot in between has its downlink symbols first and its uplink symbols last, as many of them
      as are asked for and still fit, and all others are flexible. */
  lemma MixedSlotSymbols(p: Pattern)
    requires p.dlSymbols <= SYMBOLS
    ensures var row := Row(p, p.dl);
            var ul := Min(p.ulSymbols, SYMBOLS - p.dlSymbols);
            && CountUse(row, 0) == p.dlSymbols && CountUse(row, 1) == ul
            && CountUse(row, 2) == SYMBOLS - p.dlSymbols - ul
            && (forall s :: 0 <= s < p.dlSymbols ==> row[s] == 0)
            && (forall s :: SYMBOLS - ul <= s < SYMBOLS ==> row[s] == 1)
  {
    var ul := Min(p.ulSymbols, SYMBOLS - p.dlSymbols);
    UsesBetween(Row(p, p.dl), 0, p.dlSymbols, 0);
    UsesBetween(Row(p, p.dl), SYMBOLS - ul, SYMBOLS, 1);
    UsesBetween(Row(p, p.dl), p.dlSymbols, SYMBOLS - ul, 2);
  }

  // ------------------------------------------------------------------- transmission

  /** What decides a slot's transmission: the types of the slot before it, of itself and of the
      slot after it, the number of its downlink symbols, its start and its length, and how much
      of it is sent if it is mixed. */
  datatype Input = Input(prev: SlotType, own: SlotType, next: SlotType, txSymbols: nat, slice: Slice)

  datatype Slice = Slice(now: int, whole: nat, part: nat)

  /** tx_func's test of the slot's type, then tx_rf. Nothing follows an abort. */
  function Step(ext: nat, tx: Tx, x: Input): Tx {
    if tx.aborted then tx
    else match x.own
      case Uplink => tx
      case Mixed =>
        if x.txSymbols == 0 then tx.(aborted := true)
        else Tx(false, tx.log + [Write(End, x.slice.now, x.slice.part)], false)
      case Downlink =>
        var flag := if x.prev == Uplink then Start
                    else if x.next == Uplink then End
                    else if tx.firstTx then Start else Middle;
        var early := if x.prev == Uplink then ext else 0;
        Tx(false, tx.log + [Write(flag, x.slice.now - early, x.slice.whole + early)], false)
  }

  function Steps(ext: nat, inputs: seq<Input>): Tx {
    if inputs == [] then Tx(true, [], false)
    else Step(ext, Steps(ext, inputs[..|inputs| - 1]), inputs[|inputs| - 1])
  }

  function WholeLen(fp: FrameParms, slot: nat): nat
    requires fp.Valid()
  {
    SymbolDuration(fp, slot, 0, SYMBOLS)
  }

  /** A mixed slot is sent up to symbol number min(txSymbols, 13), inclusive. */
  function PartLen(fp: FrameParms, slot: nat, txSymbols: nat): nat
    requires fp.Valid()
  {
    SymbolDuration(fp, slot, 0, Min(txSymbols, 13) + 1)
  }

  function Min(a: nat, b: nat): nat {
    if a < b then a else b
  }

  function InputOf(fp: FrameParms, table: seq<seq<nat>>, slot: nat, timestamp: int): Input
    requires fp.Valid() && |table| == fp.slotsPerFrame > slot
  {
    var spf := fp.slotsPerFrame;
    var txSymbols := CountUse(table[slot], 0);
    Input(TypeOf(table[(slot + (spf - 1)) % spf]), TypeOf(table[slot]), TypeOf(table[(slot + 1) % spf]),
          txSymbols, Slice(timestamp, WholeLen(fp, slot), PartLen(fp, slot, txSymbols)))
  }

  /** The slot with an absolute number, at its own time. */
  function InputAt(fp: FrameParms, table: seq<seq<nat>>, abs: nat): Input
    requires fp.Valid() && |table| == fp.slotsPerFrame
  {
    InputOf(fp, table, abs % fp.slotsPerFrame, SlotStart(fp, abs))
  }

  /** Slots first, first + 1, ... counted from frame 0, one after another in logical time. */
  function Inputs(fp: FrameParms, table: seq<seq<nat>>, first: nat, n: nat): (inputs: seq<Input>)
    requires fp.Valid() && |table| == fp.slotsPerFrame
    ensures |inputs| == n
  {
    seq(n, i requires 0 <= i < n => InputAt(fp, table, first + i))
  }

  function Run(fp: FrameParms, table: seq<seq<nat>>, ext: nat, first: nat, n: nat): Tx
    requires fp.Valid() && |table| == fp.slotsPerFrame
  {
    Steps(ext, Inputs(fp, table, first, n))
  }

  /** The transmit state, written in place. */
  class RuTx {
    var firstTx: bool
    var log: seq<Write>
    var aborted: bool

    function View(): Tx
      reads this
    {
      Tx(firstTx, log, aborted)
    }

    constructor ()
      ensures View() == Tx(true, [], false)
    {
      firstTx, log, aborted := true, [], false;
    }

    /** tx_func's gate and tx_rf. */
    method TxRf(fp: FrameParms, table: seq<seq<nat>>, ext: nat, slot: nat, timestamp: int)
      requires fp.Valid() && |table| == fp.slotsPerFrame > slot && forall n :: 0 <= n < |table| ==> |table[n]| == SYMBOLS
      modifies this
      ensures View() == Step(ext, old(View()), InputOf(fp, table, slot, timestamp))
    {
      if aborted {
        return;
      }
      var slotType := SlotSelect(table[slot]);
      if slotType == Uplink {
        return;
      }
      var flag, len, early := Middle, 0, 0;
      if slotType == Mixed {
        var txSymbols := CountSymbols(table[slot], 0);
        if txSymbols == 0 {
          aborted := true;
          return;
        }
        flag := End;
        len := PartLen(fp, slot, txSymbols);
      } else {
        var prev := SlotSelect(table[(slot + (fp.slotsPerFrame - 1)) % fp.slotsPerFrame]);
        var next := SlotSelect(table[(slot + 1) % fp.slotsPerFrame]);
        if prev == Uplink {
          flag, early := Start, ext;
        } else if next == Uplink {
          flag := End;
        } else {
          flag := if firstTx then Start else Middle;
        }
        len := WholeLen(fp, slot);
      }
      firstTx := false;
      log := log + [Write(flag, timestamp - early, len + early)];
    }
  }

  // ------------------------------------------------------------------- the grammar

  ghost predicate Idle(log: seq<Write>, i: nat)
    requires i <= |log|
  {
    i == 0 || log[i - 1].flag == End
  }

  /** Prefixes of (START MIDDLE* END)*: a write opens a burst exactly when none is open. */
  ghost predicate Bursts(log: seq<Write>) {
    forall i :: 0 <= i < |log| ==> (log[i].flag == Start <==> Idle(log, i))
  }

  ghost predicate EndsAt(log: seq<Write>, i: nat, t: int)
    requires i <= |log|
  {
    i > 0 && log[i - 1].at + log[i - 1].len == t
  }

  /** Inside a burst every write begins where the one before it ended. */
  ghost predicate Gapless(log: seq<Write>) {
    forall i :: 0 <= i < |log| && log[i].flag != Start ==> EndsAt(log, i, log[i].at)
  }

  lemma Append(log: seq<Write>, w: Write)
    requires Bursts(log) && Gapless(log)
    requires w.flag == Start <==> Idle(log, |log|)
    requires w.flag != Start ==> EndsAt(log, |log|, w.at)
    ensures Bursts(log + [w]) && Gapless(log + [w])
  {
    var m := log + [w];
    forall i | 0 <= i < |m|
      ensures m[i].flag == Start <==> Idle(m, i)
      ensures m[i].flag != Start ==> EndsAt(m, i, m[i].at)
    {
      if i < |log| {
        assert m[i] == log[i] && Idle(m, i) == Idle(log, i) && EndsAt(m, i, m[i].at) == EndsAt(log, i, m[i].at);
      }
    }
  }

  lemma PrefixBursts(a: seq<Write>, b: seq<Write>)
    requires a <= b && Bursts(b)
    ensures Bursts(a)
  {
    forall i | 0 <= i < |a|
      ensures a[i].flag == Start <==> Idle(a, i)
    {
      assert a[i] == b[i] && Idle(a, i) == Idle(b, i);
    }
  }

  // ---------------------------------------------------- runs by position in the period

  function After(p: Pattern, pos: nat): (next: nat)
    requires pos < p.Period()
    ensures next < p.Period()
  {
    if pos == p.Period() - 1 then 0 else pos + 1
  }

  function Before(p: Pattern, pos: nat): (previous: nat)
    requires pos < p.Period()
    ensures previous < p.Period()
  {
    if pos == 0 then p.Period() - 1 else pos - 1
  }

  /** Position n slots later. */
  function Later(p: Pattern, pos: nat, n: nat): (r: nat)
    requires pos < p.Period()
    ensures r < p.Period()
  {
    if n == 0 then pos else After(p, Later(p, pos, n - 1))
  }

  /** An input is what the pattern says for a position. */
  predicate Fits(p: Pattern, pos: nat, x: Input)
    requires pos < p.Period()
  {
    && x.prev == p.Kind(Before(p, pos)) && x.own == p.Kind(pos) && x.next == p.Kind(After(p, pos))
    && x.txSymbols == SymbolsAt(p, pos)
  }

  predicate Adjoins(x: Input, y: Input) {
    y.slice.now == x.slice.now + x.slice.whole
  }

  /** Consecutive slots of the pattern, the first at position `pos`. */
  ghost predicate Follows(p: Pattern, pos: nat, inputs: seq<Input>)
    requires pos < p.Period()
  {
    && (forall i :: 0 <= i < |inputs| ==> Fits(p, Later(p, pos, i), inputs[i]))
    && (forall i, j :: 0 <= i < |inputs| && 0 <= j < |inputs| && j == i + 1 ==> Adjoins(inputs[i], inputs[j]))
  }

  /** Where a run stands before the slot at position `pos`, starting at time `now`: in a burst
      exactly when the slot before it was a downlink slot, and then written up to now. */
  ghost predicate Stands(p: Pattern, tx: Tx, pos: nat, now: int, atFirst: bool) {
    && !tx.aborted && Bursts(tx.log) && Gapless(tx.log)
    && (tx.firstTx <==> tx.log == [])
    && (atFirst ==> tx.log == [])
    && (!atFirst && 1 <= pos <= p.dl ==> EndsAt(tx.log, |tx.log|, now) && !Idle(tx.log, |tx.log|))
    && (!atFirst && !(1 <= pos <= p.dl) ==> Idle(tx.log, |tx.log|))
  }

  predicate Good(p: Pattern, pos: nat) {
    p.dl >= 1 && p.ul >= 1 && p.dlSymbols >= 1 && pos != p.dl
  }

  lemma StepStands(p: Pattern, ext: nat, tx: Tx, pos: nat, x: Input, atFirst: bool)
    requires pos < p.Period() && Fits(p, pos, x) && Stands(p, tx, pos, x.slice.now, atFirst)
    requires p.Valid() && p.dl >= 1 && p.ul >= 1 && p.dlSymbols >= 1 && (pos == p.dl ==> !atFirst)
    ensures Stands(p, Step(ext, tx, x), After(p, pos), x.slice.now + x.slice.whole, false)
  {
    var next := Step(ext, tx, x);
    if pos <= p.dl {
      Append(tx.log, next.log[|tx.log|]);
    }
  }

  lemma {:induction false} StepsStand(p: Pattern, ext: nat, pos: nat, inputs: seq<Input>)
    requires p.Valid() && pos < p.Period() && inputs != [] && Follows(p, pos, inputs) && Good(p, pos)
    ensures var s := inputs[|inputs| - 1].slice;
            Stands(p, Steps(ext, inputs), Later(p, pos, |inputs|), s.now + s.whole, false)
  {
    var last := |inputs| - 1;
    if last > 0 {
      assert Adjoins(inputs[last - 1], inputs[last]);
      StepsStand(p, ext, pos, inputs[..last]);
    }
    StepStands(p, ext, Steps(ext, inputs[..last]), Later(p, pos, last), inputs[last], last == 0);
  }

  /** Nothing written is taken back, and an abort is final. */
  lemma {:induction false} StepsGrow(ext: nat, inputs: seq<Input>, n: nat)
    requires n <= |inputs|
    ensures var a, b := Steps(ext, inputs[..n]), Steps(ext, inputs);
            a.log <= b.log && (a.aborted ==> b.aborted)
  {
    if n < |inputs| {
      var last := |inputs| - 1;
      assert inputs[..last][..n] == inputs[..n];
      StepsGrow(ext, inputs[..last], n);
    } else {
      assert inputs[..n] == inputs;
    }
  }

  /** The slots with something to send, in order. */
  function ToSend(inputs: seq<Input>): seq<Input> {
    if inputs == [] then []
    else ToSend(inputs[..|inputs| - 1]) + (if inputs[|inputs| - 1].own == Uplink then [] else [inputs[|inputs| - 1]])
  }

  /** The write is that slot's: a downlink slot is written whole, and early by `ext` after an uplink
      slot; a mixed slot is written in part, and ends the burst. */
  predicate Carries(ext: nat, w: Write, x: Input) {
    var early := if x.own == Downlink && x.prev == Uplink then ext else 0;
    && w.at == x.slice.now - early
    && w.len == (if x.own == Mixed then x.slice.part else x.slice.whole) + early
    && (x.own == Mixed ==> w.flag == End)
  }

  /** Short of an abort, the i-th write carries the i-th downlink or mixed slot, and there are no
      others: every such slot is written exactly once, in order. */
  lemma {:induction false} OneWritePerSlot(ext: nat, inputs: seq<Input>)
    requires !Steps(ext, inputs).aborted
    ensures |Steps(ext, inputs).log| == |ToSend(inputs)|
    ensures forall i :: 0 <= i < |ToSend(inputs)| ==> Carries(ext, Steps(ext, inputs).log[i], ToSend(inputs)[i])
  {
    if inputs != [] {
      OneWritePerSlot(ext, inputs[..|inputs| - 1]);
    }
  }

  /** Positions of the first round. */
  lemma {:induction false} LaterInRound(p: Pattern, pos: nat, n: nat)
    requires pos < p.Period() && n <= p.Period()
    ensures Later(p, pos, n) == if pos + n < p.Period() then pos + n else pos + n - p.Period()
  {
    if n > 0 {
      LaterInRound(p, pos, n - 1);
    }
  }

  /** Slots until the first mixed one. */
  function UntilMixed(p: Pattern, pos: nat): nat
    requires pos < p.Period()
  {
    if pos <= p.dl then p.dl - pos else p.Period() - pos + p.dl
  }

  /** The first mixed slot writes END, or aborts for want of a downlink symbol. */
  lemma FirstMixed(p: Pattern, ext: nat, pos: nat, inputs: seq<Input>)
    requires p.Valid() && pos < p.Period() && |inputs| == UntilMixed(p, pos) + 1 && Follows(p, pos, inputs)
    ensures var tx, next := Steps(ext, inputs[..|inputs| - 1]), Steps(ext, inputs);
            && (p.dlSymbols == 0 ==> next.aborted)
            && (!next.aborted ==> |next.log| == |tx.log| + 1 && Idle(next.log, |next.log|) && !next.firstTx)
  {
    LaterInRound(p, pos, |inputs| - 1);
  }

  /** Without uplink slots, the slot after the first mixed one continues a burst that is over. */
  lemma AfterMixed(p: Pattern, ext: nat, pos: nat, inputs: seq<Input>)
    requires p.Valid() && pos < p.Period() && |inputs| == UntilMixed(p, pos) + 2 && p.dl >= 1 && p.ul == 0 && Follows(p, pos, inputs)
    ensures var tx := Steps(ext, inputs); tx.aborted || !Bursts(tx.log)
  {
    var last := |inputs| - 1;
    FirstMixed(p, ext, pos, inputs[..last]);
    LaterInRound(p, pos, last - 1);
    var tx, next := Steps(ext, inputs[..last]), Steps(ext, inputs);
    if !tx.aborted {
      assert next.log[|tx.log|].flag == Middle;
      assert Idle(next.log, |tx.log|) == Idle(tx.log, |tx.log|);
    }
  }

  /** Without downlink slots nothing is written before the first mixed slot. */
  lemma {:induction false} NothingBefore(p: Pattern, ext: nat, pos: nat, inputs: seq<Input>)
    requires p.dl < pos < p.Period() && |inputs| <= p.Period() - pos && Follows(p, pos, inputs)
    ensures Steps(ext, inputs) == Tx(true, [], false)
  {
    if inputs != [] {
      NothingBefore(p, ext, pos, inputs[..|inputs| - 1]);
      LaterInRound(p, pos, |inputs| - 1);
    }
  }

  lemma FailsEarly(p: Pattern, ext: nat, pos: nat, inputs: seq<Input>)
    requires p.Valid() && pos < p.Period() && |inputs| == UntilMixed(p, pos) + 1 && (p.dl == 0 || p.ul >= 1) && Follows(p, pos, inputs)
    requires !Good(p, pos)
    ensures var tx := Steps(ext, inputs); tx.aborted || !Bursts(tx.log)
  {
    var last := |inputs| - 1;
    FirstMixed(p, ext, pos, inputs);
    if last > 0 && p.dl == 0 {
      NothingBefore(p, ext, pos, inputs[..last]);
    }
    var next := Steps(ext, inputs);
    if !next.aborted {
      assert next.log[0].flag == End;
      assert Idle(next.log, 0);
    }
  }

  /** Any failure shows within the first period. */
  lemma StepsFail(p: Pattern, ext: nat, pos: nat, inputs: seq<Input>)
    requires p.Valid() && pos < p.Period() && |inputs| > p.Period() && Follows(p, pos, inputs) && !Good(p, pos)
    ensures var tx := Steps(ext, inputs); tx.aborted || !Bursts(tx.log)
  {
    var k := UntilMixed(p, pos) + 1;
    if p.dl >= 1 && p.ul == 0 {
      k := k + 1;
      AfterMixed(p, ext, pos, inputs[..k]);
    } else {
      FailsEarly(p, ext, pos, inputs[..k]);
    }
    StepsGrow(ext, inputs, k);
    if Bursts(Steps(ext, inputs).log) {
      PrefixBursts(Steps(ext, inputs[..k]).log, Steps(ext, inputs).log);
    }
  }

  // -------------------------------------------------------- from the table to positions

  /** The period divides the frame. */
  predicate Divides(p: Pattern, spf: nat, periods: nat) {
    p.dlSymbols <= SYMBOLS && spf == periods * p.Period() && periods > 0
  }

  lemma ModMod(n: nat, d: nat, m: nat)
    requires d > 0 && m > 0
    ensures m * d > 0 && n % (m * d) % d == n % d
  {
    assert m * d == (m - 1) * d + d && (m - 1) * d >= 0;
    var q, x := n / (m * d), n % (m * d);
    var k, r := x / d, x % d;
    Regroup(q, m, d, k, r);
    ModUnique(n, d, q * m + k, r);
  }

  lemma Regroup(q: nat, m: nat, d: nat, k: nat, r: nat)
    ensures q * (m * d) + (k * d + r) == (q * m + k) * d + r
  {
  }

  /** Positions of a slot and its neighbours, wrapping around the frame. */
  lemma Positions(p: Pattern, spf: nat, periods: nat, abs: nat)
    requires Divides(p, spf, periods)
    ensures spf > 0
    ensures var slot, pos := abs % spf, abs % p.Period();
            && slot % p.Period() == pos
            && (slot + (spf - 1)) % spf % p.Period() == Before(p, pos)
            && (slot + 1) % spf % p.Period() == After(p, pos)
  {
    var d := p.Period();
    ModMod(abs, d, periods);
    var slot := abs % spf;
    ModMod(slot + 1, d, periods);
    NextDivMod(slot, d);
    ModMod(slot + (spf - 1), d, periods);
    NextDivMod(slot + (spf - 1), d);
    SlotPlusFrame(slot, periods, d);
  }

  lemma SlotPlusFrame(slot: nat, periods: nat, d: nat)
    requires d > 0
    ensures (slot + periods * d) % d == slot % d
  {
    var q, r := slot / d, slot % d;
    Regroup(1, periods, d, q, r);
    ModUnique(slot + periods * d, d, periods + q, r);
  }

  lemma {:induction false} LaterIsMod(p: Pattern, first: nat, n: nat)
    ensures Later(p, first % p.Period(), n) == (first + n) % p.Period()
  {
    if n > 0 {
      LaterIsMod(p, first, n - 1);
      NextDivMod(first + n - 1, p.Period());
    }
  }

  lemma InputFits(fp: FrameParms, table: seq<seq<nat>>, p: Pattern, periods: nat, abs: nat, pos: nat)
    requires fp.Valid() && IsTable(table, p, fp.slotsPerFrame) && Divides(p, fp.slotsPerFrame, periods)
    requires pos == abs % p.Period()
    ensures pos < p.Period() && Fits(p, pos, InputAt(fp, table, abs))
  {
    Positions(p, fp.slotsPerFrame, periods, abs);
    TypeIsKind(p, pos);
    TypeIsKind(p, Before(p, pos));
    TypeIsKind(p, After(p, pos));
    DownlinkSymbols(p, pos);
  }

  /** A whole slot's length continues to the next slot. */
  lemma WholeSlot(fp: FrameParms, abs: nat)
    requires fp.Valid()
    ensures SlotStart(fp, abs) + WholeLen(fp, abs % fp.slotsPerFrame) == SlotStart(fp, abs + 1)
  {
    SamplesPerSlotIsTheSum(fp, abs);
    SlotLengthsRepeat(fp, abs);
  }

  lemma InputLater(fp: FrameParms, table: seq<seq<nat>>, p: Pattern, periods: nat, first: nat, pos: nat, i: nat)
    requires fp.Valid() && IsTable(table, p, fp.slotsPerFrame) && Divides(p, fp.slotsPerFrame, periods)
    requires pos == first % p.Period()
    ensures pos < p.Period() && Fits(p, Later(p, pos, i), InputAt(fp, table, first + i))
  {
    LaterIsMod(p, first, i);
    var later := Later(p, pos, i);
    InputFits(fp, table, p, periods, first + i, later);
  }

  lemma InputsAdjoin(fp: FrameParms, table: seq<seq<nat>>, abs: nat)
    requires fp.Valid() && |table| == fp.slotsPerFrame
    ensures Adjoins(InputAt(fp, table, abs), InputAt(fp, table, abs + 1))
  {
    WholeSlot(fp, abs);
  }

  lemma InputsAllFit(fp: FrameParms, table: seq<seq<nat>>, p: Pattern, periods: nat, first: nat, pos: nat, n: nat)
    requires fp.Valid() && IsTable(table, p, fp.slotsPerFrame) && Divides(p, fp.slotsPerFrame, periods)
    requires pos == first % p.Period()
    ensures forall i :: 0 <= i < n ==> Fits(p, Later(p, pos, i), Inputs(fp, table, first, n)[i])
  {
    forall i | 0 <= i < n
      ensures Fits(p, Later(p, pos, i), Inputs(fp, table, first, n)[i])
    {
      InputLater(fp, table, p, periods, first, pos, i);
    }
  }

  lemma InputsAllAdjoin(fp: FrameParms, table: seq<seq<nat>>, first: nat, n: nat)
    requires fp.Valid() && |table| == fp.slotsPerFrame
    ensures forall i, j :: 0 <= i < n && 0 <= j < n && j == i + 1
                           ==> Adjoins(Inputs(fp, table, first, n)[i], Inputs(fp, table, first, n)[j])
  {
    forall i, j | 0 <= i < n && 0 <= j < n && j == i + 1
      ensures Adjoins(Inputs(fp, table, first, n)[i], Inputs(fp, table, first, n)[j])
    {
      InputsAdjoin(fp, table, first + i);
    }
  }

  /** What the table says along a run is the pattern, slot after slot without a gap. */
  lemma InputsFollow(fp: FrameParms, table: seq<seq<nat>>, p: Pattern, periods: nat, first: nat, n: nat)
    requires fp.Valid() && IsTable(table, p, fp.slotsPerFrame) && Divides(p, fp.slotsPerFrame, periods)
    ensures Follows(p, first % p.Period(), Inputs(fp, table, first, n))
  {
    InputsAllFit(fp, table, p, periods, first, first % p.Period(), n);
    InputsAllAdjoin(fp, table, first, n);
  }

  // ------------------------------------------------------------------------- theorems

  /** Whole-slot transmission neither aborts nor breaks the grammar, over runs longer than a
      period, exactly when the pattern has a downlink slot, an uplink slot and a downlink
      symbol in its mixed slot, and the run does not start in the mixed slot. */
  lemma BurstsIff(fp: FrameParms, table: seq<seq<nat>>, p: Pattern, periods: nat, ext: nat, first: nat, n: nat)
    requires fp.Valid() && IsTable(table, p, fp.slotsPerFrame) && Divides(p, fp.slotsPerFrame, periods)
    requires p.Valid() && n > p.Period()
    ensures (!Run(fp, table, ext, first, n).aborted && Bursts(Run(fp, table, ext, first, n).log))
       <==> Good(p, first % p.Period())
  {
    InputsFollow(fp, table, p, periods, first, n);
    if Good(p, first % p.Period()) {
      StepsStand(p, ext, first % p.Period(), Inputs(fp, table, first, n));
    } else {
      StepsFail(p, ext, first % p.Period(), Inputs(fp, table, first, n));
    }
  }

  /** For those patterns the grammar holds of runs of every length, and inside a burst there is
      no gap and no overlap between writes. */
  lemma BurstsAreGapless(fp: FrameParms, table: seq<seq<nat>>, p: Pattern, periods: nat, ext: nat, first: nat, n: nat)
    requires fp.Valid() && IsTable(table, p, fp.slotsPerFrame) && Divides(p, fp.slotsPerFrame, periods)
    requires p.Valid() && Good(p, first % p.Period())
    ensures !Run(fp, table, ext, first, n).aborted
    ensures Bursts(Run(fp, table, ext, first, n).log) && Gapless(Run(fp, table, ext, first, n).log)
  {
    if n > 0 {
      InputsFollow(fp, table, p, periods, first, n);
      StepsStand(p, ext, first % p.Period(), Inputs(fp, table, first, n));
    }
  }

  // -------------------------------------------------------- patterns without a mixed slot

  /** Where such a run stands: in a burst exactly when the slot before was a downlink slot and not the
      last one. */
  ghost predicate StandsPlain(p: Pattern, tx: Tx, pos: nat, now: int, atFirst: bool) {
    var d := p.DlSlots();
    && !tx.aborted && Bursts(tx.log) && Gapless(tx.log)
    && (tx.firstTx <==> tx.log == [])
    && (atFirst || d == 0 ==> tx.log == [])
    && (!atFirst && (1 <= pos < d || d == p.Period()) ==> EndsAt(tx.log, |tx.log|, now) && !Idle(tx.log, |tx.log|))
    && (!atFirst && !(1 <= pos < d || d == p.Period()) ==> Idle(tx.log, |tx.log|))
  }

  /** Only uplink slots, or only downlink slots, or at least two downlink slots in a row and no start
      in the last of them. */
  predicate GoodPlain(p: Pattern, pos: nat) {
    var d := p.DlSlots();
    d == 0 || d == p.Period() || (d >= 2 && pos != d - 1)
  }

  lemma StepStandsPlain(p: Pattern, ext: nat, tx: Tx, pos: nat, x: Input, atFirst: bool)
    requires !p.Valid() && pos < p.Period() && Fits(p, pos, x) && StandsPlain(p, tx, pos, x.slice.now, atFirst)
    requires GoodPlain(p, if atFirst then pos else p.DlSlots())
    ensures StandsPlain(p, Step(ext, tx, x), After(p, pos), x.slice.now + x.slice.whole, false)
  {
    var next := Step(ext, tx, x);
    if pos < p.DlSlots() {
      Append(tx.log, next.log[|tx.log|]);
    }
  }

  lemma {:induction false} StepsStandPlain(p: Pattern, ext: nat, pos: nat, inputs: seq<Input>)
    requires !p.Valid() && pos < p.Period() && inputs != [] && Follows(p, pos, inputs) && GoodPlain(p, pos)
    ensures var s := inputs[|inputs| - 1].slice;
            StandsPlain(p, Steps(ext, inputs), Later(p, pos, |inputs|), s.now + s.whole, false)
  {
    var last := |inputs| - 1;
    if last > 0 {
      assert Adjoins(inputs[last - 1], inputs[last]);
      StepsStandPlain(p, ext, pos, inputs[..last]);
    }
    StepStandsPlain(p, ext, Steps(ext, inputs[..last]), Later(p, pos, last), inputs[last], last == 0);
  }

  lemma {:induction false} UplinkSendsNothing(ext: nat, inputs: seq<Input>, m: nat)
    requires m <= |inputs| && forall i :: m <= i < |inputs| ==> inputs[i].own == Uplink
    ensures Steps(ext, inputs) == Steps(ext, inputs[..m])
  {
    if m == |inputs| {
      assert inputs[..m] == inputs;
    } else {
      var last := |inputs| - 1;
      assert inputs[..last][..m] == inputs[..m];
      UplinkSendsNothing(ext, inputs[..last], m);
    }
  }

  /** Slots until the period begins. */
  function UntilFirst(p: Pattern, pos: nat): nat
    requires pos < p.Period()
  {
    if pos == 0 then 0 else p.Period() - pos
  }

  lemma {:induction false} LaterAdds(p: Pattern, pos: nat, m: nat, n: nat)
    requires pos < p.Period()
    ensures Later(p, pos, m + n) == Later(p, Later(p, pos, m), n)
  {
    if n > 0 {
      LaterAdds(p, pos, m, n - 1);
    }
  }

  /** Position i slots later, when the next period begins z slots later. */
  lemma LaterFrom(p: Pattern, pos: nat, z: nat, i: nat)
    requires pos < p.Period() && z == UntilFirst(p, pos) && i <= z + p.Period()
    ensures Later(p, pos, i) == if i < z then pos + i else if i == z + p.Period() then 0 else i - z
  {
    if i < z {
      LaterInRound(p, pos, i);
    } else {
      LaterInRound(p, pos, z);
      LaterAdds(p, pos, z, i - z);
      LaterInRound(p, 0, i - z);
    }
  }

  /** A single downlink slot between uplink slots: the next period's, and the one after. */
  lemma SingleDownlink(p: Pattern, pos: nat, inputs: seq<Input>, z: nat, i: nat)
    requires !p.Valid() && pos < p.Period() && p.DlSlots() == 1 < p.Period() && Follows(p, pos, inputs)
    requires z == UntilFirst(p, pos) && |inputs| == z + p.Period() + 1 && i < |inputs|
    ensures if i == z || i == z + p.Period() then inputs[i].own == Downlink && inputs[i].prev == Uplink
            else inputs[i].own == Uplink
  {
    LaterFrom(p, pos, z, i);
    assert Fits(p, Later(p, pos, i), inputs[i]);
  }

  /** It opens a burst and never closes it. */
  lemma SingleNeverEnds(p: Pattern, ext: nat, pos: nat, inputs: seq<Input>, z: nat)
    requires !p.Valid() && pos < p.Period() && p.DlSlots() == 1 < p.Period() && Follows(p, pos, inputs)
    requires z == UntilFirst(p, pos) && |inputs| == z + p.Period() + 1
    ensures !Bursts(Steps(ext, inputs).log)
  {
    forall i | 0 <= i < |inputs|
      ensures if i == z || i == z + p.Period() then inputs[i].own == Downlink && inputs[i].prev == Uplink
              else inputs[i].own == Uplink
    {
      SingleDownlink(p, pos, inputs, z, i);
    }
    TwoStarts(ext, inputs, z, z + p.Period());
  }

  lemma TwoStarts(ext: nat, inputs: seq<Input>, a: nat, b: nat)
    requires a < b == |inputs| - 1
    requires forall i :: 0 <= i < |inputs| ==> if i == a || i == b then inputs[i].own == Downlink && inputs[i].prev == Uplink
                                               else inputs[i].own == Uplink
    ensures !Bursts(Steps(ext, inputs).log)
  {
    UplinkSendsNothing(ext, inputs[..a], 0);
    assert inputs[..a][..0] == [];
    assert inputs[..a + 1][..a] == inputs[..a];
    UplinkSendsNothing(ext, inputs[..b], a + 1);
    assert inputs[..b][..a + 1] == inputs[..a + 1];
    var log := Steps(ext, inputs).log;
    assert |log| == 2 && log[0].flag == log[1].flag == Start;
    assert !Idle(log, 1);
  }

  lemma StepsFailPlain(p: Pattern, ext: nat, pos: nat, inputs: seq<Input>)
    requires !p.Valid() && pos < p.Period() && |inputs| > 2 * p.Period() && Follows(p, pos, inputs) && !GoodPlain(p, pos)
    ensures !Bursts(Steps(ext, inputs).log)
  {
    var k := if p.DlSlots() == 1 then UntilFirst(p, pos) + p.Period() + 1 else 1;
    if p.DlSlots() == 1 {
      SingleNeverEnds(p, ext, pos, inputs[..k], UntilFirst(p, pos));
    } else {
      assert Fits(p, Later(p, pos, 0), inputs[0]);
      assert inputs[..1][..0] == [];
      assert Steps(ext, inputs[..1]) == Step(ext, Steps(ext, []), inputs[0]);
      var log := Steps(ext, inputs[..1]).log;
      assert log[0].flag == End && Idle(log, 0);
    }
    StepsGrow(ext, inputs, k);
    if Bursts(Steps(ext, inputs).log) {
      PrefixBursts(Steps(ext, inputs[..k]).log, Steps(ext, inputs).log);
    }
  }

  /** With a slot in between that is all downlink or all uplink: the grammar holds of runs longer than
      two periods exactly when there are no downlink slots, or no uplink slots, or at least two downlink
      slots in a row and the run does not start in the last of them. */
  lemma PlainBurstsIff(fp: FrameParms, table: seq<seq<nat>>, p: Pattern, periods: nat, ext: nat, first: nat, n: nat)
    requires fp.Valid() && IsTable(table, p, fp.slotsPerFrame) && Divides(p, fp.slotsPerFrame, periods)
    requires !p.Valid() && n > 2 * p.Period()
    ensures (!Run(fp, table, ext, first, n).aborted && Bursts(Run(fp, table, ext, first, n).log))
       <==> GoodPlain(p, first % p.Period())
  {
    InputsFollow(fp, table, p, periods, first, n);
    if GoodPlain(p, first % p.Period()) {
      StepsStandPlain(p, ext, first % p.Period(), Inputs(fp, table, first, n));
    } else {
      StepsFailPlain(p, ext, first % p.Period(), Inputs(fp, table, first, n));
    }
  }

  /** And then, for runs of every length, there is no gap and no overlap inside a burst. */
  lemma PlainBurstsAreGapless(fp: FrameParms, table: seq<seq<nat>>, p: Pattern, periods: nat, ext: nat, first: nat, n: nat)
    requires fp.Valid() && IsTable(table, p, fp.slotsPerFrame) && Divides(p, fp.slotsPerFrame, periods)
    requires !p.Valid() && GoodPlain(p, first % p.Period())
    ensures !Run(fp, table, ext, first, n).aborted
    ensures Bursts(Run(fp, table, ext, first, n).log) && Gapless(Run(fp, table, ext, first, n).log)
  {
    if n > 0 {
      InputsFollow(fp, table, p, periods, first, n);
      StepsStandPlain(p, ext, first % p.Period(), Inputs(fp, table, first, n));
    }
  }

  /** The last write of a burst covers the mixed slot's downlink symbols and one symbol more. */
  lemma MixedSlotLength(fp: FrameParms, p: Pattern, slot: nat)
    requires fp.Valid() && p.Valid() && p.dlSymbols >= 1
    ensures SlotStart(fp, slot) + PartLen(fp, slot, CountUse(Row(p, p.dl), 0)) == SymbolStart(fp, 14 * slot + p.dlSymbols + 1)
  {
    DownlinkSymbols(p, p.dl);
    SymbolDurationIsTheSum(fp, slot, 0, p.dlSymbols + 1);
  }
}
