/** Which UE uses which cell on which radio unit, how a UE moves to another carrier, and how the
    radio units' sample streams are kept in step. */
module NrUeRadio {

  /** `usedByUe` is -1 for a free cell; `dl` and `ul` are its carrier frequencies. */
  datatype Cell = Cell(ruId: int, usedByUe: int, dl: nat, ul: nat)

  datatype Burst = Burst(at: int, len: nat)

  /** A radio unit and its device: `usedByCell` is -1 if it has no cell, `pos` is the time of the
      next sample the device delivers, `sent` is what it has been given to transmit. */
  datatype Ru = Ru(usedByCell: int, pos: int, firstTs: int, init: bool, sent: seq<Burst>)

  /** The tables, and for every UE the radio unit it is on (rf_map.card). */
  datatype Radio = Radio(cells: seq<Cell>, rus: seq<Ru>, cards: seq<nat>)

  datatype CellConfig = CellConfig(ruId: int, dl: nat, ul: nat)

  // ------------------------------------------------------------------------ ownership

  /** UE, cell and radio unit point at each other, one to one. */
  ghost predicate Owned(s: Radio) {
    && (forall c :: 0 <= c < |s.cells| ==> CellOk(s, c))
    && (forall r :: 0 <= r < |s.rus| ==> RuOk(s, r))
    && (forall u :: 0 <= u < |s.cards| ==> UeOk(s, u))
  }

  predicate CellOk(s: Radio, c: nat)
    requires c < |s.cells|
  {
    && 0 <= s.cells[c].ruId < |s.rus| && s.rus[s.cells[c].ruId].usedByCell == c
    && -1 <= s.cells[c].usedByUe < |s.cards|
    && (s.cells[c].usedByUe >= 0 ==> s.cards[s.cells[c].usedByUe] == s.cells[c].ruId)
  }

  predicate RuOk(s: Radio, r: nat)
    requires r < |s.rus|
  {
    -1 <= s.rus[r].usedByCell < |s.cells| && (s.rus[r].usedByCell >= 0 ==> s.cells[s.rus[r].usedByCell].ruId == r)
  }

  predicate UeOk(s: Radio, u: nat)
    requires u < |s.cards|
  {
    && s.cards[u] < |s.rus|
    && 0 <= s.rus[s.cards[u]].usedByCell < |s.cells|
    && s.cells[s.rus[s.cards[u]].usedByCell].usedByUe == u
  }

  /** No two UEs are on the same radio unit, and no two cells either. */
  lemma OwnershipIsInjective(s: Radio)
    requires Owned(s)
    ensures forall u, v :: 0 <= u < v < |s.cards| ==> s.cards[u] != s.cards[v]
    ensures forall c, d :: 0 <= c < d < |s.cells| ==> s.cells[c].ruId != s.cells[d].ruId
  {
    forall u, v | 0 <= u < v < |s.cards|
      ensures s.cards[u] != s.cards[v]
    {
      assert UeOk(s, u) && UeOk(s, v);
    }
    forall c, d | 0 <= c < d < |s.cells|
      ensures s.cells[c].ruId != s.cells[d].ruId
    {
      assert CellOk(s, c) && CellOk(s, d);
    }
  }

  // ---------------------------------------------------------------------- specification

  function CellOf(s: Radio, r: nat): int
    requires r < |s.rus|
  {
    s.rus[r].usedByCell
  }

  /** A radio unit whose cell no UE uses. */
  predicate Free(s: Radio, r: nat)
    requires r < |s.rus|
  {
    0 <= CellOf(s, r) < |s.cells| && s.cells[CellOf(s, r)].usedByUe < 0
  }

  function Gap(a: nat, b: nat): nat {
    if a > b then a - b else b - a
  }

  function Distance(s: Radio, r: nat, ul: nat, dl: nat): nat
    requires r < |s.rus| && 0 <= CellOf(s, r) < |s.cells|
  {
    Gap(s.cells[CellOf(s, r)].dl, dl) + Gap(s.cells[CellOf(s, r)].ul, ul)
  }

  /** Where the search stands after the first n radio units. */
  function Search(s: Radio, card: nat, ul: nat, dl: nat, n: nat): (best: nat)
    requires n <= |s.rus| && card < |s.rus| && 0 <= CellOf(s, card) < |s.cells|
    ensures best < |s.rus| && (best == card || Free(s, best))
  {
    if n == 0 then card
    else
      var b := Search(s, card, ul, dl, n - 1);
      if Free(s, n - 1) && Distance(s, n - 1, ul, dl) < Distance(s, b, ul, dl) then n - 1 else b
  }

  function Move(s: Radio, ue: nat, r: nat): Radio
    requires ue < |s.cards| && s.cards[ue] < |s.rus| && r < |s.rus|
    requires 0 <= CellOf(s, s.cards[ue]) < |s.cells| && 0 <= CellOf(s, r) < |s.cells|
  {
    var from, to := CellOf(s, s.cards[ue]), CellOf(s, r);
    var left := s.cells[from := s.cells[from].(usedByUe := -1)];
    Radio(left[to := left[to].(usedByUe := ue)], s.rus, s.cards[ue := r])
  }

  /** nrue_ru_set_freq. */
  ghost function Retune(s: Radio, ue: nat, ul: nat, dl: nat): Radio
    requires Owned(s) && ue < |s.cards|
  {
    assert UeOk(s, ue);
    Move(s, ue, Search(s, s.cards[ue], ul, dl, |s.rus|))
  }

  /** The UE's own radio unit, and for UE 0 every free one too. */
  predicate Reaches(s: Radio, ue: nat, r: nat)
    requires ue < |s.cards| && r < |s.rus|
  {
    r == s.cards[ue] || (ue == 0 && Free(s, r))
  }

  function Advance(x: Ru, n: nat): Ru {
    x.(pos := x.pos + n, firstTs := if x.init then x.firstTs else x.pos, init := true)
  }

  /** nrue_ru_read of n samples. */
  function Read(s: Radio, ue: nat, n: nat): Radio
    requires ue < |s.cards|
  {
    s.(rus := seq(|s.rus|, r requires 0 <= r < |s.rus| => if Reaches(s, ue, r) then Advance(s.rus[r], n) else s.rus[r]))
  }

  /** nrue_ru_write of n samples for logical time t. */
  function Write(s: Radio, ue: nat, t: int, n: nat): Radio
    requires ue < |s.cards|
  {
    s.(rus := seq(|s.rus|, r requires 0 <= r < |s.rus| => if Reaches(s, ue, r) then Send(s.rus[r], t, n) else s.rus[r]))
  }

  function Send(x: Ru, t: int, n: nat): Ru {
    x.(sent := x.sent + [Burst(t + x.firstTs, n)])
  }

  /** Samples since the stream's first one. */
  function Elapsed(x: Ru): int {
    if x.init then x.pos - x.firstTs else 0
  }

  // ------------------------------------------------------------------------ the code

  predicate RuIdsOk(config: seq<CellConfig>, ruCount: nat) {
    && (forall c :: 0 <= c < |config| ==> 0 <= config[c].ruId < ruCount)
    && (forall c, d :: 0 <= c < d < |config| ==> config[c].ruId != config[d].ruId)
  }

  class Radios {
    var cells: seq<Cell>
    var rus: seq<Ru>
    var cards: seq<nat>

    ghost function View(): Radio
      reads this
    {
      Radio(cells, rus, cards)
    }

    /** The tables before any assignment; `start` is where each device's stream begins. */
    constructor (config: seq<CellConfig>, start: seq<int>)
      ensures cells == seq(|config|, c requires 0 <= c < |config| => Cell(config[c].ruId, -1, config[c].dl, config[c].ul))
      ensures rus == seq(|start|, r requires 0 <= r < |start| => Ru(-1, start[r], 0, false, []))
      ensures cards == []
    {
      cells := seq(|config|, c requires 0 <= c < |config| => Cell(config[c].ruId, -1, config[c].dl, config[c].ul));
      rus := seq(|start|, r requires 0 <= r < |start| => Ru(-1, start[r], 0, false, []));
      cards := [];
    }

    /** The first loop of main: every cell takes its radio unit. False is a failed assertion. */
    method AssignRus(config: seq<CellConfig>) returns (ok: bool)
      requires |cells| == |config| && forall c :: 0 <= c < |cells| ==> cells[c].ruId == config[c].ruId
      requires forall r :: 0 <= r < |rus| ==> rus[r].usedByCell == -1
      modifies `rus
      ensures |rus| == old(|rus|) && (ok <==> RuIdsOk(config, |rus|))
      ensures ok ==> forall c :: 0 <= c < |cells| ==> 0 <= cells[c].ruId < |rus| && rus[cells[c].ruId].usedByCell == c
      ensures ok ==> forall r :: 0 <= r < |rus| ==> RuOk(View(), r)
      ensures forall r :: 0 <= r < |rus| ==> rus[r] == old(rus[r]).(usedByCell := rus[r].usedByCell)
    {
      var c := 0;
      while c < |cells|
        invariant c <= |cells| && |rus| == old(|rus|)
        invariant forall d :: 0 <= d < c ==> 0 <= cells[d].ruId < |rus| && rus[cells[d].ruId].usedByCell == d
        invariant forall r :: 0 <= r < |rus| ==> -1 <= rus[r].usedByCell < c
        invariant forall r :: 0 <= r < |rus| && rus[r].usedByCell >= 0 ==> cells[rus[r].usedByCell].ruId == r
        invariant forall r :: 0 <= r < |rus| ==> rus[r] == old(rus[r]).(usedByCell := rus[r].usedByCell)
      {
        var r := cells[c].ruId;
        if !(0 <= r < |rus|) {
          assert config[c].ruId == r;
          return false;
        }
        if rus[r].usedByCell != -1 {
          assert config[rus[r].usedByCell].ruId == config[c].ruId;
          return false;
        }
        rus := rus[r := rus[r].(usedByCell := c)];
        c := c + 1;
      }
      return true;
    }

    /** The second loop: UE number i starts on cell number i. */
    method AssignUes(ues: nat) returns (ok: bool)
      requires cards == [] && forall c :: 0 <= c < |cells| ==> cells[c].usedByUe == -1
      requires forall c :: 0 <= c < |cells| ==> 0 <= cells[c].ruId < |rus| && rus[cells[c].ruId].usedByCell == c
      requires forall r :: 0 <= r < |rus| ==> RuOk(View(), r)
      modifies `cells, `cards
      ensures |cells| == old(|cells|) && (ok <==> ues <= |cells|)
      ensures ok ==> |cards| == ues && Owned(View())
      ensures ok ==> forall u :: 0 <= u < ues ==> cards[u] == cells[u].ruId
      ensures forall c :: 0 <= c < |cells| ==> cells[c] == old(cells[c]).(usedByUe := cells[c].usedByUe)
    {
      var cell := 0;
      while cell < ues
        invariant cell <= ues && |cells| == old(|cells|) && |cards| == cell <= |cells|
        invariant forall c :: 0 <= c < |cells| ==> cells[c] == old(cells[c]).(usedByUe := if c < cell then c else -1)
        invariant forall u :: 0 <= u < cell ==> cards[u] == cells[u].ruId
      {
        if cell >= |cells| {
          return false;
        }
        if cells[cell].usedByUe != -1 {
          assert false;
        }
        cells := cells[cell := cells[cell].(usedByUe := cell)];
        cards := cards + [cells[cell].ruId];
        cell := cell + 1;
      }
      forall r | 0 <= r < |rus|
        ensures RuOk(View(), r)
      {
        assert RuOk(old(View()), r);
      }
      return true;
    }

    /** Both: start-up succeeds exactly when every cell names a radio unit of its own and there
        is a cell for every UE. */
    method Startup(config: seq<CellConfig>, ues: nat) returns (ok: bool)
      requires |cells| == |config| && cards == []
      requires forall c :: 0 <= c < |cells| ==> cells[c] == Cell(config[c].ruId, -1, config[c].dl, config[c].ul)
      requires forall r :: 0 <= r < |rus| ==> rus[r].usedByCell == -1
      modifies this
      ensures ok <==> RuIdsOk(config, old(|rus|)) && ues <= |config|
      ensures ok ==> Owned(View()) && |cards| == ues && |rus| == old(|rus|) && |cells| == |config|
      ensures ok ==> forall u :: 0 <= u < ues ==> cards[u] == config[u].ruId
      ensures ok ==> forall r :: 0 <= r < |rus| ==> Elapsed(rus[r]) == Elapsed(old(rus[r]))
    {
      ok := AssignRus(config);
      if ok {
        ok := AssignUes(ues);
      }
    }

    method SetFreq(ue: nat, ul: nat, dl: nat)
      requires Owned(View()) && ue < |cards|
      modifies `cells, `cards
      ensures View() == Retune(old(View()), ue, ul, dl)
    {
      ghost var s := View();
      assert UeOk(s, ue);
      var own := cards[ue];
      var current := rus[own].usedByCell;
      var best := Gap(cells[current].dl, dl) + Gap(cells[current].ul, ul);
      var ru := 0;
      while best != 0 && ru < |rus|
        invariant ru <= |rus| && cells == s.cells && |cards| == |s.cards|
        invariant forall u :: 0 <= u < |cards| && u != ue ==> cards[u] == s.cards[u]
        invariant cards[ue] == Search(s, own, ul, dl, ru) && best == Distance(s, cards[ue], ul, dl)
      {
        var cell := rus[ru].usedByCell;
        assert RuOk(s, ru);
        if cell >= 0 && cells[cell].usedByUe < 0 {
          var distance := Gap(cells[cell].dl, dl) + Gap(cells[cell].ul, ul);
          if distance < best {
            cards := cards[ue := ru];
            best := distance;
          }
        }
        ru := ru + 1;
      }
      if best == 0 {
        NothingNearer(s, own, ul, dl, ru, |rus|);
      }
      assert cards == s.cards[ue := cards[ue]];
      cells := cells[current := cells[current].(usedByUe := -1)];
      current := rus[cards[ue]].usedByCell;
      cells := cells[current := cells[current].(usedByUe := ue)];
    }

    /** nrue_ru_read; the devices deliver consecutive samples. */
    method ReadSamples(ue: nat, n: nat) returns (timestamp: int)
      requires Owned(View()) && ue < |cards|
      modifies `rus
      ensures View() == Read(old(View()), ue, n)
      ensures cards[ue] < |old(rus)| && timestamp == Elapsed(old(rus)[cards[ue]])
    {
      ghost var s := View();
      assert UeOk(s, ue);
      var card := cards[ue];
      var ts := rus[card].pos;
      rus := rus[card := Advance(rus[card], n)];
      timestamp := ts - rus[card].firstTs;
      if ue != 0 {
        return;
      }
      var ru := 0;
      while ru < |rus|
        invariant ru <= |rus| == |s.rus|
        invariant forall r :: 0 <= r < |rus| ==>
                    rus[r] == if r == card || (r < ru && Free(s, r)) then Advance(s.rus[r], n) else s.rus[r]
      {
        var cell := rus[ru].usedByCell;
        assert RuOk(s, ru);
        if cell >= 0 && cells[cell].usedByUe < 0 {
          rus := rus[ru := Advance(rus[ru], n)];
        }
        ru := ru + 1;
      }
    }

    /** nrue_ru_write; UE 0 also feeds zeros to the free radio units. */
    method WriteSamples(ue: nat, timestamp: int, n: nat)
      requires Owned(View()) && ue < |cards|
      modifies `rus
      ensures View() == Write(old(View()), ue, timestamp, n)
    {
      ghost var s := View();
      assert UeOk(s, ue);
      var card := cards[ue];
      rus := rus[card := Send(rus[card], timestamp, n)];
      if ue != 0 {
        return;
      }
      var ru := 0;
      while ru < |rus|
        invariant ru <= |rus| == |s.rus|
        invariant forall r :: 0 <= r < |rus| ==>
                    rus[r] == if r == card || (r < ru && Free(s, r)) then Send(s.rus[r], timestamp, n) else s.rus[r]
      {
        var cell := rus[ru].usedByCell;
        assert RuOk(s, ru);
        if cell >= 0 && cells[cell].usedByUe < 0 {
          rus := rus[ru := Send(rus[ru], timestamp, n)];
        }
        ru := ru + 1;
      }
    }
  }

  /** The search may stop at distance zero. */
  lemma {:induction false} NothingNearer(s: Radio, card: nat, ul: nat, dl: nat, m: nat, n: nat)
    requires m <= n <= |s.rus| && card < |s.rus| && 0 <= CellOf(s, card) < |s.cells|
    requires Distance(s, Search(s, card, ul, dl, m), ul, dl) == 0
    ensures Search(s, card, ul, dl, n) == Search(s, card, ul, dl, m)
  {
    if m < n {
      NothingNearer(s, card, ul, dl, m, n - 1);
    }
  }

  // ---------------------------------------------------------------------- retuning

  /** Of the UE's own radio unit and the free ones, the search finds one nearest to the carriers;
      it stays on its own if no free one is nearer, and otherwise takes the first of the nearest. */
  lemma {:induction false} SearchFindsNearest(s: Radio, card: nat, ul: nat, dl: nat, n: nat)
    requires n <= |s.rus| && card < |s.rus| && 0 <= CellOf(s, card) < |s.cells|
    ensures var best := Search(s, card, ul, dl, n);
            && Distance(s, best, ul, dl) <= Distance(s, card, ul, dl)
            && (Distance(s, best, ul, dl) == Distance(s, card, ul, dl) ==> best == card)
            && (forall r :: 0 <= r < n && Free(s, r) ==> Distance(s, best, ul, dl) <= Distance(s, r, ul, dl))
            && (best != card ==>
                  best < n && forall r :: 0 <= r < best && Free(s, r) ==> Distance(s, best, ul, dl) < Distance(s, r, ul, dl))
  {
    if n > 0 {
      SearchFindsNearest(s, card, ul, dl, n - 1);
    }
  }

  /** a and b are d apart. */
  predicate Apart(a: int, b: int, d: int) {
    d >= 0 && (d == a - b || d == b - a)
  }

  lemma GapIsApart(a: nat, b: nat, d: int)
    ensures Apart(a, b, d) <==> d == Gap(a, b)
  {
  }

  /** The radio unit's cell is `down` and `up` away from the wanted carriers. */
  predicate CarriersApart(s: Radio, r: nat, ul: nat, dl: nat, up: int, down: int)
    requires r < |s.rus|
  {
    && 0 <= CellOf(s, r) < |s.cells|
    && Apart(s.cells[CellOf(s, r)].ul, ul, up) && Apart(s.cells[CellOf(s, r)].dl, dl, down)
  }

  /** In frequencies: after a retune no radio unit the UE could have had is nearer than the one it is
      on, uplink and downlink together; and it has moved only if that is nearer than before. */
  lemma RetuneIsNearest(s: Radio, ue: nat, ul: nat, dl: nat, r: nat, up: int, down: int, bestUp: int, bestDown: int)
    requires Owned(s) && ue < |s.cards| && r < |s.rus| && (r == s.cards[ue] || Free(s, r))
    requires Retune(s, ue, ul, dl).cards[ue] < |s.rus|
    requires CarriersApart(s, r, ul, dl, up, down)
    requires CarriersApart(s, Retune(s, ue, ul, dl).cards[ue], ul, dl, bestUp, bestDown)
    ensures bestUp + bestDown <= up + down
    ensures r == s.cards[ue] && Retune(s, ue, ul, dl).cards[ue] != r ==> bestUp + bestDown < up + down
  {
    assert UeOk(s, ue);
    SearchFindsNearest(s, s.cards[ue], ul, dl, |s.rus|);
    var best := s.cells[CellOf(s, Retune(s, ue, ul, dl).cards[ue])];
    var other := s.cells[CellOf(s, r)];
    GapIsApart(best.ul, ul, bestUp);
    GapIsApart(best.dl, dl, bestDown);
    GapIsApart(other.ul, ul, up);
    GapIsApart(other.dl, dl, down);
  }

  /** So if its own cell or a free one has exactly the wanted carriers, the UE ends up on such a cell. */
  lemma ExactCarriersAreFound(s: Radio, ue: nat, ul: nat, dl: nat, r: nat)
    requires Owned(s) && ue < |s.cards| && r < |s.rus| && (r == s.cards[ue] || Free(s, r))
    requires CarriersApart(s, r, ul, dl, 0, 0)
    ensures var m := Retune(s, ue, ul, dl);
            && m.cards[ue] < |m.rus| && 0 <= CellOf(m, m.cards[ue]) < |m.cells|
            && m.cells[CellOf(m, m.cards[ue])].ul == ul && m.cells[CellOf(m, m.cards[ue])].dl == dl
            && m.cells[CellOf(m, m.cards[ue])].usedByUe == ue
  {
    RetuneKeepsOwnership(s, ue, ul, dl);
    var m := Retune(s, ue, ul, dl);
    assert UeOk(m, ue) && UeOk(s, ue);
    var c := s.cells[CellOf(s, m.cards[ue])];
    GapIsApart(c.ul, ul, Gap(c.ul, ul));
    GapIsApart(c.dl, dl, Gap(c.dl, dl));
    RetuneIsNearest(s, ue, ul, dl, r, 0, 0, Gap(c.ul, ul), Gap(c.dl, dl));
  }

  /** Moving to a free radio unit, or staying, keeps the ownership. */
  lemma MoveKeepsOwnership(s: Radio, ue: nat, r: nat)
    requires Owned(s) && ue < |s.cards| && r < |s.rus| && (r == s.cards[ue] || Free(s, r))
    ensures UeOk(s, ue) && Owned(Move(s, ue, r))
  {
    assert UeOk(s, ue) && RuOk(s, r) && RuOk(s, s.cards[ue]);
    var t := Move(s, ue, r);
    forall c | 0 <= c < |t.cells|
      ensures CellOk(t, c)
    {
      assert CellOk(s, c);
    }
    forall x | 0 <= x < |t.rus|
      ensures RuOk(t, x)
    {
      assert RuOk(s, x);
    }
    forall u | 0 <= u < |t.cards|
      ensures UeOk(t, u)
    {
      assert UeOk(s, u);
    }
  }

  lemma RetuneKeepsOwnership(s: Radio, ue: nat, ul: nat, dl: nat)
    requires Owned(s) && ue < |s.cards|
    ensures Owned(Retune(s, ue, ul, dl))
  {
    assert UeOk(s, ue);
    MoveKeepsOwnership(s, ue, Search(s, s.cards[ue], ul, dl, |s.rus|));
  }

  // ---------------------------------------------------------------------- lockstep

  /** The one UE whose reads and writes reach a radio unit with a cell: its user, or UE 0. */
  function Reader(s: Radio, r: nat): int
    requires r < |s.rus| && 0 <= CellOf(s, r) < |s.cells|
  {
    if s.cells[CellOf(s, r)].usedByUe >= 0 then s.cells[CellOf(s, r)].usedByUe else 0
  }

  lemma ReachesIff(s: Radio, ue: nat, r: nat)
    requires Owned(s) && ue < |s.cards| && r < |s.rus|
    ensures -1 <= CellOf(s, r) < |s.cells|
    ensures Reaches(s, ue, r) <==> CellOf(s, r) >= 0 && Reader(s, r) == ue
  {
    assert RuOk(s, r) && UeOk(s, ue);
    if CellOf(s, r) >= 0 {
      assert CellOk(s, CellOf(s, r));
    }
  }

  /** Same tables, whatever the devices do. */
  predicate SameTables(s: Radio, t: Radio) {
    && s.cells == t.cells && s.cards == t.cards && |s.rus| == |t.rus|
    && forall r :: 0 <= r < |s.rus| ==> s.rus[r].usedByCell == t.rus[r].usedByCell
  }

  lemma SameTablesOwned(s: Radio, t: Radio)
    requires Owned(s) && SameTables(s, t)
    ensures Owned(t)
  {
    forall c | 0 <= c < |t.cells|
      ensures CellOk(t, c)
    {
      assert CellOk(s, c);
    }
    forall r | 0 <= r < |t.rus|
      ensures RuOk(t, r)
    {
      assert RuOk(s, r);
    }
    forall u | 0 <= u < |t.cards|
      ensures UeOk(t, u)
    {
      assert UeOk(s, u);
    }
  }

  function Reads(s: Radio, order: seq<nat>, n: nat): (t: Radio)
    requires forall k :: 0 <= k < |order| ==> order[k] < |s.cards|
    ensures t.cells == s.cells && t.cards == s.cards && |t.rus| == |s.rus|
  {
    if order == [] then s else Read(Reads(s, order[..|order| - 1], n), order[|order| - 1], n)
  }

  function Writes(s: Radio, order: seq<nat>, time: int, n: nat): (t: Radio)
    requires forall k :: 0 <= k < |order| ==> order[k] < |s.cards|
    ensures t.cells == s.cells && t.cards == s.cards && |t.rus| == |s.rus|
  {
    if order == [] then s else Write(Writes(s, order[..|order| - 1], time, n), order[|order| - 1], time, n)
  }

  /** Some of the UEs, each at most once. */
  predicate Distinct(s: Radio, order: seq<nat>) {
    && (forall k :: 0 <= k < |order| ==> order[k] < |s.cards|)
    && forall j, k :: 0 <= j < k < |order| ==> order[j] != order[k]
  }

  /** All UEs, each once, in any order. */
  predicate IsRound(s: Radio, order: seq<nat>) {
    Distinct(s, order) && forall u :: 0 <= u < |s.cards| ==> u in order
  }

  /** After some UEs have read: a radio unit has moved on if its reader was among them. */
  lemma {:induction false} AfterReads(s: Radio, order: seq<nat>, n: nat)
    requires Owned(s) && Distinct(s, order)
    ensures var t := Reads(s, order, n);
            && SameTables(s, t)
            && forall r :: 0 <= r < |s.rus| ==>
                 t.rus[r] == if 0 <= CellOf(s, r) < |s.cells| && Reader(s, r) in order then Advance(s.rus[r], n) else s.rus[r]
  {
    if order != [] {
      var last := |order| - 1;
      var before, t := Reads(s, order[..last], n), Reads(s, order, n);
      AfterReads(s, order[..last], n);
      SameTablesOwned(s, before);
      assert order == order[..last] + [order[last]];
      forall r | 0 <= r < |s.rus|
        ensures t.rus[r] == if 0 <= CellOf(s, r) < |s.cells| && Reader(s, r) in order then Advance(s.rus[r], n) else s.rus[r]
      {
        ReachesIff(before, order[last], r);
      }
    }
  }

  lemma {:induction false} AfterWrites(s: Radio, order: seq<nat>, time: int, n: nat)
    requires Owned(s) && Distinct(s, order)
    ensures var t := Writes(s, order, time, n);
            && SameTables(s, t)
            && forall r :: 0 <= r < |s.rus| ==>
                 t.rus[r] == if 0 <= CellOf(s, r) < |s.cells| && Reader(s, r) in order then Send(s.rus[r], time, n) else s.rus[r]
  {
    if order != [] {
      var last := |order| - 1;
      var before, t := Writes(s, order[..last], time, n), Writes(s, order, time, n);
      AfterWrites(s, order[..last], time, n);
      SameTablesOwned(s, before);
      assert order == order[..last] + [order[last]];
      forall r | 0 <= r < |s.rus|
        ensures t.rus[r] == if 0 <= CellOf(s, r) < |s.cells| && Reader(s, r) in order then Send(s.rus[r], time, n) else s.rus[r]
      {
        ReachesIff(before, order[last], r);
      }
    }
  }

  /** One round: every radio unit that has a cell advances by exactly n samples, and no other. */
  lemma RoundAdvancesAll(s: Radio, order: seq<nat>, n: nat)
    requires Owned(s) && IsRound(s, order) && |s.cards| > 0
    ensures var t := Reads(s, order, n);
            && SameTables(s, t)
            && forall r :: 0 <= r < |s.rus| ==> t.rus[r] == if CellOf(s, r) >= 0 then Advance(s.rus[r], n) else s.rus[r]
  {
    AfterReads(s, order, n);
    forall r | 0 <= r < |s.rus| && CellOf(s, r) >= 0
      ensures CellOf(s, r) < |s.cells| && Reader(s, r) in order
    {
      ReaderIsUe(s, r);
    }
  }

  lemma ReaderIsUe(s: Radio, r: nat)
    requires Owned(s) && |s.cards| > 0 && r < |s.rus| && CellOf(s, r) >= 0
    ensures CellOf(s, r) < |s.cells| && 0 <= Reader(s, r) < |s.cards|
  {
    assert RuOk(s, r) && CellOk(s, CellOf(s, r));
  }

  /** One round of writes for the same logical time: every radio unit that has a cell is given
      exactly one burst, at its own device's time for it. */
  lemma RoundFeedsAll(s: Radio, order: seq<nat>, time: int, n: nat)
    requires Owned(s) && IsRound(s, order) && |s.cards| > 0
    ensures var t := Writes(s, order, time, n);
            && SameTables(s, t)
            && forall r :: 0 <= r < |s.rus| ==>
                 t.rus[r] == if CellOf(s, r) >= 0 then s.rus[r].(sent := s.rus[r].sent + [Burst(time + s.rus[r].firstTs, n)])
                             else s.rus[r]
  {
    AfterWrites(s, order, time, n);
    forall r | 0 <= r < |s.rus| && CellOf(s, r) >= 0
      ensures CellOf(s, r) < |s.cells| && Reader(s, r) in order
    {
      ReaderIsUe(s, r);
    }
  }

  /** Between rounds UEs may retune. */
  datatype Op = ReadRound(order: seq<nat>, n: nat) | SetFreq(ue: nat, ul: nat, dl: nat)

  predicate Fits(s: Radio, op: Op) {
    match op
    case ReadRound(order, _) => IsRound(s, order)
    case SetFreq(ue, _, _) => ue < |s.cards|
  }

  ghost function Apply(s: Radio, op: Op): (t: Radio)
    requires Owned(s) && Fits(s, op) && |s.cards| > 0
    ensures Owned(t) && |t.cards| == |s.cards| && |t.rus| == |s.rus|
    ensures forall r :: 0 <= r < |s.rus| ==> CellOf(t, r) == CellOf(s, r)
  {
    match op
    case ReadRound(order, n) => RoundAdvancesAll(s, order, n); SameTablesOwned(s, Reads(s, order, n)); Reads(s, order, n)
    case SetFreq(ue, ul, dl) => RetuneKeepsOwnership(s, ue, ul, dl); Retune(s, ue, ul, dl)
  }

  ghost predicate Allowed(s: Radio, run: seq<Op>)
    requires Owned(s) && |s.cards| > 0
    decreases |run|
  {
    run == [] || (Fits(s, run[0]) && Allowed(Apply(s, run[0]), run[1..]))
  }

  ghost function After(s: Radio, run: seq<Op>): (t: Radio)
    requires Owned(s) && |s.cards| > 0 && Allowed(s, run)
    ensures Owned(t) && |t.cards| == |s.cards| && |t.rus| == |s.rus|
    decreases |run|
  {
    if run == [] then s else After(Apply(s, run[0]), run[1..])
  }

  function SamplesRead(run: seq<Op>): nat {
    if run == [] then 0
    else (match run[0] case ReadRound(_, n) => n case SetFreq(_, _, _) => 0) + SamplesRead(run[1..])
  }

  /** Every radio unit with a cell stands at the same logical time. */
  ghost predicate InStep(s: Radio, time: int) {
    forall r :: 0 <= r < |s.rus| && CellOf(s, r) >= 0 ==> Elapsed(s.rus[r]) == time
  }

  /** Over any rounds of reads with any retunes between them, all radio units with a cell stay at
      the same logical time: the samples of all rounds so far. */
  lemma {:induction false} RunsStayInStep(s: Radio, run: seq<Op>, time: int)
    requires Owned(s) && |s.cards| > 0 && Allowed(s, run) && InStep(s, time)
    ensures InStep(After(s, run), time + SamplesRead(run))
    decreases |run|
  {
    if run != [] {
      var t := Apply(s, run[0]);
      match run[0] {
        case ReadRound(order, n) =>
          RoundAdvancesAll(s, order, n);
          RunsStayInStep(t, run[1..], time + n);
        case SetFreq(ue, ul, dl) =>
          assert t.rus == s.rus;
          RunsStayInStep(t, run[1..], time);
      }
    }
  }

  /** So the timestamp a UE sees in its next read does not depend on the radio unit it is on: it is
      the number of samples of the rounds before, across any retunes. */
  lemma TimestampsContinue(s: Radio, run: seq<Op>, order: seq<nat>, k: nat, n: nat)
    requires Owned(s) && |s.cards| > 0 && Allowed(s, run) && InStep(s, 0)
    requires IsRound(After(s, run), order) && k < |order|
    ensures var t := Reads(After(s, run), order[..k], n);
            t.cards[order[k]] < |t.rus| && Elapsed(t.rus[t.cards[order[k]]]) == SamplesRead(run)
  {
    RunsStayInStep(s, run, 0);
    var a, ue := After(s, run), order[k];
    assert UeOk(a, ue);
    AfterReads(a, order[..k], n);
    assert Reader(a, a.cards[ue]) == ue;
    assert ue !in order[..k];
  }

  /** The round's readers so far, then a retune, then the rest of the readers. */
  ghost function SplitRound(s: Radio, before: seq<nat>, ue: nat, ul: nat, dl: nat, after: seq<nat>, n: nat): (t: Radio)
    requires Owned(s) && IsRound(s, before + after) && ue < |s.cards|
    ensures |t.rus| == |s.rus|
  {
    SplitReaders(s, before, after);
    AfterReads(s, before, n);
    SameTablesOwned(s, Reads(s, before, n));
    Reads(Retune(Reads(s, before, n), ue, ul, dl), after, n)
  }

  lemma SplitReaders(s: Radio, before: seq<nat>, after: seq<nat>)
    requires IsRound(s, before + after)
    ensures Distinct(s, before) && Distinct(s, after)
    ensures forall u :: 0 <= u < |s.cards| ==> (u in before <==> u !in after)
  {
    var all := before + after;
    assert forall k :: 0 <= k < |before| ==> before[k] == all[k];
    forall k | 0 <= k < |after|
      ensures after[k] == all[|before| + k] && after[k] < |s.cards|
    {
    }
    forall j, k | 0 <= j < k < |after|
      ensures after[j] != after[k]
    {
      assert all[|before| + j] != all[|before| + k];
    }
    forall j, k | 0 <= j < |before| && 0 <= k < |after|
      ensures before[j] != after[k]
    {
      assert all[j] != all[|before| + k];
    }
    forall u | 0 <= u < |s.cards|
      ensures u in before <==> u !in after
    {
      assert u in all;
      if u in before {
        var j :| 0 <= j < |before| && before[j] == u;
        assert forall k :: 0 <= k < |after| ==> after[k] != before[j];
      }
    }
  }

  /** Who reads a radio unit after a retune: the one moved to is read by the UE that moved, the one
      it left by UE 0, and every other by whoever read it before. */
  lemma ReadersAfterRetune(s: Radio, ue: nat, ul: nat, dl: nat, r: nat)
    requires Owned(s) && ue < |s.cards| && r < |s.rus| && CellOf(s, r) >= 0
    ensures var m := Retune(s, ue, ul, dl);
            && m.rus == s.rus && |m.cards| == |s.cards| && m.cards[ue] < |m.rus|
            && 0 <= CellOf(s, r) < |s.cells| == |m.cells|
            && (r == m.cards[ue] ==> Reader(m, r) == ue && Reader(s, r) == if r == s.cards[ue] then ue else 0)
            && (r != m.cards[ue] ==> Reader(m, r) == if r == s.cards[ue] then 0 else Reader(s, r))
            && (r == s.cards[ue] ==> Reader(s, r) == ue)
  {
    assert UeOk(s, ue) && RuOk(s, r);
    RetuneKeepsOwnership(s, ue, ul, dl);
    var m := Retune(s, ue, ul, dl);
    assert UeOk(m, ue) && RuOk(m, r);
    assert RuOk(s, m.cards[ue]) && RuOk(s, s.cards[ue]);
  }

  /** How often a radio unit is read in a round with a retune inside. */
  lemma ReadsInSplitRound(s: Radio, before: seq<nat>, ue: nat, ul: nat, dl: nat, after: seq<nat>, n: nat, r: nat)
    requires Owned(s) && IsRound(s, before + after) && ue < |s.cards| && r < |s.rus| && CellOf(s, r) >= 0
    ensures CellOf(s, r) < |s.cells|
    ensures var m, t := Retune(s, ue, ul, dl), SplitRound(s, before, ue, ul, dl, after, n);
            && |m.rus| == |s.rus| && CellOf(m, r) == CellOf(s, r) < |m.cells| && CellOf(t, r) == CellOf(s, r)
            && Elapsed(t.rus[r]) == Elapsed(s.rus[r]) + (if Reader(s, r) in before then n else 0)
                                                      + (if Reader(m, r) in after then n else 0)
  {
    SplitReaders(s, before, after);
    var early := Reads(s, before, n);
    AfterReads(s, before, n);
    SameTablesOwned(s, early);
    ReadersAfterRetune(s, ue, ul, dl, r);
    SameRetune(s, early, ue, ul, dl);
    RetuneKeepsOwnership(early, ue, ul, dl);
    AfterReads(Retune(early, ue, ul, dl), after, n);
  }

  /** A retune looks at the tables only. */
  lemma SameRetune(s: Radio, t: Radio, ue: nat, ul: nat, dl: nat)
    requires Owned(s) && SameTables(s, t) && ue < |s.cards|
    ensures Owned(t)
    ensures var a, b := Retune(s, ue, ul, dl), Retune(t, ue, ul, dl);
            a.cells == b.cells && a.cards == b.cards && b.rus == t.rus && a.rus == s.rus
  {
    SameTablesOwned(s, t);
    assert UeOk(s, ue) && UeOk(t, ue);
    SameSearch(s, t, s.cards[ue], ul, dl, |s.rus|);
  }

  lemma {:induction false} SameSearch(s: Radio, t: Radio, card: nat, ul: nat, dl: nat, n: nat)
    requires SameTables(s, t) && n <= |s.rus| && card < |s.rus| && 0 <= CellOf(s, card) < |s.cells|
    ensures Search(s, card, ul, dl, n) == Search(t, card, ul, dl, n)
  {
    if n > 0 {
      SameSearch(s, t, card, ul, dl, n - 1);
    }
  }

  /** A retune inside a round keeps the radio units in step if and only if the UE stays where it is,
      or it and UE 0 are on the same side of the retune: both have read already, or neither has. */
  lemma MidRoundRetuneIff(s: Radio, before: seq<nat>, ue: nat, ul: nat, dl: nat, after: seq<nat>, n: nat, time: int)
    requires Owned(s) && IsRound(s, before + after) && ue < |s.cards| && n > 0 && InStep(s, time)
    ensures InStep(SplitRound(s, before, ue, ul, dl, after, n), time + n)
       <==> Retune(s, ue, ul, dl).cards[ue] == s.cards[ue] || (ue in before <==> 0 in before)
  {
    var t, m := SplitRound(s, before, ue, ul, dl, after, n), Retune(s, ue, ul, dl);
    SplitReaders(s, before, after);
    assert UeOk(s, ue);
    RetuneKeepsOwnership(s, ue, ul, dl);
    assert UeOk(m, ue);
    forall r | 0 <= r < |s.rus| && CellOf(s, r) >= 0
      ensures CellOf(t, r) == CellOf(s, r)
      ensures r != s.cards[ue] && r != m.cards[ue] ==> Elapsed(t.rus[r]) == time + n
      ensures m.cards[ue] == s.cards[ue] ==> Elapsed(t.rus[r]) == time + n
      ensures m.cards[ue] != s.cards[ue] && r == s.cards[ue]
              ==> Elapsed(t.rus[r]) == time + (if ue in before then n else 0) + (if 0 in before then 0 else n)
      ensures m.cards[ue] != s.cards[ue] && r == m.cards[ue]
              ==> Elapsed(t.rus[r]) == time + (if 0 in before then n else 0) + (if ue in before then 0 else n)
    {
      ReadersAfterRetune(s, ue, ul, dl, r);
      ReadsInSplitRound(s, before, ue, ul, dl, after, n, r);
      ReaderIsUe(s, r);
    }
    TablesAfterSplit(s, before, ue, ul, dl, after, n);
    assert Elapsed(t.rus[s.cards[ue]]) == time + n <==> m.cards[ue] == s.cards[ue] || (ue in before <==> 0 in before);
  }

  lemma TablesAfterSplit(s: Radio, before: seq<nat>, ue: nat, ul: nat, dl: nat, after: seq<nat>, n: nat)
    requires Owned(s) && IsRound(s, before + after) && ue < |s.cards|
    ensures var t := SplitRound(s, before, ue, ul, dl, after, n);
            forall r :: 0 <= r < |s.rus| ==> CellOf(t, r) == CellOf(s, r)
  {
    SplitReaders(s, before, after);
    var early := Reads(s, before, n);
    AfterReads(s, before, n);
    SameTablesOwned(s, early);
    RetuneKeepsOwnership(early, ue, ul, dl);
    AfterReads(Retune(early, ue, ul, dl), after, n);
  }

  /** Two UEs on three radio units, the third free. */
  function ThreeRadios(): Radio {
    Radio([Cell(0, 0, 10, 10), Cell(1, 1, 20, 20), Cell(2, -1, 30, 30)],
          [Ru(0, 0, 0, false, []), Ru(1, 0, 0, false, []), Ru(2, 0, 0, false, [])], [0, 1])
  }

  lemma ThreeRadiosMove(t: Radio)
    requires SameTables(ThreeRadios(), t)
    ensures Owned(t) && Retune(t, 1, 30, 30) == Move(t, 1, 2)
  {
    SameTablesOwned(ThreeRadios(), t);
    assert Free(t, 2) && !Free(t, 0) && !Free(t, 1);
    assert Search(t, 1, 30, 30, 0) == 1;
    assert Search(t, 1, 30, 30, 1) == 1;
    assert Search(t, 1, 30, 30, 2) == 1;
    assert Search(t, 1, 30, 30, 3) == 2;
  }

  /** An instance of the failing side: UE 1 reads, moves to a free radio unit,
      and UE 0's read then advances the one it left a second time and the new one not at all. */
  lemma MidRoundRetune(time: int)
    ensures Owned(Read(ThreeRadios(), 1, 5)) && InStep(ThreeRadios(), 0)
    ensures !InStep(Read(Retune(Read(ThreeRadios(), 1, 5), 1, 30, 30), 0, 5), time)
  {
    var t := Read(ThreeRadios(), 1, 5);
    ThreeRadiosMove(t);
    var v := Read(Move(t, 1, 2), 0, 5);
    assert Elapsed(v.rus[1]) == 10 && Elapsed(v.rus[2]) == 0;
    assert CellOf(v, 1) == 1 && CellOf(v, 2) == 2;
  }
}
