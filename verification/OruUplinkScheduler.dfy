/** The O-RU's uplink scheduler: a 64-entry table of pending jobs, refilled from the
    fronthaul and scanned at every symbol of an uplink or mixed slot. */
module OruUplinkScheduler {
  import opened Arith

  const TABLE: nat := 64
  const SYMBOLS: nat := 14

  datatype UlJob = UlJob(frame: int, slot: int, symbol: int, numSymbols: int, antenna: int)

  /** A table entry. `tag` numbers admissions; the program has no such field, and nothing is
      decided by it. */
  datatype Pending = Pending(job: UlJob, active: bool, symbolsSent: nat, tag: nat)

  /** One call of dispatch_ul_work. */
  datatype WorkItem = WorkItem(frame: nat, slot: nat, symbol: nat, job: UlJob, tag: nat)

  datatype Time = Time(spf: nat, frame: nat, slot: nat) {
    predicate Valid() { frame < 1024 && slot < spf }

    function Advance(): Time {
      if slot + 1 != spf then Time(spf, frame, slot + 1)
      else Time(spf, if frame + 1 == 1024 then 0 else frame + 1, 0)
    }
  }

  /** `admitted` and `sent` are history: jobs put into the table, items dispatched. */
  datatype Sched = Sched(now: Time, table: seq<Pending>, admitted: seq<UlJob>, sent: seq<WorkItem>)

  // ------------------------------------------------------------- slot comparison

  /** A difference of slot numbers folded into half a cycle of 1024 frames. */
  function Fold(raw: int, total: nat): int {
    if raw < -(total / 2) then raw + total
    else if raw > total / 2 then raw - total
    else raw
  }

  function DiffSlots(j: UlJob, t: Time): int {
    Fold((j.frame * t.spf + j.slot) - (t.frame * t.spf + t.slot), 1024 * t.spf)
  }

  /** With both slots counted without wrap-around, the folded difference is the true one
      exactly when they are less than half a cycle apart, or exactly half a cycle apart with
      no wrap in between. */
  lemma FoldIsTheTrueDifferenceIff(job: nat, now: nat, total: nat)
    requires total > 0 && total % 2 == 0
    ensures Fold(job % total - now % total, total) == job - now
       <==> (-(total / 2) < job - now < total / 2
             || (job - now == total / 2 && now % total < total / 2)
             || (job - now == -(total / 2) && job % total < total / 2))
  {
    var d, c := Cycles(job, now, total);
    FoldAcross(job - now, job % total - now % total, d, c, total);
  }

  lemma Cycles(job: nat, now: nat, total: nat) returns (d: int, c: int)
    requires total > 0
    ensures c == d * total && job - now == c + (job % total - now % total)
    ensures d >= 2 ==> c >= 2 * total
    ensures d <= -2 ==> c <= -2 * total
  {
    var qj, qn := job / total, now / total;
    d := qj - qn;
    c := d * total;
    assert (qj - qn) * total == qj * total - qn * total;
    if d >= 2 {
      assert (d - 2) * total >= 0;
    } else if d <= -2 {
      assert (-2 - d) * total >= 0;
    }
  }

  lemma FoldAcross(diff: int, raw: int, d: int, c: int, total: nat)
    requires 0 - total < raw < total && total % 2 == 0
    requires diff == c + raw
    requires (d == 0 ==> c == 0) && (d == 1 ==> c == total) && (d == -1 ==> c == 0 - total)
    requires d >= 2 ==> c >= 2 * total
    requires d <= -2 ==> c <= -2 * total
    ensures Fold(raw, total) == diff
       <==> -(total / 2) < diff < total / 2 || (diff == raw && (diff == total / 2 || diff == -(total / 2)))
  {
  }

  // -------------------------------------------------------------- one symbol's scan

  /** The loop body for one active entry whose slot is d slots away: the entry afterwards,
      and what it dispatched. */
  function ScanActive(p: Pending, d: int, t: Time, symbol: nat): (Pending, seq<WorkItem>) {
    if d > 0 then (p, [])
    else if d < 0 then (p.(active := false), [])
    else
      var expected := p.job.symbol + p.symbolsSent;
      if expected < symbol then (p.(active := false), [])
      else if expected == symbol then
        (p.(symbolsSent := p.symbolsSent + 1, active := p.symbolsSent + 1 != p.job.numSymbols),
         [WorkItem(t.frame, t.slot, symbol, p.job, p.tag)])
      else (p, [])
  }

  function ScanEntry(p: Pending, t: Time, symbol: nat): (Pending, seq<WorkItem>) {
    if p.active then ScanActive(p, DiffSlots(p.job, t), t, symbol) else (p, [])
  }

  function ScanTable(table: seq<Pending>, t: Time, symbol: nat): seq<Pending> {
    seq(|table|, i requires 0 <= i < |table| => ScanEntry(table[i], t, symbol).0)
  }

  function Dispatched(table: seq<Pending>, t: Time, symbol: nat): seq<WorkItem> {
    if table == [] then []
    else Dispatched(table[..|table| - 1], t, symbol) + ScanEntry(table[|table| - 1], t, symbol).1
  }

  function Scan(s: Sched, symbol: nat): Sched {
    s.(table := ScanTable(s.table, s.now, symbol), sent := s.sent + Dispatched(s.table, s.now, symbol))
  }

  // ------------------------------------------------------------------- admission

  function FirstFree(table: seq<Pending>): (i: nat)
    ensures i <= |table|
    ensures forall k :: 0 <= k < i ==> table[k].active
    ensures i < |table| ==> !table[i].active
  {
    if table == [] || !table[0].active then 0 else 1 + FirstFree(table[1..])
  }

  /** A polled job takes the first free entry; with none left it is dropped. */
  function Admit(s: Sched, j: UlJob): Sched {
    var i := FirstFree(s.table);
    if i == |s.table| then s
    else s.(table := s.table[i := Pending(j, true, 0, |s.admitted|)], admitted := s.admitted + [j])
  }

  function Drain(s: Sched, jobs: seq<UlJob>): Sched {
    if jobs == [] then s else Admit(Drain(s, jobs[..|jobs| - 1]), jobs[|jobs| - 1])
  }

  // ------------------------------------------------------------------ slots and runs

  function Symbol(s: Sched, symbol: nat, jobs: seq<UlJob>, ul: bool): Sched {
    var s1 := Drain(s, jobs);
    if ul then Scan(s1, symbol) else s1
  }

  /** The first n symbols of a slot; arrivals[k] is what polling returns at symbol k. */
  function Symbols(s: Sched, n: nat, arrivals: seq<seq<UlJob>>, ul: bool): Sched
    requires n <= |arrivals|
  {
    if n == 0 then s else Symbol(Symbols(s, n - 1, arrivals, ul), n - 1, arrivals[n - 1], ul)
  }

  /** A slot: its type (uplink or mixed, or neither) and what arrives during it. */
  datatype Slot = Slot(ul: bool, arrivals: seq<seq<UlJob>>)

  function OneSlot(s: Sched, x: Slot): Sched
    requires |x.arrivals| == SYMBOLS
  {
    var s1 := Symbols(s, SYMBOLS, x.arrivals, x.ul);
    s1.(now := s1.now.Advance())
  }

  predicate WellTyped(run: seq<Slot>) {
    forall k :: 0 <= k < |run| ==> |run[k].arrivals| == SYMBOLS
  }

  /** Any number of slots. The loop tests its exit flag between slots only, so a run that is
      stopped in the middle of a slot is one that ends after that slot. */
  function Slots(s: Sched, run: seq<Slot>): Sched
    requires WellTyped(run)
  {
    if run == [] then s else OneSlot(Slots(s, run[..|run| - 1]), run[|run| - 1])
  }

  predicate Initial(s: Sched) {
    && s.now.Valid() && |s.table| == TABLE && s.admitted == [] && s.sent == []
    && forall i :: 0 <= i < |s.table| ==> !s.table[i].active
  }

  // -------------------------------------------------------------- the imperative form

  class UlScheduler {
    var now: Time
    var pending: array<Pending>
    var sent: seq<WorkItem>
    var admitted: seq<UlJob>

    ghost function View(): Sched
      reads this, pending
    {
      Sched(now, pending[..], admitted, sent)
    }

    constructor (t: Time)
      requires t.Valid()
      ensures Initial(View()) && View().now == t && fresh(pending)
    {
      now := t;
      sent := [];
      admitted := [];
      var empty := Pending(UlJob(0, 0, 0, 0, 0), false, 0, 0);
      pending := new Pending[TABLE](_ => empty);
    }

    /** Drain what the fronthaul has. */
    method DrainJobs(jobs: seq<UlJob>)
      requires pending.Length == TABLE
      modifies this`admitted, pending
      ensures View() == Drain(old(View()), jobs)
    {
      assert jobs[..0] == [];
      for n := 0 to |jobs|
        invariant View() == Drain(old(View()), jobs[..n])
      {
        ghost var before := View();
        assert jobs[..n + 1][..n] == jobs[..n];
        var i := 0;
        while i < pending.Length && pending[i].active
          invariant i <= pending.Length
          invariant forall k :: 0 <= k < i ==> pending[k].active
        {
          i := i + 1;
        }
        FirstFreeIs(pending[..], i);
        if i < pending.Length {
          pending[i] := Pending(jobs[n], true, 0, |admitted|);
          admitted := admitted + [jobs[n]];
        }
        assert View() == Admit(before, jobs[n]);
      }
      assert jobs[..|jobs|] == jobs;
    }

    /** Scan the table at one symbol of an uplink or mixed slot. */
    method ScanPending(symbol: nat)
      modifies this`sent, pending
      ensures View() == Scan(old(View()), symbol)
    {
      ghost var before := pending[..];
      for i := 0 to pending.Length
        invariant now == old(now) && admitted == old(admitted)
        invariant forall k :: 0 <= k < i ==> pending[k] == ScanEntry(before[k], now, symbol).0
        invariant forall k :: i <= k < pending.Length ==> pending[k] == before[k]
        invariant sent == old(sent) + Dispatched(before[..i], now, symbol)
      {
        assert before[..i + 1][..i] == before[..i];
        ghost var done := sent;
        var p := pending[i];
        if p.active {
          var diff := DiffSlots(p.job, now);
          if diff < 0 {
            pending[i] := p.(active := false);
          } else if diff == 0 {
            var expected := p.job.symbol + p.symbolsSent;
            if expected < symbol {
              pending[i] := p.(active := false);
            } else if expected == symbol {
              sent := sent + [WorkItem(now.frame, now.slot, symbol, p.job, p.tag)];
              pending[i] := p.(symbolsSent := p.symbolsSent + 1, active := p.symbolsSent + 1 != p.job.numSymbols);
            }
          }
        }
        assert sent == done + ScanEntry(before[i], now, symbol).1;
      }
      assert before[..pending.Length] == before;
      assert pending[..] == ScanTable(before, now, symbol);
    }

    /** One turn of the outer loop: fourteen symbols, then the next slot. */
    method RunSlot(x: Slot)
      requires pending.Length == TABLE && |x.arrivals| == SYMBOLS
      modifies this, pending
      ensures pending == old(pending)
      ensures View() == OneSlot(old(View()), x)
    {
      for symbol := 0 to SYMBOLS
        invariant pending == old(pending)
        invariant View() == Symbols(old(View()), symbol, x.arrivals, x.ul)
      {
        DrainJobs(x.arrivals[symbol]);
        if x.ul {
          ScanPending(symbol);
        }
      }
      var slot := now.slot + 1;
      var frame := now.frame;
      if slot == now.spf {
        slot := 0;
        frame := frame + 1;
        if frame == 1024 {
          frame := 0;
        }
      }
      now := Time(now.spf, frame, slot);
    }
  }

  lemma {:induction false} FirstFreeIs(table: seq<Pending>, i: nat)
    requires i <= |table| && (forall k :: 0 <= k < i ==> table[k].active) && (i < |table| ==> !table[i].active)
    ensures FirstFree(table) == i
  {
  }

  // -------------------------------------------------------------------- the jobs' fate

  /** The items dispatched for one admission, in order. */
  function Of(sent: seq<WorkItem>, tag: nat): seq<WorkItem> {
    if sent == [] then []
    else
      var last := sent[|sent| - 1];
      Of(sent[..|sent| - 1], tag) + (if last.tag == tag then [last] else [])
  }

  lemma {:induction false} OfAppend(a: seq<WorkItem>, b: seq<WorkItem>, tag: nat)
    ensures Of(a + b, tag) == Of(a, tag) + Of(b, tag)
  {
    if b == [] {
      assert a + b == a;
    } else {
      assert (a + b)[..|a + b| - 1] == a + b[..|b| - 1];
      OfAppend(a, b[..|b| - 1], tag);
    }
  }

  /** Consecutive symbols from the job's first one on, all in the job's own slot. */
  ghost predicate InOrder(items: seq<WorkItem>, j: UlJob, spf: nat) {
    forall k :: 0 <= k < |items| ==>
      && items[k].job == j
      && items[k].symbol == j.symbol + k
      && DiffSlots(j, Time(spf, items[k].frame, items[k].slot)) == 0
  }

  /** At least one symbol, none beyond the slot. */
  predicate WellFormed(j: UlJob) {
    j.numSymbols >= 1 && j.symbol + j.numSymbols <= SYMBOLS
  }

  /** What a job that gets started gets in all. */
  function Final(j: UlJob): int {
    if WellFormed(j) then j.numSymbols else SYMBOLS - j.symbol
  }

  /** An active entry just before symbol y: it has had what `sent` says, and if that is
      neither nothing nor the rest of the slot, its slot is the current one and y is next. */
  ghost predicate EntryOk(s: Sched, p: Pending, y: nat, ul: bool) {
    && p.tag < |s.admitted| && p.job == s.admitted[p.tag]
    && |Of(s.sent, p.tag)| == p.symbolsSent
    && (p.job.numSymbols >= 1 ==> p.symbolsSent < p.job.numSymbols)
    && (p.symbolsSent > 0 ==>
          && p.job.symbol >= 0
          && (p.job.symbol + p.symbolsSent == SYMBOLS
              || (y > 0 && ul && DiffSlots(p.job, s.now) == 0 && p.job.symbol + p.symbolsSent == y)))
  }

  ghost predicate Pends(table: seq<Pending>, tag: nat) {
    exists i :: 0 <= i < |table| && table[i].active && table[i].tag == tag
  }

  ghost predicate TagOk(s: Sched, tag: nat)
    requires tag < |s.admitted|
  {
    var items := Of(s.sent, tag);
    && InOrder(items, s.admitted[tag], s.now.spf)
    && (!Pends(s.table, tag) ==> |items| == 0 || |items| == Final(s.admitted[tag]))
  }

  ghost predicate DistinctTags(table: seq<Pending>) {
    forall i, k :: 0 <= i < k < |table| && table[i].active && table[k].active ==> table[i].tag != table[k].tag
  }

  ghost predicate Inv(s: Sched, y: nat, ul: bool) {
    && s.now.Valid()
    && DistinctTags(s.table)
    && (forall i :: 0 <= i < |s.table| && s.table[i].active ==> EntryOk(s, s.table[i], y, ul))
    && (forall tag :: 0 <= tag < |s.admitted| ==> TagOk(s, tag))
    && (forall k :: 0 <= k < |s.sent| ==> s.sent[k].tag < |s.admitted|)
  }

  lemma {:induction false} NothingOf(sent: seq<WorkItem>, tag: nat)
    requires forall k :: 0 <= k < |sent| ==> sent[k].tag != tag
    ensures Of(sent, tag) == []
  {
    if sent != [] {
      NothingOf(sent[..|sent| - 1], tag);
    }
  }

  lemma AdmitKeeps(s: Sched, j: UlJob, y: nat, ul: bool)
    requires Inv(s, y, ul)
    ensures Inv(Admit(s, j), y, ul)
  {
    var i := FirstFree(s.table);
    if i < |s.table| {
      var t := Admit(s, j);
      var n := |s.admitted|;
      NothingOf(s.sent, n);
      forall tag | 0 <= tag < |t.admitted|
        ensures TagOk(t, tag)
      {
        if tag < n {
          assert TagOk(s, tag);
          if Pends(s.table, tag) {
            var k :| 0 <= k < |s.table| && s.table[k].active && s.table[k].tag == tag;
            assert t.table[k] == s.table[k];
          }
        }
      }
    }
  }

  lemma {:induction false} DrainKeeps(s: Sched, jobs: seq<UlJob>, y: nat, ul: bool)
    requires Inv(s, y, ul)
    ensures Inv(Drain(s, jobs), y, ul)
  {
    if jobs != [] {
      DrainKeeps(s, jobs[..|jobs| - 1], y, ul);
      AdmitKeeps(Drain(s, jobs[..|jobs| - 1]), jobs[|jobs| - 1], y, ul);
    }
  }

  /** Entries other than the tag's own dispatch nothing for it. */
  lemma {:induction false} DispatchedOf(table: seq<Pending>, t: Time, symbol: nat, i: nat)
    requires DistinctTags(table) && i < |table| && table[i].active
    ensures Of(Dispatched(table, t, symbol), table[i].tag) == ScanEntry(table[i], t, symbol).1
  {
    var n := |table| - 1;
    var rest := table[..n];
    var tag := table[i].tag;
    OfAppend(Dispatched(rest, t, symbol), ScanEntry(table[n], t, symbol).1, tag);
    if i == n {
      DispatchedNone(rest, t, symbol, tag);
      OfOne(ScanEntry(table[n], t, symbol).1, tag);
    } else {
      DispatchedOf(rest, t, symbol, i);
      NothingOf(ScanEntry(table[n], t, symbol).1, tag);
    }
  }

  lemma OfOne(items: seq<WorkItem>, tag: nat)
    requires |items| <= 1 && (|items| == 1 ==> items[0].tag == tag)
    ensures Of(items, tag) == items
  {
    if |items| == 1 {
      assert items[..0] == [];
      assert Of(items[..0], tag) == [];
    }
  }

  lemma {:induction false} DispatchedNone(table: seq<Pending>, t: Time, symbol: nat, tag: nat)
    requires !Pends(table, tag)
    ensures Of(Dispatched(table, t, symbol), tag) == []
  {
    if table != [] {
      var n := |table| - 1;
      OfAppend(Dispatched(table[..n], t, symbol), ScanEntry(table[n], t, symbol).1, tag);
      assert forall k :: 0 <= k < n ==> table[..n][k] == table[k];
      DispatchedNone(table[..n], t, symbol, tag);
      NothingOf(ScanEntry(table[n], t, symbol).1, tag);
    }
  }

  lemma {:induction false} DispatchedTags(table: seq<Pending>, t: Time, symbol: nat, bound: nat)
    requires forall i :: 0 <= i < |table| && table[i].active ==> table[i].tag < bound
    ensures forall k :: 0 <= k < |Dispatched(table, t, symbol)| ==> Dispatched(table, t, symbol)[k].tag < bound
  {
    if table != [] {
      DispatchedTags(table[..|table| - 1], t, symbol, bound);
    }
  }

  /** Where an entry stands, given its slot's distance d: n items so far, y is next. */
  ghost predicate CountOk(p: Pending, n: nat, d: int, y: nat) {
    && n == p.symbolsSent
    && (p.job.numSymbols >= 1 ==> n < p.job.numSymbols)
    && (n > 0 ==>
          && p.job.symbol >= 0
          && (p.job.symbol + n == SYMBOLS || (y > 0 && d == 0 && p.job.symbol + n == y)))
  }

  lemma CountStep(p: Pending, n: nat, d: int, t: Time, y: nat)
    requires p.active && CountOk(p, n, d, y) && y < SYMBOLS
    ensures var (q, items) := ScanActive(p, d, t, y);
            && q.job == p.job && q.tag == p.tag
            && (q.active ==> CountOk(q, n + |items|, d, y + 1))
            && (!q.active ==> n + |items| == 0 || n + |items| == Final(p.job))
            && (items != [] ==> d == 0 && items == [WorkItem(t.frame, t.slot, p.job.symbol + n, p.job, p.tag)])
  {
  }

  lemma InOrderExtends(items: seq<WorkItem>, more: seq<WorkItem>, j: UlJob, t: Time, tag: nat)
    requires InOrder(items, j, t.spf) && t.Valid()
    requires more == [] || (DiffSlots(j, t) == 0 && j.symbol + |items| >= 0
                            && more == [WorkItem(t.frame, t.slot, j.symbol + |items|, j, tag)])
    ensures InOrder(items + more, j, t.spf)
  {
    assert t == Time(t.spf, t.frame, t.slot);
  }

  /** One scan adds to a job's items what its own entry dispatches. */
  lemma ItemsOfScan(s: Sched, i: nat, y: nat)
    requires DistinctTags(s.table) && i < |s.table| && s.table[i].active
    ensures Of(Scan(s, y).sent, s.table[i].tag) == Of(s.sent, s.table[i].tag) + ScanEntry(s.table[i], s.now, y).1
  {
    DispatchedOf(s.table, s.now, y, i);
    OfAppend(s.sent, Dispatched(s.table, s.now, y), s.table[i].tag);
  }

  /** One entry over one scan: how many items its job has had. */
  lemma EntryCount(s: Sched, i: nat, y: nat)
    requires Inv(s, y, true) && y < SYMBOLS && i < |s.table| && s.table[i].active
    ensures var t, p := Scan(s, y), ScanEntry(s.table[i], s.now, y).0;
            && (p.active ==> EntryOk(t, p, y + 1, true))
            && (!p.active ==> |Of(t.sent, p.tag)| == 0 || |Of(t.sent, p.tag)| == Final(p.job))
  {
    var p := s.table[i];
    assert EntryOk(s, p, y, true);
    ItemsOfScan(s, i, y);
    CountStep(p, p.symbolsSent, DiffSlots(p.job, s.now), s.now, y);
  }

  /** One entry over one scan: its job's items stay in order and in their slot. */
  lemma EntryOrder(s: Sched, i: nat, y: nat)
    requires Inv(s, y, true) && y < SYMBOLS && i < |s.table| && s.table[i].active
    ensures InOrder(Of(Scan(s, y).sent, s.table[i].tag), s.table[i].job, s.now.spf)
  {
    var p := s.table[i];
    var d := DiffSlots(p.job, s.now);
    assert EntryOk(s, p, y, true) && TagOk(s, p.tag);
    ItemsOfScan(s, i, y);
    CountStep(p, p.symbolsSent, d, s.now, y);
    InOrderExtends(Of(s.sent, p.tag), ScanActive(p, d, s.now, y).1, p.job, s.now, p.tag);
  }

  /** One job over one scan, whether it is still in the table or not. */
  lemma TagScan(s: Sched, y: nat, tag: nat)
    requires Inv(s, y, true) && y < SYMBOLS && tag < |s.admitted|
    ensures TagOk(Scan(s, y), tag)
  {
    var t := Scan(s, y);
    assert TagOk(s, tag);
    if Pends(s.table, tag) {
      var i :| 0 <= i < |s.table| && s.table[i].active && s.table[i].tag == tag;
      EntryCount(s, i, y);
      EntryOrder(s, i, y);
      assert t.table[i] == ScanEntry(s.table[i], s.now, y).0;
    } else {
      DispatchedNone(s.table, s.now, y, tag);
      OfAppend(s.sent, Dispatched(s.table, s.now, y), tag);
    }
  }

  lemma ScanKeeps(s: Sched, y: nat)
    requires Inv(s, y, true) && y < SYMBOLS
    ensures Inv(Scan(s, y), y + 1, true)
  {
    var t, next := Scan(s, y), y + 1;
    DispatchedTags(s.table, s.now, y, |s.admitted|);
    forall i | 0 <= i < |t.table| && t.table[i].active
      ensures EntryOk(t, t.table[i], next, true)
    {
      EntryCount(s, i, y);
    }
    forall tag | 0 <= tag < |t.admitted|
      ensures TagOk(t, tag)
    {
      TagScan(s, y, tag);
    }
  }

  lemma SymbolKeeps(s: Sched, y: nat, jobs: seq<UlJob>, ul: bool)
    requires Inv(s, y, ul) && y < SYMBOLS
    ensures Inv(Symbol(s, y, jobs, ul), y + 1, ul)
    ensures Symbol(s, y, jobs, ul).now == s.now
  {
    DrainKeeps(s, jobs, y, ul);
    DrainKeepsNow(s, jobs);
    var u := Drain(s, jobs);
    if ul {
      ScanKeeps(u, y);
    } else {
      forall i | 0 <= i < |u.table| && u.table[i].active
        ensures EntryOk(u, u.table[i], y + 1, ul)
      {
        assert EntryOk(u, u.table[i], y, ul);
      }
    }
  }

  lemma {:induction false} SymbolsKeep(s: Sched, n: nat, arrivals: seq<seq<UlJob>>, ul: bool)
    requires Inv(s, 0, ul) && n <= |arrivals| && n <= SYMBOLS
    ensures Inv(Symbols(s, n, arrivals, ul), n, ul)
    ensures Symbols(s, n, arrivals, ul).now == s.now
  {
    if n > 0 {
      SymbolsKeep(s, n - 1, arrivals, ul);
      SymbolKeeps(Symbols(s, n - 1, arrivals, ul), n - 1, arrivals[n - 1], ul);
    }
  }

  lemma {:induction false} DrainKeepsNow(s: Sched, jobs: seq<UlJob>)
    ensures Drain(s, jobs).now == s.now
  {
    if jobs != [] {
      DrainKeepsNow(s, jobs[..|jobs| - 1]);
    }
  }

  /** At a slot boundary no job is in the middle, so the next slot's type does not matter. */
  lemma OneSlotKeeps(s: Sched, x: Slot, next: bool)
    requires Inv(s, 0, x.ul) && |x.arrivals| == SYMBOLS
    ensures Inv(OneSlot(s, x), 0, next)
    ensures OneSlot(s, x).now == s.now.Advance()
  {
    SymbolsKeep(s, SYMBOLS, x.arrivals, x.ul);
    var t := Symbols(s, SYMBOLS, x.arrivals, x.ul);
    var u := OneSlot(s, x);
    forall i | 0 <= i < |u.table| && u.table[i].active
      ensures EntryOk(u, u.table[i], 0, next)
    {
      assert EntryOk(t, t.table[i], SYMBOLS, x.ul);
    }
    forall tag | 0 <= tag < |u.admitted|
      ensures TagOk(u, tag)
    {
      assert TagOk(t, tag);
    }
  }

  lemma {:induction false} SlotsKeep(s: Sched, run: seq<Slot>, next: bool)
    requires Initial(s) && WellTyped(run)
    ensures Inv(Slots(s, run), 0, next)
    ensures Slots(s, run).now.spf == s.now.spf
  {
    if run != [] {
      var n := |run| - 1;
      SlotsKeep(s, run[..n], run[n].ul);
      OneSlotKeeps(Slots(s, run[..n]), run[n], next);
    }
  }

  // ---------------------------------------------------------------------- theorems

  /** At a slot boundary. */
  lemma CountAtBoundary(t: Sched, tag: nat)
    requires Inv(t, 0, true) && tag < |t.admitted|
    ensures var j, items := t.admitted[tag], Of(t.sent, tag);
            && (|items| == 0 || |items| == Final(j))
            && (WellFormed(j) && Pends(t.table, tag) ==> items == [])
  {
    assert TagOk(t, tag);
    if Pends(t.table, tag) {
      var i :| 0 <= i < |t.table| && t.table[i].active && t.table[i].tag == tag;
      assert EntryOk(t, t.table[i], 0, true);
    }
  }

  /** All or nothing, for every job ever admitted, over every run and every arrival pattern:
      what was dispatched for it is nothing, or its symbols from the first on, each once, in
      order, in its own slot: all of them if the job is well formed, and otherwise up to the
      last symbol of the slot. */
  lemma EveryJobAllOrNothing(s: Sched, run: seq<Slot>, tag: nat)
    requires Initial(s) && WellTyped(run) && tag < |Slots(s, run).admitted|
    ensures var t := Slots(s, run);
            var j, items := t.admitted[tag], Of(t.sent, tag);
            && InOrder(items, j, s.now.spf)
            && (|items| == 0 || |items| == Final(j))
            && (WellFormed(j) && Pends(t.table, tag) ==> items == [])
  {
    SlotsKeep(s, run, true);
    assert TagOk(Slots(s, run), tag);
    CountAtBoundary(Slots(s, run), tag);
  }

  /** A job that is started gets exactly the symbols it asks for if and only if it asks for at
      least one and for none beyond the slot. */
  lemma StartedJobIsServedIff(s: Sched, run: seq<Slot>, tag: nat)
    requires Initial(s) && WellTyped(run) && tag < |Slots(s, run).admitted|
    requires Of(Slots(s, run).sent, tag) != []
    ensures var t := Slots(s, run);
            |Of(t.sent, tag)| == t.admitted[tag].numSymbols <==> WellFormed(t.admitted[tag])
  {
    EveryJobAllOrNothing(s, run, tag);
  }

  // ------------------------------------------------------------- jobs get their turn

  /** Admissions leave active entries alone. */
  lemma {:induction false} DrainKeepsEntry(s: Sched, jobs: seq<UlJob>, i: nat)
    requires i < |s.table| && s.table[i].active
    ensures i < |Drain(s, jobs).table| && Drain(s, jobs).table[i] == s.table[i]
    ensures s.sent == Drain(s, jobs).sent
  {
    if jobs != [] {
      DrainKeepsEntry(s, jobs[..|jobs| - 1], i);
    }
  }

  lemma {:induction false} OfGrows(a: seq<WorkItem>, b: seq<WorkItem>, tag: nat)
    requires a <= b
    ensures |Of(a, tag)| <= |Of(b, tag)|
  {
    assert b == a + b[|a|..];
    OfAppend(a, b[|a|..], tag);
  }

  lemma {:induction false} DrainSendsNothing(s: Sched, jobs: seq<UlJob>)
    ensures Drain(s, jobs).sent == s.sent
  {
    if jobs != [] {
      DrainSendsNothing(s, jobs[..|jobs| - 1]);
    }
  }

  lemma {:induction false} SymbolsGrow(s: Sched, m: nat, n: nat, arrivals: seq<seq<UlJob>>, ul: bool)
    requires m <= n <= |arrivals|
    ensures Symbols(s, m, arrivals, ul).sent <= Symbols(s, n, arrivals, ul).sent
  {
    if m < n {
      SymbolsGrow(s, m, n - 1, arrivals, ul);
      DrainSendsNothing(Symbols(s, n - 1, arrivals, ul), arrivals[n - 1]);
    }
  }

  lemma {:induction false} SymbolsKeepNow(s: Sched, n: nat, arrivals: seq<seq<UlJob>>, ul: bool)
    requires n <= |arrivals|
    ensures Symbols(s, n, arrivals, ul).now == s.now
  {
    if n > 0 {
      SymbolsKeepNow(s, n - 1, arrivals, ul);
      DrainKeepsNow(Symbols(s, n - 1, arrivals, ul), arrivals[n - 1]);
    }
  }

  /** An entry with nothing to do at symbol y. */
  predicate NotYet(p: Pending, t: Time, y: nat, ul: bool) {
    !ul || DiffSlots(p.job, t) > 0 || (DiffSlots(p.job, t) == 0 && y < p.job.symbol + p.symbolsSent)
  }

  lemma EntryStaysOnce(s: Sched, y: nat, jobs: seq<UlJob>, ul: bool, i: nat)
    requires i < |s.table| && s.table[i].active && NotYet(s.table[i], s.now, y, ul)
    ensures i < |Symbol(s, y, jobs, ul).table| && Symbol(s, y, jobs, ul).table[i] == s.table[i]
  {
    DrainKeepsEntry(s, jobs, i);
    DrainKeepsNow(s, jobs);
  }

  /** From symbol m on, an entry whose slot is still to come, or whose symbol is, or in a slot that
      is not scanned, stays as it is. */
  lemma {:induction false} EntryStays(s: Sched, m: nat, n: nat, arrivals: seq<seq<UlJob>>, ul: bool, i: nat, p: Pending)
    requires m <= n <= |arrivals| && Has(Symbols(s, m, arrivals, ul), i, p) && p.active
    requires n == m || NotYet(p, s.now, n - 1, ul)
    ensures Has(Symbols(s, n, arrivals, ul), i, p)
    decreases n
  {
    if n > m {
      EntryStays(s, m, n - 1, arrivals, ul, i, p);
      SymbolsKeepNow(s, n - 1, arrivals, ul);
      EntryStaysOnce(Symbols(s, n - 1, arrivals, ul), n - 1, arrivals[n - 1], ul, i);
    }
  }

  predicate Has(s: Sched, i: nat, p: Pending) {
    i < |s.table| && s.table[i] == p
  }

  /** At the job's own first symbol its first item goes out. */
  lemma FirstItemGoesOut(u: Sched, i: nat)
    requires i < |u.table| && u.table[i].active && DistinctTags(u.table)
    requires var p := u.table[i]; DiffSlots(p.job, u.now) == 0 && p.symbolsSent == 0 && p.job.symbol >= 0
    ensures var p := u.table[i]; |Of(Scan(u, p.job.symbol).sent, p.tag)| >= 1
  {
    ItemsOfScan(u, i, u.table[i].job.symbol);
  }

  /** The state in which symbol y of a slot is scanned. */
  function AtScan(s: Sched, x: Slot, y: nat): Sched
    requires y < |x.arrivals|
  {
    Drain(Symbols(s, y, x.arrivals, true), x.arrivals[y])
  }

  lemma AtScanHolds(s: Sched, x: Slot, y: nat)
    requires Inv(s, 0, true) && y < |x.arrivals| && |x.arrivals| == SYMBOLS
    ensures Inv(Symbols(s, y, x.arrivals, true), y, true) && Inv(AtScan(s, x, y), y, true)
    ensures AtScan(s, x, y).now == s.now
    ensures Symbols(s, y + 1, x.arrivals, true) == Scan(AtScan(s, x, y), y)
  {
    SymbolsKeep(s, y, x.arrivals, true);
    DrainKeeps(Symbols(s, y, x.arrivals, true), x.arrivals[y], y, true);
    DrainKeepsNow(Symbols(s, y, x.arrivals, true), x.arrivals[y]);
  }

  lemma NotYetScanned(u: Sched, y: nat, i: nat, p: Pending)
    requires Has(u, i, p) && p.active && NotYet(p, u.now, y, true)
    ensures Has(Scan(u, y), i, p)
  {
  }

  lemma StaysThroughPolling(s: Sched, x: Slot, k: nat, i: nat, p: Pending)
    requires k < |x.arrivals| && Has(Symbols(s, k, x.arrivals, true), i, p) && p.active
    ensures Has(AtScan(s, x, k), i, p)
  {
    DrainKeepsEntry(Symbols(s, k, x.arrivals, true), x.arrivals[k], i);
  }

  lemma ScanStep(s: Sched, x: Slot, y: nat)
    requires y < |x.arrivals|
    ensures AtScan(s, x, y).now == s.now
    ensures Symbols(s, y + 1, x.arrivals, true) == Scan(AtScan(s, x, y), y)
  {
    SymbolsKeepNow(s, y, x.arrivals, true);
    DrainKeepsNow(Symbols(s, y, x.arrivals, true), x.arrivals[y]);
  }

  /** An entry of this slot is scanned unchanged until its symbol. */
  lemma StillThere(s: Sched, x: Slot, y: nat, k: nat, i: nat, p: Pending)
    requires |x.arrivals| == SYMBOLS && y <= k < SYMBOLS
    requires Has(AtScan(s, x, y), i, p) && p.active && DiffSlots(p.job, s.now) == 0 && k <= p.job.symbol + p.symbolsSent
    ensures Has(AtScan(s, x, k), i, p)
  {
    if y < k {
      ScanStep(s, x, y);
      NotYetScanned(AtScan(s, x, y), y, i, p);
      EntryStays(s, y + 1, k, x.arrivals, true, i, p);
      StaysThroughPolling(s, x, k, i, p);
    }
  }

  /** A job that is in the table at symbol y of its own uplink slot, not yet started and its first
      symbol not yet over, has been started by the end of the slot. */
  lemma StartedInOwnSlot(s: Sched, x: Slot, y: nat, i: nat)
    requires Inv(s, 0, true) && |x.arrivals| == SYMBOLS && y < SYMBOLS
    requires i < |AtScan(s, x, y).table| && AtScan(s, x, y).table[i].active
    requires var p := AtScan(s, x, y).table[i];
             DiffSlots(p.job, s.now) == 0 && p.symbolsSent == 0 && y <= p.job.symbol < SYMBOLS
    ensures |Of(Symbols(s, SYMBOLS, x.arrivals, true).sent, AtScan(s, x, y).table[i].tag)| >= 1
  {
    var p := AtScan(s, x, y).table[i];
    var k: nat := p.job.symbol;
    StillThere(s, x, y, k, i, p);
    AtScanHolds(s, x, k);
    FirstItemGoesOut(AtScan(s, x, k), i);
    SymbolsGrow(s, k + 1, SYMBOLS, x.arrivals, true);
    OfGrows(Symbols(s, k + 1, x.arrivals, true).sent, Symbols(s, SYMBOLS, x.arrivals, true).sent, p.tag);
  }

  /** Slot by slot a future job comes one slot nearer, across the wrap of the frame counter. */
  lemma OneSlotNearer(j: UlJob, t: Time)
    requires t.Valid() && 0 <= j.frame < 1024 && 0 <= j.slot < t.spf && DiffSlots(j, t) > 0
    ensures t.Advance().Valid() && DiffSlots(j, t.Advance()) == DiffSlots(j, t) - 1
  {
    SlotNumberBelow(j.frame, j.slot, t.spf);
    SlotNumberBelow(t.frame, t.slot, t.spf);
    NumbersAtLeastZero(j.frame, t.frame, t.spf);
    AddOneFactor(t.frame, t.spf);
    FoldOneLess(j.frame * t.spf + j.slot, t.frame * t.spf + t.slot, 1024 * t.spf);
  }

  lemma FoldOneLess(job: nat, now: nat, total: nat)
    requires job < total && now < total && total % 2 == 0 && Fold(job - now, total) > 0
    ensures Fold(job - (if now + 1 == total then 0 else now + 1), total) == Fold(job - now, total) - 1
  {
  }

  /** A future job over one slot. */
  lemma WaitsOneSlot(s: Sched, x: Slot, i: nat)
    requires |x.arrivals| == SYMBOLS && s.now.Valid() && i < |s.table| && s.table[i].active
    requires var j := s.table[i].job; 0 <= j.frame < 1024 && 0 <= j.slot < s.now.spf && DiffSlots(j, s.now) > 0
    ensures i < |OneSlot(s, x).table| && OneSlot(s, x).table[i] == s.table[i]
    ensures DiffSlots(s.table[i].job, OneSlot(s, x).now) == DiffSlots(s.table[i].job, s.now) - 1
  {
    EntryStays(s, 0, SYMBOLS, x.arrivals, x.ul, i, s.table[i]);
    SymbolsKeepNow(s, SYMBOLS, x.arrivals, x.ul);
    OneSlotNearer(s.table[i].job, s.now);
  }

  /** A run with one slot more. */
  lemma OneMoreSlot(s: Sched, run: seq<Slot>, later: seq<Slot>)
    requires later != [] && WellTyped(run + later)
    ensures WellTyped(run + later[..|later| - 1]) && |later[|later| - 1].arrivals| == SYMBOLS
    ensures Slots(s, run + later) == OneSlot(Slots(s, run + later[..|later| - 1]), later[|later| - 1])
  {
    var n, all := |later| - 1, run + later;
    assert all[..|all| - 1] == run + later[..n] && all[|all| - 1] == later[n];
    assert forall k :: 0 <= k < |run + later[..n]| ==> (run + later[..n])[k] == all[k];
  }

  /** A future job stays in the table until its slot has come. */
  lemma {:induction false} WaitsForItsSlot(s: Sched, run: seq<Slot>, later: seq<Slot>, i: nat)
    requires Initial(s) && WellTyped(run) && WellTyped(run + later)
    requires i < |Slots(s, run).table| && Slots(s, run).table[i].active
    requires var t := Slots(s, run); var j := t.table[i].job;
             0 <= j.frame < 1024 && 0 <= j.slot < s.now.spf && DiffSlots(j, t.now) >= |later|
    ensures i < |Slots(s, run + later).table| && Slots(s, run + later).table[i] == Slots(s, run).table[i]
    ensures DiffSlots(Slots(s, run).table[i].job, Slots(s, run + later).now)
         == DiffSlots(Slots(s, run).table[i].job, Slots(s, run).now) - |later|
    decreases |later|
  {
    if later == [] {
      assert run + later == run;
    } else {
      var before := later[..|later| - 1];
      OneMoreSlot(s, run, later);
      WaitsForItsSlot(s, run, before, i);
      SlotsKeep(s, run + before, true);
      WaitsOneSlot(Slots(s, run + before), later[|later| - 1], i);
    }
  }

  /** Every job that is in the table before its slot, at most half a cycle ahead, is served if its
      slot turns out to be an uplink or mixed one, whatever else arrives meanwhile: when the slot is
      over, a well-formed job has had all its symbols dispatched, any other all from its first
      symbol to the end of the slot. */
  lemma JobIsServedWhenDue(s: Sched, run: seq<Slot>, later: seq<Slot>, x: Slot, i: nat)
    requires Initial(s) && WellTyped(run) && WellTyped(run + later) && WellTyped(run + later + [x]) && x.ul
    requires i < |Slots(s, run).table| && Slots(s, run).table[i].active
    requires var t := Slots(s, run); var p := t.table[i];
             && 0 <= p.job.symbol < SYMBOLS && (WellFormed(p.job) || p.symbolsSent == 0)
             && 0 <= p.job.frame < 1024 && 0 <= p.job.slot < s.now.spf && DiffSlots(p.job, t.now) == |later|
    ensures var p := Slots(s, run).table[i];
            |Of(Slots(s, run + later + [x]).sent, p.tag)| == Final(p.job)
  {
    var p, t := Slots(s, run).table[i], Slots(s, run + later);
    SlotsKeep(s, run, true);
    assert EntryOk(Slots(s, run), p, 0, true);
    WaitsForItsSlot(s, run, later, i);
    SlotsKeep(s, run + later, true);
    OneMoreSlot(s, run + later, [x]);
    assert run + later + [x][..0] == run + later;
    DrainKeepsEntry(t, x.arrivals[0], i);
    StartedInOwnSlot(t, x, 0, i);
    ServedAtEnd(t, x, 0, i);
  }

  /** What was started in a slot is finished when the slot is over. */
  lemma ServedAtEnd(s: Sched, x: Slot, y: nat, i: nat)
    requires Inv(s, 0, true) && |x.arrivals| == SYMBOLS && y < SYMBOLS && x.ul
    requires i < |AtScan(s, x, y).table| && AtScan(s, x, y).table[i].active
    requires |Of(Symbols(s, SYMBOLS, x.arrivals, true).sent, AtScan(s, x, y).table[i].tag)| >= 1
    ensures |Of(OneSlot(s, x).sent, AtScan(s, x, y).table[i].tag)| == Final(AtScan(s, x, y).table[i].job)
  {
    var p := AtScan(s, x, y).table[i];
    AdmittedAtEnd(s, x, y, i);
    OneSlotKeeps(s, x, true);
    CountAtBoundary(OneSlot(s, x), p.tag);
  }

  lemma AdmittedAtEnd(s: Sched, x: Slot, y: nat, i: nat)
    requires Inv(s, 0, true) && |x.arrivals| == SYMBOLS && y < SYMBOLS && x.ul
    requires i < |AtScan(s, x, y).table| && AtScan(s, x, y).table[i].active
    ensures var p := AtScan(s, x, y).table[i];
            p.tag < |OneSlot(s, x).admitted| && OneSlot(s, x).admitted[p.tag] == p.job
  {
    var u := AtScan(s, x, y);
    AtScanHolds(s, x, y);
    assert EntryOk(u, u.table[i], y, true);
    SymbolsAdmit(s, y + 1, SYMBOLS, x.arrivals, true);
  }

  lemma {:induction false} DrainAdmits(s: Sched, jobs: seq<UlJob>)
    ensures s.admitted <= Drain(s, jobs).admitted
  {
    if jobs != [] {
      DrainAdmits(s, jobs[..|jobs| - 1]);
    }
  }

  /** The record of admissions only grows. */
  lemma {:induction false} SymbolsAdmit(s: Sched, m: nat, n: nat, arrivals: seq<seq<UlJob>>, ul: bool)
    requires m <= n <= |arrivals|
    ensures Symbols(s, m, arrivals, ul).admitted <= Symbols(s, n, arrivals, ul).admitted
    decreases n
  {
    if n > m {
      SymbolsAdmit(s, m, n - 1, arrivals, ul);
      DrainAdmits(Symbols(s, n - 1, arrivals, ul), arrivals[n - 1]);
    }
  }

  /** A job that asks for no symbol gets every one from its first to the end of its slot: all
      fourteen if it starts at symbol 0. */
  lemma EmptyJobIsServed(s: Sched, run: seq<Slot>, later: seq<Slot>, x: Slot, i: nat)
    requires Initial(s) && WellTyped(run) && WellTyped(run + later) && WellTyped(run + later + [x]) && x.ul
    requires i < |Slots(s, run).table| && Slots(s, run).table[i].active
    requires var t := Slots(s, run); var p := t.table[i];
             && p.job.numSymbols == 0 && 0 <= p.job.symbol < SYMBOLS && p.symbolsSent == 0
             && 0 <= p.job.frame < 1024 && 0 <= p.job.slot < s.now.spf && DiffSlots(p.job, t.now) == |later|
    ensures var p := Slots(s, run).table[i];
            |Of(Slots(s, run + later + [x]).sent, p.tag)| == SYMBOLS - p.job.symbol
  {
    JobIsServedWhenDue(s, run, later, x, i);
  }

  // ---------------------------------------------------- jobs that arrive in their own slot

  /** What polling puts into the table has had nothing dispatched; everything else was there. */
  lemma {:induction false} AdmittedAfresh(s: Sched, jobs: seq<UlJob>, i: nat)
    requires i < |Drain(s, jobs).table| && Drain(s, jobs).table[i].active
    ensures |Drain(s, jobs).table| == |s.table|
    ensures var p := Drain(s, jobs).table[i];
            p == s.table[i] || (p.symbolsSent == 0 && p.tag >= |s.admitted|)
  {
    if jobs != [] {
      var before := Drain(s, jobs[..|jobs| - 1]);
      DrainAdmits(s, jobs[..|jobs| - 1]);
      if before.table[i].active {
        AdmittedAfresh(s, jobs[..|jobs| - 1], i);
      } else {
        DrainLength(s, jobs[..|jobs| - 1]);
      }
    }
  }

  lemma {:induction false} DrainLength(s: Sched, jobs: seq<UlJob>)
    ensures |Drain(s, jobs).table| == |s.table|
  {
    if jobs != [] {
      DrainLength(s, jobs[..|jobs| - 1]);
    }
  }

  /** Once an admitted job has left the table, polling does not bring it back ... */
  lemma {:induction false} DrainBringsNothingBack(s: Sched, jobs: seq<UlJob>, tag: nat)
    requires !Pends(s.table, tag) && tag < |s.admitted|
    ensures !Pends(Drain(s, jobs).table, tag)
  {
    if jobs != [] {
      var before := Drain(s, jobs[..|jobs| - 1]);
      DrainBringsNothingBack(s, jobs[..|jobs| - 1], tag);
      DrainAdmits(s, jobs[..|jobs| - 1]);
      var t := Drain(s, jobs);
      forall k | 0 <= k < |t.table| && t.table[k].active
        ensures t.table[k].tag != tag
      {
        assert t.table[k].tag == |before.admitted| || t.table[k] == before.table[k];
      }
    }
  }

  /** The job has left the table, these being all its items. */
  ghost predicate Gone(s: Sched, tag: nat, items: seq<WorkItem>) {
    !Pends(s.table, tag) && Of(s.sent, tag) == items && tag < |s.admitted|
  }

  lemma GoneOnce(s: Sched, y: nat, jobs: seq<UlJob>, ul: bool, tag: nat, items: seq<WorkItem>)
    requires Gone(s, tag, items)
    ensures Gone(Symbol(s, y, jobs, ul), tag, items)
  {
    DrainBringsNothingBack(s, jobs, tag);
    DrainSendsNothing(s, jobs);
    DrainAdmits(s, jobs);
    if ul {
      ScanBringsNothingBack(Drain(s, jobs), y, tag);
    }
  }

  lemma GoneNext(s: Sched, n: nat, arrivals: seq<seq<UlJob>>, ul: bool, tag: nat, items: seq<WorkItem>)
    requires n < |arrivals| && Gone(Symbols(s, n, arrivals, ul), tag, items)
    ensures Gone(Symbols(s, n + 1, arrivals, ul), tag, items)
  {
    GoneOnce(Symbols(s, n, arrivals, ul), n, arrivals[n], ul, tag, items);
  }

  /** ... and nothing more is dispatched for it. */
  lemma {:induction false} GoneIsGone(s: Sched, m: nat, n: nat, arrivals: seq<seq<UlJob>>, ul: bool, tag: nat, items: seq<WorkItem>)
    requires m <= n <= |arrivals| && Gone(Symbols(s, m, arrivals, ul), tag, items)
    ensures Gone(Symbols(s, n, arrivals, ul), tag, items)
    decreases n
  {
    if n > m {
      GoneIsGone(s, m, n - 1, arrivals, ul, tag, items);
      GoneNext(s, n - 1, arrivals, ul, tag, items);
    }
  }

  lemma ScanBringsNothingBack(u: Sched, y: nat, tag: nat)
    requires !Pends(u.table, tag)
    ensures !Pends(Scan(u, y).table, tag) && Of(Scan(u, y).sent, tag) == Of(u.sent, tag)
  {
    DispatchedNone(u.table, u.now, y, tag);
    OfAppend(u.sent, Dispatched(u.table, u.now, y), tag);
    assert Of(u.sent, tag) + [] == Of(u.sent, tag);
    forall k | 0 <= k < |Scan(u, y).table| && Scan(u, y).table[k].active
      ensures Scan(u, y).table[k].tag != tag
    {
      assert u.table[k].active && u.table[k].tag == Scan(u, y).table[k].tag;
    }
  }

  /** An entry scanned after its symbol is dropped with nothing dispatched. */
  lemma TooLate(u: Sched, y: nat, i: nat)
    requires DistinctTags(u.table) && i < |u.table| && u.table[i].active
    requires var p := u.table[i]; DiffSlots(p.job, u.now) == 0 && p.job.symbol + p.symbolsSent < y
    ensures !Pends(Scan(u, y).table, u.table[i].tag)
    ensures Of(Scan(u, y).sent, u.table[i].tag) == Of(u.sent, u.table[i].tag)
  {
    ItemsOfScan(u, i, y);
    assert !ScanEntry(u.table[i], u.now, y).0.active;
    forall k | 0 <= k < |Scan(u, y).table| && Scan(u, y).table[k].active
      ensures Scan(u, y).table[k].tag != u.table[i].tag
    {
      assert u.table[k].active && u.table[k].tag == Scan(u, y).table[k].tag;
    }
  }

  /** A job admitted at symbol y of its own uplink or mixed slot: if that is no later than its first
      symbol it is served, otherwise nothing of it is ever dispatched. */
  lemma JobAdmittedInItsSlot(s: Sched, x: Slot, y: nat, i: nat)
    requires Inv(s, 0, true) && |x.arrivals| == SYMBOLS && y < SYMBOLS && x.ul
    requires i < |AtScan(s, x, y).table| && AtScan(s, x, y).table[i].active
    requires AtScan(s, x, y).table[i].tag >= |Symbols(s, y, x.arrivals, true).admitted|
    requires var p := AtScan(s, x, y).table[i]; DiffSlots(p.job, s.now) == 0 && 0 <= p.job.symbol < SYMBOLS
    ensures var p := AtScan(s, x, y).table[i];
            |Of(OneSlot(s, x).sent, p.tag)| == if y <= p.job.symbol then Final(p.job) else 0
  {
    var before, u := Symbols(s, y, x.arrivals, true), AtScan(s, x, y);
    var p := u.table[i];
    AtScanHolds(s, x, y);
    AdmittedAfresh(before, x.arrivals[y], i);
    assert before.table[i].active ==> EntryOk(before, before.table[i], y, true);
    if y <= p.job.symbol {
      StartedInOwnSlot(s, x, y, i);
      ServedAtEnd(s, x, y, i);
    } else {
      DrainSendsNothing(before, x.arrivals[y]);
      NothingOf(before.sent, p.tag);
      TooLate(u, y, i);
      assert EntryOk(u, p, y, true);
      assert Gone(Scan(u, y), p.tag, []);
      GoneIsGone(s, y + 1, SYMBOLS, x.arrivals, true, p.tag, []);
    }
  }

  /** So a well-formed job admitted in its own slot is served if and only if it is admitted no
      later than at its first symbol. */
  lemma ServedInItsSlotIff(s: Sched, x: Slot, y: nat, i: nat)
    requires Inv(s, 0, true) && |x.arrivals| == SYMBOLS && y < SYMBOLS && x.ul
    requires i < |AtScan(s, x, y).table| && AtScan(s, x, y).table[i].active
    requires AtScan(s, x, y).table[i].tag >= |Symbols(s, y, x.arrivals, true).admitted|
    requires var p := AtScan(s, x, y).table[i];
             DiffSlots(p.job, s.now) == 0 && 0 <= p.job.symbol && WellFormed(p.job)
    ensures var p := AtScan(s, x, y).table[i];
            |Of(OneSlot(s, x).sent, p.tag)| == p.job.numSymbols <==> y <= p.job.symbol
  {
    JobAdmittedInItsSlot(s, x, y, i);
  }

  // ------------------------------------------------------- from polling to dispatching

  /** Entries that can still take a job. */
  function FreeEntries(table: seq<Pending>): nat {
    if table == [] then 0 else FreeEntries(table[..|table| - 1]) + (if table[|table| - 1].active then 0 else 1)
  }

  function Min(a: nat, b: nat): nat {
    if a < b then a else b
  }

  lemma {:induction false} TakeEntry(table: seq<Pending>, i: nat, p: Pending)
    requires i < |table| && !table[i].active && p.active
    ensures FreeEntries(table) >= 1 && FreeEntries(table[i := p]) == FreeEntries(table) - 1
  {
    var last := |table| - 1;
    if i < last {
      assert table[i := p][..last] == table[..last][i := p];
      TakeEntry(table[..last], i, p);
    } else {
      assert table[i := p][..last] == table[..last];
    }
  }

  lemma {:induction false} NoneFree(table: seq<Pending>)
    requires forall k :: 0 <= k < |table| ==> table[k].active
    ensures FreeEntries(table) == 0
  {
    if table != [] {
      NoneFree(table[..|table| - 1]);
    }
  }

  /** One job: admitted as it is if an entry is free, and dropped otherwise. */
  lemma OneJob(s: Sched, j: UlJob) returns (i: nat)
    ensures var t := Admit(s, j);
            if FreeEntries(s.table) == 0 then t == s
            else t.admitted == s.admitted + [j] && FreeEntries(t.table) == FreeEntries(s.table) - 1
                 && Has(t, i, Pending(j, true, 0, |s.admitted|))
  {
    i := FirstFree(s.table);
    if i == |s.table| {
      NoneFree(s.table);
    } else {
      TakeEntry(s.table, i, Pending(j, true, 0, |s.admitted|));
    }
  }

  /** One poll: of the jobs it returns exactly as many as there are free entries are admitted, the
      first ones, in order and as they are; the rest is dropped. */
  lemma {:induction false} PollAdmits(s: Sched, jobs: seq<UlJob>)
    ensures Drain(s, jobs).admitted == s.admitted + jobs[..Min(|jobs|, FreeEntries(s.table))]
    ensures FreeEntries(Drain(s, jobs).table) == FreeEntries(s.table) - Min(|jobs|, FreeEntries(s.table))
  {
    if jobs != [] {
      var n := |jobs| - 1;
      PollAdmits(s, jobs[..n]);
      var _ := OneJob(Drain(s, jobs[..n]), jobs[n]);
      assert jobs[..n + 1] == jobs[..n] + [jobs[n]];
    }
  }

  /** Each admitted job is then in the table, with nothing of it sent. */
  lemma {:induction false} PolledIsPending(s: Sched, jobs: seq<UlJob>, k: nat) returns (i: nat)
    requires k < |jobs| && k < FreeEntries(s.table)
    ensures Has(Drain(s, jobs), i, Pending(jobs[k], true, 0, |s.admitted| + k))
  {
    var n := |jobs| - 1;
    if k < n {
      i := PolledIsPending(s, jobs[..n], k);
      AdmitLeaves(Drain(s, jobs[..n]), jobs[n], i, Pending(jobs[k], true, 0, |s.admitted| + k));
    } else {
      PollAdmits(s, jobs[..n]);
      i := OneJob(Drain(s, jobs[..n]), jobs[n]);
    }
  }

  lemma AdmitLeaves(s: Sched, j: UlJob, i: nat, p: Pending)
    requires Has(s, i, p) && p.active
    ensures Has(Admit(s, j), i, p)
  {
  }

  /** What is polled during a run, in order. */
  function PolledInSlot(arrivals: seq<seq<UlJob>>, n: nat): seq<UlJob>
    requires n <= |arrivals|
  {
    if n == 0 then [] else PolledInSlot(arrivals, n - 1) + arrivals[n - 1]
  }

  function Polled(run: seq<Slot>): seq<UlJob> {
    if run == [] then []
    else Polled(run[..|run| - 1]) + PolledInSlot(run[|run| - 1].arrivals, |run[|run| - 1].arrivals|)
  }

  /** No poll ever returns more jobs than there are free entries. */
  ghost predicate RoomInSlot(s: Sched, n: nat, arrivals: seq<seq<UlJob>>, ul: bool)
    requires n <= |arrivals|
  {
    n > 0 ==> RoomInSlot(s, n - 1, arrivals, ul)
              && |arrivals[n - 1]| <= FreeEntries(Symbols(s, n - 1, arrivals, ul).table)
  }

  ghost predicate Room(s: Sched, run: seq<Slot>)
    requires WellTyped(run)
  {
    run != [] ==>
      var x := run[|run| - 1];
      Room(s, run[..|run| - 1]) && RoomInSlot(Slots(s, run[..|run| - 1]), SYMBOLS, x.arrivals, x.ul)
  }

  /** Some of the elements, in the same order. */
  ghost predicate Subsequence<T(!new)>(some: seq<T>, all: seq<T>)
    decreases |all|
  {
    if all == [] then some == []
    else
      var last := |all| - 1;
      Subsequence(some, all[..last])
      || (some != [] && some[|some| - 1] == all[last] && Subsequence(some[..|some| - 1], all[..last]))
  }

  lemma {:induction false} SubsequenceMore<T(!new)>(some: seq<T>, all: seq<T>, more: seq<T>, k: nat)
    requires Subsequence(some, all) && k <= |more|
    ensures Subsequence(some + more[..k], all + more)
    decreases |more|
  {
    if more == [] {
      assert some + more[..k] == some && all + more == all;
    } else {
      var last := |more| - 1;
      assert (all + more)[..|all + more| - 1] == all + more[..last];
      if k <= last {
        assert more[..last][..k] == more[..k];
        SubsequenceMore(some, all, more[..last], k);
      } else {
        SubsequenceMore(some, all, more[..last], last);
        assert more[..last][..last] == more[..last];
        assert (some + more[..k])[..|some + more[..k]| - 1] == some + more[..last];
      }
    }
  }

  /** The admissions of a state, against everything polled so far, and whether there was always room. */
  ghost predicate Takes(admitted: seq<UlJob>, polled: seq<UlJob>, room: bool) {
    && |admitted| <= |polled| && Subsequence(admitted, polled)
    && (admitted == polled <==> room) && (|admitted| == |polled| <==> room)
  }

  lemma TakesMore(admitted: seq<UlJob>, polled: seq<UlJob>, room: bool, jobs: seq<UlJob>, k: nat)
    requires Takes(admitted, polled, room) && k <= |jobs|
    ensures Takes(admitted + jobs[..k], polled + jobs, room && k == |jobs|)
  {
    SubsequenceMore(admitted, polled, jobs, k);
    if k == |jobs| {
      assert jobs[..k] == jobs;
      if admitted + jobs == polled + jobs {
        assert |admitted| == |polled|;
      }
    }
  }

  lemma PollTakes(s: Sched, jobs: seq<UlJob>, polled: seq<UlJob>, room: bool)
    requires Takes(s.admitted, polled, room)
    ensures Takes(Drain(s, jobs).admitted, polled + jobs, room && |jobs| <= FreeEntries(s.table))
  {
    PollAdmits(s, jobs);
    TakesMore(s.admitted, polled, room, jobs, Min(|jobs|, FreeEntries(s.table)));
  }

  lemma {:induction false} SlotAdmits(s: Sched, n: nat, arrivals: seq<seq<UlJob>>, ul: bool, polled: seq<UlJob>, room: bool)
    requires n <= |arrivals| && Takes(s.admitted, polled, room)
    ensures Takes(Symbols(s, n, arrivals, ul).admitted, polled + PolledInSlot(arrivals, n), room && RoomInSlot(s, n, arrivals, ul))
  {
    if n > 0 {
      SlotAdmits(s, n - 1, arrivals, ul, polled, room);
      var all := polled + PolledInSlot(arrivals, n - 1);
      PollTakes(Symbols(s, n - 1, arrivals, ul), arrivals[n - 1], all, room && RoomInSlot(s, n - 1, arrivals, ul));
      assert all + arrivals[n - 1] == polled + PolledInSlot(arrivals, n);
    } else {
      assert polled + PolledInSlot(arrivals, 0) == polled;
    }
  }

  /** Over every run the admitted jobs are polled jobs, as polled and in the order polled; they are
      all of them if and only if no poll ever finds too few free entries. */
  lemma {:induction false} AdmittedArePolled(s: Sched, run: seq<Slot>)
    requires Initial(s) && WellTyped(run)
    ensures Takes(Slots(s, run).admitted, Polled(run), Room(s, run))
  {
    if run != [] {
      var n := |run| - 1;
      AdmittedArePolled(s, run[..n]);
      SlotAdmits(Slots(s, run[..n]), SYMBOLS, run[n].arrivals, run[n].ul, Polled(run[..n]), Room(s, run[..n]));
    }
  }

  /** Job j is polled at symbol y of a slot that begins in state u, with room for it, and is
      admitted under this tag. */
  predicate PolledAt(u: Sched, x: Slot, y: nat, k: nat, j: UlJob, tag: nat) {
    && |x.arrivals| == SYMBOLS && y < SYMBOLS && k < |x.arrivals[y]| && x.arrivals[y][k] == j
    && var before := Symbols(u, y, x.arrivals, x.ul);
       k < FreeEntries(before.table) && tag == |before.admitted| + k
  }

  /** If its slot is still to come, it is in the table when this slot is over. */
  lemma PolledWaits(u: Sched, x: Slot, y: nat, k: nat, j: UlJob, tag: nat) returns (i: nat)
    requires u.now.Valid() && PolledAt(u, x, y, k, j, tag)
    requires 0 <= j.frame < 1024 && 0 <= j.slot < u.now.spf && DiffSlots(j, u.now) > 0
    ensures Has(OneSlot(u, x), i, Pending(j, true, 0, tag))
    ensures DiffSlots(j, OneSlot(u, x).now) == DiffSlots(j, u.now) - 1
  {
    var before := Symbols(u, y, x.arrivals, x.ul);
    i := PolledIsPending(before, x.arrivals[y], k);
    SymbolsKeepNow(u, y, x.arrivals, x.ul);
    SymbolsKeepNow(u, SYMBOLS, x.arrivals, x.ul);
    StaysToTheEnd(u, x, y, i, Pending(j, true, 0, tag));
    OneSlotNearer(j, u.now);
  }

  lemma StaysToTheEnd(u: Sched, x: Slot, y: nat, i: nat, p: Pending)
    requires |x.arrivals| == SYMBOLS && y < SYMBOLS && p.active && DiffSlots(p.job, u.now) > 0
    requires Has(Drain(Symbols(u, y, x.arrivals, x.ul), x.arrivals[y]), i, p)
    ensures Has(OneSlot(u, x), i, p)
  {
    SymbolsKeepNow(u, y, x.arrivals, x.ul);
    DrainKeepsNow(Symbols(u, y, x.arrivals, x.ul), x.arrivals[y]);
    assert Has(Symbols(u, y + 1, x.arrivals, x.ul), i, p);
    EntryStays(u, y + 1, SYMBOLS, x.arrivals, x.ul, i, p);
  }

  lemma PendingIsServed(s: Sched, run: seq<Slot>, i: nat, p: Pending, later: seq<Slot>, own: Slot)
    requires Initial(s) && WellTyped(run) && WellTyped(later) && |own.arrivals| == SYMBOLS && own.ul
    requires Has(Slots(s, run), i, p) && p.active && p.symbolsSent == 0 && 0 <= p.job.symbol < SYMBOLS
    requires 0 <= p.job.frame < 1024 && 0 <= p.job.slot < s.now.spf && DiffSlots(p.job, Slots(s, run).now) == |later|
    ensures WellTyped(run + later + [own])
    ensures var t := Slots(s, run + later + [own]);
            p.tag < |t.admitted| && t.admitted[p.tag] == p.job && |Of(t.sent, p.tag)| == Final(p.job)
  {
    JobIsServedWhenDue(s, run, later, own, i);
    assert run + (later + [own]) == run + later + [own];
    ServedIsAdmitted(s, run, later + [own], i);
  }

  /** From the poll to the last symbol, for a job whose slot is still to come: if the poll has room for
      it and its slot is an uplink or mixed one, then when that slot is over all its symbols have been
      dispatched (those up to the end of the slot, if it is not well formed). */
  lemma PolledAheadIsServed(s: Sched, run: seq<Slot>, x: Slot, y: nat, k: nat, j: UlJob, tag: nat, later: seq<Slot>, own: Slot)
    requires Initial(s) && WellTyped(run) && WellTyped(later) && |own.arrivals| == SYMBOLS && own.ul
    requires PolledAt(Slots(s, run), x, y, k, j, tag)
    requires 0 <= j.symbol < SYMBOLS && 0 <= j.frame < 1024 && 0 <= j.slot < s.now.spf
    requires DiffSlots(j, Slots(s, run).now) == |later| + 1
    ensures WellTyped(run + [x] + later + [own])
    ensures var t := Slots(s, run + [x] + later + [own]);
            tag < |t.admitted| && t.admitted[tag] == j && |Of(t.sent, tag)| == Final(j)
  {
    SlotsKeep(s, run, true);
    var i := PolledWaits(Slots(s, run), x, y, k, j, tag);
    LastSlot(s, run, x);
    PendingIsServed(s, run + [x], i, Pending(j, true, 0, tag), later, own);
  }

  lemma LastSlot(s: Sched, run: seq<Slot>, x: Slot)
    requires WellTyped(run) && |x.arrivals| == SYMBOLS
    ensures WellTyped(run + [x]) && Slots(s, run + [x]) == OneSlot(Slots(s, run), x)
  {
    assert (run + [x])[..|run|] == run;
  }

  /** What is in the table has been admitted, and stays so. */
  lemma ServedIsAdmitted(s: Sched, run: seq<Slot>, later: seq<Slot>, i: nat)
    requires Initial(s) && WellTyped(run) && WellTyped(run + later)
    requires i < |Slots(s, run).table| && Slots(s, run).table[i].active
    ensures var p, t := Slots(s, run).table[i], Slots(s, run + later);
            p.tag < |t.admitted| && t.admitted[p.tag] == p.job
  {
    SlotsKeep(s, run, true);
    assert EntryOk(Slots(s, run), Slots(s, run).table[i], 0, true);
    SlotsAdmit(s, run, later);
  }

  lemma {:induction false} SlotsAdmit(s: Sched, run: seq<Slot>, later: seq<Slot>)
    requires WellTyped(run) && WellTyped(run + later)
    ensures Slots(s, run).admitted <= Slots(s, run + later).admitted
    decreases |later|
  {
    if later == [] {
      assert run + later == run;
    } else {
      var x := later[|later| - 1];
      OneMoreSlot(s, run, later);
      SlotsAdmit(s, run, later[..|later| - 1]);
      SymbolsAdmit(Slots(s, run + later[..|later| - 1]), 0, SYMBOLS, x.arrivals, x.ul);
    }
  }

  /** The same for a job polled in its own uplink or mixed slot: it is served if it is polled no later
      than at its first symbol, and otherwise gets nothing. */
  lemma PolledInItsSlot(u: Sched, x: Slot, y: nat, k: nat, j: UlJob, tag: nat)
    requires Inv(u, 0, true) && x.ul && PolledAt(u, x, y, k, j, tag)
    requires 0 <= j.symbol < SYMBOLS && DiffSlots(j, u.now) == 0
    ensures var t := OneSlot(u, x);
            && tag < |t.admitted| && t.admitted[tag] == j
            && |Of(t.sent, tag)| == if y <= j.symbol then Final(j) else 0
  {
    var i := PolledIsPending(Symbols(u, y, x.arrivals, true), x.arrivals[y], k);
    JobAdmittedInItsSlot(u, x, y, i);
    AdmittedAtEnd(u, x, y, i);
  }

  /** In a slot that is neither uplink nor mixed nothing is dispatched. */
  lemma {:induction false} NothingOutsideUplink(s: Sched, n: nat, arrivals: seq<seq<UlJob>>)
    requires n <= |arrivals|
    ensures Symbols(s, n, arrivals, false).sent == s.sent
  {
    if n > 0 {
      NothingOutsideUplink(s, n - 1, arrivals);
      DrainSendsNothing(Symbols(s, n - 1, arrivals, false), arrivals[n - 1]);
    }
  }

  /** At one symbol, items go out in table order. */
  lemma {:induction false} DispatchedInTableOrder(a: seq<Pending>, b: seq<Pending>, t: Time, symbol: nat)
    ensures Dispatched(a + b, t, symbol) == Dispatched(a, t, symbol) + Dispatched(b, t, symbol)
  {
    if b == [] {
      assert a + b == a;
    } else {
      assert (a + b)[..|a + b| - 1] == a + b[..|b| - 1];
      DispatchedInTableOrder(a, b[..|b| - 1], t, symbol);
    }
  }

  /** The folded distance is 0 only in the very slot a job names. */
  lemma OwnSlot(j: UlJob, t: Time)
    requires t.Valid() && 0 <= j.frame < 1024 && 0 <= j.slot < t.spf
    requires DiffSlots(j, t) == 0
    ensures j.frame == t.frame && j.slot == t.slot
  {
    SameNumber(j.frame, j.slot, t.frame, t.slot, t.spf);
    SlotNumberInjective(j.frame, j.slot, t.frame, t.slot, t.spf);
  }

  lemma SameNumber(f: nat, s: nat, g: nat, t: nat, spf: nat)
    requires f < 1024 && g < 1024 && s < spf && t < spf
    requires Fold((f * spf + s) - (g * spf + t), 1024 * spf) == 0
    ensures f * spf + s == g * spf + t
  {
    SlotNumberBelow(f, s, spf);
    SlotNumberBelow(g, t, spf);
    NumbersAtLeastZero(f, g, spf);
    FoldedToZero((f * spf + s) - (g * spf + t), 1024 * spf);
  }

  lemma NumbersAtLeastZero(f: nat, g: nat, spf: nat)
    ensures f * spf >= 0 && g * spf >= 0
  {
  }

  lemma FoldedToZero(raw: int, total: nat)
    requires Fold(raw, total) == 0 && raw < total && raw > 0 - total
    ensures raw == 0
  {
  }

  lemma SlotNumberBelow(frame: nat, slot: nat, spf: nat)
    requires frame < 1024 && slot < spf
    ensures frame * spf + slot < 1024 * spf
  {
    QuotientOrder(1024, frame, spf, 0, slot);
  }

  lemma SlotNumberInjective(f: nat, s: nat, g: nat, t: nat, spf: nat)
    requires s < spf && t < spf && f * spf + s == g * spf + t
    ensures f == g && s == t
  {
    if f > g {
      QuotientOrder(f, g, spf, s, t);
    } else if f < g {
      QuotientOrder(g, f, spf, t, s);
    }
  }

  lemma {:induction false} OfContains(sent: seq<WorkItem>, k: nat) returns (m: nat)
    requires k < |sent|
    ensures m < |Of(sent, sent[k].tag)| && Of(sent, sent[k].tag)[m] == sent[k]
  {
    var n := |sent| - 1;
    if k == n {
      m := |Of(sent[..n], sent[k].tag)|;
    } else {
      m := OfContains(sent[..n], k);
    }
  }

  /** The range the fronthaul insists on when a worker hands a symbol over; anything else
      ends the process. */
  predicate InJobRange(x: WorkItem) {
    x.job.symbol <= x.symbol < x.job.symbol + x.job.numSymbols && x.symbol < SYMBOLS
  }

  /** Every dispatched item is in that range, except that each item of a job asking for no
      symbols is not. */
  lemma DispatchedRange(s: Sched, run: seq<Slot>, k: nat)
    requires Initial(s) && WellTyped(run) && k < |Slots(s, run).sent|
    ensures InJobRange(Slots(s, run).sent[k]) <==> Slots(s, run).sent[k].job.numSymbols >= 1
  {
    SlotsKeep(s, run, true);
    var t := Slots(s, run);
    EveryJobAllOrNothing(s, run, t.sent[k].tag);
    var m := OfContains(t.sent, k);
  }

  /** Once a symbol of an uplink or mixed slot is over, no job of the past is left, and a job
      of this very slot waits for a later symbol. */
  lemma NoPastJobLeft(s: Sched, y: nat, jobs: seq<UlJob>, i: nat)
    requires i < |Symbol(s, y, jobs, true).table| && Symbol(s, y, jobs, true).table[i].active
    ensures var p := Symbol(s, y, jobs, true).table[i];
            && DiffSlots(p.job, s.now) >= 0
            && (DiffSlots(p.job, s.now) == 0 ==> p.job.symbol + p.symbolsSent > y)
  {
    DrainKeepsNow(s, jobs);
    var p := Drain(s, jobs).table[i];
    var d := DiffSlots(p.job, s.now);
    assert Symbol(s, y, jobs, true).table[i] == ScanEntry(p, s.now, y).0;
  }
}
