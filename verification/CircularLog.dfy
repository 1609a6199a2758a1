/** The two circular journal logs: head, tail and the count of free blocks. */
module CircularLog {
  import opened Cyclic
  import opened SourcePlan

  /** A log and, beside its addresses, the unbounded positions they stand for: everything ever
      allocated ends at `hpos`, everything ever freed at `tpos`. */
  datatype Log = Log(area: Area, head: int, tail: int, nFree: int, hpos: nat, tpos: nat) {
    ghost predicate Ok() {
      && area.Ok() && tpos <= hpos <= tpos + area.Size()
      && head == Addr(area, hpos) && tail == Addr(area, tpos)
      && nFree == area.Size() - (hpos - tpos)
    }

    /** alloc_journal_space and update_log_state on a log with room for n blocks. */
    function Take(n: nat): Log {
      this.(head := Advance(area, head, n), nFree := nFree - n, hpos := hpos + n)
    }

    /** free_journal_space. */
    function Release(n: nat): Log {
      this.(tail := Advance(area, tail, n), nFree := nFree + n, tpos := tpos + n)
    }
  }

  /** The block address of a position. */
  function Addr(area: Area, pos: nat): (b: int)
    requires area.Ok()
    ensures area.first <= b <= area.last
  {
    area.first + Turn(pos, area.Size())
  }

  /** The address arithmetic shared by head and tail. */
  function Advance(area: Area, p: int, n: nat): int {
    if p + n > area.last then
      var before := area.last - p + 1;
      area.first + (n - before)
    else p + n
  }

  lemma {:induction false} AdvanceIsTurn(area: Area, pos: nat, n: nat)
    requires area.Ok() && n <= area.Size()
    ensures Advance(area, Addr(area, pos), n) == Addr(area, pos + n)
  {
    TurnAdvance(pos, n, area.Size());
  }

  /** Allocation keeps head and tail in the log and the books balanced. */
  lemma {:induction false} TakeOk(log: Log, n: nat)
    requires log.Ok() && n <= log.nFree
    ensures log.Take(n).Ok()
  {
    AdvanceIsTurn(log.area, log.hpos, n);
  }

  lemma {:induction false} ReleaseOk(log: Log, n: nat)
    requires log.Ok() && n <= log.hpos - log.tpos
    ensures log.Release(n).Ok()
  {
    AdvanceIsTurn(log.area, log.tpos, n);
  }

  /** Blocks less than the log size apart are different blocks. */
  lemma {:induction false} AddrDiffers(area: Area, p: nat, q: nat)
    requires area.Ok() && p < q < p + area.Size()
    ensures Addr(area, p) != Addr(area, q)
  {
    TurnInjective(p, q, area.Size());
  }

  /** journal_free_percent. */
  function FreePercent(free: nat, area: Area): (p: int)
    requires area.Ok()
    ensures free == area.Size() ==> p == 100
  {
    TurnsOfMultiple(100, area.Size());
    Turns(free * 100, area.Size())
  }

  lemma {:induction false} FreePercentIs(free: nat, area: Area)
    requires area.Ok()
    ensures FreePercent(free, area) == free * 100 / area.Size()
    ensures free <= area.Size() ==> 0 <= FreePercent(free, area) <= 100
  {
    TurnsIsDiv(free * 100, area.Size());
    if free <= area.Size() {
      PercentBound(free * 100, area.Size());
    }
  }

  lemma {:induction false} PercentBound(x: nat, size: int)
    requires 0 < size && x <= 100 * size
    ensures Turns(x, size) <= 100
  {
    TurnsIsDiv(x, size);
    var q := Turns(x, size);
    MulSign(q - 100, size);
    assert q * size == 100 * size + (q - 100) * size;
  }

  class JournalLog {
    const first: int
    const last: int
    var head: int
    var tail: int
    var nFree: int
    ghost var hpos: nat
    ghost var tpos: nat

    ghost function View(): Log
      reads this
    {
      Log(Area(first, last), head, tail, nFree, hpos, tpos)
    }

    /** One half of the journal area, empty. */
    constructor (first: int, size: nat)
      requires first >= 0 && size > 0
      ensures View() == Log(Area(first, first + size - 1), first, first, size, 0, 0) && View().Ok()
    {
      this.first := first;
      this.last := first + size - 1;
      head, tail, nFree := first, first, size;
      hpos, tpos := 0, 0;
    }

    /** alloc_journal_space: refused (an assertion failure in the source) when too little is free. */
    method Alloc(n: nat) returns (ok: bool, start: int)
      requires View().Ok()
      modifies this
      ensures ok <==> n <= old(nFree)
      ensures View() == if ok then old(View()).Take(n) else old(View())
      ensures View().Ok() && start == old(Addr(Area(first, last), hpos))
    {
      start := head;
      ok := nFree >= n;
      if ok {
        UpdateState(n);
      }
    }

    /** update_log_state does not look at the free count: its caller has to. */
    method UpdateState(n: nat)
      requires View().Ok() && n <= nFree
      modifies this
      ensures View() == old(View()).Take(n) && View().Ok()
    {
      TakeOk(View(), n);
      if head + n > last {
        var alloced := last - head + 1;
        var remains := n - alloced;
        head := first + remains;
      } else {
        head := head + n;
      }
      nFree := nFree - n;
      hpos := hpos + n;
    }

    /** free_journal_space: refused (an assertion failure in the source) unless the space is the oldest. */
    method Free(start: int, n: nat) returns (ok: bool)
      requires View().Ok() && n <= hpos - tpos
      modifies this
      ensures ok <==> start == old(tail)
      ensures View() == (if ok then old(View()).Release(n) else old(View())) && View().Ok()
    {
      ok := start == tail;
      if ok {
        ReleaseOk(View(), n);
        if tail + n > last {
          var freed := last - tail + 1;
          var remains := n - freed;
          tail := first + remains;
        } else {
          tail := tail + n;
        }
        nFree := nFree + n;
        tpos := tpos + n;
      }
    }
  }

  /** The journal area is split in two logs of half its length each. */
  method Split(first: int, maxLen: nat) returns (a: JournalLog, b: JournalLog)
    requires first >= 0 && maxLen >= 2
    ensures fresh(a) && fresh(b) && a != b && a.View().Ok() && b.View().Ok()
    ensures a.first == first && a.last + 1 == b.first && a.last < b.first && b.last < first + maxLen
    ensures a.nFree == b.nFree == maxLen / 2 && a.head == a.tail == a.first && b.head == b.tail == b.first
  {
    var half := maxLen / 2;
    a := new JournalLog(first, half);
    b := new JournalLog(a.last + 1, half);
  }
}
