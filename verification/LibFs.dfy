/** LibFS: page-wise reads and writes of a mapped file, and the state bits shared with the daemon. */
module LibFs {

  const PAGE: nat := 4096
  const GROUP_PAGES: nat := 8192 // NR_PAGES_IN_PEB: one page-state block covers 32 MB
  const MAX_GROUPS: nat := 32768 // BITS_IN_PAGE
  const PEB_COVERAGE: nat := 0x200_0000

  datatype State = Dirty | Lock | UpToDate | SkipRead

  /** One bit of the shared memory. */
  datatype Slot = AllocSlot(g: nat) | GroupSlot(g: nat) | PageSlot(pg: nat, st: State)

  function GroupOf(pg: nat): nat {
    pg * PAGE / PEB_COVERAGE
  }

  predicate SlotOk(t: Slot) {
    if t.PageSlot? then GroupOf(t.pg) < MAX_GROUPS else t.g < MAX_GROUPS
  }

  /** Byte offset of the first bit of a state in a page-state block. */
  function StateStart(st: State): nat {
    match st
    case Dirty => 0
    case Lock => 1024
    case UpToDate => 2048
    case SkipRead => 3072
  }

  /** Header block, allocation block, dirty-group block, then one page-state block per group. */
  function ByteOf(t: Slot): nat {
    match t
    case AllocSlot(g) => PAGE + g / 8
    case GroupSlot(g) => 2 * PAGE + g / 8
    case PageSlot(pg, st) => (1 + 1 + 1 + GroupOf(pg)) * PAGE + (pg % GROUP_PAGES) / 8 + StateStart(st)
  }

  function MaskBit(t: Slot): (b: nat)
    ensures b < 8
  {
    match t
    case AllocSlot(g) => g % 8
    case GroupSlot(g) => g % 8
    case PageSlot(pg, st) => pg % 8
  }

  function BitOf(t: Slot): nat {
    ByteOf(t) * 8 + MaskBit(t)
  }

  lemma {:induction false} PageBit(pg: nat, st: State)
    ensures GroupOf(pg) == pg / GROUP_PAGES
    ensures BitOf(PageSlot(pg, st)) == (3 + pg / GROUP_PAGES) * (8 * PAGE) + 8 * StateStart(st) + pg % GROUP_PAGES
  {
    var g, r := pg / GROUP_PAGES, pg % GROUP_PAGES;
    LowBits(g, r);
  }

  /** The mask bit of a page is the mask bit of its place in the group. */
  lemma {:induction false} LowBits(g: nat, r: nat)
    requires r < GROUP_PAGES
    ensures (g * GROUP_PAGES + r) % 8 == r % 8 && GroupOf(g * GROUP_PAGES + r) == g
  {
    var q, b := r / 8, r % 8;
    assert g * GROUP_PAGES + r == 8 * (1024 * g + q) + b;
  }

  lemma {:induction false} PlainBit(t: Slot)
    requires SlotOk(t) && !t.PageSlot?
    ensures BitOf(t) == (if t.AllocSlot? then 1 else 2) * (8 * PAGE) + t.g
  {
  }

  /** Block, state and page within the block are the digits of a page's bit number. */
  lemma {:induction false} Digits(g: nat, st: State, r: nat, g': nat, st': State, r': nat)
    requires r < GROUP_PAGES && r' < GROUP_PAGES
    requires (3 + g) * (8 * PAGE) + 8 * StateStart(st) + r == (3 + g') * (8 * PAGE) + 8 * StateStart(st') + r'
    ensures g == g' && st == st' && r == r'
  {
  }

  lemma {:induction false} PagesApart(pg: nat, st: State, pg': nat, st': State)
    requires BitOf(PageSlot(pg, st)) == BitOf(PageSlot(pg', st'))
    ensures pg == pg' && st == st'
  {
    PageBit(pg, st);
    PageBit(pg', st');
    Digits(pg / GROUP_PAGES, st, pg % GROUP_PAGES, pg' / GROUP_PAGES, st', pg' % GROUP_PAGES);
  }

  /** No page, state or group shares a bit with another. */
  lemma {:induction false} BitsApart(a: Slot, b: Slot)
    requires SlotOk(a) && SlotOk(b) && BitOf(a) == BitOf(b)
    ensures a == b
  {
    if a.PageSlot? {
      PageBit(a.pg, a.st);
    } else {
      PlainBit(a);
    }
    if b.PageSlot? {
      PageBit(b.pg, b.st);
      if a.PageSlot? {
        PagesApart(a.pg, a.st, b.pg, b.st);
      }
    } else {
      PlainBit(b);
    }
  }

  // ------------------------------------------------------------------------------------------
  // The shared bits as a table of slots
  // ------------------------------------------------------------------------------------------

  type Bits = map<nat, bool>

  predicate Bit(bits: Bits, t: Slot) {
    BitOf(t) in bits && bits[BitOf(t)]
  }

  /** b is a with one slot set to v. */
  ghost predicate OneBit(a: Bits, b: Bits, t: Slot, v: bool) {
    && Bit(b, t) == v
    && forall u: Slot :: SlotOk(u) && u != t ==> Bit(b, u) == Bit(a, u)
  }

  lemma {:induction false} SetBit(bits: Bits, t: Slot, v: bool)
    requires SlotOk(t)
    ensures OneBit(bits, bits[BitOf(t) := v], t, v)
  {
    forall u: Slot | SlotOk(u) && u != t ensures Bit(bits[BitOf(t) := v], u) == Bit(bits, u) {
      if BitOf(u) == BitOf(t) {
        BitsApart(u, t);
        assert false;
      }
    }
  }

  /** The page-state block of a group wiped. */
  function Wiped(bits: Bits, g: nat): Bits {
    map b | b in bits && !((3 + g) * (8 * PAGE) <= b < (4 + g) * (8 * PAGE)) :: bits[b]
  }

  lemma {:induction false} WipedSlot(bits: Bits, g: nat, t: Slot)
    requires SlotOk(t)
    ensures Bit(Wiped(bits, g), t) == if t.PageSlot? && GroupOf(t.pg) == g then false else Bit(bits, t)
  {
    if t.PageSlot? {
      PageBit(t.pg, t.st);
    } else {
      PlainBit(t);
    }
  }

  // ------------------------------------------------------------------------------------------
  // Dirty groups
  // ------------------------------------------------------------------------------------------

  /** The last group that a write of `count` bytes to pages first..last marks dirty; all from the group
      of `first` on are marked. */
  function LastMarked(first: nat, last: nat, count: nat): int
    requires first <= last
  {
    if count > PEB_COVERAGE then
      if first == last then GroupOf(first) - 1 else GroupOf(first) + (last - first - 1) / GROUP_PAGES
    else GroupOf(last)
  }

  lemma {:induction false} GroupAhead(pg: nat, k: nat)
    ensures GroupOf(pg + k * GROUP_PAGES) == GroupOf(pg) + k
  {
  }

  /** Up to 32 MB every group is marked.  Above, exactly when the last page does not lie in a group
      beyond the last whole step of the marking loop. */
  lemma {:induction false} AllGroupsMarked(pos: nat, count: nat)
    requires count >= 1
    ensures var first, last := pos / PAGE, (pos + count - 1) / PAGE;
            (forall pg :: first <= pg <= last ==> GroupOf(pg) <= LastMarked(first, last, count))
            <==> (count <= PEB_COVERAGE || (first % GROUP_PAGES + (last - first)) / GROUP_PAGES <= (last - first - 1) / GROUP_PAGES)
  {
    var first, last := pos / PAGE, (pos + count - 1) / PAGE;
    if count > PEB_COVERAGE {
      assert last > first;
      assert GroupOf(last) == GroupOf(first) + (first % GROUP_PAGES + (last - first)) / GROUP_PAGES;
    }
    if forall pg :: first <= pg <= last ==> GroupOf(pg) <= LastMarked(first, last, count) {
      assert GroupOf(last) <= LastMarked(first, last, count);
    }
  }

  /** A write of 32 MB and one page from page 4096 on touches a group that is not marked. */
  lemma {:induction false} GroupMissed()
    ensures var pos, count := 4096 * PAGE, PEB_COVERAGE + PAGE;
            var first, last := pos / PAGE, (pos + count - 1) / PAGE;
            count > PEB_COVERAGE && GroupOf(last) > LastMarked(first, last, count)
  {
  }

  // ------------------------------------------------------------------------------------------
  // The file
  // ------------------------------------------------------------------------------------------

  function Min(a: int, b: int): int {
    if a < b then a else b
  }

  function Max(a: int, b: int): int {
    if a < b then b else a
  }

  type Bytes = map<nat, int>

  function ByteAt(data: Bytes, o: nat): int {
    if o in data then data[o] else 0
  }

  /** memcpy into the mapped file. */
  function Laid(data: Bytes, at: nat, src: seq<int>): Bytes {
    if src == [] then data
    else
      var n := |src| - 1;
      Laid(data, at, src[..n])[at + n := src[n]]
  }

  lemma {:induction false} LaidAt(data: Bytes, at: nat, src: seq<int>, o: nat)
    ensures o in Laid(data, at, src) <==> o in data || at <= o < at + |src|
    ensures ByteAt(Laid(data, at, src), o) == if at <= o < at + |src| then src[o - at] else ByteAt(data, o)
  {
    if src != [] {
      LaidAt(data, at, src[..|src| - 1], o);
    }
  }

  lemma {:induction false} LaidJoin(data: Bytes, at: nat, a: seq<int>, b: seq<int>)
    ensures Laid(Laid(data, at, a), at + |a|, b) == Laid(data, at, a + b)
  {
    if b == [] {
      assert a + b == a;
    } else {
      var n := |b| - 1;
      LaidJoin(data, at, a, b[..n]);
      assert (a + b)[..|a + b| - 1] == a + b[..n];
    }
  }

  lemma {:induction false} LaidNext(d0: Bytes, d1: Bytes, d2: Bytes, pos: nat, buf: seq<int>, k: nat, n: nat)
    requires k <= n <= |buf| && d1 == Laid(d0, pos, buf[..k]) && d2 == Laid(d1, pos + k, buf[k..n])
    ensures d2 == Laid(d0, pos, buf[..n])
  {
    LaidJoin(d0, pos, buf[..k], buf[k..n]);
    assert buf[..k] + buf[k..n] == buf[..n];
  }

  /** The bytes of a file of the given size. */
  function Content(data: Bytes, size: nat): (c: seq<int>)
    ensures |c| == size
  {
    seq(size, o requires 0 <= o < size => ByteAt(data, o))
  }

  /** A byte string with another laid over it at pos; a gap reads as zeros. */
  function Overlay(c: seq<int>, pos: nat, buf: seq<int>): (r: seq<int>)
    ensures |r| == Max(|c|, pos + |buf|)
  {
    seq(Max(|c|, pos + |buf|), o requires 0 <= o < Max(|c|, pos + |buf|) =>
      if pos <= o < pos + |buf| then buf[o - pos] else if o < |c| then c[o] else 0)
  }

  /** Whether the write leaves page pg with its skip-read bit set: the page lies past the old end, or is
      written whole. */
  predicate Skips(size: nat, pos: nat, count: nat, pg: nat) {
    || size == 0 || pg > (size - 1) / PAGE
    || (pos <= pg * PAGE && pg * PAGE + PAGE <= pos + count)
  }

  /** Then no old byte of the page survives the write. */
  lemma {:induction false} SkippedIsOverwritten(size: nat, pos: nat, count: nat, pg: nat, o: nat)
    requires Skips(size, pos, count, pg) && pg * PAGE <= o < pg * PAGE + PAGE && o < size
    ensures pos <= o < pos + count
  {
    assert o / PAGE == pg;
  }

  function Want(size: nat, pos: nat, count: nat, pg: nat, st: State): bool {
    match st
    case Dirty => true
    case Lock => false
    case UpToDate => true
    case SkipRead => Skips(size, pos, count, pg)
  }

  /** b is a with the states of pages first..next - 1 as the write wants them. */
  ghost predicate PagesDone(a: Bits, b: Bits, size: nat, pos: nat, count: nat, first: nat, next: nat) {
    forall t: Slot :: SlotOk(t) ==>
      Bit(b, t) == if t.PageSlot? && first <= t.pg < next then Want(size, pos, count, t.pg, t.st) else Bit(a, t)
  }

  lemma {:induction false} PagesNext(a: Bits, b: Bits, b': Bits, size: nat, pos: nat, count: nat, first: nat, pg: nat)
    requires true == PagesDone(a, b, size, pos, count, first, pg) && true == PagesDone(b, b', size, pos, count, pg, pg + 1)
    requires first <= pg
    ensures true == PagesDone(a, b', size, pos, count, first, pg + 1)
  {
  }

  /** The five bit operations on a page. */
  lemma {:induction false} PageBits(b0: Bits, b1: Bits, b2: Bits, b3: Bits, b4: Bits, b5: Bits, size: nat, pos: nat,
                                    count: nat, pg: nat)
    requires OneBit(b0, b1, PageSlot(pg, Lock), true) && OneBit(b1, b2, PageSlot(pg, SkipRead), Skips(size, pos, count, pg))
    requires OneBit(b2, b3, PageSlot(pg, UpToDate), true) && OneBit(b3, b4, PageSlot(pg, Dirty), true)
    requires OneBit(b4, b5, PageSlot(pg, Lock), false) && SlotOk(PageSlot(pg, Dirty))
    ensures true == PagesDone(b0, b5, size, pos, count, pg, pg + 1)
  {
    forall t: Slot | SlotOk(t)
      ensures Bit(b5, t) == if t.PageSlot? && t.pg == pg then Want(size, pos, count, pg, t.st) else Bit(b0, t)
    {
      if t.PageSlot? && t.pg == pg {
        match t.st {
          case Dirty =>
          case Lock =>
          case UpToDate =>
          case SkipRead =>
        }
      }
    }
  }

  /** No lock is held and every dirty page lies in a dirty group. */
  ghost predicate Clean(bits: Bits) {
    forall pg: nat :: SlotOk(PageSlot(pg, Dirty)) && Bit(bits, AllocSlot(GroupOf(pg))) ==>
      && !Bit(bits, PageSlot(pg, Lock))
      && (Bit(bits, PageSlot(pg, Dirty)) ==> Bit(bits, GroupSlot(GroupOf(pg))))
  }

  /** The allocation blocks of groups lo..hi - 1 exist; new ones start with all states clear. */
  ghost predicate Allocated(a: Bits, b: Bits, lo: nat, hi: nat) {
    forall t: Slot :: SlotOk(t) ==>
      Bit(b, t) == match t
                   case AllocSlot(g) => Bit(a, t) || lo <= g < hi
                   case GroupSlot(_) => Bit(a, t)
                   case PageSlot(pg, _) => Bit(a, t) && (lo <= GroupOf(pg) < hi ==> Bit(a, AllocSlot(GroupOf(pg))))
  }

  lemma {:induction false} AllocatedNext(a: Bits, b: Bits, b': Bits, lo: nat, g: nat)
    requires Allocated(a, b, lo, g) && Allocated(b, b', g, g + 1) && lo <= g
    ensures true == Allocated(a, b', lo, g + 1)
  {
    forall t: Slot | SlotOk(t) && t.PageSlot? ensures SlotOk(AllocSlot(GroupOf(t.pg))) {
    }
  }

  lemma {:induction false} WipedAlloc(a: Bits, set1: Bits, b: Bits, g: nat)
    requires g < MAX_GROUPS && OneBit(a, set1, AllocSlot(g), true) && b == Wiped(set1, g) && !Bit(a, AllocSlot(g))
    ensures true == Allocated(a, b, g, g + 1)
  {
    forall t: Slot | SlotOk(t)
      ensures Bit(b, t) == match t
                           case AllocSlot(h) => Bit(a, t) || g <= h < g + 1
                           case GroupSlot(_) => Bit(a, t)
                           case PageSlot(pg, _) => Bit(a, t) && (g <= GroupOf(pg) < g + 1 ==> Bit(a, AllocSlot(GroupOf(pg))))
    {
      WipedSlot(set1, g, t);
    }
  }

  lemma {:induction false} AllocatedPage(a: Bits, b: Bits, b': Bits, first: nat, pg: nat)
    requires first < pg && SlotOk(PageSlot(pg, Dirty))
    requires Allocated(a, b, GroupOf(first), GroupOf(pg - 1) + 1) && Allocated(b, b', GroupOf(pg), GroupOf(pg) + 1)
    ensures true == Allocated(a, b', GroupOf(first), GroupOf(pg) + 1)
  {
    assert GroupOf(pg - 1) <= GroupOf(pg) <= GroupOf(pg - 1) + 1;
    assert GroupOf(first) <= GroupOf(pg - 1);
    if GroupOf(pg) > GroupOf(pg - 1) {
      AllocatedNext(a, b, b', GroupOf(first), GroupOf(pg));
    } else {
      assert Bit(b, AllocSlot(GroupOf(pg)));
    }
  }

  /** Groups lo..hi are marked dirty. */
  ghost predicate GroupsDone(a: Bits, b: Bits, lo: int, hi: int) {
    forall t: Slot :: SlotOk(t) ==> Bit(b, t) == (Bit(a, t) || (t.GroupSlot? && lo <= t.g <= hi))
  }

  lemma {:induction false} GroupsNext(a: Bits, b: Bits, b': Bits, lo: int, g: nat)
    requires lo <= g < MAX_GROUPS && GroupsDone(a, b, lo, g - 1) && OneBit(b, b', GroupSlot(g), true)
    ensures true == GroupsDone(a, b', lo, g)
  {
  }

  lemma {:induction false} TwoGroups(a: Bits, b: Bits, b': Bits, first: nat, last: nat)
    requires first <= last <= first + GROUP_PAGES && GroupOf(last) < MAX_GROUPS
    requires GroupsDone(a, b, GroupOf(first), GroupOf(first)) && OneBit(b, b', GroupSlot(GroupOf(last)), true)
    ensures true == GroupsDone(a, b', GroupOf(first), GroupOf(last))
  {
    assert GroupOf(first) <= GroupOf(last) <= GroupOf(first) + 1;
  }

  lemma {:induction false} StillUnlocked(a: Bits, b: Bits, size: nat, pos: nat, count: nat, first: nat, pg: nat,
                                         last: nat)
    requires PagesDone(a, b, size, pos, count, first, pg) && first <= pg <= last && SlotOk(PageSlot(last, Dirty))
    requires !Bit(a, PageSlot(pg, Lock))
    ensures SlotOk(PageSlot(pg, Dirty)) && !Bit(b, PageSlot(pg, Lock))
  {
    assert GroupOf(pg) <= GroupOf(last);
    assert SlotOk(PageSlot(pg, Lock));
  }

  /** Where the write stands when page pg comes up. */
  function CurAt(pos: nat, count: nat, pg: nat): nat {
    Max(pos, Min(pg * PAGE, pos + count))
  }

  lemma {:induction false} PageStep(pos: nat, count: nat, pg: nat)
    requires count >= 1 && pos / PAGE <= pg <= (pos + count - 1) / PAGE
    ensures var cur := CurAt(pos, count, pg);
            var n := Min(PAGE - (cur - pg * PAGE), count - (cur - pos));
            && 0 <= n <= count - (cur - pos) && cur + n == CurAt(pos, count, pg + 1)
            && (n == PAGE <==> (pos <= pg * PAGE && pg * PAGE + PAGE <= pos + count))
  {
  }

  /** Every group that the write touches gets marked: always up to 32 MB. */
  predicate Covered(pos: nat, count: nat)
    requires count >= 1
  {
    var first, last := pos / PAGE, (pos + count - 1) / PAGE;
    count <= PEB_COVERAGE || (first % GROUP_PAGES + (last - first)) / GROUP_PAGES <= (last - first - 1) / GROUP_PAGES
  }

  /** All shared bits after a write, in terms of the bits before. */
  ghost predicate Wrote(a: Bits, b: Bits, size: nat, pos: nat, count: nat)
    requires count >= 1
  {
    var first, last := pos / PAGE, (pos + count - 1) / PAGE;
    forall t: Slot :: SlotOk(t) ==>
      Bit(b, t) == match t
                   case AllocSlot(g) => Bit(a, t) || GroupOf(first) <= g <= GroupOf(last)
                   case GroupSlot(g) => Bit(a, t) || GroupOf(first) <= g <= LastMarked(first, last, count)
                   case PageSlot(pg, st) =>
                     if first <= pg <= last then Want(size, pos, count, pg, st)
                     else Bit(a, t) && (GroupOf(first) <= GroupOf(pg) <= GroupOf(last) ==> Bit(a, AllocSlot(GroupOf(pg))))
  }

  lemma {:induction false} WroteFrom(a: Bits, b1: Bits, b2: Bits, b: Bits, size: nat, pos: nat, count: nat, first: nat,
                                     last: nat)
    requires count >= 1 && first == pos / PAGE && last == (pos + count - 1) / PAGE
    requires true == Allocated(a, b1, GroupOf(first), GroupOf(last) + 1)
    requires true == GroupsDone(b1, b2, GroupOf(first), LastMarked(first, last, count))
    requires true == PagesDone(b2, b, size, pos, count, first, last + 1)
    ensures true == Wrote(a, b, size, pos, count)
  {
  }

  lemma {:induction false} LocksClear(a: Bits, b1: Bits, b2: Bits, first: nat, last: nat, hi: int)
    requires first <= last && SlotOk(PageSlot(last, Dirty)) && true == Clean(a)
    requires true == Allocated(a, b1, GroupOf(first), GroupOf(last) + 1) && true == GroupsDone(b1, b2, GroupOf(first), hi)
    ensures forall pg: nat :: first <= pg <= last ==> !Bit(b2, PageSlot(pg, Lock))
  {
    forall pg: nat | first <= pg <= last ensures !Bit(b2, PageSlot(pg, Lock)) {
      assert GroupOf(first) <= GroupOf(pg) <= GroupOf(last);
      assert SlotOk(PageSlot(pg, Dirty)) && SlotOk(PageSlot(pg, Lock));
    }
  }

  lemma {:induction false} CleanAfter(a: Bits, b: Bits, size: nat, pos: nat, count: nat)
    requires count >= 1 && true == Clean(a) && true == Wrote(a, b, size, pos, count) && Covered(pos, count)
    ensures true == Clean(b)
  {
    var first, last := pos / PAGE, (pos + count - 1) / PAGE;
    AllGroupsMarked(pos, count);
    forall pg: nat | SlotOk(PageSlot(pg, Dirty)) && Bit(b, AllocSlot(GroupOf(pg)))
      ensures !Bit(b, PageSlot(pg, Lock)) && (Bit(b, PageSlot(pg, Dirty)) ==> Bit(b, GroupSlot(GroupOf(pg))))
    {
      assert SlotOk(PageSlot(pg, Lock)) && SlotOk(AllocSlot(GroupOf(pg))) && SlotOk(GroupSlot(GroupOf(pg)));
      if first <= pg <= last {
        assert GroupOf(first) <= GroupOf(pg) <= LastMarked(first, last, count);
      }
    }
  }

  /** And only then: otherwise the last page ends up dirty in a group that nothing marked. */
  lemma {:induction false} UncoveredIsLost(a: Bits, b: Bits, size: nat, pos: nat, count: nat)
    requires count >= 1 && Wrote(a, b, size, pos, count) && !Covered(pos, count)
    requires SlotOk(PageSlot((pos + count - 1) / PAGE, Dirty)) && !Bit(a, GroupSlot(GroupOf((pos + count - 1) / PAGE)))
    ensures !Clean(b)
  {
    var first, last := pos / PAGE, (pos + count - 1) / PAGE;
    AllGroupsMarked(pos, count);
    var pg :| first <= pg <= last && GroupOf(pg) > LastMarked(first, last, count);
    assert GroupOf(pg) <= GroupOf(last);
    assert SlotOk(AllocSlot(GroupOf(last))) && SlotOk(GroupSlot(GroupOf(last)));
    assert Bit(b, PageSlot(last, Dirty)) && Bit(b, AllocSlot(GroupOf(last))) && !Bit(b, GroupSlot(GroupOf(last)));
  }

  /** The content after the copy and the new size. */
  lemma {:induction false} LaidContent(data: Bytes, before: Bytes, size: nat, pos: nat, buf: seq<int>)
    requires data == Laid(before, pos, buf) && forall o :: o in before ==> o < size
    ensures Content(data, Max(size, pos + |buf|)) == Overlay(Content(before, size), pos, buf)
    ensures forall o :: o in data ==> o < Max(size, pos + |buf|)
  {
    forall o: nat
      ensures ByteAt(data, o) == if pos <= o < pos + |buf| then buf[o - pos] else ByteAt(before, o)
      ensures o in data ==> o < Max(size, pos + |buf|)
    {
      LaidAt(before, pos, buf, o);
    }
  }

  class File {
    var data: Bytes
    var size: nat
    var bits: Bits

    /** No byte past the end, no lock held, and every dirty page in a dirty group. */
    ghost predicate Valid()
      reads this
    {
      && (forall o :: o in data ==> o < size)
      && true == Clean(bits)
    }

    method Put(t: Slot, v: bool)
      requires SlotOk(t)
      modifies this`bits
      ensures true == OneBit(old(bits), bits, t, v)
    {
      SetBit(bits, t, v);
      bits := bits[BitOf(t) := v];
    }

    /** The body of the page loop: lock, skip-read, copy, up-to-date, dirty, unlock. */
    method WritePage(pg: nat, ofs: nat, src: seq<int>, pos: nat, count: nat)
      requires SlotOk(PageSlot(pg, Dirty)) && !Bit(bits, PageSlot(pg, Lock))
      requires |src| == PAGE <==> (pos <= pg * PAGE && pg * PAGE + PAGE <= pos + count)
      modifies this`data, this`bits
      ensures data == Laid(old(data), ofs, src)
      ensures true == PagesDone(old(bits), bits, size, pos, count, pg, pg + 1)
    {
      var lastPage := if size != 0 then (size - 1) / PAGE else 0;
      ghost var b0 := bits;
      Put(PageSlot(pg, Lock), true);
      ghost var b1 := bits;
      if pg > lastPage || (lastPage == 0 && size == 0) {
        Put(PageSlot(pg, SkipRead), true);
      } else if |src| == PAGE {
        Put(PageSlot(pg, SkipRead), true);
      } else {
        Put(PageSlot(pg, SkipRead), false);
      }
      ghost var b2 := bits;
      data := Laid(data, ofs, src);
      Put(PageSlot(pg, UpToDate), true);
      ghost var b3 := bits;
      Put(PageSlot(pg, Dirty), true);
      ghost var b4 := bits;
      Put(PageSlot(pg, Lock), false);
      PageBits(b0, b1, b2, b3, b4, bits, size, pos, count, pg);
    }

    /** shm_alloc_check. */
    method AllocCheck(pg: nat)
      requires SlotOk(PageSlot(pg, Dirty))
      modifies this`bits
      ensures true == Allocated(old(bits), bits, GroupOf(pg), GroupOf(pg) + 1)
    {
      var g := GroupOf(pg);
      if !Bit(bits, AllocSlot(g)) {
        Put(AllocSlot(g), true);
        ghost var set1 := bits;
        bits := Wiped(bits, g);
        WipedAlloc(old(bits), set1, bits, g);
      }
    }

    /** The first page loop of libfs_write. */
    method AllocPages(first: nat, last: nat)
      requires first <= last && SlotOk(PageSlot(last, Dirty))
      modifies this`bits
      ensures true == Allocated(old(bits), bits, GroupOf(first), GroupOf(last) + 1)
    {
      AllocCheck(first);
      for pg := first + 1 to last + 1
        invariant true == Allocated(old(bits), bits, GroupOf(first), GroupOf(pg - 1) + 1)
      {
        ghost var before := bits;
        AllocCheck(pg);
        AllocatedPage(old(bits), before, bits, first, pg);
      }
    }

    /** dirty_page_group. */
    method DirtyGroup(pg: nat)
      requires SlotOk(PageSlot(pg, Dirty))
      modifies this`bits
      ensures true == OneBit(old(bits), bits, GroupSlot(GroupOf(pg)), true)
    {
      Put(GroupSlot(GroupOf(pg)), true);
    }

    method MarkGroups(first: nat, last: nat, count: nat)
      requires first <= last && SlotOk(PageSlot(last, Dirty)) && (count <= PEB_COVERAGE ==> last - first <= GROUP_PAGES)
      modifies this`bits
      ensures true == GroupsDone(old(bits), bits, GroupOf(first), LastMarked(first, last, count))
    {
      if count > PEB_COVERAGE {
        var temp := 0;
        ghost var k := 0;
        while first + temp < last
          invariant temp == k * GROUP_PAGES && (k > 0 ==> first + (k - 1) * GROUP_PAGES < last)
          invariant true == GroupsDone(old(bits), bits, GroupOf(first), GroupOf(first) + k - 1)
        {
          ghost var before := bits;
          GroupAhead(first, k);
          DirtyGroup(first + temp);
          GroupsNext(old(bits), before, bits, GroupOf(first), GroupOf(first) + k);
          temp := temp + PEB_COVERAGE / PAGE;
          k := k + 1;
        }
      } else {
        DirtyGroup(first);
        GroupsNext(old(bits), old(bits), bits, GroupOf(first), GroupOf(first));
        if last != first {
          ghost var before := bits;
          DirtyGroup(last);
          TwoGroups(old(bits), before, bits, first, last);
        }
      }
    }

    /** The second page loop of libfs_write. */
    method WritePages(buf: seq<int>, pos: nat, first: nat, last: nat)
      requires buf != [] && first == pos / PAGE && last == (pos + |buf| - 1) / PAGE && SlotOk(PageSlot(last, Dirty))
      requires forall pg: nat :: first <= pg <= last ==> !Bit(bits, PageSlot(pg, Lock))
      modifies this`data, this`bits
      ensures data == Laid(old(data), pos, buf)
      ensures true == PagesDone(old(bits), bits, size, pos, |buf|, first, last + 1)
    {
      var cur, remain, bufOfs := pos, |buf|, 0;
      for pg := first to last + 1
        invariant bufOfs == cur - pos && remain == |buf| - bufOfs && 0 <= bufOfs <= |buf|
        invariant cur == CurAt(pos, |buf|, pg)
        invariant data == Laid(old(data), pos, buf[..bufOfs])
        invariant true == PagesDone(old(bits), bits, size, pos, |buf|, first, pg)
      {
        var ofsInPage := cur - pg * PAGE;
        var n := PAGE - ofsInPage;
        if n > remain {
          n := remain;
        }
        PageStep(pos, |buf|, pg);
        ghost var before, d1 := bits, data;
        StillUnlocked(old(bits), bits, size, pos, |buf|, first, pg, last);
        assert cur == pos + bufOfs;
        var next := bufOfs + n;
        WritePage(pg, pos + bufOfs, buf[bufOfs..next], pos, |buf|);
        PagesNext(old(bits), before, bits, size, pos, |buf|, first, pg);
        LaidNext(old(data), d1, data, pos, buf, bufOfs, next);
        remain, cur, bufOfs := remain - n, cur + n, next;
      }
      assert buf[..|buf|] == buf;
    }

    /** libfs_write. */
    method Write(buf: seq<int>, pos: nat) returns (ret: int)
      requires Valid() && buf != [] && |buf| < 0x1_0000_0000 && SlotOk(PageSlot((pos + |buf| - 1) / PAGE, Dirty))
      modifies this
      ensures ret == |buf| && Content(data, size) == Overlay(old(Content(data, size)), pos, buf)
      ensures true == Wrote(old(bits), bits, old(size), pos, |buf|)
      ensures Covered(pos, |buf|) ==> Valid()
    {
      var first, last := pos / PAGE, (pos + |buf| - 1) / PAGE;
      WriteBits(buf, pos, first, last);
      LaidContent(data, old(data), size, pos, buf);
      if pos + |buf| > size {
        size := pos + |buf|;
      }
      if Covered(pos, |buf|) {
        CleanAfter(old(bits), bits, old(size), pos, |buf|);
      }
      assert size == Max(old(size), pos + |buf|);
      ret := |buf|;
    }

    /** Everything of libfs_write but the size. */
    method WriteBits(buf: seq<int>, pos: nat, first: nat, last: nat)
      requires buf != [] && first == pos / PAGE && last == (pos + |buf| - 1) / PAGE && SlotOk(PageSlot(last, Dirty))
      requires true == Clean(bits)
      modifies this`data, this`bits
      ensures data == Laid(old(data), pos, buf)
      ensures true == Wrote(old(bits), bits, size, pos, |buf|)
    {
      AllocPages(first, last);
      ghost var b1 := bits;
      MarkGroups(first, last, |buf|);
      ghost var b2 := bits;
      LocksClear(old(bits), b1, b2, first, last, LastMarked(first, last, |buf|));
      WritePages(buf, pos, first, last);
      WroteFrom(old(bits), b1, b2, bits, size, pos, |buf|, first, last);
    }

    /** libfs_read: refused past the end, else the part of the range inside the file. */
    method Read(count: nat, pos: nat) returns (ret: int, buf: seq<int>)
      requires count >= 1
      ensures size < pos ==> ret == -1 && buf == []
      ensures size >= pos ==> ret == |buf| && buf == Content(data, size)[pos..Min(pos + count, size)]
    {
      if size < pos {
        return -1, [];
      }
      var first, last := pos / PAGE, (pos + count - 1) / PAGE;
      var bytes := if pos + count > size then size - pos else count;
      var cur, remain := pos, bytes;
      buf := [];
      for pg := first to last + 1
        invariant cur == Max(pos, Min(pg * PAGE, pos + bytes)) && remain == pos + bytes - cur
        invariant buf == Content(data, size)[pos..cur]
      {
        var n := PAGE - (cur - pg * PAGE);
        if n > remain {
          n := remain;
        }
        buf := buf + Content(data, size)[cur..cur + n];
        remain, cur := remain - n, cur + n;
      }
      ret := bytes;
    }
  }

  datatype Piece = Piece(pos: nat, buf: seq<int>)

  /** What a byte string becomes under a sequence of writes. */
  function Written(c: seq<int>, pieces: seq<Piece>): seq<int> {
    if pieces == [] then c
    else
      var n := |pieces| - 1;
      Overlay(Written(c, pieces[..n]), pieces[n].pos, pieces[n].buf)
  }

  /** Any sequence of writes of 1 byte to 32 MB leaves the overlaid content, and every dirty page in a
      dirty group. */
  method WriteAll(f: File, pieces: seq<Piece>)
    requires f.Valid()
    requires forall i :: 0 <= i < |pieces| ==>
               1 <= |pieces[i].buf| <= PEB_COVERAGE && SlotOk(PageSlot((pieces[i].pos + |pieces[i].buf| - 1) / PAGE, Dirty))
    modifies f
    ensures f.Valid() && Content(f.data, f.size) == Written(old(Content(f.data, f.size)), pieces)
  {
    for i := 0 to |pieces|
      invariant f.Valid() && Content(f.data, f.size) == Written(old(Content(f.data, f.size)), pieces[..i])
    {
      var ret := f.Write(pieces[i].buf, pieces[i].pos);
      assert pieces[..i + 1][..i] == pieces[..i];
    }
    assert pieces[..|pieces|] == pieces;
  }
}
