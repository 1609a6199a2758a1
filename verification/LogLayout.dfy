/** Where the blocks of a transaction go in its log: bio splitting, wrap-around, chunk addresses. */
module LogLayout {
  import opened Cyclic
  import opened SourcePlan
  import opened CircularLog

  const MAX_BIO: nat := 8192 // BIO_MAX_BIO_SIZE in blocks; also a data fetcher chunk

  datatype Buffer = DataBuf | MetaBuf | SuperBuf | CommitBuf

  /** One write request: cnt blocks of a buffer, from block `off`, to consecutive addresses. */
  datatype Bio = Bio(addr: int, buf: Buffer, off: nat, cnt: nat)

  /** One block of a buffer written to one address. */
  datatype Put = Put(addr: int, buf: Buffer, blk: nat)

  function Straight(addr: int, buf: Buffer, off: nat, n: nat): (r: seq<Put>)
    ensures |r| == n
  {
    seq(n, k requires 0 <= k < n => Put(addr + k, buf, off + k))
  }

  function Puts(bl: seq<Bio>): seq<Put> {
    if bl == [] then []
    else
      var b := bl[|bl| - 1];
      Puts(bl[..|bl| - 1]) + Straight(b.addr, b.buf, b.off, b.cnt)
  }

  lemma {:induction false} PutsAppend(bl: seq<Bio>, b: Bio)
    ensures Puts(bl + [b]) == Puts(bl) + Straight(b.addr, b.buf, b.off, b.cnt)
  {
    assert (bl + [b])[..|bl|] == bl;
  }

  lemma {:induction false} StraightSplit(addr: int, buf: Buffer, off: nat, n: nat, m: nat)
    ensures Straight(addr, buf, off, n) + Straight(addr + n, buf, off + n, m) == Straight(addr, buf, off, n + m)
  {
  }

  function Min(a: nat, b: nat): nat {
    if a < b then a else b
  }

  /** add_bio_to_bl: cut a contiguous write into requests of bounded size. */
  method AddBio(bl: seq<Bio>, buf: Buffer, off: nat, start: int, n: nat) returns (r: seq<Bio>)
    ensures Puts(r) == Puts(bl) + Straight(start, buf, off, n)
    ensures |r| >= |bl| && r[..|bl|] == bl && (|r| == |bl| <==> n == 0)
    ensures forall i :: |bl| <= i < |r| ==> 0 < r[i].cnt <= MAX_BIO
  {
    r := bl;
    var copied, cur := 0, start;
    assert Straight(start, buf, off, 0) == [];
    while copied < n
      invariant cur == start + Min(copied, n)
      invariant Puts(r) == Puts(bl) + Straight(start, buf, off, Min(copied, n))
      invariant |r| >= |bl| && r[..|bl|] == bl && (|r| == |bl| <==> copied == 0) && (copied > 0 ==> n > 0)
      invariant forall i :: |bl| <= i < |r| ==> 0 < r[i].cnt <= MAX_BIO
    {
      var cnt := Min(n - copied, MAX_BIO);
      PutsAppend(r, Bio(cur, buf, off + copied, cnt));
      StraightSplit(start, buf, off, copied, cnt);
      r := r + [Bio(cur, buf, off + copied, cnt)];
      cur := cur + cnt;
      copied := copied + MAX_BIO;
    }
  }

  /** n blocks of a buffer at successive cyclic addresses from `start`. */
  function Round(area: Area, start: int, buf: Buffer, off: nat, n: nat): (r: seq<Put>)
    requires area.Ok() && area.Holds(start)
    ensures |r| == n
  {
    seq(n, k requires 0 <= k < n => Put(area.At(start, k), buf, off + k))
  }

  lemma {:induction false} AtIs(area: Area, start: int, k: nat)
    requires area.Ok() && area.Holds(start) && k <= area.Size() && start + k <= area.last + area.Size()
    ensures area.At(start, k) == if start + k <= area.last then start + k else start + k - area.Size()
  {
    var x := start - area.first + k;
    if x >= area.Size() {
      assert Turn(x, area.Size()) == Turn(x - area.Size(), area.Size());
    }
  }

  lemma {:induction false} RoundSplits(area: Area, start: int, buf: Buffer, off: nat, n: nat)
    requires area.Ok() && area.Holds(start) && n <= area.Size()
    ensures start + n - 1 <= area.last ==> Round(area, start, buf, off, n) == Straight(start, buf, off, n)
    ensures var n1 := area.last - start + 1;
            start + n - 1 > area.last
            ==> Round(area, start, buf, off, n) == Straight(start, buf, off, n1) + Straight(area.first, buf, off + n1, n - n1)
  {
    forall k | 0 <= k < n
      ensures area.At(start, k) == if start + k <= area.last then start + k else start + k - area.Size()
    {
      AtIs(area, start, k);
    }
  }

  /** The first bio list: everything, or what comes before the end of the log. */
  function FirstList(area: Area, start: int, buf: Buffer, off: nat, n: nat): seq<Put> {
    Straight(start, buf, off, if WrapsAround(start, n, area.last) then BeforeEnd(area, start) else n)
  }

  /** The second one: the rest, from the first block of the log. */
  function SecondList(area: Area, start: int, buf: Buffer, off: nat, n: nat): seq<Put> {
    if WrapsAround(start, n, area.last) then
      Straight(area.first, buf, off + BeforeEnd(area, start), (n - BeforeEnd(area, start)) % U32)
    else []
  }

  /** The address behind the n blocks, not wrapped. */
  function NextAfter(area: Area, start: int, n: nat): int {
    if WrapsAround(start, n, area.last) then area.first + (n - BeforeEnd(area, start)) % U32 else start + n
  }

  /** Up to one past the end, the two lists go round the log. */
  lemma {:induction false} ListsAreRound(area: Area, start: int, buf: Buffer, off: nat, n: nat)
    requires area.Ok() && area.Holds(start) && n <= area.Size() < U32
    ensures FirstList(area, start, buf, off, n) + SecondList(area, start, buf, off, n) == Round(area, start, buf, off, n)
    ensures area.Holds(NextAfter(area, start, n)) && area.At(NextAfter(area, start, n), 0) == area.At(start, n)
  {
    RoundSplits(area, start, buf, off, n);
    var x := start - area.first + n;
    if WrapsAround(start, n, area.last) {
      assert Turn(x, area.Size()) == Turn(x - area.Size(), area.Size());
    }
  }

  /** add_bios_considering_wrap. */
  method AddBiosWrap(area: Area, bl: seq<Bio>, start: int, buf: Buffer, off: nat, n: nat) returns (r: seq<Bio>, next: int)
    ensures Puts(r) == Puts(bl) + (FirstList(area, start, buf, off, n) + SecondList(area, start, buf, off, n))
    ensures next == NextAfter(area, start, n)
    ensures area.Ok() && area.Holds(start) && n <= area.Size() < U32
            ==> Puts(r) == Puts(bl) + Round(area, start, buf, off, n) && area.At(next, 0) == area.At(start, n)
  {
    if area.Ok() && area.Holds(start) && n <= area.Size() < U32 {
      ListsAreRound(area, start, buf, off, n);
    }
    if WrapsAround(start, n, area.last) {
      var n1 := BeforeEnd(area, start);
      var n2 := (n - n1) % U32;
      r := AddBio(bl, buf, off, start, n1);
      r := AddBio(r, buf, off + n1, area.first, n2);
      next := area.first + n2;
    } else {
      r := AddBio(bl, buf, off, start, n);
      next := start + n;
    }
  }

  /** add_bio_considering_wrap: the address of a single block. */
  function Wrapped(area: Area, target: int): int {
    if WrapsAround(target, 1, area.last) then area.first + (target - area.last - 1) else target
  }

  lemma {:induction false} AtNext(area: Area, target: int, dst: int)
    requires area.Ok() && area.Holds(target) && dst == area.At(target, 0)
    ensures area.Holds(dst + 1) && area.At(dst + 1, 0) == area.At(target, 1)
  {
    TurnAdvance(target - area.first, 1, area.Size());
    AtIs(area, dst + 1, 0);
  }

  /** add_bio_considering_wrap with wrapped_baddr: a single block. */
  method AddBioWrap(area: Area, bl: seq<Bio>, target: int, buf: Buffer) returns (r: seq<Bio>, next: int)
    ensures Puts(r) == Puts(bl) + [Put(Wrapped(area, target), buf, 0)] && next == Wrapped(area, target) + 1
    ensures area.Ok() && area.Holds(target)
            ==> Wrapped(area, target) == area.At(target, 0) && area.Holds(next) && area.At(next, 0) == area.At(target, 1)
  {
    var dst := target;
    if WrapsAround(dst, 1, area.last) {
      dst := area.first + (dst - area.last - 1);
    }
    PutsAppend(bl, Bio(dst, buf, 0, 1));
    r := bl + [Bio(dst, buf, 0, 1)];
    if area.Ok() && area.Holds(target) {
      AtIs(area, target, 0);
      AtNext(area, target, dst);
    }
    assert Straight(dst, buf, 0, 1) == [Put(dst, buf, 0)];
    next := dst + 1;
  }

  lemma {:induction false} AtAddr(area: Area, start: int, pos: nat, k: nat)
    requires area.Ok() && area.Holds(start) && area.At(start, 0) == Addr(area, pos) && k <= area.Size()
    ensures area.At(start, k) == Addr(area, pos + k)
  {
    TurnAdvance(start - area.first, k, area.Size());
    TurnAdvance(pos, k, area.Size());
  }

  /** n blocks of a buffer at successive positions of the log. */
  function AtPositions(area: Area, pos: nat, buf: Buffer, off: nat, n: nat): (r: seq<Put>)
    requires area.Ok()
    ensures |r| == n
  {
    seq(n, k requires 0 <= k < n => Put(Addr(area, pos + k), buf, off + k))
  }

  lemma {:induction false} RoundAtPositions(area: Area, start: int, pos: nat, buf: Buffer, off: nat, n: nat)
    requires area.Ok() && area.Holds(start) && area.At(start, 0) == Addr(area, pos) && n <= area.Size()
    ensures Round(area, start, buf, off, n) == AtPositions(area, pos, buf, off, n)
  {
    forall k | 0 <= k < n ensures area.At(start, k) == Addr(area, pos + k) {
      AtAddr(area, start, pos, k);
    }
  }

  /** What the metadata bio list writes: the metadata blocks behind the data, the superblock copy behind
      them, and the descriptor block where the transaction begins. */
  function MetaPuts(area: Area, desc: int, start: int, nMeta: nat): seq<Put> {
    FirstList(area, start, MetaBuf, 1, nMeta) + SecondList(area, start, MetaBuf, 1, nMeta)
    + [Put(Wrapped(area, NextAfter(area, start, nMeta)), SuperBuf, 0)] + [Put(Wrapped(area, desc), MetaBuf, 0)]
  }

  /** And the commit bio list. */
  function CommitPut(area: Area, start: int, nMeta: nat): Put {
    Put(Wrapped(area, Wrapped(area, NextAfter(area, start, nMeta)) + 1), CommitBuf, 0)
  }

  method LayMeta(area: Area, desc: int, start: int, nMeta: nat) returns (metaBl: seq<Bio>, commitBl: seq<Bio>)
    ensures Puts(metaBl) == MetaPuts(area, desc, start, nMeta) && Puts(commitBl) == [CommitPut(area, start, nMeta)]
  {
    var next, past;
    metaBl, next := AddBiosWrap(area, [], start, MetaBuf, 1, nMeta);
    metaBl, next := AddBioWrap(area, metaBl, next, SuperBuf);
    metaBl, past := AddBioWrap(area, metaBl, desc, MetaBuf);
    commitBl, past := AddBioWrap(area, [], next, CommitBuf);
  }

  lemma {:induction false} WrappedIs(area: Area, target: int, pos: nat)
    requires area.Ok() && area.Holds(target) && area.At(target, 0) == Addr(area, pos)
    ensures Wrapped(area, target) == Addr(area, pos)
    ensures area.Holds(Wrapped(area, target) + 1) && area.At(Wrapped(area, target) + 1, 0) == Addr(area, pos + 1)
  {
    AtIs(area, target, 0);
    AtNext(area, target, Addr(area, pos));
    AtAddr(area, target, pos, 1);
  }

  /** | desc | data ... | meta ... | superblock copy | commit | at successive positions from pos. */
  lemma {:induction false} MetaPositions(area: Area, pos: nat, nData: nat, nMeta: nat)
    requires area.Ok() && nMeta <= area.Size() < U32
    ensures var desc, start := Addr(area, pos), Addr(area, pos + 1 + nData);
            MetaPuts(area, desc, start, nMeta) == AtPositions(area, pos + 1 + nData, MetaBuf, 1, nMeta)
                                                  + [Put(Addr(area, pos + 1 + nData + nMeta), SuperBuf, 0)]
                                                  + [Put(Addr(area, pos), MetaBuf, 0)]
    ensures CommitPut(area, Addr(area, pos + 1 + nData), nMeta) == Put(Addr(area, pos + 1 + nData + nMeta + 1), CommitBuf, 0)
  {
    var desc, meta := Addr(area, pos), pos + 1 + nData;
    var start := Addr(area, meta);
    AtIs(area, start, 0);
    AtIs(area, desc, 0);
    ListsAreRound(area, start, MetaBuf, 1, nMeta);
    RoundAtPositions(area, start, meta, MetaBuf, 1, nMeta);
    AtAddr(area, start, meta, nMeta);
    WrappedIs(area, desc, pos);
    var next := NextAfter(area, start, nMeta);
    WrappedIs(area, next, meta + nMeta);
    WrappedIs(area, Wrapped(area, next) + 1, meta + nMeta + 1);
  }

  // ------------------------------------------------------------------------------------------
  // Data chunks
  // ------------------------------------------------------------------------------------------

  /** get_chunck_start, with the descriptor block skipped: never wrapped. */
  function ChunkStart(head: int, req: nat): int {
    (if req == 0 then head else head + req * MAX_BIO + 1) + if req == 0 then 1 else 0
  }

  lemma {:induction false} ChunkStartIs(head: int, req: nat)
    ensures ChunkStart(head, req) == head + 1 + MAX_BIO * req
  {
  }

  lemma {:induction false} PutsConcat(a: seq<Bio>, b: seq<Bio>)
    ensures Puts(a + b) == Puts(a) + Puts(b)
  {
    if b == [] {
      assert a + b == a;
    } else {
      var n := |b| - 1;
      assert a + b == a + b[..n] + [b[n]] && b == b[..n] + [b[n]];
      PutsConcat(a, b[..n]);
      PutsAppend(a + b[..n], b[n]);
      PutsAppend(b[..n], b[n]);
    }
  }

  /** Where a chunk that starts (before wrapping) at `start` belongs. */
  function ChunkPuts(area: Area, start: int, n: nat): (r: seq<Put>)
    requires area.Ok() && area.first <= start
    ensures |r| == n
  {
    seq(n, k requires 0 <= k < n => Put(Addr(area, start - area.first + k), DataBuf, k))
  }

  /** Chunk after chunk, the data lies behind the descriptor block: block d of the transaction, which is
      block d - MAX_BIO * req of chunk req, belongs at position pos + 1 + d. */
  lemma {:induction false} ChunkPositions(area: Area, head: int, pos: nat, req: nat, n: nat)
    requires area.Ok() && head == Addr(area, pos)
    ensures ChunkPuts(area, ChunkStart(head, req), n) == AtPositions(area, pos + 1 + MAX_BIO * req, DataBuf, 0, n)
  {
    var a, b := ChunkPuts(area, ChunkStart(head, req), n), AtPositions(area, pos + 1 + MAX_BIO * req, DataBuf, 0, n);
    ChunkStartIs(head, req);
    forall k | 0 <= k < n ensures a[k] == b[k] {
      var m := 1 + MAX_BIO * req + k;
      TurnTurn(pos, m, area.Size());
      assert ChunkStart(head, req) - area.first + k == Turn(pos, area.Size()) + m;
      assert a[k].addr == Addr(area, Turn(pos, area.Size()) + m);
      assert b[k].addr == Addr(area, pos + m);
    }
  }

  lemma {:induction false} ChunkSplits(area: Area, start: int, n: nat)
    requires area.Ok() && area.Holds(start) && n <= area.Size()
    ensures ChunkPuts(area, start, n) == Round(area, start, DataBuf, 0, n)
  {
    assert forall k :: 0 <= k < n ==> area.At(start, k) == Addr(area, start - area.first + k);
  }

  /** add_bios_considering_wrap_into_separate_bls: no bound on `start`, and a 32-bit first length. */
  method SplitChunk(area: Area, start: int, n: nat) returns (firstBl: seq<Bio>, secondBl: seq<Bio>)
    ensures Puts(firstBl) == FirstList(area, start, DataBuf, 0, n) && Puts(secondBl) == SecondList(area, start, DataBuf, 0, n)
    ensures firstBl == [] <==> FirstList(area, start, DataBuf, 0, n) == []
  {
    firstBl, secondBl := [], [];
    if WrapsAround(start, n, area.last) {
      var n1 := BeforeEnd(area, start);
      firstBl := AddBio([], DataBuf, 0, start, n1);
      secondBl := AddBio([], DataBuf, n1, area.first, (n - n1) % U32);
    } else {
      firstBl := AddBio([], DataBuf, 0, start, n);
    }
  }

  /** What persist_data writes for a chunk: nothing when the first list is empty, else both lists. */
  function ChunkSent(area: Area, start: int, n: nat): seq<Put> {
    var first := FirstList(area, start, DataBuf, 0, n);
    if first == [] then [] else first + SecondList(area, start, DataBuf, 0, n)
  }

  /** The three cases: a start in the log, one past its end, and beyond. */
  lemma {:induction false} ChunkSentIs(area: Area, start: int, n: nat)
    requires area.Ok() && area.first <= start && 0 < n <= area.Size() < U32 && start - area.last - 1 < U32
    ensures start <= area.last ==> ChunkSent(area, start, n) == ChunkPuts(area, start, n)
    ensures start == area.last + 1 ==> ChunkSent(area, start, n) == []
    ensures start > area.last + 1 ==> ChunkSent(area, start, n) != [] && ChunkSent(area, start, n)[0].addr == start
  {
    if start <= area.last {
      ChunkSplits(area, start, n);
      ListsAreRound(area, start, DataBuf, 0, n);
    }
  }

  /** A chunk stays inside the log exactly when it starts at most one past its end. */
  lemma {:induction false} ChunkInside(area: Area, start: int, n: nat)
    requires area.Ok() && area.first <= start && 0 < n <= area.Size() < U32 && start - area.last - 1 < U32
    ensures (forall j :: 0 <= j < |ChunkSent(area, start, n)| ==> area.first <= ChunkSent(area, start, n)[j].addr <= area.last)
            <==> start <= area.last + 1
  {
    ChunkSentIs(area, start, n);
    if start > area.last + 1 {
      assert ChunkSent(area, start, n)[0].addr == start;
    }
  }

  /** persist_data on one chunk of n blocks: what is written, and whether the chunk is counted as
      complete.  The chunk goes to its cyclic addresses and is counted exactly when its unwrapped
      start does not pass the end of the log: one block further the first list is empty and the call
      gives up, and further still the 32-bit length of the first part underflows. */
  method PersistData(area: Area, head: int, req: nat, n: nat) returns (written: seq<Bio>, counted: bool)
    requires area.Ok() && area.first <= head <= area.last && 0 < n <= area.Size() < U32
    requires ChunkStart(head, req) - area.last - 1 < U32
    ensures Puts(written) == ChunkSent(area, ChunkStart(head, req), n) && (counted <==> Puts(written) != [])
    ensures counted && Puts(written) == ChunkPuts(area, ChunkStart(head, req), n) <==> ChunkStart(head, req) <= area.last
  {
    var start := ChunkStart(head, req);
    ChunkSentIs(area, start, n);
    var firstBl, secondBl := SplitChunk(area, start, n);
    if firstBl == [] {
      return [], false;
    }
    PutsConcat(firstBl, secondBl);
    written, counted := firstBl + secondBl, true;
    if start > area.last + 1 {
      assert Puts(written)[0].addr == start && ChunkPuts(area, start, n)[0].addr == Addr(area, start - area.first + 0);
    }
  }

  // ------------------------------------------------------------------------------------------
  // How the data is cut into chunks
  // ------------------------------------------------------------------------------------------

  /** n_fetch_reqs for n data blocks. */
  function ChunkCount(n: nat): nat {
    (n + MAX_BIO - 1) / MAX_BIO
  }

  /** All chunks are full but the last one. */
  function ChunkLen(n: nat, k: nat): nat {
    if n <= MAX_BIO * k then 0 else Min(n - MAX_BIO * k, MAX_BIO)
  }

  lemma {:induction false} ChunkLens(n: nat, k: nat)
    requires k < ChunkCount(n)
    ensures 0 < ChunkLen(n, k) <= MAX_BIO && MAX_BIO * k + ChunkLen(n, k) <= n
  {
  }

  /** Every data block is in one of the chunks. */
  lemma {:induction false} ChunkOf(n: nat, d: nat) returns (k: nat, j: nat)
    requires d < n
    ensures k < ChunkCount(n) && j < ChunkLen(n, k) && d == MAX_BIO * k + j
  {
    k, j := d / MAX_BIO, d % MAX_BIO;
  }
}
