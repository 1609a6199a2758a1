/** What the steps of the journal do to the disk and the shared records: each keeps Core. */
module JournalProof {
  import opened BlockDevice
  import opened SourcePlan
  import opened CircularLog
  import LogLayout
  import opened JournalTx
  import opened JournalRun

  // ------------------------------------------------------------------------------------------
  // Places in a log
  // ------------------------------------------------------------------------------------------

  lemma {:induction false} ChainBounds(items: seq<Item>, l: nat, p: nat, q: nat)
    requires Chained(items, l, p, q)
    ensures p <= q
    ensures forall i :: 0 <= i < |items| && items[i].log == l ==> p <= items[i].pos && items[i].pos + items[i].Len() <= q
    decreases |items|
  {
    if items != [] {
      ChainBounds(items[1..], l, if items[0].log == l then p + items[0].Len() else p, q);
    }
  }

  lemma {:induction false} ChainAppend(items: seq<Item>, l: nat, p: nat, q: nat, item: Item)
    requires Chained(items, l, p, q) && (item.log == l ==> item.pos == q)
    ensures Chained(items + [item], l, p, if item.log == l then q + item.Len() else q)
    decreases |items|
  {
    if items == [] {
      assert (items + [item])[1..] == [];
    } else {
      assert (items + [item])[1..] == items[1..] + [item];
      ChainAppend(items[1..], l, if items[0].log == l then p + items[0].Len() else p, q, item);
    }
  }

  /** The chain looks only at the places. */
  lemma {:induction false} ChainSame(items: seq<Item>, items': seq<Item>, l: nat, p: nat, q: nat)
    requires Chained(items, l, p, q) && |items| == |items'|
    requires forall i :: 0 <= i < |items| ==> items[i].(ready := true) == items'[i].(ready := true)
    ensures Chained(items', l, p, q)
    decreases |items|
  {
    if items != [] {
      assert items[0].(ready := true) == items'[0].(ready := true);
      ChainSame(items[1..], items'[1..], l, if items[0].log == l then p + items[0].Len() else p, q);
    }
  }

  function SizesIn(items: seq<Item>, l: nat): nat {
    if items == [] then 0 else (if items[0].log == l then items[0].Len() else 0) + SizesIn(items[1..], l)
  }

  lemma {:induction false} ChainSizes(items: seq<Item>, l: nat, p: nat, q: nat)
    requires Chained(items, l, p, q)
    ensures q - p == SizesIn(items, l)
    decreases |items|
  {
    if items != [] {
      ChainSizes(items[1..], l, if items[0].log == l then p + items[0].Len() else p, q);
    }
  }

  // ------------------------------------------------------------------------------------------
  // What a write leaves alone
  // ------------------------------------------------------------------------------------------

  ghost predicate SameAt(a: Disk, b: Disk, blk: int) {
    forall loc: Loc :: loc.blk == blk ==> Read(a, loc) == Read(b, loc)
  }

  lemma {:induction false} SameBlock(a: Disk, b: Disk, blk: int)
    requires SameAt(a, b, blk)
    ensures ReadBlock(a, blk) == ReadBlock(b, blk)
  {
  }

  /** b is a with the one block changed. */
  ghost predicate OnlyAt(a: Disk, b: Disk, blk: int) {
    && a.Keys <= b.Keys
    && forall loc: Loc :: loc.blk != blk ==> (loc in a <==> loc in b) && (loc in a ==> a[loc] == b[loc])
  }

  lemma {:induction false} OtherBlock(a: Disk, b: Disk, blk: int, other: int)
    requires OnlyAt(a, b, blk) && other != blk
    ensures SameAt(a, b, other)
  {
  }

  lemma {:induction false} StoredBlock(a: Disk, addr: int, content: Block)
    requires |content| == BLOCK_SIZE
    ensures OnlyAt(a, Stored(a, addr, content), addr) && ReadBlock(Stored(a, addr, content), addr) == content
  {
  }

  ghost predicate ItemSame(c: Config, item: Item, a: Disk, b: Disk)
    requires c.Ok() && item.log < 2
  {
    forall p: nat :: item.pos <= p < item.pos + |item.image| ==> SameAt(a, b, Addr(c.logs[item.log], p))
  }

  lemma {:induction false} ItemsKeep(c: Config, d0: Disk, a: Disk, b: Disk, items: seq<Item>)
    requires c.Ok() && ItemsOk(c, d0, a, items)
    requires forall i :: 0 <= i < |items| ==> items[i].log < 2 && ItemSame(c, items[i], a, b)
    ensures ItemsOk(c, d0, b, items)
  {
    forall i | 0 <= i < |items| ensures ItemOk(c, d0, b, items[i]) {
      var item := items[i];
      assert ItemOk(c, d0, a, item);
      forall k: nat | k < |item.image| ensures StandsAt(b, c.logs[item.log], item.pos, item.image, k) {
        assert StandsAt(a, c.logs[item.log], item.pos, item.image, k);
        SameBlock(a, b, Addr(c.logs[item.log], item.pos + k));
      }
    }
  }

  ghost predicate SourcesSame(c: Config, item: Item, a: Disk, b: Disk)
    requires c.Ok() && item.log < 2
  {
    forall blk :: IsSource(c, item.log, item.job.tx, item.pos, blk) ==> SameAt(a, b, blk)
  }

  /** A write that spares its sources does not disturb a running checkpoint. */
  lemma {:induction false} CkptKeep(c: Config, d0: Disk, a: Disk, b: Disk, k: Ckpt)
    requires c.Ok() && CkptOk(c, a, k)
    requires k.Running? ==> k.item.log < 2 && PlanCopiesOk(c, k.item.log, k.item.pos, k.item.job) && SourcesSame(c, k.item, a, b)
    ensures true == CkptOk(c, b, k) && Partial(b, k) == Partial(a, k)
  {
    if k.Running? {
      var plan := k.item.job.plan;
      forall i | 0 <= i < |plan| ensures SameAt(a, b, plan[i].src) {
        assert CopyOk(c, k.item.log, k.item.job.tx, k.item.pos, plan[i]);
      }
      forall i | 0 <= i < |k.bufs| ensures k.bufs[i] == ReadBlock(b, plan[k.copied + i].src) {
        SameBlock(a, b, plan[k.copied + i].src);
      }
      WritesAgree(a, b, plan[..k.copied]);
    }
  }

  /** The sources of a checkpoint are stage blocks and blocks of the item's own image. */
  lemma {:induction false} ItemSources(c: Config, item: Item, a: Disk, b: Disk)
    requires c.Ok() && item.log < 2 && |item.image| == item.Len()
    requires ItemSame(c, item, a, b) && forall blk :: InArea(c.stage, blk) ==> SameAt(a, b, blk)
    ensures SourcesSame(c, item, a, b)
  {
    forall blk | IsSource(c, item.log, item.job.tx, item.pos, blk) ensures SameAt(a, b, blk) {
      if !InArea(c.stage, blk) {
        var p: nat :| item.pos < p <= item.pos + |item.job.tx.data| && blk == Addr(c.logs[item.log], p);
        assert SameAt(a, b, Addr(c.logs[item.log], p));
      }
    }
  }

  // ------------------------------------------------------------------------------------------
  // A block written to a log
  // ------------------------------------------------------------------------------------------

  /** Position w of the log is past everything committed and not round the log yet. */
  ghost predicate FreeSpot(log: Log, f: Flight, w: nat) {
    FloorOf(log, f) <= w < log.tpos + log.area.Size()
  }

  /** A write to a free spot hits no block of a committed transaction. */
  lemma {:induction false} SpotSparesItem(c: Config, items: seq<Item>, log: Log, f: Flight, l: nat, w: nat, i: nat,
                                          p: nat)
    requires c.Ok() && l < 2 && log.area == c.logs[l] && Chained(items, l, log.tpos, FloorOf(log, f)) && FreeSpot(log, f, w)
    requires i < |items| && items[i].log < 2 && items[i].pos <= p < items[i].pos + items[i].Len()
    ensures Addr(c.logs[items[i].log], p) != Addr(c.logs[l], w)
  {
    if items[i].log == l {
      ChainBounds(items, l, log.tpos, FloorOf(log, f));
      AddrDiffers(c.logs[l], p, w);
    }
  }

  /** The block at a free spot is the only one that changed. */
  ghost predicate SpotWrite(c: Config, store: Disk, store': Disk, items: seq<Item>, log: Log, f: Flight, l: nat, w: nat) {
    && c.Ok() && l < 2 && log.area == c.logs[l] && Chained(items, l, log.tpos, FloorOf(log, f)) && FreeSpot(log, f, w)
    && OnlyAt(store, store', Addr(c.logs[l], w))
  }

  lemma {:induction false} SpotItemSame(c: Config, d0: Disk, store: Disk, store': Disk, items: seq<Item>, log: Log,
                                        f: Flight, l: nat, w: nat, i: nat)
    requires SpotWrite(c, store, store', items, log, f, l, w) && i < |items| && ItemOk(c, d0, store, items[i])
    ensures ItemSame(c, items[i], store, store')
  {
    forall p: nat | items[i].pos <= p < items[i].pos + |items[i].image|
      ensures SameAt(store, store', Addr(c.logs[items[i].log], p))
    {
      SpotSparesItem(c, items, log, f, l, w, i, p);
      OtherBlock(store, store', Addr(c.logs[l], w), Addr(c.logs[items[i].log], p));
    }
  }

  lemma {:induction false} SpotItems(c: Config, d0: Disk, store: Disk, store': Disk, items: seq<Item>, log: Log,
                                     f: Flight, l: nat, w: nat)
    requires true == SpotWrite(c, store, store', items, log, f, l, w) && true == ItemsOk(c, d0, store, items)
    ensures true == ItemsOk(c, d0, store', items)
  {
    forall i | 0 <= i < |items| ensures items[i].log < 2 && ItemSame(c, items[i], store, store') {
      SpotItemSame(c, d0, store, store', items, log, f, l, w, i);
    }
    ItemsKeep(c, d0, store, store', items);
  }

  lemma {:induction false} SpotStage(c: Config, d0: Disk, l: nat, w: nat, store: Disk, store': Disk)
    requires c.Ok() && l < 2 && true == StageKept(c, d0, store) && true == OnlyAt(store, store', Addr(c.logs[l], w))
    ensures true == StageKept(c, d0, store')
    ensures forall blk :: InArea(c.stage, blk) ==> SameAt(store, store', blk)
  {
  }

  lemma {:induction false} SpotFs(c: Config, l: nat, w: nat, store: Disk, store': Disk, view: Disk)
    requires c.Ok() && l < 2 && OnlyAt(store, store', Addr(c.logs[l], w)) && SameFs(c, store, view)
    ensures true == SameFs(c, store', view)
  {
    assert !c.InFs(Addr(c.logs[l], w));
  }

  lemma {:induction false} SpotCkpt(c: Config, d0: Disk, store: Disk, store': Disk, items: seq<Item>, log: Log,
                                    f: Flight, l: nat, w: nat,
                 committed: seq<Job>, done: nat, k: Ckpt)
    requires true == SpotWrite(c, store, store', items, log, f, l, w) && true == StageKept(c, d0, store)
    requires true == FsOk(c, d0, store, committed, done, k)
    requires k.Running? ==> items != [] && items[0] == k.item && true == ItemOk(c, d0, store, k.item)
    ensures true == FsOk(c, d0, store', committed, done, k)
  {
    if k.Running? {
      SpotItemSame(c, d0, store, store', items, log, f, l, w, 0);
      SpotStage(c, d0, l, w, store, store');
      ItemSources(c, k.item, store, store');
    }
    CkptKeep(c, d0, store, store', k);
    SpotFs(c, l, w, store, store', Replay(d0, committed[..done]) + Partial(store, k));
  }

  /** Everything but the flight of its own log, after a block is written at a free spot of log l. */
  lemma {:induction false} SpotStep(c: Config, d0: Disk, s: Run, l: nat, w: nat, store': Disk)
    requires Core(c, d0, s) && l < 2 && FreeSpot(s.logs[l], s.flight[l], w)
    requires true == OnlyAt(s.store, store', Addr(c.logs[l], w))
    ensures true == ItemsOk(c, d0, store', s.Live()) && true == StageKept(c, d0, store')
    ensures true == FsOk(c, d0, store', s.committed, s.done, s.ckpt)
    ensures true == LogOk(c, d0, store', s.Live(), s.logs[1 - l], s.flight[1 - l], 1 - l)
  {
    LogOfCore(c, d0, s, l);
    assert SpotWrite(c, s.store, store', s.Live(), s.logs[l], s.flight[l], l, w);
    SpotItemsStep(c, d0, s, l, w, store');
    SpotFsStep(c, d0, s, l, w, store');
    LogOfCore(c, d0, s, 1 - l);
    LogElsewhere(c, d0, s.store, store', s.Live(), s.logs[1 - l], s.flight[1 - l], 1 - l, Addr(c.logs[l], w));
  }

  lemma {:induction false} SpotItemsStep(c: Config, d0: Disk, s: Run, l: nat, w: nat, store': Disk)
    requires Core(c, d0, s) && l < 2 && true == SpotWrite(c, s.store, store', s.Live(), s.logs[l], s.flight[l], l, w)
    ensures true == ItemsOk(c, d0, store', s.Live())
  {
    assert Holds(c, d0, s, OfItems);
    SpotItems(c, d0, s.store, store', s.Live(), s.logs[l], s.flight[l], l, w);
  }

  lemma {:induction false} SpotFsStep(c: Config, d0: Disk, s: Run, l: nat, w: nat, store': Disk)
    requires Core(c, d0, s) && l < 2 && true == SpotWrite(c, s.store, store', s.Live(), s.logs[l], s.flight[l], l, w)
    ensures true == StageKept(c, d0, store') && true == FsOk(c, d0, store', s.committed, s.done, s.ckpt)
  {
    assert Holds(c, d0, s, OfStage) && Holds(c, d0, s, OfFs);
    SpotStage(c, d0, l, w, s.store, store');
    if s.ckpt.Running? {
      RunningItem(c, d0, s);
    }
    SpotCkpt(c, d0, s.store, store', s.Live(), s.logs[l], s.flight[l], l, w, s.committed, s.done, s.ckpt);
  }

  // ------------------------------------------------------------------------------------------
  // Flights
  // ------------------------------------------------------------------------------------------

  /** Other places of the flight are other blocks. */
  lemma {:induction false} PlacesDiffer(c: Config, d0: Disk, store: Disk, log: Log, l: nat, f: Flight, i: nat, k: nat)
    requires c.Ok() && l < 2 && log.Ok() && log.area == c.logs[l] && f.Busy? && true == FlightOk(c, d0, store, log, l, f)
    requires i < |f.image| && if f.placed then f.job.tx.Len() <= log.area.Size() else i <= |f.job.tx.data|
    requires k in f.written && k != i
    ensures Addr(c.logs[l], f.pos + k) != Addr(c.logs[l], f.pos + i)
  {
    if i < k {
      AddrDiffers(c.logs[l], f.pos + i, f.pos + k);
    } else {
      AddrDiffers(c.logs[l], f.pos + k, f.pos + i);
    }
  }

  /** The flight itself: one place more, the others as they were. */
  lemma {:induction false} FlightWrite(c: Config, d0: Disk, store: Disk, store': Disk, log: Log, l: nat, f: Flight,
                                       i: nat)
    requires c.Ok() && l < 2 && log.Ok() && log.area == c.logs[l] && f.Busy? && true == FlightOk(c, d0, store, log, l, f)
    requires i < |f.image| - 1 && if f.placed then f.job.tx.Len() <= log.area.Size() else i <= |f.job.tx.data|
    requires OnlyAt(store, store', Addr(c.logs[l], f.pos + i)) && StandsAt(store', c.logs[l], f.pos, f.image, i)
    ensures true == FlightOk(c, d0, store', log, l, f.(written := f.written + {i}))
  {
    var area := c.logs[l];
    forall k | k in f.written + {i} ensures StandsAt(store', area, f.pos, f.image, k) {
      if k != i {
        assert StandsAt(store, area, f.pos, f.image, k);
        PlacesDiffer(c, d0, store, log, l, f, i, k);
        OtherBlock(store, store', Addr(area, f.pos + i), Addr(area, f.pos + k));
        SameBlock(store, store', Addr(area, f.pos + k));
      }
    }
  }

  /** A log that is not touched. */
  lemma {:induction false} LogElsewhere(c: Config, d0: Disk, store: Disk, store': Disk, items: seq<Item>, log: Log,
                                        f: Flight, l: nat, b: int)
    requires c.Ok() && l < 2 && true == LogOk(c, d0, store, items, log, f, l) && true == OnlyAt(store, store', b)
    requires !InArea(c.logs[l], b)
    ensures true == LogOk(c, d0, store', items, log, f, l)
  {
    if f.Busy? {
      forall i | i in f.written ensures StandsAt(store', c.logs[l], f.pos, f.image, i) {
        assert StandsAt(store, c.logs[l], f.pos, f.image, i);
        OtherBlock(store, store', b, Addr(c.logs[l], f.pos + i));
        SameBlock(store, store', Addr(c.logs[l], f.pos + i));
      }
    }
  }

  lemma {:induction false} FlightSpot(c: Config, d0: Disk, store: Disk, items: seq<Item>, log: Log, f: Flight, l: nat,
                                      i: nat)
    requires c.Ok() && l < 2 && log.area == c.logs[l] && true == LogOk(c, d0, store, items, log, f, l) && f.Busy?
    requires i < f.job.tx.Len()
    requires f.placed || i <= |f.job.tx.data|
    ensures FreeSpot(log, f, f.pos + i) && (f.placed ==> f.job.tx.Len() <= log.area.Size())
  {
    ChainBounds(items, l, log.tpos, FloorOf(log, f));
  }

  lemma {:induction false} LogOfCore(c: Config, d0: Disk, s: Run, l: nat)
    requires Core(c, d0, s) && l < 2
    ensures true == LogOk(c, d0, s.store, s.Live(), s.logs[l], s.flight[l], l)
  {
    assert Holds(c, d0, s, OfLog(l));
  }

  lemma {:induction false} CoreFrom(c: Config, d0: Disk, s: Run, l: nat)
    requires Shape(c, s) && l < 2 && Holds(c, d0, s, OfLog(l)) && Holds(c, d0, s, OfLog(1 - l)) && Holds(c, d0, s, OfItems)
    requires Holds(c, d0, s, OfOrder) && Holds(c, d0, s, OfStage) && Holds(c, d0, s, OfFs)
    ensures Core(c, d0, s)
  {
    forall part ensures Holds(c, d0, s, part) {
      if part.OfLog? && part.l < 2 {
        assert part.l == l || part.l == 1 - l;
      }
    }
  }

  /** A step that changes only log l and its flight. */
  lemma {:induction false} OtherParts(c: Config, d0: Disk, s: Run, s': Run, l: nat)
    requires Core(c, d0, s) && Shape(c, s') && l < 2 && s'.Live() == s.Live()
    requires s' == s.(logs := s'.logs, flight := s'.flight) && s'.logs[1 - l] == s.logs[1 - l]
    requires s'.flight[1 - l] == s.flight[1 - l]
    ensures Holds(c, d0, s', OfItems) && Holds(c, d0, s', OfOrder) && Holds(c, d0, s', OfStage) && Holds(c, d0, s', OfFs)
    ensures Holds(c, d0, s', OfLog(1 - l))
  {
    assert Holds(c, d0, s, OfItems) && Holds(c, d0, s, OfOrder) && Holds(c, d0, s, OfStage) && Holds(c, d0, s, OfFs);
    assert Holds(c, d0, s, OfLog(1 - l));
  }

  /** The flights differ at most in the books of the committer. */
  ghost predicate Alike(f: Flight, g: Flight) {
    && f.Busy? && g.Busy? && f.job == g.job && f.pos == g.pos && f.image == g.image
    && f.written == g.written && f.placed == g.placed
  }

  lemma {:induction false} AlikeLog(c: Config, d0: Disk, store: Disk, items: seq<Item>, log: Log, f: Flight, g: Flight,
                                    l: nat)
    requires true == LogOk(c, d0, store, items, log, f, l) && Alike(f, g)
    ensures true == LogOk(c, d0, store, items, log, g, l)
  {
  }

  /** The log a block is written to. */
  lemma {:induction false} FlightLog(c: Config, d0: Disk, store: Disk, store': Disk, items: seq<Item>, log: Log,
                                     f: Flight, l: nat, i: nat)
    requires c.Ok() && l < 2 && log.area == c.logs[l] && true == LogOk(c, d0, store, items, log, f, l) && f.Busy?
    requires i < |f.image| - 1 && |f.image[i]| == BLOCK_SIZE && (f.placed || i <= |f.job.tx.data|)
    requires store' == Stored(store, Addr(c.logs[l], f.pos + i), f.image[i])
    ensures FreeSpot(log, f, f.pos + i) && true == OnlyAt(store, store', Addr(c.logs[l], f.pos + i))
    ensures true == LogOk(c, d0, store', items, log, f.(written := f.written + {i}), l)
  {
    FlightSpot(c, d0, store, items, log, f, l, i);
    StoredBlock(store, Addr(c.logs[l], f.pos + i), f.image[i]);
    FlightWrite(c, d0, store, store', log, l, f, i);
  }

  lemma {:induction false} WriteWith(c: Config, d0: Disk, s: Run, s': Run, l: nat, w: nat)
    requires true == Core(c, d0, s) && l < 2 && FreeSpot(s.logs[l], s.flight[l], w) && |s'.flight| == 2
    requires s' == s.(store := s'.store, flight := s'.flight) && s'.flight[1 - l] == s.flight[1 - l]
    requires true == OnlyAt(s.store, s'.store, Addr(c.logs[l], w))
    requires true == LogOk(c, d0, s'.store, s.Live(), s.logs[l], s'.flight[l], l)
    ensures true == Core(c, d0, s')
  {
    SpotStep(c, d0, s, l, w, s'.store);
    assert s'.Live() == s.Live();
    assert Holds(c, d0, s, OfOrder);
    CoreFrom(c, d0, s', l);
  }

  /** Place i of the image goes to its address, and nothing else changes but the committer's books. */
  ghost predicate Written(c: Config, s: Run, s': Run, l: nat, i: nat) {
    && l < 2 && |c.logs| == 2 && c.logs[l].Ok() && |s.flight| == 2 && s.flight[l].Busy? && |s'.flight| == 2
    && i < |s.flight[l].image| - 1 && |s.flight[l].image[i]| == BLOCK_SIZE
    && s' == s.(store := Stored(s.store, Addr(c.logs[l], s.flight[l].pos + i), s.flight[l].image[i]), flight := s'.flight)
    && s'.flight[1 - l] == s.flight[1 - l]
    && Alike(s.flight[l].(written := s.flight[l].written + {i}), s'.flight[l])
  }

  /** Data and metadata blocks. */
  lemma {:induction false} WriteStep(c: Config, d0: Disk, s: Run, s': Run, l: nat, i: nat)
    requires true == Core(c, d0, s) && Written(c, s, s', l, i)
    requires s.flight[l].placed || i <= |s.flight[l].job.tx.data|
    ensures true == Core(c, d0, s')
  {
    var f := s.flight[l];
    LogOfCore(c, d0, s, l);
    FlightLog(c, d0, s.store, s'.store, s.Live(), s.logs[l], f, l, i);
    AlikeLog(c, d0, s'.store, s.Live(), s.logs[l], f.(written := f.written + {i}), s'.flight[l], l);
    WriteWith(c, d0, s, s', l, f.pos + i);
  }

  /** Requests made and counted change only the committer's books. */
  lemma {:induction false} BooksStep(c: Config, d0: Disk, s: Run, s': Run, l: nat)
    requires true == Core(c, d0, s) && l < 2 && |s'.flight| == 2 && s' == s.(flight := s'.flight)
    requires s'.flight[1 - l] == s.flight[1 - l] && Alike(s.flight[l], s'.flight[l])
    ensures true == Core(c, d0, s')
  {
    LogOfCore(c, d0, s, l);
    AlikeLog(c, d0, s.store, s.Live(), s.logs[l], s.flight[l], s'.flight[l], l);
    assert s'.Live() == s.Live();
    OtherParts(c, d0, s, s', l);
    CoreFrom(c, d0, s', l);
  }

  // ------------------------------------------------------------------------------------------
  // Beginning, placing and committing a transaction
  // ------------------------------------------------------------------------------------------

  lemma {:induction false} ImageIsOk(tx: Tx, sb: Block, commit: Block)
    requires |tx.desc| == BLOCK_SIZE && Sized(tx.data) && Sized(tx.metaBlks) && |sb| == |commit| == BLOCK_SIZE
    ensures ImageOk(tx, tx.Image(sb, commit))
  {
  }

  /** A flight that has just arrived. */
  ghost predicate Arrived(c: Config, d0: Disk, log: Log, l: nat, sb: Block, commit: Block, f: Flight) {
    && f.Busy? && Genuine(c, d0, l, log.hpos, f.job) && f.pos == log.hpos && f.image == f.job.tx.Image(sb, commit)
    && |sb| == |commit| == BLOCK_SIZE && 1 + |f.job.tx.data| <= log.nFree && f.written == {} && !f.placed
  }

  lemma {:induction false} ArrivedOk(c: Config, d0: Disk, log: Log, l: nat, sb: Block, commit: Block, f: Flight)
    requires Arrived(c, d0, log, l, sb, commit, f) && log.Ok() && c.Ok() && l < 2 && log.area == c.logs[l]
    ensures true == JobOk(c, l, f.pos, f.job, d0) && ImageOk(f.job.tx, f.image)
  {
    assert GenuineJob(c, d0, l, log.hpos, f.job, Look);
    JobAtOk(c, l, f.job.tx, d0, log.hpos);
    ImageIsOk(f.job.tx, sb, commit);
  }

  lemma {:induction false} BeginLog(c: Config, d0: Disk, store: Disk, items: seq<Item>, log: Log, l: nat, sb: Block,
                                    commit: Block, f: Flight)
    requires c.Ok() && l < 2 && log.area == c.logs[l]
    requires true == LogOk(c, d0, store, items, log, Idle, l) && Arrived(c, d0, log, l, sb, commit, f)
    ensures true == LogOk(c, d0, store, items, log, f, l)
  {
    ArrivedOk(c, d0, log, l, sb, commit, f);
  }

  lemma {:induction false} BeginStep(c: Config, d0: Disk, s: Run, s': Run, l: nat, sb: Block, commit: Block)
    requires true == Core(c, d0, s) && l < 2 && s.flight[l].Idle? && |s'.flight| == 2 && s' == s.(flight := s'.flight)
    requires s'.flight[1 - l] == s.flight[1 - l] && Arrived(c, d0, s.logs[l], l, sb, commit, s'.flight[l])
    ensures true == Core(c, d0, s')
  {
    LogOfCore(c, d0, s, l);
    BeginLog(c, d0, s.store, s.Live(), s.logs[l], l, sb, commit, s'.flight[l]);
    assert s'.Live() == s.Live();
    OtherParts(c, d0, s, s', l);
    CoreFrom(c, d0, s', l);
  }

  lemma {:induction false} PlaceLog(c: Config, d0: Disk, store: Disk, items: seq<Item>, log: Log, f: Flight, l: nat)
    requires true == LogOk(c, d0, store, items, log, f, l) && f.Busy? && !f.placed && f.job.tx.Len() <= log.nFree
    requires forall i :: 1 <= i <= |f.job.tx.data| ==> i in f.written
    ensures true == LogOk(c, d0, store, items, log.Take(1 + |f.job.tx.data|).Take(|f.job.tx.metaBlks| + 2), f.(placed := true), l)
  {
    TakeOk(log, 1 + |f.job.tx.data|);
    TakeOk(log.Take(1 + |f.job.tx.data|), |f.job.tx.metaBlks| + 2);
  }

  lemma {:induction false} PlaceStep(c: Config, d0: Disk, s: Run, l: nat)
    requires true == Core(c, d0, s) && l < 2 && s.flight[l].Busy? && !s.flight[l].placed
    requires s.flight[l].job.tx.Len() <= s.logs[l].nFree
    requires forall i :: 1 <= i <= |s.flight[l].job.tx.data| ==> i in s.flight[l].written
    ensures true == Core(c, d0, TakeSpace(s, l))
  {
    var s' := TakeSpace(s, l);
    LogOfCore(c, d0, s, l);
    PlaceLog(c, d0, s.store, s.Live(), s.logs[l], s.flight[l], l);
    AlikeLog(c, d0, s.store, s.Live(), s'.logs[l], s.flight[l].(placed := true), s'.flight[l], l);
    assert s'.Live() == s.Live();
    OtherParts(c, d0, s, s', l);
    CoreFrom(c, d0, s', l);
  }

  /** When the commit record is written, everything else of the transaction stands on disk. */
  lemma {:induction false} CommitItem(c: Config, d0: Disk, store: Disk, store': Disk, log: Log, f: Flight, l: nat)
    requires c.Ok() && l < 2 && log.Ok() && log.area == c.logs[l] && f.Busy? && f.placed
    requires true == FlightOk(c, d0, store, log, l, f)
    requires f.job.tx.Len() <= log.area.Size()
    requires forall i: nat :: i < f.job.tx.Len() - 1 ==> i in f.written
    requires OnlyAt(store, store', Addr(c.logs[l], f.pos + f.job.tx.Len() - 1))
    requires StandsAt(store', c.logs[l], f.pos, f.image, f.job.tx.Len() - 1)
    requires f.desc == Addr(c.logs[l], f.pos)
    ensures true == ItemOk(c, d0, store', Item(f.job, l, f.desc, f.pos, f.image, false))
  {
    var area, last := c.logs[l], f.job.tx.Len() - 1;
    forall i: nat | i < |f.image| ensures StandsAt(store', area, f.pos, f.image, i) {
      if i < last {
        assert StandsAt(store, area, f.pos, f.image, i);
        PlacesDiffer(c, d0, store, log, l, f, last, i);
        OtherBlock(store, store', Addr(area, f.pos + last), Addr(area, f.pos + i));
        SameBlock(store, store', Addr(area, f.pos + i));
      }
    }
  }

  lemma {:induction false} OrderedAppend(committed: seq<Job>, done: nat, items: seq<Item>, seqn: nat, sbTxId: nat,
                                         sb0: nat, item: Item)
    requires true == Ordered(committed, done, items, seqn, sbTxId, sb0) && MayCommit(seqn, item.job.tx.id) && item.job.tx.id >= 1
    ensures true == Ordered(committed + [item.job], done, items + [item], item.job.tx.id, if sbTxId == 0 then item.job.tx.id else sbTxId, sb0)
  {
  }

  lemma {:induction false} ItemsAppend(c: Config, d0: Disk, store: Disk, items: seq<Item>, item: Item)
    requires true == ItemsOk(c, d0, store, items) && true == ItemOk(c, d0, store, item)
    ensures true == ItemsOk(c, d0, store, items + [item])
  {
  }

  lemma {:induction false} FsAppend(c: Config, d0: Disk, store: Disk, committed: seq<Job>, done: nat, k: Ckpt, job: Job)
    requires true == FsOk(c, d0, store, committed, done, k)
    ensures true == FsOk(c, d0, store, committed + [job], done, k)
  {
    assert (committed + [job])[..done] == committed[..done];
  }

  /** The log after a commit: the flight has become its last item. */
  lemma {:induction false} CommitLog(c: Config, d0: Disk, store: Disk, store': Disk, items: seq<Item>, log: Log,
                                     f: Flight, l: nat)
    requires c.Ok() && l < 2 && log.area == c.logs[l] && true == LogOk(c, d0, store, items, log, f, l) && f.Busy? && f.placed
    requires forall i: nat :: i < f.job.tx.Len() - 1 ==> i in f.written
    requires |f.image| == f.job.tx.Len() && |f.image[f.job.tx.Len() - 1]| == BLOCK_SIZE && f.desc == Addr(c.logs[l], f.pos)
    requires store' == Stored(store, Addr(c.logs[l], f.pos + (f.job.tx.Len() - 1)), f.image[f.job.tx.Len() - 1])
    ensures FreeSpot(log, f, f.pos + (f.job.tx.Len() - 1))
    ensures true == OnlyAt(store, store', Addr(c.logs[l], f.pos + (f.job.tx.Len() - 1)))
    ensures true == ItemOk(c, d0, store', Item(f.job, l, f.desc, f.pos, f.image, false))
    ensures true == LogOk(c, d0, store', items + [Item(f.job, l, f.desc, f.pos, f.image, false)], log, Idle, l)
  {
    var last, item := f.job.tx.Len() - 1, Item(f.job, l, f.desc, f.pos, f.image, false);
    FlightSpot(c, d0, store, items, log, f, l, last);
    StoredBlock(store, Addr(c.logs[l], f.pos + last), f.image[last]);
    CommitItem(c, d0, store, store', log, f, l);
    ChainAppend(items, l, log.tpos, FloorOf(log, f), item);
  }

  lemma {:induction false} CommitElsewhere(c: Config, d0: Disk, store: Disk, items: seq<Item>, log: Log, f: Flight,
                                           l: nat, item: Item)
    requires true == LogOk(c, d0, store, items, log, f, l) && item.log != l
    ensures true == LogOk(c, d0, store, items + [item], log, f, l)
  {
    ChainAppend(items, l, log.tpos, FloorOf(log, f), item);
  }

  lemma {:induction false} CommitWith(c: Config, d0: Disk, s: Run, l: nat, w: nat, item: Item, s': Run)
    requires true == Core(c, d0, s) && l < 2 && FreeSpot(s.logs[l], s.flight[l], w) && item.log == l
    requires true == OnlyAt(s.store, s'.store, Addr(c.logs[l], w)) && true == ItemOk(c, d0, s'.store, item)
    requires true == LogOk(c, d0, s'.store, s.Live() + [item], s.logs[l], Idle, l)
    requires MayCommit(s.seqn, item.job.tx.id) && s'.flight == s.flight[l := Idle] && s'.logs == s.logs
    requires s'.pending == s.pending + [item] && s'.committed == s.committed + [item.job] && s'.done == s.done
    requires s'.ckpt == s.ckpt && s'.sb0 == s.sb0
    requires s'.seqn == item.job.tx.id && s'.sbTxId == if s.sbTxId == 0 then item.job.tx.id else s.sbTxId
    ensures true == Core(c, d0, s')
  {
    SpotStep(c, d0, s, l, w, s'.store);
    CommitElsewhere(c, d0, s'.store, s.Live(), s.logs[1 - l], s.flight[1 - l], 1 - l, item);
    assert s'.Live() == s.Live() + [item];
    assert Holds(c, d0, s, OfOrder);
    CommitRest(c, d0, s, s', item);
    CoreFrom(c, d0, s', l);
  }

  lemma {:induction false} CommitStep(c: Config, d0: Disk, s: Run, l: nat)
    requires true == Core(c, d0, s) && l < 2 && s.flight[l].Busy? && s.flight[l].placed
    requires forall i: nat :: i < s.flight[l].job.tx.Len() - 1 ==> i in s.flight[l].written
    requires |s.flight[l].image| == s.flight[l].job.tx.Len() && |s.flight[l].image[s.flight[l].job.tx.Len() - 1]| == BLOCK_SIZE
    requires s.flight[l].desc == Addr(c.logs[l], s.flight[l].pos) && MayCommit(s.seqn, s.flight[l].job.tx.id)
    requires CommitOf(c.logs[l], s.flight[l]) == LogLayout.Put(Addr(c.logs[l], s.flight[l].pos + (s.flight[l].job.tx.Len() - 1)), LogLayout.CommitBuf, 0)
    ensures true == Core(c, d0, Finish(c, s, l))
  {
    var f := s.flight[l];
    LogOfCore(c, d0, s, l);
    var s' := Finish(c, s, l);
    CommitLog(c, d0, s.store, s'.store, s.Live(), s.logs[l], f, l);
    CommitWith(c, d0, s, l, f.pos + (f.job.tx.Len() - 1), Item(f.job, l, f.desc, f.pos, f.image, false), s');
  }

  lemma {:induction false} CommitRest(c: Config, d0: Disk, s: Run, s': Run, item: Item)
    requires true == ItemsOk(c, d0, s'.store, s.Live()) && true == StageKept(c, d0, s'.store)
    requires true == ItemOk(c, d0, s'.store, item)
    requires true == FsOk(c, d0, s'.store, s.committed, s.done, s.ckpt)
    requires true == Ordered(s.committed, s.done, s.Live(), s.seqn, s.sbTxId, s.sb0) && MayCommit(s.seqn, item.job.tx.id)
    requires s'.Live() == s.Live() + [item] && s'.committed == s.committed + [item.job] && s'.done == s.done
    requires s'.ckpt == s.ckpt && s'.sb0 == s.sb0
    requires s'.seqn == item.job.tx.id && s'.sbTxId == if s.sbTxId == 0 then item.job.tx.id else s.sbTxId
    requires true == Shape(c, s')
    ensures Holds(c, d0, s', OfItems) && Holds(c, d0, s', OfOrder) && Holds(c, d0, s', OfStage) && Holds(c, d0, s', OfFs)
  {
    ItemsAppend(c, d0, s'.store, s.Live(), item);
    OrderedAppend(s.committed, s.done, s.Live(), s.seqn, s.sbTxId, s.sb0, item);
    FsAppend(c, d0, s'.store, s.committed, s.done, s.ckpt, item.job);
  }

  // ------------------------------------------------------------------------------------------
  // The checkpoint list
  // ------------------------------------------------------------------------------------------

  /** Only ready flags differ. */
  ghost predicate SamePlaces(items: seq<Item>, items': seq<Item>) {
    |items| == |items'| && forall i :: 0 <= i < |items| ==> items[i].(ready := true) == items'[i].(ready := true)
  }

  lemma {:induction false} SamePlacesItems(c: Config, d0: Disk, store: Disk, items: seq<Item>, items': seq<Item>)
    requires true == ItemsOk(c, d0, store, items) && SamePlaces(items, items')
    ensures true == ItemsOk(c, d0, store, items')
  {
    forall i | 0 <= i < |items'| ensures ItemOk(c, d0, store, items'[i]) {
      assert ItemOk(c, d0, store, items[i]);
      assert items[i].(ready := true) == items'[i].(ready := true);
    }
  }

  lemma {:induction false} SamePlacesLog(c: Config, d0: Disk, store: Disk, items: seq<Item>, items': seq<Item>,
                                         log: Log, f: Flight, l: nat)
    requires true == LogOk(c, d0, store, items, log, f, l) && SamePlaces(items, items')
    ensures true == LogOk(c, d0, store, items', log, f, l)
  {
    ChainSame(items, items', l, log.tpos, FloorOf(log, f));
  }

  lemma {:induction false} SamePlacesOrder(committed: seq<Job>, done: nat, items: seq<Item>, items': seq<Item>,
                                           seqn: nat, sbTxId: nat, sb0: nat)
    requires true == Ordered(committed, done, items, seqn, sbTxId, sb0) && SamePlaces(items, items')
    ensures true == Ordered(committed, done, items', seqn, sbTxId, sb0)
  {
    forall i | 0 <= i < |items'| ensures committed[done + i] == items'[i].job {
      assert items[i].(ready := true) == items'[i].(ready := true);
    }
  }

  /** A step that changes neither the disk nor the logs, and only ready flags of the live items. */
  lemma {:induction false} ListStep(c: Config, d0: Disk, s: Run, s': Run)
    requires Core(c, d0, s) && s' == s.(pending := s'.pending, ckpt := s'.ckpt) && SamePlaces(s.Live(), s'.Live())
    requires true == FsOk(c, d0, s.store, s.committed, s.done, s'.ckpt)
    ensures Core(c, d0, s')
  {
    assert Holds(c, d0, s, OfItems) && Holds(c, d0, s, OfOrder) && Holds(c, d0, s, OfStage);
    LogOfCore(c, d0, s, 0);
    LogOfCore(c, d0, s, 1);
    SamePlacesItems(c, d0, s.store, s.Live(), s'.Live());
    SamePlacesOrder(s.committed, s.done, s.Live(), s'.Live(), s.seqn, s.sbTxId, s.sb0);
    SamePlacesLog(c, d0, s.store, s.Live(), s'.Live(), s.logs[0], s.flight[0], 0);
    SamePlacesLog(c, d0, s.store, s.Live(), s'.Live(), s.logs[1], s.flight[1], 1);
    CoreFrom(c, d0, s', 0);
  }

  lemma {:induction false} ReadyStep(c: Config, d0: Disk, s: Run, i: nat)
    requires Core(c, d0, s) && i < |s.pending|
    ensures Core(c, d0, s.(pending := s.pending[i := s.pending[i].(ready := true)]))
  {
    var s' := s.(pending := s.pending[i := s.pending[i].(ready := true)]);
    assert Holds(c, d0, s, OfFs);
    ListStep(c, d0, s, s');
  }

  lemma {:induction false} StartStep(c: Config, d0: Disk, s: Run)
    requires Core(c, d0, s) && s.ckpt.NoCkpt? && s.pending != []
    ensures Core(c, d0, s.(ckpt := Running(s.pending[0], 0, 0, []), pending := s.pending[1..]))
  {
    var s' := s.(ckpt := Running(s.pending[0], 0, 0, []), pending := s.pending[1..]);
    assert s.Live() == s.pending && s'.Live() == s.pending;
    assert Holds(c, d0, s, OfFs);
    StartFs(c, d0, s.store, s.committed, s.done, s.pending[0]);
    ListStep(c, d0, s, s');
  }

  lemma {:induction false} StartFs(c: Config, d0: Disk, store: Disk, committed: seq<Job>, done: nat, item: Item)
    requires true == FsOk(c, d0, store, committed, done, NoCkpt)
    ensures true == FsOk(c, d0, store, committed, done, Running(item, 0, 0, []))
  {
    assert item.job.overlays[..0] == [] && item.job.plan[..0] == [];
    assert Partial(store, Running(item, 0, 0, [])) == map[];
  }

  // ------------------------------------------------------------------------------------------
  // Writes to the file system area
  // ------------------------------------------------------------------------------------------

  /** b is a with changes in the file system area only. */
  ghost predicate OnlyFs(c: Config, a: Disk, b: Disk) {
    && a.Keys <= b.Keys
    && forall loc: Loc :: !c.InFs(loc.blk) ==> (loc in a <==> loc in b) && (loc in a ==> a[loc] == b[loc])
  }

  lemma {:induction false} FsSame(c: Config, a: Disk, b: Disk, blk: int)
    requires OnlyFs(c, a, b) && !c.InFs(blk)
    ensures SameAt(a, b, blk)
  {
  }

  lemma {:induction false} AddrNotFs(c: Config, l: nat, p: nat)
    requires c.Ok() && l < 2
    ensures !c.InFs(Addr(c.logs[l], p))
  {
  }

  lemma {:induction false} FsItems(c: Config, d0: Disk, a: Disk, b: Disk, items: seq<Item>)
    requires c.Ok() && true == ItemsOk(c, d0, a, items) && OnlyFs(c, a, b)
    ensures true == ItemsOk(c, d0, b, items)
  {
    forall i | 0 <= i < |items| ensures items[i].log < 2 && ItemSame(c, items[i], a, b) {
      assert ItemOk(c, d0, a, items[i]);
      forall p: nat | items[i].pos <= p < items[i].pos + |items[i].image| ensures SameAt(a, b, Addr(c.logs[items[i].log], p)) {
        AddrNotFs(c, items[i].log, p);
        FsSame(c, a, b, Addr(c.logs[items[i].log], p));
      }
    }
    ItemsKeep(c, d0, a, b, items);
  }

  lemma {:induction false} FsLog(c: Config, d0: Disk, a: Disk, b: Disk, items: seq<Item>, log: Log, f: Flight, l: nat)
    requires c.Ok() && l < 2 && true == LogOk(c, d0, a, items, log, f, l) && OnlyFs(c, a, b)
    ensures true == LogOk(c, d0, b, items, log, f, l)
  {
    if f.Busy? {
      forall i | i in f.written ensures StandsAt(b, c.logs[l], f.pos, f.image, i) {
        assert StandsAt(a, c.logs[l], f.pos, f.image, i);
        AddrNotFs(c, l, f.pos + i);
        FsSame(c, a, b, Addr(c.logs[l], f.pos + i));
        SameBlock(a, b, Addr(c.logs[l], f.pos + i));
      }
    }
  }

  lemma {:induction false} FsStage(c: Config, d0: Disk, a: Disk, b: Disk)
    requires c.Ok() && true == StageKept(c, d0, a) && OnlyFs(c, a, b)
    ensures true == StageKept(c, d0, b)
  {
  }

  /** The copied sources are not in the file system area. */
  lemma {:induction false} FsSources(c: Config, item: Item, a: Disk, b: Disk)
    requires c.Ok() && item.log < 2 && OnlyFs(c, a, b)
    ensures SourcesSame(c, item, a, b)
  {
    forall blk | IsSource(c, item.log, item.job.tx, item.pos, blk) ensures SameAt(a, b, blk) {
      if !InArea(c.stage, blk) {
        var p: nat :| item.pos < p <= item.pos + |item.job.tx.data| && blk == Addr(c.logs[item.log], p);
        AddrNotFs(c, item.log, p);
      }
      FsSame(c, a, b, blk);
    }
  }

  /** A step of the checkpoint thread that writes to the file system area. */
  lemma {:induction false} FsStep(c: Config, d0: Disk, s: Run, s': Run)
    requires Core(c, d0, s) && s' == s.(store := s'.store, ckpt := s'.ckpt) && s'.Live() == s.Live()
    requires true == OnlyFs(c, s.store, s'.store) && true == FsOk(c, d0, s'.store, s.committed, s.done, s'.ckpt)
    ensures Core(c, d0, s')
  {
    assert Holds(c, d0, s, OfItems) && Holds(c, d0, s, OfOrder) && Holds(c, d0, s, OfStage);
    LogOfCore(c, d0, s, 0);
    LogOfCore(c, d0, s, 1);
    FsItems(c, d0, s.store, s'.store, s.Live());
    FsStage(c, d0, s.store, s'.store);
    FsLog(c, d0, s.store, s'.store, s.Live(), s.logs[0], s.flight[0], 0);
    FsLog(c, d0, s.store, s'.store, s.Live(), s.logs[1], s.flight[1], 1);
    CoreFrom(c, d0, s', 0);
  }

  lemma {:induction false} SameFsMerge(c: Config, a: Disk, b: Disk, w: Disk)
    requires SameFs(c, a, b)
    ensures true == SameFs(c, a + w, b + w)
  {
  }

  lemma {:induction false} FsWrite(c: Config, a: Disk, w: Disk)
    requires forall loc :: loc in w ==> c.InFs(loc.blk)
    ensures true == OnlyFs(c, a, a + w)
  {
  }

  /** The effect so far grows by what is written. */
  lemma {:induction false} PartialGrows(c: Config, d0: Disk, store: Disk, w: Disk, committed: seq<Job>, done: nat,
                                        k: Ckpt, k': Ckpt)
    requires true == FsOk(c, d0, store, committed, done, k) && true == CkptOk(c, store + w, k')
    requires Partial(store + w, k') == Partial(store, k) + w
    ensures true == FsOk(c, d0, store + w, committed, done, k')
  {
    var r := Replay(d0, committed[..done]);
    SameFsMerge(c, store, r + Partial(store, k), w);
    MergeAssoc(r, Partial(store, k), w);
  }

  lemma {:induction false} InodePartial(c: Config, store: Disk, k: Ckpt)
    requires k.Running? && true == CkptOk(c, store, k) && k.inodes < |k.item.job.overlays|
    ensures var w, k' := k.item.job.overlays[k.inodes], k.(inodes := k.inodes + 1);
            true == CkptOk(c, store + w, k') && Partial(store + w, k') == Partial(store, k) + w
  {
    var ov, n := k.item.job.overlays, k.inodes;
    assert ov[..n + 1][..n] == ov[..n];
    assert k.item.job.plan[..0] == [];
    assert Merge(ov[..n]) + map[] == Merge(ov[..n]) && Merge(ov[..n + 1]) + map[] == Merge(ov[..n + 1]);
  }

  lemma {:induction false} CopyOnSame(c: Config, store: Disk, k: Ckpt)
    requires k.Running? && true == CkptOk(c, store, k) && k.bufs != []
    ensures true == CkptOk(c, store, k.(copied := k.copied + 1, bufs := k.bufs[1..]))
  {
    var plan, k' := k.item.job.plan, k.(copied := k.copied + 1, bufs := k.bufs[1..]);
    forall i | 0 <= i < |k'.bufs| ensures k'.bufs[i] == ReadBlock(store, plan[k'.copied + i].src) {
      assert k.bufs[i + 1] == ReadBlock(store, plan[k.copied + (i + 1)].src);
    }
  }

  lemma {:induction false} CopyGrows(c: Config, store: Disk, k: Ckpt)
    requires k.Running? && true == CkptOk(c, store, k) && k.bufs != [] && |k.bufs[0]| == BLOCK_SIZE
    ensures Partial(store, k.(copied := k.copied + 1, bufs := k.bufs[1..]))
         == Partial(store, k) + WholeBlock(k.item.job.plan[k.copied].dst, k.bufs[0])
  {
    var plan, n, ov := k.item.job.plan, k.copied, Merge(k.item.job.overlays);
    assert k.bufs[0] == ReadBlock(store, plan[n + 0].src);
    assert plan[..n + 1] == plan[..n] + [plan[n]];
    WritesAppend(store, plan[..n], plan[n]);
    assert k.item.job.overlays[..k.inodes] == k.item.job.overlays;
    MergeAssoc(ov, Writes(store, plan[..n]), Image(store, plan[n]));
  }

  lemma {:induction false} CopyPartial(c: Config, d0: Disk, store: Disk, store': Disk, k: Ckpt)
    requires c.Ok() && k.Running? && true == CkptOk(c, store, k) && k.bufs != [] && |k.bufs[0]| == BLOCK_SIZE
    requires k.item.log < 2 && true == PlanCopiesOk(c, k.item.log, k.item.pos, k.item.job) && true == OnlyFs(c, store, store')
    ensures var w, k' := WholeBlock(k.item.job.plan[k.copied].dst, k.bufs[0]), k.(copied := k.copied + 1, bufs := k.bufs[1..]);
            true == CkptOk(c, store', k') && Partial(store', k') == Partial(store, k) + w
  {
    CopyOnSame(c, store, k);
    CopyGrows(c, store, k);
    FsSources(c, k.item, store, store');
    CkptKeep(c, d0, store, store', k.(copied := k.copied + 1, bufs := k.bufs[1..]));
  }

  lemma {:induction false} RunningItem(c: Config, d0: Disk, s: Run)
    requires Core(c, d0, s) && s.ckpt.Running?
    ensures s.Live() != [] && s.Live()[0] == s.ckpt.item && true == ItemOk(c, d0, s.store, s.ckpt.item)
    ensures true == FsOk(c, d0, s.store, s.committed, s.done, s.ckpt) && true == StageKept(c, d0, s.store)
  {
    assert Holds(c, d0, s, OfItems) && Holds(c, d0, s, OfFs) && Holds(c, d0, s, OfStage);
    assert ItemOk(c, d0, s.store, s.Live()[0]);
  }

  lemma {:induction false} InodeStep(c: Config, d0: Disk, s: Run)
    requires Core(c, d0, s) && s.ckpt.Running? && s.ckpt.inodes < |s.ckpt.item.job.overlays|
    ensures Core(c, d0, s.(store := s.store + s.ckpt.item.job.overlays[s.ckpt.inodes], ckpt := s.ckpt.(inodes := s.ckpt.inodes + 1)))
  {
    var w := s.ckpt.item.job.overlays[s.ckpt.inodes];
    var s' := s.(store := s.store + w, ckpt := s.ckpt.(inodes := s.ckpt.inodes + 1));
    RunningItem(c, d0, s);
    FsWrite(c, s.store, w);
    InodePartial(c, s.store, s.ckpt);
    PartialGrows(c, d0, s.store, w, s.committed, s.done, s.ckpt, s'.ckpt);
    FsStep(c, d0, s, s');
  }

  lemma {:induction false} CopyStep(c: Config, d0: Disk, s: Run)
    requires Core(c, d0, s) && s.ckpt.Running? && s.ckpt.bufs != [] && s.ckpt.copied < |s.ckpt.item.job.plan|
    ensures Core(c, d0, s.(store := Stored(s.store, s.ckpt.item.job.plan[s.ckpt.copied].dst, s.ckpt.bufs[0]),
                          ckpt := s.ckpt.(copied := s.ckpt.copied + 1, bufs := s.ckpt.bufs[1..])))
  {
    var k := s.ckpt;
    RunningItem(c, d0, s);
    assert k.bufs[0] == ReadBlock(s.store, k.item.job.plan[k.copied + 0].src);
    var w := WholeBlock(k.item.job.plan[k.copied].dst, k.bufs[0]);
    var s' := s.(store := s.store + w, ckpt := k.(copied := k.copied + 1, bufs := k.bufs[1..]));
    assert CopyOk(c, k.item.log, k.item.job.tx, k.item.pos, k.item.job.plan[k.copied]);
    FsWrite(c, s.store, w);
    CopyPartial(c, d0, s.store, s'.store, k);
    PartialGrows(c, d0, s.store, w, s.committed, s.done, k, s'.ckpt);
    FsStep(c, d0, s, s');
  }

  lemma {:induction false} ReadStep(c: Config, d0: Disk, s: Run)
    requires Core(c, d0, s) && s.ckpt.Running? && s.ckpt.inodes == |s.ckpt.item.job.overlays|
    requires s.ckpt.copied + |s.ckpt.bufs| < |s.ckpt.item.job.plan|
    ensures Core(c, d0, s.(ckpt := s.ckpt.(bufs := s.ckpt.bufs + [ReadBlock(s.store, s.ckpt.item.job.plan[s.ckpt.copied + |s.ckpt.bufs|].src)])))
  {
    var s' := s.(ckpt := s.ckpt.(bufs := s.ckpt.bufs + [ReadBlock(s.store, s.ckpt.item.job.plan[s.ckpt.copied + |s.ckpt.bufs|].src)]));
    RunningItem(c, d0, s);
    assert Partial(s.store, s'.ckpt) == Partial(s.store, s.ckpt);
    ListStep(c, d0, s, s');
  }

  // ------------------------------------------------------------------------------------------
  // The end of a checkpoint
  // ------------------------------------------------------------------------------------------

  /** The finished checkpoint has done what its transaction means. */
  lemma {:induction false} FinishedEffect(c: Config, d0: Disk, store: Disk, k: Ckpt)
    requires k.Running? && true == ItemOk(c, d0, store, k.item) && true == StageKept(c, d0, store)
    requires k.inodes == |k.item.job.overlays| && k.copied == |k.item.job.plan|
    ensures Partial(store, k) == k.item.job.effect
  {
    var item := k.item;
    assert item.job.overlays[..k.inodes] == item.job.overlays && item.job.plan[..k.copied] == item.job.plan;
    forall i | 0 <= i < |item.job.tx.data|
      ensures ReadBlock(store, Addr(c.logs[item.log], item.pos + 1 + i)) == item.job.tx.data[i]
    {
      assert StandsAt(store, c.logs[item.log], item.pos, item.image, 1 + i);
    }
    assert Faithful(c, item.log, item.pos, item.job.tx, d0, store);
  }

  lemma {:induction false} FinishFs(c: Config, d0: Disk, store: Disk, committed: seq<Job>, done: nat, k: Ckpt)
    requires true == FsOk(c, d0, store, committed, done, k) && k.Running? && done < |committed| && committed[done] == k.item.job
    requires Partial(store, k) == k.item.job.effect
    ensures true == FsOk(c, d0, store, committed, done + 1, NoCkpt)
  {
    assert committed[..done + 1][..done] == committed[..done];
    assert Replay(d0, committed[..done + 1]) + map[] == Replay(d0, committed[..done + 1]);
  }

  /** free_journal_space is called for the oldest space of the log, and leaves the rest in place. */
  lemma {:induction false} FinishLog(c: Config, d0: Disk, store: Disk, items: seq<Item>, log: Log, f: Flight, l: nat)
    requires items != [] && items[0].log == l && true == LogOk(c, d0, store, items, log, f, l)
    ensures items[0].pos == log.tpos && true == LogOk(c, d0, store, items[1..], log.Release(items[0].Len()), f, l)
  {
    ChainBounds(items, l, log.tpos, FloorOf(log, f));
    ReleaseOk(log, items[0].Len());
  }

  lemma {:induction false} FinishElsewhere(c: Config, d0: Disk, store: Disk, items: seq<Item>, log: Log, f: Flight,
                                           l: nat)
    requires items != [] && items[0].log != l && true == LogOk(c, d0, store, items, log, f, l)
    ensures true == LogOk(c, d0, store, items[1..], log, f, l)
  {
  }

  /** The superblock names the transaction under checkpoint, except perhaps at the first checkpoint. */
  lemma {:induction false} FinishOrder(committed: seq<Job>, done: nat, items: seq<Item>, seqn: nat, sbTxId: nat, sb0: nat)
    requires items != [] && true == Ordered(committed, done, items, seqn, sbTxId, sb0)
    ensures committed[done] == items[0].job
    ensures sbTxId == items[0].job.tx.id <==> done > 0 || sb0 == 0 || sb0 == committed[0].tx.id
    ensures true == Ordered(committed, done + 1, items[1..], seqn, items[0].job.tx.id + 1, sb0)
  {
    assert committed[done + 0] == items[0].job;
    forall i | 0 <= i < |items[1..]| ensures committed[done + 1 + i] == items[1..][i].job {
      assert committed[done + (i + 1)] == items[i + 1].job;
    }
  }

  lemma {:induction false} FinishLogs(c: Config, d0: Disk, s: Run)
    requires Core(c, d0, s) && s.ckpt.Running? && s.ckpt.item.log < 2
    ensures Shape(c, FreeOldest(s))
    ensures Holds(c, d0, FreeOldest(s), OfLog(s.ckpt.item.log)) && Holds(c, d0, FreeOldest(s), OfLog(1 - s.ckpt.item.log))
  {
    var s', l, items := FreeOldest(s), s.ckpt.item.log, s.Live();
    assert items[0] == s.ckpt.item && items[1..] == s.pending == s'.Live();
    LogOfCore(c, d0, s, l);
    LogOfCore(c, d0, s, 1 - l);
    FinishLog(c, d0, s.store, items, s.logs[l], s.flight[l], l);
    FinishElsewhere(c, d0, s.store, items, s.logs[1 - l], s.flight[1 - l], 1 - l);
  }

  lemma {:induction false} FinishRest(c: Config, d0: Disk, s: Run)
    requires Core(c, d0, s) && s.ckpt.Running? && s.ckpt.inodes == |s.ckpt.item.job.overlays|
    requires s.ckpt.copied == |s.ckpt.item.job.plan| && s.ckpt.item.log < 2 && Shape(c, FreeOldest(s))
    ensures Holds(c, d0, FreeOldest(s), OfItems) && Holds(c, d0, FreeOldest(s), OfStage)
    ensures Holds(c, d0, FreeOldest(s), OfOrder) && Holds(c, d0, FreeOldest(s), OfFs)
  {
    var s', items := FreeOldest(s), s.Live();
    RunningItem(c, d0, s);
    assert items[1..] == s.pending == s'.Live();
    assert Holds(c, d0, s, OfOrder) && Holds(c, d0, s, OfItems);
    FinishOrder(s.committed, s.done, items, s.seqn, s.sbTxId, s.sb0);
    FinishedEffect(c, d0, s.store, s.ckpt);
    FinishFs(c, d0, s.store, s.committed, s.done, s.ckpt);
  }

  lemma {:induction false} FinishStep(c: Config, d0: Disk, s: Run)
    requires Core(c, d0, s) && s.ckpt.Running? && s.ckpt.inodes == |s.ckpt.item.job.overlays|
    requires s.ckpt.copied == |s.ckpt.item.job.plan| && s.ckpt.item.log < 2
    ensures Core(c, d0, FreeOldest(s))
  {
    FinishLogs(c, d0, s);
    FinishRest(c, d0, s);
    CoreFrom(c, d0, FreeOldest(s), s.ckpt.item.log);
  }
}
