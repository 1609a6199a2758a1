/** The committers' books, what the jobs mean, and every step of the journal: each keeps the invariant. */
module JournalWork {
  import opened BlockDevice
  import opened Cyclic
  import opened SourcePlan
  import opened CircularLog
  import opened LogLayout
  import opened JournalTx
  import opened JournalRun
  import opened JournalProof

  // ------------------------------------------------------------------------------------------
  // The request counter
  // ------------------------------------------------------------------------------------------

  /** When as many requests are counted as there are, each of them is. */
  lemma {:induction false} AllCounted(reqs: seq<Request>)
    ensures CountedIn(reqs) <= |reqs|
    ensures CountedIn(reqs) == |reqs| ==> forall k :: 0 <= k < |reqs| ==> reqs[k].Counted?
  {
    if reqs != [] {
      AllCounted(reqs[..|reqs| - 1]);
      assert forall k :: 0 <= k < |reqs| - 1 ==> reqs[k] == reqs[..|reqs| - 1][k];
    }
  }

  lemma {:induction false} CountedUpdate(reqs: seq<Request>, k: nat, r: Request)
    requires k < |reqs| && !reqs[k].Counted?
    ensures CountedIn(reqs[k := r]) == CountedIn(reqs) + if r.Counted? then 1 else 0
  {
    var n := |reqs| - 1;
    if k < n {
      CountedUpdate(reqs[..n], k, r);
      assert reqs[k := r][..n] == reqs[..n][k := r];
    } else {
      assert reqs[k := r][..n] == reqs[..n];
    }
  }

  lemma {:induction false} NoneCounted(reqs: seq<Request>)
    requires forall k :: 0 <= k < |reqs| ==> reqs[k].Waiting?
    ensures CountedIn(reqs) == 0
  {
    if reqs != [] {
      NoneCounted(reqs[..|reqs| - 1]);
    }
  }

  // ------------------------------------------------------------------------------------------
  // Chunks at their places
  // ------------------------------------------------------------------------------------------

  /** The data fits and no chunk leaves the log. */
  ghost predicate Roomy(log: Log, n: nat) {
    log.Ok() && log.area.Size() < U32 && 1 + n <= log.area.Size() && ChunksFit(log, n)
  }

  /** A chunk is sent to its positions behind the descriptor block, or not at all. */
  lemma {:induction false} ChunkSentAt(log: Log, n: nat, k: nat)
    requires Roomy(log, n) && k < ChunkCount(n)
    ensures SentBy(log, n, k) == [] <==> ChunkStart(log.head, k) == log.area.last + 1
    ensures SentBy(log, n, k) != []
        ==> SentBy(log, n, k) == AtPositions(log.area, log.hpos + 1 + MAX_BIO * k, DataBuf, 0, ChunkLen(n, k))
  {
    ChunkLens(n, k);
    ChunkStartIs(log.head, k);
    ChunkSentIs(log.area, ChunkStart(log.head, k), ChunkLen(n, k));
    ChunkPositions(log.area, log.head, log.hpos, k, ChunkLen(n, k));
  }

  /** Block j of chunk k goes to the address of its place. */
  lemma {:induction false} SentPut(log: Log, n: nat, k: nat, j: nat)
    requires Roomy(log, n) && k < ChunkCount(n) && j < |SentBy(log, n, k)|
    ensures SentBy(log, n, k)[j] == Put(Addr(log.area, log.hpos + DataPlace(k, j)), DataBuf, j) && DataPlace(k, j) <= n
  {
    ChunkSentAt(log, n, k);
    ChunkLens(n, k);
    assert log.hpos + 1 + MAX_BIO * k + j == log.hpos + DataPlace(k, j);
  }

  /** The flight's books while its data is arriving. */
  ghost predicate Arriving(log: Log, f: Flight) {
    && f.Busy? && !f.placed && true == DataOk(log, f) && Roomy(log, |f.job.tx.data|)
    && |f.reqs| == ChunkCount(|f.job.tx.data|) && f.reqCnt == CountedIn(f.reqs)
  }

  /** The counter stands for the data: when all requests are counted, every data block is on disk. */
  lemma {:induction false} CounterMeansData(log: Log, f: Flight, i: nat)
    requires Arriving(log, f) && f.reqCnt == |f.reqs| && 1 <= i <= |f.job.tx.data|
    ensures i in f.written
  {
    var k, j := ChunkOf(|f.job.tx.data|, i - 1);
    AllCounted(f.reqs);
    assert RequestOk(log, f, k);
    ChunkSentAt(log, |f.job.tx.data|, k);
    assert DataPlace(k, j) == i;
  }

  /** A chunk that begins one past the end of the log is never counted, so the counter stays short. */
  lemma {:induction false} CounterStaysShort(log: Log, f: Flight, k: nat)
    requires Arriving(log, f) && k < |f.reqs| && ChunkStart(log.head, k) == log.area.last + 1
    ensures f.reqCnt < |f.reqs| && (f.reqs[k].Waiting? || f.reqs[k].GaveUp?)
  {
    AllCounted(f.reqs);
    assert RequestOk(log, f, k);
    ChunkSentAt(log, |f.job.tx.data|, k);
  }

  lemma {:induction false} CoreOfInv(c: Config, d0: Disk, s: Run)
    requires Inv(c, d0, s)
    ensures true == Core(c, d0, s)
  {
    assert Kept(c, d0, s, TheCore);
  }

  lemma {:induction false} WorksOfInv(c: Config, d0: Disk, s: Run)
    requires Inv(c, d0, s)
    ensures true == Works(s)
  {
    assert Kept(c, d0, s, TheWork);
  }

  lemma {:induction false} WorkOfInv(c: Config, d0: Disk, s: Run, l: nat)
    requires Inv(c, d0, s) && l < 2
    ensures true == Core(c, d0, s) && true == WorkOk(s.logs[l], s.flight[l])
  {
    assert Kept(c, d0, s, TheCore) && Kept(c, d0, s, TheWork);
  }

  lemma {:induction false} JobsOfInv(c: Config, d0: Disk, s: Run)
    requires Inv(c, d0, s)
    ensures true == JobsOk(c, d0, s)
  {
    assert Kept(c, d0, s, TheJobs);
  }

  lemma {:induction false} InvFrom(c: Config, d0: Disk, s: Run)
    requires true == Core(c, d0, s) && |s.logs| == 2 && |s.flight| == 2 && true == Works(s) && true == JobsOk(c, d0, s)
    ensures true == Inv(c, d0, s)
  {
    assert Shape(c, s);
    forall side ensures Kept(c, d0, s, side) {
    }
  }

  /** A request that is not counted belongs to a transaction without its space. */
  lemma {:induction false} StillArriving(c: Config, d0: Disk, s: Run, l: nat, k: nat)
    requires true == Core(c, d0, s) && l < 2 && true == WorkOk(s.logs[l], s.flight[l])
    requires s.flight[l].Busy? && k < |s.flight[l].reqs| && !s.flight[l].reqs[k].Counted?
    ensures Arriving(s.logs[l], s.flight[l])
  {
    AllCounted(s.flight[l].reqs);
    LogOfCore(c, d0, s, l);
  }

  lemma {:induction false} ArrivingOf(c: Config, d0: Disk, s: Run, l: nat)
    requires true == Core(c, d0, s) && l < 2 && true == WorkOk(s.logs[l], s.flight[l])
    requires s.flight[l].Busy? && !s.flight[l].placed
    ensures Arriving(s.logs[l], s.flight[l])
  {
    LogOfCore(c, d0, s, l);
  }

  // ------------------------------------------------------------------------------------------
  // The books after a step
  // ------------------------------------------------------------------------------------------

  /** One request moves on. */
  lemma {:induction false} RequestMoves(log: Log, f: Flight, g: Flight, k: nat, r: Request)
    requires Arriving(log, f) && k < |f.reqs| && !f.reqs[k].Counted?
    requires g.Busy? && g == f.(reqs := f.reqs[k := r], reqCnt := g.reqCnt, desc := g.desc, written := g.written)
    requires g.reqCnt == f.reqCnt + (if r.Counted? then 1 else 0) && f.written <= g.written
    requires RequestOk(log, g, k) && !r.Waiting? && g.desc == if k == 0 && f.reqs[k].Waiting? then log.head else f.desc
    ensures true == WorkOk(log, g)
  {
    CountedUpdate(f.reqs, k, r);
    forall k': nat | k' < |g.reqs| ensures RequestOk(log, g, k') {
      if k' != k {
        assert RequestOk(log, f, k');
      }
    }
  }

  lemma {:induction false} CallWork(log: Log, f: Flight, g: Flight, k: nat)
    requires Arriving(log, f) && k < |f.reqs| && f.reqs[k].Waiting?
    requires g == f.(reqs := f.reqs[k := if SentBy(log, |f.job.tx.data|, k) == [] then GaveUp else Writing({})],
                     desc := if k == 0 then log.head else f.desc)
    ensures true == WorkOk(log, g)
  {
    RequestMoves(log, f, g, k, g.reqs[k]);
  }

  lemma {:induction false} WriteWork(log: Log, f: Flight, g: Flight, k: nat, j: nat)
    requires Arriving(log, f) && k < |f.reqs| && f.reqs[k].Writing?
    requires g == f.(reqs := f.reqs[k := Writing(f.reqs[k].sent + {j})], written := f.written + {DataPlace(k, j)})
    ensures true == WorkOk(log, g)
  {
    assert RequestOk(log, f, k);
    RequestMoves(log, f, g, k, g.reqs[k]);
  }

  lemma {:induction false} CountWork(log: Log, f: Flight, g: Flight, k: nat)
    requires Arriving(log, f) && k < |f.reqs| && f.reqs[k].Writing?
    requires forall j: nat :: j < |SentBy(log, |f.job.tx.data|, k)| ==> j in f.reqs[k].sent
    requires g == f.(reqs := f.reqs[k := Counted], reqCnt := f.reqCnt + 1)
    ensures true == WorkOk(log, g)
  {
    assert RequestOk(log, f, k);
    RequestMoves(log, f, g, k, Counted);
  }

  lemma {:induction false} BeginWork(log: Log, f: Flight)
    requires f.Busy? && !f.placed && |f.reqs| == ChunkCount(|f.job.tx.data|) && f.reqCnt == 0 && f.metaSent == {}
    requires forall k :: 0 <= k < |f.reqs| ==> f.reqs[k].Waiting?
    requires log.Ok() && 1 + |f.job.tx.data| <= log.nFree && ChunksFit(log, |f.job.tx.data|)
    ensures true == WorkOk(log, f)
  {
    NoneCounted(f.reqs);
  }

  lemma {:induction false} PlaceWork(log: Log, log': Log, f: Flight, g: Flight)
    requires Arriving(log, f) && f.reqCnt == |f.reqs| && f.job.tx.Len() <= log.nFree && log'.area == log.area && f.pos == log.hpos
    requires g == f.(placed := true, desc := if f.reqs == [] then log.head else f.desc, metaStart := log.Take(1 + |f.job.tx.data|).head)
    ensures true == WorkOk(log', g)
  {
    AllCounted(f.reqs);
    TakeOk(log, 1 + |f.job.tx.data|);
  }

  /** Block j of the metadata bio list goes to the address of its place. */
  lemma {:induction false} MetaPut(area: Area, f: Flight, j: nat)
    requires f.Busy? && true == MetaOk(area, f) && area.Size() < U32 && j < |MetaOf(area, f)|
    ensures MetaOf(area, f)[j].addr == Addr(area, f.pos + MetaPlace(f.job.tx, j)) && MetaOf(area, f)[j].buf != DataBuf
    ensures PlaceOf(f.job.tx, 0, MetaOf(area, f)[j]) == MetaPlace(f.job.tx, j) < f.job.tx.Len() - 1
  {
    MetaPositions(area, f.pos, |f.job.tx.data|, |f.job.tx.metaBlks|);
  }

  lemma {:induction false} MetaWork(log: Log, f: Flight, g: Flight, j: nat)
    requires true == WorkOk(log, f) && f.Busy? && f.placed
    requires g == f.(metaSent := f.metaSent + {j}, written := f.written + {MetaPlace(f.job.tx, j)})
    ensures true == WorkOk(log, g)
  {
  }

  /** With the metadata bio list complete, everything but the commit record is on disk. */
  lemma {:induction false} AllWritten(log: Log, f: Flight, i: nat)
    requires true == WorkOk(log, f) && f.Busy? && f.placed && log.area.Size() < U32
    requires forall j: nat :: j < |MetaOf(log.area, f)| ==> j in f.metaSent
    requires i < f.job.tx.Len() - 1 && (i == 0 || i > |f.job.tx.data|)
    ensures i in f.written
  {
    var n := |f.job.tx.metaBlks|;
    MetaPositions(log.area, f.pos, |f.job.tx.data|, n);
    var j: nat := if i == 0 then n + 1 else i - 1 - |f.job.tx.data|;
    assert j in f.metaSent;
    assert MetaPlace(f.job.tx, j) == i;
  }

  lemma {:induction false} CommitAddr(area: Area, f: Flight)
    requires f.Busy? && true == MetaOk(area, f) && area.Size() < U32
    ensures CommitOf(area, f) == Put(Addr(area, f.pos + (f.job.tx.Len() - 1)), CommitBuf, 0)
  {
    MetaPositions(area, f.pos, |f.job.tx.data|, |f.job.tx.metaBlks|);
    assert f.pos + 1 + |f.job.tx.data| + |f.job.tx.metaBlks| + 1 == f.pos + (f.job.tx.Len() - 1);
  }

  // ------------------------------------------------------------------------------------------
  // What the jobs mean
  // ------------------------------------------------------------------------------------------

  /** What a job is does not depend on anything a step changes. */
  lemma {:induction false} JobsKeep(c: Config, d0: Disk, s: Run, s': Run)
    requires |s.flight| == 2 && |s'.flight| == 2 && true == JobsOk(c, d0, s) && s'.committed == s.committed
    requires SamePlaces(s.Live(), s'.Live())
    requires forall l :: 0 <= l < 2 && s'.flight[l].Busy?
               ==> s.flight[l].Busy? && s'.flight[l].job == s.flight[l].job && s'.flight[l].pos == s.flight[l].pos
    ensures true == JobsOk(c, d0, s')
  {
    var items, items' := s.Live(), s'.Live();
    forall i | 0 <= i < |items'| ensures Genuine(c, d0, items'[i].log, items'[i].pos, items'[i].job) {
      assert items[i].(ready := true) == items'[i].(ready := true);
      assert Genuine(c, d0, items[i].log, items[i].pos, items[i].job);
    }
  }

  lemma {:induction false} JobsDrop(c: Config, d0: Disk, s: Run, s': Run)
    requires |s.flight| == 2 && true == JobsOk(c, d0, s) && s'.committed == s.committed && s'.flight == s.flight
    requires s.Live() != [] && s'.Live() == s.Live()[1..]
    ensures true == JobsOk(c, d0, s')
  {
    var items, items' := s.Live(), s'.Live();
    forall i | 0 <= i < |items'| ensures Genuine(c, d0, items'[i].log, items'[i].pos, items'[i].job) {
      assert Genuine(c, d0, items[i + 1].log, items[i + 1].pos, items[i + 1].job);
    }
  }

  lemma {:induction false} GenuineAtPlace(c: Config, d0: Disk, l: nat, pos: nat, tx: Tx)
    requires TxOk(c, l, tx, d0)
    ensures Genuine(c, d0, l, pos, JobAt(c, l, tx, d0, pos))
  {
    forall look ensures GenuineJob(c, d0, l, pos, JobAt(c, l, tx, d0, pos), look) {
    }
  }

  lemma {:induction false} GenuineMeans(c: Config, d0: Disk, l: nat, pos: nat, job: Job)
    requires Genuine(c, d0, l, pos, job)
    ensures Meaningful(c, d0, job)
  {
    assert GenuineJob(c, d0, l, pos, job, Look);
    forall look ensures MeaningfulJob(c, d0, job, look) {
    }
  }

  lemma {:induction false} JobsBegin(c: Config, d0: Disk, s: Run, s': Run, l: nat)
    requires |s.flight| == 2 && l < 2 && true == JobsOk(c, d0, s) && |s'.flight| == 2 && s' == s.(flight := s'.flight)
    requires s'.flight[1 - l] == s.flight[1 - l] && s'.flight[l].Busy?
    requires Genuine(c, d0, l, s'.flight[l].pos, s'.flight[l].job)
    ensures true == JobsOk(c, d0, s')
  {
    assert s'.Live() == s.Live();
  }

  lemma {:induction false} ItemsGenuineMore(c: Config, d0: Disk, items: seq<Item>, item: Item)
    requires true == ItemsGenuine(c, d0, items) && Genuine(c, d0, item.log, item.pos, item.job)
    ensures true == ItemsGenuine(c, d0, items + [item])
  {
  }

  lemma {:induction false} MeaningfulMore(c: Config, d0: Disk, jobs: seq<Job>, job: Job)
    requires true == AllMeaningful(c, d0, jobs) && Meaningful(c, d0, job)
    ensures true == AllMeaningful(c, d0, jobs + [job])
  {
  }

  lemma {:induction false} JobsCommit(c: Config, d0: Disk, s: Run, s': Run, l: nat, item: Item)
    requires |s.flight| == 2 && l < 2 && true == JobsOk(c, d0, s) && s.flight[l].Busy? && s'.flight == s.flight[l := Idle]
    requires item.job == s.flight[l].job && item.log == l && item.pos == s.flight[l].pos
    requires s'.pending == s.pending + [item] && s'.ckpt == s.ckpt && s'.committed == s.committed + [item.job]
    ensures true == JobsOk(c, d0, s')
  {
    assert s'.Live() == s.Live() + [item];
    GenuineMeans(c, d0, l, item.pos, item.job);
    ItemsGenuineMore(c, d0, s.Live(), item);
    MeaningfulMore(c, d0, s.committed, item.job);
  }

  // ------------------------------------------------------------------------------------------
  // Every step
  // ------------------------------------------------------------------------------------------

  lemma {:induction false} WorksWith(s: Run, s': Run, l: nat)
    requires |s.logs| == 2 && |s.flight| == 2 && true == Works(s) && l < 2 && |s'.logs| == 2 && |s'.flight| == 2
    requires s'.logs[1 - l] == s.logs[1 - l] && s'.flight[1 - l] == s.flight[1 - l] && true == WorkOk(s'.logs[l], s'.flight[l])
    ensures true == Works(s')
  {
  }

  /** A step of the committer of log l that commits nothing. */
  lemma {:induction false} FlightStep(c: Config, d0: Disk, s: Run, s': Run, l: nat)
    requires true == Inv(c, d0, s) && true == Core(c, d0, s') && l < 2 && |s'.logs| == 2 && |s'.flight| == 2
    requires s.flight[l].Busy? && s'.flight[l].Busy? && s' == s.(store := s'.store, logs := s'.logs, flight := s'.flight)
    requires s'.logs[1 - l] == s.logs[1 - l] && s'.flight[1 - l] == s.flight[1 - l]
    requires s'.flight[l].job == s.flight[l].job && s'.flight[l].pos == s.flight[l].pos
    requires true == WorkOk(s'.logs[l], s'.flight[l])
    ensures true == Inv(c, d0, s')
  {
    FlightWorks(c, d0, s, s', l);
    FlightJobs(c, d0, s, s', l);
    InvFrom(c, d0, s');
  }

  lemma {:induction false} FlightWorks(c: Config, d0: Disk, s: Run, s': Run, l: nat)
    requires true == Inv(c, d0, s) && l < 2 && |s'.logs| == 2 && |s'.flight| == 2
    requires s'.logs[1 - l] == s.logs[1 - l] && s'.flight[1 - l] == s.flight[1 - l]
    requires true == WorkOk(s'.logs[l], s'.flight[l])
    ensures true == Works(s')
  {
    WorksOfInv(c, d0, s);
    WorksWith(s, s', l);
  }

  lemma {:induction false} FlightJobs(c: Config, d0: Disk, s: Run, s': Run, l: nat)
    requires true == Inv(c, d0, s) && l < 2 && |s'.flight| == 2 && s.flight[l].Busy? && s'.flight[l].Busy?
    requires s'.flight[1 - l] == s.flight[1 - l] && s'.Live() == s.Live() && s'.committed == s.committed
    requires s'.flight[l].job == s.flight[l].job && s'.flight[l].pos == s.flight[l].pos
    ensures true == JobsOk(c, d0, s')
  {
    JobsOfInv(c, d0, s);
    JobsKeep(c, d0, s, s');
  }

  lemma {:induction false} Begins(c: Config, d0: Disk, s: Run, a: Action)
    requires true == Inv(c, d0, s) && a.Begin? && Enabled(c, d0, s, a)
    ensures true == Inv(c, d0, Apply(c, d0, s, a))
  {
    var s', l := Apply(c, d0, s, a), a.l;
    CoreOfInv(c, d0, s);
    BeginStep(c, d0, s, s', l, a.sb, a.commit);
    LogOfCore(c, d0, s, l);
    BeginWork(s.logs[l], s'.flight[l]);
    WorksOfInv(c, d0, s);
    WorksWith(s, s', l);
    JobsOfInv(c, d0, s);
    JobsBegin(c, d0, s, s', l);
    InvFrom(c, d0, s');
  }

  lemma {:induction false} CallsChunk(c: Config, d0: Disk, s: Run, l: nat, k: nat)
    requires true == Inv(c, d0, s) && Enabled(c, d0, s, CallChunk(l, k))
    ensures true == Inv(c, d0, Call(s, l, k))
  {
    var s' := Call(s, l, k);
    WorkOfInv(c, d0, s, l);
    StillArriving(c, d0, s, l, k);
    CallWork(s.logs[l], s.flight[l], s'.flight[l], k);
    BooksStep(c, d0, s, s', l);
    FlightStep(c, d0, s, s', l);
  }

  lemma {:induction false} CountsChunk(c: Config, d0: Disk, s: Run, l: nat, k: nat)
    requires true == Inv(c, d0, s) && Enabled(c, d0, s, CountChunk(l, k))
    ensures true == Inv(c, d0, CountOne(s, l, k))
  {
    var s' := CountOne(s, l, k);
    WorkOfInv(c, d0, s, l);
    StillArriving(c, d0, s, l, k);
    CountWork(s.logs[l], s.flight[l], s'.flight[l], k);
    BooksStep(c, d0, s, s', l);
    FlightStep(c, d0, s, s', l);
  }

  lemma {:induction false} FlightImage(c: Config, d0: Disk, s: Run, l: nat)
    requires true == Core(c, d0, s) && l < 2 && s.flight[l].Busy?
    ensures |s.flight[l].image| == s.flight[l].job.tx.Len() && Sized(s.flight[l].image)
    ensures !s.flight[l].placed ==> s.flight[l].pos == s.logs[l].hpos
  {
    LogOfCore(c, d0, s, l);
  }

  /** A block sent to the address of its place. */
  lemma {:induction false} SendWrites(c: Config, s: Run, l: nat, f: Flight, off: nat, put: Put, i: nat)
    requires l < 2 && |c.logs| == 2 && c.logs[l].Ok() && |s.flight| == 2 && Alike(s.flight[l], f)
    requires i < |f.image| - 1 && |f.image[i]| == BLOCK_SIZE
    requires PlaceOf(f.job.tx, off, put) == i && put.addr == Addr(c.logs[l], f.pos + i)
    ensures true == Written(c, s, Send(s, l, f, off, put), l, i)
  {
  }

  lemma {:induction false} DataSent(log: Log, f: Flight, k: nat, j: nat, put: Put)
    requires Arriving(log, f) && f.pos == log.hpos && k < |f.reqs| && j < |SentBy(log, |f.job.tx.data|, k)|
    requires put == SentBy(log, |f.job.tx.data|, k)[j]
    ensures PlaceOf(f.job.tx, MAX_BIO * k, put) == DataPlace(k, j) <= |f.job.tx.data|
    ensures log.area.Ok() && put.addr == Addr(log.area, f.pos + DataPlace(k, j))
  {
    SentPut(log, |f.job.tx.data|, k, j);
  }

  lemma {:induction false} DataOnDisk(c: Config, d0: Disk, s: Run, l: nat, k: nat, j: nat, f: Flight)
    requires true == Inv(c, d0, s) && l < 2 && s.flight[l].Busy? && k < |s.flight[l].reqs| && s.flight[l].reqs[k].Writing?
    requires j < |SentBy(s.logs[l], |s.flight[l].job.tx.data|, k)|
    requires f == s.flight[l].(reqs := s.flight[l].reqs[k := Writing(s.flight[l].reqs[k].sent + {j})])
    ensures true == Inv(c, d0, Send(s, l, f, MAX_BIO * k, SentBy(s.logs[l], |s.flight[l].job.tx.data|, k)[j]))
  {
    var put := SentBy(s.logs[l], |s.flight[l].job.tx.data|, k)[j];
    var s' := Send(s, l, f, MAX_BIO * k, put);
    WorkOfInv(c, d0, s, l);
    StillArriving(c, d0, s, l, k);
    FlightImage(c, d0, s, l);
    DataSent(s.logs[l], s.flight[l], k, j, put);
    SendWrites(c, s, l, f, MAX_BIO * k, put, DataPlace(k, j));
    WriteWork(s.logs[l], s.flight[l], s'.flight[l], k, j);
    WriteStep(c, d0, s, s', l, DataPlace(k, j));
    FlightStep(c, d0, s, s', l);
  }

  /** persist_data writes a data block to the address of its place. */
  lemma {:induction false} WritesData(c: Config, d0: Disk, s: Run, l: nat, k: nat, j: nat)
    requires true == Inv(c, d0, s) && Enabled(c, d0, s, WriteData(l, k, j))
    ensures true == Inv(c, d0, Apply(c, d0, s, WriteData(l, k, j)))
  {
    var f := s.flight[l];
    DataOnDisk(c, d0, s, l, k, j, f.(reqs := f.reqs[k := Writing(f.reqs[k].sent + {j})]));
  }

  /** The counter lets the committer go on, and all data is on disk. */
  lemma {:induction false} Places(c: Config, d0: Disk, s: Run, l: nat)
    requires true == Inv(c, d0, s) && Enabled(c, d0, s, Place(l))
    ensures true == Inv(c, d0, TakeSpace(s, l))
  {
    var s', f := TakeSpace(s, l), s.flight[l];
    WorkOfInv(c, d0, s, l);
    ArrivingOf(c, d0, s, l);
    FlightImage(c, d0, s, l);
    forall i | 1 <= i <= |f.job.tx.data| ensures i in f.written {
      CounterMeansData(s.logs[l], f, i);
    }
    PlaceWork(s.logs[l], s'.logs[l], f, s'.flight[l]);
    PlaceStep(c, d0, s, l);
    FlightStep(c, d0, s, s', l);
  }

  lemma {:induction false} PlacedOf(c: Config, d0: Disk, s: Run, l: nat)
    requires true == Inv(c, d0, s) && l < 2 && s.flight[l].Busy? && s.flight[l].placed
    ensures c.logs[l].Size() < U32 && s.logs[l].area == c.logs[l] && true == MetaOk(c.logs[l], s.flight[l])
    ensures |s.flight[l].image| == s.flight[l].job.tx.Len() && Sized(s.flight[l].image)
  {
    WorkOfInv(c, d0, s, l);
    FlightImage(c, d0, s, l);
  }

  lemma {:induction false} MetaOnDisk(c: Config, d0: Disk, s: Run, l: nat, j: nat, f: Flight)
    requires true == Inv(c, d0, s) && l < 2 && s.flight[l].Busy? && s.flight[l].placed
    requires j < |MetaOf(c.logs[l], s.flight[l])| && f == s.flight[l].(metaSent := s.flight[l].metaSent + {j})
    ensures true == Inv(c, d0, Send(s, l, f, 0, MetaOf(c.logs[l], s.flight[l])[j]))
  {
    var put, i := MetaOf(c.logs[l], s.flight[l])[j], MetaPlace(f.job.tx, j);
    var s' := Send(s, l, f, 0, put);
    PlacedOf(c, d0, s, l);
    WorkOfInv(c, d0, s, l);
    MetaPut(c.logs[l], s.flight[l], j);
    SendWrites(c, s, l, f, 0, put, i);
    MetaWork(s.logs[l], s.flight[l], s'.flight[l], j);
    WriteStep(c, d0, s, s', l, i);
    FlightStep(c, d0, s, s', l);
  }

  /** The metadata bio list writes its blocks to the addresses of their places. */
  lemma {:induction false} WritesMeta(c: Config, d0: Disk, s: Run, l: nat, j: nat)
    requires true == Inv(c, d0, s) && Enabled(c, d0, s, WriteMeta(l, j))
    ensures true == Inv(c, d0, Apply(c, d0, s, WriteMeta(l, j)))
  {
    MetaOnDisk(c, d0, s, l, j, s.flight[l].(metaSent := s.flight[l].metaSent + {j}));
  }

  /** When the commit record goes out, every other place of the image has been written. */
  lemma {:induction false} WrittenBefore(c: Config, d0: Disk, s: Run, l: nat, i: nat)
    requires true == Inv(c, d0, s) && Enabled(c, d0, s, CommitTx(l)) && i < s.flight[l].job.tx.Len() - 1
    ensures i in s.flight[l].written
  {
    PlacedOf(c, d0, s, l);
    WorkOfInv(c, d0, s, l);
    LogOfCore(c, d0, s, l);
    if i == 0 || i > |s.flight[l].job.tx.data| {
      AllWritten(s.logs[l], s.flight[l], i);
    }
  }

  lemma {:induction false} Commits(c: Config, d0: Disk, s: Run, l: nat)
    requires true == Inv(c, d0, s) && Enabled(c, d0, s, CommitTx(l))
    ensures true == Inv(c, d0, Finish(c, s, l))
  {
    var s', f := Finish(c, s, l), s.flight[l];
    PlacedOf(c, d0, s, l);
    CommitAddr(c.logs[l], f);
    forall i: nat | i < f.job.tx.Len() - 1 ensures i in f.written {
      WrittenBefore(c, d0, s, l, i);
    }
    CoreOfInv(c, d0, s);
    CommitStep(c, d0, s, l);
    WorksOfInv(c, d0, s);
    WorksWith(s, s', l);
    JobsOfInv(c, d0, s);
    JobsCommit(c, d0, s, s', l, Item(f.job, l, f.desc, f.pos, f.image, false));
    InvFrom(c, d0, s');
  }

  /** The checkpoint thread and the list leave logs and flights alone. */
  lemma {:induction false} QuietStep(c: Config, d0: Disk, s: Run, s': Run)
    requires true == Inv(c, d0, s) && true == Core(c, d0, s') && s'.logs == s.logs && s'.flight == s.flight
    requires s'.committed == s.committed && SamePlaces(s.Live(), s'.Live())
    ensures true == Inv(c, d0, s')
  {
    JobsOfInv(c, d0, s);
    JobsKeep(c, d0, s, s');
    WorksOfInv(c, d0, s);
    assert Works(s');
    InvFrom(c, d0, s');
  }

  lemma {:induction false} ReleaseWork(log: Log, log': Log, f: Flight)
    requires true == WorkOk(log, f) && log'.area == log.area && log'.head == log.head
    ensures true == WorkOk(log', f)
  {
    if f.Busy? && !f.placed {
      forall k: nat | k < |f.reqs| ensures RequestOk(log', f, k) {
        assert RequestOk(log, f, k);
        assert SentBy(log', |f.job.tx.data|, k) == SentBy(log, |f.job.tx.data|, k);
      }
    }
  }

  lemma {:induction false} Finishes(c: Config, d0: Disk, s: Run)
    requires true == Inv(c, d0, s) && Enabled(c, d0, s, FinishCkpt)
    ensures true == Inv(c, d0, FreeOldest(s))
  {
    var s', l := FreeOldest(s), s.ckpt.item.log;
    WorkOfInv(c, d0, s, l);
    FinishStep(c, d0, s);
    ReleaseWork(s.logs[l], s'.logs[l], s.flight[l]);
    WorksOfInv(c, d0, s);
    WorksWith(s, s', l);
    assert s'.Live() == s.pending == s.Live()[1..];
    JobsOfInv(c, d0, s);
    JobsDrop(c, d0, s, s');
    InvFrom(c, d0, s');
  }

  lemma {:induction false} CkptSteps(c: Config, d0: Disk, s: Run, a: Action)
    requires true == Inv(c, d0, s) && Enabled(c, d0, s, a)
    requires a.CkptInode? || a.CkptRead? || a.CkptWrite?
    ensures true == Inv(c, d0, Apply(c, d0, s, a))
  {
    CoreOfInv(c, d0, s);
    if a.CkptInode? {
      InodeStep(c, d0, s);
    } else if a.CkptRead? {
      ReadStep(c, d0, s);
    } else {
      CopyStep(c, d0, s);
    }
    QuietStep(c, d0, s, Apply(c, d0, s, a));
  }

  lemma {:induction false} MakesReady(c: Config, d0: Disk, s: Run, i: nat)
    requires true == Inv(c, d0, s) && i < |s.pending|
    ensures true == Inv(c, d0, s.(pending := s.pending[i := s.pending[i].(ready := true)]))
  {
    CoreOfInv(c, d0, s);
    ReadyStep(c, d0, s, i);
    QuietStep(c, d0, s, s.(pending := s.pending[i := s.pending[i].(ready := true)]));
  }

  lemma {:induction false} StartsCkpt(c: Config, d0: Disk, s: Run)
    requires true == Inv(c, d0, s) && s.ckpt.NoCkpt? && s.pending != []
    ensures true == Inv(c, d0, s.(ckpt := Running(s.pending[0], 0, 0, []), pending := s.pending[1..]))
  {
    var s' := s.(ckpt := Running(s.pending[0], 0, 0, []), pending := s.pending[1..]);
    CoreOfInv(c, d0, s);
    StartStep(c, d0, s);
    assert s.Live() == s.pending == s'.Live();
    QuietStep(c, d0, s, s');
  }

  lemma {:induction false} StepKeepsInv(c: Config, d0: Disk, s: Run, a: Action)
    requires Inv(c, d0, s) && Enabled(c, d0, s, a)
    ensures Inv(c, d0, Apply(c, d0, s, a))
  {
    if a.Begin? {
      Begins(c, d0, s, a);
    } else if a.CallChunk? {
      CallsChunk(c, d0, s, a.l, a.k);
    } else if a.WriteData? {
      WritesData(c, d0, s, a.l, a.k, a.j);
    } else if a.CountChunk? {
      CountsChunk(c, d0, s, a.l, a.k);
    } else if a.Place? {
      Places(c, d0, s, a.l);
    } else if a.WriteMeta? {
      WritesMeta(c, d0, s, a.l, a.j);
    } else if a.CommitTx? {
      Commits(c, d0, s, a.l);
    } else if a.FinishCkpt? {
      Finishes(c, d0, s);
    } else if a.MakeReady? {
      MakesReady(c, d0, s, a.i);
    } else if a.StartCkpt? {
      StartsCkpt(c, d0, s);
    } else {
      CkptSteps(c, d0, s, a);
    }
  }
}
