/** The journal as a state machine: two committers, one per log, each with the persist_data calls of its
    transaction, and one checkpoint thread.  A step is one block written or read, or one change of the
    shared records made under a lock. */
module JournalRun {
  import opened BlockDevice
  import opened SourcePlan
  import opened CircularLog
  import opened LogLayout
  import opened JournalTx

  /** A checkpoint list entry: a committed transaction that begins at address `start`, which is position
      `pos` of its log. */
  datatype Item = Item(job: Job, log: nat, start: int, pos: nat, image: seq<Block>, ready: bool) {
    function Len(): nat {
      job.tx.Len()
    }
  }

  /** A persist_data call: not made, with its bios dispatched and some blocks on disk, counted as
      complete, or given up. */
  datatype Request = Waiting | Writing(sent: set<nat>) | Counted | GaveUp

  /** The transaction a log is receiving.  The committer sees `desc` (desc_blk_baddr), one request for
      each chunk, `reqCnt` (req_cnt), whether it has taken its space (`placed`), where its metadata goes
      and which blocks of the metadata bio list are on disk.  `pos` and `written`, the places of the image
      on disk, record history. */
  datatype Flight =
    | Idle
    | Busy(job: Job, pos: nat, image: seq<Block>, written: set<nat>, placed: bool,
           desc: int, reqs: seq<Request>, reqCnt: nat, metaStart: int, metaSent: set<nat>)

  /** The checkpoint thread: inodes overlaid, blocks copied, blocks read but not yet written. */
  datatype Ckpt = NoCkpt | Running(item: Item, inodes: nat, copied: nat, bufs: seq<Block>)

  /** `sb0` is the id in the superblock that was loaded; with `committed` and `done` it records history. */
  datatype Run = Run(store: Disk, logs: seq<Log>, flight: seq<Flight>, pending: seq<Item>, ckpt: Ckpt,
                     seqn: nat, sbTxId: nat, sb0: nat, committed: seq<Job>, done: nat) {
    /** Committed and not yet checkpointed, oldest first. */
    function Live(): seq<Item> {
      (if ckpt.Running? then [ckpt.item] else []) + pending
    }
  }

  datatype Action =
    | Begin(l: nat, job: Job, sb: Block, commit: Block)
    | CallChunk(l: nat, k: nat)
    | WriteData(l: nat, k: nat, j: nat)
    | CountChunk(l: nat, k: nat)
    | Place(l: nat)
    | WriteMeta(l: nat, j: nat)
    | CommitTx(l: nat)
    | MakeReady(i: nat)
    | StartCkpt
    | CkptInode
    | CkptRead
    | CkptWrite
    | FinishCkpt

  /** The blocks that persist_data writes for chunk k of n data blocks. */
  function SentBy(log: Log, n: nat, k: nat): seq<Put> {
    ChunkSent(log.area, ChunkStart(log.head, k), ChunkLen(n, k))
  }

  /** No chunk starts more than one block past the end of the log: LogLayout.ChunkInside. */
  predicate ChunksFit(log: Log, n: nat) {
    forall k :: 0 <= k < ChunkCount(n) ==> ChunkStart(log.head, k) <= log.area.last + 1
  }

  /** The metadata bio list and the commit bio list of a placed transaction. */
  function MetaOf(area: Area, f: Flight): seq<Put>
    requires f.Busy?
  {
    MetaPuts(area, f.desc, f.metaStart, |f.job.tx.metaBlks|)
  }

  function CommitOf(area: Area, f: Flight): Put
    requires f.Busy?
  {
    CommitPut(area, f.metaStart, |f.job.tx.metaBlks|)
  }

  ghost predicate Shape(c: Config, s: Run) {
    && c.Ok() && |s.logs| == 2 && |s.flight| == 2
    && s.logs[0].area == c.logs[0] && s.logs[1].area == c.logs[1]
  }

  /** The wait in persist_meta_and_commit is over. */
  predicate MayCommit(seqn: nat, id: nat) {
    seqn == 0 || id == seqn + 1
  }

  /** A quantifier over this one value keeps a predicate folded until a proof asks for its inside. */
  datatype Look = Look

  /** The job is a transaction for its log, with the checkpoint that belongs to its place. */
  ghost predicate GenuineJob(c: Config, d0: Disk, l: nat, pos: nat, job: Job, look: Look) {
    job.log == l && TxOk(c, l, job.tx, d0) && job == JobAt(c, l, job.tx, d0, pos)
  }

  ghost predicate Genuine(c: Config, d0: Disk, l: nat, pos: nat, job: Job) {
    forall look :: GenuineJob(c, d0, l, pos, job, look)
  }

  /** The recorded effect is what the transaction means. */
  ghost predicate MeaningfulJob(c: Config, d0: Disk, job: Job, look: Look) {
    TxOk(c, job.log, job.tx, d0) && job.effect == Intended(c, job.log, job.tx, d0)
  }

  ghost predicate Meaningful(c: Config, d0: Disk, job: Job) {
    forall look :: MeaningfulJob(c, d0, job, look)
  }

  ghost predicate Enabled(c: Config, d0: Disk, s: Run, a: Action)
    requires Shape(c, s)
  {
    match a
    case Begin(l, job, sb, commit) =>
      // The sender has to leave room for the data; persist_data does not look.
      && l < 2 && s.flight[l].Idle? && Genuine(c, d0, l, s.logs[l].hpos, job) && |sb| == BLOCK_SIZE && |commit| == BLOCK_SIZE
      && 1 + |job.tx.data| <= s.logs[l].nFree && ChunksFit(s.logs[l], |job.tx.data|)
    case CallChunk(l, k) => l < 2 && s.flight[l].Busy? && k < |s.flight[l].reqs| && s.flight[l].reqs[k].Waiting?
    case WriteData(l, k, j) =>
      && l < 2 && s.flight[l].Busy? && k < |s.flight[l].reqs| && s.flight[l].reqs[k].Writing?
      && j < |SentBy(s.logs[l], |s.flight[l].job.tx.data|, k)|
    case CountChunk(l, k) =>
      // se_nvmf_poll_complete has seen every request of the chunk.
      && l < 2 && s.flight[l].Busy? && k < |s.flight[l].reqs| && s.flight[l].reqs[k].Writing?
      && forall j: nat :: j < |SentBy(s.logs[l], |s.flight[l].job.tx.data|, k)| ==> j in s.flight[l].reqs[k].sent
    case Place(l) =>
      // wait_for_all_persist_data_completion, and alloc_journal_space finds room.
      && l < 2 && s.flight[l].Busy? && !s.flight[l].placed && s.flight[l].reqCnt == |s.flight[l].reqs|
      && s.flight[l].job.tx.Len() <= s.logs[l].nFree
    case WriteMeta(l, j) => l < 2 && s.flight[l].Busy? && s.flight[l].placed && j < |MetaOf(c.logs[l], s.flight[l])|
    case CommitTx(l) =>
      && l < 2 && s.flight[l].Busy? && s.flight[l].placed && MayCommit(s.seqn, s.flight[l].job.tx.id)
      && forall j: nat :: j < |MetaOf(c.logs[l], s.flight[l])| ==> j in s.flight[l].metaSent
    case MakeReady(i) => i < |s.pending|
    case StartCkpt => s.ckpt.NoCkpt? && s.pending != [] && s.pending[0].ready
    case CkptInode => s.ckpt.Running? && s.ckpt.inodes < |s.ckpt.item.job.overlays|
    case CkptRead =>
      && s.ckpt.Running? && s.ckpt.inodes == |s.ckpt.item.job.overlays|
      && s.ckpt.copied + |s.ckpt.bufs| < |s.ckpt.item.job.plan|
    case CkptWrite => s.ckpt.Running? && s.ckpt.bufs != [] && s.ckpt.copied < |s.ckpt.item.job.plan|
    case FinishCkpt =>
      && s.ckpt.Running? && s.ckpt.inodes == |s.ckpt.item.job.overlays| && s.ckpt.item.log < 2
      && s.ckpt.copied == |s.ckpt.item.job.plan|
  }

  /** One block goes to the disk. */
  function Stored(store: Disk, addr: int, content: Block): Disk {
    if |content| == BLOCK_SIZE then store + WholeBlock(addr, content) else store
  }

  /** Which block of the image | desc | data | meta | superblock copy | commit | a buffer block is; the
      data buffer holds the blocks from `off`, the metadata buffer the descriptor block and the others. */
  function PlaceOf(tx: Tx, off: nat, put: Put): nat {
    match put.buf
    case DataBuf => 1 + off + put.blk
    case MetaBuf => if put.blk == 0 then 0 else |tx.data| + put.blk
    case SuperBuf => tx.Len() - 2
    case CommitBuf => tx.Len() - 1
  }

  function ContentOf(f: Flight, off: nat, put: Put): Block
    requires f.Busy?
  {
    var i := PlaceOf(f.job.tx, off, put);
    if i < |f.image| then f.image[i] else []
  }

  /** A block of a bio reaches the disk; f is the flight without it. */
  function Send(s: Run, l: nat, f: Flight, off: nat, put: Put): Run
    requires l < |s.flight| && f.Busy?
  {
    s.(store := Stored(s.store, put.addr, ContentOf(f, off, put)),
       flight := s.flight[l := f.(written := f.written + {PlaceOf(f.job.tx, off, put)})])
  }

  /** A transaction arrives: its space begins at the head.  With it comes the job of its checkpoint, which
      follows from the transaction and its place. */
  function Receive(s: Run, l: nat, job: Job, image: seq<Block>): Run
    requires l < |s.logs| && l < |s.flight|
  {
    var reqs := seq(ChunkCount(|job.tx.data|), _ => Waiting);
    s.(flight := s.flight[l := Busy(job, s.logs[l].hpos, image, {}, false, 0, reqs, 0, 0, {})])
  }

  /** persist_data up to the dispatch: the first request stores the descriptor's address, and a request
      with an empty first bio list gives up. */
  function Call(s: Run, l: nat, k: nat): Run
    requires l < |s.logs| && l < |s.flight| && s.flight[l].Busy? && k < |s.flight[l].reqs|
  {
    var f := s.flight[l];
    var r := if SentBy(s.logs[l], |f.job.tx.data|, k) == [] then GaveUp else Writing({});
    s.(flight := s.flight[l := f.(reqs := f.reqs[k := r], desc := if k == 0 then s.logs[l].head else f.desc)])
  }

  /** persist_data at its end. */
  function CountOne(s: Run, l: nat, k: nat): Run
    requires l < |s.flight| && s.flight[l].Busy? && k < |s.flight[l].reqs|
  {
    var f := s.flight[l];
    s.(flight := s.flight[l := f.(reqs := f.reqs[k := Counted], reqCnt := f.reqCnt + 1)])
  }

  /** update_log_state for the descriptor and the data, alloc_journal_space for the rest.  Without data
      the descriptor's block is allocated here. */
  function TakeSpace(s: Run, l: nat): Run
    requires l < |s.logs| && l < |s.flight| && s.flight[l].Busy?
  {
    var f := s.flight[l];
    var behind := s.logs[l].Take(1 + |f.job.tx.data|);
    s.(logs := s.logs[l := behind.Take(|f.job.tx.metaBlks| + 2)],
       flight := s.flight[l := f.(placed := true, desc := if f.reqs == [] then s.logs[l].head else f.desc, metaStart := behind.head)])
  }

  /** Under g_tx_seqn_mutex: the commit record, the superblock's first id, the checkpoint list, the sequence number. */
  function Finish(c: Config, s: Run, l: nat): Run
    requires l < |c.logs| && l < |s.flight| && s.flight[l].Busy?
  {
    var f := s.flight[l];
    var put := CommitOf(c.logs[l], f);
    s.(store := Stored(s.store, put.addr, ContentOf(f, 0, put)),
       sbTxId := if s.sbTxId == 0 then f.job.tx.id else s.sbTxId,
       flight := s.flight[l := Idle],
       pending := s.pending + [Item(f.job, l, f.desc, f.pos, f.image, false)],
       seqn := f.job.tx.id,
       committed := s.committed + [f.job])
  }

  /** increase_journal_sb_tx_id and free_journal_space. */
  function FreeOldest(s: Run): Run
    requires s.ckpt.Running? && s.ckpt.item.log < |s.logs|
  {
    var item := s.ckpt.item;
    s.(logs := s.logs[item.log := s.logs[item.log].Release(item.Len())],
       sbTxId := item.job.tx.id + 1, ckpt := NoCkpt, done := s.done + 1)
  }

  ghost function Apply(c: Config, d0: Disk, s: Run, a: Action): Run
    requires Shape(c, s) && Enabled(c, d0, s, a)
  {
    match a
    case Begin(l, job, sb, commit) => Receive(s, l, job, job.tx.Image(sb, commit))
    case CallChunk(l, k) => Call(s, l, k)
    case WriteData(l, k, j) =>
      var f := s.flight[l];
      var r := Writing(f.reqs[k].sent + {j});
      Send(s, l, f.(reqs := f.reqs[k := r]), MAX_BIO * k, SentBy(s.logs[l], |f.job.tx.data|, k)[j])
    case CountChunk(l, k) => CountOne(s, l, k)
    case Place(l) => TakeSpace(s, l)
    case WriteMeta(l, j) =>
      var f := s.flight[l];
      Send(s, l, f.(metaSent := f.metaSent + {j}), 0, MetaOf(c.logs[l], f)[j])
    case CommitTx(l) => Finish(c, s, l)
    case MakeReady(i) => s.(pending := s.pending[i := s.pending[i].(ready := true)])
    case StartCkpt => s.(ckpt := Running(s.pending[0], 0, 0, []), pending := s.pending[1..])
    case CkptInode =>
      s.(store := s.store + s.ckpt.item.job.overlays[s.ckpt.inodes], ckpt := s.ckpt.(inodes := s.ckpt.inodes + 1))
    case CkptRead =>
      var next := s.ckpt.item.job.plan[s.ckpt.copied + |s.ckpt.bufs|];
      s.(ckpt := s.ckpt.(bufs := s.ckpt.bufs + [ReadBlock(s.store, next.src)]))
    case CkptWrite =>
      var next := s.ckpt.item.job.plan[s.ckpt.copied];
      s.(store := Stored(s.store, next.dst, s.ckpt.bufs[0]),
         ckpt := s.ckpt.(copied := s.ckpt.copied + 1, bufs := s.ckpt.bufs[1..]))
    case FinishCkpt => FreeOldest(s)
  }

  // ------------------------------------------------------------------------------------------
  // The invariant
  // ------------------------------------------------------------------------------------------

  /** The items of log l stand one behind the other from p to q. */
  ghost predicate Chained(items: seq<Item>, l: nat, p: nat, q: nat)
    decreases |items|
  {
    if items == [] then p == q
    else if items[0].log == l then items[0].pos == p && Chained(items[1..], l, p + items[0].Len(), q)
    else Chained(items[1..], l, p, q)
  }

  /** Where the committed part of the log ends. */
  function FloorOf(log: Log, f: Flight): nat {
    if f.Busy? && f.placed then f.pos else log.hpos
  }

  ghost predicate ImageOk(tx: Tx, image: seq<Block>) {
    |image| == tx.Len() && Sized(image) && forall k :: 0 <= k < |tx.data| ==> image[1 + k] == tx.data[k]
  }

  ghost predicate StandsAt(store: Disk, area: Area, pos: nat, image: seq<Block>, i: nat) {
    area.Ok() && i < |image| && ReadBlock(store, Addr(area, pos + i)) == image[i]
  }

  ghost predicate ItemOk(c: Config, d0: Disk, store: Disk, item: Item) {
    && JobOk(c, item.log, item.pos, item.job, d0) && ImageOk(item.job.tx, item.image)
    && item.start == Addr(c.logs[item.log], item.pos)
    && (forall i: nat :: i < |item.image| ==> StandsAt(store, c.logs[item.log], item.pos, item.image, i))
  }

  ghost predicate ItemsOk(c: Config, d0: Disk, store: Disk, items: seq<Item>) {
    forall i :: 0 <= i < |items| ==> ItemOk(c, d0, store, items[i])
  }

  ghost predicate FlightOk(c: Config, d0: Disk, store: Disk, log: Log, l: nat, f: Flight) {
    f.Busy? ==>
      && JobOk(c, l, f.pos, f.job, d0) && ImageOk(f.job.tx, f.image)
      && (forall i :: i in f.written ==> i < |f.image| - 1 && StandsAt(store, c.logs[l], f.pos, f.image, i))
      && (if f.placed then f.pos + f.job.tx.Len() == log.hpos && forall i :: 1 <= i <= |f.job.tx.data| ==> i in f.written
          else f.pos == log.hpos && 1 + |f.job.tx.data| <= log.nFree && forall i :: i in f.written ==> i <= |f.job.tx.data|)
  }

  /** Free space, live items and the flight of one log. */
  ghost predicate LogOk(c: Config, d0: Disk, store: Disk, items: seq<Item>, log: Log, f: Flight, l: nat) {
    && log.Ok() && FlightOk(c, d0, store, log, l, f)
    && Chained(items, l, log.tpos, FloorOf(log, f))
  }

  /** The superblock's id: as loaded, unless that was 0, up to the end of the first checkpoint, and from
      then on the id of the oldest transaction not yet checkpointed. */
  function SuperId(committed: seq<Job>, done: nat, sb0: nat): nat {
    if committed == [] then sb0
    else if done == 0 && sb0 != 0 then sb0
    else committed[0].tx.id + done
  }

  /** Commit order is id order without gaps, and the live items are the last commits. */
  ghost predicate Ordered(committed: seq<Job>, done: nat, items: seq<Item>, seqn: nat, sbTxId: nat, sb0: nat) {
    && |committed| == done + |items|
    && (forall i :: 0 <= i < |items| ==> committed[done + i] == items[i].job)
    && (forall i :: 0 <= i < |committed| ==> committed[i].tx.id == committed[0].tx.id + i && committed[i].tx.id >= 1)
    && seqn == (if committed == [] then 0 else committed[|committed| - 1].tx.id)
    && sbTxId == SuperId(committed, done, sb0)
  }

  ghost predicate StageKept(c: Config, d0: Disk, store: Disk) {
    d0.Keys <= store.Keys && forall loc: Loc :: InArea(c.stage, loc.blk) ==> Read(store, loc) == Read(d0, loc)
  }

  /** The disk after the transactions, one after the other. */
  function Replay(d0: Disk, jobs: seq<Job>): Disk {
    if jobs == [] then d0 else Replay(d0, jobs[..|jobs| - 1]) + jobs[|jobs| - 1].effect
  }

  ghost predicate CkptOk(c: Config, store: Disk, k: Ckpt) {
    k.Running? ==>
      var job := k.item.job;
      && k.inodes <= |job.overlays| && k.copied + |k.bufs| <= |job.plan|
      && (k.copied + |k.bufs| > 0 ==> k.inodes == |job.overlays|)
      && (forall i :: 0 <= i < |k.bufs| ==> k.bufs[i] == ReadBlock(store, job.plan[k.copied + i].src))
  }

  /** What the running checkpoint has written. */
  function Partial(store: Disk, k: Ckpt): Disk {
    if k.Running? && k.inodes <= |k.item.job.overlays| && k.copied <= |k.item.job.plan| then
      Merge(k.item.job.overlays[..k.inodes]) + Writes(store, k.item.job.plan[..k.copied])
    else map[]
  }

  /** Two disks with the same file system area. */
  ghost predicate SameFs(c: Config, a: Disk, b: Disk) {
    forall loc: Loc :: c.InFs(loc.blk) ==> (loc in a <==> loc in b) && (loc in a ==> a[loc] == b[loc])
  }

  /** The file system area holds what has been checkpointed and the part of the running checkpoint. */
  ghost predicate FsOk(c: Config, d0: Disk, store: Disk, committed: seq<Job>, done: nat, k: Ckpt) {
    && done <= |committed| && CkptOk(c, store, k)
    && SameFs(c, store, Replay(d0, committed[..done]) + Partial(store, k))
  }

  datatype Part = OfLog(l: nat) | OfItems | OfOrder | OfStage | OfFs

  ghost predicate Holds(c: Config, d0: Disk, s: Run, part: Part)
    requires Shape(c, s)
  {
    match part
    case OfLog(l) => l < 2 ==> LogOk(c, d0, s.store, s.Live(), s.logs[l], s.flight[l], l)
    case OfItems => ItemsOk(c, d0, s.store, s.Live())
    case OfOrder => Ordered(s.committed, s.done, s.Live(), s.seqn, s.sbTxId, s.sb0)
    case OfStage => StageKept(c, d0, s.store)
    case OfFs => FsOk(c, d0, s.store, s.committed, s.done, s.ckpt)
  }

  /** The disk and the shared records, given what has been written. */
  ghost predicate Core(c: Config, d0: Disk, s: Run) {
    Shape(c, s) && forall part :: Holds(c, d0, s, part)
  }

  // ------------------------------------------------------------------------------------------
  // What the requests and the bio lists account for
  // ------------------------------------------------------------------------------------------

  function CountedIn(reqs: seq<Request>): nat {
    if reqs == [] then 0 else CountedIn(reqs[..|reqs| - 1]) + if reqs[|reqs| - 1].Counted? then 1 else 0
  }

  /** Block j of chunk k, as a place of the image. */
  function DataPlace(k: nat, j: nat): nat {
    1 + MAX_BIO * k + j
  }

  /** What a request has sent is on disk; only a chunk of which something is sent gets counted. */
  ghost predicate RequestOk(log: Log, f: Flight, k: nat)
    requires f.Busy? && k < |f.reqs|
  {
    var r, sent := f.reqs[k], SentBy(log, |f.job.tx.data|, k);
    && (r.Writing? ==> sent != [] && forall j :: j in r.sent ==> DataPlace(k, j) in f.written)
    && (r.Counted? ==> sent != [] && forall j: nat :: j < |sent| ==> DataPlace(k, j) in f.written)
  }

  /** Block j of the metadata bio list, as a place of the image. */
  function MetaPlace(tx: Tx, j: nat): nat {
    if j <= |tx.metaBlks| then 1 + |tx.data| + j else 0
  }

  ghost predicate MetaOk(area: Area, f: Flight)
    requires f.Busy?
  {
    && area.Ok() && f.job.tx.Len() <= area.Size()
    && f.desc == Addr(area, f.pos) && f.metaStart == Addr(area, f.pos + 1 + |f.job.tx.data|)
    && forall j :: j in f.metaSent ==> MetaPlace(f.job.tx, j) in f.written
  }

  ghost predicate DataOk(log: Log, f: Flight)
    requires f.Busy?
  {
    && 1 + |f.job.tx.data| <= log.area.Size() && ChunksFit(log, |f.job.tx.data|) && f.metaSent == {}
    && (forall k: nat :: k < |f.reqs| ==> RequestOk(log, f, k))
    && (f.reqs != [] && !f.reqs[0].Waiting? ==> f.desc == log.head)
  }

  ghost predicate WorkOk(log: Log, f: Flight) {
    f.Busy? ==>
      && |f.reqs| == ChunkCount(|f.job.tx.data|) && f.reqCnt == CountedIn(f.reqs)
      && if f.placed then f.reqCnt == |f.reqs| && MetaOk(log.area, f) else DataOk(log, f)
  }

  ghost predicate Works(s: Run)
    requires |s.logs| == 2 && |s.flight| == 2
  {
    WorkOk(s.logs[0], s.flight[0]) && WorkOk(s.logs[1], s.flight[1])
  }

  ghost predicate FlightGenuine(c: Config, d0: Disk, l: nat, f: Flight) {
    f.Busy? ==> Genuine(c, d0, l, f.pos, f.job)
  }

  ghost predicate ItemsGenuine(c: Config, d0: Disk, items: seq<Item>) {
    forall i :: 0 <= i < |items| ==> Genuine(c, d0, items[i].log, items[i].pos, items[i].job)
  }

  ghost predicate AllMeaningful(c: Config, d0: Disk, jobs: seq<Job>) {
    forall i :: 0 <= i < |jobs| ==> Meaningful(c, d0, jobs[i])
  }

  ghost predicate JobsOk(c: Config, d0: Disk, s: Run)
    requires |s.flight| == 2
  {
    && FlightGenuine(c, d0, 0, s.flight[0]) && FlightGenuine(c, d0, 1, s.flight[1])
    && ItemsGenuine(c, d0, s.Live()) && AllMeaningful(c, d0, s.committed)
  }

  datatype Side = TheCore | TheWork | TheJobs

  ghost predicate Kept(c: Config, d0: Disk, s: Run, side: Side)
    requires Shape(c, s)
  {
    match side
    case TheCore => Core(c, d0, s)
    case TheWork => Works(s)
    case TheJobs => JobsOk(c, d0, s)
  }

  ghost predicate Inv(c: Config, d0: Disk, s: Run) {
    Shape(c, s) && forall side :: Kept(c, d0, s, side)
  }
}
