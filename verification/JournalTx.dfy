/** A transaction as the journal sees it: what it should do to the file system area, and what its
    checkpoint reads and writes once it stands in a log. */
module JournalTx {
  import opened TagList
  import opened BlockDevice
  import opened Cyclic
  import opened SourcePlan
  import opened Pass5
  import opened Checkpoint
  import opened InodeOrder
  import opened CheckpointEntry
  import opened CircularLog

  /** The stage area and the two journal logs, whose lengths are 32-bit numbers; everything else is the
      file system area. */
  datatype Config = Config(stage: Area, logs: seq<Area>) {
    ghost predicate Ok() {
      && |logs| == 2 && stage.Ok() && logs[0].Ok() && logs[1].Ok()
      && Apart(stage, logs[0]) && Apart(stage, logs[1]) && Apart(logs[0], logs[1])
      && logs[0].Size() < U32 && logs[1].Size() < U32
    }

    static predicate Apart(a: Area, b: Area) {
      a.last < b.first || b.last < a.first
    }

    function AreasOf(l: nat): Areas
      requires l < |logs|
    {
      Areas(stage, logs[l])
    }

    predicate InFs(blk: int) {
      !InArea(stage, blk) && forall l :: 0 <= l < |logs| ==> !InArea(logs[l], blk)
    }
  }

  predicate InArea(a: Area, blk: int) {
    a.first <= blk <= a.last
  }

  /** Descriptor block, data blocks, and metadata blocks, as contents and as what they say. */
  datatype Tx = Tx(id: nat, desc: Block, data: seq<Block>, metaBlks: seq<Block>, descTags: seq<ETag>, meta: seq<MetaBlock>) {
    function EntryAt(start: int): Entry {
      Entry(start, descTags, meta)
    }

    /** Where data block k belongs. */
    function Targets(): seq<Cell> {
      EntryAt(0).ToGroup().ToCells()
    }

    /** | desc | data ... | meta ... | superblock copy | commit | */
    function Len(): nat {
      1 + |data| + |metaBlks| + 2
    }

    function Image(sb: Block, commit: Block): (r: seq<Block>)
      ensures |r| == Len()
    {
      [desc] + data + metaBlks + [sb] + [commit]
    }
  }

  ghost predicate Sized(blks: seq<Block>) {
    forall i :: 0 <= i < |blks| ==> |blks[i]| == BLOCK_SIZE
  }

  /** The transaction describes its own data and targets only the file system area. */
  ghost predicate TxOk(c: Config, l: nat, tx: Tx, d: Disk) {
    && c.Ok() && l < 2 && tx.id >= 1
    && |tx.desc| == BLOCK_SIZE && Sized(tx.data) && Sized(tx.metaBlks) && |tx.metaBlks| == |tx.meta|
    && |tx.Targets()| == |tx.data|
    && (forall k :: 0 <= k < |tx.Targets()| ==> c.InFs(tx.Targets()[k].dst))
    && EntryFits(tx.EntryAt(c.logs[l].first), c.AreasOf(l), d)
    && Separated(StageGroups(TracedIn(tx.meta))) && Recopied(StepsOf(tx.EntryAt(c.logs[l].first)))
    && (forall i :: 0 <= i < |TracedIn(tx.meta)| ==> c.InFs(TracedIn(tx.meta)[i].inode.blk))
    && (forall i, k :: 0 <= i < |TracedIn(tx.meta)| && 0 <= k < |TracedIn(tx.meta)[i].ToGroup().ToCells()|
          ==> c.InFs(TracedIn(tx.meta)[i].ToGroup().ToCells()[k].dst))
  }

  /** The data blocks at their places. */
  function DataTo(cells: seq<Cell>, data: seq<Block>, n: nat): Disk
    requires n <= |cells| == |data| && Sized(data)
  {
    if n == 0 then map[] else DataTo(cells, data, n - 1) + WholeBlock(cells[n - 1].dst, data[n - 1])
  }

  /** What the transaction means: its stage transactions in order, then its own data. */
  ghost function Intended(c: Config, l: nat, tx: Tx, stage: Disk): Disk
    requires TxOk(c, l, tx, stage)
  {
    FitsGroups(tx.EntryAt(c.logs[l].first), c.AreasOf(l), stage);
    StageEffect(stage, TracedIn(tx.meta), c.AreasOf(l)) + DataTo(tx.Targets(), tx.data, |tx.data|)
  }

  /** A transaction of one data block for block dst. */
  function OneBlock(id: nat, desc: Block, content: Block, dst: nat): Tx {
    Tx(id, desc, [content], [], [ETag(dst, 1)], [])
  }

  /** It is a transaction for either log, and means exactly that dst gets its content. */
  lemma {:induction false} OneBlockMeans(c: Config, l: nat, id: nat, desc: Block, content: Block, dst: nat, d: Disk)
    requires c.Ok() && l < 2 && id >= 1 && |desc| == |content| == BLOCK_SIZE && c.InFs(dst)
    ensures TxOk(c, l, OneBlock(id, desc, content, dst), d)
    ensures Intended(c, l, OneBlock(id, desc, content, dst), d) == WholeBlock(dst, content)
  {
    var tx := OneBlock(id, desc, content, dst);
    OneCell(0, dst);
    OneCell(c.logs[l].first, dst);
    assert TracedIn(tx.meta) == [];
    OneStep(tx.EntryAt(c.logs[l].first));
    assert TxOk(c, l, tx, d);
    assert DataTo(tx.Targets(), tx.data, 1) == map[] + WholeBlock(dst, content) by {
      assert DataTo(tx.Targets(), tx.data, 0) == map[];
    }
  }

  lemma {:induction false} OneStep(e: Entry)
    requires e.StageTxs() == []
    ensures Recopied(StepsOf(e))
  {
    assert StepsOf(e) == [Step(NO_INODE, e.ToGroup())];
  }

  lemma {:induction false} OneCell(start: int, dst: nat)
    ensures Entry(start, [ETag(dst, 1)], []).ToGroup().ToCells() == [Cell(dst, start + 1, false)]
  {
    var g := Entry(start, [ETag(dst, 1)], []).ToGroup();
    assert g.tags == [ETag(dst, 1)];
    assert g.Tags() == [Tag(dst, 1, start + 1, false)];
    FlatOne(Tag(dst, 1, start + 1, false));
  }

  // ------------------------------------------------------------------------------------------
  // The transaction at a place of its log
  // ------------------------------------------------------------------------------------------

  lemma {:induction false} CellsRebase(tags: seq<ETag>, base: int, base': int, stage: bool)
    ensures |Group(base, stage, tags).ToCells()| == |Group(base', stage, tags).ToCells()|
    ensures forall k :: 0 <= k < |Group(base, stage, tags).ToCells()|
              ==> Group(base, stage, tags).ToCells()[k].dst == Group(base', stage, tags).ToCells()[k].dst
    decreases |tags|
  {
    if tags != [] {
      var g, g' := Group(base, stage, tags), Group(base', stage, tags);
      var r, r' := Group(base, stage, tags[1..]), Group(base', stage, tags[1..]);
      CellsRebase(tags[1..], base, base', stage);
      assert g.Tags()[1..] == r.Tags() && g'.Tags()[1..] == r'.Tags();
    }
  }

  lemma {:induction false} TargetsRebase(tags: seq<ETag>, base: int, base': int, stage: bool, blk: int)
    requires Targets(Group(base, stage, tags), blk)
    ensures Targets(Group(base', stage, tags), blk)
  {
    CellsRebase(tags, base, base', stage);
    var k :| 0 <= k < |Group(base, stage, tags).ToCells()| && Group(base, stage, tags).ToCells()[k].dst == blk;
    assert Group(base', stage, tags).ToCells()[k].dst == blk;
  }

  lemma {:induction false} TargetedAnywhere(tx: Tx, start: int, start': int, a: nat, b: nat, blk: int)
    requires TargetedIn(StepsOf(tx.EntryAt(start)), a, b, blk)
    ensures TargetedIn(StepsOf(tx.EntryAt(start')), a, b, blk)
  {
    var steps, steps' := StepsOf(tx.EntryAt(start)), StepsOf(tx.EntryAt(start'));
    var k :| a <= k < b && k < |steps| && Targets(steps[k].group, blk);
    if k == |steps| - 1 {
      TargetsRebase(steps[k].group.tags, start + 1, start' + 1, false, blk);
    }
    assert Targets(steps'[k].group, blk);
  }

  /** Which blocks are copied onto, and when, does not depend on where the transaction begins. */
  lemma {:induction false} RecopiedAnywhere(tx: Tx, start: int, start': int)
    requires Recopied(StepsOf(tx.EntryAt(start)))
    ensures Recopied(StepsOf(tx.EntryAt(start')))
  {
    var steps, steps' := StepsOf(tx.EntryAt(start)), StepsOf(tx.EntryAt(start'));
    forall j: nat | j < |steps'| && steps'[j].inode.bytes != [] && TargetedIn(steps', 0, j, steps'[j].inode.blk)
      ensures TargetedIn(steps', j, |steps'|, steps'[j].inode.blk)
    {
      assert steps[j].inode == steps'[j].inode;
      TargetedAnywhere(tx, start', start, 0, j, steps'[j].inode.blk);
      TargetedAnywhere(tx, start, start', j, |steps|, steps'[j].inode.blk);
    }
  }

  /** A transaction that fits its log fits it anywhere. */
  lemma {:induction false} FitsAnywhere(c: Config, l: nat, tx: Tx, d: Disk, start: int)
    requires TxOk(c, l, tx, d) && InArea(c.logs[l], start)
    ensures EntryFits(tx.EntryAt(start), c.AreasOf(l), d) && Coalescible(tx.EntryAt(start))
    ensures |tx.EntryAt(start).ToGroup().ToCells()| == |tx.Targets()|
    ensures forall k :: 0 <= k < |tx.Targets()| ==> tx.EntryAt(start).ToGroup().ToCells()[k].dst == tx.Targets()[k].dst
  {
    var areas, e := c.AreasOf(l), tx.EntryAt(start);
    var tags := e.ToGroup().tags;
    CellsRebase(tags, start + 1, c.logs[l].first + 1, false);
    CellsRebase(tags, start + 1, 1, false);
    assert GroupFits(e.ToGroup(), areas);
    JournalSeparated(c, l, tx, d, start);
    RecopiedAnywhere(tx, c.logs[l].first, start);
  }

  lemma {:induction false} JournalSeparated(c: Config, l: nat, tx: Tx, d: Disk, start: int)
    requires TxOk(c, l, tx, d) && InArea(c.logs[l], start)
    ensures Separated(GroupsOf(tx.EntryAt(start)))
  {
    var e, areas := tx.EntryAt(start), c.AreasOf(l);
    var gs := StageGroups(e.StageTxs());
    assert GroupsOf(e)[..|GroupsOf(e)| - 1] == gs;
    forall i | 0 <= i < |gs| ensures gs[i].stage && GroupFits(gs[i], areas) {
      assert TxFits(tx.EntryAt(c.logs[l].first).StageTxs()[i], areas, d);
    }
    StageBases(gs, areas);
  }

  lemma {:induction false} StageBases(groups: seq<Group>, areas: Areas)
    requires forall i :: 0 <= i < |groups| ==> groups[i].stage && GroupFits(groups[i], areas)
    ensures var s := Flat(ListOf(groups));
            forall k :: 0 <= k < |s| ==> areas.stage.first < s[k].base <= areas.stage.last + 1
  {
    if groups != [] {
      var n := |groups| - 1;
      StageBases(groups[..n], areas);
      FlatGroups(groups);
      GroupCells(groups[n].Tags(), groups[n].base, groups[n].stage);
    }
  }

  // ------------------------------------------------------------------------------------------
  // What its checkpoint does
  // ------------------------------------------------------------------------------------------

  /** The copies of the coalesced checkpoint of a transaction that begins at position pos. */
  ghost function PlanAt(c: Config, l: nat, tx: Tx, d: Disk, pos: nat): seq<Copy>
    requires TxOk(c, l, tx, d)
  {
    FitsAnywhere(c, l, tx, d, Addr(c.logs[l], pos));
    FitsGroups(tx.EntryAt(Addr(c.logs[l], pos)), c.AreasOf(l), d);
    CoalescedEffect(d, tx.EntryAt(Addr(c.logs[l], pos)), c.AreasOf(l));
    CoalescedPlan(tx.EntryAt(Addr(c.logs[l], pos)), c.AreasOf(l))
  }

  /** The blocks that the transaction's checkpoint may read. */
  ghost predicate IsSource(c: Config, l: nat, tx: Tx, pos: nat, blk: int)
    requires c.Ok() && l < 2
  {
    InArea(c.stage, blk) || exists p: nat :: pos < p <= pos + |tx.data| && blk == Addr(c.logs[l], p)
  }

  lemma {:induction false} MaskedPlanPart(s: seq<Cell>, areas: Areas, p: nat, k: nat)
    requires areas.Ok() && Based(s, areas) && Based(Masked(s), areas) && p <= |s|
    requires k < |PlanTo(Masked(s), areas, p)|
    ensures PlanTo(Masked(s), areas, p)[k] in PlanTo(s, areas, p)
    decreases p
  {
    if p > 0 {
      if k < |PlanTo(Masked(s), areas, p - 1)| {
        MaskedPlanPart(s, areas, p - 1, k);
      } else {
        RunStartSame(s, Masked(s), p - 1);
      }
    }
  }

  /** A copy from a source block into the file system area. */
  ghost predicate CopyOk(c: Config, l: nat, tx: Tx, pos: nat, copy: Copy)
    requires c.Ok() && l < 2
  {
    IsSource(c, l, tx, pos, copy.src) && c.InFs(copy.dst)
  }

  lemma {:induction false} StageCopiesOk(c: Config, l: nat, tx: Tx, pos: nat, groups: seq<Group>)
    requires c.Ok() && l < 2 && GroupsOk(groups, c.AreasOf(l))
    requires forall i :: 0 <= i < |groups| ==> groups[i].stage
    requires forall i, k :: 0 <= i < |groups| && 0 <= k < |groups[i].ToCells()| ==> c.InFs(groups[i].ToCells()[k].dst)
    ensures forall k :: 0 <= k < |AllCopies(groups, c.AreasOf(l))| ==> CopyOk(c, l, tx, pos, AllCopies(groups, c.AreasOf(l))[k])
  {
    if groups != [] {
      var n := |groups| - 1;
      StageCopiesOk(c, l, tx, pos, groups[..n]);
      var copies := GroupCopies(groups[n], c.AreasOf(l));
      assert forall k :: 0 <= k < |copies| ==> CopyOk(c, l, tx, pos, copies[k]);
    }
  }

  lemma {:induction false} SourceAddr(area: Area, pos: nat, k: nat)
    requires area.Ok() && k < area.Size()
    ensures area.Holds(Addr(area, pos) + 1) && area.At(Addr(area, pos) + 1, k) == Addr(area, pos + 1 + k)
  {
    TurnAdvance(pos, 1 + k, area.Size());
    TurnAdvance(Turn(pos, area.Size()), 1 + k, area.Size());
  }

  /** Data block k is copied from position pos + 1 + k. */
  lemma {:induction false} JournalSource(c: Config, l: nat, tx: Tx, d: Disk, pos: nat, k: nat)
    requires TxOk(c, l, tx, d) && k < |tx.data| <= c.logs[l].Size()
    ensures GroupOk(tx.EntryAt(Addr(c.logs[l], pos)).ToGroup(), c.AreasOf(l))
    ensures var copies := GroupCopies(tx.EntryAt(Addr(c.logs[l], pos)).ToGroup(), c.AreasOf(l));
            |copies| == |tx.data| && copies[k] == Copy(tx.Targets()[k].dst, Addr(c.logs[l], pos + 1 + k))
  {
    FitsAnywhere(c, l, tx, d, Addr(c.logs[l], pos));
    SourceAddr(c.logs[l], pos, k);
  }

  /** The checkpoint reads only the stage area and the transaction's own data, and writes only the
      file system area. */
  lemma {:induction false} PlanOk(c: Config, l: nat, tx: Tx, d: Disk, pos: nat, k: nat)
    requires TxOk(c, l, tx, d) && |tx.data| <= c.logs[l].Size() && k < |PlanAt(c, l, tx, d, pos)|
    ensures CopyOk(c, l, tx, pos, PlanAt(c, l, tx, d, pos)[k])
  {
    var areas, e := c.AreasOf(l), tx.EntryAt(Addr(c.logs[l], pos));
    var groups := GroupsOf(e);
    var s := Flat(ListOf(groups));
    FitsAnywhere(c, l, tx, d, Addr(c.logs[l], pos));
    FitsGroups(e, areas, d);
    CoalescedEffect(d, e, areas);
    MaskedPlanPart(s, areas, |s|, k);
    PlanIsAllCopies(groups, areas);
    var gs := StageGroups(e.StageTxs());
    assert groups[..|groups| - 1] == gs;
    StageCopiesOk(c, l, tx, pos, gs);
    var own := GroupCopies(e.ToGroup(), areas);
    forall i | 0 <= i < |own| ensures CopyOk(c, l, tx, pos, own[i]) {
      JournalSource(c, l, tx, d, pos, i);
    }
  }

  lemma {:induction false} GroupAgree(d: Disk, e: Disk, g: Group, areas: Areas)
    requires GroupOk(g, areas) && g.stage
    requires forall loc: Loc :: InArea(areas.stage, loc.blk) ==> Read(d, loc) == Read(e, loc)
    ensures Writes(d, GroupCopies(g, areas)) == Writes(e, GroupCopies(g, areas))
  {
    var copies := GroupCopies(g, areas);
    assert forall k :: 0 <= k < |copies| ==> InArea(areas.stage, copies[k].src);
    WritesAgree(d, e, copies);
  }

  lemma {:induction false} StageAgree(d: Disk, e: Disk, txs: seq<StageTx>, areas: Areas)
    requires GroupsOk(StageGroups(txs), areas)
    requires forall loc: Loc :: InArea(areas.stage, loc.blk) ==> Read(d, loc) == Read(e, loc)
    ensures StageEffect(d, txs, areas) == StageEffect(e, txs, areas)
  {
    if txs != [] {
      var n := |txs| - 1;
      PrefixGroupsOk(txs, areas, n);
      assert StageGroups(txs)[n] == txs[n].ToGroup();
      StageAgree(d, e, txs[..n], areas);
      GroupAgree(d, e, txs[n].ToGroup(), areas);
    }
  }

  lemma {:induction false} DataPrefix(d: Disk, copies: seq<Copy>, cells: seq<Cell>, data: seq<Block>, n: nat)
    requires n <= |copies| == |cells| == |data| && Sized(data)
    requires forall k :: 0 <= k < n ==> copies[k].dst == cells[k].dst && ReadBlock(d, copies[k].src) == data[k]
    ensures Writes(d, copies[..n]) == DataTo(cells, data, n)
    decreases n
  {
    if n > 0 {
      DataPrefix(d, copies, cells, data, n - 1);
      WritesNext(d, copies, n - 1);
      ImageIs(d, copies[n - 1], cells[n - 1].dst, data[n - 1]);
    }
  }

  lemma {:induction false} WritesNext(d: Disk, copies: seq<Copy>, m: nat)
    requires m < |copies|
    ensures Writes(d, copies[..m + 1]) == Writes(d, copies[..m]) + Image(d, copies[m])
  {
    assert copies[..m + 1] == copies[..m] + [copies[m]];
    WritesAppend(d, copies[..m], copies[m]);
  }

  lemma {:induction false} ImageIs(d: Disk, copy: Copy, dst: int, content: Block)
    requires |content| == BLOCK_SIZE && copy.dst == dst && ReadBlock(d, copy.src) == content
    ensures Image(d, copy) == WholeBlock(dst, content)
  {
  }

  /** The transaction's data stands in its log. */
  ghost predicate DataStands(c: Config, l: nat, tx: Tx, pos: nat, d: Disk)
    requires c.Ok() && l < 2
  {
    forall k :: 0 <= k < |tx.data| ==> ReadBlock(d, Addr(c.logs[l], pos + 1 + k)) == tx.data[k]
  }

  lemma {:induction false} DataCopied(c: Config, l: nat, tx: Tx, stage: Disk, d: Disk, pos: nat)
    requires TxOk(c, l, tx, stage) && |tx.data| <= c.logs[l].Size() && DataStands(c, l, tx, pos, d)
    ensures GroupOk(tx.EntryAt(Addr(c.logs[l], pos)).ToGroup(), c.AreasOf(l))
    ensures Writes(d, GroupCopies(tx.EntryAt(Addr(c.logs[l], pos)).ToGroup(), c.AreasOf(l))) == DataTo(tx.Targets(), tx.data, |tx.data|)
  {
    FitsAnywhere(c, l, tx, stage, Addr(c.logs[l], pos));
    var copies := GroupCopies(tx.EntryAt(Addr(c.logs[l], pos)).ToGroup(), c.AreasOf(l));
    forall k | 0 <= k < |tx.data| ensures copies[k] == Copy(tx.Targets()[k].dst, Addr(c.logs[l], pos + 1 + k)) {
      JournalSource(c, l, tx, stage, pos, k);
    }
    DataPrefix(d, copies, tx.Targets(), tx.data, |tx.data|);
    assert copies[..|tx.data|] == copies;
  }

  /** A checkpoint that finds the data in the log and the stage area as it was does what the
      transaction means. */
  lemma {:induction false} CheckpointMeans(c: Config, l: nat, tx: Tx, stage: Disk, d: Disk, pos: nat)
    requires TxOk(c, l, tx, stage) && |tx.data| <= c.logs[l].Size() && DataStands(c, l, tx, pos, d)
    requires stage.Keys <= d.Keys && forall loc: Loc :: InArea(c.stage, loc.blk) ==> Read(d, loc) == Read(stage, loc)
    ensures Patches(TracedIn(tx.meta)) + Writes(d, PlanAt(c, l, tx, stage, pos)) == Intended(c, l, tx, stage)
  {
    var areas, e := c.AreasOf(l), tx.EntryAt(Addr(c.logs[l], pos));
    FitsAnywhere(c, l, tx, stage, Addr(c.logs[l], pos));
    forall i | 0 <= i < |e.StageTxs()| ensures TxFits(e.StageTxs()[i], areas, d) {
      assert TxFits(e.StageTxs()[i], areas, stage);
    }
    FitsGroups(e, areas, d);
    CoalescedEffect(d, e, areas);
    StageAgree(d, stage, TracedIn(tx.meta), areas);
    DataCopied(c, l, tx, stage, d, pos);
  }

  // ------------------------------------------------------------------------------------------
  // A checkpoint job
  // ------------------------------------------------------------------------------------------

  /** A transaction at its place in log `log`: the inode overlays and block copies of its checkpoint, and what it
      means for the file system area. */
  datatype Job = Job(tx: Tx, log: nat, overlays: seq<Disk>, plan: seq<Copy>, effect: Disk)

  function Overlays(txs: seq<StageTx>): (r: seq<Disk>)
    ensures |r| == |txs|
  {
    seq(|txs|, i requires 0 <= i < |txs| => Patch(txs[i].inode))
  }

  function Merge(ws: seq<Disk>): Disk {
    if ws == [] then map[] else Merge(ws[..|ws| - 1]) + ws[|ws| - 1]
  }

  lemma {:induction false} MergeOverlays(txs: seq<StageTx>)
    ensures Merge(Overlays(txs)) == Patches(txs)
  {
    if txs != [] {
      var n := |txs| - 1;
      assert Overlays(txs)[..n] == Overlays(txs[..n]);
      MergeOverlays(txs[..n]);
    }
  }

  ghost function JobAt(c: Config, l: nat, tx: Tx, d0: Disk, pos: nat): Job
    requires TxOk(c, l, tx, d0)
  {
    Job(tx, l, Overlays(TracedIn(tx.meta)), PlanAt(c, l, tx, d0, pos), Intended(c, l, tx, d0))
  }

  ghost predicate OverlaysOk(c: Config, job: Job) {
    forall i, loc :: 0 <= i < |job.overlays| && loc in job.overlays[i] ==> c.InFs(loc.blk)
  }

  ghost predicate PlanCopiesOk(c: Config, l: nat, pos: nat, job: Job)
    requires c.Ok() && l < 2
  {
    forall k :: 0 <= k < |job.plan| ==> CopyOk(c, l, job.tx, pos, job.plan[k])
  }

  /** On any disk with the transaction's data in the log and the stage area of d0, the overlays and
      copies come to the intended effect. */
  ghost predicate Meant(c: Config, l: nat, pos: nat, job: Job, d0: Disk)
    requires c.Ok() && l < 2
  {
    forall d :: Faithful(c, l, pos, job.tx, d0, d) ==> Merge(job.overlays) + Writes(d, job.plan) == job.effect
  }

  ghost predicate Faithful(c: Config, l: nat, pos: nat, tx: Tx, d0: Disk, d: Disk)
    requires c.Ok() && l < 2
  {
    && DataStands(c, l, tx, pos, d) && d0.Keys <= d.Keys
    && forall loc: Loc :: InArea(c.stage, loc.blk) ==> Read(d, loc) == Read(d0, loc)
  }

  ghost predicate JobOk(c: Config, l: nat, pos: nat, job: Job, d0: Disk) {
    c.Ok() && l < 2 && job.tx.id >= 1 && OverlaysOk(c, job) && PlanCopiesOk(c, l, pos, job) && Meant(c, l, pos, job, d0)
  }

  lemma {:induction false} JobAtOk(c: Config, l: nat, tx: Tx, d0: Disk, pos: nat)
    requires TxOk(c, l, tx, d0) && |tx.data| <= c.logs[l].Size()
    ensures true == JobOk(c, l, pos, JobAt(c, l, tx, d0, pos), d0)
  {
    var job := JobAt(c, l, tx, d0, pos);
    forall i, loc | 0 <= i < |job.overlays| && loc in job.overlays[i] ensures c.InFs(loc.blk) {
      assert c.InFs(TracedIn(tx.meta)[i].inode.blk);
    }
    forall k | 0 <= k < |job.plan| ensures CopyOk(c, l, tx, pos, job.plan[k]) {
      PlanOk(c, l, tx, d0, pos, k);
    }
    forall d | Faithful(c, l, pos, tx, d0, d) ensures Merge(job.overlays) + Writes(d, job.plan) == job.effect {
      MergeOverlays(TracedIn(tx.meta));
      CheckpointMeans(c, l, tx, d0, d, pos);
    }
  }
}
