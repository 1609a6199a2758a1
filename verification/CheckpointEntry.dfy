/** Both checkpoint procedures for a whole checkpoint list entry, with the inodes of its stage
    transactions, have one specification: Effect. */
module CheckpointEntry {
  import opened TagList
  import opened BlockDevice
  import opened SourcePlan
  import opened Pass5
  import opened Checkpoint
  import opened InodeOrder

  /** checkpoint_inode: read the block, overlay the inode, write the block back. */
  method CheckpointInode(dev: Device, u: InodeUpdate)
    requires u.Fits() && BlockLocs(u.blk) <= dev.store.Keys
    modifies dev
    ensures dev.store == old(dev.store) + Patch(u)
  {
    var buf := ReadBlock(dev.store, u.blk);
    buf := buf[..u.Offset()] + u.bytes + buf[u.Offset() + |u.bytes|..];
    dev.store := dev.store + WholeBlock(u.blk, buf);
  }

  // ------------------------------------------------------------------------------------------
  // What checkpointing an entry does to the device
  // ------------------------------------------------------------------------------------------

  function StageGroups(txs: seq<StageTx>): (r: seq<Group>)
    ensures |r| == |txs|
  {
    seq(|txs|, i requires 0 <= i < |txs| => txs[i].ToGroup())
  }

  function GroupsOf(e: Entry): seq<Group> {
    StageGroups(e.StageTxs()) + [e.ToGroup()]
  }

  /** Stage transactions one after the other: each overlays its inode and then copies its tags. */
  function StageEffect(d: Disk, txs: seq<StageTx>, areas: Areas): Disk
    requires GroupsOk(StageGroups(txs), areas)
  {
    if txs == [] then map[]
    else
      var n := |txs| - 1;
      assert StageGroups(txs)[n] == txs[n].ToGroup();
      assert forall i :: 0 <= i < n ==> StageGroups(txs[..n])[i] == StageGroups(txs)[i];
      StageEffect(d, txs[..n], areas) + Patch(txs[n].inode) + Writes(d, GroupCopies(txs[n].ToGroup(), areas))
  }

  /** The stage transactions first, then the tags of the journal transaction itself. */
  function Effect(d: Disk, e: Entry, areas: Areas): Disk
    requires GroupsOk(StageGroups(e.StageTxs()), areas) && GroupOk(e.ToGroup(), areas)
  {
    StageEffect(d, e.StageTxs(), areas) + Writes(d, GroupCopies(e.ToGroup(), areas))
  }

  ghost predicate GroupFits(g: Group, areas: Areas) {
    && GroupOk(g, areas)
    && areas.Of(g.stage).first < g.base
    && Outside(g.ToCells(), areas)
    && (forall i :: 0 <= i < |g.tags| ==> g.tags[i].cnt <= areas.Of(g.stage).Size())
  }

  ghost predicate TxFits(t: StageTx, areas: Areas, d: Disk) {
    t.Ok() && GroupFits(t.ToGroup(), areas) && !InSource(t.inode.blk, areas) && BlockLocs(t.inode.blk) <= d.Keys
  }

  ghost predicate AreasApart(areas: Areas) {
    areas.Ok() && (areas.stage.last < areas.journal.first || areas.journal.last < areas.stage.first)
  }

  /** The transaction lies in its areas and targets only the file system area. */
  ghost predicate EntryFits(e: Entry, areas: Areas, d: Disk) {
    && AreasApart(areas) && e.Ok()
    && (forall i :: 0 <= i < |e.StageTxs()| ==> TxFits(e.StageTxs()[i], areas, d))
    && GroupFits(e.ToGroup(), areas)
  }

  lemma {:induction false} FitsGroups(e: Entry, areas: Areas, d: Disk)
    requires EntryFits(e, areas, d)
    ensures GroupsOk(StageGroups(e.StageTxs()), areas) && GroupOk(e.ToGroup(), areas) && GroupsOk(GroupsOf(e), areas)
  {
    var gs := StageGroups(e.StageTxs());
    forall i | 0 <= i < |gs| ensures GroupOk(gs[i], areas) {
      assert TxFits(e.StageTxs()[i], areas, d);
    }
    assert forall i :: 0 <= i < |gs| ==> GroupsOf(e)[i] == gs[i];
  }

  // ------------------------------------------------------------------------------------------
  // Nothing written is a source
  // ------------------------------------------------------------------------------------------

  ghost predicate SparesSources(w: Disk, areas: Areas) {
    forall l :: l in w ==> !InSource(l.blk, areas)
  }

  lemma {:induction false} GroupCopiesApart(g: Group, areas: Areas)
    requires GroupFits(g, areas)
    ensures Apart(GroupCopies(g, areas), areas)
  {
    GroupCells(g.Tags(), g.base, g.stage);
  }

  lemma {:induction false} GroupSpares(d: Disk, g: Group, areas: Areas)
    requires GroupFits(g, areas)
    ensures SparesSources(Writes(d, GroupCopies(g, areas)), areas)
  {
    GroupCopiesApart(g, areas);
    WritesKeys(d, GroupCopies(g, areas));
  }

  /** What has been written so far does not change what a group copies. */
  lemma {:induction false} GroupReads(d: Disk, w: Disk, g: Group, areas: Areas)
    requires GroupFits(g, areas) && SparesSources(w, areas)
    ensures Writes(d + w, GroupCopies(g, areas)) == Writes(d, GroupCopies(g, areas))
  {
    GroupCopiesApart(g, areas);
    WritesAgree(d + w, d, GroupCopies(g, areas));
  }

  lemma {:induction false} EmptyGroup(d: Disk, g: Group, areas: Areas)
    requires GroupOk(g, areas) && g.tags == []
    ensures Writes(d, GroupCopies(g, areas)) == map[]
  {
    assert g.Tags() == [];
  }

  lemma {:induction false} StageSpares(d: Disk, txs: seq<StageTx>, areas: Areas)
    requires GroupsOk(StageGroups(txs), areas)
    requires forall i :: 0 <= i < |txs| ==> TxFits(txs[i], areas, d)
    ensures SparesSources(StageEffect(d, txs, areas), areas)
  {
    if txs != [] {
      var n := |txs| - 1;
      assert forall i :: 0 <= i < n ==> StageGroups(txs[..n])[i] == StageGroups(txs)[i];
      StageSpares(d, txs[..n], areas);
      GroupSpares(d, txs[n].ToGroup(), areas);
    }
  }

  // ------------------------------------------------------------------------------------------
  // The tag-by-tag checkpoint
  // ------------------------------------------------------------------------------------------

  method CheckpointStageTx(dev: Device, t: StageTx, areas: Areas, ghost d: Disk, ghost w: Disk)
    requires TxFits(t, areas, d) && SparesSources(w, areas) && dev.store == d + w
    modifies dev
    ensures dev.store == d + (w + Patch(t.inode) + Writes(d, GroupCopies(t.ToGroup(), areas)))
  {
    CheckpointInode(dev, t.inode);
    ghost var w1 := w + Patch(t.inode);
    MergeAssoc(d, w, Patch(t.inode));
    if t.descTags == [] {
      EmptyGroup(d, t.ToGroup(), areas);
      assert w1 + map[] == w1;
    } else {
      CopyGroup(dev, t.ToGroup(), areas);
      GroupReads(d, w1, t.ToGroup(), areas);
      MergeAssoc(d, w1, Writes(d, GroupCopies(t.ToGroup(), areas)));
    }
  }

  /** The tags of the journal transaction itself. */
  method CheckpointOwnTags(dev: Device, e: Entry, areas: Areas, ghost d: Disk, ghost w: Disk)
    requires e.Ok() && GroupFits(e.ToGroup(), areas) && SparesSources(w, areas) && dev.store == d + w
    modifies dev
    ensures dev.store == d + (w + Writes(d, GroupCopies(e.ToGroup(), areas)))
  {
    if e.descTags == [] {
      EmptyGroup(d, e.ToGroup(), areas);
      assert w + map[] == w;
    } else {
      CopyGroup(dev, e.ToGroup(), areas);
      GroupReads(d, w, e.ToGroup(), areas);
      MergeAssoc(d, w, Writes(d, GroupCopies(e.ToGroup(), areas)));
    }
  }

  /** One more stage transaction. */
  method CheckpointNextStage(dev: Device, txs: seq<StageTx>, areas: Areas, i: nat, ghost d: Disk)
    requires i < |txs| && GroupsOk(StageGroups(txs), areas) && forall k :: 0 <= k < |txs| ==> TxFits(txs[k], areas, d)
    requires GroupsOk(StageGroups(txs[..i]), areas) && dev.store == d + StageEffect(d, txs[..i], areas)
    modifies dev
    ensures GroupsOk(StageGroups(txs[..i + 1]), areas) && dev.store == d + StageEffect(d, txs[..i + 1], areas)
  {
    assert TxFits(txs[i], areas, d);
    StageSpares(d, txs[..i], areas);
    CheckpointStageTx(dev, txs[i], areas, d, StageEffect(d, txs[..i], areas));
    StageEffectAppend(d, txs, areas, i);
  }

  method CheckpointStages(dev: Device, txs: seq<StageTx>, areas: Areas)
    requires GroupsOk(StageGroups(txs), areas) && forall k :: 0 <= k < |txs| ==> TxFits(txs[k], areas, dev.store)
    modifies dev
    ensures dev.store == old(dev.store) + StageEffect(old(dev.store), txs, areas)
  {
    assert dev.store + map[] == dev.store;
    for i := 0 to |txs|
      invariant GroupsOk(StageGroups(txs[..i]), areas)
      invariant dev.store == old(dev.store) + StageEffect(old(dev.store), txs[..i], areas)
    {
      CheckpointNextStage(dev, txs, areas, i, old(dev.store));
    }
    assert txs[..|txs|] == txs;
  }

  /** do_checkpoint: stage transactions in order, then the journal's own tags. */
  method CheckpointByTag(dev: Device, e: Entry, areas: Areas)
    requires EntryFits(e, areas, dev.store)
    requires GroupsOk(StageGroups(e.StageTxs()), areas) && GroupOk(e.ToGroup(), areas)
    modifies dev
    ensures dev.store == old(dev.store) + Effect(old(dev.store), e, areas)
  {
    ghost var d := dev.store;
    CheckpointStages(dev, e.StageTxs(), areas);
    StageSpares(d, e.StageTxs(), areas);
    CheckpointOwnTags(dev, e, areas, d, StageEffect(d, e.StageTxs(), areas));
  }

  lemma {:induction false} StageEffectAppend(d: Disk, txs: seq<StageTx>, areas: Areas, i: nat)
    requires i < |txs| && GroupsOk(StageGroups(txs), areas)
    ensures GroupsOk(StageGroups(txs[..i]), areas) && GroupsOk(StageGroups(txs[..i + 1]), areas)
    ensures GroupOk(txs[i].ToGroup(), areas)
    ensures StageEffect(d, txs[..i + 1], areas)
         == StageEffect(d, txs[..i], areas) + Patch(txs[i].inode) + Writes(d, GroupCopies(txs[i].ToGroup(), areas))
  {
    PrefixGroupsOk(txs, areas, i);
    PrefixGroupsOk(txs, areas, i + 1);
    assert StageGroups(txs)[i] == txs[i].ToGroup();
    assert txs[..i + 1][..i] == txs[..i];
  }

  lemma {:induction false} PrefixGroupsOk(txs: seq<StageTx>, areas: Areas, i: nat)
    requires i <= |txs| && GroupsOk(StageGroups(txs), areas)
    ensures GroupsOk(StageGroups(txs[..i]), areas)
  {
    var all, front := StageGroups(txs), StageGroups(txs[..i]);
    forall k | 0 <= k < i ensures GroupOk(front[k], areas) {
      assert front[k] == all[k];
    }
  }

  // ------------------------------------------------------------------------------------------
  // Overlaying all inodes first
  // ------------------------------------------------------------------------------------------

  function Patches(txs: seq<StageTx>): Disk {
    if txs == [] then map[] else Patches(txs[..|txs| - 1]) + Patch(txs[|txs| - 1].inode)
  }

  const NO_INODE := InodeUpdate(0, 0, [])

  function StageSteps(txs: seq<StageTx>): (r: seq<Step>)
    ensures |r| == |txs|
  {
    seq(|txs|, i requires 0 <= i < |txs| => Step(txs[i].inode, txs[i].ToGroup()))
  }

  /** The stage transactions, and then the journal's own tags, which come without an inode. */
  function StepsOf(e: Entry): seq<Step> {
    StageSteps(e.StageTxs()) + [Step(NO_INODE, e.ToGroup())]
  }

  lemma {:induction false} StepsAreGroups(txs: seq<StageTx>)
    ensures GroupsIn(StageSteps(txs)) == StageGroups(txs)
    ensures txs != [] ==> var n := |txs| - 1; StageSteps(txs) == StageSteps(txs[..n]) + [Step(txs[n].inode, txs[n].ToGroup())]
  {
  }

  lemma {:induction false} StageInOrder(d: Disk, txs: seq<StageTx>, areas: Areas)
    requires GroupsOk(StageGroups(txs), areas)
    ensures StepsOk(StageSteps(txs), areas) && InOrder(d, StageSteps(txs), areas) == StageEffect(d, txs, areas)
    ensures PatchesIn(StageSteps(txs)) == Patches(txs)
  {
    StepsAreGroups(txs);
    if txs != [] {
      var n := |txs| - 1;
      StageEffectAppend(d, txs, areas, n);
      StageInOrder(d, txs[..n], areas);
      InOrderAppend(d, StageSteps(txs[..n]), Step(txs[n].inode, txs[n].ToGroup()), areas);
      assert txs[..n + 1] == txs;
    }
  }

  lemma {:induction false} NoPatch(w: Disk)
    ensures w + Patch(NO_INODE) == w
  {
    assert Patch(NO_INODE) == map[];
  }

  lemma {:induction false} EntryInOrder(d: Disk, e: Entry, areas: Areas)
    requires GroupsOk(StageGroups(e.StageTxs()), areas) && GroupOk(e.ToGroup(), areas)
    ensures GroupsIn(StepsOf(e)) == GroupsOf(e) && StepsOk(StepsOf(e), areas)
    ensures InOrder(d, StepsOf(e), areas) == Effect(d, e, areas)
    ensures PatchesIn(StepsOf(e)) == Patches(e.StageTxs())
  {
    var txs, step := e.StageTxs(), Step(NO_INODE, e.ToGroup());
    StepsAreGroups(txs);
    StageInOrder(d, txs, areas);
    GroupsAppend(StageSteps(txs), step, areas);
    InOrderAppend(d, StageSteps(txs), step, areas);
    NoPatch(StageEffect(d, txs, areas));
    NoPatch(Patches(txs));
  }

  /** The coalescing order: inodes, then the plan that keeps only the last writer of every block. */
  ghost function CoalescedPlan(e: Entry, areas: Areas): seq<Copy>
    requires areas.Ok() && Based(Masked(Flat(ListOf(GroupsOf(e)))), areas)
  {
    Plan(Masked(Flat(ListOf(GroupsOf(e)))), areas)
  }

  /** Neighbouring groups begin at different addresses, and the order of the inodes does not matter. */
  ghost predicate Coalescible(e: Entry) {
    Separated(GroupsOf(e)) && Recopied(StepsOf(e))
  }

  /** The masked plan comes to all copies. */
  lemma {:induction false} PlanWrites(d: Disk, groups: seq<Group>, areas: Areas)
    requires GroupsOk(groups, areas) && Separated(groups)
    ensures Based(Flat(ListOf(groups)), areas) && Based(Masked(Flat(ListOf(groups))), areas)
    ensures Writes(d, Plan(Masked(Flat(ListOf(groups))), areas)) == Writes(d, AllCopies(groups, areas))
  {
    ListCells(groups, areas);
    MaskedPreservesEffect(d, Flat(ListOf(groups)), areas);
    PlanIsAllCopies(groups, areas);
  }

  /** Inodes and the masked plan are the inodes and all copies. */
  lemma {:induction false} PlanIsHoisted(d: Disk, e: Entry, areas: Areas)
    requires GroupsOk(StageGroups(e.StageTxs()), areas) && GroupOk(e.ToGroup(), areas) && Separated(GroupsOf(e))
    ensures GroupsOk(GroupsOf(e), areas) && StepsOk(StepsOf(e), areas)
    ensures Based(Flat(ListOf(GroupsOf(e))), areas) && Based(Masked(Flat(ListOf(GroupsOf(e)))), areas)
    ensures Patches(e.StageTxs()) + Writes(d, CoalescedPlan(e, areas)) == Hoisted(d, StepsOf(e), areas)
  {
    EntryInOrder(d, e, areas);
    PlanWrites(d, GroupsOf(e), areas);
  }

  ghost predicate InodesFitIn(e: Entry) {
    forall i :: 0 <= i < |e.StageTxs()| ==> e.StageTxs()[i].inode.Fits()
  }

  lemma {:induction false} StepsFit(e: Entry)
    requires InodesFitIn(e)
    ensures InodesFit(StepsOf(e))
  {
    forall j | 0 <= j < |StepsOf(e)| ensures StepsOf(e)[j].inode.Fits() {
      assert j < |e.StageTxs()| ==> StepsOf(e)[j].inode == e.StageTxs()[j].inode;
    }
  }

  lemma {:induction false} CoalescedEffect(d: Disk, e: Entry, areas: Areas)
    requires EntryFits(e, areas, d) && Coalescible(e)
    requires GroupsOk(StageGroups(e.StageTxs()), areas) && GroupOk(e.ToGroup(), areas)
    ensures Based(Flat(ListOf(GroupsOf(e))), areas) && Based(Masked(Flat(ListOf(GroupsOf(e)))), areas)
    ensures Patches(e.StageTxs()) + Writes(d, CoalescedPlan(e, areas)) == Effect(d, e, areas)
  {
    forall i | 0 <= i < |e.StageTxs()| ensures e.StageTxs()[i].inode.Fits() {
      assert TxFits(e.StageTxs()[i], areas, d);
    }
    StepsFit(e);
    PlanIsHoisted(d, e, areas);
    EntryInOrder(d, e, areas);
    HoistAgrees(d, StepsOf(e), areas);
  }

  /** The coalescing order has the effect of the tag-by-tag order on every disk if and only if every
      block copied onto before an inode is overlaid in it is copied onto again afterwards, by a stage
      transaction or by the journal's own tags. */
  lemma {:induction false} CoalesceExact(e: Entry, areas: Areas)
    requires GroupsOk(StageGroups(e.StageTxs()), areas) && GroupOk(e.ToGroup(), areas)
    requires Separated(GroupsOf(e)) && InodesFitIn(e)
    ensures Based(Masked(Flat(ListOf(GroupsOf(e)))), areas)
    ensures (forall d: Disk :: Patches(e.StageTxs()) + Writes(d, CoalescedPlan(e, areas)) == Effect(d, e, areas))
            <==> Recopied(StepsOf(e))
  {
    StepsFit(e);
    PlanIsHoisted(map[], e, areas);
    HoistExact(StepsOf(e), areas);
    forall d: Disk
      ensures Patches(e.StageTxs()) + Writes(d, CoalescedPlan(e, areas)) == Hoisted(d, StepsOf(e), areas)
      ensures Effect(d, e, areas) == InOrder(d, StepsOf(e), areas)
    {
      PlanIsHoisted(d, e, areas);
      EntryInOrder(d, e, areas);
    }
  }

  // ------------------------------------------------------------------------------------------
  // do_checkpoint_coalesce
  // ------------------------------------------------------------------------------------------

  method AddTags(list: seq<Tag>, g: Group, blocks: nat, ghost done: seq<ETag>, tags: seq<ETag>) returns (r: seq<Tag>)
    requires |list| >= blocks && list[blocks..] == g.(tags := done).Tags()
    ensures |r| >= blocks && r[..blocks] == list[..blocks] && r[blocks..] == g.(tags := done + tags).Tags()
  {
    r := list;
    for m := 0 to |tags|
      invariant |r| >= blocks && r[..blocks] == list[..blocks]
      invariant r[blocks..] == g.(tags := done + tags[..m]).Tags()
    {
      ghost var before := r;
      r := r + [Tag(tags[m].start, tags[m].cnt, g.base, g.stage)];
      assert r[blocks..] == before[blocks..] + [Tag(tags[m].start, tags[m].cnt, g.base, g.stage)];
      assert done + tags[..m + 1] == done + tags[..m] + [tags[m]];
    }
    assert tags[..|tags|] == tags;
  }

  /** The tags of a descriptor block and of its tag blocks, added behind the list. */
  method AddGroup(list: seq<Tag>, base: int, stage: bool, descTags: seq<ETag>,
                  etagBlks: seq<seq<ETag>>) returns (r: seq<Tag>)
    ensures r == list + Group(base, stage, Joined(descTags, etagBlks)).Tags()
  {
    var g := Group(base, stage, []);
    assert list[|list|..] == g.(tags := []).Tags();
    r := AddTags(list, g, |list|, [], descTags);
    assert [] + descTags == descTags == Joined(descTags, etagBlks[..0]);
    for l := 0 to |etagBlks|
      invariant |r| >= |list| && r[..|list|] == list
      invariant r[|list|..] == g.(tags := Joined(descTags, etagBlks[..l])).Tags()
    {
      r := AddTags(r, g, |list|, Joined(descTags, etagBlks[..l]), etagBlks[l]);
      assert etagBlks[..l + 1][..l] == etagBlks[..l];
    }
    assert etagBlks[..|etagBlks|] == etagBlks;
    assert r == r[..|list|] + r[|list|..];
  }

  lemma {:induction false} ListOfAppend(groups: seq<Group>, g: Group)
    ensures ListOf(groups + [g]) == ListOf(groups) + g.Tags()
  {
    assert (groups + [g])[..|groups + [g]| - 1] == groups;
  }

  lemma {:induction false} PatchesAppend(txs: seq<StageTx>, t: StageTx)
    ensures Patches(txs + [t]) == Patches(txs) + Patch(t.inode)
    ensures StageGroups(txs + [t]) == StageGroups(txs) + [t.ToGroup()]
  {
    assert (txs + [t])[..|txs|] == txs;
  }

  /** The inodes of `txs` are on the device and their tags in the list. */
  ghost predicate Scanned(txs: seq<StageTx>, d: Disk, store: Disk, list: seq<Tag>) {
    store == d + Patches(txs) && list == ListOf(StageGroups(txs))
  }

  /** Pass 1 on one stage transaction. */
  method ScanStageTx(dev: Device, t: StageTx, list: seq<Tag>, ghost d: Disk,
                     ghost done: seq<StageTx>) returns (list': seq<Tag>)
    requires t.Ok() && BlockLocs(t.inode.blk) <= d.Keys && Scanned(done, d, dev.store, list)
    modifies dev
    ensures Scanned(done + [t], d, dev.store, list')
  {
    CheckpointInode(dev, t.inode);
    PatchesAppend(done, t);
    MergeAssoc(d, Patches(done), Patch(t.inode));
    ListOfAppend(StageGroups(done), t.ToGroup());
    if t.descTags == [] {
      assert list + t.ToGroup().Tags() == list;
      return list;
    }
    list' := AddGroup(list, t.start + |t.etagBlks| + 1, true, t.descTags, t.etagBlks);
  }

  method ScanTraceBlk(dev: Device, txs: seq<StageTx>, list: seq<Tag>, ghost d: Disk,
                      ghost done: seq<StageTx>) returns (list': seq<Tag>)
    requires forall i :: 0 <= i < |txs| ==> txs[i].Ok() && BlockLocs(txs[i].inode.blk) <= d.Keys
    requires Scanned(done, d, dev.store, list)
    modifies dev
    ensures Scanned(done + txs, d, dev.store, list')
  {
    list' := list;
    assert done + txs[..0] == done;
    for k := 0 to |txs|
      invariant Scanned(done + txs[..k], d, dev.store, list')
    {
      list' := ScanStageTx(dev, txs[k], list', d, done + txs[..k]);
      assert done + txs[..k + 1] == done + txs[..k] + [txs[k]];
    }
    assert txs[..|txs|] == txs;
  }

  lemma {:induction false} TracedPart(meta: seq<MetaBlock>, i: nat)
    requires i < |meta| && meta[i].StageTraceBlk?
    ensures forall t :: t in meta[i].txs ==> t in TracedIn(meta)
  {
    if i < |meta| - 1 {
      TracedPart(meta[..|meta| - 1], i);
    }
  }

  lemma {:induction false} TracedNext(meta: seq<MetaBlock>, i: nat)
    requires i < |meta|
    ensures TracedIn(meta[..i + 1]) == if meta[i].StageTraceBlk? then TracedIn(meta[..i]) + meta[i].txs else TracedIn(meta[..i])
  {
    assert meta[..i + 1][..i] == meta[..i];
  }

  /** Pass 1: overlay the inode of every stage transaction and collect the stage transactions' tags. */
  method ScanStages(dev: Device, e: Entry) returns (list: seq<Tag>)
    requires e.Ok() && forall t :: t in e.StageTxs() ==> BlockLocs(t.inode.blk) <= dev.store.Keys
    modifies dev
    ensures true == Scanned(e.StageTxs(), old(dev.store), dev.store, list)
  {
    list := [];
    assert dev.store + map[] == dev.store;
    for i := 0 to |e.meta|
      invariant true == Scanned(TracedIn(e.meta[..i]), old(dev.store), dev.store, list)
    {
      TracedNext(e.meta, i);
      if e.meta[i].StageTraceBlk? {
        TracedPart(e.meta, i);
        list := ScanTraceBlk(dev, e.meta[i].txs, list, old(dev.store), TracedIn(e.meta[..i]));
      }
    }
    assert e.meta[..|e.meta|] == e.meta;
  }

  /** Pass 2: the tags of the journal transaction itself, behind the others. */
  method ScanJournal(e: Entry, tags: seq<Tag>) returns (list: seq<Tag>)
    requires e.Ok() && tags == ListOf(StageGroups(e.StageTxs()))
    ensures list == ListOf(GroupsOf(e))
  {
    ListOfAppend(StageGroups(e.StageTxs()), e.ToGroup());
    if e.descTags == [] {
      list := tags;
      assert tags + e.ToGroup().Tags() == tags;
    } else {
      list := AddGroup(tags, e.start + 1, false, e.descTags, TagBlocksIn(e.meta));
    }
  }

  function KindsOf(groups: seq<Group>): set<(int, bool)> {
    set i | 0 <= i < |groups| :: (groups[i].base, groups[i].stage)
  }

  lemma {:induction false} ListKinds(groups: seq<Group>, kinds: set<(int, bool)>)
    requires KindsOf(groups) <= kinds
    ensures Within(ListOf(groups), kinds)
  {
    if groups != [] {
      var n := |groups| - 1;
      forall k | k in KindsOf(groups[..n]) ensures k in kinds {
        var i :| 0 <= i < n && k == (groups[..n][i].base, groups[..n][i].stage);
        assert k == (groups[i].base, groups[i].stage) && k in KindsOf(groups);
      }
      ListKinds(groups[..n], kinds);
      assert (groups[n].base, groups[n].stage) in KindsOf(groups);
    }
  }

  /** A base address tells the stage area from the journal. */
  lemma {:induction false} KindsUnambiguous(e: Entry, areas: Areas, d: Disk)
    requires EntryFits(e, areas, d)
    ensures Unambiguous(KindsOf(GroupsOf(e)))
    ensures forall x :: x in KindsOf(GroupsOf(e)) ==> x.0 >= 0
  {
    GroupsFit(e, areas, d);
  }

  lemma {:induction false} FlatKinds(tags: seq<Tag>, kinds: set<(int, bool)>)
    requires Within(tags, kinds)
    ensures forall k :: 0 <= k < |Flat(tags)| ==> (Flat(tags)[k].base, Flat(tags)[k].stage) in kinds
  {
    if tags != [] {
      FlatKinds(tags[1..], kinds);
    }
  }

  lemma {:induction false} ListOutside(groups: seq<Group>, areas: Areas)
    requires forall i :: 0 <= i < |groups| ==> GroupFits(groups[i], areas)
    ensures Outside(Flat(ListOf(groups)), areas)
  {
    if groups != [] {
      ListOutside(groups[..|groups| - 1], areas);
      FlatGroups(groups);
    }
  }

  lemma {:induction false} GroupsFit(e: Entry, areas: Areas, d: Disk)
    requires EntryFits(e, areas, d)
    ensures forall i :: 0 <= i < |GroupsOf(e)| ==> GroupFits(GroupsOf(e)[i], areas)
  {
    var groups := GroupsOf(e);
    forall i | 0 <= i < |groups| ensures GroupFits(groups[i], areas) {
      if i < |groups| - 1 {
        assert groups[i] == e.StageTxs()[i].ToGroup();
        assert TxFits(e.StageTxs()[i], areas, d);
      }
    }
  }

  lemma {:induction false} CoherentCells(s: seq<Cell>, kinds: set<(int, bool)>)
    requires Unambiguous(kinds) && forall k :: 0 <= k < |s| ==> (s[k].base, s[k].stage) in kinds
    ensures Coherent(s)
  {
  }

  lemma {:induction false} MaskedReady(s: seq<Cell>, areas: Areas)
    requires Based(s, areas) && Coherent(s) && Outside(s, areas)
    ensures Based(Masked(s), areas) && Coherent(Masked(s)) && Outside(Masked(s), areas)
  {
  }

  /** The expanded tag list is fit for pass 5. */
  lemma {:induction false} ListReady(e: Entry, areas: Areas, d: Disk)
    requires EntryFits(e, areas, d)
    ensures var s := Masked(Flat(ListOf(GroupsOf(e)))); Based(s, areas) && Coherent(s) && Outside(s, areas)
    ensures AllValid(ListOf(GroupsOf(e))) && Within(ListOf(GroupsOf(e)), KindsOf(GroupsOf(e)))
  {
    var groups := GroupsOf(e);
    FitsGroups(e, areas, d);
    ListCells(groups, areas);
    ListKinds(groups, KindsOf(groups));
    KindsUnambiguous(e, areas, d);
    FlatKinds(ListOf(groups), KindsOf(groups));
    CoherentCells(Flat(ListOf(groups)), KindsOf(groups));
    GroupsFit(e, areas, d);
    ListOutside(groups, areas);
    MaskedReady(Flat(ListOf(groups)), areas);
  }

  lemma {:induction false} PatchesSpare(txs: seq<StageTx>, areas: Areas)
    requires forall i :: 0 <= i < |txs| ==> !InSource(txs[i].inode.blk, areas)
    ensures SparesSources(Patches(txs), areas)
  {
    if txs != [] {
      PatchesSpare(txs[..|txs| - 1], areas);
    }
  }

  lemma {:induction false} PlanReads(d: Disk, w: Disk, s: seq<Cell>, areas: Areas)
    requires areas.Ok() && Based(s, areas) && Outside(s, areas) && SparesSources(w, areas)
    ensures Writes(d + w, Plan(s, areas)) == Writes(d, Plan(s, areas))
  {
    PlanApart(s, areas, |s|);
    WritesAgree(d + w, d, Plan(s, areas));
  }

  /** do_checkpoint_coalesce has the effect of the tag-by-tag checkpoint. */
  method CheckpointCoalesced(dev: Device, e: Entry, areas: Areas, maxBuf: int)
    requires EntryFits(e, areas, dev.store) && Coalescible(e)
    requires GroupsOk(StageGroups(e.StageTxs()), areas) && GroupOk(e.ToGroup(), areas)
    modifies dev
    ensures dev.store == old(dev.store) + Effect(old(dev.store), e, areas)
  {
    ghost var d, kinds := dev.store, KindsOf(GroupsOf(e));
    ghost var s := Masked(Flat(ListOf(GroupsOf(e))));
    ListReady(e, areas, d);
    KindsUnambiguous(e, areas, d);
    forall t | t in e.StageTxs() ensures BlockLocs(t.inode.blk) <= d.Keys {
      var i :| 0 <= i < |e.StageTxs()| && e.StageTxs()[i] == t;
      assert TxFits(e.StageTxs()[i], areas, d);
    }
    var list := ScanStages(dev, e);
    list := ScanJournal(e, list);
    var optimized := Optimize(list, kinds);
    forall i | 0 <= i < |optimized| ensures optimized[i].base >= 0 {
      assert (optimized[i].base, optimized[i].stage) in kinds;
    }
    var coalesced := Coalesce(optimized, kinds);
    CheckpointTags(dev, coalesced, areas, maxBuf);
    ghost var p := Patches(e.StageTxs());
    forall i | 0 <= i < |e.StageTxs()| ensures !InSource(e.StageTxs()[i].inode.blk, areas) {
      assert TxFits(e.StageTxs()[i], areas, d);
    }
    PatchesSpare(e.StageTxs(), areas);
    PlanReads(d, p, s, areas);
    CoalescedEffect(d, e, areas);
    MergeAssoc(d, p, Writes(d, Plan(s, areas)));
  }
}
