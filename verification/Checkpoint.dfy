/** Checkpointing one committed transaction: the coalescing form against the tag-by-tag form. */
module Checkpoint {
  import opened TagList
  import opened BlockDevice
  import opened SourcePlan
  import opened Cyclic
  import opened Pass5

  // ------------------------------------------------------------------------------------------
  // What a transaction says
  // ------------------------------------------------------------------------------------------

  /** etag_t: an extent of the file system area. */
  datatype ETag = ETag(start: nat, cnt: nat)

  /** The inode carried by a stage descriptor block: inode_baddr, inode_index, and the inode_size
      bytes of the inode. */
  datatype InodeUpdate = InodeUpdate(blk: int, index: nat, bytes: seq<int>) {
    function Offset(): nat {
      index * |bytes|
    }

    predicate Fits() {
      Offset() + |bytes| <= BLOCK_SIZE
    }
  }

  /** | desc_blk | etag_blks ... | data_blks ... | commit_blk | in the stage area. */
  datatype StageTx = StageTx(start: int, inode: InodeUpdate, descTags: seq<ETag>, etagBlks: seq<seq<ETag>>) {
    /** A descriptor without tags means "only the inode"; then there are no tag blocks either. */
    predicate Ok() {
      inode.Fits() && (descTags == [] ==> etagBlks == [])
    }

    function ToGroup(): Group {
      Group(start + |etagBlks| + 1, true, Joined(descTags, etagBlks))
    }
  }

  datatype MetaBlock = EtagBlk(tags: seq<ETag>) | StageTraceBlk(txs: seq<StageTx>)

  /** A checkpoint list entry: where the transaction begins in its log, the tags of its descriptor
      block, and its metadata blocks. */
  datatype Entry = Entry(start: int, descTags: seq<ETag>, meta: seq<MetaBlock>) {
    function StageTxs(): seq<StageTx> {
      TracedIn(meta)
    }

    function ToGroup(): Group {
      Group(start + 1, false, Joined(descTags, TagBlocksIn(meta)))
    }

    /** "No tags in this transaction" excludes tag blocks as well. */
    predicate Ok() {
      (descTags == [] ==> TagBlocksIn(meta) == []) && forall t :: t in StageTxs() ==> t.Ok()
    }
  }

  function Joined(first: seq<ETag>, blocks: seq<seq<ETag>>): seq<ETag> {
    if blocks == [] then first else Joined(first, blocks[..|blocks| - 1]) + blocks[|blocks| - 1]
  }

  function TracedIn(meta: seq<MetaBlock>): seq<StageTx> {
    if meta == [] then []
    else TracedIn(meta[..|meta| - 1])
         + match meta[|meta| - 1] case EtagBlk(_) => [] case StageTraceBlk(txs) => txs
  }

  function TagBlocksIn(meta: seq<MetaBlock>): seq<seq<ETag>> {
    if meta == [] then []
    else TagBlocksIn(meta[..|meta| - 1])
         + match meta[|meta| - 1] case EtagBlk(tags) => [tags] case StageTraceBlk(_) => []
  }

  /** The tags of one stage transaction or of the journal: their data blocks lie one behind the other
      from `base`. */
  datatype Group = Group(base: int, stage: bool, tags: seq<ETag>) {
    function Tags(): seq<Tag> {
      seq(|tags|, i requires 0 <= i < |tags| => Tag(tags[i].start, tags[i].cnt, base, stage))
    }

    function ToCells(): seq<Cell> {
      Flat(Tags())
    }
  }

  // ------------------------------------------------------------------------------------------
  // The tag-by-tag form
  // ------------------------------------------------------------------------------------------

  ghost predicate GroupOk(g: Group, areas: Areas) {
    areas.Ok() && g.base >= 0 && areas.Of(g.stage).Holds(g.base)
  }

  /** Block k of the group goes where cell k says. */
  function CopiesTo(g: Group, areas: Areas, n: nat): (r: seq<Copy>)
    requires areas.Ok() && areas.Of(g.stage).Holds(g.base) && n <= |g.ToCells()|
    ensures |r| == n
  {
    seq(n, k requires 0 <= k < n => Copy(g.ToCells()[k].dst, areas.Of(g.stage).At(g.base, k)))
  }

  function GroupCopies(g: Group, areas: Areas): seq<Copy>
    requires areas.Ok() && areas.Of(g.stage).Holds(g.base)
  {
    CopiesTo(g, areas, |g.ToCells()|)
  }

  lemma {:induction false} GroupCells(tags: seq<Tag>, base: int, stage: bool)
    requires forall i :: 0 <= i < |tags| ==> tags[i].start >= 0 && tags[i].base == base && tags[i].stage == stage
    ensures forall k :: 0 <= k < |Flat(tags)|
              ==> Flat(tags)[k].dst >= 0 && Flat(tags)[k].base == base && Flat(tags)[k].stage == stage
  {
    if tags != [] {
      GroupCells(tags[1..], base, stage);
    }
  }

  /** Cells off .. off + n go to consecutive blocks. */
  ghost predicate Consecutive(s: seq<Cell>, off: nat, n: nat, dst: int) {
    off + n <= |s| && forall j :: off <= j < off + n ==> s[j].dst == dst + (j - off)
  }

  lemma {:induction false} CellsOfTag(g: Group, i: nat)
    requires i < |g.tags|
    ensures |Flat(g.Tags()[..i])| + g.tags[i].cnt == |Flat(g.Tags()[..i + 1])| <= |g.ToCells()|
    ensures Consecutive(g.ToCells(), |Flat(g.Tags()[..i])|, g.tags[i].cnt, g.tags[i].start)
  {
    var ts := g.Tags();
    assert ts[..i + 1] == ts[..i] + [ts[i]];
    FlatConcat(ts[..i], [ts[i]]);
    FlatOne(ts[i]);
    assert ts == ts[..i + 1] + ts[i + 1..];
    FlatConcat(ts[..i + 1], ts[i + 1..]);
    var cells, off := g.ToCells(), |Flat(ts[..i])|;
    forall j | off <= j < off + g.tags[i].cnt
      ensures cells[j].dst == g.tags[i].start + (j - off)
    {
      NodeCells(ts, i, j - off);
    }
  }

  /** A stretch of the group that does not turn is one extent. */
  lemma {:induction false} ExtentOfGroup(g: Group, areas: Areas, off: nat, e: Extent)
    requires GroupOk(g, areas) && off + e.cnt <= |g.ToCells()|
    requires Stands(areas.Of(g.stage), e.src, g.base - areas.Of(g.stage).first + off)
    requires e.src + e.cnt <= areas.Of(g.stage).last + 1
    requires Consecutive(g.ToCells(), off, e.cnt, e.dst)
    ensures CopiesTo(g, areas, off + e.cnt) == CopiesTo(g, areas, off) + Copies(e)
  {
    var all, own := CopiesTo(g, areas, off + e.cnt), Copies(e);
    forall j | off <= j < off + e.cnt
      ensures all[j] == own[j - off]
    {
      StandsRead(areas.Of(g.stage), e.src, g.base - areas.Of(g.stage).first + off, j - off);
    }
  }

  /** The tag loop of checkpoint_stage_tx and of do_checkpoint: the running source address is split at
      the end of the area; all reads of the group come before its writes. */
  method CopyGroup(dev: Device, g: Group, areas: Areas)
    requires GroupOk(g, areas)
    requires forall i :: 0 <= i < |g.tags| ==> g.tags[i].cnt <= areas.Of(g.stage).Size()
    modifies dev
    ensures dev.store == old(dev.store) + Writes(old(dev.store), GroupCopies(g, areas))
  {
    var src := g.base;
    var bios: seq<Extent> := [];
    StandsAtBase(areas.Of(g.stage), g.base);
    assert g.Tags()[..0] == [];
    for i := 0 to |g.tags|
      invariant true == Copying(g, areas, i, src, bios) && dev.store == old(dev.store)
    {
      bios, src := CopyTag(g, areas, i, src, bios);
    }
    assert g.Tags()[..|g.tags|] == g.Tags();
    assert CopiesOf(bios) == GroupCopies(g, areas);
    dev.Dispatch(CopiesOf(bios));
  }

  /** The bios cover the first `off` blocks of the group, and the source address stands behind them. */
  ghost predicate Copied(g: Group, areas: Areas, off: nat, src: int, bios: seq<Extent>)
    requires GroupOk(g, areas)
  {
    && off <= |g.ToCells()|
    && Stands(areas.Of(g.stage), src, g.base - areas.Of(g.stage).first + off)
    && CopiesOf(bios) == CopiesTo(g, areas, off)
  }

  ghost predicate Copying(g: Group, areas: Areas, i: nat, src: int, bios: seq<Extent>)
    requires GroupOk(g, areas)
  {
    i <= |g.tags| && Copied(g, areas, |Flat(g.Tags()[..i])|, src, bios)
  }

  lemma {:induction false} CopiedMore(g: Group, areas: Areas, off: nat, bios: seq<Extent>, e: Extent)
    requires GroupOk(g, areas) && Copied(g, areas, off, e.src, bios)
    requires e.src + e.cnt <= areas.Of(g.stage).last + 1 && Consecutive(g.ToCells(), off, e.cnt, e.dst)
    ensures true == Copied(g, areas, off + e.cnt, e.src + e.cnt, bios + [e])
    ensures e.src + e.cnt == areas.Of(g.stage).last + 1
        ==> true == Copied(g, areas, off + e.cnt, areas.Of(g.stage).first, bios + [e])
  {
    StandsAdvance(areas.Of(g.stage), e.src, g.base - areas.Of(g.stage).first + off, e.cnt);
    ExtentOfGroup(g, areas, off, e);
    CopiesOfAppend(bios, e);
  }

  /** The two bios of a tag that turns. */
  lemma {:induction false} CopiedTwice(g: Group, areas: Areas, off: nat, bios: seq<Extent>, e1: Extent, e2: Extent)
    requires GroupOk(g, areas) && Copied(g, areas, off, e1.src, bios)
    requires e1.src + e1.cnt == areas.Of(g.stage).last + 1
    requires e2.src == areas.Of(g.stage).first && e2.cnt <= areas.Of(g.stage).Size() && e2.dst == e1.dst + e1.cnt
    requires Consecutive(g.ToCells(), off, e1.cnt + e2.cnt, e1.dst)
    ensures true == Copied(g, areas, off + e1.cnt + e2.cnt, e2.src + e2.cnt, bios + [e1] + [e2])
  {
    CopiedMore(g, areas, off, bios, e1);
    CopiedMore(g, areas, off + e1.cnt, bios + [e1], e2);
  }

  method CopyTag(g: Group, areas: Areas, i: nat, src: int, bios: seq<Extent>)
    returns (bios': seq<Extent>, src': int)
    requires GroupOk(g, areas) && i < |g.tags| && g.tags[i].cnt <= areas.Of(g.stage).Size()
    requires Copying(g, areas, i, src, bios)
    ensures true == Copying(g, areas, i + 1, src', bios')
  {
    CellsOfTag(g, i);
    bios', src' := SplitTag(g, areas, g.tags[i], src, bios, |Flat(g.Tags()[..i])|);
  }

  /** The bios of a tag whose blocks begin at `src`, with the source's 32-bit length of the first. */
  function TagExtents(area: Area, src: int, tag: ETag): seq<Extent> {
    if WrapsAround(src, tag.cnt, area.last) then
      var n := BeforeEnd(area, src);
      [Extent(tag.start, src, n), Extent(tag.start + n, area.first, (tag.cnt - n) % U32)]
    else [Extent(tag.start, src, tag.cnt)]
  }

  method SplitTag(g: Group, areas: Areas, tag: ETag, src: int, bios: seq<Extent>, ghost off: nat)
    returns (bios': seq<Extent>, src': int)
    requires GroupOk(g, areas) && tag.cnt <= areas.Of(g.stage).Size()
    requires Consecutive(g.ToCells(), off, tag.cnt, tag.start)
    requires true == Copied(g, areas, off, src, bios) && src <= areas.Of(g.stage).last + 1
    ensures true == Copied(g, areas, off + tag.cnt, src', bios')
    ensures areas.Of(g.stage).Size() < U32 && areas.Of(g.stage).first <= src
        ==> bios' == bios + TagExtents(areas.Of(g.stage), src, tag)
  {
    var area := areas.Of(g.stage);
    if WrapsAround(src, tag.cnt, area.last) {
      var e1 := Extent(tag.start, src, area.last - src + 1);
      var e2 := Extent(tag.start + e1.cnt, area.first, tag.cnt - e1.cnt);
      CopiedTwice(g, areas, off, bios, e1, e2);
      bios', src' := bios + [e1] + [e2], area.first + e2.cnt;
    } else {
      var e := Extent(tag.start, src, tag.cnt);
      CopiedMore(g, areas, off, bios, e);
      bios', src' := bios + [e], src + tag.cnt;
    }
  }

  // ------------------------------------------------------------------------------------------
  // The plan of a whole tag list is the copies of its groups
  // ------------------------------------------------------------------------------------------

  function ListOf(groups: seq<Group>): seq<Tag> {
    if groups == [] then [] else ListOf(groups[..|groups| - 1]) + groups[|groups| - 1].Tags()
  }

  ghost predicate GroupsOk(groups: seq<Group>, areas: Areas) {
    areas.Ok() && forall i :: 0 <= i < |groups| ==> GroupOk(groups[i], areas)
  }

  /** A group has another base than the last non-empty group before it. */
  ghost predicate Separated(groups: seq<Group>) {
    groups != [] ==>
      && Separated(groups[..|groups| - 1])
      && var before, g := Flat(ListOf(groups[..|groups| - 1])), groups[|groups| - 1];
         before != [] && g.ToCells() != [] ==> before[|before| - 1].base != g.base
  }

  function AllCopies(groups: seq<Group>, areas: Areas): seq<Copy>
    requires GroupsOk(groups, areas)
  {
    if groups == [] then []
    else AllCopies(groups[..|groups| - 1], areas) + GroupCopies(groups[|groups| - 1], areas)
  }

  lemma {:induction false} FlatGroups(groups: seq<Group>)
    requires groups != []
    ensures Flat(ListOf(groups)) == Flat(ListOf(groups[..|groups| - 1])) + groups[|groups| - 1].ToCells()
  {
    FlatConcat(ListOf(groups[..|groups| - 1]), groups[|groups| - 1].Tags());
  }

  lemma {:induction false} ListCells(groups: seq<Group>, areas: Areas)
    requires GroupsOk(groups, areas)
    ensures Based(Flat(ListOf(groups)), areas)
    ensures AllValid(ListOf(groups))
    ensures forall k :: 0 <= k < |Flat(ListOf(groups))| ==> Flat(ListOf(groups))[k].dst >= 0
  {
    if groups != [] {
      var n := |groups| - 1;
      ListCells(groups[..n], areas);
      FlatGroups(groups);
      GroupCells(groups[n].Tags(), groups[n].base, groups[n].stage);
      assert GroupOk(groups[n], areas);
    }
  }

  lemma {:induction false} RunStartPrefix(s: seq<Cell>, t: seq<Cell>, k: int)
    requires 0 <= k < |s|
    ensures RunStart(s + t, k) == RunStart(s, k)
    decreases k
  {
    if k > 0 {
      RunStartPrefix(s, t, k - 1);
    }
  }

  lemma {:induction false} PlanPrefix(s: seq<Cell>, t: seq<Cell>, areas: Areas, p: nat)
    requires areas.Ok() && Based(s + t, areas) && Based(s, areas) && p <= |s|
    ensures PlanTo(s + t, areas, p) == PlanTo(s, areas, p)
  {
    if p > 0 {
      PlanPrefix(s, t, areas, p - 1);
      RunStartPrefix(s, t, p - 1);
    }
  }

  lemma {:induction false} RunStartInGroup(s: seq<Cell>, t: seq<Cell>, k: nat)
    requires k < |t| && (s != [] ==> s[|s| - 1].base != t[0].base)
    requires forall i :: 0 <= i < |t| ==> t[i].base == t[0].base
    ensures RunStart(s + t, |s| + k) == |s|
  {
    if k > 0 {
      RunStartInGroup(s, t, k - 1);
    }
  }

  lemma {:induction false} PlanOfGroup(s: seq<Cell>, g: Group, areas: Areas, all: seq<Cell>, k: nat)
    requires GroupOk(g, areas) && Based(s, areas) && all == s + g.ToCells() && Based(all, areas) && k <= |g.ToCells()|
    requires s != [] && g.ToCells() != [] ==> s[|s| - 1].base != g.base
    ensures PlanTo(all, areas, |s| + k) == Plan(s, areas) + CopiesTo(g, areas, k)
  {
    if k == 0 {
      PlanPrefix(s, g.ToCells(), areas, |s|);
    } else {
      PlanOfGroup(s, g, areas, all, k - 1);
      PlanOfNext(s, g, areas, all, k - 1);
    }
  }

  lemma {:induction false} PlanOfNext(s: seq<Cell>, g: Group, areas: Areas, all: seq<Cell>, k: nat)
    requires GroupOk(g, areas) && Based(s, areas) && all == s + g.ToCells() && Based(all, areas) && k < |g.ToCells()|
    requires s != [] ==> s[|s| - 1].base != g.base
    requires PlanTo(all, areas, |s| + k) == Plan(s, areas) + CopiesTo(g, areas, k)
    ensures PlanTo(all, areas, |s| + k + 1) == Plan(s, areas) + CopiesTo(g, areas, k + 1)
  {
    NextOfGroup(s, g, areas, all, k);
    CopiesToStep(g, areas, k + 1);
    Appended(Plan(s, areas), PlanTo(all, areas, |s| + k), PlanTo(all, areas, |s| + k + 1),
             CopiesTo(g, areas, k), CopiesTo(g, areas, k + 1), [Copy(g.ToCells()[k].dst, areas.Of(g.stage).At(g.base, k))]);
  }

  lemma {:induction false} SourceInGroup(s: seq<Cell>, g: Group, areas: Areas, all: seq<Cell>, k: nat)
    requires GroupOk(g, areas) && all == s + g.ToCells() && Based(all, areas) && k < |g.ToCells()|
    requires s != [] ==> s[|s| - 1].base != g.base
    ensures all[|s| + k] == g.ToCells()[k] && all[|s| + k].dst >= 0
    ensures SourceOf(all, areas, |s| + k) == areas.Of(g.stage).At(g.base, k)
  {
    GroupCells(g.Tags(), g.base, g.stage);
    RunStartInGroup(s, g.ToCells(), k);
  }

  lemma {:induction false} NextOfGroup(s: seq<Cell>, g: Group, areas: Areas, all: seq<Cell>, k: nat)
    requires GroupOk(g, areas) && all == s + g.ToCells() && Based(all, areas) && k < |g.ToCells()|
    requires s != [] ==> s[|s| - 1].base != g.base
    ensures PlanTo(all, areas, |s| + k + 1)
         == PlanTo(all, areas, |s| + k) + [Copy(g.ToCells()[k].dst, areas.Of(g.stage).At(g.base, k))]
  {
    SourceInGroup(s, g, areas, all, k);
    PlanStep(all, areas, |s| + k + 1);
  }

  lemma {:induction false} CopiesToStep(g: Group, areas: Areas, k: nat)
    requires GroupOk(g, areas) && 0 < k <= |g.ToCells()|
    ensures CopiesTo(g, areas, k)
         == CopiesTo(g, areas, k - 1) + [Copy(g.ToCells()[k - 1].dst, areas.Of(g.stage).At(g.base, k - 1))]
  {
  }

  /** Reconstructing source addresses from the running counts of the flat list finds the blocks that
      the separate counters of the groups find. */
  lemma {:induction false} PlanIsAllCopies(groups: seq<Group>, areas: Areas)
    requires GroupsOk(groups, areas) && Separated(groups) && Based(Flat(ListOf(groups)), areas)
    ensures Plan(Flat(ListOf(groups)), areas) == AllCopies(groups, areas)
  {
    if groups != [] {
      var n := |groups| - 1;
      ListCells(groups[..n], areas);
      PlanIsAllCopies(groups[..n], areas);
      FlatGroups(groups);
      assert GroupOk(groups[n], areas);
      PlanOfGroup(Flat(ListOf(groups[..n])), groups[n], areas, Flat(ListOf(groups)), |groups[n].ToCells()|);
    }
  }
}
