/** Where the guarantees of the checkpoint end, and what its plan looks like. */
module CheckpointLimits {
  import opened TagList
  import opened BlockDevice
  import opened Cyclic
  import opened SourcePlan
  import opened Pass5
  import opened Checkpoint

  // ------------------------------------------------------------------------------------------
  // Every block is written once
  // ------------------------------------------------------------------------------------------

  lemma {:induction false} PlanFrom(s: seq<Cell>, areas: Areas, p: nat, k: nat) returns (c: nat)
    requires areas.Ok() && Based(s, areas) && p <= |s| && k < |PlanTo(s, areas, p)|
    ensures c < p && s[c].dst != INVALID && PlanTo(s, areas, p)[k] == Copy(s[c].dst, SourceOf(s, areas, c))
    decreases p
  {
    if k < |PlanTo(s, areas, p - 1)| {
      c := PlanFrom(s, areas, p - 1, k);
    } else {
      c := p - 1;
    }
  }

  lemma {:induction false} PlanReaches(s: seq<Cell>, areas: Areas, p: nat, c: nat)
    requires areas.Ok() && Based(s, areas) && c < p <= |s| && s[c].dst != INVALID
    ensures Copy(s[c].dst, SourceOf(s, areas, c)) in PlanTo(s, areas, p)
    decreases p
  {
    if c < p - 1 {
      PlanReaches(s, areas, p - 1, c);
    }
  }

  lemma {:induction false} PlanDistinct(s: seq<Cell>, areas: Areas, p: nat, i: nat, j: nat)
    requires areas.Ok() && Based(s, areas) && Based(Masked(s), areas) && p <= |s| && i < j < |PlanTo(Masked(s), areas, p)|
    ensures PlanTo(Masked(s), areas, p)[i].dst != PlanTo(Masked(s), areas, p)[j].dst
    decreases p
  {
    if j < |PlanTo(Masked(s), areas, p - 1)| {
      PlanDistinct(s, areas, p - 1, i, j);
    } else {
      var c := PlanFrom(Masked(s), areas, p - 1, i);
      assert !Overwritten(s, c);
      assert s[p - 1].dst != s[c].dst;
    }
  }

  /** The coalesced checkpoint writes exactly the blocks that the tags name, each of them once, from the
      place of its last writer. */
  lemma {:induction false} WritesOnce(s: seq<Cell>, areas: Areas)
    requires areas.Ok() && Based(s, areas) && Based(Masked(s), areas) && forall k :: 0 <= k < |s| ==> s[k].dst >= 0
    ensures var plan := Plan(Masked(s), areas);
            && (forall i, j :: 0 <= i < j < |plan| ==> plan[i].dst != plan[j].dst)
            && (forall k :: 0 <= k < |s| ==> Writing(plan, s[k].dst))
            && (forall i :: 0 <= i < |plan| ==> exists k :: 0 <= k < |s| && s[k].dst == plan[i].dst && !Overwritten(s, k))
  {
    var plan := Plan(Masked(s), areas);
    forall i, j | 0 <= i < j < |plan| ensures plan[i].dst != plan[j].dst {
      PlanDistinct(s, areas, |s|, i, j);
    }
    forall k | 0 <= k < |s| ensures Writing(plan, s[k].dst) {
      var w := MaskedCovers(s, k);
      PlanReaches(Masked(s), areas, |s|, w);
    }
    forall i | 0 <= i < |plan| ensures exists k :: 0 <= k < |s| && s[k].dst == plan[i].dst && !Overwritten(s, k) {
      var c := PlanFrom(Masked(s), areas, |s|, i);
      assert s[c].dst == plan[i].dst && !Overwritten(s, c);
    }
  }

  // ------------------------------------------------------------------------------------------
  // A base address too far past its area
  // ------------------------------------------------------------------------------------------

  /** The blocks of a tag, going round from `src`. */
  function RoundCopies(area: Area, src: int, tag: ETag): (r: seq<Copy>)
    requires area.Ok() && area.first <= src
    ensures |r| == tag.cnt
  {
    seq(tag.cnt, k requires 0 <= k < tag.cnt => Copy(tag.start + k, area.first + Turn(src - area.first + k, area.Size())))
  }

  lemma {:induction false} CopiesOfOne(a: Extent)
    ensures CopiesOf([a]) == Copies(a)
  {
    assert [a][..0] == [];
    assert [] + Copies(a) == Copies(a);
  }

  lemma {:induction false} CopiesOfTwo(a: Extent, b: Extent)
    ensures CopiesOf([a, b]) == Copies(a) + Copies(b)
  {
    CopiesOfOne(a);
    assert [a, b][..1] == [a];
  }

  lemma {:induction false} TurnWithin(area: Area, src: int, k: nat)
    requires area.Ok() && area.Holds(src) && k < area.Size()
    ensures area.first + Turn(src - area.first + k, area.Size()) == if src + k <= area.last then src + k else src + k - area.Size()
  {
    var x := src - area.first + k;
    if x >= area.Size() {
      assert Turn(x, area.Size()) == Turn(x - area.Size(), area.Size());
    }
  }

  lemma {:induction false} CutWithin(area: Area, src: int, tag: ETag)
    requires area.Ok() && area.Holds(src) && tag.cnt <= area.Size() < U32
    ensures CopiesOf(TagExtents(area, src, tag)) == RoundCopies(area, src, tag)
  {
    var want := RoundCopies(area, src, tag);
    forall k | 0 <= k < tag.cnt
      ensures want[k] == Copy(tag.start + k, if src + k <= area.last then src + k else src + k - area.Size())
    {
      TurnWithin(area, src, k);
    }
    var es := TagExtents(area, src, tag);
    if WrapsAround(src, tag.cnt, area.last) {
      CopiesOfTwo(es[0], es[1]);
    } else {
      CopiesOfOne(es[0]);
    }
  }

  /** Pass 5 cuts a tag where the tag-by-tag form does, as long as its source address is at most one past
      the area. */
  lemma {:induction false} PlacedIsCut(node: Tag, area: Area, from: int, placed: Tag, rest: seq<Tag>, cur: int)
    requires area.Ok() && area.Holds(from) && area.Size() < U32 && node.start >= 0 && Placing(node, area, from, placed, rest, cur)
    ensures WrapsAround(from, node.cnt, area.last) <==> placed.cnt < node.cnt
    ensures var es := TagExtents(area, from, ETag(node.start, node.cnt));
            if placed.cnt < node.cnt then
              && rest == [Tag(node.start + placed.cnt, node.cnt - placed.cnt, node.base, node.stage)] && cur == area.first
              && (rest[0].cnt < U32 ==> es == [Extent(node.start, from, placed.cnt), Extent(rest[0].start, cur, rest[0].cnt)])
            else es == [Extent(node.start, from, placed.cnt)]
  {
  }

  lemma {:induction false} CutPast(area: Area, src: int, tag: ETag)
    requires area.Ok() && area.last + 1 < src < area.last + 1 + U32 && 0 < tag.cnt
    ensures CopiesOf(TagExtents(area, src, tag)) != RoundCopies(area, src, tag)
  {
    var es := TagExtents(area, src, tag);
    CopiesOfTwo(es[0], es[1]);
    assert Copies(es[0])[0].src == src;
    assert RoundCopies(area, src, tag)[0].src == area.first + Turn(src - area.first + 0, area.Size());
  }

  /** A tag is copied from its blocks, going round, exactly when its source address is at most one past
      the area.  Further past, the 32-bit length of the first bio underflows. */
  lemma {:induction false} CutExact(area: Area, src: int, tag: ETag)
    requires area.Ok() && area.first <= src < area.last + 1 + U32 && 0 < tag.cnt <= area.Size() < U32
    ensures CopiesOf(TagExtents(area, src, tag)) == RoundCopies(area, src, tag) <==> area.Holds(src)
  {
    if area.Holds(src) {
      CutWithin(area, src, tag);
    } else {
      CutPast(area, src, tag);
    }
  }

  lemma {:induction false} JoinedHead(first: seq<ETag>, blocks: seq<seq<ETag>>)
    requires first != []
    ensures Joined(first, blocks) != [] && Joined(first, blocks)[0] == first[0]
  {
    if blocks != [] {
      JoinedHead(first, blocks[..|blocks| - 1]);
    }
  }

  /** The data of a stage transaction is taken to begin behind its tag blocks, and this address is not
      wrapped: its first tag is copied from the right blocks exactly when the tag blocks end inside the
      stage area. */
  lemma {:induction false} StageCutExact(t: StageTx, area: Area)
    requires area.Ok() && area.first <= t.start <= area.last && area.Size() < U32 && |t.etagBlks| < U32
    requires t.descTags != [] && 0 < t.descTags[0].cnt <= area.Size()
    ensures var g := t.ToGroup();
            && g.tags != [] && g.tags[0] == t.descTags[0]
            && (CopiesOf(TagExtents(area, g.base, g.tags[0])) == RoundCopies(area, g.base, g.tags[0])
                <==> t.start + |t.etagBlks| <= area.last)
  {
    JoinedHead(t.descTags, t.etagBlks);
    CutExact(area, t.ToGroup().base, t.descTags[0]);
  }
}
