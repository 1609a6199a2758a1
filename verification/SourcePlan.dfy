/** Where the source block of every cell lies, and why dropping overwritten cells is harmless.

    A group's blocks lie one after the other in a circular area, from the group's base address.  In
    the tag list a group is a maximal run of cells with one base. */
module SourcePlan {
  import opened TagList
  import opened BlockDevice
  import opened Cyclic

  /** A circular area: the stage log, or one of the two journal logs. */
  datatype Area = Area(first: int, last: int) {
    function Size(): int {
      last - first + 1
    }

    predicate Ok() {
      0 <= first <= last
    }

    /** The block k places behind `base`, going round. */
    function At(base: int, k: int): int
      requires Ok() && Holds(base) && 0 <= k
    {
      first + Turn(base - first + k, Size())
    }

    /** A base may be the address just past the area, never more. */
    predicate Holds(base: int) {
      first <= base <= last + 1
    }
  }

  /** check_wrap_around */
  predicate WrapsAround(start: int, blocks: int, last: int) {
    start + blocks - 1 > last
  }

  /** Blocks left up to the end of the area, in the source's 32 bits. */
  function BeforeEnd(area: Area, start: int): (n: nat)
    ensures start <= area.last + 1 && area.last - start + 1 < U32 ==> n == area.last - start + 1
    ensures 0 < start - area.last - 1 < U32 ==> n == U32 - (start - area.last - 1)
  {
    (area.last - start + 1) % U32
  }

  datatype Areas = Areas(stage: Area, journal: Area) {
    function Of(inStage: bool): Area {
      if inStage then stage else journal
    }

    predicate Ok() {
      stage.Ok() && journal.Ok()
    }
  }

  predicate Based(s: seq<Cell>, areas: Areas) {
    forall k :: 0 <= k < |s| ==> s[k].base >= 0 && areas.Of(s[k].stage).Holds(s[k].base)
  }

  /** Cells of one base are all of one kind. */
  ghost predicate Coherent(s: seq<Cell>) {
    forall i, j :: 0 <= i < |s| && 0 <= j < |s| && s[i].base == s[j].base ==> s[i].stage == s[j].stage
  }

  /** Where the group of cell k begins. */
  function RunStart(s: seq<Cell>, k: int): (r: int)
    requires 0 <= k < |s|
    ensures 0 <= r <= k
    decreases k
  {
    if k == 0 || s[k - 1].base != s[k].base then k else RunStart(s, k - 1)
  }

  function SourceOf(s: seq<Cell>, areas: Areas, k: int): int
    requires 0 <= k < |s| && areas.Ok() && Based(s, areas)
  {
    areas.Of(s[k].stage).At(s[k].base, k - RunStart(s, k))
  }

  /** The copies of the first p cells, in list order. */
  function PlanTo(s: seq<Cell>, areas: Areas, p: nat): seq<Copy>
    requires p <= |s| && areas.Ok() && Based(s, areas)
  {
    if p == 0 then []
    else PlanTo(s, areas, p - 1)
         + if s[p - 1].dst == INVALID then [] else [Copy(s[p - 1].dst, SourceOf(s, areas, p - 1))]
  }

  function Plan(s: seq<Cell>, areas: Areas): seq<Copy>
    requires areas.Ok() && Based(s, areas)
  {
    PlanTo(s, areas, |s|)
  }

  ghost predicate SameGroups(s: seq<Cell>, t: seq<Cell>) {
    |s| == |t| && forall k :: 0 <= k < |s| ==> s[k].base == t[k].base && s[k].stage == t[k].stage
  }

  lemma {:induction false} RunStartSame(s: seq<Cell>, t: seq<Cell>, k: int)
    requires SameGroups(s, t) && 0 <= k < |s|
    ensures RunStart(s, k) == RunStart(t, k)
    decreases k
  {
    if k > 0 {
      RunStartSame(s, t, k - 1);
    }
  }

  /** The two effects have the same byte at l, or some cell from p on writes its block. */
  ghost predicate AgreeAt(a: Disk, b: Disk, s: seq<Cell>, p: nat, l: Loc)
    requires p <= |s|
  {
    0 <= l.byte < BLOCK_SIZE && (forall k :: p <= k < |s| ==> s[k].dst != l.blk)
    ==> (l in a <==> l in b) && (l in a && l in b ==> a[l] == b[l])
  }

  /** Both effects have the same bytes wherever no cell from p on writes. */
  ghost predicate AgreeBelow(a: Disk, b: Disk, s: seq<Cell>, p: nat)
    requires p <= |s|
  {
    forall l: Loc :: AgreeAt(a, b, s, p, l)
  }

  /** The first p cells, masked or not, agree wherever no later cell writes. */
  ghost predicate PrefixAgrees(d: Disk, s: seq<Cell>, areas: Areas, p: nat)
    requires areas.Ok() && p <= |s| && Based(s, areas)
  {
    AgreeBelow(Writes(d, PlanTo(Masked(s), areas, p)), Writes(d, PlanTo(s, areas, p)), s, p)
  }

  lemma {:induction false} AgreeNothing(d: Disk, s: seq<Cell>, areas: Areas)
    requires areas.Ok() && Based(s, areas)
    ensures true == PrefixAgrees(d, s, areas, 0)
  {
  }

  lemma {:induction false} MaskedNext(d: Disk, s: seq<Cell>, areas: Areas, q: nat)
    requires areas.Ok() && q < |s| && Based(s, areas) && s[q].dst >= 0 && true == PrefixAgrees(d, s, areas, q)
    ensures true == PrefixAgrees(d, s, areas, q + 1)
  {
    MaskedPlanStep(s, areas, q);
    MaskedStep(d, s, q, PlanTo(Masked(s), areas, q), PlanTo(s, areas, q),
               PlanTo(Masked(s), areas, q + 1), PlanTo(s, areas, q + 1), Copy(s[q].dst, SourceOf(s, areas, q)));
  }

  lemma {:induction false} MaskedPrefixAgrees(d: Disk, s: seq<Cell>, areas: Areas, p: nat)
    requires areas.Ok() && p <= |s| && Based(s, areas)
    requires forall k :: 0 <= k < |s| ==> s[k].dst >= 0
    ensures true == PrefixAgrees(d, s, areas, p)
  {
    if p == 0 {
      AgreeNothing(d, s, areas);
    } else {
      MaskedPrefixAgrees(d, s, areas, p - 1);
      MaskedNext(d, s, areas, p - 1);
    }
  }

  lemma {:induction false} MaskedPlanStep(s: seq<Cell>, areas: Areas, q: nat)
    requires areas.Ok() && q < |s| && Based(s, areas) && s[q].dst >= 0
    ensures PlanTo(Masked(s), areas, q + 1) == PlanTo(Masked(s), areas, q)
         + if Overwritten(s, q) then [] else [Copy(s[q].dst, SourceOf(s, areas, q))]
    ensures PlanTo(s, areas, q + 1) == PlanTo(s, areas, q) + [Copy(s[q].dst, SourceOf(s, areas, q))]
  {
    RunStartSame(s, Masked(s), q);
  }

  lemma {:induction false} MaskedStep(d: Disk, s: seq<Cell>, q: nat, pm: seq<Copy>, ps: seq<Copy>, pm': seq<Copy>,
                                      ps': seq<Copy>, c: Copy)
    requires q < |s| && c.dst == s[q].dst && true == AgreeBelow(Writes(d, pm), Writes(d, ps), s, q)
    requires pm' == pm + (if Overwritten(s, q) then [] else [c]) && ps' == ps + [c]
    ensures true == AgreeBelow(Writes(d, pm'), Writes(d, ps'), s, q + 1)
  {
    WritesAppend(d, ps, c);
    if Overwritten(s, q) {
      assert pm' == pm;
      AgreeSkip(Writes(d, pm), Writes(d, ps), Image(d, c), s, q);
    } else {
      WritesAppend(d, pm, c);
      AgreeBoth(Writes(d, pm), Writes(d, ps), Image(d, c), s, q);
    }
  }

  lemma {:induction false} AgreeSkip(a: Disk, b: Disk, image: Disk, s: seq<Cell>, q: nat)
    requires q < |s| && AgreeBelow(a, b, s, q) && Overwritten(s, q) && image.Keys == BlockLocs(s[q].dst)
    ensures AgreeBelow(a, b + image, s, q + 1)
  {
    var b', q' := b + image, q + 1;
    forall l: Loc ensures AgreeAt(a, b', s, q', l) {
      assert AgreeAt(a, b, s, q, l);
      if forall k :: q + 1 <= k < |s| ==> s[k].dst != l.blk {
        assert s[q].dst != l.blk;
      }
    }
  }

  lemma {:induction false} AgreeBoth(a: Disk, b: Disk, image: Disk, s: seq<Cell>, q: nat)
    requires q < |s| && AgreeBelow(a, b, s, q) && image.Keys == BlockLocs(s[q].dst)
    ensures AgreeBelow(a + image, b + image, s, q + 1)
  {
    var a', b', q' := a + image, b + image, q + 1;
    forall l: Loc ensures AgreeAt(a', b', s, q', l) {
      assert AgreeAt(a, b, s, q, l);
      if l !in image && forall k :: q + 1 <= k < |s| ==> s[k].dst != l.blk {
        assert s[q].dst == l.blk || forall k :: q <= k < |s| ==> s[k].dst != l.blk;
      }
    }
  }

  /** Keeping only the newest writer of every block leaves the same device contents. */
  lemma {:induction false} MaskedPreservesEffect(d: Disk, s: seq<Cell>, areas: Areas)
    requires areas.Ok() && Based(s, areas)
    requires forall k :: 0 <= k < |s| ==> s[k].dst >= 0
    ensures Writes(d, Plan(Masked(s), areas)) == Writes(d, Plan(s, areas))
  {
    MaskedPrefixAgrees(d, s, areas, |s|);
    WritesKeys(d, Plan(Masked(s), areas));
    WritesKeys(d, Plan(s, areas));
    SameMap(Writes(d, Plan(Masked(s), areas)), Writes(d, Plan(s, areas)), s);
  }

  lemma {:induction false} SameMap(a: Disk, b: Disk, s: seq<Cell>)
    requires true == AgreeBelow(a, b, s, |s|)
    requires forall l :: l in a || l in b ==> 0 <= l.byte < BLOCK_SIZE
    ensures a == b
  {
    forall l: Loc ensures (l in a <==> l in b) && (l in a && l in b ==> a[l] == b[l]) {
      assert AgreeAt(a, b, s, |s|, l);
    }
  }
}
