/** Pass 5 of the coalescing checkpoint: locate the source of every tag from running counts, split at
    the end of the area, and move the data in batches. */
module Pass5 {
  import opened TagList
  import opened BlockDevice
  import opened SourcePlan
  import opened Cyclic

  /** `cur` stands for x places behind the first block of the area; the address just past the area is
      not yet turned back. */
  ghost predicate Stands(area: Area, cur: int, x: int) {
    && area.Ok() && 0 <= x
    && area.first <= cur <= area.last + 1
    && (cur - area.first == Turn(x, area.Size()) || (cur == area.last + 1 && Turn(x, area.Size()) == 0))
  }

  /** What the loop variables mean in front of cell p. */
  ghost predicate Cursor(s: seq<Cell>, areas: Areas, p: nat, group: int, cur: int)
    requires areas.Ok()
  {
    p < |s| ==>
      if group == s[p].base
      then Stands(areas.Of(s[p].stage), cur, s[p].base - areas.Of(s[p].stage).first + (p - RunStart(s, p)))
      else RunStart(s, p) == p
  }

  lemma {:induction false} StandsAtBase(area: Area, base: int)
    requires area.Ok() && area.Holds(base)
    ensures Stands(area, base, base - area.first)
  {
  }

  lemma {:induction false} StandsAdvance(area: Area, cur: int, x: int, n: nat)
    requires Stands(area, cur, x) && cur + n <= area.last + 1
    ensures Stands(area, cur + n, x + n)
    ensures cur + n == area.last + 1 ==> Stands(area, area.first, x + n)
  {
    TurnAdvance(x, n, area.Size());
  }

  /** A run of cells read without a turn comes from consecutive addresses. */
  lemma {:induction false} StandsRead(area: Area, cur: int, x: int, k: nat)
    requires Stands(area, cur, x) && cur + k <= area.last
    ensures area.first + Turn(x + k, area.Size()) == cur + k
  {
    TurnAdvance(x, k, area.Size());
  }

  /** The cells p .. p + n come from one tag. */
  ghost predicate OneTag(s: seq<Cell>, p: nat, t: Tag) {
    p + t.cnt <= |s| && s[p..p + t.cnt] == Cells(t)
  }

  lemma {:induction false} RunStartInTag(s: seq<Cell>, p: nat, t: Tag, k: nat)
    requires OneTag(s, p, t) && k < t.cnt
    ensures s[p + k] == Cells(t)[k]
    ensures RunStart(s, p + k) == RunStart(s, p)
  {
    assert s[p + k] == s[p..p + t.cnt][k];
    if k > 0 {
      RunStartInTag(s, p, t, k - 1);
    }
  }

  /** x for a tag whose first cell is cell p. */
  ghost function Travelled(s: seq<Cell>, areas: Areas, p: nat): int
    requires p < |s|
  {
    s[p].base - areas.Of(s[p].stage).first + (p - RunStart(s, p))
  }

  lemma {:induction false} SourceInTag(s: seq<Cell>, areas: Areas, p: nat, t: Tag, cur: int, k: nat)
    requires areas.Ok() && Based(s, areas) && OneTag(s, p, t) && k < t.cnt
    requires Stands(areas.Of(t.stage), cur, Travelled(s, areas, p)) && cur + k <= areas.Of(t.stage).last
    ensures SourceOf(s, areas, p + k) == cur + k && s[p + k] == Cells(t)[k]
  {
    RunStartInTag(s, p, t, k);
    RunStartInTag(s, p, t, 0);
    StandsRead(areas.Of(t.stage), cur, Travelled(s, areas, p), k);
  }

  function Bio(t: Tag, src: int, n: nat): seq<Copy> {
    if t.start == INVALID then [] else Copies(Extent(t.start, src, n))
  }

  lemma {:induction false} BioGrows(t: Tag, src: int, n: nat)
    requires n > 0
    ensures Bio(t, src, n) == Bio(t, src, n - 1) + LastCopy(t, src, n)
  {
  }

  lemma {:induction false} PlanOfTag(s: seq<Cell>, areas: Areas, p: nat, t: Tag, cur: int, n: nat)
    requires areas.Ok() && Based(s, areas) && OneTag(s, p, t) && n <= t.cnt && t.start >= INVALID && 0 < t.cnt
    requires Stands(areas.Of(t.stage), cur, Travelled(s, areas, p)) && cur + n <= areas.Of(t.stage).last + 1
    ensures PlanTo(s, areas, p + n) == PlanTo(s, areas, p) + Bio(t, cur, n)
  {
    if n == 0 {
      assert Bio(t, cur, 0) == [];
    } else {
      PlanOfTag(s, areas, p, t, cur, n - 1);
      PlanInTag(s, areas, p, t, cur, n);
      BioGrows(t, cur, n);
      Appended(PlanTo(s, areas, p), PlanTo(s, areas, p + n - 1), PlanTo(s, areas, p + n), Bio(t, cur, n - 1), Bio(t, cur, n),
               LastCopy(t, cur, n));
    }
  }

  function LastCopy(t: Tag, cur: int, n: nat): seq<Copy> {
    if t.start == INVALID then [] else [Copy(t.start + n - 1, cur + n - 1)]
  }

  lemma {:induction false} PlanInTag(s: seq<Cell>, areas: Areas, p: nat, t: Tag, cur: int, n: nat)
    requires areas.Ok() && Based(s, areas) && OneTag(s, p, t) && 0 < n <= t.cnt && t.start >= INVALID
    requires Stands(areas.Of(t.stage), cur, Travelled(s, areas, p)) && cur + n <= areas.Of(t.stage).last + 1
    ensures PlanTo(s, areas, p + n) == PlanTo(s, areas, p + n - 1) + LastCopy(t, cur, n)
  {
    var k := n - 1;
    SourceInTag(s, areas, p, t, cur, k);
    PlanStep(s, areas, p + n);
    if t.start == INVALID {
      assert s[p + k].dst == INVALID;
    } else {
      assert s[p + k].dst == t.start + k;
    }
  }

  lemma {:induction false} Appended<T>(a: seq<T>, ab: seq<T>, abx: seq<T>, b: seq<T>, bx: seq<T>, x: seq<T>)
    requires ab == a + b && abx == ab + x && bx == b + x
    ensures abx == a + bx
  {
  }

  lemma {:induction false} PlanStep(s: seq<Cell>, areas: Areas, p: nat)
    requires 0 < p <= |s| && areas.Ok() && Based(s, areas)
    ensures PlanTo(s, areas, p) == PlanTo(s, areas, p - 1)
         + if s[p - 1].dst == INVALID then [] else [Copy(s[p - 1].dst, SourceOf(s, areas, p - 1))]
  {
  }

  /** How a tag whose blocks begin at `from` is cut: `placed` ends at the end of the area at the
      latest, and what is left over is queued as one more tag of the same group. */
  ghost predicate Placing(node: Tag, area: Area, from: int, placed: Tag, rest: seq<Tag>, cur: int) {
    && placed.base == from && placed.cnt <= node.cnt && from + placed.cnt <= area.last + 1
    && (placed.start == node.start || (placed.cnt == 0 && placed.start == INVALID))
    && rest == (if placed.cnt == node.cnt then []
                else [Tag(if node.start == INVALID then INVALID else node.start + placed.cnt,
                          node.cnt - placed.cnt, node.base, node.stage)])
    && (cur == from + placed.cnt || (cur == area.first && from + placed.cnt == area.last + 1))
    && (placed.cnt < node.cnt ==> cur == area.first && from + placed.cnt == area.last + 1)
  }

  /** One turn of the loop body up to the bio lists: the source address takes the place of the base,
      and the tag is cut at the end of the area. */
  method PlaceTag(node: Tag, area: Area, group: int, cur: int) returns (placed: Tag, rest: seq<Tag>, cur': int)
    requires node.cnt > 0 && area.first <= (if group != node.base then node.base else cur) <= area.last + 1
    ensures Placing(node, area, if group != node.base then node.base else cur, placed, rest, cur')
  {
    var from := if group != node.base then node.base else cur;
    placed, rest, cur' := node.(base := from), [], from + node.cnt;
    if WrapsAround(from, node.cnt, area.last) {
      placed := placed.(cnt := area.last - from + 1);
      cur' := area.first;
      if node.cnt - placed.cnt > 0 {
        rest := [Tag(if node.start == INVALID then INVALID else node.start + placed.cnt,
                     node.cnt - placed.cnt, node.base, node.stage)];
        if placed.cnt == 0 {
          placed := placed.(start := INVALID);
        }
      }
    }
  }

  lemma {:induction false} PlaceStands(s: seq<Cell>, areas: Areas, p: nat, node: Tag, group: int, cur: int)
    requires areas.Ok() && Based(s, areas) && node.cnt > 0 && OneTag(s, p, node) && Cursor(s, areas, p, group, cur)
    ensures Stands(areas.Of(node.stage), if group != node.base then node.base else cur, Travelled(s, areas, p))
  {
    RunStartInTag(s, p, node, 0);
    if group != node.base {
      StandsAtBase(areas.Of(node.stage), node.base);
    }
  }

  lemma {:induction false} PlacePlan(s: seq<Cell>, areas: Areas, p: nat, node: Tag, from: int, placed: Tag)
    requires areas.Ok() && Based(s, areas) && OneTag(s, p, node) && node.cnt > 0 && node.start >= INVALID
    requires Stands(areas.Of(node.stage), from, Travelled(s, areas, p))
    requires placed.cnt <= node.cnt && from + placed.cnt <= areas.Of(node.stage).last + 1
    requires placed.start == node.start || (placed.cnt == 0 && placed.start == INVALID)
    ensures PlanTo(s, areas, p + placed.cnt) == PlanTo(s, areas, p) + Bio(placed, from, placed.cnt)
  {
    PlanOfTag(s, areas, p, node, from, placed.cnt);
  }

  lemma {:induction false} PlaceCursor(s: seq<Cell>, areas: Areas, p: nat, node: Tag, from: int, n: nat, cur: int)
    requires areas.Ok() && Coherent(s) && OneTag(s, p, node) && n <= node.cnt && 0 < node.cnt
    requires Stands(areas.Of(node.stage), from, Travelled(s, areas, p)) && from + n <= areas.Of(node.stage).last + 1
    requires cur == from + n || (cur == areas.Of(node.stage).first && from + n == areas.Of(node.stage).last + 1)
    ensures Cursor(s, areas, p + n, node.base, cur)
  {
    RunStartInTag(s, p, node, 0);
    if p + n < |s| && s[p + n].base == node.base {
      SameKind(s, p, p + n);
    }
    AfterTag(s, areas, p, node, from, n, cur);
  }

  lemma {:induction false} SecondHalf(s: seq<Cell>, p: nat, node: Tag, n: nat, rest: seq<Tag>)
    requires OneTag(s, p, node) && n <= node.cnt && node.start >= INVALID
    requires n == node.cnt ==> rest == []
    requires n < node.cnt ==> rest == [Tag(if node.start == INVALID then INVALID else node.start + n,
                                           node.cnt - n, node.base, node.stage)]
    ensures Flat(rest) == s[p + n..p + node.cnt]
  {
    assert s[p + n..p + node.cnt] == s[p..p + node.cnt][n..] == Cells(node)[n..];
    if rest != [] {
      FlatOne(rest[0]);
    }
  }

  lemma {:induction false} BehindTag(s: seq<Cell>, p: nat, t: Tag, n: nat)
    requires OneTag(s, p, t) && n <= t.cnt && 0 < t.cnt && p + n < |s|
    ensures s[p].base == t.base && s[p].stage == t.stage
    ensures s[p + n].base == t.base ==> RunStart(s, p + n) == RunStart(s, p)
    ensures s[p + n].base != t.base ==> RunStart(s, p + n) == p + n
  {
    RunStartInTag(s, p, t, 0);
    RunStartInTag(s, p, t, if n < t.cnt then n else n - 1);
  }

  lemma {:induction false} SameKind(s: seq<Cell>, i: nat, j: nat)
    requires Coherent(s) && i < |s| && j < |s| && s[i].base == s[j].base
    ensures s[i].stage == s[j].stage
  {
  }

  lemma {:induction false} AfterTag(s: seq<Cell>, areas: Areas, p: nat, t: Tag, from: int, n: nat, cur: int)
    requires areas.Ok() && OneTag(s, p, t) && n <= t.cnt && 0 < t.cnt
    requires p + n < |s| && s[p + n].base == t.base ==> s[p + n].stage == t.stage
    requires Stands(areas.Of(t.stage), from, Travelled(s, areas, p)) && from + n <= areas.Of(t.stage).last + 1
    requires cur == from + n || (cur == areas.Of(t.stage).first && from + n == areas.Of(t.stage).last + 1)
    ensures Cursor(s, areas, p + n, t.base, cur)
  {
    if p + n < |s| {
      BehindTag(s, p, t, n);
      StandsAdvance(areas.Of(t.stage), from, Travelled(s, areas, p), n);
    }
  }

  /** The nodes still to visit expand to the cells from p on. */
  ghost predicate Remaining(todo: seq<Tag>, s: seq<Cell>, p: nat) {
    p <= |s| && Flat(todo) == s[p..] && Starts(todo)
  }

  lemma {:induction false} NextTag(todo: seq<Tag>, s: seq<Cell>, p: nat)
    requires Remaining(todo, s, p) && todo != []
    ensures OneTag(s, p, todo[0]) && todo[0].start >= INVALID
    ensures Flat(todo[1..]) == s[p + todo[0].cnt..] && Starts(todo[1..])
  {
    var n := todo[0].cnt;
    assert s[p..p + n] == s[p..][..n] && s[p + n..] == s[p..][n..];
    assert s[p..][..n] == Cells(todo[0]) && s[p..][n..] == Flat(todo[1..]);
  }

  lemma {:induction false} Requeue(todo: seq<Tag>, s: seq<Cell>, p: nat, n: nat, rest: seq<Tag>)
    requires todo != [] && n <= todo[0].cnt && p + todo[0].cnt <= |s|
    requires Flat(todo[1..]) == s[p + todo[0].cnt..] && Starts(todo[1..])
    requires Flat(rest) == s[p + n..p + todo[0].cnt] && Starts(rest)
    ensures true == Remaining(rest + todo[1..], s, p + n)
  {
    RequeueTail(todo[1..], s, p + n, p + todo[0].cnt, rest);
  }

  lemma {:induction false} RequeueTail(tail: seq<Tag>, s: seq<Cell>, a: nat, b: nat, rest: seq<Tag>)
    requires a <= b <= |s| && Flat(tail) == s[b..] && Starts(tail) && Flat(rest) == s[a..b] && Starts(rest)
    ensures true == Remaining(rest + tail, s, a)
  {
    FlatConcat(rest, tail);
    TwoSlices(s, a, b);
  }

  lemma {:induction false} TwoSlices<T>(s: seq<T>, a: nat, b: nat)
    requires a <= b <= |s|
    ensures s[a..] == s[a..b] + s[b..]
  {
  }

  // ------------------------------------------------------------------------------------------
  // Batches
  // ------------------------------------------------------------------------------------------

  /** Sources lie in the circular areas, destinations outside of them. */
  ghost predicate Apart(copies: seq<Copy>, areas: Areas) {
    forall k :: 0 <= k < |copies| ==> InSource(copies[k].src, areas) && !InSource(copies[k].dst, areas)
  }

  predicate InSource(blk: int, areas: Areas) {
    areas.stage.first <= blk <= areas.stage.last || areas.journal.first <= blk <= areas.journal.last
  }

  /** The file system area is disjoint from the stage area and the journal. */
  ghost predicate Outside(s: seq<Cell>, areas: Areas) {
    forall k :: 0 <= k < |s| && s[k].dst != INVALID ==> !InSource(s[k].dst, areas)
  }

  lemma {:induction false} PlanApart(s: seq<Cell>, areas: Areas, p: nat)
    requires areas.Ok() && Based(s, areas) && Outside(s, areas) && p <= |s|
    ensures Apart(PlanTo(s, areas, p), areas)
  {
    if p > 0 {
      PlanApart(s, areas, p - 1);
    }
  }

  lemma {:induction false} ApartConcat(a: seq<Copy>, b: seq<Copy>, areas: Areas)
    requires Apart(a + b, areas)
    ensures Apart(a, areas) && Stable(b, a)
  {
    forall k | 0 <= k < |a| ensures InSource(a[k].src, areas) && !InSource(a[k].dst, areas) {
      assert (a + b)[k] == a[k];
    }
    forall i, j | 0 <= i < |b| && 0 <= j < |a| ensures b[i].src != a[j].dst {
      assert (a + b)[|a| + i] == b[i];
    }
  }

  /** One more read-then-write batch behind the ones already on disk. */
  lemma {:induction false} FlushStep(d: Disk, flushed: seq<Copy>, batch: seq<Copy>, areas: Areas)
    requires Apart(flushed + batch, areas)
    ensures d + Writes(d, flushed) + Writes(d + Writes(d, flushed), batch) == d + Writes(d, flushed + batch)
  {
    ApartConcat(flushed, batch, areas);
    WritesStable(d, flushed, batch);
    WritesConcat(d, flushed, batch);
    MergeAssoc(d, Writes(d, flushed), Writes(d, batch));
  }

  function From(node: Tag, group: int, cur: int): int {
    if group != node.base then node.base else cur
  }

  /** The loop invariant of pass 5: the nodes still to visit are the cells from p on, and the loop
      variables stand in front of cell p. */
  ghost predicate Walking(todo: seq<Tag>, s: seq<Cell>, areas: Areas, p: nat, group: int, cur: int)
    requires areas.Ok()
  {
    Remaining(todo, s, p) && Cursor(s, areas, p, group, cur)
  }

  lemma {:induction false} WalkingFrom(todo: seq<Tag>, areas: Areas, group: int, cur: int, s: seq<Cell>, p: nat)
    requires areas.Ok() && Based(s, areas)
    requires Walking(todo, s, areas, p, group, cur) && todo != [] && todo[0].cnt > 0
    ensures areas.Of(todo[0].stage).Holds(From(todo[0], group, cur))
  {
    NextTag(todo, s, p);
    PlaceStands(s, areas, p, todo[0], group, cur);
  }

  lemma {:induction false} WalkOver(todo: seq<Tag>, areas: Areas, group: int, cur: int, s: seq<Cell>, p: nat)
    requires areas.Ok()
    requires Walking(todo, s, areas, p, group, cur) && todo != [] && todo[0].cnt == 0
    ensures true == Walking(todo[1..], s, areas, p, group, cur)
  {
    NextTag(todo, s, p);
  }

  lemma {:induction false} CopiesOfOne(e: Extent)
    ensures CopiesOf([e]) == Copies(e)
  {
    assert [e] == [] + [e];
    CopiesOfAppend([], e);
  }

  lemma {:induction false} WalkQueue(todo: seq<Tag>, s: seq<Cell>, p: nat, area: Area, from: int, placed: Tag,
                                     rest: seq<Tag>, cur': int)
    requires true == Remaining(todo, s, p) && todo != [] && Placing(todo[0], area, from, placed, rest, cur')
    ensures p + placed.cnt <= |s| && true == Remaining(rest + todo[1..], s, p + placed.cnt)
  {
    NextTag(todo, s, p);
    SecondHalf(s, p, todo[0], placed.cnt, rest);
    Requeue(todo, s, p, placed.cnt, rest);
  }

  lemma {:induction false} WalkCursor(todo: seq<Tag>, areas: Areas, group: int, cur: int, s: seq<Cell>, p: nat,
                                      placed: Tag, rest: seq<Tag>, cur': int)
    requires areas.Ok() && Based(s, areas) && Coherent(s) && todo != [] && todo[0].cnt > 0
    requires true == Remaining(todo, s, p) && Cursor(s, areas, p, group, cur)
    requires Placing(todo[0], areas.Of(todo[0].stage), From(todo[0], group, cur), placed, rest, cur')
    ensures true == Cursor(s, areas, p + placed.cnt, todo[0].base, cur')
  {
    NextTag(todo, s, p);
    PlaceStands(s, areas, p, todo[0], group, cur);
    PlaceCursor(s, areas, p, todo[0], From(todo[0], group, cur), placed.cnt, cur');
  }

  lemma {:induction false} WalkOn(todo: seq<Tag>, areas: Areas, group: int, cur: int, s: seq<Cell>, p: nat,
               placed: Tag, rest: seq<Tag>, cur': int)
    requires areas.Ok() && Based(s, areas) && Coherent(s)
    requires Walking(todo, s, areas, p, group, cur) && todo != [] && todo[0].cnt > 0
    requires Placing(todo[0], areas.Of(todo[0].stage), From(todo[0], group, cur), placed, rest, cur')
    ensures p + placed.cnt <= |s|
    ensures true == Walking(rest + todo[1..], s, areas, p + placed.cnt, todo[0].base, cur')
  {
    WalkQueue(todo, s, p, areas.Of(todo[0].stage), From(todo[0], group, cur), placed, rest, cur');
    WalkCursor(todo, areas, group, cur, s, p, placed, rest, cur');
  }

  function BiosOf(placed: Tag): (r: seq<Extent>)
    ensures |r| <= 1
  {
    if placed.start == INVALID then [] else [Extent(placed.start, placed.base, placed.cnt)]
  }

  lemma {:induction false} WalkPlan(todo: seq<Tag>, areas: Areas, group: int, cur: int, s: seq<Cell>, p: nat,
                 placed: Tag, rest: seq<Tag>, cur': int)
    requires areas.Ok() && Based(s, areas)
    requires Walking(todo, s, areas, p, group, cur) && todo != [] && todo[0].cnt > 0
    requires Placing(todo[0], areas.Of(todo[0].stage), From(todo[0], group, cur), placed, rest, cur')
    ensures p + placed.cnt <= |s|
    ensures PlanTo(s, areas, p + placed.cnt) == PlanTo(s, areas, p) + CopiesOf(BiosOf(placed))
  {
    NextTag(todo, s, p);
    PlaceStands(s, areas, p, todo[0], group, cur);
    PlacePlan(s, areas, p, todo[0], From(todo[0], group, cur), placed);
    if placed.start != INVALID {
      CopiesOfOne(Extent(placed.start, placed.base, placed.cnt));
    }
  }

  ghost function Measure(todo: seq<Tag>, areas: Areas, group: int, cur: int): int {
    2 * |todo| + if todo != [] && todo[0].cnt > 0 && From(todo[0], group, cur) > areas.Of(todo[0].stage).last then 1 else 0
  }

  /** A tag that starts just past its area is put off once, to the first block of the area. */
  lemma {:induction false} MeasureDrops(todo: seq<Tag>, areas: Areas, group: int, cur: int, placed: Tag,
                                        rest: seq<Tag>, cur': int)
    requires areas.Ok() && todo != [] && todo[0].cnt > 0
    requires Placing(todo[0], areas.Of(todo[0].stage), From(todo[0], group, cur), placed, rest, cur')
    ensures placed.cnt == 0 ==> Measure(rest + todo[1..], areas, todo[0].base, cur') < Measure(todo, areas, group, cur)
  {
  }

  lemma {:induction false} QueueBio(flushed: seq<Copy>, pending: seq<Extent>, bios: seq<Extent>)
    requires |bios| <= 1
    ensures flushed + CopiesOf(pending) + CopiesOf(bios) == flushed + CopiesOf(pending + bios)
  {
    if bios == [] {
      assert pending + bios == pending;
    } else {
      assert bios == [bios[0]];
      CopiesOfOne(bios[0]);
      CopiesOfAppend(pending, bios[0]);
      Assoc(flushed, CopiesOf(pending), Copies(bios[0]));
    }
  }

  /** One turn of the loop: at most one new bio, and progress even when the tag starts just past the
      area and its first half is empty. */
  method NextBio(tags: seq<Tag>, areas: Areas, group: int, cur: int, ghost s: seq<Cell>, ghost p: nat)
    returns (todo: seq<Tag>, group': int, cur': int, bios: seq<Extent>, ghost p': nat)
    requires areas.Ok() && Based(s, areas) && Coherent(s)
    requires true == Walking(tags, s, areas, p, group, cur) && tags != []
    ensures true == Walking(todo, s, areas, p', group', cur') && p <= p' <= |s|
    ensures PlanTo(s, areas, p') == PlanTo(s, areas, p) + CopiesOf(bios) && |bios| <= 1
    ensures p' == p ==> Measure(todo, areas, group', cur') < Measure(tags, areas, group, cur)
  {
    if tags[0].cnt == 0 {
      WalkOver(tags, areas, group, cur, s, p);
      todo, group', cur', bios, p' := tags[1..], group, cur, [], p;
    } else {
      todo, group', cur', bios, p' := PlaceNext(tags, areas, group, cur, s, p);
    }
  }

  method PlaceNext(tags: seq<Tag>, areas: Areas, group: int, cur: int, ghost s: seq<Cell>, ghost p: nat)
    returns (todo: seq<Tag>, group': int, cur': int, bios: seq<Extent>, ghost p': nat)
    requires areas.Ok() && Based(s, areas) && Coherent(s)
    requires true == Walking(tags, s, areas, p, group, cur) && tags != [] && tags[0].cnt > 0
    ensures p <= p' <= |s| && true == Walking(todo, s, areas, p', group', cur')
    ensures PlanTo(s, areas, p') == PlanTo(s, areas, p) + CopiesOf(bios) && |bios| <= 1
    ensures p' == p ==> Measure(todo, areas, group', cur') < Measure(tags, areas, group, cur)
  {
    WalkingFrom(tags, areas, group, cur, s, p);
    var placed, rest;
    placed, rest, cur' := PlaceTag(tags[0], areas.Of(tags[0].stage), group, cur);
    MeasureDrops(tags, areas, group, cur, placed, rest, cur');
    WalkPlan(tags, areas, group, cur, s, p, placed, rest, cur');
    WalkOn(tags, areas, group, cur, s, p, placed, rest, cur');
    todo, group', bios, p' := rest + tags[1..], tags[0].base, BiosOf(placed), p + placed.cnt;
  }

  /** What has been dispatched, and what is still in the bio lists, is the plan up to cell p. */
  ghost predicate Dispatched(s: seq<Cell>, areas: Areas, p: nat, flushed: seq<Copy>, pending: seq<Extent>, d: Disk, store: Disk)
    requires areas.Ok() && Based(s, areas)
  {
    p <= |s| && PlanTo(s, areas, p) == flushed + CopiesOf(pending) && store == d + Writes(d, flushed)
  }

  /** Pass 5 with its batching.  `maxBuf` is OPTIMIZE_CHECKPOINT_MAX_BUF_SIZE; whatever it is, the
      device ends up with the whole plan applied. */
  method CheckpointTags(dev: Device, tags: seq<Tag>, areas: Areas, maxBuf: int)
    requires areas.Ok() && Starts(tags)
    requires Based(Flat(tags), areas) && Coherent(Flat(tags)) && Outside(Flat(tags), areas)
    modifies dev
    ensures dev.store == old(dev.store) + Writes(old(dev.store), Plan(Flat(tags), areas))
  {
    ghost var s, d := Flat(tags), dev.store;
    var todo, group, cur := tags, -1, 0;
    var pending: seq<Extent> := [];
    var bufSize := 0;
    ghost var p: nat, flushed: seq<Copy> := 0, [];
    assert s[0..] == s;
    assert d + Writes(d, []) == d;
    FirstCursor(s, areas);
    while todo != []
      invariant true == Walking(todo, s, areas, p, group, cur)
      invariant true == Dispatched(s, areas, p, flushed, pending, d, dev.store)
      decreases |s| - p, Measure(todo, areas, group, cur)
    {
      var bios;
      todo, group, cur, bios, p := NextBio(todo, areas, group, cur, s, p);
      QueueBio(flushed, pending, bios);
      pending := pending + bios;
      if bios != [] {
        bufSize := bufSize + bios[0].cnt * BLOCK_SIZE;
        if bufSize >= maxBuf {
          Flush(dev, pending, s, areas, p, d, flushed);
          flushed := flushed + CopiesOf(pending);
          pending, bufSize := [], 0;
        }
      }
    }
    assert p == |s|;
    Flush(dev, pending, s, areas, p, d, flushed);
  }

  /** Read everything in the batch, then write it. */
  method Flush(dev: Device, pending: seq<Extent>, ghost s: seq<Cell>, ghost areas: Areas, ghost p: nat,
               ghost d: Disk, ghost flushed: seq<Copy>)
    requires areas.Ok() && Based(s, areas) && Outside(s, areas)
    requires Dispatched(s, areas, p, flushed, pending, d, dev.store)
    modifies dev
    ensures true == Dispatched(s, areas, p, flushed + CopiesOf(pending), [], d, dev.store)
    ensures dev.store == d + Writes(d, PlanTo(s, areas, p))
  {
    PlanApart(s, areas, p);
    FlushStep(d, flushed, CopiesOf(pending), areas);
    dev.Dispatch(CopiesOf(pending));
    assert flushed + CopiesOf(pending) + CopiesOf([]) == flushed + CopiesOf(pending);
  }

  lemma {:induction false} FirstCursor(s: seq<Cell>, areas: Areas)
    requires areas.Ok() && Based(s, areas)
    ensures true == Cursor(s, areas, 0, -1, 0)
  {
  }
}
