/** The tag list of a coalescing checkpoint (oxbow/devfs/src/journal.c, do_checkpoint_coalesce).

    A tag maps `cnt` consecutive source blocks to the destination extent starting at `start`; an
    invalidated tag keeps its count, because the running count is what locates the source blocks of
    the tags behind it.  The meaning of a list is therefore its expansion to one cell per source
    block: passes 3 and 4 may cut and glue tags as they like, as long as every cell keeps its place
    in the expansion. */
module TagList {

  /** The source's (unsigned long)-1. */
  const INVALID: int := -1

  /** struct tag_list_node: destination start (or INVALID), block count, base address of the source
      group, and whether the source lies in the stage area. */
  datatype Tag = Tag(start: int, cnt: nat, base: int, stage: bool)

  /** One source block of the list: where it goes (or INVALID) and which group it belongs to. */
  datatype Cell = Cell(dst: int, base: int, stage: bool)

  function Cells(t: Tag): (s: seq<Cell>)
    ensures |s| == t.cnt
  {
    seq(t.cnt, k requires 0 <= k < t.cnt =>
      Cell(if t.start == INVALID then INVALID else t.start + k, t.base, t.stage))
  }

  function Flat(tags: seq<Tag>): seq<Cell> {
    if tags == [] then [] else Cells(tags[0]) + Flat(tags[1..])
  }

  lemma {:induction false} FlatConcat(a: seq<Tag>, b: seq<Tag>)
    ensures Flat(a + b) == Flat(a) + Flat(b)
  {
    if a == [] {
      assert a + b == b;
    } else {
      FlatConcat(a[1..], b);
      assert (a + b)[1..] == a[1..] + b;
      Assoc(Cells(a[0]), Flat(a[1..]), Flat(b));
    }
  }

  lemma {:induction false} Assoc<T>(a: seq<T>, b: seq<T>, c: seq<T>)
    ensures a + b + c == a + (b + c)
  {
  }

  lemma {:induction false} FlatAppend(tags: seq<Tag>, t: Tag)
    ensures Flat(tags + [t]) == Flat(tags) + Cells(t)
  {
    FlatConcat(tags, [t]);
    FlatOne(t);
  }

  lemma {:induction false} FlatOne(t: Tag)
    ensures Flat([t]) == Cells(t)
  {
    assert [t][1..] == [];
  }

  /** Every tag names an extent of the device; no list handed to pass 3 holds an INVALID start. */
  ghost predicate AllValid(tags: seq<Tag>) {
    forall i :: 0 <= i < |tags| ==> tags[i].start >= 0
  }

  /** The (base, stage) pairs in use: cutting and gluing tags never invents one. */
  ghost predicate Within(tags: seq<Tag>, kinds: set<(int, bool)>) {
    forall i :: 0 <= i < |tags| ==> (tags[i].base, tags[i].stage) in kinds
  }

  /** A base address lies either in the stage area or in the journal, never in both. */
  ghost predicate Unambiguous(kinds: set<(int, bool)>) {
    forall x, y :: x in kinds && y in kinds && x.0 == y.0 ==> x == y
  }

  ghost predicate Starts(tags: seq<Tag>) {
    forall i :: 0 <= i < |tags| ==> tags[i].start >= INVALID
  }

  // ------------------------------------------------------------------------------------------
  // Pass 3: every block keeps only its newest writer
  // ------------------------------------------------------------------------------------------

  /** The cells of `s`, with the destinations inside [start, start + cnt) dropped. */
  function Punch(s: seq<Cell>, start: int, cnt: nat): (r: seq<Cell>)
    ensures |r| == |s|
  {
    seq(|s|, k requires 0 <= k < |s| =>
      if start <= s[k].dst < start + cnt then s[k].(dst := INVALID) else s[k])
  }

  /** A later cell of `s` writes the block that cell k writes. */
  ghost predicate Overwritten(s: seq<Cell>, k: int)
    requires 0 <= k < |s|
  {
    exists j :: k < j < |s| && s[j].dst == s[k].dst
  }

  /** What pass 3 is for: exactly the overwritten cells lose their destination. */
  ghost function Masked(s: seq<Cell>): (r: seq<Cell>)
    ensures |r| == |s|
  {
    seq(|s|, k requires 0 <= k < |s| =>
      if Overwritten(s, k) then s[k].(dst := INVALID) else s[k])
  }

  lemma {:induction false} PunchConcat(a: seq<Cell>, b: seq<Cell>, start: int, cnt: nat)
    ensures Punch(a + b, start, cnt) == Punch(a, start, cnt) + Punch(b, start, cnt)
  {
  }

  /** Cut the older tag `prior` around the newer extent [start, start + cnt): the branches of the inner
      loop of pass 3, giving the nodes that take the place of `prior`.  The last branch is the
      source's "FATAL: Incorrect coalesce case". */
  function Carve(prior: Tag, start: int, cnt: nat): (pieces: seq<Tag>)
    requires start >= 0 && prior.start >= INVALID
    ensures |pieces| >= 1
    ensures Starts(pieces)
    ensures forall i :: 0 <= i < |pieces| ==> pieces[i].base == prior.base && pieces[i].stage == prior.stage
  {
    var end, priorEnd := start + cnt, prior.start + prior.cnt;
    if prior.start == INVALID then [prior]
    else if priorEnd <= start || end <= prior.start then [prior]
    else if start == prior.start && cnt == prior.cnt then [prior.(start := INVALID)]
    else if start >= prior.start && end <= priorEnd then
      var left := prior.(cnt := start - prior.start);
      var optimized := if left.cnt == 0 then left.(start := INVALID) else left;
      var tag1 := if cnt > 0 then [Tag(INVALID, cnt, prior.base, prior.stage)] else [];
      var tag2 := if priorEnd - end > 0 then [Tag(end, priorEnd - end, prior.base, prior.stage)] else [];
      [optimized] + tag1 + tag2
    else if start <= prior.start && end >= priorEnd then [prior.(start := INVALID)]
    else if start < prior.start && end < priorEnd then
      var tag := if priorEnd - end > 0 then [Tag(end, priorEnd - end, prior.base, prior.stage)] else [];
      [prior.(start := INVALID, cnt := end - prior.start)] + tag
    else if prior.start < start && priorEnd < end then
      var left := prior.(cnt := start - prior.start);
      var optimized := if left.cnt == 0 then left.(start := INVALID) else left;
      var tag := if priorEnd - start > 0 then [Tag(INVALID, priorEnd - start, prior.base, prior.stage)] else [];
      [optimized] + tag
    else
      assert false; [prior]
  }

  lemma {:induction false} FlatUpToThree(p: seq<Tag>)
    requires 1 <= |p| <= 3
    ensures |p| == 1 ==> Flat(p) == Cells(p[0])
    ensures |p| == 2 ==> Flat(p) == Cells(p[0]) + Cells(p[1])
    ensures |p| == 3 ==> Flat(p) == Cells(p[0]) + Cells(p[1]) + Cells(p[2])
  {
    FlatOne(p[|p| - 1]);
    if |p| == 2 {
      assert p[1..] == [p[1]];
    } else if |p| == 3 {
      assert p[1..] == [p[1], p[2]] && p[1..][1..] == [p[2]];
      assert Flat(p[1..]) == Cells(p[1]) + Cells(p[2]);
      assert Cells(p[0]) + (Cells(p[1]) + Cells(p[2])) == Cells(p[0]) + Cells(p[1]) + Cells(p[2]);
    }
  }

  /** Whatever the two extents look like, carving drops exactly the overlapping destinations and
      moves no source block. */
  lemma {:induction false} CarvePunches(prior: Tag, start: int, cnt: nat)
    requires start >= 0 && prior.start >= INVALID
    ensures Flat(Carve(prior, start, cnt)) == Punch(Cells(prior), start, cnt)
  {
    FlatUpToThree(Carve(prior, start, cnt));
  }

  lemma {:induction false} MaskedExtend(s: seq<Cell>, t: Tag)
    requires t.start >= 0
    ensures Masked(s + Cells(t)) == Punch(Masked(s), t.start, t.cnt) + Cells(t)
  {
    var all, own := s + Cells(t), Cells(t);
    forall k | 0 <= k < |s|
      ensures Masked(all)[k] == Punch(Masked(s), t.start, t.cnt)[k]
    {
      if t.start <= s[k].dst < t.start + t.cnt {
        assert all[|s| + (s[k].dst - t.start)].dst == all[k].dst;
        assert Overwritten(all, k);
      } else if Overwritten(s, k) {
        var j :| k < j < |s| && s[j].dst == s[k].dst;
        assert all[j].dst == all[k].dst;
      }
    }
    forall k | |s| <= k < |all|
      ensures Masked(all)[k] == own[k - |s|]
    {
      assert all[k] == own[k - |s|];
    }
  }

  /** The inner loop of pass 3: walk back from node `at` and carve every older node.  Throughout, the
      list is tags[..r] + carved + tags[at..]; the walk never meets the nodes it inserts, because
      they go in behind its cursor r. */
  method CarveOlder(tags: seq<Tag>, at: nat, ghost kinds: set<(int, bool)>) returns (carved: seq<Tag>)
    requires at < |tags| && tags[at].start >= 0 && Starts(tags) && Within(tags, kinds)
    ensures Flat(carved) == Punch(Flat(tags[..at]), tags[at].start, tags[at].cnt)
    ensures Starts(carved) && Within(carved, kinds)
  {
    var start, cnt := tags[at].start, tags[at].cnt;
    var r := at;
    carved := [];
    assert tags[at..at] == [];
    while r > 0
      invariant 0 <= r <= at
      invariant Flat(carved) == Punch(Flat(tags[r..at]), start, cnt)
      invariant Starts(carved) && Within(carved, kinds)
    {
      r := r - 1;
      CarveStep(tags, r, at, carved, Carve(tags[r], start, cnt), start, cnt);
      carved := Carve(tags[r], start, cnt) + carved;
    }
    assert tags[..at] == tags[0..at];
  }

  lemma {:induction false} CarveStep(tags: seq<Tag>, r: nat, at: nat, tail: seq<Tag>, pieces: seq<Tag>, start: int,
                                     cnt: nat)
    requires r < at <= |tags| && start >= 0 && tags[r].start >= INVALID
    requires pieces == Carve(tags[r], start, cnt)
    requires Flat(tail) == Punch(Flat(tags[r + 1..at]), start, cnt)
    ensures Flat(pieces + tail) == Punch(Flat(tags[r..at]), start, cnt)
  {
    FlatConcat(pieces, tail);
    CarvePunches(tags[r], start, cnt);
    assert tags[r..at] == [tags[r]] + tags[r + 1..at];
    FlatConcat([tags[r]], tags[r + 1..at]);
    FlatOne(tags[r]);
    PunchConcat(Cells(tags[r]), Flat(tags[r + 1..at]), start, cnt);
  }

  lemma {:induction false} OptimizeStep(tags: seq<Tag>, m: nat, carved: seq<Tag>)
    requires m < |tags| && tags[m].start >= 0
    requires Flat(carved) == Punch(Masked(Flat(tags[..m])), tags[m].start, tags[m].cnt)
    ensures Flat(carved + [tags[m]]) == Masked(Flat(tags[..m + 1]))
  {
    var t := tags[m];
    assert tags[..m + 1] == tags[..m] + [t];
    FlatAppend(carved, t);
    FlatAppend(tags[..m], t);
    MaskedExtend(Flat(tags[..m]), t);
  }

  /** Pass 3.  In front of node m of the given list stand the carved remains of the older nodes. */
  method Optimize(tags: seq<Tag>, ghost kinds: set<(int, bool)>) returns (list: seq<Tag>)
    requires AllValid(tags) && Within(tags, kinds)
    ensures Flat(list) == Masked(Flat(tags))
    ensures Starts(list) && Within(list, kinds)
  {
    list := [];
    for m := 0 to |tags|
      invariant Flat(list) == Masked(Flat(tags[..m]))
      invariant Starts(list) && Within(list, kinds)
    {
      var carved := CarveOlder(list + [tags[m]], |list|, kinds);
      assert (list + [tags[m]])[..|list|] == list;
      OptimizeStep(tags, m, carved);
      list := carved + [tags[m]];
    }
    assert tags[..|tags|] == tags;
  }

  // What the expansion says about the nodes themselves

  lemma {:induction false} NodeCells(list: seq<Tag>, a: nat, k: nat)
    requires a < |list| && k < list[a].cnt
    ensures |Flat(list[..a])| + k < |Flat(list)|
    ensures Flat(list)[|Flat(list[..a])| + k] == Cells(list[a])[k]
  {
    assert list == list[..a] + ([list[a]] + list[a + 1..]);
    FlatConcat(list[..a], [list[a]] + list[a + 1..]);
    FlatConcat([list[a]], list[a + 1..]);
    FlatOne(list[a]);
  }

  lemma {:induction false} FlatPrefixGrows(list: seq<Tag>, a: nat, b: nat)
    requires a < b <= |list|
    ensures |Flat(list[..a])| + list[a].cnt <= |Flat(list[..b])|
  {
    assert list[..b] == list[..a] + ([list[a]] + list[a + 1..b]);
    FlatConcat(list[..a], [list[a]] + list[a + 1..b]);
    FlatConcat([list[a]], list[a + 1..b]);
    FlatOne(list[a]);
  }

  /** After pass 3 the valid extents are pairwise disjoint. */
  lemma {:induction false} OptimizedDisjoint(tags: seq<Tag>, list: seq<Tag>, a: nat, b: nat)
    requires AllValid(tags) && Starts(list) && Flat(list) == Masked(Flat(tags))
    requires a < b < |list| && list[a].start != INVALID && list[b].start != INVALID
    requires list[a].cnt > 0 && list[b].cnt > 0
    ensures list[a].start + list[a].cnt <= list[b].start || list[b].start + list[b].cnt <= list[a].start
  {
    if !(list[a].start + list[a].cnt <= list[b].start || list[b].start + list[b].cnt <= list[a].start) {
      var x := if list[a].start <= list[b].start then list[b].start else list[a].start;
      NoSharedBlock(tags, list, a, b, x - list[a].start, x - list[b].start);
      assert false;
    }
  }

  lemma {:induction false} NoSharedBlock(tags: seq<Tag>, list: seq<Tag>, a: nat, b: nat, i: nat, j: nat)
    requires AllValid(tags) && Starts(list) && Flat(list) == Masked(Flat(tags))
    requires a < b < |list| && list[a].start != INVALID && list[b].start != INVALID && i < list[a].cnt && j < list[b].cnt
    ensures list[a].start + i != list[b].start + j
  {
    NodeCells(list, a, i);
    NodeCells(list, b, j);
    FlatPrefixGrows(list, a, b);
    MaskedOwner(Flat(tags), |Flat(list[..a])| + i, |Flat(list[..b])| + j);
  }

  lemma {:induction false} MaskedOwner(s: seq<Cell>, i: nat, j: nat)
    requires i < j < |s|
    requires s[i].dst >= 0 && s[j].dst >= 0
    ensures Masked(s)[i].dst == Masked(s)[j].dst ==> Masked(s)[i].dst == INVALID
  {
    if s[i].dst == s[j].dst {
      assert Overwritten(s, i);
    }
  }

  /** Pass 3 keeps the union of the destinations, and the survivor for a block is its last writer. */
  lemma {:induction false} MaskedCovers(s: seq<Cell>, k: nat) returns (w: nat)
    requires k < |s|
    ensures k <= w < |s| && s[w].dst == s[k].dst && Masked(s)[w] == s[w]
    ensures forall j :: w < j < |s| ==> s[j].dst != s[k].dst
    decreases |s| - k
  {
    if Overwritten(s, k) {
      var j :| k < j < |s| && s[j].dst == s[k].dst;
      w := MaskedCovers(s, j);
    } else {
      w := k;
    }
  }

  // ------------------------------------------------------------------------------------------
  // Pass 4: glue neighbours of one group
  // ------------------------------------------------------------------------------------------

  predicate Mergeable(prev: Tag, node: Tag) {
    (node.start == INVALID && prev.start == INVALID)
    || (node.start != INVALID && prev.start != INVALID && node.start == prev.start + prev.cnt)
  }

  lemma {:induction false} MergeCells(prev: Tag, node: Tag)
    requires Mergeable(prev, node) && prev.base == node.base && prev.stage == node.stage
    requires prev.start >= INVALID && node.start >= INVALID
    ensures Cells(prev.(cnt := prev.cnt + node.cnt)) == Cells(prev) + Cells(node)
  {
  }

  lemma {:induction false} MergeStep(list: seq<Tag>, node: Tag, glued: Tag)
    requires list != [] && Cells(glued) == Cells(list[|list| - 1]) + Cells(node)
    ensures Flat(list[..|list| - 1] + [glued]) == Flat(list) + Cells(node)
  {
    var front, prev := list[..|list| - 1], list[|list| - 1];
    assert list == front + [prev];
    FlatAppend(front, prev);
    FlatAppend(front, glued);
    Assoc(Flat(front), Cells(prev), Cells(node));
  }

  /** No two neighbours could still be glued. */
  ghost predicate Tight(list: seq<Tag>) {
    forall i :: 0 < i < |list| && list[i - 1].base == list[i].base ==> !Mergeable(list[i - 1], list[i])
  }

  ghost predicate Glued(list: seq<Tag>, kinds: set<(int, bool)>) {
    Tight(list) && Starts(list) && Within(list, kinds)
  }

  lemma {:induction false} AppendKeeps(list: seq<Tag>, node: Tag, kinds: set<(int, bool)>)
    requires Glued(list, kinds) && node.start >= INVALID && (node.base, node.stage) in kinds
    requires list != [] && list[|list| - 1].base == node.base ==> !Mergeable(list[|list| - 1], node)
    ensures true == Glued(list + [node], kinds)
  {
  }

  lemma {:induction false} GlueKeeps(list: seq<Tag>, n: nat, kinds: set<(int, bool)>)
    requires Glued(list, kinds) && list != []
    ensures true == Glued(list[..|list| - 1] + [list[|list| - 1].(cnt := n)], kinds)
  {
  }

  /** Pass 4.  Gluing changes no cell, and what is left cannot be glued further. */
  method Coalesce(tags: seq<Tag>, ghost kinds: set<(int, bool)>) returns (list: seq<Tag>)
    requires Starts(tags) && Within(tags, kinds) && Unambiguous(kinds)
    requires forall i :: 0 <= i < |tags| ==> tags[i].base >= 0
    ensures Flat(list) == Flat(tags)
    ensures Tight(list) && |list| <= |tags|
    ensures Starts(list) && Within(list, kinds)
  {
    list := [];
    var lastGroup := -1;
    for m := 0 to |tags|
      invariant lastGroup == if list == [] then -1 else list[|list| - 1].base
      invariant Flat(list) == Flat(tags[..m]) && |list| <= m
      invariant true == Glued(list, kinds)
    {
      var node := tags[m];
      assert (node.base, node.stage) in kinds;
      assert tags[..m + 1] == tags[..m] + [node];
      FlatAppend(tags[..m], node);
      if lastGroup == node.base && Mergeable(list[|list| - 1], node) {
        var prev := list[|list| - 1];
        assert (prev.base, prev.stage) in kinds;
        MergeCells(prev, node);
        MergeStep(list, node, prev.(cnt := prev.cnt + node.cnt));
        GlueKeeps(list, prev.cnt + node.cnt, kinds);
        list := list[..|list| - 1] + [prev.(cnt := prev.cnt + node.cnt)];
      } else {
        lastGroup := node.base;
        FlatAppend(list, node);
        AppendKeeps(list, node, kinds);
        list := list + [node];
      }
    }
    assert tags[..|tags|] == tags;
  }
}
