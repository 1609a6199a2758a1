/** Overlaying inodes and copying data: one transaction after the other, or all inodes first. */
module InodeOrder {
  import opened TagList
  import opened BlockDevice
  import opened SourcePlan
  import opened Checkpoint

  /** The inode bytes at their place in the inode table block. */
  function Patch(u: InodeUpdate): Disk {
    map l | l in BlockLocs(u.blk) && u.Offset() <= l.byte < u.Offset() + |u.bytes| :: u.bytes[l.byte - u.Offset()]
  }

  /** An inode overlay followed by the copies of a group. */
  datatype Step = Step(inode: InodeUpdate, group: Group)

  function GroupsIn(steps: seq<Step>): (r: seq<Group>)
    ensures |r| == |steps|
  {
    seq(|steps|, i requires 0 <= i < |steps| => steps[i].group)
  }

  ghost predicate StepsOk(steps: seq<Step>, areas: Areas) {
    GroupsOk(GroupsIn(steps), areas)
  }

  lemma {:induction false} StepsFront(steps: seq<Step>, areas: Areas)
    requires StepsOk(steps, areas) && steps != []
    ensures StepsOk(steps[..|steps| - 1], areas) && GroupOk(steps[|steps| - 1].group, areas)
    ensures GroupsIn(steps)[..|steps| - 1] == GroupsIn(steps[..|steps| - 1])
    ensures GroupsIn(steps)[|steps| - 1] == steps[|steps| - 1].group
  {
    var gs, front := GroupsIn(steps), GroupsIn(steps[..|steps| - 1]);
    assert gs[..|steps| - 1] == front;
    forall i | 0 <= i < |front| ensures GroupOk(front[i], areas) {
      assert front[i] == gs[i];
    }
    assert GroupOk(gs[|steps| - 1], areas);
  }

  /** Each step overlays its inode and then copies its group. */
  ghost function InOrder(d: Disk, steps: seq<Step>, areas: Areas): Disk
    requires StepsOk(steps, areas)
  {
    if steps == [] then map[]
    else
      StepsFront(steps, areas);
      var n := |steps| - 1;
      InOrder(d, steps[..n], areas) + Patch(steps[n].inode) + Writes(d, GroupCopies(steps[n].group, areas))
  }

  function PatchesIn(steps: seq<Step>): Disk {
    if steps == [] then map[] else PatchesIn(steps[..|steps| - 1]) + Patch(steps[|steps| - 1].inode)
  }

  lemma {:induction false} GroupsAppend(steps: seq<Step>, step: Step, areas: Areas)
    requires StepsOk(steps, areas) && GroupOk(step.group, areas)
    ensures GroupsIn(steps + [step]) == GroupsIn(steps) + [step.group] && StepsOk(steps + [step], areas)
    ensures (steps + [step])[..|steps|] == steps
  {
    var gs := GroupsIn(steps + [step]);
    assert gs == GroupsIn(steps) + [step.group];
    forall i | 0 <= i < |gs| ensures GroupOk(gs[i], areas) {
      assert i < |steps| ==> gs[i] == GroupsIn(steps)[i];
    }
  }

  lemma {:induction false} InOrderAppend(d: Disk, steps: seq<Step>, step: Step, areas: Areas)
    requires StepsOk(steps, areas) && GroupOk(step.group, areas)
    ensures StepsOk(steps + [step], areas)
    ensures InOrder(d, steps + [step], areas)
         == InOrder(d, steps, areas) + Patch(step.inode) + Writes(d, GroupCopies(step.group, areas))
    ensures PatchesIn(steps + [step]) == PatchesIn(steps) + Patch(step.inode)
  {
    GroupsAppend(steps, step, areas);
  }

  /** All inodes first. */
  ghost function Hoisted(d: Disk, steps: seq<Step>, areas: Areas): Disk
    requires StepsOk(steps, areas)
  {
    PatchesIn(steps) + Writes(d, AllCopies(GroupsIn(steps), areas))
  }

  ghost predicate Targets(g: Group, blk: int) {
    exists k :: 0 <= k < |g.ToCells()| && g.ToCells()[k].dst == blk
  }

  /** One of the steps a .. b - 1 copies onto the block. */
  ghost predicate TargetedIn(steps: seq<Step>, a: nat, b: nat, blk: int) {
    exists k :: a <= k < b && k < |steps| && Targets(steps[k].group, blk)
  }

  /** Whatever is copied onto an inode table block before its inode is overlaid is copied over again
      afterwards. */
  ghost predicate Recopied(steps: seq<Step>) {
    forall j: nat :: j < |steps| && steps[j].inode.bytes != [] && TargetedIn(steps, 0, j, steps[j].inode.blk)
      ==> TargetedIn(steps, j, |steps|, steps[j].inode.blk)
  }

  /** The byte belongs to an inode whose block was copied onto before and not after. */
  ghost predicate DisputedBy(steps: seq<Step>, l: Loc, j: nat) {
    && j < |steps| && l in Patch(steps[j].inode)
    && TargetedIn(steps, 0, j, l.blk) && !TargetedIn(steps, j, |steps|, l.blk)
  }

  ghost predicate Disputed(steps: seq<Step>, l: Loc) {
    exists j: nat :: DisputedBy(steps, l, j)
  }

  lemma {:induction false} GroupWrites(d: Disk, g: Group, areas: Areas, l: Loc)
    requires GroupOk(g, areas)
    ensures l in Writes(d, GroupCopies(g, areas)) <==> Targets(g, l.blk) && 0 <= l.byte < BLOCK_SIZE
  {
    var copies := GroupCopies(g, areas);
    WritesKeys(d, copies);
    if Writing(copies, l.blk) {
      var k :| 0 <= k < |copies| && copies[k].dst == l.blk;
      assert g.ToCells()[k].dst == l.blk;
    }
    if Targets(g, l.blk) {
      var k :| 0 <= k < |g.ToCells()| && g.ToCells()[k].dst == l.blk;
      assert copies[k].dst == l.blk;
    }
  }

  lemma {:induction false} TargetedFront(steps: seq<Step>, a: nat, blk: int)
    requires steps != [] && a < |steps|
    ensures TargetedIn(steps, a, |steps|, blk)
            <==> TargetedIn(steps[..|steps| - 1], a, |steps| - 1, blk) || Targets(steps[|steps| - 1].group, blk)
  {
    var n := |steps| - 1;
    var front := steps[..n];
    if TargetedIn(steps, a, |steps|, blk) {
      var k :| a <= k < |steps| && Targets(steps[k].group, blk);
      assert k < n ==> Targets(front[k].group, blk);
    }
    if TargetedIn(front, a, n, blk) {
      var k :| a <= k < n && Targets(front[k].group, blk);
      assert Targets(steps[k].group, blk);
    }
  }

  lemma {:induction false} TargetedPrefix(steps: seq<Step>, n: nat, j: nat, blk: int)
    requires j <= n <= |steps|
    ensures TargetedIn(steps[..n], 0, j, blk) <==> TargetedIn(steps, 0, j, blk)
  {
    var front := steps[..n];
    if TargetedIn(steps, 0, j, blk) {
      var k :| 0 <= k < j && Targets(steps[k].group, blk);
      assert Targets(front[k].group, blk);
    }
    if TargetedIn(front, 0, j, blk) {
      var k :| 0 <= k < j && Targets(front[k].group, blk);
      assert Targets(steps[k].group, blk);
    }
  }

  /** All copies together write the blocks that some group targets. */
  lemma {:induction false} CopiesWrite(d: Disk, steps: seq<Step>, areas: Areas, l: Loc)
    requires StepsOk(steps, areas)
    ensures l in Writes(d, AllCopies(GroupsIn(steps), areas)) <==> TargetedIn(steps, 0, |steps|, l.blk) && 0 <= l.byte < BLOCK_SIZE
  {
    if steps != [] {
      var n := |steps| - 1;
      StepsFront(steps, areas);
      CopiesWrite(d, steps[..n], areas, l);
      GroupWrites(d, steps[n].group, areas, l);
      TargetedFront(steps, 0, l.blk);
      WritesConcat(d, AllCopies(GroupsIn(steps[..n]), areas), GroupCopies(steps[n].group, areas));
    }
  }

  ghost predicate SameAt(a: Disk, b: Disk, l: Loc) {
    (l in a <==> l in b) && (l in a ==> a[l] == b[l])
  }

  /** A dispute over the front stays one unless the last step copies onto the block. */
  lemma {:induction false} DisputeStays(steps: seq<Step>, l: Loc)
    requires steps != [] && !Targets(steps[|steps| - 1].group, l.blk)
    ensures Disputed(steps[..|steps| - 1], l) ==> Disputed(steps, l)
  {
    var n := |steps| - 1;
    if Disputed(steps[..n], l) {
      var j: nat :| DisputedBy(steps[..n], l, j);
      TargetedPrefix(steps, n, j, l.blk);
      TargetedFront(steps, j, l.blk);
      assert DisputedBy(steps, l, j);
    }
  }

  /** The byte after one more inode p and one more set of copies w. */
  lemma {:induction false} SameAfter(x: Disk, y: Disk, z: Disk, p: Disk, w: Disk, l: Loc)
    requires l in w || (if l in p then l !in z else SameAt(x, y + z, l))
    ensures SameAt(x + p + w, (y + p) + (z + w), l)
  {
  }

  lemma {:induction false} OrdersNext(d: Disk, steps: seq<Step>, areas: Areas)
    requires StepsOk(steps, areas) && steps != []
    ensures var n := |steps| - 1;
            && StepsOk(steps[..n], areas) && GroupOk(steps[n].group, areas)
            && var p, w := Patch(steps[n].inode), Writes(d, GroupCopies(steps[n].group, areas));
               && InOrder(d, steps, areas) == InOrder(d, steps[..n], areas) + p + w
               && Hoisted(d, steps, areas)
                  == (PatchesIn(steps[..n]) + p) + (Writes(d, AllCopies(GroupsIn(steps[..n]), areas)) + w)
  {
    StepsFront(steps, areas);
    WritesConcat(d, AllCopies(GroupsIn(steps[..|steps| - 1]), areas), GroupCopies(steps[|steps| - 1].group, areas));
  }

  /** The two orders give every byte the same value unless it is disputed. */
  lemma {:induction false} AgreeOrDisputed(d: Disk, steps: seq<Step>, areas: Areas, l: Loc)
    requires StepsOk(steps, areas)
    ensures SameAt(InOrder(d, steps, areas), Hoisted(d, steps, areas), l) || Disputed(steps, l)
  {
    if steps != [] {
      var n := |steps| - 1;
      var front, last := steps[..n], steps[n];
      OrdersNext(d, steps, areas);
      AgreeOrDisputed(d, front, areas, l);
      var p, w, z := Patch(last.inode), Writes(d, GroupCopies(last.group, areas)), Writes(d, AllCopies(GroupsIn(front), areas));
      GroupWrites(d, last.group, areas, l);
      CopiesWrite(d, front, areas, l);
      if l !in w && l in p && l in z {
        LastDisputes(steps, l);
      } else if l !in w && l !in p && Disputed(front, l) {
        PatchedByte(front, l);
        DisputeStays(steps, l);
      } else {
        SameAfter(InOrder(d, front, areas), PatchesIn(front), z, p, w, l);
      }
    }
  }

  lemma {:induction false} PatchedByte(steps: seq<Step>, l: Loc)
    requires Disputed(steps, l)
    ensures 0 <= l.byte < BLOCK_SIZE
  {
  }

  lemma {:induction false} LastDisputes(steps: seq<Step>, l: Loc)
    requires steps != [] && l in Patch(steps[|steps| - 1].inode) && !Targets(steps[|steps| - 1].group, l.blk)
    requires TargetedIn(steps[..|steps| - 1], 0, |steps| - 1, l.blk)
    ensures Disputed(steps, l)
  {
    var n := |steps| - 1;
    TargetedPrefix(steps, n, n, l.blk);
    assert DisputedBy(steps, l, n);
  }

  // ------------------------------------------------------------------------------------------
  // A disputed byte tells the orders apart
  // ------------------------------------------------------------------------------------------

  /** In order, a disputed byte is an inode's, whatever the disk holds. */
  lemma {:induction false} DisputedIsPatched(d: Disk, e: Disk, steps: seq<Step>, areas: Areas, l: Loc)
    requires StepsOk(steps, areas) && Disputed(steps, l)
    ensures l in InOrder(d, steps, areas) && l in InOrder(e, steps, areas)
    ensures InOrder(d, steps, areas)[l] == InOrder(e, steps, areas)[l]
  {
    var n := |steps| - 1;
    var j: nat :| DisputedBy(steps, l, j);
    StepsFront(steps, areas);
    TargetedFront(steps, j, l.blk);
    GroupWrites(d, steps[n].group, areas, l);
    GroupWrites(e, steps[n].group, areas, l);
    if l !in Patch(steps[n].inode) {
      TargetedPrefix(steps, n, j, l.blk);
      assert DisputedBy(steps[..n], l, j);
      DisputedIsPatched(d, e, steps[..n], areas, l);
    }
  }

  /** The last copy onto a block decides its content. */
  ghost function LastSource(copies: seq<Copy>, blk: int): int
    requires Writing(copies, blk)
  {
    var n := |copies| - 1;
    if copies[n].dst == blk then copies[n].src
    else
      WritingFront(copies, blk);
      LastSource(copies[..n], blk)
  }

  lemma {:induction false} WritingFront(copies: seq<Copy>, blk: int)
    requires Writing(copies, blk) && copies[|copies| - 1].dst != blk
    ensures Writing(copies[..|copies| - 1], blk)
  {
    var k :| 0 <= k < |copies| && copies[k].dst == blk;
    assert copies[..|copies| - 1][k].dst == blk;
  }

  lemma {:induction false} LastSourceRead(d: Disk, copies: seq<Copy>, l: Loc)
    requires Writing(copies, l.blk) && 0 <= l.byte < BLOCK_SIZE
    ensures l in Writes(d, copies) && Writes(d, copies)[l] == Read(d, Loc(LastSource(copies, l.blk), l.byte))
  {
    var n := |copies| - 1;
    if copies[n].dst != l.blk {
      WritingFront(copies, l.blk);
      LastSourceRead(d, copies[..n], l);
    }
  }

  /** All inodes first, a disputed byte comes from the disk. */
  lemma {:induction false} DisputedIsCopied(d: Disk, steps: seq<Step>, areas: Areas, l: Loc)
    requires StepsOk(steps, areas) && Disputed(steps, l)
    ensures 0 <= l.byte < BLOCK_SIZE && Writing(AllCopies(GroupsIn(steps), areas), l.blk)
    ensures l in Hoisted(d, steps, areas)
    ensures Hoisted(d, steps, areas)[l] == Read(d, Loc(LastSource(AllCopies(GroupsIn(steps), areas), l.blk), l.byte))
  {
    var copies := AllCopies(GroupsIn(steps), areas);
    var j: nat :| DisputedBy(steps, l, j);
    var k :| 0 <= k < j && k < |steps| && Targets(steps[k].group, l.blk);
    assert TargetedIn(steps, 0, |steps|, l.blk);
    CopiesWrite(d, steps, areas, l);
    WritesKeys(d, copies);
    LastSourceRead(d, copies, l);
  }

  lemma {:induction false} DisputedDiffers(steps: seq<Step>, areas: Areas, l: Loc) returns (d: Disk)
    requires StepsOk(steps, areas) && Disputed(steps, l)
    ensures InOrder(d, steps, areas) != Hoisted(d, steps, areas)
  {
    DisputedIsPatched(map[], map[], steps, areas, l);
    DisputedIsCopied(map[], steps, areas, l);
    var v := InOrder(map[], steps, areas)[l];
    d := map[Loc(LastSource(AllCopies(GroupsIn(steps), areas), l.blk), l.byte) := v + 1];
    DisputedIsPatched(d, map[], steps, areas, l);
    DisputedIsCopied(d, steps, areas, l);
  }

  // ------------------------------------------------------------------------------------------
  // The exact condition
  // ------------------------------------------------------------------------------------------

  ghost predicate InodesFit(steps: seq<Step>) {
    forall j :: 0 <= j < |steps| ==> steps[j].inode.Fits()
  }

  lemma {:induction false} RecopiedIsUndisputed(steps: seq<Step>)
    requires InodesFit(steps)
    ensures Recopied(steps) <==> forall l :: !Disputed(steps, l)
  {
    if Recopied(steps) {
      forall l, j: nat ensures !DisputedBy(steps, l, j) {
      }
    } else {
      var j: nat :| j < |steps| && steps[j].inode.bytes != [] && TargetedIn(steps, 0, j, steps[j].inode.blk)
                    && !TargetedIn(steps, j, |steps|, steps[j].inode.blk);
      var u := steps[j].inode;
      assert u.Fits();
      var l := Loc(u.blk, u.Offset());
      assert l in Patch(u);
      assert DisputedBy(steps, l, j);
      assert Disputed(steps, l);
    }
  }

  /** Overlaying all inodes first comes to the same on this disk. */
  lemma {:induction false} HoistAgrees(d: Disk, steps: seq<Step>, areas: Areas)
    requires StepsOk(steps, areas) && InodesFit(steps) && Recopied(steps)
    ensures InOrder(d, steps, areas) == Hoisted(d, steps, areas)
  {
    RecopiedIsUndisputed(steps);
    var a, b := InOrder(d, steps, areas), Hoisted(d, steps, areas);
    forall l ensures SameAt(a, b, l) {
      AgreeOrDisputed(d, steps, areas, l);
    }
    SameMaps(a, b);
  }

  lemma {:induction false} SameMaps(a: Disk, b: Disk)
    requires forall l :: SameAt(a, b, l)
    ensures a == b
  {
    assert forall l :: l in a ==> SameAt(a, b, l);
    assert forall l :: l in b ==> SameAt(a, b, l);
  }

  /** The two orders agree on every disk if and only if every block that is copied onto before an inode
      is overlaid in it is copied onto again by that step or a later one. */
  lemma {:induction false} HoistExact(steps: seq<Step>, areas: Areas)
    requires StepsOk(steps, areas) && InodesFit(steps)
    ensures (forall d: Disk :: InOrder(d, steps, areas) == Hoisted(d, steps, areas)) <==> Recopied(steps)
  {
    if Recopied(steps) {
      forall d: Disk ensures InOrder(d, steps, areas) == Hoisted(d, steps, areas) {
        HoistAgrees(d, steps, areas);
      }
    } else {
      RecopiedIsUndisputed(steps);
      var l :| Disputed(steps, l);
      var d := DisputedDiffers(steps, areas, l);
    }
  }
}
