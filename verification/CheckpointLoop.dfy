/** start_checkpoint: checkpoint the oldest transaction until enough of both logs is free. */
module CheckpointLoop {
  import opened BlockDevice
  import opened Cyclic
  import opened SourcePlan
  import opened CircularLog
  import opened JournalTx
  import opened JournalRun
  import opened JournalProof
  import opened JournalWork
  import opened JournalTheorems
  import opened JournalReach

  /** The entries of log l lie one behind the other from its tail to `floor`. */
  ghost predicate Standing(log: Log, items: seq<Item>, l: nat, floor: nat) {
    log.Ok() && Chained(items, l, log.tpos, floor) && floor <= log.hpos
  }

  ghost predicate Listed(logs: seq<Log>, items: seq<Item>, floors: seq<nat>) {
    && |logs| == 2 && |floors| == 2 && Standing(logs[0], items, 0, floors[0]) && Standing(logs[1], items, 1, floors[1])
    && forall i :: 0 <= i < |items| ==> items[i].log < 2
  }

  /** lower_journal_free_percent. */
  function LowerFree(logs: seq<Log>): int
    requires |logs| == 2 && logs[0].area.Ok() && logs[1].area.Ok() && logs[0].nFree >= 0 && logs[1].nFree >= 0
  {
    var a, b := FreePercent(logs[0].nFree, logs[0].area), FreePercent(logs[1].nFree, logs[1].area);
    if a < b then a else b
  }

  // ------------------------------------------------------------------------------------------
  // One turn of the loop
  // ------------------------------------------------------------------------------------------

  /** ckpt_list_dequeue finds an entry: it looks only at the oldest one. */
  predicate HeadReady(items: seq<Item>) {
    items != [] && items[0].ready
  }

  /** The log of the entry after its checkpoint. */
  function Release(logs: seq<Log>, item: Item): (r: seq<Log>)
    requires item.log < |logs|
    ensures |r| == |logs|
  {
    logs[item.log := logs[item.log].Release(item.Len())]
  }

  /** do_checkpoint_coalesce: nothing happens when the dequeue returns null. */
  method Checkpoint(logs: seq<Log>, items: seq<Item>) returns (logs': seq<Log>, items': seq<Item>)
    requires forall i :: 0 <= i < |items| ==> items[i].log < |logs|
    ensures !HeadReady(items) ==> logs' == logs && items' == items
    ensures HeadReady(items) ==> logs' == Release(logs, items[0]) && items' == items[1..]
  {
    if items == [] || !items[0].ready {
      return logs, items;
    }
    logs', items' := Release(logs, items[0]), items[1..];
  }

  /** How many entries the loop can take before it meets one that is not ready. */
  function ReadyEntries(items: seq<Item>): (n: nat)
    ensures n <= |items|
  {
    if HeadReady(items) then 1 + ReadyEntries(items[1..]) else 0
  }

  lemma {:induction false} ReadyAt(items: seq<Item>, r: nat)
    requires r <= ReadyEntries(items)
    ensures HeadReady(items[r..]) <==> r < ReadyEntries(items)
  {
    if r > 0 {
      ReadyAt(items[1..], r - 1);
      assert items[1..][r - 1..] == items[r..];
    }
  }

  /** The logs after the r oldest entries have been checkpointed and freed. */
  function Freed(logs: seq<Log>, items: seq<Item>, r: nat): (out: seq<Log>)
    requires r <= |items| && forall i :: 0 <= i < |items| ==> items[i].log < |logs|
    ensures |out| == |logs|
  {
    if r == 0 then logs else Release(Freed(logs, items, r - 1), items[r - 1])
  }

  lemma {:induction false} StandingNext(log: Log, items: seq<Item>, l: nat, floor: nat)
    requires Standing(log, items, l, floor) && items != []
    ensures Standing(if items[0].log == l then log.Release(items[0].Len()) else log, items[1..], l, floor)
  {
    if items[0].log == l {
      ChainBounds(items, l, log.tpos, floor);
      ReleaseOk(log, items[0].Len());
    }
  }

  lemma {:induction false} ListedNext(logs: seq<Log>, items: seq<Item>, floors: seq<nat>)
    requires Listed(logs, items, floors) && items != []
    ensures true == Listed(Release(logs, items[0]), items[1..], floors)
  {
    StandingNext(logs[0], items, 0, floors[0]);
    StandingNext(logs[1], items, 1, floors[1]);
  }

  lemma {:induction false} ListedFreed(logs: seq<Log>, items: seq<Item>, floors: seq<nat>, r: nat)
    requires true == Listed(logs, items, floors) && r <= |items|
    ensures true == Listed(Freed(logs, items, r), items[r..], floors)
  {
    if r > 0 {
      ListedFreed(logs, items, floors, r - 1);
      assert items[r - 1..][0] == items[r - 1] && items[r - 1..][1..] == items[r..];
      ListedNext(Freed(logs, items, r - 1), items[r - 1..], floors);
    }
  }

  // ------------------------------------------------------------------------------------------
  // Every checkpoint frees something
  // ------------------------------------------------------------------------------------------

  lemma {:induction false} TurnsGrow(x: nat, y: nat, size: int)
    requires x <= y && 0 < size
    ensures Turns(x, size) <= Turns(y, size)
    decreases y
  {
    if x >= size {
      TurnsGrow(x - size, y - size, size);
    }
  }

  lemma {:induction false} ReleaseGrows(logs: seq<Log>, items: seq<Item>, floors: seq<nat>)
    requires Listed(logs, items, floors) && items != [] && Listed(Release(logs, items[0]), items[1..], floors)
    ensures LowerFree(logs) <= LowerFree(Release(logs, items[0]))
  {
    var l := items[0].log;
    TurnsGrow(logs[l].nFree * 100, (logs[l].nFree + items[0].Len()) * 100, logs[l].area.Size());
  }

  lemma {:induction false} FreedGrows(logs: seq<Log>, items: seq<Item>, floors: seq<nat>, r: nat, n: nat)
    requires true == Listed(logs, items, floors) && r <= n <= |items|
    ensures Listed(Freed(logs, items, r), items[r..], floors) && Listed(Freed(logs, items, n), items[n..], floors)
    ensures LowerFree(Freed(logs, items, r)) <= LowerFree(Freed(logs, items, n))
    decreases n
  {
    ListedFreed(logs, items, floors, r);
    ListedFreed(logs, items, floors, n);
    if r < n {
      FreedGrows(logs, items, floors, r, n - 1);
      assert items[n - 1..][0] == items[n - 1] && items[n - 1..][1..] == items[n..];
      ReleaseGrows(Freed(logs, items, n - 1), items[n - 1..], floors);
    }
  }

  /** The free space that the entries ready now can give. */
  ghost predicate Reachable(logs: seq<Log>, items: seq<Item>, floors: seq<nat>, target: int)
    requires Listed(logs, items, floors)
  {
    ListedFreed(logs, items, floors, ReadyEntries(items));
    LowerFree(Freed(logs, items, ReadyEntries(items))) >= target
  }

  // ------------------------------------------------------------------------------------------
  // The loop
  // ------------------------------------------------------------------------------------------

  /** After r rounds the target is still to be met. */
  ghost predicate StillShort(logs: seq<Log>, items: seq<Item>, floors: seq<nat>, r: nat, target: int)
    requires Listed(logs, items, floors)
  {
    r <= |items| && (ListedFreed(logs, items, floors, r); LowerFree(Freed(logs, items, r)) < target)
  }

  /** When the entries that are ready can give the target, the loop ends with both logs at least that
      free, and with no entry checkpointed that was not needed for it. */
  method StartCheckpoint(logs: seq<Log>, items: seq<Item>, ghost floors: seq<nat>, target: int)
    returns (out: seq<Log>, rest: seq<Item>, rounds: nat)
    requires Listed(logs, items, floors) && Reachable(logs, items, floors, target)
    ensures rounds <= ReadyEntries(items) && out == Freed(logs, items, rounds) && rest == items[rounds..]
    ensures Listed(out, rest, floors) && LowerFree(out) >= target
    ensures forall r: nat :: r < rounds ==> StillShort(logs, items, floors, r, target)
  {
    out, rest, rounds := logs, items, 0;
    while LowerFree(out) < target
      invariant rounds <= ReadyEntries(items) && out == Freed(logs, items, rounds) && rest == items[rounds..]
      invariant true == Listed(out, rest, floors)
      invariant forall r: nat :: r < rounds ==> StillShort(logs, items, floors, r, target)
      decreases ReadyEntries(items) - rounds
    {
      assert StillShort(logs, items, floors, rounds, target);
      assert rounds < ReadyEntries(items);
      ReadyAt(items, rounds);
      ListedNext(out, rest, floors);
      out, rest := Checkpoint(out, rest);
      rounds := rounds + 1;
    }
  }

  /** The logs and the list after n turns of the loop, left to itself. */
  function Turned(logs: seq<Log>, items: seq<Item>, n: nat): (r: (seq<Log>, seq<Item>))
    requires forall i :: 0 <= i < |items| ==> items[i].log < |logs|
    decreases n
  {
    if n == 0 then (logs, items)
    else if HeadReady(items) then Turned(Release(logs, items[0]), items[1..], n - 1)
    else Turned(logs, items, n - 1)
  }

  lemma {:induction false} FreedHead(logs: seq<Log>, items: seq<Item>, r: nat)
    requires items != [] && r < |items| && forall i :: 0 <= i < |items| ==> items[i].log < |logs|
    ensures Freed(Release(logs, items[0]), items[1..], r) == Freed(logs, items, r + 1)
  {
    if r > 0 {
      FreedHead(logs, items, r - 1);
    }
  }

  /** An entry that is not ready stops the loop where it is. */
  lemma {:induction false} TurnedIs(logs: seq<Log>, items: seq<Item>, n: nat)
    requires forall i :: 0 <= i < |items| ==> items[i].log < |logs|
    ensures var r := if n < ReadyEntries(items) then n else ReadyEntries(items);
            Turned(logs, items, n) == (Freed(logs, items, r), items[r..])
    decreases n
  {
    if n > 0 {
      if HeadReady(items) {
        var m: nat := if n < ReadyEntries(items) then n else ReadyEntries(items);
        TurnedIs(Release(logs, items[0]), items[1..], n - 1);
        FreedHead(logs, items, m - 1);
        assert items[1..][m - 1..] == items[m..];
      } else {
        TurnedIs(logs, items, n - 1);
      }
    }
  }

  ghost predicate Done(logs: seq<Log>, items: seq<Item>, floors: seq<nat>, target: int, n: nat)
    requires Listed(logs, items, floors)
  {
    var t := Turned(logs, items, n);
    Listed(t.0, t.1, floors) && LowerFree(t.0) >= target
  }

  /** Left to itself the loop ends if and only if the entries that are ready can give the target; if not, it
      spins until another thread makes an entry ready. */
  lemma {:induction false} LoopEnds(logs: seq<Log>, items: seq<Item>, floors: seq<nat>, target: int)
    requires Listed(logs, items, floors)
    ensures (exists n: nat :: Done(logs, items, floors, target, n)) <==> Reachable(logs, items, floors, target)
  {
    var m := ReadyEntries(items);
    if Reachable(logs, items, floors, target) {
      TurnedIs(logs, items, m);
      ListedFreed(logs, items, floors, m);
      assert Done(logs, items, floors, target, m);
    }
    if n: nat :| Done(logs, items, floors, target, n) {
      TurnedIs(logs, items, n);
      FreedGrows(logs, items, floors, if n < m then n else m, m);
    }
  }

  lemma {:induction false} AllReady(items: seq<Item>)
    requires forall i :: 0 <= i < |items| ==> items[i].ready
    ensures ReadyEntries(items) == |items|
  {
    if items != [] {
      AllReady(items[1..]);
    }
  }

  /** With every entry ready and no transaction in between, any target up to 100 can be met. */
  lemma {:induction false} ReadyIsReachable(logs: seq<Log>, items: seq<Item>, floors: seq<nat>, target: int)
    requires Listed(logs, items, floors) && target <= 100 && forall i :: 0 <= i < |items| ==> items[i].ready
    requires floors == [logs[0].hpos, logs[1].hpos]
    ensures Reachable(logs, items, floors, target)
  {
    AllReady(items);
    var out := Freed(logs, items, |items|);
    ListedFreed(logs, items, floors, |items|);
    assert items[|items|..] == [];
    FreedHeads(logs, items, |items|);
    assert out[0].nFree == out[0].area.Size() && out[1].nFree == out[1].area.Size();
  }

  lemma {:induction false} FreedHeads(logs: seq<Log>, items: seq<Item>, r: nat)
    requires |logs| == 2 && r <= |items| && forall i :: 0 <= i < |items| ==> items[i].log < 2
    ensures Freed(logs, items, r)[0].hpos == logs[0].hpos && Freed(logs, items, r)[1].hpos == logs[1].hpos
  {
    if r > 0 {
      FreedHeads(logs, items, r - 1);
    }
  }

  // ------------------------------------------------------------------------------------------
  // A round is a run of the journal
  // ------------------------------------------------------------------------------------------

  /** The inodes that are left to overlay. */
  lemma {:induction false} OverlayAll(c: Config, d0: Disk, s: Run) returns (steps: seq<Action>, t: Run)
    requires true == Inv(c, d0, s) && s.ckpt.Running? && s.ckpt.inodes <= |s.ckpt.item.job.overlays|
    ensures true == Leads(c, d0, s, steps, t)
    ensures t == s.(store := t.store, ckpt := s.ckpt.(inodes := |s.ckpt.item.job.overlays|))
    decreases |s.ckpt.item.job.overlays| - s.ckpt.inodes
  {
    if s.ckpt.inodes == |s.ckpt.item.job.overlays| {
      steps, t := [], s;
    } else {
      var s1, more := Apply(c, d0, s, CkptInode), [];
      LeadsOne(c, d0, s, CkptInode);
      more, t := OverlayAll(c, d0, s1);
      steps := [CkptInode] + more;
      LeadsOn(c, d0, s, [CkptInode], s1, more, t);
    }
  }

  /** One block read and written. */
  lemma {:induction false} CopyNext(c: Config, d0: Disk, s: Run) returns (t: Run)
    requires true == Inv(c, d0, s) && s.ckpt.Running? && s.ckpt.inodes == |s.ckpt.item.job.overlays| && s.ckpt.bufs == []
    requires s.ckpt.copied < |s.ckpt.item.job.plan|
    ensures true == Leads(c, d0, s, [CkptRead] + [CkptWrite], t)
    ensures t == s.(store := t.store, ckpt := s.ckpt.(copied := s.ckpt.copied + 1))
  {
    var s1 := Apply(c, d0, s, CkptRead);
    LeadsOne(c, d0, s, CkptRead);
    assert s1.ckpt.bufs[1..] == [];
    t := Apply(c, d0, s1, CkptWrite);
    LeadsOne(c, d0, s1, CkptWrite);
    LeadsOn(c, d0, s, [CkptRead], s1, [CkptWrite], t);
  }

  /** The blocks that are left to copy. */
  lemma {:induction false} CopyAll(c: Config, d0: Disk, s: Run) returns (steps: seq<Action>, t: Run)
    requires true == Inv(c, d0, s) && s.ckpt.Running? && s.ckpt.inodes == |s.ckpt.item.job.overlays| && s.ckpt.bufs == []
    requires s.ckpt.copied <= |s.ckpt.item.job.plan|
    ensures true == Leads(c, d0, s, steps, t)
    ensures t == s.(store := t.store, ckpt := s.ckpt.(copied := |s.ckpt.item.job.plan|))
    decreases |s.ckpt.item.job.plan| - s.ckpt.copied
  {
    if s.ckpt.copied == |s.ckpt.item.job.plan| {
      steps, t := [], s;
    } else {
      var s1 := CopyNext(c, d0, s);
      var more;
      more, t := CopyAll(c, d0, s1);
      steps := [CkptRead] + [CkptWrite] + more;
      LeadsOn(c, d0, s, [CkptRead] + [CkptWrite], s1, more, t);
    }
  }

  lemma {:induction false} PendingLogs(c: Config, d0: Disk, s: Run)
    requires true == Inv(c, d0, s)
    ensures forall i :: 0 <= i < |s.pending| ==> s.pending[i].log < 2
  {
    CoreOfInv(c, d0, s);
    assert Holds(c, d0, s, OfItems);
    forall i | 0 <= i < |s.pending| ensures s.pending[i].log < 2 {
      var k := if s.ckpt.Running? then i + 1 else i;
      assert ItemOk(c, d0, s.store, s.Live()[k]);
    }
  }

  /** A ready entry is checkpointed and freed by a run of the checkpoint thread. */
  lemma {:induction false} RoundIsRun(c: Config, d0: Disk, s: Run) returns (steps: seq<Action>, t: Run)
    requires true == Inv(c, d0, s) && s.ckpt.NoCkpt? && HeadReady(s.pending)
    ensures s.pending[0].log < 2 && true == Leads(c, d0, s, steps, t)
    ensures t == s.(store := t.store, logs := Release(s.logs, s.pending[0]), pending := s.pending[1..],
                    sbTxId := s.pending[0].job.tx.id + 1, done := s.done + 1)
  {
    PendingLogs(c, d0, s);
    var s1 := Apply(c, d0, s, StartCkpt);
    LeadsOne(c, d0, s, StartCkpt);
    var over, s2 := OverlayAll(c, d0, s1);
    LeadsOn(c, d0, s, [StartCkpt], s1, over, s2);
    var copies, s3 := CopyAll(c, d0, s2);
    LeadsOn(c, d0, s, [StartCkpt] + over, s2, copies, s3);
    t := Apply(c, d0, s3, FinishCkpt);
    LeadsOne(c, d0, s3, FinishCkpt);
    steps := [StartCkpt] + over + copies + [FinishCkpt];
    LeadsOn(c, d0, s, [StartCkpt] + over + copies, s3, [FinishCkpt], t);
  }

  /** The list is empty or its oldest entry is not ready: the checkpoint thread can do nothing. */
  lemma {:induction false} NothingToDo(c: Config, d0: Disk, s: Run, a: Action)
    requires Inv(c, d0, s) && s.ckpt.NoCkpt? && !HeadReady(s.pending)
    requires a.StartCkpt? || a.CkptInode? || a.CkptRead? || a.CkptWrite? || a.FinishCkpt?
    ensures !Enabled(c, d0, s, a)
  {
  }

  lemma {:induction false} FreedFirst(logs: seq<Log>, items: seq<Item>, n: nat)
    requires 0 < n <= ReadyEntries(items) && forall i :: 0 <= i < |items| ==> items[i].log < |logs|
    ensures HeadReady(items) && n - 1 <= ReadyEntries(items[1..])
    ensures Freed(Release(logs, items[0]), items[1..], n - 1) == Freed(logs, items, n) && items[1..][n - 1..] == items[n..]
  {
    FreedHead(logs, items, n - 1);
  }

  lemma {:induction false} RoundsAreRun(c: Config, d0: Disk, s: Run, n: nat) returns (steps: seq<Action>, t: Run)
    requires true == Inv(c, d0, s) && s.ckpt.NoCkpt? && n <= ReadyEntries(s.pending)
    ensures true == Leads(c, d0, s, steps, t) && t.ckpt.NoCkpt? && t.pending == s.pending[n..]
    ensures (forall i :: 0 <= i < |s.pending| ==> s.pending[i].log < |s.logs|) && t.logs == Freed(s.logs, s.pending, n)
    decreases n
  {
    PendingLogs(c, d0, s);
    if n == 0 {
      steps, t := [], s;
    } else {
      FreedFirst(s.logs, s.pending, n);
      var first, s1 := RoundIsRun(c, d0, s);
      var more;
      more, t := RoundsAreRun(c, d0, s1, n - 1);
      steps := first + more;
      LeadsOn(c, d0, s, first, s1, more, t);
    }
  }

  lemma {:induction false} ListedOf(c: Config, d0: Disk, s: Run)
    requires true == Inv(c, d0, s) && s.ckpt.NoCkpt?
    ensures true == Listed(s.logs, s.pending, [FloorOf(s.logs[0], s.flight[0]), FloorOf(s.logs[1], s.flight[1])])
  {
    PendingLogs(c, d0, s);
    CoreOfInv(c, d0, s);
    LogOfCore(c, d0, s, 0);
    LogOfCore(c, d0, s, 1);
    assert s.Live() == s.pending;
  }

  /** From any reachable state whose ready entries can give the target, the rounds of start_checkpoint are a
      run of the journal that gives it. */
  lemma {:induction false} LoopIsRun(c: Config, d0: Disk, s: Run, floors: seq<nat>, target: int)
    returns (steps: seq<Action>, t: Run)
    requires true == Inv(c, d0, s) && s.ckpt.NoCkpt? && Listed(s.logs, s.pending, floors)
    requires Reachable(s.logs, s.pending, floors, target)
    ensures true == Leads(c, d0, s, steps, t) && Listed(t.logs, t.pending, floors) && LowerFree(t.logs) >= target
  {
    var n := ReadyEntries(s.pending);
    ListedFreed(s.logs, s.pending, floors, n);
    steps, t := RoundsAreRun(c, d0, s, n);
  }
}
