/** What the journal promises, over every run from an empty journal. */
module JournalTheorems {
  import opened BlockDevice
  import opened SourcePlan
  import opened CircularLog
  import opened LogLayout
  import opened JournalTx
  import opened JournalRun
  import opened JournalProof
  import opened JournalWork

  function EmptyLog(area: Area): Log {
    Log(area, area.first, area.first, area.Size(), 0, 0)
  }

  /** After init_journal, with the id `sb` in the superblock it has loaded. */
  function EmptyJournal(c: Config, d0: Disk, sb: nat): Run
    requires |c.logs| == 2
  {
    Run(d0, [EmptyLog(c.logs[0]), EmptyLog(c.logs[1])], [Idle, Idle], [], NoCkpt, 0, sb, sb, [], 0)
  }

  lemma {:induction false} InitCore(c: Config, d0: Disk, sb: nat)
    requires c.Ok()
    ensures true == Core(c, d0, EmptyJournal(c, d0, sb))
  {
    var s := EmptyJournal(c, d0, sb);
    assert Replay(d0, []) + map[] == d0;
    CoreFrom(c, d0, s, 0);
  }

  lemma {:induction false} InitInv(c: Config, d0: Disk, sb: nat)
    requires c.Ok()
    ensures Inv(c, d0, EmptyJournal(c, d0, sb))
  {
    InitCore(c, d0, sb);
    InvFrom(c, d0, EmptyJournal(c, d0, sb));
  }

  ghost function Init(c: Config, d0: Disk, sb: nat): (s: Run)
    requires c.Ok()
    ensures Inv(c, d0, s) && s.store == d0 && s.committed == []
  {
    InitInv(c, d0, sb);
    EmptyJournal(c, d0, sb)
  }

  /** The steps can be taken one after the other. */
  ghost predicate Possible(c: Config, d0: Disk, s: Run, steps: seq<Action>)
    requires Inv(c, d0, s)
    decreases |steps|
  {
    steps == [] || (Enabled(c, d0, s, steps[0]) &&
                    (StepKeepsInv(c, d0, s, steps[0]); Possible(c, d0, Apply(c, d0, s, steps[0]), steps[1..])))
  }

  ghost function After(c: Config, d0: Disk, s: Run, steps: seq<Action>): Run
    requires Inv(c, d0, s) && Possible(c, d0, s, steps)
    decreases |steps|
  {
    if steps == [] then s
    else
      StepKeepsInv(c, d0, s, steps[0]);
      After(c, d0, Apply(c, d0, s, steps[0]), steps[1..])
  }

  lemma {:induction false} RunKeepsInv(c: Config, d0: Disk, s: Run, steps: seq<Action>)
    requires Inv(c, d0, s) && Possible(c, d0, s, steps)
    ensures Inv(c, d0, After(c, d0, s, steps))
    decreases |steps|
  {
    if steps != [] {
      StepKeepsInv(c, d0, s, steps[0]);
      RunKeepsInv(c, d0, Apply(c, d0, s, steps[0]), steps[1..]);
    }
  }

  // ------------------------------------------------------------------------------------------
  // The view
  // ------------------------------------------------------------------------------------------

  /** The job's transaction is one for its log; kept folded by Look. */
  ghost predicate TxOfLog(c: Config, d0: Disk, job: Job, look: Look) {
    TxOk(c, job.log, job.tx, d0)
  }

  ghost predicate IsTx(c: Config, d0: Disk, job: Job) {
    forall look :: TxOfLog(c, d0, job, look)
  }

  ghost predicate AllTxs(c: Config, d0: Disk, jobs: seq<Job>) {
    forall i :: 0 <= i < |jobs| ==> IsTx(c, d0, jobs[i])
  }

  /** What the job's transaction means: no other field of the job is read. */
  ghost function MeaningOf(c: Config, d0: Disk, job: Job): Disk
    requires IsTx(c, d0, job)
  {
    assert TxOfLog(c, d0, job, Look);
    Intended(c, job.log, job.tx, d0)
  }

  /** A disk with what the transactions mean laid over it, one after the other. */
  ghost function ReplayTxs(c: Config, d0: Disk, base: Disk, jobs: seq<Job>): Disk
    requires AllTxs(c, d0, jobs)
  {
    if jobs == [] then base
    else
      var n := |jobs| - 1;
      assert forall i :: 0 <= i < n ==> jobs[..n][i] == jobs[i];
      ReplayTxs(c, d0, base, jobs[..n]) + MeaningOf(c, d0, jobs[n])
  }

  function JobsIn(items: seq<Item>): (r: seq<Job>)
    ensures |r| == |items|
  {
    seq(|items|, i requires 0 <= i < |items| => items[i].job)
  }

  /** The disk with every live transaction replayed over it, oldest first. */
  ghost function View(c: Config, d0: Disk, s: Run): Disk
    requires AllTxs(c, d0, JobsIn(s.Live()))
  {
    ReplayTxs(c, d0, s.store, JobsIn(s.Live()))
  }

  lemma {:induction false} MeaningfulTx(c: Config, d0: Disk, job: Job)
    requires Meaningful(c, d0, job)
    ensures IsTx(c, d0, job) && job.effect == MeaningOf(c, d0, job)
  {
    assert MeaningfulJob(c, d0, job, Look);
    forall look ensures TxOfLog(c, d0, job, look) {
    }
  }

  lemma {:induction false} MeaningfulTxs(c: Config, d0: Disk, jobs: seq<Job>)
    requires true == AllMeaningful(c, d0, jobs)
    ensures true == AllTxs(c, d0, jobs)
  {
    forall i | 0 <= i < |jobs| ensures IsTx(c, d0, jobs[i]) {
      MeaningfulTx(c, d0, jobs[i]);
    }
  }

  lemma {:induction false} ReplayMore(base: Disk, jobs: seq<Job>, job: Job)
    ensures Replay(base, jobs + [job]) == Replay(base, jobs) + job.effect
  {
    assert (jobs + [job])[..|jobs|] == jobs;
  }

  lemma {:induction false} ReplayTxsMore(c: Config, d0: Disk, base: Disk, jobs: seq<Job>, job: Job)
    requires AllTxs(c, d0, jobs) && IsTx(c, d0, job) && AllTxs(c, d0, jobs + [job])
    ensures ReplayTxs(c, d0, base, jobs + [job]) == ReplayTxs(c, d0, base, jobs) + MeaningOf(c, d0, job)
  {
    assert (jobs + [job])[..|jobs|] == jobs;
  }

  /** Replaying recorded effects is replaying the transactions. */
  lemma {:induction false} EffectsAreTxs(c: Config, d0: Disk, base: Disk, jobs: seq<Job>)
    requires true == AllMeaningful(c, d0, jobs) && true == AllTxs(c, d0, jobs)
    ensures ReplayTxs(c, d0, base, jobs) == Replay(base, jobs)
  {
    if jobs != [] {
      var n := |jobs| - 1;
      var front, job := jobs[..n], jobs[n];
      assert true == AllMeaningful(c, d0, front);
      MeaningfulTxs(c, d0, front);
      EffectsAreTxs(c, d0, base, front);
      MeaningfulTx(c, d0, job);
      assert jobs == front + [job];
      ReplayMore(base, front, job);
      ReplayTxsMore(c, d0, base, front, job);
    }
  }

  lemma {:induction false} MergePrefix(ws: seq<Disk>, n: nat)
    requires n <= |ws|
    ensures Merge(ws[..n]).Keys <= Merge(ws).Keys
    decreases |ws|
  {
    if n < |ws| {
      var m := |ws| - 1;
      assert ws[..m][..n] == ws[..n];
      MergePrefix(ws[..m], n);
    } else {
      assert ws[..n] == ws;
    }
  }

  lemma {:induction false} WritesPrefix(d: Disk, copies: seq<Copy>, n: nat)
    requires n <= |copies|
    ensures Writes(d, copies[..n]).Keys <= Writes(d, copies).Keys
  {
    assert copies == copies[..n] + copies[n..];
    WritesConcat(d, copies[..n], copies[n..]);
  }

  /** What a running checkpoint has written is part of what it will have written. */
  lemma {:induction false} PartialInEffect(c: Config, d0: Disk, store: Disk, k: Ckpt)
    requires k.Running? && true == ItemOk(c, d0, store, k.item) && true == StageKept(c, d0, store)
    requires k.inodes <= |k.item.job.overlays| && k.copied <= |k.item.job.plan|
    ensures Partial(store, k).Keys <= k.item.job.effect.Keys
  {
    var job := k.item.job;
    var all := k.(inodes := |job.overlays|, copied := |job.plan|);
    FinishedEffect(c, d0, store, all);
    assert job.overlays[..|job.overlays|] == job.overlays && job.plan[..|job.plan|] == job.plan;
    MergePrefix(job.overlays, k.inodes);
    WritesPrefix(store, job.plan, k.copied);
  }

  lemma {:induction false} Absorb(r: Disk, p: Disk, e: Disk)
    requires p.Keys <= e.Keys
    ensures (r + p) + e == r + e
  {
  }

  lemma {:induction false} ReplayNext(d0: Disk, jobs: seq<Job>, n: nat)
    requires n < |jobs|
    ensures Replay(d0, jobs[..n + 1]) == Replay(d0, jobs[..n]) + jobs[n].effect
  {
    assert jobs[..n + 1][..n] == jobs[..n];
  }

  /** The transaction under checkpoint, replayed over the disk, hides how far its checkpoint has come. */
  lemma {:induction false} RunningOverlaid(c: Config, d0: Disk, s: Run)
    requires Core(c, d0, s) && s.ckpt.Running? && s.done <= |s.committed|
    ensures true == SameFs(c, s.store + s.ckpt.item.job.effect, Replay(d0, s.committed[..s.done]) + s.ckpt.item.job.effect)
  {
    RunningItem(c, d0, s);
    PartialInEffect(c, d0, s.store, s.ckpt);
    var r, p, e := Replay(d0, s.committed[..s.done]), Partial(s.store, s.ckpt), s.ckpt.item.job.effect;
    SameFsMerge(c, s.store, r + p, e);
    Absorb(r, p, e);
  }

  lemma {:induction false} QuietOverlaid(c: Config, d0: Disk, s: Run)
    requires Core(c, d0, s) && s.ckpt.NoCkpt? && s.done <= |s.committed|
    ensures true == SameFs(c, s.store, Replay(d0, s.committed[..s.done]))
  {
    assert Holds(c, d0, s, OfFs);
    assert Replay(d0, s.committed[..s.done]) + map[] == Replay(d0, s.committed[..s.done]);
  }

  lemma {:induction false} LiveIsCommitted(c: Config, d0: Disk, s: Run, m: nat)
    requires Core(c, d0, s) && m < |s.Live()|
    ensures s.done + m < |s.committed| && s.committed[s.done + m] == s.Live()[m].job
  {
    assert Holds(c, d0, s, OfOrder);
  }

  lemma {:induction false} CommittedSize(c: Config, d0: Disk, s: Run)
    requires Core(c, d0, s)
    ensures |s.committed| == s.done + |s.Live()|
  {
    assert Holds(c, d0, s, OfOrder);
  }

  /** Replaying the first n live transactions over the disk is replaying all commits up to there. */
  lemma {:induction false} OverlaidIsReplay(c: Config, d0: Disk, s: Run, jobs: seq<Job>, n: nat)
    requires Core(c, d0, s) && jobs == JobsIn(s.Live()) && n <= |s.Live()| && (s.ckpt.Running? ==> n > 0)
    requires |s.committed| == s.done + |s.Live()|
    ensures true == SameFs(c, Replay(s.store, jobs[..n]), Replay(d0, s.committed[..s.done + n]))
    decreases n
  {
    if n == 0 {
      QuietOverlaid(c, d0, s);
    } else {
      var m := n - 1;
      ReplayNext(s.store, jobs, m);
      LiveIsCommitted(c, d0, s, m);
      ReplayNext(d0, s.committed, s.done + m);
      if m == 0 && s.ckpt.Running? {
        RunningOverlaid(c, d0, s);
      } else {
        OverlaidIsReplay(c, d0, s, jobs, m);
        SameFsMerge(c, Replay(s.store, jobs[..m]), Replay(d0, s.committed[..s.done + m]), jobs[m].effect);
      }
    }
  }

  lemma {:induction false} EffectView(c: Config, d0: Disk, s: Run)
    requires true == Core(c, d0, s)
    ensures true == SameFs(c, Replay(s.store, JobsIn(s.Live())), Replay(d0, s.committed))
  {
    var jobs := JobsIn(s.Live());
    CommittedSize(c, d0, s);
    OverlaidIsReplay(c, d0, s, jobs, |jobs|);
    assert jobs[..|jobs|] == jobs && s.committed[..|s.committed|] == s.committed;
  }

  lemma {:induction false} LiveMeaningful(c: Config, d0: Disk, s: Run)
    requires true == Core(c, d0, s) && true == AllMeaningful(c, d0, s.committed)
    ensures true == AllMeaningful(c, d0, JobsIn(s.Live()))
  {
    var jobs := JobsIn(s.Live());
    forall i | 0 <= i < |jobs| ensures Meaningful(c, d0, jobs[i]) {
      LiveIsCommitted(c, d0, s, i);
      assert Meaningful(c, d0, s.committed[s.done + i]);
    }
  }

  /** Everything committed, and so everything live, is a transaction, and its recorded effect is what it
      means. */
  lemma {:induction false} CommittedMean(c: Config, d0: Disk, s: Run)
    requires Inv(c, d0, s)
    ensures true == AllMeaningful(c, d0, s.committed) && true == AllTxs(c, d0, s.committed)
    ensures true == AllMeaningful(c, d0, JobsIn(s.Live())) && true == AllTxs(c, d0, JobsIn(s.Live()))
  {
    CoreOfInv(c, d0, s);
    JobsOfInv(c, d0, s);
    LiveMeaningful(c, d0, s);
    MeaningfulTxs(c, d0, s.committed);
    MeaningfulTxs(c, d0, JobsIn(s.Live()));
  }

  /** In every reachable state: the file system area, with what the live transactions mean laid over it, is
      the initial one with what all committed transactions mean laid over it in commit order. */
  lemma {:induction false} ViewIsReplay(c: Config, d0: Disk, s: Run)
    requires Inv(c, d0, s)
    ensures AllTxs(c, d0, JobsIn(s.Live())) && AllTxs(c, d0, s.committed)
    ensures SameFs(c, View(c, d0, s), ReplayTxs(c, d0, d0, s.committed))
  {
    CommittedMean(c, d0, s);
    CoreOfInv(c, d0, s);
    EffectView(c, d0, s);
    EffectsAreTxs(c, d0, s.store, JobsIn(s.Live()));
    EffectsAreTxs(c, d0, d0, s.committed);
  }

  lemma {:induction false} SameFsTrans(c: Config, a: Disk, b: Disk, e: Disk)
    requires SameFs(c, a, b) && SameFs(c, e, b)
    ensures SameFs(c, a, e)
  {
  }

  /** The flight's job is a transaction for its log. */
  lemma {:induction false} FlightTx(c: Config, d0: Disk, s: Run, l: nat)
    requires Inv(c, d0, s) && l < 2 && s.flight[l].Busy?
    ensures TxOk(c, l, s.flight[l].job.tx, d0) && IsTx(c, d0, s.flight[l].job)
    ensures MeaningOf(c, d0, s.flight[l].job) == Intended(c, l, s.flight[l].job.tx, d0)
  {
    JobsOfInv(c, d0, s);
    assert GenuineJob(c, d0, l, s.flight[l].pos, s.flight[l].job, Look);
    forall look ensures TxOfLog(c, d0, s.flight[l].job, look) {
    }
  }

  /** A commit changes the view by exactly what its transaction means. */
  lemma {:induction false} CommitAndView(c: Config, d0: Disk, s: Run, l: nat)
    requires Inv(c, d0, s) && Enabled(c, d0, s, CommitTx(l))
    ensures Inv(c, d0, Finish(c, s, l)) && IsTx(c, d0, s.flight[l].job)
    ensures AllTxs(c, d0, JobsIn(s.Live())) && AllTxs(c, d0, JobsIn(Finish(c, s, l).Live()))
    ensures SameFs(c, View(c, d0, Finish(c, s, l)), View(c, d0, s) + MeaningOf(c, d0, s.flight[l].job))
  {
    var s', job := Finish(c, s, l), s.flight[l].job;
    Commits(c, d0, s, l);
    FlightTx(c, d0, s, l);
    ViewIsReplay(c, d0, s);
    ViewIsReplay(c, d0, s');
    ReplayTxsMore(c, d0, d0, s.committed, job);
    SameFsMerge(c, View(c, d0, s), ReplayTxs(c, d0, d0, s.committed), MeaningOf(c, d0, job));
    SameFsTrans(c, View(c, d0, s'), ReplayTxs(c, d0, d0, s'.committed), View(c, d0, s) + MeaningOf(c, d0, job));
  }

  lemma {:induction false} OtherSteps(c: Config, d0: Disk, s: Run, a: Action)
    requires Inv(c, d0, s) && Enabled(c, d0, s, a) && !a.CommitTx?
    ensures Apply(c, d0, s, a).committed == s.committed
  {
  }

  lemma {:induction false} SameCommits(c: Config, d0: Disk, s: Run, s': Run)
    requires Inv(c, d0, s) && Inv(c, d0, s') && s'.committed == s.committed
    ensures AllTxs(c, d0, JobsIn(s.Live())) && AllTxs(c, d0, JobsIn(s'.Live()))
    ensures SameFs(c, View(c, d0, s'), View(c, d0, s))
  {
    ViewIsReplay(c, d0, s);
    ViewIsReplay(c, d0, s');
    SameFsTrans(c, View(c, d0, s'), ReplayTxs(c, d0, d0, s.committed), View(c, d0, s));
  }

  /** A commit changes the view by exactly what its transaction means; nothing else changes it. */
  lemma {:induction false} StepAndView(c: Config, d0: Disk, s: Run, a: Action)
    requires Inv(c, d0, s) && Enabled(c, d0, s, a)
    ensures AllTxs(c, d0, JobsIn(s.Live())) && AllTxs(c, d0, JobsIn(Apply(c, d0, s, a).Live()))
    ensures a.CommitTx?
            ==> && TxOk(c, a.l, s.flight[a.l].job.tx, d0)
                && SameFs(c, View(c, d0, Apply(c, d0, s, a)), View(c, d0, s) + Intended(c, a.l, s.flight[a.l].job.tx, d0))
    ensures !a.CommitTx? ==> SameFs(c, View(c, d0, Apply(c, d0, s, a)), View(c, d0, s))
  {
    if a.CommitTx? {
      CommitAndView(c, d0, s, a.l);
      FlightTx(c, d0, s, a.l);
    } else {
      StepKeepsInv(c, d0, s, a);
      OtherSteps(c, d0, s, a);
      SameCommits(c, d0, s, Apply(c, d0, s, a));
    }
  }

  /** Any transaction for the log may begin when there is room for its data and no chunk leaves the log. */
  lemma {:induction false} MayBegin(c: Config, d0: Disk, s: Run, l: nat, tx: Tx, sb: Block, commit: Block)
    requires Inv(c, d0, s) && l < 2 && s.flight[l].Idle? && TxOk(c, l, tx, d0) && |sb| == |commit| == BLOCK_SIZE
    requires 1 + |tx.data| <= s.logs[l].nFree && ChunksFit(s.logs[l], |tx.data|)
    ensures Enabled(c, d0, s, Begin(l, JobAt(c, l, tx, d0, s.logs[l].hpos), sb, commit))
  {
    GenuineAtPlace(c, d0, l, s.logs[l].hpos, tx);
  }

  /** Every run from an empty journal ends with that view. */
  lemma {:induction false} RunView(c: Config, d0: Disk, sb: nat, steps: seq<Action>)
    requires c.Ok() && Possible(c, d0, Init(c, d0, sb), steps)
    ensures var s := After(c, d0, Init(c, d0, sb), steps);
            && Inv(c, d0, s) && AllTxs(c, d0, JobsIn(s.Live())) && AllTxs(c, d0, s.committed)
            && SameFs(c, View(c, d0, s), ReplayTxs(c, d0, d0, s.committed))
  {
    RunKeepsInv(c, d0, Init(c, d0, sb), steps);
    ViewIsReplay(c, d0, After(c, d0, Init(c, d0, sb), steps));
  }

  /** And when everything has been checkpointed the disk itself holds it. */
  lemma {:induction false} Drained(c: Config, d0: Disk, s: Run)
    requires Inv(c, d0, s) && s.Live() == []
    ensures AllTxs(c, d0, s.committed) && SameFs(c, s.store, ReplayTxs(c, d0, d0, s.committed))
  {
    ViewIsReplay(c, d0, s);
    assert JobsIn(s.Live()) == [];
  }

  // ------------------------------------------------------------------------------------------
  // The circular logs
  // ------------------------------------------------------------------------------------------

  function PlacedIn(f: Flight): nat {
    if f.Busy? && f.placed then f.job.tx.Len() else 0
  }

  /** Free blocks and the blocks of live transactions make up the log; head and tail stay in it. */
  lemma {:induction false} Conservation(c: Config, d0: Disk, s: Run, l: nat)
    requires Inv(c, d0, s) && l < 2
    ensures s.logs[l].nFree + SizesIn(s.Live(), l) + PlacedIn(s.flight[l]) == c.logs[l].Size() && s.logs[l].nFree >= 0
    ensures InArea(c.logs[l], s.logs[l].head) && InArea(c.logs[l], s.logs[l].tail)
  {
    CoreOfInv(c, d0, s);
    LogOfCore(c, d0, s, l);
    ChainSizes(s.Live(), l, s.logs[l].tpos, FloorOf(s.logs[l], s.flight[l]));
  }

  /** Block p of live transaction i, as an address. */
  function BlockOf(c: Config, item: Item, k: nat): int
    requires c.Ok() && item.log < 2
  {
    Addr(c.logs[item.log], item.pos + k)
  }

  /** Items of one log lie behind one another. */
  lemma {:induction false} ChainApart(items: seq<Item>, l: nat, p: nat, q: nat, i: nat, j: nat)
    requires Chained(items, l, p, q) && i < j < |items| && items[i].log == l == items[j].log
    ensures items[i].pos + items[i].Len() <= items[j].pos
    decreases |items|
  {
    var p' := if items[0].log == l then p + items[0].Len() else p;
    if i == 0 {
      ChainBounds(items[1..], l, p', q);
      assert items[1..][j - 1] == items[j];
    } else {
      ChainApart(items[1..], l, p', q, i - 1, j - 1);
    }
  }

  /** Live transactions share no block. */
  lemma {:induction false} LiveDisjoint(c: Config, d0: Disk, s: Run, i: nat, j: nat, a: nat, b: nat)
    requires Inv(c, d0, s) && i < j < |s.Live()| && s.Live()[i].log < 2 && s.Live()[j].log < 2
    requires a < s.Live()[i].Len() && b < s.Live()[j].Len()
    ensures BlockOf(c, s.Live()[i], a) != BlockOf(c, s.Live()[j], b)
  {
    var items := s.Live();
    var l := items[i].log;
    if l == items[j].log {
      CoreOfInv(c, d0, s);
    LogOfCore(c, d0, s, l);
      var p, q := s.logs[l].tpos, FloorOf(s.logs[l], s.flight[l]);
      ChainBounds(items, l, p, q);
      ChainApart(items, l, p, q, i, j);
      AddrDiffers(c.logs[l], items[i].pos + a, items[j].pos + b);
    }
  }

  /** The transaction under checkpoint is the oldest of its log, so the assertion of free_journal_space
      holds when it is freed.  Its id is the one in the superblock if and only if the superblock was loaded
      with 0 or with the id of the first commit, or a checkpoint has been finished before. */
  lemma {:induction false} OldestIsFreed(c: Config, d0: Disk, s: Run)
    requires Inv(c, d0, s) && s.ckpt.Running?
    ensures s.ckpt.item.log < 2 && s.ckpt.item.start == s.logs[s.ckpt.item.log].tail
    ensures s.committed != []
    ensures s.sbTxId == s.ckpt.item.job.tx.id <==> s.done > 0 || s.sb0 == 0 || s.sb0 == s.committed[0].tx.id
  {
    CoreOfInv(c, d0, s);
    RunningItem(c, d0, s);
    LogOfCore(c, d0, s, s.ckpt.item.log);
    assert Holds(c, d0, s, OfOrder);
    FinishLog(c, d0, s.store, s.Live(), s.logs[s.ckpt.item.log], s.flight[s.ckpt.item.log], s.ckpt.item.log);
    FinishOrder(s.committed, s.done, s.Live(), s.seqn, s.sbTxId, s.sb0);
  }

  /** The id that was loaded does not change, nor do the commits that have been made. */
  lemma {:induction false} History(c: Config, d0: Disk, s: Run, steps: seq<Action>)
    requires Inv(c, d0, s) && Possible(c, d0, s, steps)
    ensures After(c, d0, s, steps).sb0 == s.sb0 && s.committed <= After(c, d0, s, steps).committed
    decreases |steps|
  {
    if steps != [] {
      StepKeepsInv(c, d0, s, steps[0]);
      StepHistory(c, d0, s, steps[0]);
      History(c, d0, Apply(c, d0, s, steps[0]), steps[1..]);
    }
  }

  lemma {:induction false} StepHistory(c: Config, d0: Disk, s: Run, a: Action)
    requires Shape(c, s) && Enabled(c, d0, s, a)
    ensures Apply(c, d0, s, a).sb0 == s.sb0 && s.committed <= Apply(c, d0, s, a).committed
  {
  }

  /** In every run that starts with id `sb` in the superblock: a running checkpoint finds its own id there
      if and only if sb is 0 or the first commit's id, or it is not the first checkpoint. */
  lemma {:induction false} RunSuperblock(c: Config, d0: Disk, sb: nat, steps: seq<Action>)
    requires c.Ok() && Possible(c, d0, Init(c, d0, sb), steps) && After(c, d0, Init(c, d0, sb), steps).ckpt.Running?
    ensures var s := After(c, d0, Init(c, d0, sb), steps);
            && s.committed != []
            && (s.sbTxId == s.ckpt.item.job.tx.id <==> s.done > 0 || sb == 0 || sb == s.committed[0].tx.id)
  {
    RunKeepsInv(c, d0, Init(c, d0, sb), steps);
    History(c, d0, Init(c, d0, sb), steps);
    OldestIsFreed(c, d0, After(c, d0, Init(c, d0, sb), steps));
  }

  // ------------------------------------------------------------------------------------------
  // Commit order
  // ------------------------------------------------------------------------------------------

  /** Commits have consecutive ids, and the checkpoint list holds the last of them in that order. */
  lemma {:induction false} IdsConsecutive(c: Config, d0: Disk, s: Run, i: nat)
    requires Inv(c, d0, s) && i + 1 < |s.committed|
    ensures s.committed[i + 1].tx.id == s.committed[i].tx.id + 1
    ensures |s.committed| == s.done + |s.Live()|
    ensures forall k :: 0 <= k < |s.Live()| ==> s.Live()[k].job == s.committed[s.done + k]
  {
    CoreOfInv(c, d0, s);
    assert Holds(c, d0, s, OfOrder);
    assert forall k :: 0 <= k < |s.Live()| ==> s.committed[s.done + k] == s.Live()[k].job;
  }

  /** When the request counter lets the committer take its space, every data block stands on disk at its
      place, and no chunk began past the end of the log. */
  lemma {:induction false} DataBeforePlace(c: Config, d0: Disk, s: Run, l: nat, i: nat)
    requires Inv(c, d0, s) && Enabled(c, d0, s, Place(l)) && i < |s.flight[l].job.tx.data|
    ensures ReadBlock(s.store, Addr(c.logs[l], s.flight[l].pos + 1 + i)) == s.flight[l].job.tx.data[i]
    ensures forall k :: 0 <= k < |s.flight[l].reqs| ==> ChunkStart(s.logs[l].head, k) <= c.logs[l].last
  {
    var f := s.flight[l];
    WorkOfInv(c, d0, s, l);
    ArrivingOf(c, d0, s, l);
    CounterMeansData(s.logs[l], f, 1 + i);
    LogOfCore(c, d0, s, l);
    assert StandsAt(s.store, c.logs[l], f.pos, f.image, 1 + i);
    forall k | 0 <= k < |f.reqs| ensures ChunkStart(s.logs[l].head, k) <= c.logs[l].last {
      if ChunkStart(s.logs[l].head, k) == s.logs[l].area.last + 1 {
        CounterStaysShort(s.logs[l], f, k);
      }
    }
  }

  /** A transaction with a chunk that begins one past the end of the log waits for ever. */
  lemma {:induction false} NeverPlaced(c: Config, d0: Disk, s: Run, steps: seq<Action>, l: nat, k: nat)
    requires Inv(c, d0, s) && Possible(c, d0, s, steps) && l < 2 && s.flight[l].Busy? && !s.flight[l].placed
    requires k < |s.flight[l].reqs| && ChunkStart(s.logs[l].head, k) == c.logs[l].last + 1
    ensures var s' := After(c, d0, s, steps);
            && Shape(c, s') && s'.flight[l].Busy? && !s'.flight[l].placed && s'.flight[l].job == s.flight[l].job
            && s'.flight[l].reqCnt < |s'.flight[l].reqs|
    decreases |steps|
  {
    WorkOfInv(c, d0, s, l);
    ArrivingOf(c, d0, s, l);
    CounterStaysShort(s.logs[l], s.flight[l], k);
    if steps != [] {
      StepKeepsInv(c, d0, s, steps[0]);
      StillWaits(c, d0, s, steps[0], l);
      NeverPlaced(c, d0, Apply(c, d0, s, steps[0]), steps[1..], l, k);
    }
  }

  lemma {:induction false} StillWaits(c: Config, d0: Disk, s: Run, a: Action, l: nat)
    requires Shape(c, s) && Enabled(c, d0, s, a) && l < 2 && s.flight[l].Busy? && !s.flight[l].placed
    requires s.flight[l].reqCnt < |s.flight[l].reqs|
    ensures var s' := Apply(c, d0, s, a);
            && |s'.flight| == 2 && |s'.logs| == 2 && s'.flight[l].Busy? && !s'.flight[l].placed
            && s'.flight[l].job == s.flight[l].job && |s'.flight[l].reqs| == |s.flight[l].reqs|
            && s'.logs[l].head == s.logs[l].head
  {
  }

  /** When the commit record goes out, every other block of the transaction stands on disk. */
  lemma {:induction false} CommitRecordLast(c: Config, d0: Disk, s: Run, l: nat, i: nat)
    requires Inv(c, d0, s) && Enabled(c, d0, s, CommitTx(l)) && i < |s.flight[l].image| - 1
    ensures ReadBlock(s.store, Addr(c.logs[l], s.flight[l].pos + i)) == s.flight[l].image[i]
    ensures CommitOf(c.logs[l], s.flight[l]).addr == Addr(c.logs[l], s.flight[l].pos + (|s.flight[l].image| - 1))
  {
    PlacedOf(c, d0, s, l);
    WrittenBefore(c, d0, s, l, i);
    CommitAddr(c.logs[l], s.flight[l]);
    CoreOfInv(c, d0, s);
    LogOfCore(c, d0, s, l);
    assert StandsAt(s.store, c.logs[l], s.flight[l].pos, s.flight[l].image, i);
  }

  lemma {:induction false} SeqnGrows(c: Config, d0: Disk, s: Run, a: Action)
    requires Inv(c, d0, s) && Enabled(c, d0, s, a)
    ensures Apply(c, d0, s, a).seqn >= s.seqn
  {
  }

  /** A transaction whose id has been passed never commits: it may wait for ever.  Ids are passed only
      by the first commit, which is not made to wait for a smaller id. */
  lemma {:induction false} Passed(c: Config, d0: Disk, s: Run, steps: seq<Action>, id: nat)
    requires Inv(c, d0, s) && Possible(c, d0, s, steps) && 1 <= id <= s.seqn
    ensures !MayCommit(After(c, d0, s, steps).seqn, id)
    decreases |steps|
  {
    if steps != [] {
      StepKeepsInv(c, d0, s, steps[0]);
      SeqnGrows(c, d0, s, steps[0]);
      Passed(c, d0, Apply(c, d0, s, steps[0]), steps[1..], id);
    }
  }

  /** The data of a transaction, written before its space is taken, hits a live block unless the free
      space holds it: the room that Begin asks for is exactly what is needed. */
  lemma {:induction false} DataNeedsRoom(log: Log, n: nat)
    requires log.Ok() && log.tpos < log.hpos && n > 0
    ensures (forall w: nat, p: nat :: log.hpos <= w < log.hpos + n && log.tpos <= p < log.hpos ==> Addr(log.area, w) != Addr(log.area, p))
            <==> n <= log.nFree
  {
    if n <= log.nFree {
      forall w: nat, p: nat | log.hpos <= w < log.hpos + n && log.tpos <= p < log.hpos ensures Addr(log.area, w) != Addr(log.area, p) {
        AddrDiffers(log.area, p, w);
      }
    } else {
      var w := log.tpos + log.area.Size();
      assert Addr(log.area, w) == Addr(log.area, log.tpos);
    }
  }
}
