/** Runs of the journal that get somewhere, put together from single steps. */
module JournalReach {
  import opened BlockDevice
  import opened SourcePlan
  import opened CircularLog
  import opened LogLayout
  import opened JournalTx
  import opened JournalRun
  import opened JournalProof
  import opened JournalWork
  import opened JournalTheorems

  lemma {:induction false} OneAction(c: Config, d0: Disk, s: Run, a: Action)
    requires Inv(c, d0, s) && Enabled(c, d0, s, a)
    ensures Possible(c, d0, s, [a]) && After(c, d0, s, [a]) == Apply(c, d0, s, a)
  {
    StepKeepsInv(c, d0, s, a);
    assert [a][1..] == [];
  }

  lemma {:induction false} RunFirst(c: Config, d0: Disk, s: Run, a: Action, s1: Run, rest: seq<Action>, steps: seq<Action>)
    requires Inv(c, d0, s) && Enabled(c, d0, s, a) && s1 == Apply(c, d0, s, a) && Inv(c, d0, s1)
    requires steps != [] && steps[0] == a && steps[1..] == rest
    ensures Possible(c, d0, s, steps) <==> Possible(c, d0, s1, rest)
    ensures Possible(c, d0, s1, rest) ==> After(c, d0, s, steps) == After(c, d0, s1, rest)
  {
  }

  lemma {:induction false} TailConcat<T>(a: seq<T>, b: seq<T>)
    requires a != []
    ensures (a + b)[0] == a[0] && (a + b)[1..] == a[1..] + b
  {
  }

  lemma {:induction false} RunOnNext(c: Config, d0: Disk, s: Run, a: Action, s1: Run, rest: seq<Action>, steps: seq<Action>,
                                     u: Run)
    requires Inv(c, d0, s) && Enabled(c, d0, s, a) && s1 == Apply(c, d0, s, a) && Inv(c, d0, s1)
    requires steps != [] && steps[0] == a && steps[1..] == rest
    requires Possible(c, d0, s1, rest) && After(c, d0, s1, rest) == u
    ensures Possible(c, d0, s, steps) && After(c, d0, s, steps) == u
  {
    RunFirst(c, d0, s, a, s1, rest, steps);
  }

  lemma {:induction false} RunOn(c: Config, d0: Disk, s: Run, a: seq<Action>, b: seq<Action>, t: Run, u: Run)
    requires Inv(c, d0, s) && Possible(c, d0, s, a) && After(c, d0, s, a) == t
    requires Inv(c, d0, t) && Possible(c, d0, t, b) && After(c, d0, t, b) == u
    ensures Possible(c, d0, s, a + b) && After(c, d0, s, a + b) == u
    decreases |a|
  {
    if a == [] {
      assert a + b == b;
    } else {
      var s1 := Apply(c, d0, s, a[0]);
      StepKeepsInv(c, d0, s, a[0]);
      RunFirst(c, d0, s, a[0], s1, a[1..], a);
      RunOn(c, d0, s1, a[1..], b, t, u);
      TailConcat(a, b);
      RunOnNext(c, d0, s, a[0], s1, a[1..] + b, a + b, u);
    }
  }

  /** The steps lead from s to t. */
  ghost predicate Leads(c: Config, d0: Disk, s: Run, steps: seq<Action>, t: Run) {
    Inv(c, d0, s) && Possible(c, d0, s, steps) && After(c, d0, s, steps) == t && Inv(c, d0, t)
  }

  lemma {:induction false} LeadsOne(c: Config, d0: Disk, s: Run, a: Action)
    requires Inv(c, d0, s) && Enabled(c, d0, s, a)
    ensures true == Leads(c, d0, s, [a], Apply(c, d0, s, a))
  {
    OneAction(c, d0, s, a);
    StepKeepsInv(c, d0, s, a);
  }

  lemma {:induction false} LeadsOn(c: Config, d0: Disk, s: Run, a: seq<Action>, t: Run, b: seq<Action>, u: Run)
    requires true == Leads(c, d0, s, a, t) && true == Leads(c, d0, t, b, u)
    ensures true == Leads(c, d0, s, a + b, u)
  {
    RunOn(c, d0, s, a, b, t, u);
  }

  // ------------------------------------------------------------------------------------------
  // A transaction that gets its space
  // ------------------------------------------------------------------------------------------

  /** The blocks of chunk k from j on. */
  lemma {:induction false} SendRest(c: Config, d0: Disk, s: Run, l: nat, k: nat, j: nat) returns (steps: seq<Action>, t: Run)
    requires true == Inv(c, d0, s) && l < 2 && s.flight[l].Busy? && k < |s.flight[l].reqs| && s.flight[l].reqs[k].Writing?
    requires j <= |SentBy(s.logs[l], |s.flight[l].job.tx.data|, k)| && forall i: nat :: i < j ==> i in s.flight[l].reqs[k].sent
    ensures true == Leads(c, d0, s, steps, t) && t == s.(store := t.store, flight := t.flight) && |t.flight| == 2
    ensures t.flight[l].Busy? && k < |t.flight[l].reqs| && t.flight[l].reqs[k].Writing?
    ensures t.flight[l] == s.flight[l].(written := t.flight[l].written, reqs := s.flight[l].reqs[k := t.flight[l].reqs[k]])
    ensures forall i: nat :: i < |SentBy(s.logs[l], |s.flight[l].job.tx.data|, k)| ==> i in t.flight[l].reqs[k].sent
    decreases |SentBy(s.logs[l], |s.flight[l].job.tx.data|, k)| - j
  {
    if j == |SentBy(s.logs[l], |s.flight[l].job.tx.data|, k)| {
      steps, t := [], s;
      assert s.flight[l].reqs[k := s.flight[l].reqs[k]] == s.flight[l].reqs;
    } else {
      var a := WriteData(l, k, j);
      var s1, more := Apply(c, d0, s, a), [];
      LeadsOne(c, d0, s, a);
      more, t := SendRest(c, d0, s1, l, k, j + 1);
      steps := [a] + more;
      LeadsOn(c, d0, s, [a], s1, more, t);
    }
  }

  /** persist_data for one chunk that starts in the log, from the call to the count. */
  lemma {:induction false} ChunkRun(c: Config, d0: Disk, s: Run, l: nat, k: nat) returns (steps: seq<Action>, t: Run)
    requires true == Inv(c, d0, s) && l < 2 && s.flight[l].Busy? && k < |s.flight[l].reqs| && s.flight[l].reqs[k].Waiting?
    requires SentBy(s.logs[l], |s.flight[l].job.tx.data|, k) != []
    ensures true == Leads(c, d0, s, steps, t) && t == s.(store := t.store, flight := t.flight) && |t.flight| == 2
    ensures t.flight[l].Busy? && t.flight[l].job == s.flight[l].job && t.flight[l].placed == s.flight[l].placed
    ensures t.flight[l].reqs == s.flight[l].reqs[k := Counted]
  {
    var s1 := Apply(c, d0, s, CallChunk(l, k));
    LeadsOne(c, d0, s, CallChunk(l, k));
    var send, s2 := SendRest(c, d0, s1, l, k, 0);
    LeadsOn(c, d0, s, [CallChunk(l, k)], s1, send, s2);
    t := Apply(c, d0, s2, CountChunk(l, k));
    LeadsOne(c, d0, s2, CountChunk(l, k));
    steps := [CallChunk(l, k)] + send + [CountChunk(l, k)];
    LeadsOn(c, d0, s, [CallChunk(l, k)] + send, s2, [CountChunk(l, k)], t);
  }

  /** The first k requests are counted and the others not yet made. */
  predicate CountedTo(reqs: seq<Request>, k: nat) {
    && (forall i :: 0 <= i < k && i < |reqs| ==> reqs[i].Counted?)
    && (forall i :: k <= i < |reqs| ==> reqs[i].Waiting?)
  }

  ghost predicate StartsInside(s: Run, l: nat)
    requires l < |s.logs| && l < |s.flight| && s.flight[l].Busy?
  {
    forall k: nat :: k < |s.flight[l].reqs| ==> ChunkStart(s.logs[l].head, k) <= s.logs[l].area.last
  }

  lemma {:induction false} AllChunksRun(c: Config, d0: Disk, s: Run, l: nat, k: nat) returns (steps: seq<Action>, t: Run)
    requires true == Inv(c, d0, s) && l < 2 && s.flight[l].Busy? && !s.flight[l].placed
    requires k <= |s.flight[l].reqs| && CountedTo(s.flight[l].reqs, k) && StartsInside(s, l)
    ensures true == Leads(c, d0, s, steps, t) && t == s.(store := t.store, flight := t.flight) && |t.flight| == 2
    ensures t.flight[l].Busy? && t.flight[l].job == s.flight[l].job && !t.flight[l].placed
    ensures CountedTo(t.flight[l].reqs, |t.flight[l].reqs|)
    decreases |s.flight[l].reqs| - k
  {
    if k == |s.flight[l].reqs| {
      steps, t := [], s;
    } else {
      WorkOfInv(c, d0, s, l);
      ArrivingOf(c, d0, s, l);
      ChunkSentAt(s.logs[l], |s.flight[l].job.tx.data|, k);
      var one, s1 := ChunkRun(c, d0, s, l, k);
      var more;
      more, t := AllChunksRun(c, d0, s1, l, k + 1);
      steps := one + more;
      LeadsOn(c, d0, s, one, s1, more, t);
    }
  }

  lemma {:induction false} CountOfAll(reqs: seq<Request>)
    requires CountedTo(reqs, |reqs|)
    ensures CountedIn(reqs) == |reqs|
  {
    if reqs != [] {
      CountOfAll(reqs[..|reqs| - 1]);
    }
  }

  /** The transaction has got its space. */
  ghost predicate GetsSpace(c: Config, d0: Disk, s: Run, l: nat, steps: seq<Action>, t: Run)
    requires l < |s.flight| && s.flight[l].Busy?
  {
    && true == Leads(c, d0, s, steps, t) && l < |t.flight| && t.flight[l].Busy? && t.flight[l].placed
    && t.flight[l].job == s.flight[l].job
  }

  lemma {:induction false} SpaceRun(c: Config, d0: Disk, s: Run, l: nat) returns (steps: seq<Action>, t: Run)
    requires true == Inv(c, d0, s) && l < 2 && s.flight[l].Busy? && !s.flight[l].placed && CountedTo(s.flight[l].reqs, 0)
    requires s.flight[l].job.tx.Len() <= s.logs[l].nFree && StartsInside(s, l)
    ensures true == GetsSpace(c, d0, s, l, steps, t)
  {
    var data, s1 := AllChunksRun(c, d0, s, l, 0);
    WorkOfInv(c, d0, s1, l);
    CountOfAll(s1.flight[l].reqs);
    t := Apply(c, d0, s1, Place(l));
    LeadsOne(c, d0, s1, Place(l));
    steps := data + [Place(l)];
    LeadsOn(c, d0, s, data, s1, [Place(l)], t);
  }

  /** A transaction for which there is room in the log gets its space in some run if and only if no chunk
      starts past the end of the log. */
  lemma {:induction false} SpaceExact(c: Config, d0: Disk, s: Run, l: nat)
    requires Inv(c, d0, s) && l < 2 && s.flight[l].Busy? && !s.flight[l].placed && CountedTo(s.flight[l].reqs, 0)
    requires s.flight[l].job.tx.Len() <= s.logs[l].nFree
    ensures (exists steps, t :: GetsSpace(c, d0, s, l, steps, t)) <==> StartsInside(s, l)
  {
    if StartsInside(s, l) {
      var steps, t := SpaceRun(c, d0, s, l);
      assert GetsSpace(c, d0, s, l, steps, t);
    } else {
      var k: nat := LateChunk(c, d0, s, l);
      forall steps, t ensures !GetsSpace(c, d0, s, l, steps, t) {
        if GetsSpace(c, d0, s, l, steps, t) {
          NeverPlaced(c, d0, s, steps, l, k);
        }
      }
    }
  }

  lemma {:induction false} LateChunk(c: Config, d0: Disk, s: Run, l: nat) returns (k: nat)
    requires Inv(c, d0, s) && l < 2 && s.flight[l].Busy? && !s.flight[l].placed && !StartsInside(s, l)
    ensures k < |s.flight[l].reqs| && ChunkStart(s.logs[l].head, k) == c.logs[l].last + 1
  {
    WorkOfInv(c, d0, s, l);
    ArrivingOf(c, d0, s, l);
    k :| k < |s.flight[l].reqs| && ChunkStart(s.logs[l].head, k) > s.logs[l].area.last;
  }
}
