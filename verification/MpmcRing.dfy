/** The bounded multi-producer multi-consumer ring (oxbow/devfs/src/common/ring_buffer_mpmc.c).

    Every atomic access of a thread is one step; a run is any interleaving of the steps of any number
    of threads.  Positions handed out by the two counters are called tickets: the value enqueued
    under ticket p is the one dequeued under ticket p. */
module MpmcRing {
  import opened Bits
  import opened Cyclic

  datatype Slot = Slot(sequence: nat, value: int)

  /** Where a thread stands in try_enqueue or try_dequeue. */
  datatype Pc =
    | Idle
    | EnqTry(v: int)                 // at the head of the retry loop
    | EnqLoaded(v: int, pos: nat)    // enqueue_pos loaded
    | EnqChecked(v: int, pos: nat)   // the slot's sequence was pos
    | EnqClaimed(v: int, pos: nat)   // the CAS on enqueue_pos succeeded
    | EnqWritten(v: int, pos: nat)   // value stored, not yet published
    | DeqTry
    | DeqLoaded(pos: nat)
    | DeqChecked(pos: nat)           // the slot's sequence was pos + 1
    | DeqClaimed(pos: nat)
    | DeqRead(pos: nat, v: int)      // value read, slot not yet released

  /** The ring and its threads.  `puts` and `gets` record, by ticket, what was enqueued and what has
      been handed to a caller. */
  datatype State = State(cap: nat, enq: nat, deq: nat, slots: seq<Slot>, pcs: map<nat, Pc>,
                         puts: seq<int>, gets: map<nat, int>) {
    function Pc(t: nat): Pc {
      if t in pcs then pcs[t] else Idle
    }
  }

  datatype Action =
    | CallEnqueue(v: int) | CallDequeue
    | LoadPos | LoadSequence
    | Cas(spurious: bool) // the weak compare-exchange may fail for no reason
    | TouchValue | Publish

  function Index(s: State, p: nat): (i: nat)
    requires s.cap > 0 && |s.slots| == s.cap
    ensures i < |s.slots|
  {
    Turn(p, s.cap)
  }

  /** One atomic step of thread t; a step that t is not about to take changes nothing. */
  function Apply(s: State, t: nat, a: Action): (r: State)
    requires s.cap > 0 && |s.slots| == s.cap
    ensures r.cap == s.cap && |r.slots| == |s.slots|
  {
    match (s.Pc(t), a)
    case (Idle, CallEnqueue(v)) => s.(pcs := s.pcs[t := EnqTry(v)])
    case (Idle, CallDequeue) => s.(pcs := s.pcs[t := DeqTry])

    case (EnqTry(v), LoadPos) => s.(pcs := s.pcs[t := EnqLoaded(v, s.enq)])
    case (EnqLoaded(v, pos), LoadSequence) =>
      var q := s.slots[Index(s, pos)].sequence;
      if q == pos then s.(pcs := s.pcs[t := EnqChecked(v, pos)])
      else if q < pos then s.(pcs := s.pcs[t := Idle]) // -EAGAIN: full
      else s.(pcs := s.pcs[t := EnqTry(v)])
    case (EnqChecked(v, pos), Cas(spurious)) =>
      if s.enq == pos && !spurious
      then s.(enq := pos + 1, puts := s.puts + [v], pcs := s.pcs[t := EnqClaimed(v, pos)])
      else s.(pcs := s.pcs[t := EnqTry(v)])
    case (EnqClaimed(v, pos), TouchValue) =>
      var i := Index(s, pos);
      s.(slots := s.slots[i := s.slots[i].(value := v)], pcs := s.pcs[t := EnqWritten(v, pos)])
    case (EnqWritten(v, pos), Publish) =>
      var i := Index(s, pos);
      s.(slots := s.slots[i := s.slots[i].(sequence := pos + 1)], pcs := s.pcs[t := Idle])

    case (DeqTry, LoadPos) => s.(pcs := s.pcs[t := DeqLoaded(s.deq)])
    case (DeqLoaded(pos), LoadSequence) =>
      var q := s.slots[Index(s, pos)].sequence;
      if q == pos + 1 then s.(pcs := s.pcs[t := DeqChecked(pos)])
      else if q < pos + 1 then s.(pcs := s.pcs[t := Idle]) // -EAGAIN: empty
      else s.(pcs := s.pcs[t := DeqTry])
    case (DeqChecked(pos), Cas(spurious)) =>
      if s.deq == pos && !spurious
      then s.(deq := pos + 1, pcs := s.pcs[t := DeqClaimed(pos)])
      else s.(pcs := s.pcs[t := DeqTry])
    case (DeqClaimed(pos), TouchValue) =>
      s.(pcs := s.pcs[t := DeqRead(pos, s.slots[Index(s, pos)].value)])
    case (DeqRead(pos, v), Publish) =>
      var i := Index(s, pos);
      s.(slots := s.slots[i := s.slots[i].(sequence := pos + s.cap)], pcs := s.pcs[t := Idle],
         gets := s.gets[pos := v])

    case _ => s
  }

  predicate Producing(c: Pc, p: nat) {
    (c.EnqClaimed? || c.EnqWritten?) && c.pos == p
  }

  predicate Consuming(c: Pc, p: nat) {
    (c.DeqClaimed? || c.DeqRead?) && c.pos == p
  }

  // ------------------------------------------------------------------------------------------
  // The invariant
  // ------------------------------------------------------------------------------------------

  ghost predicate Shape(s: State) {
    s.cap >= 2 && |s.slots| == s.cap && |s.puts| == s.enq && s.deq <= s.enq <= s.deq + s.cap
  }

  /** A slot waits for the enqueue of ticket p, or holds the value of ticket p. */
  ghost predicate Waits(s: State, i: nat, p: nat)
    requires Shape(s) && i < s.cap
  {
    Turn(p, s.cap) == i && s.slots[i].sequence == p && s.deq <= p < s.deq + s.cap && s.enq <= p + s.cap
  }

  ghost predicate Holds(s: State, i: nat, p: nat)
    requires Shape(s) && i < s.cap
  {
    Turn(p, s.cap) == i && s.slots[i].sequence == p + 1 && p < s.enq <= p + s.cap && s.slots[i].value == s.puts[p]
  }

  ghost predicate SlotOk(s: State, i: nat)
    requires Shape(s) && i < s.cap
  {
    var q := s.slots[i].sequence;
    Waits(s, i, q) || (q > 0 && Holds(s, i, q - 1))
  }

  /** What a thread may rely on. */
  ghost predicate ThreadOk(s: State, t: nat)
    requires Shape(s)
  {
    match s.Pc(t)
    case EnqLoaded(_, pos) => pos <= s.enq
    case EnqChecked(_, pos) => pos <= s.enq && (pos == s.enq ==> s.slots[Index(s, pos)].sequence == pos)
    case EnqClaimed(v, pos) => pos < s.enq && s.puts[pos] == v && s.slots[Index(s, pos)].sequence == pos
    case EnqWritten(v, pos) =>
      pos < s.enq && s.puts[pos] == v && s.slots[Index(s, pos)] == Slot(pos, v)
    case DeqLoaded(pos) => pos <= s.deq
    case DeqChecked(pos) => pos <= s.deq && (pos == s.deq ==> s.slots[Index(s, pos)].sequence == pos + 1)
    case DeqClaimed(pos) => pos < s.deq && pos !in s.gets && s.slots[Index(s, pos)].sequence == pos + 1
    case DeqRead(pos, v) =>
      pos < s.deq && pos !in s.gets && v == s.puts[pos] && s.slots[Index(s, pos)].sequence == pos + 1
    case _ => true
  }

  /** Two threads on one ticket. */
  predicate Clash(a: Pc, b: Pc) {
    || ((a.EnqClaimed? || a.EnqWritten?) && Producing(b, a.pos))
    || ((a.DeqClaimed? || a.DeqRead?) && Consuming(b, a.pos))
  }

  ghost predicate Exclusive(s: State) {
    forall t: nat, u: nat :: t != u ==> !Clash(s.Pc(t), s.Pc(u))
  }

  /** A ticket given to a producer is published or still in a producer's hands, and a ticket given to
      a consumer is delivered or still in a consumer's hands. */
  ghost predicate Accounted(s: State, p: nat)
    requires Shape(s)
  {
    && (p < s.enq ==> s.slots[Index(s, p)].sequence > p || exists t :: Producing(s.Pc(t), p))
    && (p < s.deq ==> p in s.gets || exists t :: Consuming(s.Pc(t), p))
  }

  /** What was delivered under a ticket is what was enqueued under it. */
  ghost predicate Delivered(s: State)
    requires Shape(s)
  {
    forall p: nat :: p in s.gets ==> p < s.deq && s.gets[p] == s.puts[p]
  }

  ghost predicate Inv(s: State) {
    && Shape(s)
    && (forall i: nat :: i < s.cap ==> SlotOk(s, i))
    && (forall t: nat :: ThreadOk(s, t))
    && Exclusive(s) && (forall p: nat :: Accounted(s, p)) && Delivered(s)
  }

  // ------------------------------------------------------------------------------------------
  // Reading a slot's sequence number.  Capacity 1 would make the two readings ambiguous.
  // ------------------------------------------------------------------------------------------

  lemma {:induction false} WaitsAt(s: State, p: nat)
    requires Shape(s) && SlotOk(s, Index(s, p)) && s.slots[Index(s, p)].sequence == p
    ensures Waits(s, Index(s, p), p)
  {
    if p > 0 {
      TurnInjective(p - 1, p, s.cap);
    }
  }

  lemma {:induction false} HoldsAt(s: State, p: nat)
    requires Shape(s) && SlotOk(s, Index(s, p)) && s.slots[Index(s, p)].sequence == p + 1
    ensures Holds(s, Index(s, p), p)
  {
    TurnInjective(p, p + 1, s.cap);
  }

  lemma {:induction false} NextLap(s: State, p: nat)
    requires Shape(s)
    ensures Index(s, p + s.cap) == Index(s, p)
  {
    TurnAdvance(p, s.cap, s.cap);
  }

  // ------------------------------------------------------------------------------------------
  // Every step keeps the invariant
  // ------------------------------------------------------------------------------------------

  predicate Local(c: Pc) {
    !c.EnqClaimed? && !c.EnqWritten? && !c.DeqClaimed? && !c.DeqRead?
  }

  /** Steps that touch nothing shared. */
  lemma {:induction false} LocalStep(s: State, t: nat, c: Pc)
    requires Inv(s) && Local(s.Pc(t)) && Local(c)
    requires ThreadOk(s.(pcs := s.pcs[t := c]), t)
    ensures Inv(s.(pcs := s.pcs[t := c]))
  {
    var s' := s.(pcs := s.pcs[t := c]);
    forall i: nat | i < s.cap ensures SlotOk(s', i) {
      assert SlotOk(s, i);
    }
    forall u: nat ensures ThreadOk(s', u) {
      assert ThreadOk(s, u);
      assert u != t ==> s'.Pc(u) == s.Pc(u);
    }
    ExclusiveStays(s, s', t);
    forall p: nat ensures Accounted(s', p) {
      AccountedStays(s, s', t, p);
    }
  }

  /** A step of t that neither gives up nor moves ticket p leaves p accounted for. */
  lemma {:induction false} AccountedStays(s: State, s': State, t: nat, p: nat)
    requires Shape(s) && Shape(s') && Accounted(s, p) && s.cap == s'.cap
    requires forall u: nat :: u != t ==> s'.Pc(u) == s.Pc(u)
    requires Producing(s.Pc(t), p) ==> Producing(s'.Pc(t), p)
    requires Consuming(s.Pc(t), p) ==> Consuming(s'.Pc(t), p)
    requires s'.slots[Index(s, p)].sequence >= s.slots[Index(s, p)].sequence
    requires s.gets.Keys <= s'.gets.Keys
    requires p < s'.enq ==> p < s.enq || Producing(s'.Pc(t), p)
    requires p < s'.deq ==> p < s.deq || Consuming(s'.Pc(t), p)
    ensures Accounted(s', p)
  {
    if u :| Producing(s.Pc(u), p) {
      assert Producing(s'.Pc(u), p);
    }
    if u :| Consuming(s.Pc(u), p) {
      assert Consuming(s'.Pc(u), p);
    }
  }

  /** What the whole-state lemmas below have in common: thread t moved, possibly with one slot. */
  ghost predicate Moved(s: State, s': State, t: nat) {
    && Shape(s) && Shape(s') && s.cap == s'.cap
    && (forall u: nat :: u != t ==> s'.Pc(u) == s.Pc(u))
  }

  lemma {:induction false} ExclusiveStays(s: State, s': State, t: nat)
    requires Moved(s, s', t) && Exclusive(s)
    requires forall u: nat :: u != t ==> !Clash(s.Pc(u), s'.Pc(t)) && !Clash(s'.Pc(t), s.Pc(u))
    ensures Exclusive(s')
  {
    forall x: nat, y: nat | x != y ensures !Clash(s'.Pc(x), s'.Pc(y)) {
      if x != t && y != t {
        assert s'.Pc(x) == s.Pc(x) && s'.Pc(y) == s.Pc(y);
      } else if x == t {
        assert s'.Pc(y) == s.Pc(y);
      } else {
        assert s'.Pc(x) == s.Pc(x);
      }
    }
  }

  /** The winning enqueue CAS: the ticket is the caller's alone. */
  lemma {:induction false} ClaimEnqueue(s: State, t: nat, v: int)
    requires Inv(s) && s.Pc(t) == EnqChecked(v, s.enq)
    ensures Inv(Apply(s, t, Cas(false)))
  {
    var p, s' := s.enq, Apply(s, t, Cas(false));
    assert ThreadOk(s, t) && SlotOk(s, Index(s, p));
    WaitsAt(s, p);
    forall i: nat | i < s.cap ensures SlotOk(s', i) {
      assert SlotOk(s, i);
      var q := s.slots[i].sequence;
      if Waits(s, i, q) {
        NextLap(s, q);
      } else {
        NextLap(s, q - 1);
      }
    }
    forall u: nat ensures ThreadOk(s', u) {
      assert ThreadOk(s, u);
      assert u != t ==> s'.Pc(u) == s.Pc(u);
    }
    forall u: nat | u != t ensures !Clash(s.Pc(u), s'.Pc(t)) && !Clash(s'.Pc(t), s.Pc(u)) {
      assert ThreadOk(s, u);
    }
    ExclusiveStays(s, s', t);
    forall q: nat ensures Accounted(s', q) {
      AccountedStays(s, s', t, q);
    }
  }

  lemma {:induction false} ClaimDequeue(s: State, t: nat)
    requires Inv(s) && s.Pc(t) == DeqChecked(s.deq)
    ensures Inv(Apply(s, t, Cas(false)))
  {
    var p, s' := s.deq, Apply(s, t, Cas(false));
    assert ThreadOk(s, t) && SlotOk(s, Index(s, p));
    HoldsAt(s, p);
    forall i: nat | i < s.cap ensures SlotOk(s', i) {
      assert SlotOk(s, i);
    }
    forall u: nat ensures ThreadOk(s', u) {
      assert ThreadOk(s, u);
      assert u != t ==> s'.Pc(u) == s.Pc(u);
    }
    forall u: nat | u != t ensures !Clash(s.Pc(u), s'.Pc(t)) && !Clash(s'.Pc(t), s.Pc(u)) {
      assert ThreadOk(s, u);
    }
    ExclusiveStays(s, s', t);
    forall q: nat ensures Accounted(s', q) {
      AccountedStays(s, s', t, q);
    }
  }

  /** Another thread that relies on the slot of ticket p would have to be on the same ticket. */
  lemma {:induction false} ProducerAlone(s: State, t: nat, u: nat)
    requires Inv(s) && (s.Pc(t).EnqClaimed? || s.Pc(t).EnqWritten?) && u != t
    ensures match s.Pc(u)
            case EnqChecked(_, pos) => pos == s.enq ==> Index(s, pos) != Index(s, s.Pc(t).pos)
            case EnqClaimed(_, pos) => Index(s, pos) != Index(s, s.Pc(t).pos)
            case EnqWritten(_, pos) => Index(s, pos) != Index(s, s.Pc(t).pos)
            case DeqChecked(pos) => pos == s.deq ==> Index(s, pos) != Index(s, s.Pc(t).pos)
            case DeqClaimed(pos) => Index(s, pos) != Index(s, s.Pc(t).pos)
            case DeqRead(pos, _) => Index(s, pos) != Index(s, s.Pc(t).pos)
            case _ => true
  {
    var p := s.Pc(t).pos;
    assert ThreadOk(s, t) && ThreadOk(s, u) && !Clash(s.Pc(t), s.Pc(u));
    if p > 0 {
      TurnInjective(p - 1, p, s.cap);
    }
  }

  lemma {:induction false} ConsumerAlone(s: State, t: nat, u: nat)
    requires Inv(s) && (s.Pc(t).DeqClaimed? || s.Pc(t).DeqRead?) && u != t
    ensures match s.Pc(u)
            case EnqChecked(_, pos) => pos == s.enq ==> Index(s, pos) != Index(s, s.Pc(t).pos)
            case EnqClaimed(_, pos) => Index(s, pos) != Index(s, s.Pc(t).pos)
            case EnqWritten(_, pos) => Index(s, pos) != Index(s, s.Pc(t).pos)
            case DeqChecked(pos) => pos == s.deq ==> Index(s, pos) != Index(s, s.Pc(t).pos)
            case DeqClaimed(pos) => Index(s, pos) != Index(s, s.Pc(t).pos)
            case DeqRead(pos, _) => Index(s, pos) != Index(s, s.Pc(t).pos)
            case _ => true
  {
    var p := s.Pc(t).pos;
    assert ThreadOk(s, t) && ThreadOk(s, u) && !Clash(s.Pc(t), s.Pc(u));
    TurnInjective(p, p + 1, s.cap);
  }

  lemma {:induction false} WriteValue(s: State, t: nat)
    requires Inv(s) && s.Pc(t).EnqClaimed?
    ensures Inv(Apply(s, t, TouchValue))
  {
    var p, s' := s.Pc(t).pos, Apply(s, t, TouchValue);
    assert ThreadOk(s, t) && SlotOk(s, Index(s, p));
    WaitsAt(s, p);
    forall i: nat | i < s.cap ensures SlotOk(s', i) {
      assert SlotOk(s, i);
    }
    forall u: nat ensures ThreadOk(s', u) {
      assert ThreadOk(s, u);
      if u != t {
        ProducerAlone(s, t, u);
      }
    }
    forall u: nat | u != t ensures !Clash(s.Pc(u), s'.Pc(t)) && !Clash(s'.Pc(t), s.Pc(u)) {
      assert !Clash(s.Pc(u), s.Pc(t)) && !Clash(s.Pc(t), s.Pc(u));
    }
    ExclusiveStays(s, s', t);
    forall q: nat ensures Accounted(s', q) {
      AccountedStays(s, s', t, q);
    }
  }

  lemma {:induction false} PublishValue(s: State, t: nat)
    requires Inv(s) && s.Pc(t).EnqWritten?
    ensures Inv(Apply(s, t, Publish))
  {
    var p, s' := s.Pc(t).pos, Apply(s, t, Publish);
    assert ThreadOk(s, t) && SlotOk(s, Index(s, p));
    WaitsAt(s, p);
    forall i: nat | i < s.cap ensures SlotOk(s', i) {
      assert SlotOk(s, i);
      assert i == Index(s, p) ==> Holds(s', i, p);
    }
    forall u: nat ensures ThreadOk(s', u) {
      assert ThreadOk(s, u);
      if u != t {
        ProducerAlone(s, t, u);
      }
    }
    ExclusiveStays(s, s', t);
    forall q: nat ensures Accounted(s', q) {
      if q != p {
        AccountedStays(s, s', t, q);
      } else {
        assert Accounted(s, p);
        if u :| Consuming(s.Pc(u), p) {
          assert Consuming(s'.Pc(u), p);
        }
      }
    }
  }

  lemma {:induction false} ReadValue(s: State, t: nat)
    requires Inv(s) && s.Pc(t).DeqClaimed?
    ensures Inv(Apply(s, t, TouchValue))
  {
    var p, s' := s.Pc(t).pos, Apply(s, t, TouchValue);
    assert ThreadOk(s, t) && SlotOk(s, Index(s, p));
    HoldsAt(s, p);
    forall i: nat | i < s.cap ensures SlotOk(s', i) {
      assert SlotOk(s, i);
    }
    forall u: nat ensures ThreadOk(s', u) {
      assert ThreadOk(s, u);
      assert u != t ==> s'.Pc(u) == s.Pc(u);
    }
    forall u: nat | u != t ensures !Clash(s.Pc(u), s'.Pc(t)) && !Clash(s'.Pc(t), s.Pc(u)) {
      assert !Clash(s.Pc(u), s.Pc(t)) && !Clash(s.Pc(t), s.Pc(u));
    }
    ExclusiveStays(s, s', t);
    forall q: nat ensures Accounted(s', q) {
      AccountedStays(s, s', t, q);
    }
  }

  lemma {:induction false} ReleaseSlot(s: State, t: nat)
    requires Inv(s) && s.Pc(t).DeqRead?
    ensures Inv(Apply(s, t, Publish))
  {
    var p, s' := s.Pc(t).pos, Apply(s, t, Publish);
    assert ThreadOk(s, t) && SlotOk(s, Index(s, p));
    HoldsAt(s, p);
    NextLap(s, p);
    forall i: nat | i < s.cap ensures SlotOk(s', i) {
      assert SlotOk(s, i);
      assert i == Index(s, p) ==> Waits(s', i, p + s.cap);
    }
    forall u: nat ensures ThreadOk(s', u) {
      assert ThreadOk(s, u);
      if u != t {
        ConsumerAlone(s, t, u);
        assert !Clash(s.Pc(t), s.Pc(u));
      }
    }
    ExclusiveStays(s, s', t);
    forall q: nat ensures Accounted(s', q) {
      if q != p {
        AccountedStays(s, s', t, q);
      } else {
        assert Accounted(s, p);
      }
    }
  }

  /** One step of any thread. */
  lemma {:induction false} StepKeepsInv(s: State, t: nat, a: Action)
    requires Inv(s)
    ensures Inv(Apply(s, t, a))
  {
    assert ThreadOk(s, t);
    var c := s.Pc(t);
    if c.EnqChecked? && a == Cas(false) && s.enq == c.pos {
      ClaimEnqueue(s, t, c.v);
    } else if c.DeqChecked? && a == Cas(false) && s.deq == c.pos {
      ClaimDequeue(s, t);
    } else if c.EnqClaimed? && a == TouchValue {
      WriteValue(s, t);
    } else if c.EnqWritten? && a == Publish {
      PublishValue(s, t);
    } else if c.DeqClaimed? && a == TouchValue {
      ReadValue(s, t);
    } else if c.DeqRead? && a == Publish {
      ReleaseSlot(s, t);
    } else if Apply(s, t, a) != s {
      LocalStep(s, t, Apply(s, t, a).Pc(t));
    }
  }

  // ------------------------------------------------------------------------------------------
  // Runs
  // ------------------------------------------------------------------------------------------

  /** is_power_of_two_size */
  predicate PowerOfTwoSize(v: nat) {
    v > 1 && BitAnd(v, v - 1) == 0
  }

  datatype Created = Ok(ring: State) | Invalid

  /** ring_buffer_mpmc_create: the sequence of slot i starts at i, and capacity must be a power of two
      greater than one. */
  method Create(capacity: nat) returns (r: Created)
    ensures r.Ok? <==> capacity > 1 && PowerOfTwo(capacity)
    ensures r.Ok? ==> Inv(r.ring) && r.ring.cap == capacity && r.ring.puts == [] && r.ring.pcs == map[]
  {
    if capacity > 0 {
      PowerTest(capacity);
    }
    if !PowerOfTwoSize(capacity) {
      return Invalid;
    }
    var slots: seq<Slot> := [];
    for i := 0 to capacity
      invariant |slots| == i
      invariant forall k :: 0 <= k < i ==> slots[k] == Slot(k, 0)
    {
      slots := slots + [Slot(i, 0)];
    }
    r := Ok(State(capacity, 0, 0, slots, map[], [], map[]));
    assert forall i: nat :: i < capacity ==> Waits(r.ring, i, i);
  }

  function Run(s: State, steps: seq<(nat, Action)>): (r: State)
    requires s.cap > 0 && |s.slots| == s.cap
    ensures r.cap > 0 && |r.slots| == r.cap
    decreases |steps|
  {
    if steps == [] then s else Run(Apply(s, steps[0].0, steps[0].1), steps[1..])
  }

  /** In every interleaving: deq <= enq <= deq + cap, what is delivered under a ticket is what was
      enqueued under it, and no ticket is lost or worked on twice. */
  lemma {:induction false} RunKeepsInv(s: State, steps: seq<(nat, Action)>)
    requires Inv(s)
    ensures Inv(Run(s, steps))
    decreases |steps|
  {
    if steps != [] {
      StepKeepsInv(s, steps[0].0, steps[0].1);
      RunKeepsInv(Apply(s, steps[0].0, steps[0].1), steps[1..]);
    }
  }

  // ------------------------------------------------------------------------------------------
  // What the answers mean
  // ------------------------------------------------------------------------------------------

  /** Between claim and publish a slot belongs to one thread. */
  lemma {:induction false} SlotsAreOwned(s: State, t: nat, u: nat)
    requires Inv(s) && t != u && !Local(s.Pc(t)) && !Local(s.Pc(u))
    ensures Index(s, s.Pc(t).pos) != Index(s, s.Pc(u).pos)
  {
    if s.Pc(t).EnqClaimed? || s.Pc(t).EnqWritten? {
      ProducerAlone(s, t, u);
    } else {
      ConsumerAlone(s, t, u);
    }
  }

  /** Ticket p has been given to a producer, and its slot has not been released since. */
  predicate Unreleased(s: State, p: nat)
    requires s.cap > 0 && |s.slots| == s.cap
  {
    p < s.enq && s.slots[Index(s, p)].sequence <= p + 1
  }

  /** "Full" is answered exactly when the loaded position is current and the ticket one lap behind it
      is unreleased. */
  lemma {:induction false} FullMeans(s: State, t: nat)
    requires Inv(s) && s.Pc(t).EnqLoaded?
    ensures var pos := s.Pc(t).pos;
            s.slots[Index(s, pos)].sequence < pos
            <==> pos == s.enq && pos >= s.cap && Unreleased(s, pos - s.cap)
  {
    var pos := s.Pc(t).pos;
    var i := Index(s, pos);
    var q := s.slots[i].sequence;
    assert ThreadOk(s, t) && SlotOk(s, i);
    if pos >= s.cap {
      NextLap(s, pos - s.cap);
    }
    if q < pos {
      var p := if Waits(s, i, q) then q else q - 1;
      if pos < p + s.cap {
        TurnInjective(p, pos, s.cap);
      }
    }
  }

  predicate Published(s: State, p: nat)
    requires s.cap > 0 && |s.slots| == s.cap
  {
    p < s.enq && s.slots[Index(s, p)].sequence > p
  }

  /** "Empty" is answered exactly when the loaded position is current and its ticket is unpublished. */
  lemma {:induction false} EmptyMeans(s: State, t: nat)
    requires Inv(s) && s.Pc(t).DeqLoaded?
    ensures var pos := s.Pc(t).pos;
            s.slots[Index(s, pos)].sequence < pos + 1 <==> pos == s.deq && !Published(s, s.deq)
  {
    var pos := s.Pc(t).pos;
    var i := Index(s, pos);
    var q := s.slots[i].sequence;
    assert ThreadOk(s, t) && SlotOk(s, i);
    var p := if Waits(s, i, q) then q else q - 1;
    if p < pos && pos < p + s.cap {
      TurnInjective(p, pos, s.cap);
    } else if pos < p < pos + s.cap {
      TurnInjective(pos, p, s.cap);
    }
  }

  /** A ring at rest holds the undelivered values in ticket order, and everything before them has been
      delivered. */
  lemma {:induction false} AtRest(s: State)
    requires Inv(s) && forall t: nat :: Local(s.Pc(t))
    ensures forall p: nat :: p in s.gets <==> p < s.deq
    ensures forall p: nat :: s.deq <= p < s.enq ==> s.slots[Index(s, p)] == Slot(p + 1, s.puts[p])
  {
    forall p: nat ensures p in s.gets <==> p < s.deq {
      assert Accounted(s, p);
    }
    forall p: nat | s.deq <= p < s.enq ensures s.slots[Index(s, p)] == Slot(p + 1, s.puts[p]) {
      assert Accounted(s, p) && SlotOk(s, Index(s, p));
      var i := Index(s, p);
      var q := s.slots[i].sequence;
      var o := if Waits(s, i, q) then q else q - 1;
      if p < o {
        TurnInjective(p, o, s.cap);
      }
    }
  }

  function EmptyPair(): State {
    State(2, 0, 0, [Slot(0, 0), Slot(1, 0)], map[], [], map[])
  }

  lemma {:induction false} FillPair(v0: int, v1: int) returns (steps: seq<(nat, Action)>, s: State)
    ensures Inv(EmptyPair()) && s == Run(EmptyPair(), steps)
    ensures s == State(2, 2, 0, [Slot(1, v0), Slot(2, v1)], map[0 := Idle], [v0, v1], map[])
  {
    var s0 := EmptyPair();
    assert Waits(s0, 0, 0) && Waits(s0, 1, 1);
    assert Turn(0, 2) == 0 && Turn(1, 2) == 1;
    var a := EnqueueRun(s0, 0, v0);
    var s1 := State(2, 1, 0, [Slot(1, v0), Slot(1, 0)], map[0 := Idle], [v0], map[]);
    assert Run(s0, a) == s1;
    var b := EnqueueRun(s1, 0, v1);
    s := State(2, 2, 0, [Slot(1, v0), Slot(2, v1)], map[0 := Idle], [v0, v1], map[]);
    assert Run(s1, b) == s;
    steps := a + b;
    RunConcat(s0, a, b);
  }

  /** So "full" does not mean that `cap` values are in the ring: one consumer that has claimed the
      oldest ticket and not yet released it is enough, even when every ticket is claimed and all
      the others are released. */
  lemma {:induction false} FullWhileDrained(v0: int, v1: int, v: int) returns (steps: seq<(nat, Action)>, s: State)
    ensures Inv(EmptyPair()) && s == Run(EmptyPair(), steps)
    ensures s.enq == s.deq == 2 && s.gets.Keys == {1} && s.Pc(1) == DeqClaimed(0)
    ensures s.Pc(0) == EnqLoaded(v, 2) && Apply(s, 0, LoadSequence).Pc(0) == Idle
  {
    var filled, full := FillPair(v0, v1);
    var more;
    more, s := SlowConsumer(full, v);
    steps := filled + more;
    RunConcat(EmptyPair(), filled, more);
  }

  lemma {:induction false} SlowConsumer(s2: State, v: int) returns (steps: seq<(nat, Action)>, s: State)
    requires s2.cap == s2.enq == |s2.slots| == |s2.puts| == 2 && s2.deq == 0 && s2.pcs == map[0 := Idle] && s2.gets == map[]
    requires s2.slots[0].sequence == 1 && s2.slots[1].sequence == 2
    ensures s == Run(s2, steps)
    ensures s.enq == s.deq == 2 && s.gets.Keys == {1} && s.Pc(1) == DeqClaimed(0)
    ensures s.Pc(0) == EnqLoaded(v, 2) && |s.slots| == s.cap == 2 && Apply(s, 0, LoadSequence).Pc(0) == Idle
  {
    assert Turn(0, 2) == 0 && Turn(1, 2) == 1 && Turn(2, 2) == 0;
    var c := ClaimRun(s2, 1);
    var s3 := s2.(deq := 1, pcs := s2.pcs[1 := DeqClaimed(0)]);
    var d := DequeueRun(s3, 2);
    var s4 := Run(s3, d);
    assert s4.slots == s2.slots[1 := s2.slots[1].(sequence := 3)];
    var e := [(0, CallEnqueue(v)), (0, LoadPos)];
    s := Run2(s4, e);
    steps := c + d + e;
    RunConcat(s2, c + d, e);
    RunConcat(s2, c, d);
  }

  lemma {:induction false} RunConcat(s: State, a: seq<(nat, Action)>, b: seq<(nat, Action)>)
    requires s.cap > 0 && |s.slots| == s.cap
    ensures Run(s, a + b) == Run(Run(s, a), b)
    decreases |a|
  {
    if a == [] {
      assert a + b == b;
    } else {
      assert (a + b)[1..] == a[1..] + b;
      RunConcat(Apply(s, a[0].0, a[0].1), a[1..], b);
    }
  }

  lemma {:induction false} Run2(s: State, steps: seq<(nat, Action)>) returns (r: State)
    requires s.cap > 0 && |s.slots| == s.cap && |steps| == 2
    ensures r == Run(s, steps) == Apply(Apply(s, steps[0].0, steps[0].1), steps[1].0, steps[1].1)
  {
    r := Run(s, steps);
    var s1 := Apply(s, steps[0].0, steps[0].1);
    assert r == Run(s1, steps[1..]);
    assert steps[1..][1..] == [];
    assert Run(s1, steps[1..]) == Run(Apply(s1, steps[1].0, steps[1].1), []);
  }

  lemma {:induction false} Run4(s: State, steps: seq<(nat, Action)>) returns (r: State)
    requires s.cap > 0 && |s.slots| == s.cap && |steps| == 4
    ensures var s1 := Apply(Apply(s, steps[0].0, steps[0].1), steps[1].0, steps[1].1);
            r == Run(s, steps) == Apply(Apply(s1, steps[2].0, steps[2].1), steps[3].0, steps[3].1)
  {
    r := Run(s, steps);
    assert steps == steps[..2] + steps[2..];
    RunConcat(s, steps[..2], steps[2..]);
    var s1 := Run2(s, steps[..2]);
    var s2 := Run2(s1, steps[2..]);
  }

  /** A thread enqueues without being interrupted. */
  lemma {:induction false} EnqueueRun(s: State, t: nat, v: int) returns (steps: seq<(nat, Action)>)
    requires Shape(s) && s.Pc(t) == Idle && s.slots[Index(s, s.enq)].sequence == s.enq && s.enq < s.deq + s.cap
    ensures Run(s, steps) == s.(enq := s.enq + 1, puts := s.puts + [v], pcs := s.pcs[t := Idle],
                                slots := s.slots[Index(s, s.enq) := Slot(s.enq + 1, v)])
  {
    var first := [(t, CallEnqueue(v)), (t, LoadPos), (t, LoadSequence), (t, Cas(false))];
    var second := [(t, TouchValue), (t, Publish)];
    steps := first + second;
    RunConcat(s, first, second);
    var s1 := Run4(s, first);
    assert s1.pcs == s.pcs[t := EnqClaimed(v, s.enq)];
    var s2 := Run2(s1, second);
    assert s2.pcs == s.pcs[t := Idle];
    assert s2.slots == s.slots[Index(s, s.enq) := Slot(s.enq + 1, v)];
  }

  lemma {:induction false} DequeueRun(s: State, t: nat) returns (steps: seq<(nat, Action)>)
    requires Shape(s) && s.Pc(t) == Idle && s.slots[Index(s, s.deq)].sequence == s.deq + 1
    ensures var i := Index(s, s.deq);
            Run(s, steps) == s.(deq := s.deq + 1, pcs := s.pcs[t := Idle], gets := s.gets[s.deq := s.slots[i].value],
                                slots := s.slots[i := s.slots[i].(sequence := s.deq + s.cap)])
  {
    var first := ClaimRun(s, t);
    var s1 := s.(deq := s.deq + 1, pcs := s.pcs[t := DeqClaimed(s.deq)]);
    var second := [(t, TouchValue), (t, Publish)];
    steps := first + second;
    RunConcat(s, first, second);
    var s2 := Run2(s1, second);
    assert s2.pcs == s.pcs[t := Idle];
  }

  /** A thread claims the oldest published ticket, and stops there. */
  lemma {:induction false} ClaimRun(s: State, t: nat) returns (steps: seq<(nat, Action)>)
    requires Shape(s) && s.Pc(t) == Idle && s.slots[Index(s, s.deq)].sequence == s.deq + 1
    ensures Run(s, steps) == s.(deq := s.deq + 1, pcs := s.pcs[t := DeqClaimed(s.deq)])
  {
    steps := [(t, CallDequeue), (t, LoadPos), (t, LoadSequence), (t, Cas(false))];
    var r := Run4(s, steps);
    assert r.pcs == s.pcs[t := DeqClaimed(s.deq)];
  }
}
