/** The lock-free slab allocator (oxbow/devfs/src/common/oxb_slab.c).

    A stack of free objects linked through the objects themselves, with a (pointer, version) head that
    is swapped by one double-word compare-exchange, and a grow path under a mutex.  Objects that the
    clients own may hold anything, so a thread that has loaded a stale head reads garbage as `next`;
    the version must keep it from being installed. */
module Slab {

  const NULL: nat := 0

  /** oxb_free_list_head_t */
  datatype Head = Head(obj: nat, version: nat)

  /** Where a thread stands.  A push works on the first object of `todo`: the object given to free, or
      the objects of a slab just grown, after which the allocation is retried. */
  datatype Pc =
    | Idle
    | AllocTry                                             // head of the retry loop
    | AllocLoaded(seen: Head)                              // a non-empty head was loaded
    | AllocNext(seen: Head, next: nat)                     // seen.obj->next was read
    | GrowWait                                             // the head was empty: wait for the mutex
    | GrowLocked                                           // mutex held, head not yet looked at
    | GrowEmpty                                            // mutex held, head still empty
    | PushTry(todo: seq<nat>, retry: bool)
    | PushLoaded(todo: seq<nat>, retry: bool, seen: Head)
    | PushLinked(todo: seq<nat>, retry: bool, seen: Head)  // obj->next written
    | Dead                                                 // panic

  datatype Lock = Free | HeldBy(t: nat)

  /** `objects` are all objects of published slabs, `owned` those in the hands of the clients, and
      `free` the chain behind the head; the last is not part of the program. */
  datatype State = State(head: Head, next: map<nat, nat>, pcs: map<nat, Pc>, owned: set<nat>,
                         slabs: seq<seq<nat>>, capacity: nat, lock: Lock, perSlab: nat,
                         objects: set<nat>, free: seq<nat>) {
    function Pc(t: nat): Pc {
      At(pcs, t)
    }

    function Next(o: nat): nat {
      Word(next, o)
    }
  }

  function At(pcs: map<nat, Pc>, t: nat): Pc {
    if t in pcs then pcs[t] else Idle
  }

  /** The first word of an object. */
  function Word(next: map<nat, nat>, o: nat): nat {
    if o in next then next[o] else NULL
  }

  datatype Action =
    | CallAlloc | CallFree(obj: nat)
    | LoadHead | ReadNext | Link
    | Cas(spurious: bool)
    | TakeLock | CheckHead | GrowSlab(objs: seq<nat>) | GrowFails
    | Scribble(obj: nat, word: nat) // a client writes to an object it owns

  function Transit(c: Pc): seq<nat> {
    if c.PushTry? || c.PushLoaded? || c.PushLinked? then c.todo else []
  }

  predicate Distinct(s: seq<nat>) {
    forall i, j :: 0 <= i < j < |s| ==> s[i] != s[j]
  }

  /** What malloc returns is not in use. */
  predicate Fresh(s: State, objs: seq<nat>) {
    |objs| == s.perSlab && |objs| > 0 && Distinct(objs) && forall i :: 0 <= i < |objs| ==> objs[i] != NULL && objs[i] !in s.objects
  }

  /** After the first object of `todo` has been pushed. */
  function AfterPush(todo: seq<nat>, retry: bool): Pc
    requires todo != []
  {
    if |todo| > 1 then PushTry(todo[1..], retry) else if retry then AllocTry else Idle
  }

  /** One atomic step of thread t; a step that t is not about to take changes nothing. */
  function Apply(s: State, t: nat, a: Action): State {
    var c := s.Pc(t);
    if c.Idle? && a.CallAlloc? then s.(pcs := s.pcs[t := AllocTry])
    else if c.Idle? && a.CallFree? && a.obj in s.owned then // a client frees what it owns
      s.(owned := s.owned - {a.obj}, pcs := s.pcs[t := PushTry([a.obj], false)])
    else if a.Scribble? && a.obj in s.owned then s.(next := s.next[a.obj := a.word])

    else if c.AllocTry? && a.LoadHead? then
      s.(pcs := s.pcs[t := if s.head.obj == NULL then GrowWait else AllocLoaded(s.head)])
    else if c.AllocLoaded? && a.ReadNext? then
      s.(pcs := s.pcs[t := AllocNext(c.seen, s.Next(c.seen.obj))])
    else if c.AllocNext? && a.Cas? then
      if s.head == c.seen && !a.spurious
      then s.(head := Head(c.next, c.seen.version + 1), owned := s.owned + {c.seen.obj},
              free := if s.free == [] then [] else s.free[1..], pcs := s.pcs[t := Idle])
      else s.(pcs := s.pcs[t := AllocTry])

    else if c.GrowWait? && a.TakeLock? && s.lock.Free? then s.(lock := HeldBy(t), pcs := s.pcs[t := GrowLocked])
    else if c.GrowLocked? && a.CheckHead? then
      if s.head.obj != NULL then s.(lock := Lock.Free, pcs := s.pcs[t := AllocTry])
      else s.(pcs := s.pcs[t := GrowEmpty])
    else if c.GrowEmpty? && a.GrowSlab? && Fresh(s, a.objs) then
      s.(slabs := s.slabs + [a.objs], objects := s.objects + (set o | o in a.objs),
         capacity := if |s.slabs| >= s.capacity then s.capacity * 2 else s.capacity,
         lock := Lock.Free, pcs := s.pcs[t := PushTry(a.objs, true)])
    else if c.GrowEmpty? && a.GrowFails? then s.(lock := Lock.Free, pcs := s.pcs[t := Dead])

    else if c.PushTry? && a.LoadHead? then s.(pcs := s.pcs[t := PushLoaded(c.todo, c.retry, s.head)])
    else if c.PushLoaded? && c.todo != [] && a.Link? then
      s.(next := s.next[c.todo[0] := c.seen.obj], pcs := s.pcs[t := PushLinked(c.todo, c.retry, c.seen)])
    else if c.PushLinked? && c.todo != [] && a.Cas? then
      if s.head == c.seen && !a.spurious
      then s.(head := Head(c.todo[0], c.seen.version + 1), free := [c.todo[0]] + s.free,
              pcs := s.pcs[t := AfterPush(c.todo, c.retry)])
      else s.(pcs := s.pcs[t := PushTry(c.todo, c.retry)])

    else s
  }

  // ------------------------------------------------------------------------------------------
  // The invariant
  // ------------------------------------------------------------------------------------------

  /** The chain of next words from the head is exactly `free`, and ends. */
  ghost predicate Linked(first: nat, free: seq<nat>, next: map<nat, nat>) {
    && first == (if free == [] then NULL else free[0])
    && (forall i :: 0 <= i < |free| ==> Word(next, free[i]) == Successor(free, i))
    && Distinct(free)
  }

  function Successor(free: seq<nat>, i: int): nat
    requires 0 <= i < |free|
  {
    if i + 1 < |free| then free[i + 1] else NULL
  }

  /** What a thread may rely on.  A head seen under the current version is the current head. */
  ghost predicate Seen(s: State, h: Head) {
    && h.version <= s.head.version && (h.version == s.head.version ==> h == s.head)
    && (h.obj == NULL || h.obj in s.objects)
  }

  ghost predicate ThreadOk(s: State, t: nat) {
    match s.Pc(t)
    case AllocLoaded(h) => Seen(s, h) && h.obj != NULL
    case AllocNext(h, n) => Seen(s, h) && h.obj != NULL && (h == s.head ==> n == s.Next(h.obj))
    case GrowLocked => s.lock == HeldBy(t)
    case GrowEmpty => s.lock == HeldBy(t)
    case PushTry(todo, _) => todo != []
    case PushLoaded(todo, _, h) => todo != [] && Seen(s, h)
    case PushLinked(todo, _, h) => todo != [] && Seen(s, h) && s.Next(todo[0]) == h.obj
    case _ => true
  }

  /** Objects a thread is pushing are its own. */
  ghost predicate TransitOk(s: State, t: nat) {
    var todo := Transit(s.Pc(t));
    Distinct(todo) && forall i :: 0 <= i < |todo| ==> todo[i] in s.objects && todo[i] !in s.owned && todo[i] !in s.free
  }

  ghost predicate Apart(pcs: map<nat, Pc>, t: nat, u: nat) {
    forall o :: o in Transit(At(pcs, t)) ==> o !in Transit(At(pcs, u))
  }

  /** The object is somewhere. */
  ghost predicate Placed(s: State, o: nat) {
    o in s.free || o in s.owned || exists t :: o in Transit(s.Pc(t))
  }

  /** The objects are those of the published slabs. */
  ghost predicate Covered(objects: set<nat>, slabs: seq<seq<nat>>) {
    forall o :: o in objects <==> exists k :: 0 <= k < |slabs| && o in slabs[k]
  }

  ghost predicate ObjectsOk(s: State) {
    && NULL !in s.objects && s.owned <= s.objects && Covered(s.objects, s.slabs)
    && (forall i :: 0 <= i < |s.free| ==> s.free[i] in s.objects && s.free[i] !in s.owned)
    && |s.slabs| <= s.capacity && s.capacity > 0
  }

  ghost predicate Inv(s: State) {
    && Linked(s.head.obj, s.free, s.next) && ObjectsOk(s)
    && (forall t: nat :: ThreadOk(s, t))
    && (forall t: nat :: TransitOk(s, t))
    && (forall t: nat, u: nat :: t != u ==> Apart(s.pcs, t, u))
    && (forall o: nat :: o in s.objects ==> Placed(s, o))
  }

  // ------------------------------------------------------------------------------------------
  // Every step keeps the invariant
  // ------------------------------------------------------------------------------------------

  ghost predicate Moved(s: State, s': State, t: nat) {
    forall u: nat :: u != t ==> s'.Pc(u) == s.Pc(u)
  }

  lemma {:induction false} ApartStays(s: State, s': State, t: nat)
    requires Moved(s, s', t) && forall x: nat, y: nat :: x != y ==> Apart(s.pcs, x, y)
    requires forall o :: o in Transit(s'.Pc(t)) ==> forall u: nat :: u != t ==> o !in Transit(s.Pc(u))
    ensures forall x: nat, y: nat :: x != y ==> Apart(s'.pcs, x, y)
  {
    forall x: nat, y: nat | x != y ensures Apart(s'.pcs, x, y) {
      assert Apart(s.pcs, x, y);
      assert (x != t ==> s'.Pc(x) == s.Pc(x)) && (y != t ==> s'.Pc(y) == s.Pc(y));
      forall o | o in Transit(s'.Pc(x)) ensures o !in Transit(s'.Pc(y)) {
      }
    }
  }

  lemma {:induction false} PlacedStays(s: State, s': State, t: nat, o: nat)
    requires Moved(s, s', t) && Placed(s, o)
    requires o in s.free ==> o in s'.free || o in s'.owned
    requires o in s.owned ==> o in s'.owned || o in Transit(s'.Pc(t))
    requires o in Transit(s.Pc(t)) ==> o in Transit(s'.Pc(t)) || o in s'.free
    ensures Placed(s', o)
  {
    if o !in s.free && o !in s.owned {
      var u :| o in Transit(s.Pc(u));
      assert o in Transit(s'.Pc(u)) || o in s'.free;
    }
  }

  /** Steps that change at most the lock and the thread's own place in the program. */
  lemma {:induction false} LocalStep(s: State, t: nat, c: Pc, lock: Lock)
    requires Inv(s) && Transit(c) == Transit(s.Pc(t))
    requires lock == s.lock || s.lock == HeldBy(t) || (s.lock.Free? && lock == HeldBy(t))
    requires ThreadOk(s.(pcs := s.pcs[t := c], lock := lock), t)
    ensures Inv(s.(pcs := s.pcs[t := c], lock := lock))
  {
    var s' := s.(pcs := s.pcs[t := c], lock := lock);
    forall u: nat ensures ThreadOk(s', u) && TransitOk(s', u) {
      assert ThreadOk(s, u) && TransitOk(s, u);
    }
    forall u: nat, o | u != t && o in Transit(s'.Pc(t)) ensures o !in Transit(s.Pc(u)) {
      assert Apart(s.pcs, t, u);
    }
    ApartStays(s, s', t);
    forall o: nat | o in s'.objects ensures Placed(s', o) {
      PlacedStays(s, s', t, o);
    }
  }

  /** A word outside the chain does not matter to it. */
  lemma {:induction false} LinkedElsewhere(first: nat, free: seq<nat>, next: map<nat, nat>, o: nat, word: nat)
    requires Linked(first, free, next) && o !in free
    ensures Linked(first, free, next[o := word])
  {
  }

  lemma {:induction false} LinkedTail(free: seq<nat>, next: map<nat, nat>)
    requires free != [] && Linked(free[0], free, next)
    ensures Linked(Word(next, free[0]), free[1..], next)
  {
    var rest := free[1..];
    forall i | 0 <= i < |rest| ensures Word(next, rest[i]) == Successor(rest, i) {
      assert rest[i] == free[i + 1] && Word(next, free[i + 1]) == Successor(free, i + 1);
    }
    assert Word(next, free[0]) == Successor(free, 0);
  }

  lemma {:induction false} LinkedCons(o: nat, free: seq<nat>, next: map<nat, nat>)
    requires Linked(if free == [] then NULL else free[0], free, next) && o !in free
    requires Word(next, o) == if free == [] then NULL else free[0]
    ensures Linked(o, [o] + free, next)
  {
    var all := [o] + free;
    forall i | 0 <= i < |all| ensures Word(next, all[i]) == Successor(all, i) {
      assert i > 0 ==> all[i] == free[i - 1] && Word(next, free[i - 1]) == Successor(free, i - 1);
    }
  }

  /** Whatever a client writes into an object it owns. */
  lemma {:induction false} ScribbleStep(s: State, o: nat, word: nat)
    requires Inv(s) && o in s.owned
    ensures Inv(s.(next := s.next[o := word]))
  {
    var s' := s.(next := s.next[o := word]);
    LinkedElsewhere(s.head.obj, s.free, s.next, o, word);
    forall u: nat ensures ThreadOk(s', u) && TransitOk(s', u) {
      assert ThreadOk(s, u) && TransitOk(s, u);
      var c := s.Pc(u);
      assert c.PushLinked? ==> c.todo[0] == Transit(c)[0];
      assert c.AllocNext? && c.seen == s.head ==> c.seen.obj == s.free[0];
    }
    forall p: nat | p in s'.objects ensures Placed(s', p) {
      PlacedStays(s, s', 0, p);
    }
  }

  lemma {:induction false} FreeStep(s: State, t: nat, o: nat)
    requires Inv(s) && s.Pc(t) == Idle && o in s.owned
    ensures Inv(s.(owned := s.owned - {o}, pcs := s.pcs[t := PushTry([o], false)]))
  {
    var s' := s.(owned := s.owned - {o}, pcs := s.pcs[t := PushTry([o], false)]);
    forall u: nat ensures ThreadOk(s', u) && TransitOk(s', u) {
      assert ThreadOk(s, u) && TransitOk(s, u);
    }
    forall u: nat, p | u != t && p in Transit(s'.Pc(t)) ensures p !in Transit(s.Pc(u)) {
      assert TransitOk(s, u);
    }
    ApartStays(s, s', t);
    forall p: nat | p in s'.objects ensures Placed(s', p) {
      PlacedStays(s, s', t, p);
    }
  }

  /** Writing the link of an object in transit disturbs no one. */
  lemma {:induction false} LinkStep(s: State, t: nat)
    requires Inv(s) && s.Pc(t).PushLoaded? && s.Pc(t).todo != []
    ensures Inv(Apply(s, t, Link))
  {
    var c, s' := s.Pc(t), Apply(s, t, Link);
    var o := c.todo[0];
    assert ThreadOk(s, t) && TransitOk(s, t) && o in Transit(c);
    LinkedElsewhere(s.head.obj, s.free, s.next, o, c.seen.obj);
    forall u: nat ensures ThreadOk(s', u) && TransitOk(s', u) {
      assert ThreadOk(s, u) && TransitOk(s, u);
      LinkKeepsThread(s, t, u);
    }
    forall u: nat, p | u != t && p in Transit(s'.Pc(t)) ensures p !in Transit(s.Pc(u)) {
      assert Apart(s.pcs, t, u);
    }
    ApartStays(s, s', t);
    forall p: nat | p in s'.objects ensures Placed(s', p) {
      PlacedStays(s, s', t, p);
    }
  }

  lemma {:induction false} LinkKeepsThread(s: State, t: nat, u: nat)
    requires s.Pc(t).PushLoaded? && s.Pc(t).todo != [] && Linked(s.head.obj, s.free, s.next)
    requires ThreadOk(s, t) && TransitOk(s, t) && ThreadOk(s, u) && TransitOk(s, u)
    requires u != t ==> Apart(s.pcs, t, u)
    ensures ThreadOk(Apply(s, t, Link), u) && TransitOk(Apply(s, t, Link), u)
  {
    var s', d := Apply(s, t, Link), s.Pc(u);
    assert s.Pc(t).todo[0] in Transit(s.Pc(t));
    if u != t {
      assert s'.Pc(u) == d;
      assert d.PushLinked? ==> d.todo[0] in Transit(d);
      assert d.AllocNext? && d.seen == s.head ==> d.seen.obj == s.free[0];
    }
  }

  /** The winning pop: the `next` read under the same version is the current one. */
  lemma {:induction false} PopStep(s: State, t: nat)
    requires Inv(s) && s.Pc(t).AllocNext? && s.head == s.Pc(t).seen
    ensures s.free != [] && s.Pc(t).seen.obj == s.free[0] && s.Pc(t).next == s.Next(s.free[0])
    ensures Inv(Apply(s, t, Cas(false)))
  {
    var c, s' := s.Pc(t), Apply(s, t, Cas(false));
    assert ThreadOk(s, t) && s.free != [];
    forall u: nat ensures ThreadOk(s', u) && TransitOk(s', u) {
      assert ThreadOk(s, u) && TransitOk(s, u);
      PopKeepsThread(s, t, u);
    }
    ApartStays(s, s', t);
    forall p: nat | p in s'.objects ensures Placed(s', p) {
      assert p in s.free ==> p == s.free[0] || p in s.free[1..];
      PlacedStays(s, s', t, p);
    }
    LinkedTail(s.free, s.next);
  }

  lemma {:induction false} PopKeepsThread(s: State, t: nat, u: nat)
    requires s.Pc(t).AllocNext? && s.head == s.Pc(t).seen && s.free != [] && s.head.obj == s.free[0]
    requires ThreadOk(s, t) && ThreadOk(s, u) && TransitOk(s, u)
    ensures ThreadOk(Apply(s, t, Cas(false)), u) && TransitOk(Apply(s, t, Cas(false)), u)
  {
    var s' := Apply(s, t, Cas(false));
    assert forall o :: o in s'.free ==> o in s.free;
    if u != t {
      assert s'.Pc(u) == s.Pc(u);
    }
  }

  lemma {:induction false} PushStep(s: State, t: nat)
    requires Inv(s) && s.Pc(t).PushLinked? && s.Pc(t).todo != [] && s.head == s.Pc(t).seen
    ensures Inv(Apply(s, t, Cas(false)))
  {
    var c, s' := s.Pc(t), Apply(s, t, Cas(false));
    var o := c.todo[0];
    assert ThreadOk(s, t) && TransitOk(s, t) && o in Transit(c);
    forall u: nat ensures ThreadOk(s', u) && TransitOk(s', u) {
      assert ThreadOk(s, u) && TransitOk(s, u);
      PushKeepsThread(s, t, u);
    }
    forall u: nat, p | u != t && p in Transit(s'.Pc(t)) ensures p !in Transit(s.Pc(u)) {
      assert Apart(s.pcs, t, u) && p in c.todo;
    }
    ApartStays(s, s', t);
    forall p: nat | p in s'.objects ensures Placed(s', p) {
      assert p in c.todo ==> p == o || p in c.todo[1..];
      PlacedStays(s, s', t, p);
    }
    LinkedCons(o, s.free, s.next);
  }

  lemma {:induction false} PushKeepsThread(s: State, t: nat, u: nat)
    requires s.Pc(t).PushLinked? && s.Pc(t).todo != [] && s.head == s.Pc(t).seen
    requires ThreadOk(s, t) && TransitOk(s, t) && ThreadOk(s, u) && TransitOk(s, u)
    requires u != t ==> Apart(s.pcs, t, u)
    ensures ThreadOk(Apply(s, t, Cas(false)), u) && TransitOk(Apply(s, t, Cas(false)), u)
  {
    var c, s' := s.Pc(t), Apply(s, t, Cas(false));
    assert c.todo[0] in Transit(c);
    if u == t {
      var todo := Transit(s'.Pc(t));
      assert todo == c.todo[1..];
      assert forall i :: 0 <= i < |todo| ==> todo[i] == c.todo[i + 1];
    } else {
      assert s'.Pc(u) == s.Pc(u);
    }
  }

  lemma {:induction false} GrowStep(s: State, t: nat, objs: seq<nat>)
    requires Inv(s) && s.Pc(t).GrowEmpty? && Fresh(s, objs)
    ensures Inv(Apply(s, t, GrowSlab(objs)))
  {
    var s' := Apply(s, t, GrowSlab(objs));
    assert ThreadOk(s, t);
    forall u: nat ensures ThreadOk(s', u) && TransitOk(s', u) {
      assert ThreadOk(s, u) && TransitOk(s, u);
    }
    forall u: nat, p | u != t && p in Transit(s'.Pc(t)) ensures p !in Transit(s.Pc(u)) {
      assert TransitOk(s, u);
    }
    ApartStays(s, s', t);
    forall p: nat | p in s'.objects ensures Placed(s', p) {
      if p in objs {
        assert p in Transit(s'.Pc(t));
      } else {
        PlacedStays(s, s', t, p);
      }
    }
    forall o ensures o in s'.objects <==> exists k :: 0 <= k < |s'.slabs| && o in s'.slabs[k] {
      if o in s.objects {
        var k :| 0 <= k < |s.slabs| && o in s.slabs[k];
        assert o in s'.slabs[k];
      }
      if o in objs {
        assert o in s'.slabs[|s.slabs|];
      }
    }
  }

  lemma {:induction false} StepKeepsInv(s: State, t: nat, a: Action)
    requires Inv(s)
    ensures Inv(Apply(s, t, a))
  {
    var c := s.Pc(t);
    assert ThreadOk(s, t);
    if c.Idle? && a.CallFree? && a.obj in s.owned {
      FreeStep(s, t, a.obj);
    } else if a.Scribble? && a.obj in s.owned {
      ScribbleStep(s, a.obj, a.word);
    } else if c.AllocNext? && a.Cas? && s.head == c.seen && !a.spurious {
      PopStep(s, t);
    } else if c.GrowEmpty? && a.GrowSlab? && Fresh(s, a.objs) {
      GrowStep(s, t, a.objs);
    } else if c.PushLoaded? && a.Link? {
      LinkStep(s, t);
    } else if c.PushLinked? && a.Cas? && s.head == c.seen && !a.spurious {
      PushStep(s, t);
    } else {
      LocalCase(s, t, a);
    }
  }

  lemma {:induction false} LocalCase(s: State, t: nat, a: Action)
    requires Inv(s) && (Apply(s, t, a) == s || (!a.GrowSlab? && !a.Link? && !a.CallFree? && !a.Scribble?))
    requires a.Cas? ==> !(s.Pc(t).AllocNext? && s.head == s.Pc(t).seen && !a.spurious)
    requires a.Cas? ==> !(s.Pc(t).PushLinked? && s.head == s.Pc(t).seen && !a.spurious)
    ensures Inv(Apply(s, t, a))
  {
    assert ThreadOk(s, t);
    if Apply(s, t, a) != s {
      LocalShape(s, t, a);
      LocalStep(s, t, Apply(s, t, a).Pc(t), Apply(s, t, a).lock);
    }
  }

  lemma {:induction false} LocalShape(s: State, t: nat, a: Action)
    requires ThreadOk(s, t) && (s.head.obj == NULL || s.head.obj in s.objects) && Apply(s, t, a) != s
    requires !a.GrowSlab? && !a.Link? && !a.CallFree? && !a.Scribble?
    requires a.Cas? ==> !(s.Pc(t).AllocNext? && s.head == s.Pc(t).seen && !a.spurious)
    requires a.Cas? ==> !(s.Pc(t).PushLinked? && s.head == s.Pc(t).seen && !a.spurious)
    ensures var s' := Apply(s, t, a);
            && s' == s.(pcs := s.pcs[t := s'.Pc(t)], lock := s'.lock)
            && Transit(s'.Pc(t)) == Transit(s.Pc(t)) && ThreadOk(s', t)
            && (s'.lock == s.lock || s.lock == HeldBy(t) || (s.lock.Free? && s'.lock == HeldBy(t)))
  {
  }

  // ------------------------------------------------------------------------------------------
  // Runs
  // ------------------------------------------------------------------------------------------

  /** The state after oxb_slab_init has pushed the objects of the prefilled slabs, `free` in the order
      in which they will be popped. */
  ghost predicate Init(s: State) {
    && Linked(s.head.obj, s.free, s.next) && ObjectsOk(s)
    && s.pcs == map[] && s.owned == {} && s.lock == Lock.Free
    && (forall o :: o in s.objects ==> o in s.free)
  }

  /** The slabs that malloc returned are disjoint and hold `perSlab` objects each. */
  ghost predicate Malloced(slabs: seq<seq<nat>>, perSlab: nat) {
    && (forall i :: 0 <= i < |slabs| ==> |slabs[i]| == perSlab && Distinct(slabs[i]) && NULL !in slabs[i])
    && (forall i, j, o :: 0 <= i < j < |slabs| && o in slabs[i] ==> o !in slabs[j])
  }

  ghost predicate Pushed(head: Head, free: seq<nat>, next: map<nat, nat>, slabs: seq<seq<nat>>, i: nat, j: nat)
    requires i <= |slabs|
  {
    && Linked(head.obj, free, next)
    && (forall o :: o in free <==> (exists k :: 0 <= k < i && o in slabs[k]) || (i < |slabs| && j <= |slabs[i]| && o in slabs[i][..j]))
  }

  /** The prefill of oxb_slab_init: push every object of every slab; each push counts the version. */
  method Prefill(slabs: seq<seq<nat>>, perSlab: nat) returns (s: State)
    requires Malloced(slabs, perSlab) && |slabs| > 0
    ensures Init(s) && s.slabs == slabs && s.capacity == |slabs| && s.perSlab == perSlab
    ensures s.head.version == |s.free|
  {
    var head, next: map<nat, nat> := Head(NULL, 0), map[];
    var free: seq<nat> := [];
    for i := 0 to |slabs|
      invariant Pushed(head, free, next, slabs, i, 0) && head.version == |free|
    {
      for j := 0 to |slabs[i]|
        invariant Pushed(head, free, next, slabs, i, j) && head.version == |free|
      {
        var obj := slabs[i][j];
        PushedNext(head, free, next, slabs, i, j);
        next := next[obj := head.obj];
        head := Head(obj, head.version + 1);
        free := [obj] + free;
      }
      PushedSlab(head, free, next, slabs, i);
    }
    s := State(head, next, map[], {}, slabs, |slabs|, Lock.Free, perSlab, (set o | o in free), free);
  }

  lemma {:induction false} PushedNext(head: Head, free: seq<nat>, next: map<nat, nat>, slabs: seq<seq<nat>>, i: nat,
                                      j: nat)
    requires i < |slabs| && j < |slabs[i]| && Malloced(slabs, |slabs[i]|) && Pushed(head, free, next, slabs, i, j)
    ensures var obj := slabs[i][j];
            Pushed(Head(obj, head.version + 1), [obj] + free, next[obj := head.obj], slabs, i, j + 1)
  {
    var obj := slabs[i][j];
    assert slabs[i][..j + 1] == slabs[i][..j] + [obj];
    assert obj in slabs[i];
    assert obj !in slabs[i][..j];
    LinkedElsewhere(head.obj, free, next, obj, head.obj);
    LinkedCons(obj, free, next[obj := head.obj]);
  }

  lemma {:induction false} PushedSlab(head: Head, free: seq<nat>, next: map<nat, nat>, slabs: seq<seq<nat>>, i: nat)
    requires i < |slabs| && Pushed(head, free, next, slabs, i, |slabs[i]|)
    ensures Pushed(head, free, next, slabs, i + 1, 0)
  {
    assert slabs[i][..|slabs[i]|] == slabs[i];
  }

  function Run(s: State, steps: seq<(nat, Action)>): State
    decreases |steps|
  {
    if steps == [] then s else Run(Apply(s, steps[0].0, steps[0].1), steps[1..])
  }

  lemma {:induction false} InitInv(s: State)
    requires Init(s)
    ensures Inv(s)
  {
    forall o: nat | o in s.objects ensures Placed(s, o) {
    }
  }

  /** In every interleaving of allocations, frees, growth and client writes. */
  lemma {:induction false} RunKeepsInv(s: State, steps: seq<(nat, Action)>)
    requires Inv(s)
    ensures Inv(Run(s, steps))
    decreases |steps|
  {
    if steps != [] {
      StepKeepsInv(s, steps[0].0, steps[0].1);
      RunKeepsInv(Apply(s, steps[0].0, steps[0].1), steps[1..]);
    }
  }

  /** Every object of every published slab is in exactly one place. */
  lemma {:induction false} ExactlyOnePlace(s: State, o: nat)
    requires Inv(s) && o in s.objects
    ensures o in s.free || o in s.owned || exists t :: o in Transit(s.Pc(t))
    ensures !(o in s.free && o in s.owned)
    ensures forall t: nat :: o in Transit(s.Pc(t)) ==> o !in s.free && o !in s.owned
    ensures forall t: nat, u: nat :: o in Transit(s.Pc(t)) && o in Transit(s.Pc(u)) ==> t == u
  {
    assert Placed(s, o);
    forall t: nat | o in Transit(s.Pc(t)) ensures o !in s.free && o !in s.owned {
      assert TransitOk(s, t);
    }
    forall t: nat, u: nat | o in Transit(s.Pc(t)) && o in Transit(s.Pc(u)) ensures t == u {
      assert t != u ==> Apart(s.pcs, t, u);
    }
  }

  /** A thread never reads through a pointer outside the allocator's memory, however stale. */
  lemma {:induction false} ReadsOnlyObjects(s: State, t: nat)
    requires Inv(s) && s.Pc(t).AllocLoaded?
    ensures s.Pc(t).seen.obj in s.objects
  {
    assert ThreadOk(s, t);
  }

  /** A pop that succeeds read the current `next`, and what it returns was free and nobody else's. */
  lemma {:induction false} AllocReturnsFree(s: State, t: nat)
    requires Inv(s) && s.Pc(t).AllocNext? && s.head == s.Pc(t).seen
    ensures s.Pc(t).next == s.Next(s.head.obj)
    ensures var o, s' := s.Pc(t).seen.obj, Apply(s, t, Cas(false));
            o in s.free && o !in s.owned && s'.owned == s.owned + {o} && s'.free == s.free[1..]
  {
    PopStep(s, t);
    assert ThreadOk(s, t);
  }

  // ------------------------------------------------------------------------------------------
  // Why the head carries a version
  // ------------------------------------------------------------------------------------------

  lemma {:induction false} RunConcat(s: State, a: seq<(nat, Action)>, b: seq<(nat, Action)>)
    ensures Run(s, a + b) == Run(Run(s, a), b)
    decreases |a|
  {
    if a == [] {
      assert a + b == b;
    } else {
      assert (a + b)[1..] == a[1..] + b;
      RunConcat(Apply(s, a[0].0, a[0].1), a[1..], b);
    }
  }

  lemma {:induction false} RunOne(s: State, t: nat, a: Action)
    ensures Run(s, [(t, a)]) == Apply(s, t, a)
  {
    assert [(t, a)][1..] == [];
  }

  /** Thread t loads the head and the word behind it, and stops there. */
  lemma {:induction false} LoadRun(s: State, t: nat) returns (steps: seq<(nat, Action)>)
    requires Linked(s.head.obj, s.free, s.next) && s.free != [] && s.free[0] != NULL && s.Pc(t) == Idle
    ensures Run(s, steps) == s.(pcs := s.pcs[t := AllocNext(s.head, Successor(s.free, 0))])
  {
    var s1 := Apply(s, t, CallAlloc);
    var s2 := Apply(s1, t, LoadHead);
    var s3 := Apply(s2, t, ReadNext);
    steps := [(t, CallAlloc)] + [(t, LoadHead)] + [(t, ReadNext)];
    RunOne(s, t, CallAlloc);
    RunOne(s1, t, LoadHead);
    RunOne(s2, t, ReadNext);
    RunConcat(s, [(t, CallAlloc)], [(t, LoadHead)]);
    RunConcat(s, [(t, CallAlloc)] + [(t, LoadHead)], [(t, ReadNext)]);
    assert s3.pcs == s.pcs[t := AllocNext(s.head, Successor(s.free, 0))];
  }

  /** An allocation that is not interrupted. */
  lemma {:induction false} PopRun(s: State, t: nat) returns (steps: seq<(nat, Action)>)
    requires Linked(s.head.obj, s.free, s.next) && s.free != [] && s.free[0] != NULL && s.Pc(t) == Idle
    ensures Run(s, steps) == s.(head := Head(Successor(s.free, 0), s.head.version + 1), owned := s.owned + {s.free[0]},
                                free := s.free[1..], pcs := s.pcs[t := Idle])
  {
    var load := LoadRun(s, t);
    var s1 := Run(s, load);
    steps := load + [(t, Cas(false))];
    RunConcat(s, load, [(t, Cas(false))]);
    RunOne(s1, t, Cas(false));
    assert Apply(s1, t, Cas(false)).pcs == s.pcs[t := Idle];
  }

  /** A free that is not interrupted. */
  lemma {:induction false} PushRun(s: State, t: nat, o: nat) returns (steps: seq<(nat, Action)>)
    requires s.Pc(t) == Idle && o in s.owned
    ensures Run(s, steps) == s.(head := Head(o, s.head.version + 1), owned := s.owned - {o}, free := [o] + s.free,
                                next := s.next[o := s.head.obj], pcs := s.pcs[t := Idle])
  {
    var s1 := Apply(s, t, CallFree(o));
    var s2 := Apply(s1, t, LoadHead);
    var s3 := Apply(s2, t, Link);
    var s4 := Apply(s3, t, Cas(false));
    var first, second := [(t, CallFree(o))] + [(t, LoadHead)], [(t, Link)] + [(t, Cas(false))];
    RunOne(s, t, CallFree(o));
    RunOne(s1, t, LoadHead);
    RunOne(s2, t, Link);
    RunOne(s3, t, Cas(false));
    RunConcat(s, [(t, CallFree(o))], [(t, LoadHead)]);
    RunConcat(s2, [(t, Link)], [(t, Cas(false))]);
    steps := first + second;
    RunConcat(s, first, second);
    assert s4.pcs == s.pcs[t := Idle];
  }

  /** Thread u takes two objects and gives the first one back. */
  lemma {:induction false} SwapRun(s: State, u: nat) returns (steps: seq<(nat, Action)>)
    requires Linked(s.head.obj, s.free, s.next) && |s.free| >= 2 && NULL !in s.free && s.Pc(u) == Idle
    ensures var s', c := Run(s, steps), if |s.free| > 2 then s.free[2] else NULL;
            && s'.head == Head(s.free[0], s.head.version + 3) && s'.next == s.next[s.free[0] := c]
            && s'.owned == s.owned + {s.free[0]} + {s.free[1]} - {s.free[0]} && s'.pcs == s.pcs[u := Idle]
  {
    var a := PopRun(s, u);
    var s1 := Run(s, a);
    assert Linked(s1.head.obj, s1.free, s1.next) by {
      forall i | 0 <= i < |s1.free| ensures Word(s1.next, s1.free[i]) == Successor(s1.free, i) {
        assert Word(s.next, s.free[i + 1]) == Successor(s.free, i + 1);
      }
    }
    var b := PopRun(s1, u);
    var s2 := Run(s1, b);
    var d := PushRun(s2, u, s.free[0]);
    steps := a + b + d;
    RunConcat(s, a, b);
    RunConcat(s, a + b, d);
    assert s.pcs[u := Idle][u := Idle][u := Idle] == s.pcs[u := Idle];
  }

  /** Comparing the pointer alone would not do.  From every reachable state with two free objects and two
      idle threads, a run leads to a state in which a thread is about to install as head an object that a
      client owns, although the object it saw is the head again: only the version has changed. */
  lemma {:induction false} VersionIsNeeded(s: State, t: nat, u: nat) returns (steps: seq<(nat, Action)>)
    requires Inv(s) && |s.free| >= 2 && t != u && s.Pc(t) == Idle && s.Pc(u) == Idle
    ensures var s' := Run(s, steps);
            && Inv(s') && s'.Pc(t).AllocNext? && s'.Pc(t).seen.obj == s'.head.obj && s'.Pc(t).seen != s'.head
            && s'.Pc(t).next in s'.owned && s'.Pc(t).next != s'.Next(s'.head.obj)
  {
    var load := LoadRun(s, t);
    var s1 := Run(s, load);
    var swap := SwapRun(s1, u);
    steps := load + swap;
    RunConcat(s, load, swap);
    RunKeepsInv(s, steps);
    assert s.free[0] != s.free[1];
  }
}
