/** The open-addressing hash table of khash.h: tombstones, triangular probing, in-place rehash. */
module KHash {
  import opened Cyclic
  import opened Bits
  import opened Probing

  /** A key and the value its hash function gives it. */
  datatype Key = Key(id: int, hash: nat)

  datatype Flag = Empty | Deleted | Live

  /** How many buckets may be occupied: 0.77 of them, rounded. */
  function Upper(n: nat): (u: nat)
    ensures n >= 4 ==> n / 2 <= u < n
  {
    (77 * n + 50) / 100
  }

  ghost function LiveIn(flags: seq<Flag>): set<nat> {
    set i: nat | i < |flags| && flags[i] == Live
  }

  ghost function UsedIn(flags: seq<Flag>): set<nat> {
    set i: nat | i < |flags| && flags[i] != Empty
  }

  ghost predicate Without(flags: seq<Flag>, f: Flag) {
    forall i :: 0 <= i < |flags| ==> flags[i] != f
  }

  /** The buckets that hold an entry of the old or of the new table during a rehash. */
  ghost function HeldIn(flags: seq<Flag>, next: seq<Flag>): set<nat> {
    set i: nat | i < |flags| + |next| && ((i < |flags| && flags[i] == Live) || (i < |next| && next[i] == Live))
  }

  /** The buckets `held` hold exactly the entries of m, each once: the entry of k at spot[k]. */
  ghost predicate Spotted<V>(held: set<nat>, keys: seq<Key>, vals: seq<V>, m: map<Key, V>, spot: map<Key, nat>)
    requires |keys| == |vals|
  {
    && (forall i :: i in held ==> i < |keys| && keys[i] in m && m[keys[i]] == vals[i] && keys[i] in spot && spot[keys[i]] == i)
    && (forall k :: k in m ==> k in spot && spot[k] in held && keys[spot[k]] == k)
  }

  ghost predicate Represents<V>(held: set<nat>, keys: seq<Key>, vals: seq<V>, m: map<Key, V>)
    requires |keys| == |vals|
  {
    exists spot :: Spotted(held, keys, vals, m, spot)
  }

  lemma {:induction false} RepresentsTake<V>(held: set<nat>, keys: seq<Key>, vals: seq<V>, m: map<Key, V>, i: nat)
    requires |keys| == |vals| && Represents(held, keys, vals, m) && i in held
    ensures i < |keys| && keys[i] in m && m[keys[i]] == vals[i]
    ensures Represents(held - {i}, keys, vals, m - {keys[i]})
  {
    var spot :| Spotted(held, keys, vals, m, spot);
    assert Spotted(held - {i}, keys, vals, m - {keys[i]}, spot);
  }

  lemma {:induction false} RepresentsPut<V>(held: set<nat>, keys: seq<Key>, vals: seq<V>, m: map<Key, V>, i: nat,
                                            key: Key, val: V)
    requires |keys| == |vals| && Represents(held, keys, vals, m) && i !in held && i < |keys| && key !in m
    ensures Represents(held + {i}, keys[i := key], vals[i := val], m[key := val])
  {
    var spot :| Spotted(held, keys, vals, m, spot);
    assert Spotted(held + {i}, keys[i := key], vals[i := val], m[key := val], spot[key := i]);
  }

  /** Every key of the map is in a bucket. */
  lemma {:induction false} RepresentsKey<V>(held: set<nat>, keys: seq<Key>, vals: seq<V>, m: map<Key, V>,
                                            key: Key) returns (i: nat)
    requires |keys| == |vals| && Represents(held, keys, vals, m) && key in m
    ensures i in held && i < |keys| && keys[i] == key
  {
    var spot :| Spotted(held, keys, vals, m, spot);
    i := spot[key];
  }

  /** One bucket for each entry. */
  lemma {:induction false} RepresentsSize<V>(held: set<nat>, keys: seq<Key>, vals: seq<V>, m: map<Key, V>)
    requires |keys| == |vals| && Represents(held, keys, vals, m)
    ensures |m| == |held|
    decreases |held|
  {
    if held == {} {
      var spot :| Spotted(held, keys, vals, m, spot);
      assert m == map[];
    } else {
      var i :| i in held;
      RepresentsTake(held, keys, vals, m, i);
      RepresentsSize(held - {i}, keys, vals, m - {keys[i]});
      assert m.Keys == (m - {keys[i]}).Keys + {keys[i]};
      assert |m.Keys| == |m|;
      assert |(m - {keys[i]}).Keys| == |m - {keys[i]}|;
    }
  }

  /** No empty bucket on the first s probes from h. */
  ghost predicate Path(flags: seq<Flag>, h: nat, s: nat)
    requires |flags| > 0
  {
    forall t: nat :: t < s ==> flags[Probe(h, t, |flags|)] != Empty
  }

  /** Probing on from step s gets to bucket i before any empty one. */
  ghost predicate Finds(flags: seq<Flag>, h: nat, i: nat, s: nat)
    requires |flags| > 0
    decreases |flags| - s
  {
    s < |flags| && (Probe(h, s, |flags|) == i || (flags[Probe(h, s, |flags|)] != Empty && Finds(flags, h, i, s + 1)))
  }

  lemma {:induction false} FoundAt(flags: seq<Flag>, h: nat, s: nat, t: nat)
    requires t <= s < |flags| && Path(flags, h, s)
    ensures Finds(flags, h, Probe(h, s, |flags|), t)
    decreases s - t
  {
    if t < s {
      FoundAt(flags, h, s, t + 1);
    }
  }

  /** Every live key is found from its hash before any empty bucket. */
  ghost predicate Indexed(flags: seq<Flag>, keys: seq<Key>)
    requires 0 < |flags| <= |keys|
  {
    forall i :: i in LiveIn(flags) ==> Finds(flags, keys[i].hash, i, 0)
  }

  lemma {:induction false} FoundKept(flags: seq<Flag>, flags': seq<Flag>, h: nat, i: nat, s: nat)
    requires 0 < |flags| == |flags'| && Finds(flags, h, i, s)
    requires forall j :: 0 <= j < |flags| && flags[j] != Empty ==> flags'[j] != Empty
    ensures Finds(flags', h, i, s)
    decreases |flags| - s
  {
    if Probe(h, s, |flags|) != i {
      FoundKept(flags, flags', h, i, s + 1);
    }
  }

  /** If not all buckets are used, probing meets an empty one. */
  lemma {:induction false} ProbeEnds(flags: seq<Flag>, h: nat) returns (e: nat)
    requires PowerOfTwo(|flags|) && |UsedIn(flags)| < |flags|
    ensures |flags| > 0 && e < |flags| && flags[Probe(h, e, |flags|)] == Empty
    ensures forall s: nat :: Path(flags, h, s) ==> s <= e
  {
    if forall i :: 0 <= i < |flags| ==> flags[i] != Empty {
      assert UsedIn(flags) == Below(|flags|);
      BelowSize(|flags|);
      assert false;
    }
    var i: nat :| i < |flags| && flags[i] == Empty;
    e := ProbeReaches(h, i, |flags|);
  }

  /** The first s buckets of the key's path are in use and do not hold it. */
  ghost predicate Searched(flags: seq<Flag>, keys: seq<Key>, key: Key, s: nat)
    requires 0 < |flags| == |keys|
  {
    && Path(flags, key.hash, s)
    && forall t: nat :: t < s ==> var i := Probe(key.hash, t, |flags|); flags[i] == Deleted || keys[i] != key
  }

  lemma {:induction false} SearchOn(flags: seq<Flag>, keys: seq<Key>, key: Key, s: nat, i: nat)
    requires s < |flags| == |keys| && Searched(flags, keys, key, s)
    requires i == Probe(key.hash, s, |flags|) && flags[i] != Empty && (flags[i] == Deleted || keys[i] != key)
    ensures Searched(flags, keys, key, s + 1) && Finds(flags, key.hash, i, 0)
    ensures Turn(i + (s + 1), |flags|) == Probe(key.hash, s + 1, |flags|)
  {
    ProbeNext(key.hash, s, |flags|);
    FoundAt(flags, key.hash, s, 0);
  }

  /** A key not met before the first empty bucket of its path is not in the table. */
  lemma {:induction false} NotMet<V>(flags: seq<Flag>, keys: seq<Key>, vals: seq<V>, m: map<Key, V>, key: Key, s: nat)
    requires |flags| == |keys| == |vals| > 0 && Represents(LiveIn(flags), keys, vals, m) && Indexed(flags, keys)
    requires flags[Probe(key.hash, s, |flags|)] == Empty && Searched(flags, keys, key, s)
    ensures key !in m
  {
    if key in m {
      var i := RepresentsKey(LiveIn(flags), keys, vals, m, key);
      NotFound(flags, keys, key, s, i, 0);
      assert false;
    }
  }

  lemma {:induction false} NotFound(flags: seq<Flag>, keys: seq<Key>, key: Key, s: nat, i: nat, t: nat)
    requires |flags| == |keys| > 0 && flags[Probe(key.hash, s, |flags|)] == Empty && Searched(flags, keys, key, s)
    requires i < |flags| && flags[i] == Live && keys[i] == key && t <= s
    ensures !Finds(flags, key.hash, i, t)
    decreases s - t
  {
    if t < s {
      NotFound(flags, keys, key, s, i, t + 1);
    }
  }

  /** The parts of a table agree with each other and hold the map m. */
  ghost predicate Consistent<V>(flags: seq<Flag>, keys: seq<Key>, vals: seq<V>, m: map<Key, V>,
                                   size: nat, occupied: nat)
  {
    && |flags| == |keys| == |vals|
    && (|flags| == 0 || (|flags| >= 4 && PowerOfTwo(|flags|)))
    && size == |LiveIn(flags)| && occupied == |UsedIn(flags)| && occupied <= Upper(|flags|)
    && Represents(LiveIn(flags), keys, vals, m)
    && (|flags| > 0 ==> Indexed(flags, keys))
  }

  lemma {:induction false} MarkLive(flags: seq<Flag>, x: nat)
    requires x < |flags| && flags[x] != Live
    ensures LiveIn(flags[x := Live]) == LiveIn(flags) + {x} && x !in LiveIn(flags)
    ensures |LiveIn(flags[x := Live])| == |LiveIn(flags)| + 1
    ensures |UsedIn(flags[x := Live])| == |UsedIn(flags)| + if flags[x] == Empty then 1 else 0
  {
    assert LiveIn(flags[x := Live]) == LiveIn(flags) + {x};
    assert UsedIn(flags[x := Live]) == UsedIn(flags) + {x};
    if flags[x] == Empty {
      assert x !in UsedIn(flags);
    } else {
      assert UsedIn(flags) + {x} == UsedIn(flags);
    }
  }

  lemma {:induction false} IndexedInsert(flags: seq<Flag>, keys: seq<Key>, key: Key, x: nat)
    requires 0 < |flags| <= |keys| && Indexed(flags, keys)
    requires x < |flags| && flags[x] != Live && Finds(flags, key.hash, x, 0)
    ensures Indexed(flags[x := Live], keys[x := key])
  {
    var flags', keys' := flags[x := Live], keys[x := key];
    forall i | i in LiveIn(flags') ensures Finds(flags', keys'[i].hash, i, 0) {
      if i == x {
        FoundKept(flags, flags', key.hash, x, 0);
      } else {
        assert i in LiveIn(flags);
        FoundKept(flags, flags', keys[i].hash, i, 0);
      }
    }
  }

  /** A key put at the end of a path clear of empty buckets, on a bucket that holds nothing. */
  lemma {:induction false} InsertAt<V>(flags: seq<Flag>, keys: seq<Key>, vals: seq<V>, m: map<Key, V>,
                       size: nat, occupied: nat, key: Key, x: nat)
    requires Consistent(flags, keys, vals, m, size, occupied) && key !in m
    requires x < |flags| && flags[x] != Live && Finds(flags, key.hash, x, 0)
    requires flags[x] == Empty ==> occupied < Upper(|flags|)
    ensures Consistent(flags[x := Live], keys[x := key], vals, m[key := vals[x]], size + 1,
                       if flags[x] == Empty then occupied + 1 else occupied)
  {
    MarkLive(flags, x);
    RepresentsPut(LiveIn(flags), keys, vals, m, x, key, vals[x]);
    assert vals[x := vals[x]] == vals;
    IndexedInsert(flags, keys, key, x);
  }

  lemma {:induction false} DeleteAt<V>(flags: seq<Flag>, keys: seq<Key>, vals: seq<V>, m: map<Key, V>,
                       size: nat, occupied: nat, x: nat)
    requires Consistent(flags, keys, vals, m, size, occupied) && x < |flags| && flags[x] == Live
    ensures size > 0 && Consistent(flags[x := Deleted], keys, vals, m - {keys[x]}, size - 1, occupied)
  {
    var flags' := flags[x := Deleted];
    assert x in LiveIn(flags);
    assert LiveIn(flags') == LiveIn(flags) - {x};
    assert UsedIn(flags') == UsedIn(flags);
    RepresentsTake(LiveIn(flags), keys, vals, m, x);
    forall i | i in LiveIn(flags') ensures Finds(flags', keys[i].hash, i, 0) {
      assert i in LiveIn(flags);
      FoundKept(flags, flags', keys[i].hash, i, 0);
    }
  }

  lemma {:induction false} SetAt<V>(flags: seq<Flag>, keys: seq<Key>, vals: seq<V>, m: map<Key, V>,
                    size: nat, occupied: nat, x: nat, val: V)
    requires Consistent(flags, keys, vals, m, size, occupied) && x < |flags| && flags[x] == Live
    ensures Consistent(flags, keys, vals[x := val], m[keys[x] := val], size, occupied)
  {
    assert x in LiveIn(flags);
    var spot :| Spotted(LiveIn(flags), keys, vals, m, spot);
    assert Spotted(LiveIn(flags), keys, vals[x := val], m[keys[x] := val], spot);
  }

  ghost predicate AllDifferent(a: object, b: object, c: object, d: object) {
    a != b && a != c && a != d && b != c && b != d && c != d
  }

  /** In the middle of a rehash: entries not yet moved are live in `flags`, moved ones in `next`. */
  ghost predicate Moving<V>(flags: seq<Flag>, next: seq<Flag>, keys: seq<Key>, vals: seq<V>, m: map<Key, V>) {
    && |flags| <= |keys| && |next| <= |keys| == |vals| && PowerOfTwo(|next|)
    && Without(next, Deleted)
    && (forall i :: 0 <= i < |flags| && i < |next| && flags[i] == Live ==> next[i] == Empty)
    && Represents(HeldIn(flags, next), keys, vals, m)
    && |next| > 0 && Indexed(next, keys)
  }

  /** Taking an entry in hand. */
  lemma {:induction false} LiftOut<V>(flags: seq<Flag>, next: seq<Flag>, keys: seq<Key>, vals: seq<V>, m: map<Key, V>,
                                      j: nat)
    requires Moving(flags, next, keys, vals, m) && j < |flags| && flags[j] == Live
    ensures keys[j] in m && m[keys[j]] == vals[j]
    ensures Moving(flags[j := Deleted], next, keys, vals, m - {keys[j]})
    ensures LiveIn(flags[j := Deleted]) < LiveIn(flags)
  {
    var flags' := flags[j := Deleted];
    assert LiveIn(flags') == LiveIn(flags) - {j} && j in LiveIn(flags);
    RepresentsTake(HeldIn(flags, next), keys, vals, m, j);
    assert HeldIn(flags', next) == HeldIn(flags, next) - {j};
  }

  /** Putting the entry in hand on the first empty new bucket of its path. */
  lemma {:induction false} PutDown<V>(flags: seq<Flag>, next: seq<Flag>, keys: seq<Key>, vals: seq<V>, m: map<Key, V>,
                      i: nat, key: Key, val: V)
    requires Moving(flags, next, keys, vals, m) && key !in m
    requires i < |next| && next[i] == Empty && Finds(next, key.hash, i, 0)
    requires i < |flags| ==> flags[i] != Live
    ensures Moving(flags, next[i := Live], keys[i := key], vals[i := val], m[key := val])
  {
    var next' := next[i := Live];
    RepresentsPut(HeldIn(flags, next), keys, vals, m, i, key, val);
    assert HeldIn(flags, next') == HeldIn(flags, next) + {i};
    IndexedInsert(next, keys, key, i);
  }

  /** The new table has room for what is still to be moved. */
  lemma {:induction false} RoomLeft<V>(flags: seq<Flag>, next: seq<Flag>, keys: seq<Key>, vals: seq<V>, m: map<Key, V>)
    requires Moving(flags, next, keys, vals, m) && |m| < |next|
    ensures |UsedIn(next)| < |next|
  {
    RepresentsSize(HeldIn(flags, next), keys, vals, m);
    assert UsedIn(next) <= HeldIn(flags, next);
    SubsetSize(UsedIn(next), HeldIn(flags, next));
  }

  lemma {:induction false} RoomForOne<V>(flags: seq<Flag>, next: seq<Flag>, keys: seq<Key>, vals: seq<V>,
                                         rest: map<Key, V>, m: map<Key, V>)
    requires Moving(flags, next, keys, vals, rest) && |m| < |next| && rest.Keys <= m.Keys
    ensures PowerOfTwo(|next|) && |UsedIn(next)| < |next|
  {
    SubsetSize(rest.Keys, m.Keys);
    RoomLeft(flags, next, keys, vals, rest);
  }

  /** Swapping the entry in hand for the one that is in its way. */
  lemma {:induction false} Exchange<V>(flags: seq<Flag>, next: seq<Flag>, keys: seq<Key>, vals: seq<V>, rest: map<Key,
                                       V>, m: map<Key, V>,
                       i: nat, key: Key, val: V)
    requires Moving(flags, next, keys, vals, rest) && key !in rest && rest[key := val] == m
    requires i < |flags| && flags[i] == Live && i < |next| && next[i] == Empty && Finds(next, key.hash, i, 0)
    ensures i < |keys| == |vals| && keys[i] in rest
    ensures var rest' := (rest - {keys[i]})[key := val];
            && keys[i] !in rest' && rest'[keys[i] := vals[i]] == m
            && Moving(flags[i := Deleted], next[i := Live], keys[i := key], vals[i := val], rest')
    ensures LiveIn(flags[i := Deleted]) < LiveIn(flags)
  {
    LiftOut(flags, next, keys, vals, rest, i);
    PutDown(flags[i := Deleted], next, keys, vals, rest - {keys[i]}, i, key, val);
  }

  ghost predicate Fewer(flags: seq<Flag>, before: seq<Flag>) {
    |flags| == |before| && forall i :: 0 <= i < |flags| && flags[i] == Live ==> before[i] == Live
  }

  ghost predicate ClearedTo(flags: seq<Flag>, j: nat) {
    forall i :: 0 <= i < |flags| && i < j ==> flags[i] != Live
  }

  lemma {:induction false} ClearedNext(before: seq<Flag>, flags: seq<Flag>, j: nat)
    requires ClearedTo(before, j) && Fewer(flags, before) && j < |flags| && flags[j] != Live
    ensures ClearedTo(flags, j + 1)
  {
  }

  lemma {:induction false} HeldByOne(flags: seq<Flag>, next: seq<Flag>)
    ensures Without(next, Live) ==> HeldIn(flags, next) == LiveIn(flags) && LiveIn(next) == {}
    ensures Without(flags, Live) ==> HeldIn(flags, next) == LiveIn(next)
    ensures Without(next, Deleted) ==> UsedIn(next) == LiveIn(next)
  {
    if Without(next, Live) {
      assert HeldIn(flags, next) == LiveIn(flags);
      assert LiveIn(next) == {};
    }
    if Without(flags, Live) {
      assert HeldIn(flags, next) == LiveIn(next);
    }
    if Without(next, Deleted) {
      assert UsedIn(next) == LiveIn(next);
    }
  }

  /** A rehash begins with every entry in the old table. */
  lemma {:induction false} MovingStarts<V>(flags: seq<Flag>, next: seq<Flag>, keys: seq<Key>, vals: seq<V>, m: map<Key,
                                           V>,
                           size: nat, occupied: nat, keys': seq<Key>, vals': seq<V>)
    requires Consistent(flags, keys, vals, m, size, occupied)
    requires |flags| <= |keys'| == |vals'| && Agree(keys, keys', |flags|) && Agree(vals, vals', |flags|)
    requires 0 < |next| <= |keys'| && PowerOfTwo(|next|) && Without(next, Live) && Without(next, Deleted)
    ensures |m| == size && Moving(flags, next, keys', vals', m)
  {
    RepresentsSize(LiveIn(flags), keys, vals, m);
    HeldByOne(flags, next);
    SameHeld(LiveIn(flags), keys, vals, keys', vals', m, |flags|);
  }

  /** A rehash ends with every entry in the new one. */
  lemma {:induction false} MovingEnds<V>(flags: seq<Flag>, next: seq<Flag>, keys: seq<Key>, vals: seq<V>, m: map<Key, V>,
                         keys': seq<Key>, vals': seq<V>)
    requires Moving(flags, next, keys, vals, m) && Without(flags, Live)
    requires |next| >= 4 && |m| <= Upper(|next|)
    requires |keys'| == |vals'| == |next| && Agree(keys, keys', |next|) && Agree(vals, vals', |next|)
    ensures Consistent(next, keys', vals', m, |m|, |m|)
  {
    HeldByOne(flags, next);
    RepresentsSize(LiveIn(next), keys, vals, m);
    SameHeld(LiveIn(next), keys, vals, keys', vals', m, |next|);
    forall i | i in LiveIn(next) ensures Finds(next, keys'[i].hash, i, 0) {
      assert keys[i] == keys'[i];
    }
  }

  ghost predicate Agree<T>(a: seq<T>, b: seq<T>, n: nat) {
    n <= |a| && n <= |b| && forall i :: 0 <= i < n ==> a[i] == b[i]
  }

  /** Only the buckets held matter. */
  lemma {:induction false} SameHeld<V>(held: set<nat>, keys: seq<Key>, vals: seq<V>, keys': seq<Key>, vals': seq<V>,
                                       m: map<Key, V>, n: nat)
    requires |keys| == |vals| && |keys'| == |vals'| && Represents(held, keys, vals, m)
    requires (forall i :: i in held ==> i < n) && Agree(keys, keys', n) && Agree(vals, vals', n)
    ensures Represents(held, keys', vals', m)
  {
    var spot :| Spotted(held, keys, vals, m, spot);
    assert Spotted(held, keys', vals', m, spot);
  }

  /** The inner loop of the rehash: probe for an empty new bucket. */
  method FirstEmpty(next: array<Flag>, h: nat) returns (i: nat)
    requires PowerOfTwo(next.Length) && |UsedIn(next[..])| < next.Length
    ensures i < next.Length && next[i] == Empty && Finds(next[..], h, i, 0)
  {
    ghost var e := ProbeEnds(next[..], h);
    i := Turn(h, next.Length);
    var step := 0;
    while next[i] != Empty
      invariant step <= e && i == Probe(h, step, next.Length) && Path(next[..], h, step)
      decreases e - step
    {
      ProbeNext(h, step, next.Length);
      assert Path(next[..], h, step + 1);
      step := step + 1;
      i := Turn(i + step, next.Length);
    }
    FoundAt(next[..], h, step, 0);
  }

  method Realloc<T(0)>(a: array<T>, n: nat) returns (b: array<T>)
    ensures fresh(b) && b.Length == n
    ensures Agree(a[..], b[..], if n < a.Length then n else a.Length)
  {
    b := new T[n];
    var i := 0;
    while i < n && i < a.Length
      invariant i <= n && i <= a.Length
      invariant forall j :: 0 <= j < i ==> b[j] == a[j]
    {
      b[i] := a[i];
      i := i + 1;
    }
  }

  /** The size kh_resize settles on. */
  function NewSize(requested: nat): (n: nat)
    ensures n >= 4 && PowerOfTwo(n) && n >= requested
  {
    var n := RoundUp(requested);
    if n < 4 then assert 4 == Pow2(2); 4 else n
  }

  /** What kh_put asks for when the table is full can be granted. */
  lemma {:induction false} FullTable(flags: seq<Flag>, size: nat, occupied: nat)
    requires |flags| == 0 || (|flags| >= 4 && PowerOfTwo(|flags|))
    requires size == |LiveIn(flags)| && occupied == |UsedIn(flags)| <= Upper(|flags|)
    ensures |flags| > 2 * size ==> size < Upper(NewSize(|flags| - 1)) && NewSize(|flags| - 1) == |flags|
    ensures |flags| <= 2 * size ==> size < Upper(NewSize(|flags| + 1)) && (|flags| > 0 ==> NewSize(|flags| + 1) == 2 * |flags|)
  {
    var n := |flags|;
    assert LiveIn(flags) <= UsedIn(flags);
    SubsetSize(LiveIn(flags), UsedIn(flags));
    if n > 0 {
      OnePower(n, NewSize(n - 1), n - 1);
      var k: nat :| n == Pow2(k);
      assert 2 * n == Pow2(k + 1);
      OnePower(2 * n, NewSize(n + 1), n + 1);
    }
  }

  class Table<V(0)> {
    var flags: array<Flag>
    var keys: array<Key>
    var vals: array<V>
    var nBuckets: nat
    var size: nat
    var nOccupied: nat
    var upperBound: nat
    ghost var contents: map<Key, V>

    ghost predicate Valid()
      reads this, flags, keys, vals
    {
      && AllDifferent(this, flags, keys, vals)
      && nBuckets == flags.Length && upperBound == Upper(nBuckets)
      && Consistent(flags[..], keys[..], vals[..], contents, size, nOccupied)
    }

    ghost function Buffers(): set<object>
      reads this
    {
      {flags as object, keys as object, vals as object}
    }

    constructor ()
      ensures Valid() && contents == map[]
      ensures fresh(flags) && fresh(keys) && fresh(vals)
    {
      nBuckets, size, nOccupied, upperBound := 0, 0, 0, 0;
      flags, keys, vals := new Flag[0], new Key[0], new V[0];
      contents := map[];
      new;
      assert LiveIn(flags[..]) == {} && UsedIn(flags[..]) == {};
      assert Spotted({}, keys[..], vals[..], contents, map[]);
    }

    /** kh_size counts the entries. */
    lemma {:induction false} SizeIsCount()
      requires Valid()
      ensures size == |contents|
    {
      RepresentsSize(LiveIn(flags[..]), keys[..], vals[..], contents);
    }

    /** kh_get: the bucket of the key, or the number of buckets when it is absent. */
    method Get(key: Key) returns (x: nat)
      requires Valid()
      ensures x < nBuckets <==> key in contents
      ensures x < nBuckets ==> flags[x] == Live && keys[x] == key && vals[x] == contents[key]
      ensures x <= nBuckets
    {
      if nBuckets == 0 {
        return 0;
      }
      ghost var h := key.hash;
      ghost var e := ProbeEnds(flags[..], h);
      var i := Turn(key.hash, nBuckets);
      var last, step := i, 0;
      while flags[i] != Empty && (flags[i] == Deleted || keys[i] != key)
        invariant step <= e && i == Probe(h, step, nBuckets) && Searched(flags[..], keys[..], key, step)
        decreases e - step
      {
        SearchOn(flags[..], keys[..], key, step, i);
        step := step + 1;
        i := Turn(i + step, nBuckets);
        if i == last {
          // The source gives up here; the path meets an empty bucket first.
          ProbeInjective(h, 0, step, nBuckets);
          assert false;
        }
      }
      if flags[i] == Empty {
        NotMet(flags[..], keys[..], vals[..], contents, key, step);
        x := nBuckets;
      } else {
        RepresentsTake(LiveIn(flags[..]), keys[..], vals[..], contents, i);
        x := i;
      }
    }

    /** The search of kh_put: the key's bucket, else the last tombstone or the empty bucket on its path. */
    method Locate(key: Key) returns (x: nat)
      requires Valid() && nBuckets > 0
      ensures x < nBuckets && Finds(flags[..], key.hash, x, 0)
      ensures flags[x] == Live <==> key in contents
      ensures flags[x] == Live ==> keys[x] == key
    {
      ghost var h := key.hash;
      ghost var e := ProbeEnds(flags[..], h);
      var i := Turn(key.hash, nBuckets);
      var site: nat := nBuckets;
      var last, step := i, 0;
      while flags[i] != Empty && (flags[i] == Deleted || keys[i] != key)
        invariant step <= e && i == Probe(h, step, nBuckets) && Searched(flags[..], keys[..], key, step)
        invariant site == nBuckets || (site < nBuckets && flags[site] == Deleted && Finds(flags[..], h, site, 0))
        decreases e - step
      {
        SearchOn(flags[..], keys[..], key, step, i);
        if flags[i] == Deleted {
          site := i;
        }
        step := step + 1;
        i := Turn(i + step, nBuckets);
        if i == last {
          // The source settles for the tombstone here; the path meets an empty bucket first.
          ProbeInjective(h, 0, step, nBuckets);
          assert false;
        }
      }
      FoundAt(flags[..], h, step, 0);
      if flags[i] == Empty {
        NotMet(flags[..], keys[..], vals[..], contents, key, step);
        x := if site != nBuckets then site else i;
      } else {
        RepresentsTake(LiveIn(flags[..]), keys[..], vals[..], contents, i);
        x := i;
      }
    }

    /** kh_put: 0 when the key was there, 1 on a fresh bucket, 2 on a reused one; the value is left to the caller. */
    method Put(key: Key) returns (x: nat, ret: int)
      requires Valid()
      modifies this, flags, keys, vals
      ensures true == Valid() && x < nBuckets && flags[x] == Live && keys[x] == key
      ensures 0 <= ret <= 2 && (ret == 0 <==> key in old(contents))
      ensures contents == if ret == 0 then old(contents) else old(contents)[key := vals[x]]
      ensures size == old(size) + if ret == 0 then 0 else 1
      ensures nOccupied == old(if nOccupied < upperBound then nOccupied else size) + if ret == 1 then 1 else 0
      ensures fresh(Buffers() - old(Buffers()))
    {
      MakeRoom();
      x := Locate(key);
      ret := if flags[x] == Empty then 1 else if flags[x] == Deleted then 2 else 0;
      if ret != 0 {
        Occupy(key, x);
      }
    }

    /** The part of kh_put that rehashes a full table: in its own size when half of it is tombstones, else doubled. */
    method MakeRoom()
      requires Valid()
      modifies this, flags, keys, vals
      ensures true == Valid() && contents == old(contents) && nBuckets > 0 && nOccupied < upperBound
      ensures size == old(size) && nOccupied == old(if nOccupied < upperBound then nOccupied else size)
      ensures fresh(Buffers() - old(Buffers()))
    {
      if nOccupied >= upperBound {
        FullTable(flags[..], size, nOccupied);
        var requested := if nBuckets > 2 * size then nBuckets - 1 else nBuckets + 1;
        assert size < Upper(NewSize(requested));
        Resize(requested);
      }
    }

    method Occupy(key: Key, x: nat)
      requires Valid() && x < nBuckets && flags[x] != Live && Finds(flags[..], key.hash, x, 0) && key !in contents
      requires flags[x] == Empty ==> nOccupied < upperBound
      modifies this`size, this`nOccupied, this`contents, flags, keys
      ensures true == Valid() && flags[x] == Live && keys[x] == key
      ensures contents == old(contents)[key := vals[x]] && size == old(size) + 1
      ensures nOccupied == old(nOccupied) + if old(flags[x]) == Empty then 1 else 0
    {
      ghost var fl, ks := flags[..], keys[..];
      InsertAt(fl, ks, vals[..], contents, size, nOccupied, key, x);
      if flags[x] == Empty {
        nOccupied := nOccupied + 1;
      }
      keys[x] := key;
      flags[x] := Live;
      size := size + 1;
      contents := contents[key := vals[x]];
      assert flags[..] == fl[x := Live];
      assert keys[..] == ks[x := key];
    }

    /** kh_del: the bucket becomes a tombstone; any other argument changes nothing. */
    method Del(x: nat)
      requires Valid() && x <= nBuckets
      modifies this, flags
      ensures Valid() && flags == old(flags) && keys == old(keys) && vals == old(vals) && nBuckets == old(nBuckets)
      ensures contents == if x < nBuckets && old(flags[x]) == Live then old(contents) - {keys[x]} else old(contents)
    {
      if x != nBuckets && flags[x] == Live {
        ghost var fl := flags[..];
        DeleteAt(fl, keys[..], vals[..], contents, size, nOccupied, x);
        flags[x] := Deleted;
        size := size - 1;
        contents := contents - {keys[x]};
        assert flags[..] == fl[x := Deleted];
      }
    }

    /** Assignment through kh_value. */
    method SetValue(x: nat, val: V)
      requires Valid() && x < nBuckets && flags[x] == Live
      modifies this`contents, vals
      ensures Valid() && contents == old(contents)[keys[x] := val]
    {
      ghost var vs := vals[..];
      SetAt(flags[..], keys[..], vs, contents, size, nOccupied, x, val);
      vals[x] := val;
      contents := contents[keys[x] := val];
      assert vals[..] == vs[x := val];
    }

    /** One pass of the outer rehash loop: move the entry of bucket j, and whatever it kicks out, and so on. */
    method KickOut(j: nat, next: array<Flag>, ghost m: map<Key, V>)
      requires AllDifferent(flags, next, keys, vals) && j < flags.Length && flags[j] == Live && |m| < next.Length
      requires true == Moving(flags[..], next[..], keys[..], vals[..], m)
      modifies flags, next, keys, vals
      ensures true == Moving(flags[..], next[..], keys[..], vals[..], m)
      ensures flags[j] != Live
      ensures Fewer(flags[..], old(flags[..]))
    {
      var key, val := keys[j], vals[j];
      ghost var fl := flags[..];
      LiftOut(fl, next[..], keys[..], vals[..], m, j);
      flags[j] := Deleted;
      assert flags[..] == fl[j := Deleted];
      ghost var rest := m - {key};
      var done := false;
      while !done
        invariant flags[j] != Live
        invariant Fewer(flags[..], old(flags[..]))
        invariant !done ==> key !in rest && rest[key := val] == m
        invariant done ==> rest == m
        invariant true == Moving(flags[..], next[..], keys[..], vals[..], rest)
        decreases !done, LiveIn(flags[..])
      {
        done, key, val, rest := KickOne(next, key, val, rest, m);
      }
    }

    /** One turn of the kick-out loop. */
    method KickOne(next: array<Flag>, key: Key, val: V, ghost rest: map<Key, V>, ghost m: map<Key, V>)
      returns (done: bool, key': Key, val': V, ghost rest': map<Key, V>)
      requires AllDifferent(flags, next, keys, vals) && |m| < next.Length
      requires key !in rest && rest[key := val] == m
      requires true == Moving(flags[..], next[..], keys[..], vals[..], rest)
      modifies flags, next, keys, vals
      ensures true == Moving(flags[..], next[..], keys[..], vals[..], rest')
      ensures done ==> rest' == m && flags[..] == old(flags[..])
      ensures !done ==> key' !in rest' && rest'[key' := val'] == m && LiveIn(flags[..]) < old(LiveIn(flags[..]))
      ensures Fewer(flags[..], old(flags[..]))
    {
      RoomForOne(flags[..], next[..], keys[..], vals[..], rest, m);
      var i := FirstEmpty(next, key.hash);
      if i < flags.Length && flags[i] == Live {
        done := false;
        key', val' := Swap(next, i, key, val, rest, m);
        rest' := (rest - {key'})[key := val];
      } else {
        Settle(next, i, key, val, rest);
        done, key', val', rest' := true, key, val, m;
      }
    }

    /** The entry in hand takes the place of the one in its way. */
    method Swap(next: array<Flag>, i: nat, key: Key, val: V, ghost rest: map<Key, V>, ghost m: map<Key,
                V>) returns (key': Key, val': V)
      requires AllDifferent(flags, next, keys, vals) && key !in rest && rest[key := val] == m
      requires i < flags.Length && flags[i] == Live && i < next.Length && next[i] == Empty && Finds(next[..], key.hash, i, 0)
      requires true == Moving(flags[..], next[..], keys[..], vals[..], rest)
      modifies flags, next, keys, vals
      ensures true == Moving(flags[..], next[..], keys[..], vals[..], (rest - {key'})[key := val])
      ensures key' !in (rest - {key'})[key := val] && (rest - {key'})[key := val][key' := val'] == m
      ensures LiveIn(flags[..]) < old(LiveIn(flags[..])) && Fewer(flags[..], old(flags[..]))
    {
      ghost var fl, nx, ks, vs := flags[..], next[..], keys[..], vals[..];
      Exchange(fl, nx, ks, vs, rest, m, i, key, val);
      next[i] := Live;
      key', val' := keys[i], vals[i];
      keys[i], vals[i] := key, val;
      flags[i] := Deleted;
      assert flags[..] == fl[i := Deleted];
      assert next[..] == nx[i := Live];
      assert keys[..] == ks[i := key];
      assert vals[..] == vs[i := val];
    }

    /** The entry in hand finds a bucket that holds nothing. */
    method Settle(next: array<Flag>, i: nat, key: Key, val: V, ghost rest: map<Key, V>)
      requires AllDifferent(flags, next, keys, vals) && key !in rest
      requires i < next.Length && next[i] == Empty && Finds(next[..], key.hash, i, 0) && (i < flags.Length ==> flags[i] != Live)
      requires true == Moving(flags[..], next[..], keys[..], vals[..], rest)
      modifies next, keys, vals
      ensures true == Moving(flags[..], next[..], keys[..], vals[..], rest[key := val]) && flags[..] == old(flags[..])
    {
      ghost var nx, ks, vs := next[..], keys[..], vals[..];
      PutDown(flags[..], nx, ks, vs, rest, i, key, val);
      next[i] := Live;
      keys[i], vals[i] := key, val;
      assert next[..] == nx[i := Live];
      assert keys[..] == ks[i := key];
      assert vals[..] == vs[i := val];
    }

    /** kh_resize: nothing when the entries would not fit, else rehash in place into the new size. */
    method Resize(requested: nat)
      requires Valid()
      modifies this, flags, keys, vals
      ensures true == Valid() && contents == old(contents) && size == old(size) && upperBound == Upper(nBuckets)
      ensures size >= Upper(NewSize(requested)) ==> nBuckets == old(nBuckets) && nOccupied == old(nOccupied)
      ensures size < Upper(NewSize(requested)) ==> nBuckets == NewSize(requested) && nOccupied == size
      ensures fresh(Buffers() - old(Buffers()))
    {
      var n := NewSize(requested);
      if size < Upper(n) {
        Rehash(n);
      }
    }

    method Rehash(n: nat)
      requires Valid() && n >= 4 && PowerOfTwo(n) && size < Upper(n)
      modifies this, flags, keys, vals
      ensures true == Valid() && contents == old(contents) && size == old(size)
      ensures nBuckets == n && nOccupied == size && upperBound == Upper(n)
      ensures fresh(Buffers() - old(Buffers()))
    {
      var next := Prepare(n);
      MoveAll(next);
      Install(next);
    }

    /** New flags, and larger arrays when the table grows. */
    method Prepare(n: nat) returns (next: array<Flag>)
      requires Valid() && n >= 4 && PowerOfTwo(n)
      modifies this`keys, this`vals
      ensures fresh(next) && next.Length == n && AllDifferent(flags, next, keys, vals)
      ensures (keys == old(keys) || fresh(keys)) && (vals == old(vals) || fresh(vals))
      ensures keys.Length == if nBuckets < n then n else nBuckets
      ensures |contents| == size
      ensures true == Moving(flags[..], next[..], keys[..], vals[..], contents)
    {
      ghost var ks, vs := keys[..], vals[..];
      next := new Flag[n](_ => Empty);
      if nBuckets < n {
        Refit(n);
      }
      MovingStarts(flags[..], next[..], ks, vs, contents, size, nOccupied, keys[..], vals[..]);
    }

    /** The new flags take the place of the old, and smaller arrays when the table shrinks. */
    method Install(next: array<Flag>)
      requires AllDifferent(flags, next, keys, vals) && AllDifferent(this, next, keys, vals) && nBuckets == flags.Length
      requires next.Length >= 4 && |contents| == size && size < Upper(next.Length)
      requires keys.Length == if nBuckets < next.Length then next.Length else nBuckets
      requires Without(flags[..], Live) && true == Moving(flags[..], next[..], keys[..], vals[..], contents)
      modifies this
      ensures Valid() && contents == old(contents) && size == old(size)
      ensures nBuckets == next.Length && nOccupied == size && flags == next
      ensures (keys == old(keys) || fresh(keys)) && (vals == old(vals) || fresh(vals))
    {
      ghost var ks, vs := keys[..], vals[..];
      var n := next.Length;
      if nBuckets > n {
        Refit(n);
      }
      MovingEnds(flags[..], next[..], ks, vs, contents, keys[..], vals[..]);
      flags, nBuckets, nOccupied, upperBound := next, n, size, Upper(n);
    }

    /** krealloc of both arrays. */
    method Refit(n: nat)
      requires keys.Length == vals.Length
      modifies this`keys, this`vals
      ensures fresh(keys) && fresh(vals) && (keys as object) != vals && keys.Length == vals.Length == n
      ensures var kept := if n < old(keys).Length then n else old(keys).Length;
              Agree(old(keys[..]), keys[..], kept) && Agree(old(vals[..]), vals[..], kept)
    {
      keys := Realloc(keys, n);
      vals := Realloc(vals, n);
    }

    /** The rehash loop over the old buckets. */
    method MoveAll(next: array<Flag>)
      requires AllDifferent(flags, next, keys, vals) && nBuckets == flags.Length && |contents| < next.Length
      requires true == Moving(flags[..], next[..], keys[..], vals[..], contents)
      modifies flags, next, keys, vals
      ensures true == Moving(flags[..], next[..], keys[..], vals[..], contents)
      ensures Without(flags[..], Live)
    {
      for j := 0 to nBuckets
        invariant ClearedTo(flags[..], j)
        invariant true == Moving(flags[..], next[..], keys[..], vals[..], contents)
      {
        ghost var fl := flags[..];
        if flags[j] == Live {
          KickOut(j, next, contents);
        }
        ClearedNext(fl, flags[..], j);
      }
    }
  }

  datatype Op = Store(key: Key, val: int) | Remove(key: Key)

  /** What a plain map holds after the operations. */
  function Replayed(m: map<Key, int>, ops: seq<Op>): map<Key, int>
    decreases |ops|
  {
    if ops == [] then m else
      var before := Replayed(m, ops[..|ops| - 1]);
      match ops[|ops| - 1]
      case Store(key, val) => before[key := val]
      case Remove(key) => before - {key}
  }

  /** How the callers of the table store a value: kh_put, then kh_value. */
  method PutValue(t: Table<int>, key: Key, val: int)
    requires t.Valid()
    modifies t, t.Buffers()
    ensures true == t.Valid() && fresh(t.Buffers() - old(t.Buffers()))
    ensures t.contents == old(t.contents)[key := val]
  {
    var x, ret := t.Put(key);
    t.SetValue(x, val);
  }

  /** And how they drop one: kh_get, then kh_del. */
  method RemoveKey(t: Table<int>, key: Key)
    requires t.Valid()
    modifies t, t.Buffers()
    ensures true == t.Valid() && t.Buffers() == old(t.Buffers())
    ensures t.contents == old(t.contents) - {key}
  {
    var x := t.Get(key);
    t.Del(x);
  }

  /** Over any sequence of operations, with whatever rehashes and tombstones, the table is the map. */
  method Replay(t: Table<int>, ops: seq<Op>)
    requires t.Valid()
    modifies t, t.Buffers()
    ensures true == t.Valid() && t.contents == Replayed(old(t.contents), ops)
  {
    assert ops[..0] == [];
    for i := 0 to |ops|
      invariant true == t.Valid() && fresh(t.Buffers() - old(t.Buffers()))
      invariant t.contents == Replayed(old(t.contents), ops[..i])
    {
      assert ops[..i + 1][..i] == ops[..i];
      match ops[i]
      case Store(key, val) => PutValue(t, key, val);
      case Remove(key) => RemoveKey(t, key);
    }
    assert ops[..|ops|] == ops;
  }
}
