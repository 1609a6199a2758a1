/** Block storage, seen byte by byte.  Every update is a map merge, so a sequence of block copies, or
    of sub-block patches such as an inode written into its table block, is again one map. */
module BlockDevice {

  const BLOCK_SIZE: nat := 4096 // OXBOW_BLOCK_SIZE

  datatype Loc = Loc(blk: int, byte: int)
  type Disk = map<Loc, int>
  type Block = seq<int>

  /** One block moved from `src` to `dst`. */
  datatype Copy = Copy(dst: int, src: int)

  /** `cnt` consecutive blocks moved from `src` to `dst`: a read bio and the write bio of its buffer. */
  datatype Extent = Extent(dst: int, src: int, cnt: nat)

  function Read(d: Disk, l: Loc): int {
    if l in d then d[l] else 0
  }

  function BlockLocs(blk: int): (r: set<Loc>)
    ensures forall l :: l in r <==> l.blk == blk && 0 <= l.byte < BLOCK_SIZE
  {
    set b | 0 <= b < BLOCK_SIZE :: Loc(blk, b)
  }

  function ReadBlock(d: Disk, blk: int): (r: Block)
    ensures |r| == BLOCK_SIZE
  {
    seq(BLOCK_SIZE, b => Read(d, Loc(blk, b)))
  }

  function WholeBlock(blk: int, content: Block): (r: Disk)
    requires |content| == BLOCK_SIZE
    ensures r.Keys == BlockLocs(blk)
  {
    map l | l in BlockLocs(blk) :: content[l.byte]
  }

  function Image(d: Disk, c: Copy): Disk {
    WholeBlock(c.dst, ReadBlock(d, c.src))
  }

  /** The merged effect of the copies, every source read from `d`. */
  function Writes(d: Disk, copies: seq<Copy>): Disk {
    if copies == [] then map[]
    else Writes(d, copies[..|copies| - 1]) + Image(d, copies[|copies| - 1])
  }

  function Copies(e: Extent): (r: seq<Copy>)
    ensures |r| == e.cnt
  {
    seq(e.cnt, k requires 0 <= k < e.cnt => Copy(e.dst + k, e.src + k))
  }

  function CopiesOf(extents: seq<Extent>): seq<Copy> {
    if extents == [] then [] else CopiesOf(extents[..|extents| - 1]) + Copies(extents[|extents| - 1])
  }

  ghost predicate Writing(copies: seq<Copy>, blk: int) {
    exists k :: 0 <= k < |copies| && copies[k].dst == blk
  }

  /** No copy reads a block that a copy writes. */
  ghost predicate Stable(sources: seq<Copy>, writers: seq<Copy>) {
    forall i, j :: 0 <= i < |sources| && 0 <= j < |writers| ==> sources[i].src != writers[j].dst
  }

  lemma {:induction false} WritesKeys(d: Disk, copies: seq<Copy>)
    ensures forall l :: l in Writes(d, copies) <==> Writing(copies, l.blk) && 0 <= l.byte < BLOCK_SIZE
  {
    if copies != [] {
      var n := |copies| - 1;
      WritesKeys(d, copies[..n]);
      forall l
        ensures l in Writes(d, copies) <==> Writing(copies, l.blk) && 0 <= l.byte < BLOCK_SIZE
      {
        if Writing(copies, l.blk) {
          var k :| 0 <= k < |copies| && copies[k].dst == l.blk;
          assert k < n ==> copies[..n][k].dst == l.blk;
        }
        if Writing(copies[..n], l.blk) {
          var k :| 0 <= k < n && copies[..n][k].dst == l.blk;
          assert copies[k].dst == l.blk;
        }
      }
    }
  }

  lemma {:induction false} MergeAssoc<K, V>(a: map<K, V>, b: map<K, V>, c: map<K, V>)
    ensures a + b + c == a + (b + c)
  {
  }

  lemma {:induction false} WritesAppend(d: Disk, copies: seq<Copy>, c: Copy)
    ensures Writes(d, copies + [c]) == Writes(d, copies) + Image(d, c)
  {
    assert (copies + [c])[..|copies + [c]| - 1] == copies;
  }

  lemma {:induction false} WritesConcat(d: Disk, a: seq<Copy>, b: seq<Copy>)
    ensures Writes(d, a + b) == Writes(d, a) + Writes(d, b)
  {
    if b == [] {
      assert a + b == a;
    } else {
      var n := |b| - 1;
      assert a + b == a + b[..n] + [b[n]] && b == b[..n] + [b[n]];
      WritesConcat(d, a, b[..n]);
      WritesAppend(d, a + b[..n], b[n]);
      WritesAppend(d, b[..n], b[n]);
      MergeAssoc(Writes(d, a), Writes(d, b[..n]), Image(d, b[n]));
    }
  }

  /** Two disks that agree on the sources give the same effect. */
  lemma {:induction false} WritesAgree(d: Disk, e: Disk, copies: seq<Copy>)
    requires forall k, b :: 0 <= k < |copies| && 0 <= b < BLOCK_SIZE
               ==> Read(d, Loc(copies[k].src, b)) == Read(e, Loc(copies[k].src, b))
    ensures Writes(d, copies) == Writes(e, copies)
  {
    if copies != [] {
      var n := |copies| - 1;
      assert forall k :: 0 <= k < n ==> copies[..n][k] == copies[k];
      WritesAgree(d, e, copies[..n]);
      assert ReadBlock(d, copies[n].src) == ReadBlock(e, copies[n].src);
    }
  }

  /** Writing first what nobody reads later does not change what is read later. */
  lemma {:induction false} WritesStable(d: Disk, a: seq<Copy>, b: seq<Copy>)
    requires Stable(b, a)
    ensures Writes(d + Writes(d, a), b) == Writes(d, b)
  {
    WritesKeys(d, a);
    WritesAgree(d + Writes(d, a), d, b);
  }

  lemma {:induction false} CopiesOfAppend(extents: seq<Extent>, e: Extent)
    ensures CopiesOf(extents + [e]) == CopiesOf(extents) + Copies(e)
  {
    assert (extents + [e])[..|extents + [e]| - 1] == extents;
  }

  class Device {
    var store: Disk

    /** Dispatch a read list and then the write list of the same buffers: all reads happen before
        the first write. */
    method Dispatch(copies: seq<Copy>)
      modifies this
      ensures store == old(store) + Writes(old(store), copies)
    {
      var bufs: seq<Block> := [];
      for k := 0 to |copies|
        invariant |bufs| == k && store == old(store)
        invariant forall i :: 0 <= i < k ==> bufs[i] == ReadBlock(store, copies[i].src)
      {
        bufs := bufs + [ReadBlock(store, copies[k].src)];
      }
      assert copies[..0] == [];
      for k := 0 to |copies|
        invariant forall i :: 0 <= i < |copies| ==> bufs[i] == ReadBlock(old(store), copies[i].src)
        invariant store == old(store) + Writes(old(store), copies[..k])
      {
        store := store + WholeBlock(copies[k].dst, bufs[k]);
        assert copies[..k + 1] == copies[..k] + [copies[k]];
        WritesAppend(old(store), copies[..k], copies[k]);
        MergeAssoc(old(store), Writes(old(store), copies[..k]), Image(old(store), copies[k]));
      }
      assert copies[..|copies|] == copies;
    }
  }
}
