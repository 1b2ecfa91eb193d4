/** The on-chip cache: 128 blocks of 1 KB, handed out to ring segments and to the data of
    isochronous OUT transfers. */
module CacheBlocks {
  import opened Lists

  const BLOCKS: nat := 128
  const BLOCK: nat := 0x400
  const START: nat := 0x1000
  const DEVICE: nat := 0x21000

  function Address(b: nat): nat {
    START + BLOCK * b
  }

  /** Blocks do not overlap and lie inside the cache. */
  lemma BlocksDisjoint(b: nat, c: nat, i: nat, j: nat)
    requires b < BLOCKS && c < BLOCKS && i < BLOCK && j < BLOCK
    ensures Address(b) + i < DEVICE
    ensures Address(b) + i == Address(c) + j <==> b == c && i == j
  {
    if b < c {
      assert BLOCK * b + BLOCK <= BLOCK * c;
    } else if c < b {
      assert BLOCK * c + BLOCK <= BLOCK * b;
    }
  }

  datatype Owner = Segment | Data(urb: nat)

  /** `free`, `used` and the two counters are the allocator's; `held` are the blocks in each
      URB's private record.  `owner` tells who has a used block, `dev` is the device's memory
      and `data` the bytes written for each URB. */
  datatype Cache = Cache(
    free: seq<nat>,
    used: seq<nat>,
    numFree: int,
    numUsed: int,
    held: map<nat, seq<nat>>,
    owner: map<nat, Owner>,
    dev: seq<nat>,
    data: map<nat, seq<nat>>
  )

  // --------------------------------------------------------------------- the invariant

  /** Each of the 128 blocks is on exactly one of the two lists, once. */
  ghost predicate Partition(c: Cache) {
    && (forall b: nat :: Times(c.free, b) + Times(c.used, b) == if b < BLOCKS then 1 else 0)
    && c.numFree == |c.free|
    && c.numUsed == |c.used|
  }

  /** A used block is in the hands of a segment, or of the one URB whose record names it. */
  ghost predicate Owned(c: Cache) {
    && (forall b: nat :: b in c.owner <==> b in c.used)
    && (forall b: nat :: b in c.owner && c.owner[b].Data? ==> HeldBy(c, c.owner[b].urb, b))
    && (forall u, i, j :: u in c.held && 0 <= i < j < |c.held[u]| ==> c.held[u][i] != c.held[u][j])
    && (forall u, b :: HeldBy(c, u, b) ==> b in c.owner && c.owner[b] == Data(u))
  }

  predicate HeldBy(c: Cache, u: nat, b: nat) {
    u in c.held && b in c.held[u]
  }

  /** Where byte o of a transfer has been put. */
  function Stored(blocks: seq<nat>, o: nat): nat
    requires o / BLOCK < |blocks|
  {
    Address(blocks[o / BLOCK]) + o % BLOCK
  }

  /** The device has the first k bytes of a transfer. */
  ghost predicate Written(dev: seq<nat>, blocks: seq<nat>, bytes: seq<nat>, k: nat) {
    && |dev| == DEVICE
    && k <= |bytes| <= BLOCK * |blocks|
    && (forall i :: 0 <= i < |blocks| ==> blocks[i] < BLOCKS)
    && forall o :: 0 <= o < k ==> ByteAt(dev, blocks, bytes, o)
  }

  ghost predicate ByteAt(dev: seq<nat>, blocks: seq<nat>, bytes: seq<nat>, o: nat)
    requires o < |bytes| <= BLOCK * |blocks|
    requires |dev| == DEVICE && forall i :: 0 <= i < |blocks| ==> blocks[i] < BLOCKS
  {
    BlocksDisjoint(blocks[o / BLOCK], blocks[o / BLOCK], o % BLOCK, o % BLOCK);
    dev[Stored(blocks, o)] == bytes[o]
  }

  ghost predicate Intact(c: Cache) {
    forall u :: u in c.data ==> u in c.held && Written(c.dev, c.held[u], c.data[u], |c.data[u]|)
  }

  ghost predicate Good(c: Cache) {
    var good := Partition(c) && Owned(c) && Intact(c) && |c.dev| == DEVICE;
    good
  }

  lemma UsedIsBlock(c: Cache, b: nat)
    requires Partition(c) && (b in c.used || b in c.free)
    ensures b < BLOCKS && (b in c.used <==> b !in c.free)
  {
    TimesIn(c.used, b);
    TimesIn(c.free, b);
  }

  // ----------------------------------------------------------------------------- steps

  /** The first free block moves to the end of the used list. */
  function Take(c: Cache, w: Owner): Cache
    requires c.free != []
  {
    var b := c.free[0];
    c.(free := c.free[1..], used := c.used + [b],
       numFree := c.numFree - 1, numUsed := c.numUsed + 1,
       owner := c.owner[b := w],
       held := if w.Segment? then c.held
               else c.held[w.urb := (if w.urb in c.held then c.held[w.urb] else []) + [b]])
  }

  /** A block moves to the end of the free list. */
  function Release(c: Cache, b: nat): Cache {
    c.(free := c.free + [b], used := Remove(c.used, b),
       numFree := c.numFree + 1, numUsed := c.numUsed - 1,
       owner := c.owner - {b})
  }

  lemma TakeKeeps(c: Cache, w: Owner)
    requires Good(c) && c.free != []
    requires w.Data? ==> w.urb !in c.data
    ensures Good(Take(c, w))
  {
    var b, q := c.free[0], Take(c, w);
    forall v: nat ensures Times(q.free, v) + Times(q.used, v) == if v < BLOCKS then 1 else 0 {
      TimesConcat(c.used, [b], v);
      assert Times(c.free, v) == (if v == b then 1 else 0) + Times(c.free[1..], v);
    }
    UsedIsBlock(c, b);
    TakeOwned(c, w);
    assert Intact(q);
  }

  lemma TakeOwned(c: Cache, w: Owner)
    requires Owned(c) && c.free != [] && c.free[0] !in c.used
    ensures Owned(Take(c, w))
  {
    var b, q := c.free[0], Take(c, w);
    assert b !in c.owner;
    forall u, x ensures HeldBy(q, u, x) <==> HeldBy(c, u, x) || (w == Data(u) && x == b) {
    }
    forall x: nat ensures x in q.owner <==> x in q.used {
    }
    forall x: nat | x in q.owner && q.owner[x].Data? ensures HeldBy(q, q.owner[x].urb, x) {
      assert x == b || HeldBy(c, c.owner[x].urb, x);
    }
    forall u, i, j | u in q.held && 0 <= i < j < |q.held[u]|
      ensures q.held[u][i] != q.held[u][j]
    {
      assert u in c.held && j < |c.held[u]| ==> q.held[u][j] == c.held[u][j];
      assert u in c.held && i < |c.held[u]| ==> HeldBy(c, u, q.held[u][i]);
    }
  }

  lemma ReleaseKeeps(c: Cache, b: nat)
    requires Good(c) && b in c.owner && c.owner[b].Segment?
    ensures Good(Release(c, b))
  {
    ReleasePartition(c, b);
    var q := Release(c, b);
    forall v: nat ensures v in q.owner <==> v in q.used {
      TimesIn(q.used, v);
      TimesIn(c.used, v);
      RemoveTimes(c.used, b, v);
    }
    forall u, x ensures HeldBy(q, u, x) <==> HeldBy(c, u, x) {
    }
    assert !exists u :: HeldBy(c, u, b);
    assert Intact(q);
  }

  lemma ReleasePartition(c: Cache, b: nat)
    requires Partition(c) && b in c.used
    ensures Partition(Release(c, b))
  {
    var q := Release(c, b);
    forall v: nat ensures Times(q.free, v) + Times(q.used, v) == if v < BLOCKS then 1 else 0 {
      TimesConcat(c.free, [b], v);
      RemoveTimes(c.used, b, v);
    }
    RemoveTimes(c.used, b, b);
  }

  /** One turn of ehub_xhci_cache_block_free_by_urb. */
  function FreeOne(c: Cache, u: nat): Cache
    requires u in c.held && c.held[u] != []
  {
    Release(c, c.held[u][0]).(held := c.held[u := c.held[u][1..]], data := c.data - {u})
  }

  lemma FreeOneKeeps(c: Cache, u: nat)
    requires Good(c) && u in c.held && c.held[u] != []
    ensures Good(FreeOne(c, u))
  {
    var b, q := c.held[u][0], FreeOne(c, u);
    assert HeldBy(c, u, b);
    ReleasePartition(c, b);
    assert Partition(q);
    forall v: nat ensures v in q.owner <==> v in q.used {
      TimesIn(q.used, v);
      TimesIn(c.used, v);
      RemoveTimes(c.used, b, v);
      TimesIn(c.free, v);
    }
    forall x ensures x in c.held[u][1..] <==> x in c.held[u] && x != b {
    }
    forall v, x ensures HeldBy(q, v, x) <==> HeldBy(c, v, x) && !(v == u && x == b) {
    }
    forall v, x | HeldBy(q, v, x) ensures x in q.owner && q.owner[x] == Data(v) {
      assert HeldBy(c, v, x);
    }
    assert Owned(q);
    assert Intact(q);
  }

  // ---------------------------------------------------------------------- device writes

  function Write(dev: seq<nat>, addr: nat, chunk: seq<nat>): (r: seq<nat>)
    requires addr + |chunk| <= |dev|
    ensures |r| == |dev|
  {
    dev[..addr] + chunk + dev[addr + |chunk|..]
  }

  lemma WriteAt(dev: seq<nat>, addr: nat, chunk: seq<nat>, a: nat)
    requires addr + |chunk| <= |dev| && a < |dev|
    ensures Write(dev, addr, chunk)[a] ==
            if addr <= a < addr + |chunk| then chunk[a - addr] else dev[a]
  {
  }

  /** Writing into a block a URB does not hold leaves its bytes alone. */
  lemma WrittenElsewhere(dev: seq<nat>, blocks: seq<nat>, bytes: seq<nat>, k: nat,
                         b: nat, off: nat, chunk: seq<nat>)
    requires Written(dev, blocks, bytes, k)
    requires b < BLOCKS && b !in blocks && off + |chunk| <= BLOCK
    ensures Address(b) + off + |chunk| <= |dev|
    ensures Written(Write(dev, Address(b) + off, chunk), blocks, bytes, k)
  {
    BlocksDisjoint(b, b, BLOCK - 1, BLOCK - 1);
    var dev' := Write(dev, Address(b) + off, chunk);
    forall o | 0 <= o < k ensures ByteAt(dev', blocks, bytes, o) {
      assert ByteAt(dev, blocks, bytes, o);
      var a := Stored(blocks, o);
      WriteAt(dev, Address(b) + off, chunk, a);
      Apart(b, blocks[o / BLOCK], o % BLOCK, a);
    }
  }

  lemma Apart(b: nat, c: nat, i: nat, a: nat)
    requires b != c && b < BLOCKS && c < BLOCKS && i < BLOCK && a == Address(c) + i
    ensures !(Address(b) <= a < Address(b) + BLOCK)
  {
    if b < c {
      assert BLOCK * b + BLOCK <= BLOCK * c;
    } else {
      assert BLOCK * c + BLOCK <= BLOCK * b;
    }
  }

  /** A cache write into a segment's own block keeps everybody's data. */
  lemma SegmentWriteKeeps(c: Cache, b: nat, off: nat, chunk: seq<nat>)
    requires Good(c) && b in c.owner && c.owner[b].Segment? && off + |chunk| <= BLOCK
    ensures Address(b) + off + |chunk| <= |c.dev|
    ensures Good(c.(dev := Write(c.dev, Address(b) + off, chunk)))
  {
    UsedIsBlock(c, b);
    BlocksDisjoint(b, b, BLOCK - 1, BLOCK - 1);
    var q := c.(dev := Write(c.dev, Address(b) + off, chunk));
    forall u | u in q.data
      ensures u in q.held && Written(q.dev, q.held[u], q.data[u], |q.data[u]|)
    {
      assert !HeldBy(c, u, b);
      WrittenElsewhere(c.dev, c.held[u], c.data[u], |c.data[u]|, b, off, chunk);
    }
    forall u, x ensures HeldBy(q, u, x) <==> HeldBy(c, u, x) {
    }
    assert Partition(q) && Owned(q);
  }

  /** Chunk number i of a transfer. */
  function Chunk(bytes: seq<nat>, i: nat): (r: seq<nat>)
    requires BLOCK * i <= |bytes|
    ensures |r| <= BLOCK
  {
    if BLOCK * i + BLOCK <= |bytes| then bytes[BLOCK * i..BLOCK * i + BLOCK] else bytes[BLOCK * i..]
  }

  /** Writing chunk i behind the ones before it. */
  lemma WrittenMore(dev: seq<nat>, blocks: seq<nat>, bytes: seq<nat>, i: nat)
    requires i < |blocks| && BLOCK * i <= |bytes| && Written(dev, blocks, bytes, BLOCK * i)
    requires forall j, k :: 0 <= j < k < |blocks| ==> blocks[j] != blocks[k]
    ensures Address(blocks[i]) + |Chunk(bytes, i)| <= |dev|
    ensures Written(Write(dev, Address(blocks[i]), Chunk(bytes, i)), blocks, bytes,
                    BLOCK * i + |Chunk(bytes, i)|)
  {
    var chunk := Chunk(bytes, i);
    BlocksDisjoint(blocks[i], blocks[i], BLOCK - 1, BLOCK - 1);
    var dev' := Write(dev, Address(blocks[i]), chunk);
    forall o | 0 <= o < BLOCK * i + |chunk| ensures ByteAt(dev', blocks, bytes, o) {
      ChunkOf(o, i);
      var a := Stored(blocks, o);
      BlocksDisjoint(blocks[o / BLOCK], blocks[o / BLOCK], o % BLOCK, o % BLOCK);
      WriteAt(dev, Address(blocks[i]), chunk, a);
      if o < BLOCK * i {
        assert ByteAt(dev, blocks, bytes, o);
        Apart(blocks[i], blocks[o / BLOCK], o % BLOCK, a);
      }
    }
  }

  lemma ChunkOf(o: nat, i: nat)
    ensures o < BLOCK * i ==> o / BLOCK < i
    ensures BLOCK * i <= o < BLOCK * i + BLOCK ==> o / BLOCK == i && o % BLOCK == o - BLOCK * i
  {
  }

  // ------------------------------------------------------------------------ the object

  ghost predicate Distinct(xs: seq<nat>) {
    forall j, k :: 0 <= j < k < |xs| ==> xs[j] != xs[k]
  }

  lemma {:induction false} RemoveLater(a: seq<nat>, b: nat, rest: seq<nat>)
    requires b !in a
    ensures Remove(a + [b] + rest, b) == a + rest
  {
    if a != [] {
      assert (a + [b] + rest)[1..] == a[1..] + [b] + rest;
      RemoveLater(a[1..], b, rest);
    }
  }

  /** The free list of a good cache has no repetitions. */
  lemma {:induction false} FreeDistinct(c: Cache, j: nat, k: nat)
    requires Partition(c) && j < k < |c.free|
    ensures c.free[j] != c.free[k]
  {
    assert c.free == c.free[..j] + [c.free[j]] + c.free[j + 1..k] + [c.free[k]] + c.free[k + 1..];
    var x := c.free[j];
    TimesConcat(c.free[..j] + [x] + c.free[j + 1..k] + [c.free[k]], c.free[k + 1..], x);
    TimesConcat(c.free[..j] + [x] + c.free[j + 1..k], [c.free[k]], x);
    TimesConcat(c.free[..j] + [x], c.free[j + 1..k], x);
    TimesConcat(c.free[..j], [x], x);
    assert Times([x], x) == 1;
  }

  lemma ReleaseUndoesTake(c: Cache)
    requires Good(c) && c.free != []
    ensures var b := c.free[0];
            Release(Take(c, Segment), b) == c.(free := c.free[1..] + [b])
  {
    var b := c.free[0];
    UsedIsBlock(c, b);
    RemoveLater(c.used, b, []);
    assert c.used + [b] + [] == c.used + [b];
    assert c.owner[b := Segment] - {b} == c.owner;
  }

  function CeilBlocks(len: nat): nat {
    (len + BLOCK - 1) / BLOCK
  }

  /** Bytes written by the first i writes. */
  function Done(bytes: seq<nat>, i: nat): (k: nat)
    ensures k <= |bytes|
  {
    if BLOCK * i <= |bytes| then BLOCK * i else |bytes|
  }

  function RemoveAll(list: seq<nat>, xs: seq<nat>): seq<nat>
    decreases xs
  {
    if xs == [] then list else RemoveAll(Remove(list, xs[0]), xs[1..])
  }

  /** The URB's blocks leave the used list and join the free list, in order. */
  function FreeAll(c: Cache, u: nat): Cache
    requires u in c.held
    decreases |c.held[u]|
  {
    if c.held[u] == [] then c.(data := c.data - {u}) else FreeAll(FreeOne(c, u), u)
  }

  /** What freeing a URB's blocks comes to; doing it twice is doing it once. */
  lemma {:induction false} FreeAllIs(c: Cache, u: nat)
    requires u in c.held
    ensures var q := FreeAll(c, u);
            && q.free == c.free + c.held[u]
            && q.used == RemoveAll(c.used, c.held[u])
            && q.held == c.held[u := []]
            && q.data == c.data - {u}
            && q.numFree == c.numFree + |c.held[u]|
            && q.numUsed == c.numUsed - |c.held[u]|
            && q.dev == c.dev
            && FreeAll(q, u) == q
    decreases |c.held[u]|
  {
    if c.held[u] != [] {
      var p := FreeOne(c, u);
      FreeAllIs(p, u);
      assert c.free + c.held[u] == (c.free + [c.held[u][0]]) + c.held[u][1..];
      assert p.data - {u} == c.data - {u};
    } else {
      assert c.held[u := []] == c.held;
      assert (c.data - {u}) - {u} == c.data - {u};
    }
  }

  lemma {:induction false} FreeAllUsed(a: seq<nat>, xs: seq<nat>)
    requires Distinct(xs) && forall x :: x in xs ==> x !in a
    ensures RemoveAll(a + xs, xs) == a
    decreases xs
  {
    if xs == [] {
      assert a + xs == a;
    } else {
      assert a + xs == a + [xs[0]] + xs[1..];
      RemoveLater(a, xs[0], xs[1..]);
      FreeAllUsed(a, xs[1..]);
    }
  }

  lemma TakenDistinct(c: Cache, n: nat)
    requires Partition(c) && n <= |c.free|
    ensures Distinct(c.free[..n]) && forall x :: x in c.free[..n] ==> x !in c.used
  {
    forall j, k | 0 <= j < k < n ensures c.free[j] != c.free[k] {
      FreeDistinct(c, j, k);
    }
    forall x | x in c.free[..n] ensures x !in c.used {
      UsedIsBlock(c, x);
    }
  }

  /** Blocks taken and freed again: only the free list has changed, in its order. */
  lemma FreedAgain(c: Cache, p: Cache, u: nat, n: nat)
    requires Partition(c) && n <= |c.free| && u in c.held && c.held[u] == [] && u !in c.data
    requires p.free == c.free[n..] && p.used == c.used + c.free[..n] && p.data == c.data
    requires p.held == c.held[u := c.free[..n]]
    ensures var q := FreeAll(p, u);
            q.free == c.free[n..] + c.free[..n] && q.used == c.used &&
            q.held == c.held && q.data == c.data
  {
    FreeAllIs(p, u);
    TakenDistinct(c, n);
    FreeAllUsed(c.used, c.free[..n]);
  }

  lemma WithoutData(c: Cache, u: nat)
    requires Good(c)
    ensures Good(c.(data := c.data - {u}))
  {
    var q := c.(data := c.data - {u});
    forall v, x ensures HeldBy(q, v, x) <==> HeldBy(c, v, x) {
    }
    assert Partition(q) && Owned(q) && Intact(q);
  }

  lemma HeldAreBlocks(c: Cache, u: nat)
    requires Good(c) && u in c.held
    ensures Distinct(c.held[u])
    ensures forall i :: 0 <= i < |c.held[u]| ==> c.held[u][i] < BLOCKS
  {
    forall i | 0 <= i < |c.held[u]| ensures c.held[u][i] < BLOCKS {
      assert HeldBy(c, u, c.held[u][i]);
      UsedIsBlock(c, c.held[u][i]);
    }
  }

  lemma WrittenStarts(c: Cache, u: nat, bytes: seq<nat>)
    requires Good(c) && u in c.held && |c.held[u]| == CeilBlocks(|bytes|)
    ensures Written(c.dev, c.held[u], bytes, Done(bytes, 0))
  {
    HeldAreBlocks(c, u);
  }

  /** Writing chunk i of a URB's data into its own block i. */
  lemma DataWriteKeeps(c: Cache, u: nat, bytes: seq<nat>, i: nat)
    requires Good(c) && u in c.held && u !in c.data && i < |c.held[u]| == CeilBlocks(|bytes|)
    requires Written(c.dev, c.held[u], bytes, Done(bytes, i))
    ensures BLOCK * i <= |bytes|
    ensures Address(c.held[u][i]) + |Chunk(bytes, i)| <= |c.dev|
    ensures var q := c.(dev := Write(c.dev, Address(c.held[u][i]), Chunk(bytes, i)));
            Good(q) && Written(q.dev, c.held[u], bytes, Done(bytes, i + 1))
  {
    HeldAreBlocks(c, u);
    ChunkInside(|bytes|, i);
    WrittenMore(c.dev, c.held[u], bytes, i);
    var b := c.held[u][i];
    assert HeldBy(c, u, b);
    var q := c.(dev := Write(c.dev, Address(b), Chunk(bytes, i)));
    forall v | v in q.data
      ensures v in q.held && Written(q.dev, q.held[v], q.data[v], |q.data[v]|)
    {
      assert !HeldBy(c, v, b);
      WrittenElsewhere(c.dev, c.held[v], c.data[v], |c.data[v]|, b, 0, Chunk(bytes, i));
    }
    forall v, x ensures HeldBy(q, v, x) <==> HeldBy(c, v, x) {
    }
    assert Partition(q) && Owned(q) && Intact(q);
  }

  lemma ChunkInside(len: nat, i: nat)
    requires i < CeilBlocks(len)
    ensures BLOCK * i < len
  {
  }

  lemma DataJoins(q: Cache, u: nat, bytes: seq<nat>)
    requires u in q.held && u in q.data && q.data[u] == bytes
    requires Good(q.(data := q.data - {u})) && Written(q.dev, q.held[u], bytes, |bytes|)
    ensures Good(q)
  {
    var c := q.(data := q.data - {u});
    forall v, x ensures HeldBy(q, v, x) <==> HeldBy(c, v, x) {
    }
    forall v | v in q.data
      ensures v in q.held && Written(q.dev, q.held[v], q.data[v], |q.data[v]|)
    {
      assert v != u ==> v in c.data;
    }
    assert Partition(q) && Owned(q) && Intact(q);
  }

  function Upto(n: nat): (r: seq<nat>)
    ensures |r| == n
  {
    if n == 0 then [] else Upto(n - 1) + [n - 1]
  }

  lemma {:induction false} UptoTimes(n: nat, b: nat)
    ensures Times(Upto(n), b) == if b < n then 1 else 0
  {
    if n != 0 {
      UptoTimes(n - 1, b);
      TimesConcat<nat>(Upto(n - 1), [n - 1], b);
      assert Times<nat>([n - 1], b) == if b == n - 1 then 1 else 0;
    }
  }

  lemma FreshGood(c: Cache)
    requires c.free == Upto(BLOCKS) && c.used == [] && c.numFree == BLOCKS && c.numUsed == 0
    requires c.held == map[] && c.owner == map[] && c.data == map[] && |c.dev| == DEVICE
    ensures Good(c)
  {
    forall b: nat ensures Times(c.free, b) + Times(c.used, b) == if b < BLOCKS then 1 else 0 {
      UptoTimes(BLOCKS, b);
    }
    assert Partition(c) && Owned(c) && Intact(c);
  }

  lemma NewRecordKeeps(c: Cache, u: nat)
    requires Good(c) && u !in c.held
    ensures Good(c.(held := c.held[u := []]))
  {
    var q := c.(held := c.held[u := []]);
    forall v, x ensures HeldBy(q, v, x) <==> HeldBy(c, v, x) {
    }
    assert Partition(q) && Owned(q) && Intact(q);
  }

  datatype Status = Ok | NoMemory | WriteError

  class Allocator {
    var free: seq<nat>
    var used: seq<nat>
    var numFree: int
    var numUsed: int
    var held: map<nat, seq<nat>>
    ghost var owner: map<nat, Owner>
    ghost var dev: seq<nat>
    ghost var data: map<nat, seq<nat>>

    /** The block list set up by the cache's initialization. */
    constructor ()
      ensures Good(Now()) && free == Upto(BLOCKS) && used == [] && held == map[]
    {
      free, used, numFree, numUsed, held := [], [], 0, 0, map[];
      owner, data, dev := map[], map[], seq(DEVICE, _ => 0);
      new;
      var index := 0;
      while index < BLOCKS
        invariant 0 <= index <= BLOCKS && free == Upto(index) && numFree == index
        invariant used == [] && numUsed == 0 && held == map[] && owner == map[] && data == map[]
        invariant |dev| == DEVICE
      {
        free := free + [index];
        numFree := numFree + 1;
        index := index + 1;
      }
      FreshGood(Now());
    }

    ghost function Now(): Cache
      reads this
    {
      Cache(free, used, numFree, numUsed, held, owner, dev, data)
    }

    /** A URB's private record starts with no blocks. */
    method NewRecord(u: nat)
      requires Good(Now()) && u !in held
      modifies this`held
      ensures Good(Now()) && held == old(held)[u := []]
    {
      NewRecordKeeps(Now(), u);
      held := held[u := []];
    }

    /** list_move_tail of the first free block to the used list. */
    method TakeFirst() returns (block: nat)
      requires free != []
      modifies this`free, this`used, this`numFree, this`numUsed, this`owner
      ensures block == old(free)[0] && Now() == Take(old(Now()), Segment)
    {
      block := free[0];
      free, used := free[1..], used + [block];
      numFree, numUsed := numFree - 1, numUsed + 1;
      owner := owner[block := Segment];
    }

    /** list_move_tail of a block to the free list. */
    method PutBack(block: nat)
      modifies this`free, this`used, this`numFree, this`numUsed, this`owner
      ensures Now() == Release(old(Now()), block)
    {
      free, used := free + [block], Remove(used, block);
      numUsed, numFree := numUsed - 1, numFree + 1;
      owner := owner - {block};
    }

    /** ehub_xhci_cache_block_allocate_segment: a block for a ring segment.  If the write of
        its contents fails, the block goes to the end of the free list. */
    method AllocateSegment(written: bool) returns (block: nat, ok: bool)
      requires Good(Now())
      modifies this`free, this`used, this`numFree, this`numUsed, this`owner
      ensures Good(Now())
      ensures ok <==> old(free) != [] && written
      ensures ok ==> block == old(free)[0] && Now() == Take(old(Now()), Segment)
      ensures ok ==> free == old(free)[1..] && used == old(used) + [block] &&
                     numFree == old(numFree) - 1 && numUsed == old(numUsed) + 1 &&
                     owner == old(owner)[block := Segment] && held == old(held)
      ensures !ok && old(free) == [] ==> Now() == old(Now())
      ensures !ok && old(free) != [] ==>
                Now() == old(Now()).(free := old(free)[1..] + [old(free)[0]])
    {
      block, ok := 0, false;
      if free == [] {
        return;
      }
      TakeKeeps(Now(), Segment);
      ReleaseUndoesTake(Now());
      block := TakeFirst();
      if !written {
        ReleaseKeeps(Now(), block);
        PutBack(block);
        return;
      }
      ok := true;
    }

    /** ehub_xhci_cache_block_free. */
    method FreeBlock(block: nat)
      requires Good(Now()) && block in owner && owner[block].Segment?
      modifies this`free, this`used, this`numFree, this`numUsed, this`owner
      ensures Good(Now()) && Now() == Release(old(Now()), block)
      ensures free == old(free) + [block] && numFree == old(numFree) + 1 && held == old(held)
      ensures numUsed == old(numUsed) - 1 && owner == old(owner) - {block}
      ensures exists k :: 0 <= k < |old(used)| && old(used)[k] == block &&
                          used == old(used)[..k] + old(used)[k + 1..]
    {
      TimesIn(used, block);
      ghost var k := RemoveAt(used, block);
      ReleaseKeeps(Now(), block);
      PutBack(block);
    }

    /** One turn of the loop below. */
    method FreeFirst(u: nat)
      requires Good(Now()) && u in held && held[u] != []
      modifies this`free, this`used, this`numFree, this`numUsed, this`owner, this`held, this`data
      ensures Good(Now()) && Now() == FreeOne(old(Now()), u)
    {
      FreeOneKeeps(Now(), u);
      PutBack(held[u][0]);
      held := held[u := held[u][1..]];
      data := data - {u};
    }

    /** ehub_xhci_cache_block_free_by_urb: the URB's blocks go to the end of the free list. */
    method FreeByUrb(u: nat)
      requires Good(Now()) && u in held
      modifies this`free, this`used, this`numFree, this`numUsed, this`owner, this`held, this`data
      ensures Good(Now())
      ensures Now() == FreeAll(old(Now()), u)
    {
      ghost var c := Now();
      var index, count := 0, |held[u]|;
      while index < count
        invariant 0 <= index <= count
        invariant Good(Now()) && u in held && |held[u]| == count - index
        invariant FreeAll(Now(), u) == FreeAll(c, u)
      {
        FreeFirst(u);
        index := index + 1;
      }
      WithoutData(Now(), u);
      data := data - {u};
    }

    /** The first loop of ehub_xhci_cache_block_allocate_urb. */
    method TakeBlocks(u: nat, n: nat)
      requires Good(Now()) && u in held && held[u] == [] && u !in data && n <= numFree
      modifies this`free, this`used, this`numFree, this`numUsed, this`owner, this`held
      ensures Good(Now())
      ensures n <= |old(free)| && free == old(free)[n..] && used == old(used) + old(free)[..n]
      ensures held == old(held)[u := old(free)[..n]]
    {
      var i := 0;
      while i < n
        invariant 0 <= i <= n <= |old(free)| && Good(Now())
        invariant free == old(free)[i..] && used == old(used) + old(free)[..i]
        invariant held == old(held)[u := old(free)[..i]]
      {
        assert old(free)[..i + 1] == old(free)[..i] + [old(free)[i]];
        TakeForUrb(u);
        i := i + 1;
      }
    }

    method TakeForUrb(u: nat)
      requires Good(Now()) && u in held && u !in data && free != []
      modifies this`free, this`used, this`numFree, this`numUsed, this`owner, this`held
      ensures Good(Now()) && Now() == Take(old(Now()), Data(u))
    {
      TakeKeeps(Now(), Data(u));
      var block := free[0];
      free, used := free[1..], used + [block];
      numFree, numUsed := numFree - 1, numUsed + 1;
      owner := owner[block := Data(u)];
      held := held[u := held[u] + [block]];
    }

    /** The second loop: write the transfer's data, one block after the other.  `failing` is
        the number of the first write that fails. */
    method WriteData(u: nat, bytes: seq<nat>, failing: nat) returns (ok: bool)
      requires Good(Now()) && u in held && u !in data
      requires |held[u]| == CeilBlocks(|bytes|)
      modifies this`dev
      ensures Good(Now())
      ensures ok <==> |held[u]| <= failing
      ensures ok ==> Written(dev, held[u], bytes, |bytes|)
    {
      var i := 0;
      WrittenStarts(Now(), u, bytes);
      while i < |held[u]|
        invariant 0 <= i <= |held[u]| && i <= failing && Good(Now())
        invariant BLOCK * i <= |bytes| || i == |held[u]|
        invariant Written(dev, held[u], bytes, Done(bytes, i))
      {
        if i == failing {
          return false;
        }
        DataWriteKeeps(Now(), u, bytes, i);
        dev := Write(dev, Address(held[u][i]), Chunk(bytes, i));
        i := i + 1;
      }
      ok := true;
    }

    /** ehub_xhci_cache_block_allocate_urb.  Either the device holds all the data, or every
        block taken is free again and no other URB has lost anything. */
    method AllocateUrb(u: nat, bytes: seq<nat>, failing: nat) returns (status: Status)
      requires Good(Now()) && u in held && held[u] == [] && u !in data
      requires |bytes| <= 6 * BLOCK
      modifies this
      ensures Good(Now())
      ensures status == NoMemory <==> old(numFree) < CeilBlocks(|bytes|)
      ensures status == Ok <==>
                CeilBlocks(|bytes|) <= old(numFree) && CeilBlocks(|bytes|) <= failing
      ensures status == NoMemory ==> Now() == old(Now())
      ensures status == WriteError ==>
                && held == old(held) && data == old(data) && used == old(used)
                && free == old(free)[CeilBlocks(|bytes|)..] + old(free)[..CeilBlocks(|bytes|)]
      ensures status == Ok ==>
                && held == old(held)[u := old(free)[..CeilBlocks(|bytes|)]]
                && data == old(data)[u := bytes]
    {
      var n := CeilBlocks(|bytes|);
      if numFree < n {
        return NoMemory;
      }
      ghost var c := Now();
      TakeBlocks(u, n);
      var ok := WriteData(u, bytes, failing);
      if !ok {
        FreedAgain(c, Now(), u, n);
        FreeByUrb(u);
        return WriteError;
      }
      ghost var was := data;
      data := data[u := bytes];
      assert data - {u} == was;
      DataJoins(Now(), u, bytes);
      status := Ok;
    }
  }
}
