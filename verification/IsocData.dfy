/** Isochronous OUT data kept on chip: the device addresses put into TRBs lead to the bytes
    that were written. */
module IsocData {
  import opened CacheBlocks
  import opened Splitting

  /** ehub_xhci_get_data_buffer_addr.  The block is chosen by the distance from the start of
      the buffer, the place in it by the low bits of the address itself. */
  function DataAddr(buffer: nat, blocks: seq<nat>, addr: nat): nat
    requires buffer <= addr && (blocks != [] ==> (addr - buffer) / BLOCK < |blocks|)
  {
    if blocks == [] then addr
    else Address(blocks[(addr - buffer) / BLOCK]) + addr % BLOCK
  }

  /** The address is that of the byte exactly when the buffer starts on a block boundary. */
  lemma RightIffAligned(buffer: nat, blocks: seq<nat>, o: nat)
    requires o / BLOCK < |blocks|
    ensures DataAddr(buffer, blocks, buffer + o) == Stored(blocks, o) <==> buffer % BLOCK == 0
  {
    SameResidue(buffer, o);
  }

  /** Without blocks the data stays where it is; with blocks the address lies in the block that
      holds the byte, whatever the alignment. */
  lemma AddressIs(buffer: nat, blocks: seq<nat>, o: nat)
    requires blocks != [] ==> o / BLOCK < |blocks|
    ensures blocks == [] ==> DataAddr(buffer, blocks, buffer + o) == buffer + o
    ensures blocks != [] ==>
              START + BLOCK * blocks[o / BLOCK] <= DataAddr(buffer, blocks, buffer + o) <
              START + BLOCK * (blocks[o / BLOCK] + 1)
  {
  }

  lemma SameResidue(a: nat, o: nat)
    ensures (a + o) % BLOCK == o % BLOCK <==> a % BLOCK == 0
  {
  }

  /** A TRB inside one block: every byte it covers lies behind its first, in the same block. */
  lemma BytesFollow(o: nat, len: nat, k: nat)
    requires k < len && o / BLOCK == (o + len - 1) / BLOCK
    ensures (o + k) / BLOCK == o / BLOCK && (o + k) % BLOCK == o % BLOCK + k
  {
  }

  lemma WindowFromBuffer(buffer: nat, p: Piece)
    requires buffer % BLOCK == 0 && buffer <= p.addr && 0 < p.len
    requires Window(Unit1K, p.addr) == Window(Unit1K, p.addr + p.len - 1)
    ensures (p.addr - buffer) / BLOCK == (p.addr - buffer + p.len - 1) / BLOCK
  {
    Shift(buffer, p.addr);
    Shift(buffer, p.addr + p.len - 1);
  }

  lemma Shift(buffer: nat, a: nat)
    requires buffer % BLOCK == 0 && buffer <= a
    ensures (a - buffer) / BLOCK == a / BLOCK - buffer / BLOCK
    ensures (a - buffer) % BLOCK == a % BLOCK
  {
  }

  lemma {:induction false} PiecesInside(u: Unit, addr: nat, len: nat, i: nat)
    requires i < |Pieces(u, addr, len)|
    ensures addr <= Pieces(u, addr, len)[i].addr
    ensures Pieces(u, addr, len)[i].addr + Pieces(u, addr, len)[i].len <= addr + len
    decreases i
  {
    var k := Min(u.Size() - Offset(u, addr), len);
    if i != 0 {
      PiecesInside(u, addr + k, len - k, i - 1);
    }
  }

  /** Any piece of an aligned buffer that stays inside one block. */
  lemma PieceReadsItsBytes(c: Cache, u: nat, buffer: nat, p: Piece, k: nat)
    requires Good(c) && u in c.data && buffer % BLOCK == 0
    requires buffer <= p.addr && p.addr - buffer + p.len <= |c.data[u]| && k < p.len
    requires Window(Unit1K, p.addr) == Window(Unit1K, p.addr + p.len - 1)
    ensures u in c.held && (p.addr - buffer) / BLOCK < |c.held[u]|
    ensures var a := DataAddr(buffer, c.held[u], p.addr) + k;
            a < |c.dev| && c.dev[a] == c.data[u][p.addr - buffer + k]
  {
    var o := p.addr - buffer;
    WindowFromBuffer(buffer, p);
    BytesFollow(o, p.len, k);
    Held(c, u, o + k);
    RightIffAligned(buffer, c.held[u], o);
  }

  /** TRB number i of a TD at offset `at` of an aligned buffer: the device finds byte k of it
      at the TRB's address plus k, with the value of the transfer buffer. */
  lemma TrbReadsItsBytes(c: Cache, u: nat, buffer: nat, at: nat, len: nat, i: nat, k: nat)
    requires Good(c) && u in c.data && buffer % BLOCK == 0
    requires at + len <= |c.data[u]| && i < |Pieces(Unit1K, buffer + at, len)|
    requires k < Pieces(Unit1K, buffer + at, len)[i].len
    ensures var p := Pieces(Unit1K, buffer + at, len)[i];
            && buffer <= p.addr && p.addr - buffer + k < |c.data[u]|
            && u in c.held && (p.addr - buffer) / BLOCK < |c.held[u]|
            && DataAddr(buffer, c.held[u], p.addr) + k < |c.dev|
            && c.dev[DataAddr(buffer, c.held[u], p.addr) + k] == c.data[u][p.addr - buffer + k]
  {
    var ps := Pieces(Unit1K, buffer + at, len);
    PiecesInside(Unit1K, buffer + at, len, i);
    PiecesSound(Unit1K, buffer + at, len);
    SoundEach(Unit1K, buffer + at, ps, i);
    PieceReadsItsBytes(c, u, buffer, ps[i], k);
  }

  lemma Held(c: Cache, u: nat, o: nat)
    requires Good(c) && u in c.data && o < |c.data[u]|
    ensures u in c.held && o / BLOCK < |c.held[u]| && c.held[u][o / BLOCK] < BLOCKS
    ensures Stored(c.held[u], o) < |c.dev| && c.dev[Stored(c.held[u], o)] == c.data[u][o]
  {
    assert Written(c.dev, c.held[u], c.data[u], |c.data[u]|);
    assert ByteAt(c.dev, c.held[u], c.data[u], o);
    BlocksDisjoint(c.held[u][o / BLOCK], c.held[u][o / BLOCK], o % BLOCK, o % BLOCK);
  }

  /** The same for the TRBs a TD is queued as: when the count made from the DMA address agrees
      with the buffer address, they are the pieces above. */
  lemma QueuedTrbs(buffer: nat, dma: nat, at: nat, len: nat)
    requires 0 < len && (buffer + at) % BLOCK == (dma + at) % BLOCK
    ensures Cut(Unit1K, buffer + at, len, CountIsocTrbs(Unit1K, dma + at, len)) ==
            Pieces(Unit1K, buffer + at, len)
  {
    IsocExact(Unit1K, buffer + at, dma + at, len);
  }
}
