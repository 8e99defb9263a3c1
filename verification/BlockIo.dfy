/** Byte-range reads and writes through the buffer cache, one caller at a time: the
    loops over pages and over device blocks, against a flat array of bytes. */
module BlockIo {
  import opened Options
  import opened BlockCache
  import opened ByteStrings

  type Block = seq<Byte>

  /** The bytes of blocks `first` to `first + n`, in order; blocks never written are zero. */
  function Concat(blocks: map<nat, Block>, size: nat, first: nat, n: nat): (bytes: seq<Byte>)
    requires forall b :: b in blocks ==> |blocks[b]| == size
    ensures |bytes| == n * size
  {
    if n == 0 then [] else Concat(blocks, size, first, n - 1) + BlockAt(blocks, size, first + n - 1)
  }

  function BlockAt(blocks: map<nat, Block>, size: nat, b: nat): Block {
    if b in blocks then blocks[b] else seq(size, _ => 0)
  }

  /** Blocks outside the range do not matter. */
  lemma {:induction false} ConcatFrame(blocks: map<nat, Block>, blocks': map<nat, Block>, size: nat, first: nat, n: nat)
    requires forall b :: b in blocks ==> |blocks[b]| == size
    requires forall b :: b in blocks' ==> |blocks'[b]| == size
    requires forall b :: first <= b < first + n ==> BlockAt(blocks', size, b) == BlockAt(blocks, size, b)
    ensures Concat(blocks', size, first, n) == Concat(blocks, size, first, n)
  {
    if n > 0 { ConcatFrame(blocks, blocks', size, first, n - 1); }
  }

  /** Pages own disjoint ranges of blocks. */
  lemma DisjointRanges(p: nat, q: nat, n: nat, b: nat)
    requires p != q && p * n <= b < p * n + n
    ensures !(q * n <= b < q * n + n)
  {
    if p < q {
      assert (p + 1) * n <= q * n;
    } else {
      assert (q + 1) * n <= p * n;
    }
  }

  lemma ConcatNone(blocks: map<nat, Block>, size: nat, first: nat)
    requires forall b :: b in blocks ==> |blocks[b]| == size
    ensures Concat(blocks, size, first, 0) == []
  {
  }

  lemma OtherPage(blocks: map<nat, Block>, blocks': map<nat, Block>, size: nat, n: nat, p: nat, q: nat)
    requires forall b :: b in blocks ==> |blocks[b]| == size
    requires forall b :: b in blocks' ==> |blocks'[b]| == size
    requires p != q
    requires forall b: nat :: !(p * n <= b < p * n + n) ==> BlockAt(blocks', size, b) == BlockAt(blocks, size, b)
    ensures Concat(blocks', size, q * n, n) == Concat(blocks, size, q * n, n)
  {
    forall b: nat | q * n <= b < q * n + n ensures BlockAt(blocks', size, b) == BlockAt(blocks, size, b) {
      DisjointRanges(q, p, n, b);
    }
    ConcatFrame(blocks, blocks', size, q * n, n);
  }

  /** Writing one more block extends what the written range reads as. */
  lemma ConcatStep(blocks: map<nat, Block>, size: nat, first: nat, i: nat, done: seq<Byte>, block: Block)
    requires forall b :: b in blocks ==> |blocks[b]| == size
    requires |block| == size && Concat(blocks, size, first, i) == done
    ensures Concat(blocks[first + i := block], size, first, i + 1) == done + block
  {
    ConcatFrame(blocks, blocks[first + i := block], size, first, i);
  }

  lemma {:induction false} TimesMono(a: nat, b: nat, d: nat)
    ensures a < b ==> a * d + d <= b * d
  {
    if a + 1 < b {
      TimesMono(a, b - 1, d);
      assert b * d == (b - 1) * d + d;
    } else if a + 1 == b {
      assert b * d == a * d + d;
    }
  }

  lemma Quotient(x: nat, d: nat, q: nat, r: nat)
    requires x == q * d + r && r < d
    ensures x / d == q && x % d == r
  {
    var k := x / d;
    assert x == k * d + x % d;
    TimesMono(k, q, d);
    TimesMono(q, k, d);
  }

  lemma ConcatLast(blocks: map<nat, Block>, size: nat, first: nat, n: nat)
    requires (forall b :: b in blocks ==> |blocks[b]| == size) && n > 0
    ensures Concat(blocks, size, first, n) == Concat(blocks, size, first, n - 1) + BlockAt(blocks, size, first + n - 1)
    ensures |Concat(blocks, size, first, n - 1)| == (n - 1) * size && |Concat(blocks, size, first, n)| == n * size
    ensures |BlockAt(blocks, size, first + n - 1)| == size
  {
  }

  /** Byte `r` of the `j`-th of some blocks. */
  lemma {:induction false} ConcatAt(blocks: map<nat, Block>, size: nat, first: nat, n: nat, j: nat, r: nat)
    requires (forall b :: b in blocks ==> |blocks[b]| == size) && j < n && r < size
    ensures j * size + r < n * size
    ensures Concat(blocks, size, first, n)[j * size + r] == BlockAt(blocks, size, first + j)[r]
    decreases n
  {
    hide Concat, BlockAt;
    TimesMono(j, n, size);
    ConcatLast(blocks, size, first, n);
    if j < n - 1 { ConcatAt(blocks, size, first, n - 1, j, r); }
  }

  /** A device with its cache; a page is `perPage` blocks of `blockSize` bytes. */
  datatype Store = Store(blockSize: nat, perPage: nat, blocks: map<nat, Block>, bufs: map<nat, Buffer>) {
    ghost predicate Sized() {
      perPage * blockSize == PGSIZE && forall b :: b in blocks ==> |blocks[b]| == blockSize
    }

    function DiskPage(p: nat): Page
      requires Sized()
    {
      Concat(blocks, blockSize, p * perPage, perPage)
    }

    function Buf(p: nat): Buffer { if p in bufs then bufs[p] else Fresh() }

    /** Clean pages agree with the device. */
    ghost predicate Valid() {
      Sized() && forall p: nat :: Buf(p).page.Some? && !Buf(p).dirty ==> Buf(p).page.value == DiskPage(p)
    }

    function Contents(p: nat): Page
      requires Sized()
    {
      if Buf(p).page.Some? then Buf(p).page.value else DiskPage(p)
    }

    /** The byte a caller sees at an absolute offset. */
    ghost function ByteAt(a: nat): Byte
      requires Sized()
    {
      Contents(a / PGSIZE)[a % PGSIZE]
    }

    /** The same after writing `bytes` at `start` in a flat array. */
    ghost function After(start: nat, bytes: seq<Byte>, a: nat): Byte
      requires Sized()
    {
      if start <= a < start + |bytes| then bytes[a - start] else ByteAt(a)
    }

    ghost predicate Agrees(other: Store)
      requires Sized() && other.Sized()
    {
      forall p: nat :: Contents(p) == other.Contents(p)
    }

    function Set(p: nat, b: Buffer): Store { this.(bufs := bufs[p := b]) }
  }

  /** Without a cached page, byte `a` is byte `a % blockSize` of block `a / blockSize`. */
  lemma DeviceByte(s: Store, a: nat)
    requires s.Sized() && s.Buf(a / PGSIZE).page.None?
    ensures s.blockSize > 0 && s.ByteAt(a) == BlockAt(s.blocks, s.blockSize, a / s.blockSize)[a % s.blockSize]
  {
    hide Concat, BlockAt;
    var p, size, n := a / PGSIZE, s.blockSize, s.perPage;
    assert size > 0;
    var j, r := a % PGSIZE / size, a % PGSIZE % size;
    assert a % PGSIZE == j * size + r;
    TimesMono(n, j + 1, size);
    ConcatAt(s.blocks, size, p * n, n, j, r);
    assert a == p * (n * size) + (j * size + r);
    assert p * (n * size) == p * n * size;
    assert (p * n + j) * size == p * n * size + j * size;
    Quotient(a, size, p * n + j, r);
  }

  /** Replacing a buffer by one that shows the same page, and is still dirty if it must be. */
  lemma SetKeeps(s: Store, p: nat, b: Buffer)
    requires s.Valid()
    requires (if b.page.Some? then b.page.value else s.DiskPage(p)) == s.Contents(p)
    requires b.dirty || b.page.None? || b.page.value == s.DiskPage(p)
    ensures s.Set(p, b).Valid() && s.Set(p, b).Agrees(s)
  {
    hide Concat;
    var s' := s.Set(p, b);
    assert s'.Sized();
    forall q: nat ensures s'.Contents(q) == s.Contents(q) && s'.DiskPage(q) == s.DiskPage(q) {
      assert q != p ==> s'.Buf(q) == s.Buf(q);
    }
    forall q: nat | s'.Buf(q).page.Some? && !s'.Buf(q).dirty ensures s'.Buf(q).page.value == s'.DiskPage(q) {
      assert q != p ==> s'.Buf(q) == s.Buf(q);
    }
  }

  /** Overwriting part of one page changes exactly those bytes of the flat view. */
  lemma SpliceBytes(s: Store, p: nat, offset: nat, bytes: seq<Byte>, count: int, a: nat)
    requires s.Valid() && offset + |bytes| <= PGSIZE
    ensures var s' := s.Set(p, Buffer(count, true, Some(Splice(s.Contents(p), offset, bytes))));
            && s'.Sized()
            && s'.ByteAt(a) == s.After(p * PGSIZE + offset, bytes, a)
  {
    hide Concat;
    var s' := s.Set(p, Buffer(count, true, Some(Splice(s.Contents(p), offset, bytes))));
    assert s'.Sized();
    if a / PGSIZE != p {
      assert s'.Buf(a / PGSIZE) == s.Buf(a / PGSIZE) && s'.DiskPage(a / PGSIZE) == s.DiskPage(a / PGSIZE);
    }
  }

  lemma SpliceValid(s: Store, p: nat, page: Page, count: int)
    requires s.Valid()
    ensures s.Set(p, Buffer(count, true, Some(page))).Valid()
  {
    hide Concat;
    var s' := s.Set(p, Buffer(count, true, Some(page)));
    assert s'.Sized();
    forall q: nat | s'.Buf(q).page.Some? && !s'.Buf(q).dirty ensures s'.Buf(q).page.value == s'.DiskPage(q) {
      assert s'.Buf(q) == s.Buf(q) && s'.DiskPage(q) == s.DiskPage(q);
    }
  }

  lemma SameBytes(s: Store, s': Store)
    requires s.Sized() && s'.Sized() && s'.Agrees(s)
    ensures forall a: nat :: s'.ByteAt(a) == s.ByteAt(a)
  {
    forall a: nat ensures s'.ByteAt(a) == s.ByteAt(a) {
      assert s'.Contents(a / PGSIZE) == s.Contents(a / PGSIZE);
    }
  }

  lemma PageBytes(s: Store, p: nat)
    requires s.Sized()
    ensures forall i: nat :: i < PGSIZE ==> s.ByteAt(p * PGSIZE + i) == s.Contents(p)[i]
  {
    forall i: nat | i < PGSIZE ensures s.ByteAt(p * PGSIZE + i) == s.Contents(p)[i] {
      assert (p * PGSIZE + i) / PGSIZE == p && (p * PGSIZE + i) % PGSIZE == i;
    }
  }

  class BufferCache {
    const lowMemory: bool
    var st: Store
    var chan: seq<nat>  // dirty buffers on their way to the flush task

    constructor (blockSize: nat, perPage: nat, blocks: map<nat, Block>, lowMemory: bool)
      requires perPage * blockSize == PGSIZE
      requires forall b :: b in blocks ==> |blocks[b]| == blockSize
      ensures st == Store(blockSize, perPage, blocks, map[]) && st.Valid() && chan == []
    {
      this.lowMemory := lowMemory;
      st, chan := Store(blockSize, perPage, blocks, map[]), [];
    }

    /** Reads the blocks of a page one by one. */
    method ReadPage(p: nat) returns (page: Page)
      requires st.Sized()
      ensures page == st.DiskPage(p)
    {
      var buf: seq<Byte> := [];
      for i := 0 to st.perPage
        invariant buf == Concat(st.blocks, st.blockSize, p * st.perPage, i)
      {
        buf := buf + BlockAt(st.blocks, st.blockSize, p * st.perPage + i);
      }
      page := buf;
    }

    method Get(p: nat)
      requires st.Valid()
      modifies this`st
      ensures st.Valid() && st.Agrees(old(st))
      ensures st == old(st).Set(p, old(st).Buf(p).(count := old(st).Buf(p).count + 1))
    {
      var b := st.Buf(p);
      SetKeeps(st, p, b.(count := b.count + 1));
      st := st.Set(p, b.(count := b.count + 1));
    }

    method Data(p: nat) returns (page: Page)
      requires st.Valid() && p in st.bufs
      modifies this`st
      ensures st.Valid() && st.Agrees(old(st)) && page == st.Contents(p)
      ensures st == old(st).Set(p, old(st).Buf(p).(page := Some(page)))
    {
      if st.bufs[p].page.None? {
        page := ReadPage(p);
        SetKeeps(st, p, st.bufs[p].(page := Some(page)));
        st := st.Set(p, st.bufs[p].(page := Some(page)));
      } else {
        page := st.bufs[p].page.value;
        assert st.bufs == st.bufs[p := st.bufs[p].(page := Some(page))];
      }
    }

    method Release(p: nat)
      requires st.Valid() && p in st.bufs
      modifies this`st, this`chan
      ensures st.Valid() && st.Agrees(old(st))
      ensures chan == old(chan) + if old(st).bufs[p].dirty then [p] else []
      ensures old(st).bufs[p].dirty ==> st == old(st)
      ensures !old(st).bufs[p].dirty ==>
                var b := old(st).bufs[p];
                st == old(st).Set(p, Buffer(b.count - 1, false, if lowMemory && b.count == 1 then None else b.page))
    {
      if st.bufs[p].dirty {
        chan := chan + [p];
        return;
      }
      var b := st.bufs[p];
      SetKeeps(st, p, OneFewer(b, lowMemory));
      st := st.Set(p, OneFewer(b, lowMemory));
    }

    /** Writes the page's blocks one by one and clears the flag. */
    method Flush(p: nat)
      requires st.Valid() && p in st.bufs
      modifies this`st
      ensures st.Valid() && st.Agrees(old(st))
      ensures st.bufs == old(st).bufs[p := old(st).bufs[p].(dirty := false)]
      ensures old(st).bufs[p].page.Some? ==> st.DiskPage(p) == old(st).bufs[p].page.value
    {
      var b := st.bufs[p];
      if b.page.Some? {
        var blocks := WritePage(p, b.page.value);
        FlushKeeps(st, p, blocks);
        st := st.(blocks := blocks);
      }
      SetKeeps(st, p, b.(dirty := false));
      st := st.Set(p, b.(dirty := false));
    }

    method WritePage(p: nat, page: Page) returns (blocks: map<nat, Block>)
      requires st.Sized()
      ensures st.(blocks := blocks).Sized() && st.(blocks := blocks).DiskPage(p) == page
      ensures forall q: nat :: q != p ==> st.(blocks := blocks).DiskPage(q) == st.DiskPage(q)
    {
      hide Concat;
      ConcatNone(st.blocks, st.blockSize, p * st.perPage);
      var first, n, size := p * st.perPage, st.perPage, st.blockSize;
      blocks := st.blocks;
      for i := 0 to n
        invariant i * size <= PGSIZE
        invariant forall b :: b in blocks ==> |blocks[b]| == size
        invariant Concat(blocks, size, first, i) == page[..i * size]
        invariant forall b: nat :: !(first <= b < first + n) ==> BlockAt(blocks, size, b) == BlockAt(st.blocks, size, b)
      {
        SliceBounds(i, n, size);
        var lo := i * size;
        ConcatStep(blocks, size, first, i, page[..lo], page[lo..lo + size]);
        blocks := blocks[first + i := page[lo..lo + size]];
        assert page[..lo] + page[lo..lo + size] == page[..lo + size];
      }
      assert page[..n * size] == page;
      forall q: nat | q != p ensures st.(blocks := blocks).DiskPage(q) == st.DiskPage(q) {
        OtherPage(st.blocks, blocks, size, n, p, q);
      }
    }

    method Reclaim(p: nat) returns (freed: nat)
      requires st.Valid() && p in st.bufs
      modifies this`st
      ensures st.Valid() && st.Agrees(old(st))
      ensures var b := old(st).bufs[p];
              freed == if b.count == 0 && b.page.Some? && !b.dirty then PGSIZE else 0
      ensures st == if freed == 0 then old(st) else old(st).Set(p, old(st).bufs[p].(page := None))
    {
      var b := st.bufs[p];
      if b.count == 0 && b.page.Some? && !b.dirty {
        SetKeeps(st, p, b.(page := None));
        st := st.Set(p, b.(page := None));
        return PGSIZE;
      }
      return 0;
    }

    /** One page of a transfer. */
    method AccessPage(blk: nat, offset: nat, bytes: seq<Byte>, write: bool) returns (got: seq<Byte>)
      requires st.Valid() && offset + |bytes| <= PGSIZE
      modifies this`st, this`chan
      ensures st.Valid()
      ensures |got| == |bytes|
      ensures forall i :: 0 <= i < |bytes| ==> got[i] == old(st).ByteAt(blk * PGSIZE + offset + i)
      ensures !write ==> forall a: nat :: st.ByteAt(a) == old(st).ByteAt(a)
      ensures write ==> forall a: nat :: st.ByteAt(a) == old(st).After(blk * PGSIZE + offset, bytes, a)
    {
      hide Store.ByteAt, Splice;
      Get(blk);
      var page := Data(blk);
      got := page[offset..offset + |bytes|];
      SameBytes(old(st), st);
      PageBytes(old(st), blk);
      ghost var s := st;
      if write {
        var page', count := Splice(page, offset, bytes), st.bufs[blk].count;
        SpliceValid(st, blk, page', count);
        st := st.Set(blk, Buffer(count, true, Some(page')));
        forall a: nat { SpliceBytes(s, blk, offset, bytes, count, a); }
      }
      s := st;
      Release(blk);
      SameBytes(s, st);
    }

    /** Reads or writes a range of bytes page by page.  A read returns the bytes of the flat
        view; a write replaces exactly its range of it. */
    method BlockRw(data: seq<Byte>, byteOffset: nat, write: bool) returns (dst: seq<Byte>)
      requires st.Valid()
      modifies this`st, this`chan
      ensures st.Valid()
      ensures !write ==> |dst| == |data| && forall a: nat :: st.ByteAt(a) == old(st).ByteAt(a)
      ensures !write ==> forall i :: 0 <= i < |data| ==> dst[i] == old(st).ByteAt(byteOffset + i)
      ensures write ==> forall a: nat :: st.ByteAt(a) == old(st).After(byteOffset, data, a)
    {
      hide Store.ByteAt;
      var done, offset, blk := 0, byteOffset % PGSIZE, byteOffset / PGSIZE;
      dst := [];
      while true
        invariant st.Valid() && 0 <= done <= |data| && 0 <= offset < PGSIZE
        invariant blk * PGSIZE + offset == byteOffset + done
        invariant !write ==> |dst| == done && forall a: nat :: st.ByteAt(a) == old(st).ByteAt(a)
        invariant !write ==> forall i :: 0 <= i < done ==> dst[i] == old(st).ByteAt(byteOffset + i)
        invariant write ==> forall a: nat :: st.ByteAt(a) == old(st).After(byteOffset, data[..done], a)
        decreases |data| - done
      {
        var spaceLeft := PGSIZE - offset;
        var canAccess := if spaceLeft < |data| - done then spaceLeft else |data| - done;
        var got := AccessPage(blk, offset, data[done..done + canAccess], write);
        dst := dst + got;
        offset, done, blk := 0, done + canAccess, blk + 1;
        if done >= |data| {
          assert data[..done] == data;
          break;
        }
      }
    }
  }

  lemma SliceBounds(i: nat, n: nat, size: nat)
    requires i < n && n * size == PGSIZE
    ensures i * size + size <= PGSIZE && (i + 1) * size == i * size + size
  {
    assert (i + 1) * size <= n * size;
  }

  lemma FlushKeeps(s: Store, p: nat, blocks: map<nat, Block>)
    requires s.Valid() && s.Buf(p).page.Some?
    requires s.(blocks := blocks).Sized() && s.(blocks := blocks).DiskPage(p) == s.Buf(p).page.value
    requires forall q: nat :: q != p ==> s.(blocks := blocks).DiskPage(q) == s.DiskPage(q)
    ensures s.(blocks := blocks).Valid() && s.(blocks := blocks).Agrees(s)
  {
    hide Concat;
    var s' := s.(blocks := blocks);
    forall q: nat ensures s'.Contents(q) == s.Contents(q) {
      assert s'.Buf(q) == s.Buf(q);
    }
    forall q: nat | s'.Buf(q).page.Some? && !s'.Buf(q).dirty ensures s'.Buf(q).page.value == s'.DiskPage(q) {
      assert s'.Buf(q) == s.Buf(q);
    }
  }
}
