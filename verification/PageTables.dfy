/** Four-level page tables built from frames of the physical allocator, over the user half
    of the address space (section 4.5 of the Intel 64 and IA-32 SDM, volume 3A).

    `tables` says which page holds the table for which part of the address space.  The
    refined view is a flat map from virtual page numbers to leaf entries. */
module PageTables {
  import opened PhysFrames

  const USER_PAGES: nat := 0x8_0000_0000  // 2^47 bytes of 4 KiB pages

  const FRAME_LIMIT: nat := 0x10_0000_0000_0000  // frame numbers fit in an entry

  /** The table of level `level` for virtual pages whose number, shifted right by
      `level + 1` indices, is `prefix`. */
  datatype Slot = Slot(level: nat, prefix: nat)

  type Tables = map<Slot, nat>

  /** The page number without its lowest `n` indices of nine bits. */
  function Shift(v: nat, n: nat): nat { if n == 0 then v else Shift(v, n - 1) / 512 }

  function Index(v: nat, level: nat): (i: nat)
    ensures i < 512
  {
    Shift(v, level) % 512
  }

  function SlotOf(v: nat, level: nat): Slot { Slot(level, Shift(v, level + 1)) }

  function Child(s: Slot, i: nat): Slot
    requires s.level > 0
  {
    Slot(s.level - 1, s.prefix * 512 + i)
  }

  function Present(e: Word): bool { e % 2 == 1 }

  function LargePage(e: Word): bool { (e / 128) % 2 == 1 }

  /** Present, writable, user. */
  function TableEntry(page: nat): Word
    requires page < FRAME_LIMIT
  {
    page * 4096 + 7
  }

  lemma UserRoot(v: nat)
    requires v < USER_PAGES
    ensures SlotOf(v, 3) == Slot(3, 0) && Index(v, 3) < 256
    ensures Shift(v, 1) == v / 512 && Shift(v, 2) == v / 512 / 512 && Shift(v, 3) == v / 512 / 512 / 512
  {
    assert Shift(v, 1) == v / 512;
    assert Shift(v, 2) == v / 512 / 512;
    assert Shift(v, 3) == v / 512 / 512 / 512;
  }

  lemma ChildOf(v: nat, level: nat)
    requires level > 0
    ensures Child(SlotOf(v, level), Index(v, level)) == SlotOf(v, level - 1)
  {
  }

  // -------------------------------------------------------------------------
  // The tables in memory

  ghost predicate IsTable(mem: map<nat, Page>, p: nat) {
    p in mem && mem[p].Words? && |mem[p].words| == 512
  }

  /** How many entries of a table belong to user space. */
  function UserEntries(level: nat): nat { if level == 3 then 272 else 512 }

  ghost predicate EntryOk(mem: map<nat, Page>, tables: Tables, s: Slot, i: nat)
    requires s in tables && IsTable(mem, tables[s]) && s.level > 0 && i < 512
  {
    if Child(s, i) in tables
    then tables[Child(s, i)] < FRAME_LIMIT && mem[tables[s]].words[i] == TableEntry(tables[Child(s, i)])
    else mem[tables[s]].words[i] == 0
  }

  ghost predicate SlotOk(tables: Tables, s: Slot) {
    && s in tables && tables[s] > 0
    && s.level <= 3 && (s.level == 3 ==> s.prefix == 0) && (s.level == 2 ==> s.prefix < 256)
    && (s.level < 3 ==> Slot(s.level + 1, s.prefix / 512) in tables)
  }

  ghost predicate Shape(root: nat, tables: Tables) {
    && Slot(3, 0) in tables && tables[Slot(3, 0)] == root
    && (forall s :: s in tables ==> SlotOk(tables, s))
    && (forall s, t :: s in tables && t in tables && s != t ==> tables[s] != tables[t])
  }

  ghost predicate Backed(mem: map<nat, Page>, tables: Tables) {
    forall s :: s in tables ==> IsTable(mem, tables[s])
  }

  ghost predicate Entries(mem: map<nat, Page>, tables: Tables)
    requires Backed(mem, tables)
  {
    forall s, i: nat :: s in tables && s.level > 0 && i < UserEntries(s.level) ==> EntryOk(mem, tables, s, i)
  }

  /** Every table is where its parent says, and parents have no other entries. */
  ghost predicate TreeOk(mem: map<nat, Page>, root: nat, tables: Tables) {
    Shape(root, tables) && Backed(mem, tables) && Entries(mem, tables)
  }

  /** The leaf entry for a virtual page; 0 where there is no table. */
  ghost function EntryAt(mem: map<nat, Page>, tables: Tables, v: nat): Word
    requires Backed(mem, tables)
  {
    var s := SlotOf(v, 0);
    if s in tables then mem[tables[s]].words[Index(v, 0)] else 0
  }

  ghost predicate Unshared(tables: Tables, free: set<nat>) {
    forall s :: s in tables ==> tables[s] !in free
  }

  function Stored(mem: map<nat, Page>, table: nat, i: nat, e: Word): map<nat, Page>
    requires table in mem && mem[table].Words? && i < |mem[table].words|
  {
    mem[table := Words(mem[table].words[i := e])]
  }

  lemma LinkShape(root: nat, tables: Tables, s: Slot, i: nat, page: nat)
    requires Shape(root, tables) && s in tables && 0 < s.level && i < 512 && (s.level == 3 ==> i < 256)
    requires Child(s, i) !in tables && page > 0 && forall t :: t in tables ==> tables[t] != page
    ensures Shape(root, tables[Child(s, i) := page])
  {
    var tables' := tables[Child(s, i) := page];
    forall t | t in tables' ensures SlotOk(tables', t) {
      if t in tables { assert SlotOk(tables, t); } else { assert SlotOk(tables, s); }
    }
  }

  /** A slot without a table has no tables below it. */
  lemma NothingBelow(root: nat, tables: Tables, c: Slot, j: nat)
    requires Shape(root, tables) && c !in tables && 0 < c.level <= 3 && j < 512
    ensures Child(c, j) !in tables
  {
    assert Slot(Child(c, j).level + 1, Child(c, j).prefix / 512) == c;
  }

  lemma SameChild(s: Slot, i: nat, t: Slot, j: nat)
    requires s.level > 0 && t.level > 0 && i < 512 && j < 512
    ensures Child(s, i) == Child(t, j) ==> s == t && i == j
    ensures Child(s, i) != s
  {
  }

  lemma LinkEntry(mem: map<nat, Page>, root: nat, tables: Tables, s: Slot, i: nat, page: nat, t: Slot, j: nat)
    requires TreeOk(mem, root, tables) && s in tables && 0 < s.level && i < 512
    requires Child(s, i) !in tables && page < FRAME_LIMIT && page in mem && mem[page] == ZeroPage()
    requires forall u :: u in tables ==> tables[u] != page
    requires t in tables[Child(s, i) := page] && t.level > 0 && j < UserEntries(t.level)
    ensures var mem', tables' := Stored(mem, tables[s], i, TableEntry(page)), tables[Child(s, i) := page];
            IsTable(mem', tables'[t]) && EntryOk(mem', tables', t, j)
  {
    hide TableEntry;
    var c := Child(s, i);
    SameChild(s, i, t, j);
    if t == c {
      assert SlotOk(tables, s);
      NothingBelow(root, tables, c, j);
      SameChild(c, j, c, j);
    } else {
      hide Child;
      assert EntryOk(mem, tables, t, j);
    }
  }

  /** Linking a fresh zeroed page below `s` changes no mapping. */
  lemma LinkTable(mem: map<nat, Page>, root: nat, tables: Tables, s: Slot, i: nat, page: nat)
    requires TreeOk(mem, root, tables) && s in tables && 0 < s.level && i < 512 && (s.level == 3 ==> i < 256)
    requires Child(s, i) !in tables && 0 < page < FRAME_LIMIT && page in mem && mem[page] == ZeroPage()
    requires forall u :: u in tables ==> tables[u] != page
    ensures var mem', tables' := Stored(mem, tables[s], i, TableEntry(page)), tables[Child(s, i) := page];
            && TreeOk(mem', root, tables')
            && forall v: nat :: EntryAt(mem', tables', v) == EntryAt(mem, tables, v)
  {
    hide TableEntry, EntryOk, SlotOk;
    var mem', tables' := Stored(mem, tables[s], i, TableEntry(page)), tables[Child(s, i) := page];
    LinkShape(root, tables, s, i, page);
    assert Backed(mem', tables');
    forall t, j: nat | t in tables' && t.level > 0 && j < UserEntries(t.level) ensures EntryOk(mem', tables', t, j) {
      LinkEntry(mem, root, tables, s, i, page, t, j);
    }
  }

  /** Writing a table of level 0 leaves all the entries of the others alone. */
  lemma LeafEntries(mem: map<nat, Page>, root: nat, tables: Tables, s: Slot, i: nat, e: Word)
    requires TreeOk(mem, root, tables) && s in tables && s.level == 0 && i < 512
    ensures TreeOk(Stored(mem, tables[s], i, e), root, tables)
  {
    hide SlotOk, TableEntry, Child;
    var mem' := Stored(mem, tables[s], i, e);
    assert Backed(mem', tables);
    forall t, j: nat | t in tables && t.level > 0 && j < UserEntries(t.level) ensures EntryOk(mem', tables, t, j) {
      assert EntryOk(mem, tables, t, j);
    }
  }

  /** Storing a leaf entry changes that mapping and no other. */
  lemma StoreLeaf(mem: map<nat, Page>, root: nat, tables: Tables, v: nat, e: Word)
    requires TreeOk(mem, root, tables) && SlotOf(v, 0) in tables
    ensures var mem' := Stored(mem, tables[SlotOf(v, 0)], Index(v, 0), e);
            && TreeOk(mem', root, tables) && EntryAt(mem', tables, v) == e
            && forall u: nat :: u != v ==> EntryAt(mem', tables, u) == EntryAt(mem, tables, u)
  {
    hide Shift, EntryOk, SlotOk, Index;
    LeafEntries(mem, root, tables, SlotOf(v, 0), Index(v, 0), e);
    forall u: nat { SamePage(u, v); }
  }

  lemma SamePage(u: nat, v: nat)
    ensures SlotOf(u, 0) == SlotOf(v, 0) && Index(u, 0) == Index(v, 0) ==> u == v
  {
    assert Shift(u, 1) == Shift(u, 0) / 512;
    assert Shift(v, 1) == Shift(v, 0) / 512;
  }

  /** Tables outside the changed pages stay tables. */
  lemma TreeFrame(mem: map<nat, Page>, mem': map<nat, Page>, root: nat, tables: Tables, pages: set<nat>)
    requires TreeOk(mem, root, tables) && KeptOutside(mem, mem', pages) && Unshared(tables, pages)
    ensures TreeOk(mem', root, tables)
    ensures forall v: nat :: EntryAt(mem', tables, v) == EntryAt(mem, tables, v)
  {
    hide SlotOk;
    assert Backed(mem', tables);
    forall t, j: nat | t in tables && t.level > 0 && j < UserEntries(t.level) ensures EntryOk(mem', tables, t, j) {
      assert EntryOk(mem, tables, t, j);
    }
  }

  /** Whether the bit of weight `m` is set. */
  predicate Bit(e: nat, m: nat)
    requires m > 0
  {
    (e / m) % 2 == 1
  }

  /** The bits below 4096 of an entry are those of its low part. */
  lemma LowBit(q: nat, low: nat, m: nat, n: nat)
    requires low < 4096 && m > 0 && n > 0 && 2 * m * n == 4096
    ensures Bit(q * 4096 + low, m) == Bit(low, m)
  {
    var x := q * 4096 + low;
    assert low == m * (low / m) + low % m;
    assert q * 4096 == m * (2 * (n * q));
    Divide(x, m, 2 * (n * q) + low / m, low % m);
    Divide(2 * (n * q) + low / m, 2, n * q + low / m / 2, (low / m) % 2);
  }

  lemma LowBits(q: nat, low: nat)
    requires low < 4096
    ensures var e := q * 4096 + low;
            && e / 4096 == q && e % 4096 == low
            && Bit(e, 1) == Bit(low, 1) && Bit(e, 2) == Bit(low, 2) && Bit(e, 4) == Bit(low, 4)
            && Bit(e, 8) == Bit(low, 8) && Bit(e, 64) == Bit(low, 64) && Bit(e, 128) == Bit(low, 128)
  {
    Divide(q * 4096 + low, 4096, q, low);
    LowBit(q, low, 1, 2048);
    LowBit(q, low, 2, 1024);
    LowBit(q, low, 4, 512);
    LowBit(q, low, 8, 256);
    LowBit(q, low, 64, 32);
    LowBit(q, low, 128, 16);
  }

  /** The entry for a table is present, writable and open to user code, and not a large page. */
  lemma TableEntryFacts(page: nat)
    requires page < FRAME_LIMIT
    ensures var e := TableEntry(page);
            && Present(e) && !LargePage(e) && e / 4096 == page
            && Bit(e, 1) && Bit(e, 2) && Bit(e, 4) && e % 4096 == 1 + 2 + 4
  {
    LowBits(page, 7);
  }

  lemma Divide(x: nat, d: nat, q: nat, r: nat)
    requires x == d * q + r && r < d
    ensures x / d == q && x % d == r
  {
    Steps(d, x / d, q);
    Steps(d, q, x / d);
  }

  lemma {:induction false} Steps(d: nat, a: nat, b: nat)
    ensures a < b ==> d * a + d <= d * b
  {
    if a + 1 < b {
      Steps(d, a, b - 1);
      assert d * b == d * (b - 1) + d;
    } else if a + 1 == b {
      assert d * b == d * a + d;
    }
  }

  /** What following an entry finds. */
  lemma FollowEntry(mem: map<nat, Page>, root: nat, tables: Tables, s: Slot, i: nat)
    requires TreeOk(mem, root, tables) && s in tables && 0 < s.level && i < UserEntries(s.level)
    ensures IsTable(mem, tables[s])
    ensures var e := mem[tables[s]].words[i];
            && (Present(e) <==> Child(s, i) in tables) && (e != 0 <==> Child(s, i) in tables)
            && (e != 0 ==> e / 4096 == tables[Child(s, i)] && !LargePage(e))
  {
    hide TableEntry;
    assert EntryOk(mem, tables, s, i);
    if Child(s, i) in tables { TableEntryFacts(tables[Child(s, i)]); }
  }

  lemma ValuesGrow(tables: Tables, s: Slot, page: nat)
    requires s !in tables
    ensures tables[s := page].Values == tables.Values + {page} && |tables[s := page]| == |tables| + 1
  {
    var t := tables[s := page];
    assert t[s] == page;
    forall x | x in tables.Values ensures x in t.Values {
      var y :| y in tables && tables[y] == x;
      assert t[y] == x;
    }
  }

  // -------------------------------------------------------------------------
  // Subtrees

  /** `t` is `s` or below it. */
  ghost predicate Under(t: Slot, s: Slot) {
    t.level <= s.level && Shift(t.prefix, s.level - t.level) == s.prefix
  }

  ghost function Below(tables: Tables, s: Slot): set<Slot> { set t | t in tables && Under(t, s) }

  /** The tables below the first `n` entries of `s`. */
  ghost function Covered(tables: Tables, s: Slot, n: nat): set<Slot> {
    set t | t in tables && t.level < s.level && Under(t, s) && Shift(t.prefix, s.level - 1 - t.level) % 512 < n
  }

  lemma {:induction false} AncestorThere(root: nat, tables: Tables, t: Slot, up: nat)
    requires Shape(root, tables) && t in tables && t.level + up <= 3
    ensures Slot(t.level + up, Shift(t.prefix, up)) in tables
  {
    if up > 0 {
      AncestorThere(root, tables, t, up - 1);
      assert SlotOk(tables, Slot(t.level + up - 1, Shift(t.prefix, up - 1)));
    }
  }

  lemma UnderChild(t: Slot, s: Slot, i: nat)
    requires s.level > 0 && i < 512
    ensures Under(t, Child(s, i)) <==>
              t.level < s.level && Under(t, s) && Shift(t.prefix, s.level - 1 - t.level) % 512 == i
  {
    if t.level < s.level {
      var q := Shift(t.prefix, s.level - 1 - t.level);
      assert Shift(t.prefix, s.level - t.level) == q / 512;
    }
  }

  lemma CoverStep(tables: Tables, s: Slot, i: nat)
    requires s.level > 0 && i < 512
    ensures Covered(tables, s, i + 1) == Covered(tables, s, i) + Below(tables, Child(s, i))
    ensures Below(tables, Child(s, i)) !! Covered(tables, s, i)
    ensures Below(tables, Child(s, i)) <= Below(tables, s) && s !in Below(tables, Child(s, i))
  {
    hide Under, Shift, Child;
    forall t | t in tables { UnderChild(t, s, i); }
    UnderChild(s, s, i);
  }

  lemma NoneBelow(root: nat, tables: Tables, c: Slot)
    requires Shape(root, tables) && c !in tables && c.level <= 3
    ensures Below(tables, c) == {}
  {
    hide Shape;
    forall t | t in tables ensures !Under(t, c) {
      if Under(t, c) { AncestorThere(root, tables, t, c.level - t.level); }
    }
  }

  lemma CoverAll(tables: Tables, s: Slot)
    requires s in tables
    ensures Below(tables, s) == Covered(tables, s, 512) + {s} && s !in Covered(tables, s, 512)
  {
    forall t | t in tables && Under(t, s) && t.level == s.level ensures t == s {
      assert Shift(t.prefix, 0) == t.prefix;
    }
    hide Shift;
    assert Under(s, s) by { SelfUnder(s); }
  }

  lemma SelfUnder(s: Slot)
    ensures Under(s, s)
  {
    assert Shift(s.prefix, 0) == s.prefix;
  }

  /** User tables hang off the first 272 entries of the root. */
  lemma CoverUser(root: nat, tables: Tables)
    requires Shape(root, tables)
    ensures Covered(tables, Slot(3, 0), 272) == Covered(tables, Slot(3, 0), 512)
  {
    var s := Slot(3, 0);
    forall t | t in tables && t.level < 3 ensures Shift(t.prefix, 2 - t.level) % 512 < 272 {
      AncestorThere(root, tables, t, 2 - t.level);
      assert SlotOk(tables, Slot(2, Shift(t.prefix, 2 - t.level)));
    }
    hide Shift, Shape, SlotOk;
  }

  /** Bookkeeping of a loop that frees what is below each entry of `s` in turn. */
  lemma CoverLoop(root: nat, tables: Tables, s: Slot, i: nat, live: set<Slot>, rest: set<Slot>)
    requires Shape(root, tables) && s in tables && 0 < s.level <= 3 && i < 512
    requires Below(tables, s) <= live && rest == live - Covered(tables, s, i)
    ensures s in rest && Below(tables, Child(s, i)) <= rest
    ensures rest - Below(tables, Child(s, i)) == live - Covered(tables, s, i + 1)
    ensures Child(s, i) !in tables ==> rest == live - Covered(tables, s, i + 1)
  {
    CoverStep(tables, s, i);
    if Child(s, i) !in tables { NoneBelow(root, tables, Child(s, i)); }
    SelfUnder(s);
    hide Under, Shape, Child;
  }

  lemma AllBelowRoot(root: nat, tables: Tables)
    requires Shape(root, tables)
    ensures Below(tables, Slot(3, 0)) == tables.Keys
  {
    forall t | t in tables ensures Under(t, Slot(3, 0)) {
      assert SlotOk(tables, t);
      AncestorThere(root, tables, t, 3 - t.level);
      assert SlotOk(tables, Slot(3, Shift(t.prefix, 3 - t.level)));
    }
  }

  // -------------------------------------------------------------------------
  // Leaf entries

  datatype Pte = Pte(ppn: nat, read: bool, write: bool, exec: bool, writethrough: bool, nocache: bool)

  /** The entry add_mapping stores for a user page.  The no-execute flag is bit 63; it is
      collected in an int and passed on as 16 bits, so it never arrives. */
  function Encode(p: Pte): Word {
    (p.ppn % FRAME_LIMIT) * 4096 + 1 + 4
    + (if p.write then 2 else 0)
    + (if p.nocache then 0x40 else 0)
    + (if p.writethrough then 8 else 0)
  }

  function Decode(e: Word): Pte {
    Pte(e / 4096, true, (e / 2) % 2 == 1, e < 0x8000_0000_0000_0000, false, false)
  }

  /** The frame number and write permission come back; execute permission is always
      granted, whatever was asked for.  A page that is not mapped reads as frame 0. */
  lemma EncodeDecode(p: Pte)
    ensures Decode(Encode(p)).ppn == p.ppn <==> p.ppn < FRAME_LIMIT
    ensures Decode(Encode(p)).write == p.write && Decode(Encode(p)).read
    ensures p.ppn < FRAME_LIMIT / 2 ==> (Decode(Encode(p)).exec == p.exec <==> p.exec)
    ensures !Decode(Encode(p)).writethrough && !Decode(Encode(p)).nocache
    ensures Decode(0) == Pte(0, true, false, true, false, false)
  {
    EncodedBits(p);
  }

  /** The low bits a processor reads in a leaf entry (table 4-20 of the SDM): bit 0 present,
      1 writable, 2 user, 3 write-through, 6 dirty, which the source sets for uncached pages. */
  ghost predicate LeafBits(e: Word, p: Pte) {
    && Bit(e, 1) && Bit(e, 4)
    && (Bit(e, 2) <==> p.write) && (Bit(e, 8) <==> p.writethrough) && (Bit(e, 64) <==> p.nocache)
    && !Bit(e, 16) && !Bit(e, 32) && !Bit(e, 128) && !Bit(e, 256) && !Bit(e, 512) && !Bit(e, 1024) && !Bit(e, 2048)
    && e / 4096 == p.ppn % FRAME_LIMIT
  }

  function LeafLow(p: Pte): nat {
    1 + 4 + (if p.write then 2 else 0) + (if p.nocache then 0x40 else 0) + (if p.writethrough then 8 else 0)
  }

  lemma LeafLowBits(p: Pte)
    ensures var e := LeafLow(p);
            && e < 4096 && Bit(e, 1) && Bit(e, 4)
            && (Bit(e, 2) <==> p.write) && (Bit(e, 8) <==> p.writethrough) && (Bit(e, 64) <==> p.nocache)
            && !Bit(e, 16) && !Bit(e, 32) && !Bit(e, 128) && !Bit(e, 256) && !Bit(e, 512) && !Bit(e, 1024)
            && !Bit(e, 2048)
  {
  }

  lemma EncodedBits(p: Pte)
    ensures LeafBits(Encode(p), p)
  {
    hide Bit;
    var q, low := p.ppn % FRAME_LIMIT, LeafLow(p);
    LeafLowBits(p);
    assert Encode(p) == q * 4096 + low;
    hide LeafLow;
    LowBits(q, low);
    LowBit(q, low, 16, 128);
    LowBit(q, low, 32, 64);
    LowBit(q, low, 256, 8);
    LowBit(q, low, 512, 4);
    LowBit(q, low, 1024, 2);
    LowBit(q, low, 2048, 1);
  }

  // -------------------------------------------------------------------------
  // What the processor sees

  const PHYSICAL: nat := 0x100_0000_0000  // frames of 52-bit physical addresses

  /** The outcome of a translation and what the page may be used for. */
  datatype Access = Fault | Granted(frame: nat, write: bool, user: bool, exec: bool)

  /** One entry: the frame in bits 12 to 51, and bit 63 against execution. */
  function Grant(e: Word): Access {
    if !Bit(e, 1) then Fault
    else Granted((e / 4096) % PHYSICAL, Bit(e, 2), Bit(e, 4), !Bit(e, 0x8000_0000_0000_0000))
  }

  /** A right must be granted at every level. */
  function Both(a: Access, b: Access): Access {
    if a.Fault? || b.Fault? then Fault
    else Granted(b.frame, a.write && b.write, a.user && b.user, a.exec && b.exec)
  }

  /** The entry a processor takes from a table page. */
  ghost function EntryIn(mem: map<nat, Page>, table: nat, i: nat): Word {
    if IsTable(mem, table) && i < 512 then mem[table].words[i] else 0
  }

  /** Translation of a virtual page by four-level paging (section 4.5.4 of the SDM): bits
      47 to 39, 38 to 30, 29 to 21 and 20 to 12 of the address index the tables in turn. */
  ghost function Translate(mem: map<nat, Page>, root: nat, v: nat): Access {
    var a := Grant(EntryIn(mem, root, v / 0x800_0000 % 512));
    if a.Fault? then Fault else
    var b := Both(a, Grant(EntryIn(mem, a.frame, v / 0x4_0000 % 512)));
    if b.Fault? then Fault else
    var c := Both(b, Grant(EntryIn(mem, b.frame, v / 0x200 % 512)));
    if c.Fault? then Fault else
    Both(c, Grant(EntryIn(mem, c.frame, v % 512)))
  }

  lemma HighBit(e: nat)
    requires e < 0x8000_0000_0000_0000
    ensures !Bit(e, 0x8000_0000_0000_0000)
  {
    Divide(e, 0x8000_0000_0000_0000, 0, e);
  }

  lemma TableGrants(page: nat)
    requires page < PHYSICAL
    ensures Grant(TableEntry(page)) == Granted(page, true, true, true)
  {
    hide Bit;
    TableEntryFacts(page);
    HighBit(TableEntry(page));
    Divide(page, PHYSICAL, 0, page);
  }

  /** One level: the processor goes where the walk of the source goes. */
  lemma LevelGrants(mem: map<nat, Page>, root: nat, tables: Tables, v: nat, i: nat)
    requires TreeOk(mem, root, tables) && v < USER_PAGES && 0 < i <= 3 && SlotOf(v, i) in tables
    requires forall s :: s in tables ==> tables[s] < PHYSICAL
    ensures Grant(EntryIn(mem, tables[SlotOf(v, i)], Index(v, i))) ==
              if SlotOf(v, i - 1) in tables then Granted(tables[SlotOf(v, i - 1)], true, true, true) else Fault
  {
    hide TableEntry, SlotOf, Index;
    UserWalk(v, i);
    ChildOf(v, i);
    assert EntryOk(mem, tables, SlotOf(v, i), Index(v, i));
    if SlotOf(v, i - 1) in tables { TableGrants(tables[SlotOf(v, i - 1)]); }
  }

  lemma Indices(v: nat)
    ensures Index(v, 0) == v % 512 && Index(v, 1) == v / 0x200 % 512
    ensures Index(v, 2) == v / 0x4_0000 % 512 && Index(v, 3) == v / 0x800_0000 % 512
  {
    assert Shift(v, 0) == v;
    assert Shift(v, 1) == v / 512;
    assert Shift(v, 2) == v / 512 / 512;
    assert Shift(v, 3) == v / 512 / 512 / 512;
  }

  /** A table that is missing on the way down leaves the page without an entry. */
  lemma NoTableNoLeaf(root: nat, tables: Tables, v: nat, i: nat)
    requires Shape(root, tables) && v < USER_PAGES && i <= 3 && SlotOf(v, i) !in tables
    ensures SlotOf(v, 0) !in tables
    decreases i
  {
    if i > 0 {
      ChildOf(v, i);
      assert Child(SlotOf(v, i), Index(v, i)) in tables ==> SlotOf(v, i) in tables by {
        NothingBelow(root, tables, SlotOf(v, i), Index(v, i));
      }
      NoTableNoLeaf(root, tables, v, i - 1);
    }
  }

  /** Whatever the tables went through, the processor finds exactly the leaf entry of each
      user page, and the tables above take away none of its rights. */
  lemma Translates(mem: map<nat, Page>, root: nat, tables: Tables, v: nat)
    requires TreeOk(mem, root, tables) && v < USER_PAGES
    requires forall s :: s in tables ==> tables[s] < PHYSICAL
    ensures Translate(mem, root, v) == Grant(EntryAt(mem, tables, v))
  {
    hide TableEntry, SlotOf, Index, Shape, Entries, Grant;
    RootSlot(mem, root, tables, v);
    Indices(v);
    LevelGrants(mem, root, tables, v, 3);
    if SlotOf(v, 2) !in tables {
      NoTableNoLeaf(root, tables, v, 2);
    } else {
      LevelGrants(mem, root, tables, v, 2);
      if SlotOf(v, 1) !in tables {
        NoTableNoLeaf(root, tables, v, 1);
      } else {
        LevelGrants(mem, root, tables, v, 1);
      }
    }
    ZeroFaults();
  }

  lemma ZeroFaults()
    ensures Grant(0) == Fault
  {
  }

  /** What an added mapping lets user code do: it reads the frame, writes if asked for, and
      may always execute. */
  lemma MappingGrants(p: Pte)
    ensures Grant(Encode(p)) == Granted(p.ppn % PHYSICAL, p.write, true, p.ppn % FRAME_LIMIT < FRAME_LIMIT / 2)
  {
    EncodedBits(p);
    var e, q := Encode(p), p.ppn % FRAME_LIMIT;
    assert e == 4096 * q + e % 4096;
    var half := FRAME_LIMIT / 2;
    Divide(e, 0x8000_0000_0000_0000, q / half, (q % half) * 4096 + e % 4096);
    Divide(p.ppn, PHYSICAL, p.ppn / FRAME_LIMIT * (FRAME_LIMIT / PHYSICAL) + q / PHYSICAL, q % PHYSICAL);
  }

  datatype MapOp = Add(v: nat, p: Pte) | Get(v: nat) | Del(v: nat)

  /** The entry at `v` after `ops`, if it was `e` before: the last one stored there. */
  function After(ops: seq<MapOp>, v: nat, e: Word): Word {
    if ops == [] then e else
    match ops[|ops| - 1]
    case Add(u, p) => if u == v then Encode(p) else After(ops[..|ops| - 1], v, e)
    case Del(u) => if u == v then 0 else After(ops[..|ops| - 1], v, e)
    case Get(_) => After(ops[..|ops| - 1], v, e)
  }

  lemma AfterNone(ops: seq<MapOp>, v: nat, e: Word)
    ensures After(ops[..0], v, e) == e
  {
  }

  lemma AfterStep(ops: seq<MapOp>, n: nat, v: nat, e: Word)
    requires n < |ops|
    ensures After(ops[..n + 1], v, e) ==
              match ops[n]
              case Add(u, p) => if u == v then Encode(p) else After(ops[..n], v, e)
              case Del(u) => if u == v then 0 else After(ops[..n], v, e)
              case Get(_) => After(ops[..n], v, e)
  {
    assert ops[..n + 1][..n] == ops[..n];
  }

  class PageTable {
    const k: Kmem
    const root: nat
    ghost var tables: Tables

    ghost predicate Valid()
      reads this, k
    {
      && k.Valid() && TreeOk(k.mem, root, tables) && Unshared(tables, k.Free())
      && forall p :: p in k.Free() ==> p < FRAME_LIMIT
    }

    /** The mapping of a virtual page. */
    ghost function Entry(v: nat): Word
      requires Valid()
      reads this, k
    {
      EntryAt(k.mem, tables, v)
    }

    /** All the pages that are free or hold tables. */
    ghost function Pool(): set<nat>
      reads this, k
    {
      k.Free() + tables.Values
    }

    twostate predicate Conserved()
      reads this, k
    {
      Pool() == old(Pool()) && k.nfree + |tables| == old(k.nfree + |tables|)
    }

    /** Every table is within reach of a 52-bit physical address. */
    ghost predicate Addressable()
      reads this
    {
      forall s :: s in tables ==> tables[s] < PHYSICAL
    }

    /** The processor sees exactly the mappings. */
    lemma Translated(v: nat)
      requires Valid() && Addressable() && v < USER_PAGES
      ensures Translate(k.mem, root, v) == Grant(Entry(v))
    {
      hide Translate, TreeOk, EntryAt, Grant;
      Translates(k.mem, root, tables, v);
    }

    twostate predicate SameMappings()
      requires old(Valid()) && Valid()
      reads this, k
    {
      forall v: nat :: Entry(v) == old(Entry(v))
    }

    /** A new table over the zeroed page `root`, with the kernel's half copied up to its
        first empty entry. */
    constructor (k: Kmem, root: nat, kernel: seq<Word>)
      requires k.Valid() && root > 0 && root !in k.Free() && root in k.mem && k.mem[root] == ZeroPage()
      requires |kernel| == 512 && forall p :: p in k.Free() ==> p < FRAME_LIMIT
      modifies k`mem
      ensures this.k == k && this.root == root && tables == map[Slot(3, 0) := root]
      ensures Valid() && forall v: nat :: Entry(v) == 0
      ensures k.Free() == old(k.Free()) && k.nfree == old(k.nfree)
      ensures forall i :: 272 <= i < 512 && (forall j :: 272 <= j <= i ==> kernel[j] != 0) ==>
                k.mem[root].words[i] == kernel[i]
    {
      this.k, this.root, tables := k, root, map[Slot(3, 0) := root];
      new;
      hide PagesOf, Sum, Linked, Sound, TreeOk, EntryAt;
      ghost var mem0 := k.mem;
      var i := 272;
      while i < 512 && kernel[i] != 0
        invariant 272 <= i <= 512 && k.Valid() && KeptOutside(mem0, k.mem, {root}) && k.runs == old(k.runs)
        invariant k.nfree == old(k.nfree)
        invariant IsTable(k.mem, root) && forall j :: 0 <= j < 272 ==> k.mem[root].words[j] == 0
        invariant forall j :: 272 <= j < i ==> kernel[j] != 0 && k.mem[root].words[j] == kernel[j]
        modifies k`mem
      {
        ghost var mem1 := k.mem;
        k.mem := Stored(k.mem, root, i, kernel[i]);
        TableWrite(mem1, k.mem, k.freelist, k.runs, root);
        i := i + 1;
      }
      RootOnly(k.mem, root);
    }

    /** One level of the walk; makes the missing table. */
    method Descend(v: nat, i: nat, table: nat) returns (ok: bool, next: nat)
      requires Valid() && v < USER_PAGES && 0 < i <= 3
      requires SlotOf(v, i) in tables && tables[SlotOf(v, i)] == table
      modifies this`tables, k
      ensures ok ==> Valid() && SlotOf(v, i - 1) in tables && tables[SlotOf(v, i - 1)] == next
      ensures ok ==> SameMappings() && Conserved()
      ensures ok ==> k.nfree >= old(k.nfree) - 1
      ensures old(k.nfree) > 0 ==> ok
    {
      hide Index, SlotOf, TreeOk, EntryAt, Child, TableEntry, PagesOf, Present, Sum, Sound, Linked, KeptOutside,
        ZeroPage;
      ghost var s := SlotOf(v, i);
      var ind := Index(v, i);
      UserWalk(v, i);
      ChildOf(v, i);
      FollowEntry(k.mem, root, tables, s, ind);
      if Present(k.mem[table].words[ind]) {
        return true, k.mem[table].words[ind] / 4096;
      }
      FreeRuns(k.runs);
      ghost var fits := k.runs == [] || k.runs[0].len >= 1;
      var r := k.Alloc(1);
      assert fits;
      if !r.Allocated? { return false, 0; }
      ghost var mem1 := k.mem;
      OnePage(r.page);
      LinkFresh(old(k.mem), mem1, root, tables, old(k.Free()), s, ind, r.page);
      ValuesGrow(tables, SlotOf(v, i - 1), r.page);
      k.mem := Stored(k.mem, table, ind, TableEntry(r.page));
      tables := tables[SlotOf(v, i - 1) := r.page];
      TableWrite(mem1, k.mem, k.freelist, k.runs, table);
      return true, r.page;
    }

    /** The walk down to the table holding the leaf entry.  It may allocate tables, but
        changes no mapping. */
    method FindMapping(v: nat) returns (ok: bool, table: nat)
      requires Valid() && v < USER_PAGES
      modifies this`tables, k
      ensures ok ==> Valid() && SlotOf(v, 0) in tables && tables[SlotOf(v, 0)] == table
      ensures ok ==> SameMappings() && Conserved() && k.nfree >= old(k.nfree) - 3
      ensures old(k.nfree) >= 3 ==> ok
    {
      hide TreeOk, EntryAt, Shift, PagesOf, Sum, Sound, Linked, Unshared;
      table := root;
      RootSlot(k.mem, root, tables, v);
      var i := 3;
      while i > 0
        invariant 0 <= i <= 3 && Valid() && SlotOf(v, i) in tables && tables[SlotOf(v, i)] == table
        invariant SameMappings() && Conserved() && k.nfree >= old(k.nfree) - (3 - i)
      {
        ok, table := Descend(v, i, table);
        if !ok { return; }
        i := i - 1;
      }
      ok := true;
    }

    method Store(v: nat, e: Word) returns (ok: bool)
      requires Valid() && v < USER_PAGES
      modifies this`tables, k
      ensures ok ==> Valid() && Conserved() && Entry(v) == e
      ensures (old(k.nfree) >= 3 ==> ok) && (ok ==> k.nfree >= old(k.nfree) - 3)
      ensures ok ==> forall u: nat :: u != v ==> Entry(u) == old(Entry(u))
    {
      hide Shape, Entries, EntryAt, Shift, PagesOf, Sum, Sound, Linked;
      var table;
      ok, table := FindMapping(v);
      if !ok { return; }
      ghost var mem1 := k.mem;
      StoreLeaf(k.mem, root, tables, v, e);
      k.mem := Stored(k.mem, table, Index(v, 0), e);
      TableWrite(mem1, k.mem, k.freelist, k.runs, table);
    }

    method AddMapping(v: nat, p: Pte) returns (ok: bool)
      requires Valid() && v < USER_PAGES
      modifies this`tables, k
      ensures ok ==> Valid() && Conserved() && Entry(v) == Encode(p) && LeafBits(Entry(v), p)
      ensures ok && Addressable() ==>
                var exec := p.ppn % FRAME_LIMIT < FRAME_LIMIT / 2;
                Translate(k.mem, root, v) == Granted(p.ppn % PHYSICAL, p.write, true, exec)
      ensures (old(k.nfree) >= 3 ==> ok) && (ok ==> k.nfree >= old(k.nfree) - 3)
      ensures ok ==> forall u: nat :: u != v ==> Entry(u) == old(Entry(u))
    {
      hide Valid, Encode, LeafBits, Grant, Translate;
      EncodedBits(p);
      MappingGrants(p);
      ok := Store(v, Encode(p));
      if ok && Addressable() { Translated(v); }
    }

    method DelMapping(v: nat) returns (ok: bool)
      requires Valid() && v < USER_PAGES
      modifies this`tables, k
      ensures ok ==> Valid() && Conserved() && Entry(v) == 0
      ensures ok && Addressable() ==> Translate(k.mem, root, v) == Fault
      ensures (old(k.nfree) >= 3 ==> ok) && (ok ==> k.nfree >= old(k.nfree) - 3)
      ensures ok ==> forall u: nat :: u != v ==> Entry(u) == old(Entry(u))
    {
      hide Valid, Translate;
      ok := Store(v, 0);
      if ok && Addressable() { Translated(v); }
    }

    method GetMapping(v: nat) returns (ok: bool, p: Pte)
      requires Valid() && v < USER_PAGES
      modifies this`tables, k
      ensures ok ==> Valid() && Conserved() && p == Decode(Entry(v))
      ensures (old(k.nfree) >= 3 ==> ok) && (ok ==> k.nfree >= old(k.nfree) - 3)
      ensures ok ==> forall u: nat :: Entry(u) == old(Entry(u))
    {
      hide Shape, Entries, Shift, PagesOf, Sum, Sound, Linked;
      var table;
      ok, table := FindMapping(v);
      p := if ok then Decode(k.mem[table].words[Index(v, 0)]) else Pte(0, false, false, false, false, false);
    }

    /** Any sequence of operations: every address maps to what was last stored there, and
        every lookup returns it. */
    method Apply(ops: seq<MapOp>) returns (ok: bool, found: seq<Pte>)
      requires Valid() && forall i :: 0 <= i < |ops| ==> ops[i].v < USER_PAGES
      modifies this`tables, k
      ensures old(k.nfree) >= 3 * |ops| ==> ok
      ensures ok ==> Valid() && Conserved() && |found| == |ops|
      ensures ok ==> forall v: nat :: Entry(v) == After(ops, v, old(Entry(v)))
      ensures ok ==> forall i :: 0 <= i < |ops| && ops[i].Get? ==>
                found[i] == Decode(After(ops[..i], ops[i].v, old(Entry(ops[i].v))))
    {
      hide Valid, Entry, Encode, Decode, After, PagesOf;
      found, ok := [], true;
      forall v: nat { AfterNone(ops, v, Entry(v)); }
      for n := 0 to |ops|
        invariant Valid() && Conserved() && |found| == n && k.nfree >= old(k.nfree) - 3 * n && ok
        invariant forall v: nat :: Entry(v) == After(ops[..n], v, old(Entry(v)))
        invariant forall i :: 0 <= i < n && ops[i].Get? ==>
          found[i] == Decode(After(ops[..i], ops[i].v, old(Entry(ops[i].v))))
      {
        var p := Pte(0, false, false, false, false, false);
        match ops[n] {
          case Add(v, q) => ok := AddMapping(v, q);
          case Del(v) => ok := DelMapping(v);
          case Get(v) => ok, p := GetMapping(v);
        }
        if !ok { return; }
        found := found + [p];
        forall v: nat ensures Entry(v) == After(ops[..n + 1], v, old(Entry(v))) {
          AfterStep(ops, n, v, old(Entry(v)));
        }
      }
      assert ops[..|ops|] == ops;
    }

    // ------------------------------------------------------------------ destruction

    /** While tables are being freed: those in `live` are as they were in `mem0`, the
        others are free. */
    ghost predicate Tearing(mem0: map<nat, Page>, live: set<Slot>, free0: set<nat>, nfree0: nat)
      reads this, k
    {
      && TreeOk(mem0, root, tables) && live <= tables.Keys && k.Valid()
      && (forall s :: s in live ==> tables[s] in k.mem && k.mem[tables[s]] == mem0[tables[s]] && tables[s] !in k.Free())
      && k.Free() == free0 + (set s | s in tables.Keys - live :: tables[s])
      && k.nfree + |live| == nfree0 + |tables|
    }

    lemma Alive(mem0: map<nat, Page>, live: set<Slot>, free0: set<nat>, nfree0: nat, s: Slot)
      requires Tearing(mem0, live, free0, nfree0) && s in live
      ensures s in tables && TreeOk(mem0, root, tables) && Shape(root, tables)
      ensures tables[s] in k.mem && k.mem[tables[s]] == mem0[tables[s]]
    {
    }

    method FreePage(page: nat, ghost s: Slot, ghost mem0: map<nat, Page>, ghost live: set<Slot>,
                    ghost free0: set<nat>, ghost nfree0: nat)
      requires Tearing(mem0, live, free0, nfree0) && s in live && page == tables[s]
      modifies k
      ensures Tearing(mem0, live - {s}, free0, nfree0)
    {
      hide PagesOf, Sum, Sound, Linked, TreeOk;
      OnePage(page);
      TreePages(mem0, root, tables, s);
      k.Release(page, 1);
      GoneStep(tables, live, s);
    }

    method FreeP2(page: nat, ghost s: Slot, ghost mem0: map<nat, Page>, ghost live: set<Slot>,
                  ghost free0: set<nat>, ghost nfree0: nat) returns (ghost rest: set<Slot>)
      requires Tearing(mem0, live, free0, nfree0) && s in tables && page == tables[s] && s.level == 1
      requires Below(tables, s) <= live
      modifies k
      ensures rest == live - Below(tables, s) && Tearing(mem0, rest, free0, nfree0)
    {
      hide Tearing, TreeOk, Shape, Below, Covered, Present, LargePage, Child;
      CoverNone(tables, s);
      CoverAll(tables, s);
      rest := live;
      Alive(mem0, live, free0, nfree0, s);
      for i := 0 to 512
        invariant Tearing(mem0, rest, free0, nfree0) && rest == live - Covered(tables, s, i)
      {
        CoverLoop(root, tables, s, i, live, rest);
        Alive(mem0, rest, free0, nfree0, s);
        FollowEntry(mem0, root, tables, s, i);
        var e := k.mem[page].words[i];
        if e != 0 {
          BelowLeaf(tables, s, i);
          if !Present(e) { continue; }
          // large pages and tables are freed alike
          FreePage(e / 4096, Child(s, i), mem0, rest, free0, nfree0);
          rest := rest - {Child(s, i)};
        }
      }
      FreePage(page, s, mem0, rest, free0, nfree0);
      rest := rest - {s};
    }

    method FreeP3(page: nat, ghost s: Slot, ghost mem0: map<nat, Page>, ghost live: set<Slot>,
                  ghost free0: set<nat>, ghost nfree0: nat) returns (ghost rest: set<Slot>)
      requires Tearing(mem0, live, free0, nfree0) && s in tables && page == tables[s] && s.level == 2
      requires Below(tables, s) <= live
      modifies k
      ensures rest == live - Below(tables, s) && Tearing(mem0, rest, free0, nfree0)
    {
      hide Tearing, TreeOk, Shape, Below, Covered, Present, LargePage, Child;
      CoverNone(tables, s);
      CoverAll(tables, s);
      rest := live;
      Alive(mem0, live, free0, nfree0, s);
      for i := 0 to 512
        invariant Tearing(mem0, rest, free0, nfree0) && rest == live - Covered(tables, s, i)
      {
        CoverLoop(root, tables, s, i, live, rest);
        Alive(mem0, rest, free0, nfree0, s);
        FollowEntry(mem0, root, tables, s, i);
        ChildLevel(s, i);
        var e := k.mem[page].words[i];
        if e != 0 && Present(e) {
          rest := FreeP2(e / 4096, Child(s, i), mem0, rest, free0, nfree0);
        }
      }
      FreePage(page, s, mem0, rest, free0, nfree0);
      rest := rest - {s};
    }

    /** Frees every table, and nothing else, back to the allocator. */
    method FreeTable()
      requires Valid()
      modifies k
      ensures k.Valid() && k.Free() == old(Pool()) && k.nfree == old(k.nfree + |tables|)
    {
      hide Valid, Tearing, TreeOk, Shape, Below, Covered, Present, Child, PagesOf;
      ghost var mem0, free0, nfree0 := k.mem, k.Free(), k.nfree;
      ghost var s, rest := Slot(3, 0), tables.Keys;
      TearStart();
      CoverNone(tables, s);
      CoverAll(tables, s);
      CoverUser(root, tables);
      AllBelowRoot(root, tables);
      Alive(mem0, rest, free0, nfree0, s);
      for i := 0 to 272
        invariant Tearing(mem0, rest, free0, nfree0) && rest == tables.Keys - Covered(tables, s, i)
      {
        CoverLoop(root, tables, s, i, tables.Keys, rest);
        Alive(mem0, rest, free0, nfree0, s);
        FollowEntry(mem0, root, tables, s, i);
        ChildLevel(s, i);
        var e := k.mem[root].words[i];
        if e != 0 {
          rest := FreeP3(e / 4096, Child(s, i), mem0, rest, free0, nfree0);
        }
      }
      FreePage(root, s, mem0, rest, free0, nfree0);
      assert rest - {s} == {};
      TearEnd(mem0, free0, nfree0);
    }

    lemma TearStart()
      requires Valid()
      ensures Tearing(k.mem, tables.Keys, k.Free(), k.nfree)
      ensures Shape(root, tables) && Slot(3, 0) in tables && tables[Slot(3, 0)] == root
    {
      hide PagesOf, Sum, Sound, Linked, Entries;
      assert tables.Keys - tables.Keys == {};
    }

    lemma TearEnd(mem0: map<nat, Page>, free0: set<nat>, nfree0: nat)
      requires Tearing(mem0, {}, free0, nfree0)
      ensures k.Valid() && k.Free() == free0 + tables.Values && k.nfree == nfree0 + |tables|
    {
      hide PagesOf, Sum, Sound, Linked, TreeOk;
      assert (set t | t in tables.Keys - {} :: tables[t]) == tables.Values;
    }
  }

  lemma ChildLevel(s: Slot, i: nat)
    requires s.level > 0
    ensures Child(s, i).level == s.level - 1
  {
  }

  lemma CoverNone(tables: Tables, s: Slot)
    ensures Covered(tables, s, 0) == {}
  {
  }

  lemma BelowLeaf(tables: Tables, s: Slot, i: nat)
    requires s.level == 1 && Child(s, i) in tables
    ensures Below(tables, Child(s, i)) == {Child(s, i)}
  {
    CoverAll(tables, Child(s, i));
  }

  lemma TreePages(mem: map<nat, Page>, root: nat, tables: Tables, s: Slot)
    requires TreeOk(mem, root, tables) && s in tables
    ensures tables[s] > 0 && forall t :: t in tables && t != s ==> tables[t] != tables[s]
  {
    assert SlotOk(tables, s);
  }

  lemma GoneStep(tables: Tables, live: set<Slot>, s: Slot)
    requires s in live && live <= tables.Keys
    ensures (set t | t in tables.Keys - (live - {s}) :: tables[t])
         == (set t | t in tables.Keys - live :: tables[t]) + {tables[s]}
    ensures |live - {s}| == |live| - 1
  {
    assert tables.Keys - (live - {s}) == (tables.Keys - live) + {s};
  }

  lemma RootSlot(mem: map<nat, Page>, root: nat, tables: Tables, v: nat)
    requires TreeOk(mem, root, tables) && v < USER_PAGES
    ensures SlotOf(v, 3) in tables && tables[SlotOf(v, 3)] == root
  {
    UserRoot(v);
  }

  lemma RootOnly(mem: map<nat, Page>, root: nat)
    requires root > 0 && IsTable(mem, root) && forall j :: 0 <= j < 272 ==> mem[root].words[j] == 0
    ensures TreeOk(mem, root, map[Slot(3, 0) := root])
    ensures forall v: nat :: EntryAt(mem, map[Slot(3, 0) := root], v) == 0
  {
    var tables := map[Slot(3, 0) := root];
    assert SlotOk(tables, Slot(3, 0));
    forall s, i: nat | s in tables && s.level > 0 && i < UserEntries(s.level) ensures EntryOk(mem, tables, s, i) {
      assert Child(s, i).level == 2;
    }
  }

  /** A fresh page from the allocator, linked below `s`. */
  lemma LinkFresh(mem: map<nat, Page>, mem1: map<nat, Page>, root: nat, tables: Tables, free: set<nat>,
                  s: Slot, i: nat, page: nat)
    requires TreeOk(mem, root, tables) && Unshared(tables, free) && KeptOutside(mem, mem1, free)
    requires s in tables && 0 < s.level && i < 512 && (s.level == 3 ==> i < 256)
    requires Child(s, i) !in tables && page in free && 0 < page < FRAME_LIMIT
    requires page in mem1 && mem1[page] == ZeroPage()
    ensures IsTable(mem1, tables[s])
    ensures var mem', tables' := Stored(mem1, tables[s], i, TableEntry(page)), tables[Child(s, i) := page];
            && TreeOk(mem', root, tables')
            && forall v: nat :: EntryAt(mem', tables', v) == EntryAt(mem, tables, v)
  {
    hide EntryAt, Shape, Entries, EntryOk;
    TreeFrame(mem, mem1, root, tables, free);
    LinkTable(mem1, root, tables, s, i, page);
  }

  /** The free list does not see writes to a page that is not free. */
  lemma TableWrite(mem: map<nat, Page>, mem': map<nat, Page>, head: nat, runs: seq<Run>, table: nat)
    requires Linked(mem, head, runs) && Sound(runs) && table !in PagesOf(runs)
    requires table in mem && table in mem' && mem' == mem[table := mem'[table]]
    ensures Linked(mem', head, runs)
  {
    LinkedOutside(mem, mem', head, runs, {table});
  }

  lemma OnePage(p: nat)
    ensures Range(p, 1) == {p}
  {
  }

  lemma FreeRuns(runs: seq<Run>)
    requires Sound(runs)
    ensures forall i :: 0 <= i < |runs| ==> runs[i].len >= 1
    ensures runs == [] ==> Sum(runs) == 0
    ensures 0 !in PagesOf(runs)
  {
    PageIn(runs, 0);
  }

  lemma UserWalk(v: nat, i: nat)
    requires v < USER_PAGES && 0 < i <= 3
    ensures Index(v, i) < 512 && (i == 3 ==> Index(v, i) < 256) && Index(v, i) < UserEntries(i)
    ensures SlotOf(v, i).level == i
  {
    UserRoot(v);
  }

  method Create(k: Kmem, kernel: seq<Word>) returns (pt: PageTable?)
    requires k.Valid() && |kernel| == 512 && forall p :: p in k.Free() ==> p < FRAME_LIMIT
    modifies k
    ensures old(k.nfree) >= 1 ==> pt != null
    ensures pt != null ==> k.nfree == old(k.nfree) - 1
    ensures pt != null ==> fresh(pt) && pt.k == k && pt.Valid() && forall v: nat :: pt.Entry(v) == 0
    ensures pt != null ==> pt.Pool() == old(k.Free()) && k.nfree + |pt.tables| == old(k.nfree)
  {
    hide PagesOf, Sum, Sound, Linked, TreeOk, EntryAt, KeptOutside;
    FreeRuns(k.runs);
    ghost var fits := k.runs == [] || k.runs[0].len >= 1;
    var r := k.Alloc(1);
    assert fits;
    if !r.Allocated? { return null; }
    OnePage(r.page);
    var t := new PageTable(k, r.page, kernel);
    OneTable(r.page);
    return t;
  }

  lemma OneTable(page: nat)
    ensures map[Slot(3, 0) := page].Values == {page} && |map[Slot(3, 0) := page]| == 1
  {
    ValuesGrow(map[], Slot(3, 0), page);
  }

  /** Create a table, use it, destroy it: the allocator ends with the free pages and the
      count it started with, unless it ran out of memory on the way. */
  method Lifetime(k: Kmem, kernel: seq<Word>, ops: seq<MapOp>) returns (ok: bool, found: seq<Pte>)
    requires k.Valid() && |kernel| == 512 && forall p :: p in k.Free() ==> p < FRAME_LIMIT
    requires forall i :: 0 <= i < |ops| ==> ops[i].v < USER_PAGES
    modifies k
    ensures old(k.nfree) >= 1 + 3 * |ops| ==> ok
    ensures ok ==> k.Valid() && k.Free() == old(k.Free()) && k.nfree == old(k.nfree)
    ensures ok ==> |found| == |ops| && forall i :: 0 <= i < |ops| && ops[i].Get? ==>
              found[i] == Decode(After(ops[..i], ops[i].v, 0))
  {
    hide PagesOf, Sum, Sound, Linked, After, Decode, PageTable.Valid, PageTable.Entry;
    ok, found := false, [];
    var pt := Create(k, kernel);
    if pt == null { return; }
    ok, found := pt.Apply(ops);
    if !ok { return; }
    pt.FreeTable();
  }
}
