/**
 * The parser of flattened device trees in kernel/devicetree.cpp: a walk over the structure
 * block (section 5.4 of the Devicetree Specification) that fills a table of linked nodes.
 */
module Devicetree {
  import opened ByteStrings
  import opened Options

  // -------------------------------------------------------------------------
  // Big-endian words

  /** A signed word shifted right by 8 and by 16: copies of the sign bit come in from the left. */
  function SignedShift8(v: bv32): bv32 { (v >> 8) | ((0 - (v >> 31)) << 24) }
  function SignedShift16(v: bv32): bv32 { (v >> 16) | ((0 - (v >> 31)) << 16) }

  function B2l(v: bv32): bv32 {
    var w := ((v << 8) & 0xFF00_FF00) | (SignedShift8(v) & 0xFF_00FF);
    (w << 16) | (SignedShift16(w) & 0xFFFF)
  }

  /** Four bytes loaded low byte first, and high byte first. */
  function Little(a: bv8, b: bv8, c: bv8, d: bv8): bv32 {
    (a as bv32) | ((b as bv32) << 8) | ((c as bv32) << 16) | ((d as bv32) << 24)
  }

  function Big(a: bv8, b: bv8, c: bv8, d: bv8): bv32 { Little(d, c, b, a) }

  /** The signed shifts notwithstanding, swapping a loaded word reads the bytes the other way. */
  lemma SwapReverses(a: bv8, b: bv8, c: bv8, d: bv8)
    ensures B2l(Little(a, b, c, d)) == Big(a, b, c, d)
  {
  }

  lemma SwapTwice(v: bv32)
    ensures B2l(B2l(v)) == v
  {
  }

  function Join(a: int, b: int, c: int, d: int): int { a * 0x100_0000 + b * 0x1_0000 + c * 0x100 + d }

  function Word(blob: seq<Byte>, at: nat): (w: nat)
    requires at + 4 <= |blob|
    ensures w < 0x1_0000_0000
  {
    Join(blob[at], blob[at + 1], blob[at + 2], blob[at + 3])
  }

  function Bytes(w: nat): (b: seq<Byte>)
    requires w < 0x1_0000_0000
    ensures |b| == 4 && Word(b, 0) == w
  {
    var c := w / 0x100;
    var b := c / 0x100;
    [b / 0x100, b % 0x100, c % 0x100, w % 0x100]
  }

  lemma WordIn(pre: seq<Byte>, w: nat, post: seq<Byte>)
    requires w < 0x1_0000_0000
    ensures var blob := pre + Bytes(w) + post; |pre| + 4 <= |blob| && Word(blob, |pre|) == w
  {
    var blob, b := pre + Bytes(w) + post, Bytes(w);
    assert blob[|pre|] == b[0] && blob[|pre| + 1] == b[1] && blob[|pre| + 2] == b[2] && blob[|pre| + 3] == b[3];
  }

  // -------------------------------------------------------------------------
  // Tokens of the structure block

  const BEGIN_NODE := 1
  const END_NODE := 2
  const PROP := 3
  const NOP := 4
  const END := 9

  function RoundUp(n: nat): (r: nat)
    ensures n <= r < n + 4 && r % 4 == 0
  {
    (n + 3) / 4 * 4
  }

  datatype Property = Property(nameoff: nat, value: seq<Byte>)

  datatype Token = BeginNode(name: seq<Byte>) | EndNode | Prop(prop: Property) | Nothing | End

  /** The first zero byte from `at` on. */
  function NameEnd(blob: seq<Byte>, at: nat): (r: Option<nat>)
    ensures r.Some? ==> at <= r.value < |blob| && blob[r.value] == 0 && 0 !in blob[at..r.value]
    decreases |blob| - at
  {
    if at >= |blob| then None
    else if blob[at] == 0 then Some(at)
    else
      var r := NameEnd(blob, at + 1);
      assert r.Some? ==> blob[at..r.value] == [blob[at]] + blob[at + 1..r.value];
      r
  }

  /** The token at `at` and where the next one starts; None when it reaches past the blob. */
  function Decode(blob: seq<Byte>, at: nat): (r: Option<(Token, nat)>)
    ensures r.Some? ==> at + 4 <= r.value.1
  {
    if at + 4 > |blob| then None else
    var op := Word(blob, at);
    if op == BEGIN_NODE then
      var z :- NameEnd(blob, at + 4);
      Some((BeginNode(blob[at + 4..z]), at + 4 + RoundUp(z - (at + 4) + 1)))
    else if op == PROP then
      if at + 12 > |blob| then None else
      var len := Word(blob, at + 4);
      if at + 12 + len > |blob| then None else
      Some((Prop(Property(Word(blob, at + 8), blob[at + 12..at + 12 + len])), at + 12 + RoundUp(len)))
    else Some((if op == END_NODE then EndNode else if op == END then End else Nothing, at + 4))
  }

  // -------------------------------------------------------------------------
  // The table

  const NODES := 64
  const NULL := -1

  /** Links are positions in the table. */
  datatype Node = Node(name: seq<Byte>, unit: seq<Byte>, parent: int, children: int, sibling: int, props: seq<Property>)

  /** A node's name stops at the first `@`, and its unit address starts behind it. */
  function AtSign(name: seq<Byte>): (k: nat)
    ensures k <= |name| && (k < |name| ==> name[k] == 64) && 64 !in name[..k]
  {
    if name == [] || name[0] == 64 then 0
    else
      assert name[..1 + AtSign(name[1..])] == [name[0]] + name[1..][..AtSign(name[1..])];
      1 + AtSign(name[1..])
  }

  const NAME := 32

  /** The name field takes so many bytes, and ending the name at the `@` writes inside it. */
  predicate Fits(name: seq<Byte>) { AtSign(name) < |name| ==> AtSign(name) < NAME }

  function Named(name: seq<Byte>): Node {
    var k := AtSign(name);
    Node(name[..if k < NAME then k else NAME], if k < |name| then name[k + 1..] else [], NULL, NULL, NULL, [])
  }

  const ROOT := Named([])

  datatype Table = Table(nodes: seq<Node>, node: int)

  /** One token; None when the table is full, the walk has left the root, or a name does not fit. */
  function Take(t: Table, tok: Token): Option<Table> {
    match tok
    case Nothing => Some(t)
    case End => Some(t)
    case EndNode => if 0 <= t.node < |t.nodes| then Some(t.(node := t.nodes[t.node].parent)) else None
    case BeginNode(name) =>
      if 0 <= t.node < |t.nodes| < NODES && Fits(name)
      then Some(Table(AddChild(t.nodes, t.node, name), |t.nodes|)) else None
    case Prop(p) => if 0 <= t.node < |t.nodes| then Some(t.(nodes := AddProp(t.nodes, t.node, p))) else None
  }

  function AddChild(nodes: seq<Node>, c: nat, name: seq<Byte>): (r: seq<Node>)
    requires c < |nodes|
    ensures |r| == |nodes| + 1
  {
    nodes[c := nodes[c].(children := |nodes|)] + [Named(name).(parent := c, sibling := nodes[c].children)]
  }

  function AddProp(nodes: seq<Node>, c: nat, p: Property): (r: seq<Node>)
    requires c < |nodes|
    ensures |r| == |nodes|
  {
    nodes[c := nodes[c].(props := nodes[c].props + [p])]
  }

  function Walk(blob: seq<Byte>, at: nat, t: Table): Option<Table>
    decreases |blob| - at
  {
    var (tok, next) :- Decode(blob, at);
    if tok.End? then Some(t) else
    var t' :- Take(t, tok);
    Walk(blob, next, t')
  }

  // -------------------------------------------------------------------------
  // Documents

  /** What stands between two brackets: properties, children and NOPs in any order. */
  datatype Body =
    | Nil
    | Nop(rest: Body)
    | Field(prop: Property, rest: Body)
    | Child(name: seq<Byte>, body: Body, rest: Body)

  predicate Encodable(b: Body) {
    match b
    case Nil => true
    case Nop(rest) => Encodable(rest)
    case Field(p, rest) => p.nameoff < 0x1_0000_0000 && |p.value| < 0x1_0000_0000 && Encodable(rest)
    case Child(name, body, rest) => 0 !in name && Fits(name) && Encodable(body) && Encodable(rest)
  }

  function NameField(name: seq<Byte>): seq<Byte> { name + Zeros(RoundUp(|name| + 1) - |name|) }

  function PropField(p: Property): (r: seq<Byte>)
    requires p.nameoff < 0x1_0000_0000 && |p.value| < 0x1_0000_0000
  {
    Bytes(PROP) + Bytes(|p.value|) + Bytes(p.nameoff) + p.value + Zeros(RoundUp(|p.value|) - |p.value|)
  }

  function Encode(b: Body): seq<Byte>
    requires Encodable(b)
  {
    match b
    case Nil => []
    case Nop(rest) => Bytes(NOP) + Encode(rest)
    case Field(p, rest) => PropField(p) + Encode(rest)
    case Child(name, body, rest) => Bytes(BEGIN_NODE) + NameField(name) + Encode(body) + Bytes(END_NODE) + Encode(rest)
  }

  function Size(b: Body): nat {
    match b
    case Nil => 0
    case Nop(rest) => Size(rest)
    case Field(_, rest) => Size(rest)
    case Child(_, body, rest) => 1 + Size(body) + Size(rest)
  }

  /** The table a document leaves behind. */
  function Build(nodes: seq<Node>, c: nat, b: Body): (r: seq<Node>)
    requires c < |nodes|
    ensures |r| == |nodes| + Size(b)
    decreases b
  {
    match b
    case Nil => nodes
    case Nop(rest) => Build(nodes, c, rest)
    case Field(p, rest) => Build(AddProp(nodes, c, p), c, rest)
    case Child(name, body, rest) => Build(Build(AddChild(nodes, c, name), |nodes|, body), c, rest)
  }

  // -------------------------------------------------------------------------
  // The format, byte by byte (sections 5.4.1 and 5.4.2 of the specification)

  /** Zeros up to the next word. */
  ghost predicate Padding(z: seq<Byte>, n: nat) { |z| < 4 && (n + |z|) % 4 == 0 && forall b :: b in z ==> b == 0 }

  lemma BigEndian(w: nat)
    requires w < 0x1_0000_0000
    ensures Bytes(w) == [w / 0x100_0000, w / 0x1_0000 % 0x100, w / 0x100 % 0x100, w % 0x100]
  {
  }

  /** A property: its token, its length, the offset of its name, its value and the padding. */
  lemma FieldLayout(p: Property, rest: Body) returns (z: seq<Byte>)
    requires Encodable(Field(p, rest))
    ensures Padding(z, |p.value|)
    ensures Encode(Field(p, rest)) == [0, 0, 0, 3] + Bytes(|p.value|) + Bytes(p.nameoff) + p.value + z + Encode(rest)
  {
    hide Bytes;
    BigEndian(3);
    z := Zeros(RoundUp(|p.value|) - |p.value|);
  }

  lemma NameLayout(name: seq<Byte>) returns (z: seq<Byte>)
    ensures Padding(z, |name| + 1) && NameField(name) == name + [0] + z
  {
    z := Zeros(RoundUp(|name| + 1) - |name| - 1);
  }

  /** A node: its token, its name with a zero byte and the padding, what is in it, and its end. */
  lemma ChildLayout(name: seq<Byte>, body: Body, rest: Body) returns (z: seq<Byte>)
    requires Encodable(Child(name, body, rest))
    ensures Padding(z, |name| + 1)
    ensures Encode(Child(name, body, rest))
         == ([0, 0, 0, 1] + (name + [0] + z)) + Encode(body) + [0, 0, 0, 2] + Encode(rest)
  {
    hide Encode, NameField, Bytes, Padding;
    EncodeChild(name, body, rest);
    BigEndian(1);
    BigEndian(2);
    z := NameLayout(name);
  }

  lemma BareLayout(rest: Body)
    requires Encodable(rest)
    ensures Encode(Nop(rest)) == [0, 0, 0, 4] + Encode(rest) && Encode(Nil) == [] && Bytes(END) == [0, 0, 0, 9]
  {
    hide Bytes;
    BigEndian(4);
    BigEndian(9);
  }

  /** A name is cut at its first `@`; without one it fills at most 32 bytes. */
  lemma NameSplits(name: seq<Byte>, unit: seq<Byte>)
    requires 64 !in name
    ensures Fits(name) && Named(name).name == name[..if |name| < 32 then |name| else 32] && Named(name).unit == []
    ensures Fits(name + [64] + unit) <==> |name| < 32
    ensures |name| < 32 ==> Named(name + [64] + unit).name == name && Named(name + [64] + unit).unit == unit
  {
    NoAtSign(name);
    FirstAtSign(name, unit);
    assert (name + [64] + unit)[..|name|] == name && (name + [64] + unit)[|name| + 1..] == unit;
  }

  lemma AtSignAt(name: seq<Byte>, i: nat)
    requires i <= |name| && 64 !in name[..i] && (i < |name| ==> name[i] == 64)
    ensures AtSign(name) == i
  {
    if i < |name| {
      FirstAtSign(name[..i], name[i + 1..]);
      assert name == name[..i] + [64] + name[i + 1..];
    } else {
      assert name[..i] == name;
      NoAtSign(name);
    }
  }

  lemma NoAtSign(name: seq<Byte>)
    requires 64 !in name
    ensures AtSign(name) == |name|
  {
  }

  lemma {:induction false} FirstAtSign(name: seq<Byte>, unit: seq<Byte>)
    requires 64 !in name
    ensures AtSign(name + [64] + unit) == |name|
  {
    var whole := name + [64] + unit;
    if name != [] {
      assert name[0] in name && whole[0] == name[0] && whole[1..] == name[1..] + [64] + unit;
      FirstAtSign(name[1..], unit);
    }
  }

  // -------------------------------------------------------------------------
  // Decoding what was encoded

  lemma DecodeBare(pre: seq<Byte>, op: nat, post: seq<Byte>)
    requires op in {END_NODE, NOP, END}
    ensures var tok := if op == END_NODE then EndNode else if op == END then Token.End else Nothing;
            Decode(pre + Bytes(op) + post, |pre|) == Some((tok, |pre| + 4))
  {
    hide Bytes, Word;
    WordIn(pre, op, post);
  }

  lemma {:induction false} NameEnds(blob: seq<Byte>, at: nat, name: seq<Byte>)
    requires 0 !in name && at + |name| < |blob| && blob[at..at + |name|] == name && blob[at + |name|] == 0
    ensures NameEnd(blob, at) == Some(at + |name|)
    decreases |name|
  {
    if name != [] {
      assert blob[at] == name[0] && name[0] in name;
      assert blob[at + 1..at + 1 + |name[1..]|] == name[1..];
      NameEnds(blob, at + 1, name[1..]);
    }
  }

  lemma DecodeBegin(pre: seq<Byte>, name: seq<Byte>, post: seq<Byte>)
    requires 0 !in name
    ensures Decode(pre + (Bytes(BEGIN_NODE) + NameField(name)) + post, |pre|)
         == Some((BeginNode(name), |pre| + |Bytes(BEGIN_NODE) + NameField(name)|))
  {
    hide Bytes, Word, NameEnd;
    var blob := pre + (Bytes(BEGIN_NODE) + NameField(name)) + post;
    var at := |pre| + 4;
    assert blob == pre + Bytes(BEGIN_NODE) + (NameField(name) + post);
    WordIn(pre, BEGIN_NODE, NameField(name) + post);
    assert blob == (pre + Bytes(BEGIN_NODE)) + NameField(name) + post;
    assert blob[at..at + |name|] == name && blob[at + |name|] == 0;
    NameEnds(blob, at, name);
  }

  lemma DecodeProp(pre: seq<Byte>, p: Property, post: seq<Byte>)
    requires p.nameoff < 0x1_0000_0000 && |p.value| < 0x1_0000_0000
    ensures Decode(pre + PropField(p) + post, |pre|) == Some((Prop(p), |pre| + |PropField(p)|))
  {
    hide Bytes, Word;
    var blob, n := pre + PropField(p) + post, |p.value|;
    var pad := Zeros(RoundUp(n) - n);
    assert blob == pre + Bytes(PROP) + (Bytes(n) + Bytes(p.nameoff) + p.value + pad + post);
    WordIn(pre, PROP, Bytes(n) + Bytes(p.nameoff) + p.value + pad + post);
    var pre1 := pre + Bytes(PROP);
    assert blob == pre1 + Bytes(n) + (Bytes(p.nameoff) + p.value + pad + post);
    WordIn(pre1, n, Bytes(p.nameoff) + p.value + pad + post);
    var pre2 := pre1 + Bytes(n);
    assert blob == pre2 + Bytes(p.nameoff) + (p.value + pad + post);
    WordIn(pre2, p.nameoff, p.value + pad + post);
    var at := |pre| + 12;
    assert blob[at..at + n] == p.value;
  }

  /** A step of the walk over a token whose bytes are known. */
  lemma WalkToken(pre: seq<Byte>, bytes: seq<Byte>, post: seq<Byte>, tok: Token, t: Table)
    requires Decode(pre + bytes + post, |pre|) == Some((tok, |pre| + |bytes|)) && !tok.End? && Take(t, tok).Some?
    ensures Walk(pre + bytes + post, |pre|, t) == Walk((pre + bytes) + post, |pre + bytes|, Take(t, tok).value)
  {
    hide Decode, Take;
  }

  lemma ChildParent(nodes: seq<Node>, c: nat, name: seq<Byte>)
    requires c < |nodes|
    ensures AddChild(nodes, c, name)[|nodes|].parent == c
  {
  }

  ghost predicate WalksOver(pre: seq<Byte>, b: Body, post: seq<Byte>, nodes: seq<Node>, c: nat)
    requires Encodable(b) && c < |nodes|
  {
    var blob := pre + Encode(b) + post;
    Walk(blob, |pre|, Table(nodes, c)) == Walk(blob, |pre + Encode(b)|, Table(Build(nodes, c, b), c))
  }

  lemma Regroup(p: seq<Byte>, a: seq<Byte>, b: seq<Byte>, e: seq<Byte>, r: seq<Byte>, q: seq<Byte>)
    ensures p + (a + b + e + r) + q == p + a + (b + e + r + q)
    ensures p + a + (b + e + r + q) == (p + a) + b + (e + r + q)
  {
  }

  lemma RegroupEnd(p: seq<Byte>, b: seq<Byte>, e: seq<Byte>, r: seq<Byte>, q: seq<Byte>)
    ensures p + b + (e + r + q) == (p + b) + e + (r + q)
    ensures (p + b) + e + (r + q) == (p + b + e) + r + q
  {
  }

  lemma RegroupWhole(p: seq<Byte>, a: seq<Byte>, b: seq<Byte>, e: seq<Byte>, r: seq<Byte>)
    ensures p + (a + b + e + r) == (p + a + b + e) + r
  {
  }

  /** The ways to read the bytes of a child node. */
  lemma ChildBytes(pre: seq<Byte>, name: seq<Byte>, body: Body, rest: Body, post: seq<Byte>)
    requires Encodable(Child(name, body, rest))
    ensures var begin, b, r, end := Bytes(BEGIN_NODE) + NameField(name), Encode(body), Encode(rest), Bytes(END_NODE);
            var whole := Encode(Child(name, body, rest));
            var blob := pre + whole + post;
            && blob == pre + begin + (b + end + r + post) == (pre + begin) + b + (end + r + post)
            && blob == (pre + begin + b) + end + (r + post) == (pre + begin + b + end) + r + post
            && pre + whole == (pre + begin + b + end) + r
  {
    hide Bytes, NameField, Encode;
    var begin, b, r, end := Bytes(BEGIN_NODE) + NameField(name), Encode(body), Encode(rest), Bytes(END_NODE);
    EncodeChild(name, body, rest);
    Regroup(pre, begin, b, end, r, post);
    RegroupEnd(pre + begin, b, end, r, post);
    RegroupWhole(pre, begin, b, end, r);
  }

  lemma EncodeChild(name: seq<Byte>, body: Body, rest: Body)
    requires Encodable(Child(name, body, rest))
    ensures Encode(Child(name, body, rest))
         == (Bytes(BEGIN_NODE) + NameField(name)) + Encode(body) + Bytes(END_NODE) + Encode(rest)
  {
  }

  /** Walking over a document's bytes builds its table and comes back to the same node. */
  lemma {:induction false} WalkBuilds(pre: seq<Byte>, b: Body, post: seq<Byte>, nodes: seq<Node>, c: nat)
    requires Encodable(b) && c < |nodes| && |nodes| + Size(b) <= NODES
    ensures WalksOver(pre, b, post, nodes, c)
    decreases b
  {
    hide Decode, Walk, Bytes, PropField, NameField;
    var blob := pre + Encode(b) + post;
    match b
    case Nil => assert pre + [] == pre;
    case Nop(rest) =>
      var more := Encode(rest) + post;
      assert blob == pre + Bytes(NOP) + more == (pre + Bytes(NOP)) + Encode(rest) + post;
      DecodeBare(pre, NOP, more);
      WalkToken(pre, Bytes(NOP), more, Nothing, Table(nodes, c));
      WalkBuilds(pre + Bytes(NOP), rest, post, nodes, c);
      assert pre + Encode(b) == (pre + Bytes(NOP)) + Encode(rest);
    case Field(p, rest) =>
      var more := Encode(rest) + post;
      assert blob == pre + PropField(p) + more == (pre + PropField(p)) + Encode(rest) + post;
      DecodeProp(pre, p, more);
      WalkToken(pre, PropField(p), more, Prop(p), Table(nodes, c));
      WalkBuilds(pre + PropField(p), rest, post, AddProp(nodes, c, p), c);
      assert pre + Encode(b) == (pre + PropField(p)) + Encode(rest);
    case Child(name, body, rest) =>
      WalkChild(pre, name, body, rest, post, nodes, c);
  }

  lemma {:induction false} WalkChild(pre: seq<Byte>, name: seq<Byte>, body: Body, rest: Body, post: seq<Byte>,
                                     nodes: seq<Node>, c: nat)
    requires var b := Child(name, body, rest); Encodable(b) && c < |nodes| && |nodes| + Size(b) <= NODES
    ensures WalksOver(pre, Child(name, body, rest), post, nodes, c)
    decreases Child(name, body, rest), 0
  {
    hide Decode, Walk, Bytes, NameField, AddChild, Encode;
    ChildParent(nodes, c, name);
    ChildBytes(pre, name, body, rest, post);
    var begin, end := Bytes(BEGIN_NODE) + NameField(name), Bytes(END_NODE);
    var more1 := Encode(body) + end + Encode(rest) + post;
    DecodeBegin(pre, name, more1);
    WalkToken(pre, begin, more1, BeginNode(name), Table(nodes, c));
    var nodes1 := AddChild(nodes, c, name);
    var pre2, more2 := pre + begin, end + Encode(rest) + post;
    WalkBuilds(pre2, body, more2, nodes1, |nodes|);
    var nodes2 := Build(nodes1, |nodes|, body);
    BuildKeepsParent(nodes1, |nodes|, body, |nodes|);
    var pre3, more3 := pre2 + Encode(body), Encode(rest) + post;
    DecodeBare(pre3, END_NODE, more3);
    WalkToken(pre3, end, more3, EndNode, Table(nodes2, |nodes|));
    WalkBuilds(pre3 + end, rest, post, nodes2, c);
  }

  // -------------------------------------------------------------------------
  // The table is the tree

  /** Building at `c` touches no node but `c`, and of `c` only its first child and properties. */
  lemma {:induction false} BuildFrame(nodes: seq<Node>, c: nat, b: Body)
    requires c < |nodes|
    ensures var r := Build(nodes, c, b);
            && (forall k :: 0 <= k < |nodes| && k != c ==> r[k] == nodes[k])
            && r[c] == nodes[c].(children := r[c].children, props := nodes[c].props + Props(b))
    decreases b
  {
    match b
    case Nil =>
    case Nop(rest) => BuildFrame(nodes, c, rest);
    case Field(p, rest) => BuildFrame(AddProp(nodes, c, p), c, rest);
    case Child(name, body, rest) =>
      var n1 := AddChild(nodes, c, name);
      BuildFrame(n1, |nodes|, body);
      BuildFrame(Build(n1, |nodes|, body), c, rest);
  }

  lemma BuildKeepsParent(nodes: seq<Node>, c: nat, b: Body, k: nat)
    requires c < |nodes| && k < |nodes|
    ensures Build(nodes, c, b)[k].parent == nodes[k].parent
  {
    BuildFrame(nodes, c, b);
  }

  function Props(b: Body): seq<Property> {
    match b
    case Nil => []
    case Nop(rest) => Props(rest)
    case Field(p, rest) => [p] + Props(rest)
    case Child(_, _, rest) => Props(rest)
  }

  /** The children of `c` that a document describes sit in the table from `i` on, in the order
      of the document, each linked to `c` and to the child before it; `head` is the child list
      they were put in front of. */
  predicate Holds(nodes: seq<Node>, c: nat, i: nat, head: int, b: Body)
    decreases b
  {
    c < |nodes| &&
    match b
    case Nil => nodes[c].children == head
    case Nop(rest) => Holds(nodes, c, i, head, rest)
    case Field(_, rest) => Holds(nodes, c, i, head, rest)
    case Child(name, body, rest) =>
      && i < |nodes|
      && nodes[i] == Named(name).(parent := c, children := nodes[i].children, sibling := head, props := Props(body))
      && Holds(nodes, i, i + 1, NULL, body)
      && Holds(nodes, c, i + 1 + Size(body), i, rest)
  }

  /** Only the nodes of the document and the first child of `c` matter. */
  lemma {:induction false} HoldsFrame(nodes: seq<Node>, nodes': seq<Node>, c: nat, i: nat, head: int, b: Body)
    requires Holds(nodes, c, i, head, b) && c < |nodes'| && nodes'[c].children == nodes[c].children
    requires i + Size(b) <= |nodes| <= |nodes'| && forall k :: i <= k < i + Size(b) ==> nodes'[k] == nodes[k]
    ensures Holds(nodes', c, i, head, b)
    decreases b
  {
    match b
    case Nil =>
    case Nop(rest) => HoldsFrame(nodes, nodes', c, i, head, rest);
    case Field(_, rest) => HoldsFrame(nodes, nodes', c, i, head, rest);
    case Child(_, body, rest) =>
      HoldsFrame(nodes, nodes', i, i + 1, NULL, body);
      HoldsFrame(nodes, nodes', c, i + 1 + Size(body), i, rest);
  }

  lemma {:induction false} BuildHolds(nodes: seq<Node>, c: nat, b: Body)
    requires c < |nodes|
    ensures Holds(Build(nodes, c, b), c, |nodes|, nodes[c].children, b)
    decreases b
  {
    match b
    case Nil =>
    case Nop(rest) => BuildHolds(nodes, c, rest);
    case Field(p, rest) => BuildHolds(AddProp(nodes, c, p), c, rest);
    case Child(name, body, rest) =>
      var i, n1 := |nodes|, AddChild(nodes, c, name);
      BuildHolds(n1, i, body);
      BuildFrame(n1, i, body);
      var n2 := Build(n1, i, body);
      BuildHolds(n2, c, rest);
      BuildFrame(n2, c, rest);
      HoldsFrame(n2, Build(n2, c, rest), i, i + 1, NULL, body);
  }

  /** A device tree. */
  datatype Tree = Tree(name: seq<Byte>, unit: seq<Byte>, props: seq<Property>, kids: seq<Tree>)

  /** What following the links from a node finds. */
  function Read(nodes: seq<Node>, c: nat): Tree
    requires c < |nodes|
    decreases |nodes| - c, 1, 0
  {
    Tree(nodes[c].name, nodes[c].unit, nodes[c].props, ReadKids(nodes, c, nodes[c].children))
  }

  function ReadKids(nodes: seq<Node>, c: nat, k: int): seq<Tree>
    requires c < |nodes|
    decreases |nodes| - c, 0, if k < 0 then 0 else k
  {
    if !(c < k < |nodes|) then []
    else [Read(nodes, k)] + if nodes[k].sibling < k then ReadKids(nodes, c, nodes[k].sibling) else []
  }

  /** The children a document describes, last one first. */
  function Kids(b: Body): seq<Tree> {
    match b
    case Nil => []
    case Nop(rest) => Kids(rest)
    case Field(_, rest) => Kids(rest)
    case Child(name, body, rest) => Kids(rest) + [Tree(Named(name).name, Named(name).unit, Props(body), Kids(body))]
  }

  lemma ReadNode(nodes: seq<Node>, c: nat)
    requires c < |nodes|
    ensures Read(nodes, c) == Tree(nodes[c].name, nodes[c].unit, nodes[c].props, ReadKids(nodes, c, nodes[c].children))
    ensures ReadKids(nodes, c, NULL) == []
  {
  }

  lemma ReadKid(nodes: seq<Node>, c: nat, k: nat)
    requires c < k < |nodes| && nodes[k].sibling < k
    ensures ReadKids(nodes, c, k) == [Read(nodes, k)] + ReadKids(nodes, c, nodes[k].sibling)
  {
  }

  lemma {:induction false} HoldsReads(nodes: seq<Node>, c: nat, i: nat, head: int, b: Body)
    requires Holds(nodes, c, i, head, b) && c < i && head < i && i + Size(b) <= |nodes|
    ensures ReadKids(nodes, c, nodes[c].children) == Kids(b) + ReadKids(nodes, c, head)
    decreases b
  {
    hide Read, ReadKids;
    match b
    case Nil =>
    case Nop(rest) => HoldsReads(nodes, c, i, head, rest);
    case Field(_, rest) => HoldsReads(nodes, c, i, head, rest);
    case Child(name, body, rest) =>
      HoldsReads(nodes, i, i + 1, NULL, body);
      HoldsReads(nodes, c, i + 1 + Size(body), i, rest);
      ReadNode(nodes, i);
      ReadKid(nodes, c, i);
      assert Kids(body) + [] == Kids(body);
      assert Kids(b) == Kids(rest) + [Read(nodes, i)];
  }

  /** Parsing a flattened document of at most 63 nodes gives back the tree it was made from,
      under an unnamed root, every list of children reversed, and ends at that root. */
  lemma ParseInverts(pre: seq<Byte>, b: Body, post: seq<Byte>)
    requires Encodable(b) && Size(b) < 64
    ensures var t := Walk(pre + (Encode(b) + Bytes(END)) + post, |pre|, Table([ROOT], 0));
            && t.Some? && t.value.node == 0 && |t.value.nodes| == 1 + Size(b)
            && Read(t.value.nodes, 0) == Tree([], [], Props(b), Kids(b))
  {
    hide Decode, Walk, Bytes, Read, ReadKids, Encode;
    var more := Bytes(END) + post;
    var blob := pre + Encode(b) + more;
    assert blob == pre + (Encode(b) + Bytes(END)) + post;
    WalkBuilds(pre, b, more, [ROOT], 0);
    var nodes, pre2 := Build([ROOT], 0, b), pre + Encode(b);
    assert blob == pre2 + Bytes(END) + post;
    DecodeBare(pre2, END, post);
    WalkEnds(blob, |pre2|, Table(nodes, 0));
    BuildFrame([ROOT], 0, b);
    BuildHolds([ROOT], 0, b);
    HoldsReads(nodes, 0, 1, NULL, b);
    ReadNode(nodes, 0);
  }

  /** One end of a node too many leaves the root, after which only the end of the block is taken. */
  lemma OneTooMany(pre: seq<Byte>, b: Body, post: seq<Byte>)
    requires Encodable(b) && Size(b) < 64
    ensures var t := Walk(pre + (Encode(b) + [0, 0, 0, 2] + [0, 0, 0, 9]) + post, |pre|, Table([ROOT], 0));
            t.Some? && t.value.node == -1 && |t.value.nodes| == 1 + Size(b)
    ensures forall t: Table, tok: Token :: t.node == -1 && !tok.Nothing? && !tok.End? ==> Take(t, tok).None?
  {
    hide Decode, Walk, Bytes, Encode;
    BigEndian(2);
    BigEndian(9);
    var end := Bytes(END_NODE);
    var more := end + (Bytes(END) + post);
    var blob := pre + Encode(b) + more;
    assert blob == pre + (Encode(b) + [0, 0, 0, 2] + [0, 0, 0, 9]) + post;
    WalkBuilds(pre, b, more, [ROOT], 0);
    BuildFrame([ROOT], 0, b);
    var nodes, pre2 := Build([ROOT], 0, b), pre + Encode(b);
    assert blob == pre2 + end + (Bytes(END) + post);
    DecodeBare(pre2, END_NODE, Bytes(END) + post);
    WalkToken(pre2, end, Bytes(END) + post, EndNode, Table(nodes, 0));
    assert blob == (pre2 + end) + Bytes(END) + post;
    DecodeBare(pre2 + end, END, post);
    WalkEnds(blob, |pre2 + end|, Table(nodes, -1));
  }

  lemma WalkEnds(blob: seq<Byte>, at: nat, t: Table)
    requires Decode(blob, at) == Some((Token.End, at + 4))
    ensures Walk(blob, at, t) == Some(t)
  {
  }

  // -------------------------------------------------------------------------
  // The parser object

  class Parser {
    const devices: array<Node>
    var nextDevice: nat

    ghost predicate Valid()
      reads this
    {
      devices.Length == NODES && nextDevice <= NODES
    }

    constructor ()
      ensures Valid() && fresh(devices) && nextDevice == 0
    {
      devices := new Node[NODES](_ => ROOT);
      nextDevice := 0;
    }

    method AllocDevice(name: seq<Byte>) returns (dev: nat)
      requires Valid() && nextDevice < NODES
      modifies this, devices
      ensures Valid() && dev == old(nextDevice) && nextDevice == dev + 1
      ensures devices[..nextDevice] == old(devices[..nextDevice]) + [Named(name)]
    {
      hide AtSign;
      dev, nextDevice := nextDevice, nextDevice + 1;
      var i := 0;
      assert name[..0] == [];
      while i < |name| && name[i] != 64
        invariant 0 <= i <= |name| && 64 !in name[..i]
        modifies {}
      {
        assert name[..i + 1] == name[..i] + [name[i]];
        i := i + 1;
      }
      AtSignAt(name, i);
      var unit := if i < |name| then name[i + 1..] else [];
      devices[dev] := Node(name[..if i < NAME then i else NAME], unit, NULL, NULL, NULL, []);
    }

    method StrLen(blob: seq<Byte>, at: nat) returns (z: nat)
      requires at <= |blob|
      ensures at <= z <= |blob| && 0 !in blob[at..z]
      ensures z < |blob| <==> NameEnd(blob, at).Some?
      ensures z < |blob| ==> NameEnd(blob, at) == Some(z)
    {
      z := at;
      while z < |blob| && blob[z] != 0
        invariant at <= z <= |blob| && 0 !in blob[at..z]
        invariant NameEnd(blob, at) == NameEnd(blob, z)
      {
        assert blob[at..z + 1] == blob[at..z] + [blob[z]];
        z := z + 1;
      }
    }

    /** Fills the table; None when the blob ends early, the table is full, a name does not fit,
        or the brackets close more than they open. */
    method Parse(blob: seq<Byte>, start: nat) returns (count: Option<nat>, node: int)
      requires Valid() && nextDevice == 0
      modifies this, devices
      ensures Valid()
      ensures count.Some? <==> Walk(blob, start, Table([ROOT], 0)).Some?
      ensures count.Some? ==>
                && count.value == nextDevice
                && Walk(blob, start, Table([ROOT], 0)) == Some(Table(devices[..nextDevice], node))
    {
      var sp, done := start, false;
      var root := AllocDevice([]);
      node := root;
      assert Named([]) == ROOT && devices[..1] == [ROOT];
      while !done
        invariant Valid()
        invariant !done ==> Walk(blob, start, Table([ROOT], 0)) == Walk(blob, sp, Table(devices[..nextDevice], node))
        invariant done ==> Walk(blob, start, Table([ROOT], 0)) == Some(Table(devices[..nextDevice], node))
        decreases !done, |blob| - sp
      {
        var tok, next := NextToken(blob, sp);
        if tok.None? { return None, node; }
        if tok.value.End? {
          done := true;
        } else {
          var ok, to := Enter(tok.value, node);
          if !ok { return None, node; }
          node := to;
          sp := next;
        }
      }
      count := Some(nextDevice);
    }

    method NextToken(blob: seq<Byte>, sp: nat) returns (tok: Option<Token>, next: nat)
      ensures tok.Some? <==> Decode(blob, sp).Some?
      ensures tok.Some? ==> Decode(blob, sp) == Some((tok.value, next))
    {
      next := sp + 4;
      if next > |blob| { return None, next; }
      var op := Word(blob, sp);
      if op == BEGIN_NODE {
        var z := StrLen(blob, next);
        if z == |blob| { return None, next; }
        tok, next := Some(BeginNode(blob[next..z])), next + RoundUp(z - next + 1);
      } else if op == PROP {
        if sp + 12 > |blob| { return None, next; }
        var len := Word(blob, sp + 4);
        var nameoff := Word(blob, sp + 8);
        if sp + 12 + len > |blob| { return None, next; }
        tok, next := Some(Prop(Property(nameoff, blob[sp + 12..sp + 12 + len]))), sp + 12 + RoundUp(len);
      } else {
        tok := Some(if op == END_NODE then EndNode else if op == END then Token.End else Nothing);
      }
    }

    /** Moves into and out of nodes and links new ones. */
    method Enter(tok: Token, node: int) returns (ok: bool, to: int)
      requires Valid() && !tok.End?
      modifies this, devices
      ensures Valid() && (ok <==> Take(Table(old(devices[..nextDevice]), node), tok).Some?)
      ensures ok ==> Take(Table(old(devices[..nextDevice]), node), tok) == Some(Table(devices[..nextDevice], to))
    {
      ok, to := true, node;
      if tok.Nothing? { return; }
      if !(0 <= node < nextDevice) { return false, node; }
      match tok {
        case BeginNode(name) =>
          if nextDevice == NODES || !Fits(name) { return false, node; }
          ghost var was := devices[..nextDevice];
          var dev := AllocDevice(name);
          devices[dev] := devices[dev].(parent := node, sibling := devices[node].children);
          devices[node] := devices[node].(children := dev);
          assert devices[..nextDevice] == AddChild(was, node, name);
          to := dev;
        case EndNode => to := devices[node].parent;
        case Prop(p) => devices[node] := devices[node].(props := devices[node].props + [p]);
        case _ =>
      }
    }
  }
}
