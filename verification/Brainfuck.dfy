/**
 * The interpreter of bin/bf/main.cpp: one flat loop over the program text with a stack of
 * loop positions, against the meaning of the program as nested loops.
 */
module Brainfuck {
  import opened ByteStrings
  import opened Options

  /** What a program works on; the pointer may leave the memory as long as nothing is read. */
  datatype Data = Data(ptr: int, mem: seq<Byte>, output: seq<Byte>, input: seq<Byte>)

  predicate InRange(d: Data) { 0 <= d.ptr < |d.mem| }

  function Put(d: Data, b: Byte): Data
    requires InRange(d)
  {
    d.(mem := d.mem[d.ptr := b])
  }

  /** Eight bits. */
  function Wrap(b: int, k: int): Byte { (b + k) % 256 }

  /** One instruction other than a bracket; None when it touches memory out of range. */
  function Do(op: char, d: Data): Option<Data> {
    if op == '>' then Some(d.(ptr := d.ptr + 1))
    else if op == '<' then Some(d.(ptr := d.ptr - 1))
    else if op !in "+-.," then Some(d)
    else if !InRange(d) then None
    else if op == '+' then Some(Put(d, Wrap(d.mem[d.ptr], 1)))
    else if op == '-' then Some(Put(d, Wrap(d.mem[d.ptr], -1)))
    else if op == '.' then Some(d.(output := d.output + [d.mem[d.ptr]]))
    else if d.input == [] then Some(Put(d, 255))
    else Some(Put(d, d.input[0]).(input := d.input[1..]))
  }

  lemma WrapBack(b: Byte)
    ensures Wrap(Wrap(b, 1), -1) == b && Wrap(Wrap(b, -1), 1) == b
  {
  }

  lemma PutBack(d: Data, b: Byte)
    requires InRange(d)
    ensures InRange(Put(d, b)) && Put(d, b).mem[d.ptr] == b && Put(Put(d, b), d.mem[d.ptr]) == d
  {
    assert d.mem[d.ptr := b][d.ptr := d.mem[d.ptr]] == d.mem;
  }

  /** `+` and `-` undo each other on every cell, 0 and 255 included, and so do the moves. */
  lemma Inverses(d: Data)
    ensures Do('>', d).Some? && Do('<', Do('>', d).value) == Some(d) && Do('>', Do('<', d).value) == Some(d)
    ensures InRange(d) ==> Do('+', d).Some? && Do('-', Do('+', d).value) == Some(d)
    ensures InRange(d) ==> Do('-', d).Some? && Do('+', Do('-', d).value) == Some(d)
  {
    if InRange(d) {
      hide Wrap, Put;
      WrapBack(d.mem[d.ptr]);
      PutBack(d, Wrap(d.mem[d.ptr], 1));
      PutBack(d, Wrap(d.mem[d.ptr], -1));
      SamePtr(d, Wrap(d.mem[d.ptr], 1));
      SamePtr(d, Wrap(d.mem[d.ptr], -1));
    }
  }

  lemma SamePtr(d: Data, b: Byte)
    requires InRange(d)
    ensures Put(d, b).ptr == d.ptr
  {
  }

  // -------------------------------------------------------------------------
  // The flat machine

  const LOOPS := 255
  /** The bound the interpreter compares the depth with: the array's size in bytes, less one. */
  const DEEPEST := 4 * LOOPS - 1

  datatype Machine = Machine(pc: nat, data: Data, loop: seq<int>, skip: nat)

  /** Still going or run off the end of the code; stopped with a message; out of the memory; or
      out of the loop array. */
  datatype Outcome = At(m: Machine) | Failed | Crash | Overrun

  function Open(m: Machine): Outcome {
    if m.skip == 0 && |m.loop| >= DEEPEST then Failed
    else if |m.loop| >= LOOPS then Overrun
    else
      var m' := m.(pc := m.pc + 1, loop := m.loop + [m.pc + 1]);
      if m.skip != 0 then At(m')
      else if !InRange(m.data) then Crash
      else if m.data.mem[m.data.ptr] == 0 then At(m'.(skip := |m'.loop|))
      else At(m')
  }

  function Close(m: Machine): Outcome {
    if m.loop == [] then Failed
    else if !InRange(m.data) then Crash
    else
      var top, zero := |m.loop| - 1, m.data.mem[m.data.ptr] == 0;
      var m' := m.(pc := m.pc + 1, loop := m.loop[..top]);
      if m.skip == 0 then
        if zero then At(m') else if m.loop[top] <= 0 then Crash else At(m'.(pc := m.loop[top] - 1))
      else if zero && m.skip == top + 1 then At(m'.(skip := 0))
      else At(m')
  }

  function Step(code: string, m: Machine): Outcome
    requires m.pc < |code|
  {
    if code[m.pc] == '[' then Open(m)
    else if code[m.pc] == ']' then Close(m)
    else if m.skip != 0 then At(m.(pc := m.pc + 1))
    else
      match Do(code[m.pc], m.data)
      case None => Crash
      case Some(d) => At(m.(pc := m.pc + 1, data := d))
  }

  predicate Ended(code: string, m: Machine) { m.pc >= |code| }

  function Steps(code: string, m: Machine, n: nat): Outcome
    decreases n
  {
    if n == 0 || Ended(code, m) then At(m) else
    match Step(code, m)
    case At(m') => Steps(code, m', n - 1)
    case o => o
  }

  lemma {:induction false} StepsAdd(code: string, m: Machine, n: nat, k: nat)
    requires Steps(code, m, n).At?
    ensures Steps(code, m, n + k) == Steps(code, Steps(code, m, n).m, k)
    decreases n
  {
    if n != 0 && !Ended(code, m) {
      StepsAdd(code, Step(code, m).m, n - 1, k);
    }
  }

  /** Once it has stopped, more steps change nothing. */
  lemma {:induction false} StepsStay(code: string, m: Machine, n: nat, k: nat)
    requires n <= k && (Steps(code, m, n).At? ==> Ended(code, Steps(code, m, n).m))
    ensures Steps(code, m, k) == Steps(code, m, n)
    decreases n
  {
    if n != 0 && !Ended(code, m) && Step(code, m).At? {
      StepsStay(code, Step(code, m).m, n - 1, k - 1);
    }
  }

  // -------------------------------------------------------------------------
  // The program as nested loops

  datatype Program = Nil | Op(op: char, rest: Program) | Loop(body: Program, rest: Program)

  function Text(p: Program): string {
    match p
    case Nil => ""
    case Op(op, rest) => [op] + Text(rest)
    case Loop(body, rest) => "[" + Text(body) + "]" + Text(rest)
  }

  predicate Plain(p: Program) {
    match p
    case Nil => true
    case Op(op, rest) => op != '[' && op != ']' && Plain(rest)
    case Loop(body, rest) => Plain(body) && Plain(rest)
  }

  function Depth(p: Program): nat {
    match p
    case Nil => 0
    case Op(_, rest) => Depth(rest)
    case Loop(body, rest) => var a, b := 1 + Depth(body), Depth(rest); if a < b then b else a
  }

  predicate AtZero(d: Data) { InRange(d) && d.mem[d.ptr] == 0 }

  datatype Meaning = Done(d: Data) | Fault | TooDeep | More

  /** The meaning with at most `fuel` loop rounds in a row, More when that is not enough, and with
      `room` for open loops: entering one without room, or skipping one that nests deeper than the
      room, is too deep. */
  function Exec(p: Program, d: Data, fuel: nat, room: nat): Meaning
    decreases fuel, p
  {
    match p
    case Nil => Done(d)
    case Op(op, rest) => (match Do(op, d) case None => Fault case Some(d') => Exec(rest, d', fuel, room))
    case Loop(body, rest) =>
      if room == 0 then TooDeep
      else if !InRange(d) then Fault
      else if AtZero(d) then
        if Depth(body) > room - 1 then TooDeep else Exec(rest, d, fuel, room)
      else if fuel == 0 then More
      else
        match Exec(body, d, fuel - 1, room - 1)
        case Done(d') => Exec(if AtZero(d') then rest else p, d', fuel - 1, room)
        case o => o
  }

  // -------------------------------------------------------------------------
  // What the instructions do

  /** The same instruction `n` times. */
  function Times(op: char, n: nat): Program { if n == 0 then Nil else Op(op, Times(op, n - 1)) }

  /** `+` raises the cell and `-` lowers it, modulo 256. */
  lemma {:induction false} Counts(d: Data, n: nat, fuel: nat, room: nat)
    requires InRange(d)
    ensures Exec(Times('+', n), d, fuel, room) == Done(d.(mem := d.mem[d.ptr := (d.mem[d.ptr] + n) % 256]))
    ensures Exec(Times('-', n), d, fuel, room) == Done(d.(mem := d.mem[d.ptr := (d.mem[d.ptr] - n) % 256]))
    decreases n
  {
    var x := d.mem[d.ptr];
    if n == 0 {
      assert d.mem[d.ptr := x] == d.mem;
    } else {
      var up, down := d.(mem := d.mem[d.ptr := (x + 1) % 256]), d.(mem := d.mem[d.ptr := (x - 1) % 256]);
      Counts(up, n - 1, fuel, room);
      Counts(down, n - 1, fuel, room);
      Modulo(x, n);
      assert d.mem[d.ptr := (x + 1) % 256][d.ptr := (x + n) % 256] == d.mem[d.ptr := (x + n) % 256];
      assert d.mem[d.ptr := (x - 1) % 256][d.ptr := (x - n) % 256] == d.mem[d.ptr := (x - n) % 256];
    }
  }

  lemma Modulo(x: Byte, n: nat)
    requires n > 0
    ensures ((x + 1) % 256 + (n - 1)) % 256 == (x + n) % 256
    ensures ((x - 1) % 256 - (n - 1)) % 256 == (x - n) % 256
  {
  }

  /** `>` and `<` move the pointer, also out of the memory, where using a cell is a fault. */
  lemma {:induction false} Moves(d: Data, n: nat, fuel: nat, room: nat)
    ensures Exec(Times('>', n), d, fuel, room) == Done(d.(ptr := d.ptr + n))
    ensures Exec(Times('<', n), d, fuel, room) == Done(d.(ptr := d.ptr - n))
    decreases n
  {
    if n > 0 {
      Moves(d.(ptr := d.ptr + 1), n - 1, fuel, room);
      Moves(d.(ptr := d.ptr - 1), n - 1, fuel, room);
    }
  }

  lemma OutOfRange(d: Data, op: char, rest: Program, fuel: nat, room: nat)
    requires !InRange(d) && op in ['+', '-', '.', ',']
    ensures Exec(Op(op, rest), d, fuel, room) == Fault
  {
  }

  /** `,` takes the next byte of the input, or 255 at its end, and `.` puts the cell out. */
  lemma Echoes(d: Data, fuel: nat, room: nat)
    requires InRange(d)
    ensures var b, left := if d.input == [] then 255 else d.input[0], if d.input == [] then [] else d.input[1..];
            Exec(Op(',', Op('.', Nil)), d, fuel, room)
            == Done(Data(d.ptr, d.mem[d.ptr := b], d.output + [b], left))
  {
    var b, left := if d.input == [] then 255 else d.input[0], if d.input == [] then [] else d.input[1..];
    var d' := d.(mem := d.mem[d.ptr := b], input := left);
    assert Do(',', d) == Some(d');
    assert Exec(Op('.', Nil), d', fuel, room) == Exec(Nil, d'.(output := d.output + [b]), fuel, room);
  }

  /** Any other character is a comment. */
  lemma Comments(d: Data, op: char, rest: Program, fuel: nat, room: nat)
    requires op !in ['>', '<', '+', '-', '.', ',']
    ensures Exec(Op(op, rest), d, fuel, room) == Exec(rest, d, fuel, room)
  {
  }

  const CLEAR := Loop(Op('-', Nil), Nil)

  /** `[-]` leaves the cell at zero. */
  lemma {:induction false} Clears(d: Data, fuel: nat, room: nat)
    requires InRange(d) && room >= 1 && fuel >= d.mem[d.ptr]
    ensures Exec(CLEAR, d, fuel, room) == Done(d.(mem := d.mem[d.ptr := 0]))
    decreases fuel
  {
    var x := d.mem[d.ptr];
    if x == 0 {
      assert d.mem[d.ptr := 0] == d.mem;
    } else {
      var d' := d.(mem := d.mem[d.ptr := x - 1]);
      Counts(d, 1, fuel - 1, room - 1);
      assert Times('-', 0) == Nil && Times('-', 1) == Op('-', Nil);
      assert Exec(CLEAR.body, d, fuel - 1, room - 1) == Done(d');
      if x > 1 { Clears(d', fuel - 1, room); }
      assert d'.mem[d.ptr := 0] == d.mem[d.ptr := 0];
    }
  }

  const ADD := Loop(Op('-', Op('>', Op('+', Op('<', Nil)))), Nil)

  lemma AddOnce(d: Data, fuel: nat, room: nat, x: Byte, y: Byte)
    requires InRange(d) && d.ptr + 1 < |d.mem| && d.mem[d.ptr] == x > 0 && d.mem[d.ptr + 1] == y
    ensures Exec(ADD.body, d, fuel, room) == Done(d.(mem := d.mem[d.ptr := x - 1][d.ptr + 1 := (y + 1) % 256]))
  {
    var d1 := d.(mem := d.mem[d.ptr := x - 1]);
    var d2 := d1.(ptr := d.ptr + 1);
    var d3 := d2.(mem := d1.mem[d.ptr + 1 := (y + 1) % 256]);
    assert Do('-', d) == Some(d1) && Do('>', d1) == Some(d2) && Do('+', d2) == Some(d3);
    assert Do('<', d3) == Some(d3.(ptr := d.ptr));
    assert Exec(Op('+', Op('<', Nil)), d2, fuel, room) == Exec(Op('<', Nil), d3, fuel, room);
    assert Exec(ADD.body, d, fuel, room) == Exec(Op('>', Op('+', Op('<', Nil))), d1, fuel, room);
  }

  /** `[->+<]` adds the cell to its right neighbour. */
  lemma {:induction false} Adds(d: Data, fuel: nat, room: nat, x: Byte, y: Byte)
    requires InRange(d) && d.ptr + 1 < |d.mem| && d.mem[d.ptr] == x && d.mem[d.ptr + 1] == y
    requires room >= 1 && fuel >= x
    ensures Exec(ADD, d, fuel, room) == Done(d.(mem := d.mem[d.ptr := 0][d.ptr + 1 := (x + y) % 256]))
    decreases fuel
  {
    var i := d.ptr;
    if x == 0 {
      assert d.mem[i := 0][i + 1 := y] == d.mem;
    } else {
      AddOnce(d, fuel - 1, room - 1, x, y);
      var d' := d.(mem := d.mem[i := x - 1][i + 1 := (y + 1) % 256]);
      if x > 1 { Adds(d', fuel - 1, room, x - 1, (y + 1) % 256); }
      Modulo(y, x);
      assert d'.mem[i := 0][i + 1 := (x + y) % 256] == d.mem[i := 0][i + 1 := (x + y) % 256];
    }
  }

  /** Room for the whole depth of a program is as good as any more. */
  lemma {:induction false} RoomEnough(p: Program, d: Data, fuel: nat, room: nat)
    requires Depth(p) <= room
    ensures Exec(p, d, fuel, room) == Exec(p, d, fuel, Depth(p)) && !Exec(p, d, fuel, room).TooDeep?
  {
    RoomSame(p, d, fuel, room, Depth(p));
  }

  lemma {:induction false} RoomSame(p: Program, d: Data, fuel: nat, room: nat, room': nat)
    requires Depth(p) <= room && Depth(p) <= room'
    ensures Exec(p, d, fuel, room) == Exec(p, d, fuel, room') && !Exec(p, d, fuel, room).TooDeep?
    decreases fuel, p
  {
    match p
    case Nil =>
    case Op(op, rest) => if Do(op, d).Some? { RoomSame(rest, Do(op, d).value, fuel, room, room'); }
    case Loop(body, rest) =>
      if InRange(d) {
        if d.mem[d.ptr] == 0 {
          RoomSame(rest, d, fuel, room, room');
        } else if fuel > 0 {
          RoomSame(body, d, fuel - 1, room - 1, room' - 1);
          var once := Exec(body, d, fuel - 1, room - 1);
          if once.Done? { RoomSame(if AtZero(once.d) then rest else p, once.d, fuel - 1, room, room'); }
        }
      }
  }

  // -------------------------------------------------------------------------
  // Skipping a loop

  /** The code has the program's text at a position. */
  predicate Holds(code: string, i: nat, p: Program) { i + |Text(p)| <= |code| && code[i..i + |Text(p)|] == Text(p) }

  function End(i: nat, p: Program): nat { i + |Text(p)| }

  lemma HoldsOp(code: string, i: nat, p: Program)
    requires p.Op? && Holds(code, i, p)
    ensures i < |code| && code[i] == p.op && Holds(code, i + 1, p.rest) && End(i, p) == End(i + 1, p.rest)
  {
    assert code[i] == code[i..i + |Text(p)|][0];
    assert code[i + 1..i + |Text(p)|] == Text(p)[1..];
  }

  lemma HoldsLoop(code: string, i: nat, p: Program)
    requires p.Loop? && Holds(code, i, p)
    ensures i < |code| && code[i] == '[' && Holds(code, i + 1, p.body)
    ensures var j := End(i + 1, p.body);
            i < j < |code| && code[j] == ']' && Holds(code, j + 1, p.rest) && End(i, p) == End(j + 1, p.rest)
  {
    var t, n := Text(p), |Text(p.body)|;
    assert forall k :: 0 <= k < |t| ==> code[i + k] == code[i..i + |t|][k] == t[k];
    assert t[1..1 + n] == Text(p.body) && t[1 + n] == ']' && t[2 + n..] == Text(p.rest);
    assert code[i + 1..i + 1 + n] == t[1..1 + n];
    assert code[i + 2 + n..i + |t|] == t[2 + n..];
  }

  lemma OpenAt(code: string, m: Machine)
    requires m.pc < |code| && code[m.pc] == '['
    ensures Steps(code, m, 1) == Open(m)
  {
  }

  lemma CloseAt(code: string, m: Machine)
    requires m.pc < |code| && code[m.pc] == ']'
    ensures Steps(code, m, 1) == Close(m)
  {
  }

  lemma DoAt(code: string, m: Machine)
    requires m.pc < |code| && code[m.pc] != ']' && code[m.pc] != '['
    ensures var d := Do(code[m.pc], m.data);
            Steps(code, m, 1) == if m.skip != 0 then At(m.(pc := m.pc + 1))
                                 else if d.None? then Crash else At(m.(pc := m.pc + 1, data := d.value))
  {
  }

  /** Pushing and popping a loop position. */
  lemma Popped(loop: seq<int>, x: int)
    ensures (loop + [x])[..|loop|] == loop && (loop + [x])[|loop|] == x && |loop + [x]| == |loop| + 1
  {
  }

  /** A skipped program is walked through without effect, unless it nests deeper than the loop
      array. */
  lemma {:induction false} Skips(code: string, p: Program, m: Machine) returns (n: nat)
    requires Holds(code, m.pc, p) && Plain(p) && 1 <= m.skip <= |m.loop| <= LOOPS
    requires InRange(m.data) && m.data.mem[m.data.ptr] == 0
    ensures Steps(code, m, n) == if |m.loop| + Depth(p) <= LOOPS then At(m.(pc := End(m.pc, p))) else Overrun
    decreases p
  {
    hide Holds, Steps, Step, Do, End;
    match p
    case Nil =>
      Nothing(code, m);
      n := 0;
    case Op(op, rest) =>
      HoldsOp(code, m.pc, p);
      DoAt(code, m);
      var k := Skips(code, rest, m.(pc := m.pc + 1));
      StepsAdd(code, m, 1, k);
      n := 1 + k;
    case Loop(_, _) =>
      n := SkipsLoop(code, p, m);
  }

  lemma SkipOpen(code: string, m: Machine)
    requires m.pc < |code| && code[m.pc] == '[' && m.skip != 0 && |m.loop| < LOOPS
    ensures Steps(code, m, 1) == At(m.(pc := m.pc + 1, loop := m.loop + [m.pc + 1]))
  {
    OpenAt(code, m);
  }

  lemma SkipClose(code: string, m: Machine, m2: Machine)
    requires m2.pc < |code| && code[m2.pc] == ']' && 1 <= m.skip <= |m.loop| && m2.loop == m.loop + [m.pc + 1]
    requires InRange(m.data) && m2 == m.(pc := m2.pc, loop := m2.loop)
    ensures Steps(code, m2, 1) == At(m.(pc := m2.pc + 1))
  {
    Popped(m.loop, m.pc + 1);
    CloseAt(code, m2);
  }

  lemma {:induction false} SkipsLoop(code: string, p: Program, m: Machine) returns (n: nat)
    requires Holds(code, m.pc, p) && p.Loop? && Plain(p) && 1 <= m.skip <= |m.loop| <= LOOPS
    requires InRange(m.data) && m.data.mem[m.data.ptr] == 0
    ensures Steps(code, m, n) == if |m.loop| + Depth(p) <= LOOPS then At(m.(pc := End(m.pc, p))) else Overrun
    decreases p, 0
  {
    hide Holds, Steps, End;
    HoldsLoop(code, m.pc, p);
    if |m.loop| == LOOPS {
      OpenAt(code, m);
      n := 1;
    } else {
      SkipOpen(code, m);
      var m1 := m.(pc := m.pc + 1, loop := m.loop + [m.pc + 1]);
      var k := Skips(code, p.body, m1);
      StepsAdd(code, m, 1, k);
      n := 1 + k;
      if |m1.loop| + Depth(p.body) <= LOOPS {
        var m2 := m1.(pc := End(m1.pc, p.body));
        SkipClose(code, m, m2);
        var m3 := m.(pc := m2.pc + 1);
        var j := Skips(code, p.rest, m3);
        StepsAdd(code, m, 1 + k, 1);
        StepsAdd(code, m, 2 + k, j);
        n := 2 + k + j;
      }
    }
  }

  lemma Nothing(code: string, m: Machine)
    ensures Steps(code, m, 0) == At(m) && End(m.pc, Nil) == m.pc
  {
  }

  // -------------------------------------------------------------------------
  // The two agree

  /** From the start of a program's text, outside any skipped loop, the flat machine gets to
      its end with the data the program means, leaves the memory or the loop array where the program
      does, and otherwise goes on for as long as there is fuel. */
  ghost predicate Agrees(code: string, m: Machine, end: nat, meaning: Meaning, fuel: nat, n: nat) {
    match meaning
    case Done(d) => Steps(code, m, n) == At(m.(pc := end, data := d))
    case Fault => Steps(code, m, n) == Crash
    case TooDeep => Steps(code, m, n) == Overrun
    case More => n >= fuel && Steps(code, m, n).At? && !Ended(code, Steps(code, m, n).m)
  }

  /** A stretch of steps before an agreeing one. */
  lemma AgreesAfter(code: string, m: Machine, k: nat, m': Machine, end: nat, meaning: Meaning, fuel: nat, n: nat)
    requires Steps(code, m, k) == At(m') && m'.loop == m.loop && m'.skip == m.skip
    requires Agrees(code, m', end, meaning, fuel, n)
    ensures Agrees(code, m, end, meaning, fuel + k, k + n)
    ensures Agrees(code, m, end, meaning, fuel, k + n)
  {
    StepsAdd(code, m, k, n);
  }

  predicate Ready(code: string, p: Program, m: Machine) {
    Holds(code, m.pc, p) && Plain(p) && m.skip == 0 && |m.loop| <= LOOPS
  }

  /** What is left of the loop array. */
  function Room(m: Machine): nat { if |m.loop| <= LOOPS then LOOPS - |m.loop| else 0 }

  lemma {:induction false} Simulates(code: string, p: Program, m: Machine, fuel: nat) returns (n: nat)
    requires Ready(code, p, m)
    ensures Agrees(code, m, End(m.pc, p), Exec(p, m.data, fuel, Room(m)), fuel, n)
    decreases fuel, p, 1
  {
    hide Holds, Steps, Step, Do, End;
    match p
    case Nil =>
      Nothing(code, m);
      n := 0;
    case Op(op, rest) =>
      HoldsOp(code, m.pc, p);
      DoAt(code, m);
      n := 1;
      if Do(op, m.data).Some? {
        var m' := m.(pc := m.pc + 1, data := Do(op, m.data).value);
        var k := Simulates(code, rest, m', fuel);
        AgreesAfter(code, m, 1, m', End(m.pc, p), Exec(p, m.data, fuel, Room(m)), fuel, k);
        n := 1 + k;
      }
    case Loop(body, rest) =>
      HoldsLoop(code, m.pc, p);
      OpenAt(code, m);
      if Room(m) == 0 || !InRange(m.data) {
        n := 1;
      } else if m.data.mem[m.data.ptr] == 0 {
        n := SkipsOver(code, p, m, fuel);
      } else if fuel == 0 {
        Nothing(code, m);
        n := 0;
      } else {
        n := GoesRound(code, p, m, fuel);
      }
  }

  lemma {:induction false} SkipsOver(code: string, p: Program, m: Machine, fuel: nat) returns (n: nat)
    requires Ready(code, p, m) && p.Loop? && Room(m) > 0
    requires InRange(m.data) && m.data.mem[m.data.ptr] == 0
    ensures Agrees(code, m, End(m.pc, p), Exec(p, m.data, fuel, Room(m)), fuel, n)
    decreases fuel, p, 0
  {
    hide Holds, Steps, Step, Do, End;
    HoldsLoop(code, m.pc, p);
    Popped(m.loop, m.pc + 1);
    OpenAt(code, m);
    var m1 := m.(pc := m.pc + 1, loop := m.loop + [m.pc + 1], skip := |m.loop| + 1);
    var k := Skips(code, p.body, m1);
    StepsAdd(code, m, 1, k);
    n := 1 + k;
    if Depth(p.body) <= Room(m) - 1 {
      var m2 := m1.(pc := End(m1.pc, p.body));
      CloseAt(code, m2);
      var m3 := m.(pc := m2.pc + 1);
      StepsAdd(code, m, 1 + k, 1);
      var j := Simulates(code, p.rest, m3, fuel);
      AgreesAfter(code, m, 2 + k, m3, End(m.pc, p), Exec(p.rest, m.data, fuel, Room(m)), fuel, j);
      n := 2 + k + j;
    }
  }

  lemma ExecRound(p: Program, d: Data, fuel: nat, room: nat)
    requires p.Loop? && room > 0 && InRange(d) && d.mem[d.ptr] != 0 && fuel > 0
    ensures var once := Exec(p.body, d, fuel - 1, room - 1);
            var more := if once.Done? then Exec(if AtZero(once.d) then p.rest else p, once.d, fuel - 1, room) else once;
            Exec(p, d, fuel, room) == more
    ensures forall d' :: !InRange(d') ==> Exec(p, d', fuel - 1, room) == Fault
  {
  }

  lemma {:induction false} GoesRound(code: string, p: Program, m: Machine, fuel: nat) returns (n: nat)
    requires Ready(code, p, m) && p.Loop? && Room(m) > 0
    requires InRange(m.data) && m.data.mem[m.data.ptr] != 0 && fuel > 0
    ensures Agrees(code, m, End(m.pc, p), Exec(p, m.data, fuel, Room(m)), fuel, n)
    decreases fuel, p, 0
  {
    hide Holds, Steps, Step, Do, Exec, End;
    HoldsLoop(code, m.pc, p);
    Popped(m.loop, m.pc + 1);
    OpenAt(code, m);
    var m1 := m.(pc := m.pc + 1, loop := m.loop + [m.pc + 1]);
    var k := Simulates(code, p.body, m1, fuel - 1);
    StepsAdd(code, m, 1, k);
    n := 1 + k;
    var once := Exec(p.body, m.data, fuel - 1, Room(m) - 1);
    ExecRound(p, m.data, fuel, Room(m));
    if once.Done? {
      var m2 := m1.(pc := End(m1.pc, p.body), data := once.d);
      CloseAt(code, m2);
      StepsAdd(code, m, 1 + k, 1);
      n := 2 + k;
      if InRange(once.d) {
        n := ComesBack(code, p, m, m2, fuel, 2 + k);
      }
    }
  }

  /** After the body: back to the opening bracket, or on behind the closing one. */
  lemma {:induction false} ComesBack(code: string, p: Program, m: Machine, m2: Machine, fuel: nat, k: nat)
    returns (n: nat)
    requires Ready(code, p, m) && p.Loop? && Room(m) > 0 && fuel > 0 && InRange(m2.data)
    requires m2 == m.(pc := End(m.pc + 1, p.body), data := m2.data, loop := m.loop + [m.pc + 1])
    requires k > 0 && Steps(code, m, k) == Close(m2)
    ensures var more := Exec(if AtZero(m2.data) then p.rest else p, m2.data, fuel - 1, Room(m));
            Agrees(code, m, End(m.pc, p), more, fuel, n)
    decreases fuel - 1, p, 2
  {
    hide Holds, Steps, Step, Do, End;
    HoldsLoop(code, m.pc, p);
    Popped(m.loop, m.pc + 1);
    if m2.data.mem[m2.data.ptr] == 0 {
      var m3 := m.(pc := m2.pc + 1, data := m2.data);
      var j := Simulates(code, p.rest, m3, fuel - 1);
      AgreesAfter(code, m, k, m3, End(m.pc, p), Exec(p.rest, m2.data, fuel - 1, Room(m)), fuel - 1, j);
      n := k + j;
    } else {
      var m3 := m.(data := m2.data);
      var j := Simulates(code, p, m3, fuel - 1);
      AgreesAfter(code, m, k, m3, End(m.pc, p), Exec(p, m2.data, fuel - 1, Room(m)), fuel - 1, j);
      n := k + j;
    }
  }

  // -------------------------------------------------------------------------
  // Whole programs

  predicate Command(c: char) { c in "><+-.,[]" }

  function Start(d: Data): Machine { Machine(0, d, [], 0) }

  ghost predicate Stops(code: string, d: Data, o: Outcome) { exists n: nat :: Steps(code, Start(d), n) == o }

  ghost predicate Halts(code: string, d: Data, d': Data) { Stops(code, d, At(Machine(|code|, d', [], 0))) }

  ghost predicate Crashes(code: string, d: Data) { Stops(code, d, Crash) }

  ghost predicate Overruns(code: string, d: Data) { Stops(code, d, Overrun) }

  /** The program comes to this, with some fuel. */
  ghost predicate Means(p: Program, d: Data, room: nat, meaning: Meaning) {
    !meaning.More? && exists fuel: nat :: Exec(p, d, fuel, room) == meaning
  }

  /** The byte behind the text is executed too; when it is no command it makes no difference. */
  lemma Whole(p: Program, tail: char, d: Data, fuel: nat) returns (n: nat)
    requires Plain(p) && !Command(tail)
    ensures Agrees(Text(p) + [tail], Start(d), |Text(p)| + 1, Exec(p, d, fuel, LOOPS), fuel, n)
  {
    hide Holds, End, Steps, Step, Exec;
    var code := Text(p) + [tail];
    HoldsAll(p, tail);
    n := Simulates(code, p, Start(d), fuel);
    var o := Exec(p, d, fuel, LOOPS);
    if o.Done? {
      var m := Machine(|Text(p)|, o.d, [], 0);
      DoAt(code, m);
      StepsAdd(code, Start(d), n, 1);
      n := n + 1;
    }
  }

  lemma HoldsAll(p: Program, tail: char)
    ensures Holds(Text(p) + [tail], 0, p) && End(0, p) == |Text(p)|
  {
  }

  /** Where the machine stops for a meaning. */
  function StopOf(p: Program, meaning: Meaning): Outcome {
    match meaning
    case Done(d) => At(Machine(|Text(p)| + 1, d, [], 0))
    case TooDeep => Overrun
    case _ => Crash
  }

  /** A machine that stops within `n` steps stops where the program with that fuel says. */
  lemma Stopped(p: Program, tail: char, d: Data, n: nat)
    requires Plain(p) && !Command(tail)
    requires var o := Steps(Text(p) + [tail], Start(d), n); o.At? ==> Ended(Text(p) + [tail], o.m)
    ensures Steps(Text(p) + [tail], Start(d), n) == StopOf(p, Exec(p, d, n, LOOPS)) && !Exec(p, d, n, LOOPS).More?
  {
    var code := Text(p) + [tail];
    var k := Whole(p, tail, d, n);
    if k < n { StepsStay(code, Start(d), k, n); } else { StepsStay(code, Start(d), n, k); }
  }

  /** The machine stops in a way if and only if the program, with the room of the loop array,
      comes to that. */
  lemma StopsIff(p: Program, tail: char, d: Data, meaning: Meaning)
    requires Plain(p) && !Command(tail) && !meaning.More?
    ensures Stops(Text(p) + [tail], d, StopOf(p, meaning)) <==> Means(p, d, LOOPS, meaning)
  {
    hide Steps, Exec, Text;
    var code := Text(p) + [tail];
    if Means(p, d, LOOPS, meaning) {
      var fuel :| Exec(p, d, fuel, LOOPS) == meaning;
      var n := Whole(p, tail, d, fuel);
      assert Steps(code, Start(d), n) == StopOf(p, meaning);
    }
    if Stops(code, d, StopOf(p, meaning)) {
      var n: nat :| Steps(code, Start(d), n) == StopOf(p, meaning);
      Stopped(p, tail, d, n);
      assert Exec(p, d, n, LOOPS) == meaning;
    }
  }

  lemma HaltsIff(p: Program, tail: char, d: Data, d': Data)
    requires Plain(p) && !Command(tail)
    ensures Halts(Text(p) + [tail], d, d') <==> Means(p, d, LOOPS, Done(d'))
  {
    hide Stops, Means;
    StopsIff(p, tail, d, Done(d'));
  }

  lemma CrashesIff(p: Program, tail: char, d: Data)
    requires Plain(p) && !Command(tail)
    ensures Crashes(Text(p) + [tail], d) <==> Means(p, d, LOOPS, Fault)
  {
    hide Stops, Means;
    StopsIff(p, tail, d, Fault);
  }

  lemma OverrunsIff(p: Program, tail: char, d: Data)
    requires Plain(p) && !Command(tail)
    ensures Overruns(Text(p) + [tail], d) <==> Means(p, d, LOOPS, TooDeep)
  {
    hide Stops, Means;
    StopsIff(p, tail, d, TooDeep);
  }

  /** Nested no deeper than the loop array, a program means what it means with any room. */
  lemma Shallow(p: Program, d: Data, meaning: Meaning)
    requires Depth(p) <= LOOPS
    ensures Means(p, d, LOOPS, meaning) <==> Means(p, d, Depth(p), meaning)
    ensures !Means(p, d, LOOPS, TooDeep)
  {
    hide Exec;
    forall fuel: nat
      ensures Exec(p, d, fuel, LOOPS) == Exec(p, d, fuel, Depth(p)) && !Exec(p, d, fuel, LOOPS).TooDeep?
    {
      RoomEnough(p, d, fuel, LOOPS);
    }
  }

  /** Skipping a loop nested deeper than the array leaves the array, though none of it is run. */
  lemma DeepSkip(body: Program, rest: Program, d: Data)
    requires Depth(body) >= LOOPS && AtZero(d)
    ensures Means(Loop(body, rest), d, LOOPS, TooDeep)
  {
    assert Exec(Loop(body, rest), d, 0, LOOPS) == TooDeep;
  }

  // -------------------------------------------------------------------------
  // Every balanced text is a program

  /** How deep the brackets are after the text; None where one closes too many. */
  function Level(text: string, from: nat): Option<nat> {
    if text == "" then Some(from)
    else if text[0] == '[' then Level(text[1..], from + 1)
    else if text[0] != ']' then Level(text[1..], from)
    else if from == 0 then None
    else Level(text[1..], from - 1)
  }

  predicate Balanced(text: string) { Level(text, 0) == Some(0) }

  /** The longest program the text starts with, and the rest: nothing or a closing bracket. */
  function Parse(text: string): (r: (Program, string))
    ensures |r.1| <= |text|
    decreases |text|
  {
    if text == "" || text[0] == ']' then (Nil, text)
    else if text[0] != '[' then var (p, rest) := Parse(text[1..]); (Op(text[0], p), rest)
    else
      var (body, rest) := Parse(text[1..]);
      if rest == "" || rest[0] != ']' then (Nil, text)
      else var (p, rest') := Parse(rest[1..]); (Loop(body, p), rest')
  }

  lemma LoopText(text: string, body: Program, rest: string, p: Program, rest': string)
    requires text != "" && text[0] == '[' && text[1..] == Text(body) + rest
    requires rest != "" && rest[0] == ']' && rest[1..] == Text(p) + rest'
    ensures text == Text(Loop(body, p)) + rest'
  {
    assert text == "[" + text[1..] && rest == "]" + rest[1..];
  }

  lemma {:induction false} Parsed(text: string, level: nat)
    requires Level(text, level) == Some(0)
    ensures var (p, rest) := Parse(text);
            && Plain(p) && text == Text(p) + rest
            && Level(rest, level) == Some(0) && (rest == "" || rest[0] == ']')
    decreases |text|
  {
    if text != "" && text[0] == '[' {
      hide Text;
      Parsed(text[1..], level + 1);
      var (body, rest) := Parse(text[1..]);
      assert rest != "" by { assert Level("", level + 1) == Some(level + 1); }
      Parsed(rest[1..], level);
      var (p, rest') := Parse(rest[1..]);
      LoopText(text, body, rest, p, rest');
    } else {
      ParsedOp(text, level);
    }
  }

  lemma {:induction false} ParsedOp(text: string, level: nat)
    requires Level(text, level) == Some(0) && (text == "" || text[0] != '[')
    ensures var (p, rest) := Parse(text);
            && Plain(p) && text == Text(p) + rest
            && Level(rest, level) == Some(0) && (rest == "" || rest[0] == ']')
    decreases |text|, 0
  {
    hide Text;
    if text != "" && text[0] != ']' {
      Parsed(text[1..], level);
      OpText(text, Parse(text[1..]).0, Parse(text[1..]).1);
    } else {
      NilText(text);
    }
  }

  lemma OpText(text: string, p: Program, rest: string)
    requires text != "" && text[1..] == Text(p) + rest
    ensures text == Text(Op(text[0], p)) + rest
  {
    assert text == [text[0]] + text[1..];
  }

  lemma NilText(text: string)
    ensures text == Text(Nil) + text
  {
  }

  /** Balanced texts are exactly the texts of programs. */
  lemma BalancedIff(text: string)
    ensures Balanced(text) <==> exists p :: Plain(p) && Text(p) == text
  {
    if Balanced(text) {
      Parsed(text, 0);
      var (p, rest) := Parse(text);
      assert rest == "";
      assert Plain(p) && Text(p) == text;
    }
    if p :| Plain(p) && Text(p) == text {
      TextLevel(p, "", 0);
      assert Text(p) + "" == text;
    }
  }

  /** For every balanced text: the interpreter halts with some data, leaves its memory, or leaves
      its loop array if and only if the parsed program, with the room of that array, does. */
  lemma Interprets(text: string, tail: char, d: Data, d': Data)
    requires Balanced(text) && !Command(tail)
    ensures Halts(text + [tail], d, d') <==> Means(Parse(text).0, d, 255, Done(d'))
    ensures Crashes(text + [tail], d) <==> Means(Parse(text).0, d, 255, Fault)
    ensures Overruns(text + [tail], d) <==> Means(Parse(text).0, d, 255, TooDeep)
  {
    hide Halts, Means, Crashes, Overruns;
    Parsed(text, 0);
    var (p, rest) := Parse(text);
    assert rest == "" && text == Text(p);
    HaltsIff(p, tail, d, d');
    CrashesIff(p, tail, d);
    OverrunsIff(p, tail, d);
  }

  /** Nested no deeper than the array, it does what the program means, whatever the room, and never
      leaves the array. */
  lemma InterpretsShallow(text: string, tail: char, d: Data, d': Data)
    requires Balanced(text) && !Command(tail) && Depth(Parse(text).0) <= 255
    ensures var p := Parse(text).0;
            && (Halts(text + [tail], d, d') <==> Means(p, d, Depth(p), Done(d')))
            && (Crashes(text + [tail], d) <==> Means(p, d, Depth(p), Fault))
            && !Overruns(text + [tail], d)
  {
    hide Halts, Means, Crashes, Overruns;
    Interprets(text, tail, d, d');
    Shallow(Parse(text).0, d, Done(d'));
    Shallow(Parse(text).0, d, Fault);
  }

  lemma {:induction false} TextLevel(p: Program, rest: string, level: nat)
    requires Plain(p)
    ensures Level(Text(p) + rest, level) == Level(rest, level)
    decreases p
  {
    match p
    case Nil => assert Text(p) + rest == rest;
    case Op(op, q) =>
      assert Text(p) + rest == [op] + (Text(q) + rest);
      TextLevel(q, rest, level);
    case Loop(body, q) =>
      var after := "]" + (Text(q) + rest);
      assert Text(p) + rest == "[" + (Text(body) + after);
      TextLevel(body, after, level + 1);
      TextLevel(q, rest, level);
  }

  // -------------------------------------------------------------------------
  // The interpreter object

  datatype Status = Going | Finished | Stopped(outcome: Outcome)

  class Interpreter {
    const code: string
    const mem: array<Byte>
    const loop: array<int>
    var pc: nat
    var ptr: int
    var loopdepth: nat
    var loopskip: nat
    var output: seq<Byte>
    var input: seq<Byte>

    ghost predicate Valid()
      reads this
    {
      loop.Length == LOOPS && loopdepth <= LOOPS
    }

    ghost function View(): Machine
      reads this, mem, loop
      requires Valid()
    {
      Machine(pc, Data(ptr, mem[..], output, input), loop[..loopdepth], loopskip)
    }

    constructor (code: string, mem: array<Byte>, input: seq<Byte>)
      ensures Valid() && this.code == code && this.mem == mem && fresh(loop)
      ensures View() == Start(Data(0, mem[..], [], input))
    {
      this.code, this.mem, this.input := code, mem, input;
      pc, ptr, loopdepth, loopskip, output := 0, 0, 0, 0, [];
      loop := new int[LOOPS];
    }

    /** A non-bracket instruction that is not skipped. */
    method Plain(op: char) returns (ok: bool)
      requires Valid()
      modifies this`ptr, this`output, this`input, mem
      ensures Valid() && (ok <==> Do(op, old(View()).data).Some?)
      ensures ok ==> View() == old(View()).(data := Do(op, old(View()).data).value)
    {
      ok := true;
      if op == '>' { ptr := ptr + 1; return; }
      if op == '<' { ptr := ptr - 1; return; }
      if op !in "+-.," { return; }
      if !(0 <= ptr < mem.Length) { return false; }
      if op == '+' {
        mem[ptr] := Wrap(mem[ptr], 1);
      } else if op == '-' {
        mem[ptr] := Wrap(mem[ptr], -1);
      } else if op == '.' {
        output := output + [mem[ptr]];
      } else if input == [] {
        mem[ptr] := 255;
      } else {
        mem[ptr], input := input[0], input[1..];
      }
    }

    method Enter() returns (status: Status)
      requires Valid()
      modifies this`pc, this`loopdepth, this`loopskip, loop
      ensures Valid() && status.Going? == Open(old(View())).At?
      ensures status.Going? ==> Open(old(View())) == At(View())
      ensures !status.Going? ==> status == Stopped(Open(old(View())))
    {
      if loopskip == 0 && loopdepth >= DEEPEST { return Stopped(Failed); }
      if loopdepth >= LOOPS { return Stopped(Overrun); }
      if loopskip == 0 && !(0 <= ptr < mem.Length) { return Stopped(Crash); }
      pc := pc + 1;
      loop[loopdepth] := pc;
      loopdepth := loopdepth + 1;
      if loopskip == 0 {
        if mem[ptr] == 0 { loopskip := loopdepth; }
      }
      status := Going;
    }

    method Leave() returns (status: Status)
      requires Valid()
      modifies this`pc, this`loopdepth, this`loopskip
      ensures Valid() && status.Going? == Close(old(View())).At?
      ensures status.Going? ==> Close(old(View())) == At(View())
      ensures !status.Going? ==> status == Stopped(Close(old(View())))
    {
      if loopdepth == 0 { return Stopped(Failed); }
      if !(0 <= ptr < mem.Length) { return Stopped(Crash); }
      if loopskip == 0 && mem[ptr] != 0 && loop[loopdepth - 1] <= 0 { return Stopped(Crash); }
      loopdepth := loopdepth - 1;
      pc := pc + 1;
      if loopskip == 0 {
        if mem[ptr] != 0 { pc := loop[loopdepth] - 1; }
      } else if mem[ptr] == 0 {
        if loopskip == loopdepth + 1 { loopskip := 0; }
      }
      status := Going;
    }

    /** At most `limit` turns of the interpreter's loop. */
    method Execute(limit: nat) returns (status: Status)
      requires Valid() && mem as object != loop as object
      modifies this, mem, loop
      ensures Valid()
      ensures status.Stopped? ==> Steps(code, old(View()), limit) == status.outcome
      ensures !status.Stopped? ==> Steps(code, old(View()), limit) == At(View())
      ensures status.Finished? ==> Ended(code, View())
    {
      ghost var first := View();
      var n := 0;
      while n < limit
        invariant n <= limit && Valid()
        invariant Steps(code, first, limit) == Steps(code, View(), limit - n)
      {
        if pc >= |code| { return Finished; }
        var insn := code[pc];
        if insn == '[' {
          status := Enter();
          if status.Stopped? { return; }
        } else if insn == ']' {
          status := Leave();
          if status.Stopped? { return; }
        } else {
          if loopskip == 0 {
            var ok := Plain(insn);
            if !ok { return Stopped(Crash); }
          }
          pc := pc + 1;
        }
        n := n + 1;
      }
      status := Going;
    }
  }
}
