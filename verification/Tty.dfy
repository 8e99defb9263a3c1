/**
 * The line discipline of fs/tty.cpp: what typed bytes do to the line being edited and to the
 * input delivered to readers (section 11.1.6 of POSIX.1-2017 Base Definitions). Echo is not
 * part of this model.
 */
module Tty {
  import opened ByteStrings

  const NL: Byte := 10
  const CR: Byte := 13

  datatype Termios = Termios(
    isig: bool, istrip: bool, igncr: bool, inlcr: bool, icrnl: bool, icanon: bool, iexten: bool,
    intr: Byte, quit: Byte, susp: Byte, lnext: Byte, kill: Byte, erase: Byte, eof: Byte, eol: Byte)

  /** The line being edited, whether the next byte is taken as it is, and what was delivered. */
  datatype Line = Line(buf: seq<Byte>, verbatim: bool, input: seq<Byte>)

  datatype Class = Signal | Ignored | Raw | LNext | Kill | Erase | Eof | Delimiter | Ordinary

  function Translate(t: Termios, c: Byte): Byte {
    var b := if t.istrip then c % 128 else c;
    if t.inlcr && b == NL then CR else if t.icrnl && b == CR then NL else b
  }

  predicate IsSignal(t: Termios, c: Byte) { t.isig && (c == t.intr || c == t.quit || c == t.susp) }

  predicate IsIgnored(t: Termios, c: Byte) { t.igncr && (if t.istrip then c % 128 else c) == CR }

  predicate Ends(t: Termios, b: Byte) { b == NL || (t.eol != 0 && b == t.eol) }

  /** What a translated byte is on a line being edited. */
  function KeyOf(t: Termios, b: Byte): Class {
    if b == t.lnext && t.iexten then LNext
    else if b == t.kill then Kill
    else if b == t.erase then Erase
    else if b == t.eof then Eof
    else if Ends(t, b) then Delimiter
    else Ordinary
  }

  /** What a byte does when it is not taken as it is. */
  function ClassOf(t: Termios, c: Byte): Class {
    if IsSignal(t, c) then Signal
    else if IsIgnored(t, c) then Ignored
    else if !t.icanon then Raw
    else KeyOf(t, Translate(t, c))
  }

  function Apply(s: Line, k: Class, b: Byte): Line {
    match k
    case Signal => s.(buf := [])
    case Ignored => s
    case Raw => s.(input := s.input + [b])
    case LNext => s.(verbatim := true)
    case Kill => s.(buf := [])
    case Erase => if s.buf == [] then s else s.(buf := s.buf[..|s.buf| - 1])
    case Eof => s.(buf := [], input := s.input + s.buf)
    case Delimiter => s.(buf := [], input := s.input + s.buf + [b])
    case Ordinary => s.(buf := s.buf + [b])
  }

  function Feed(t: Termios, s: Line, c: Byte): Line {
    if s.verbatim then Line(s.buf + [c], false, s.input) else Apply(s, ClassOf(t, c), Translate(t, c))
  }

  function Run(t: Termios, s: Line, text: seq<Byte>): Line
    decreases |text|
  {
    if text == [] then s else Run(t, Feed(t, s, text[0]), text[1..])
  }

  lemma {:induction false} RunAdd(t: Termios, s: Line, a: seq<Byte>, b: seq<Byte>)
    ensures Run(t, s, a + b) == Run(t, Run(t, s, a), b)
    decreases |a|
  {
    if a == [] {
      assert a + b == b;
    } else {
      assert (a + b)[1..] == a[1..] + b;
      RunAdd(t, Feed(t, s, a[0]), a[1..], b);
    }
  }

  // -------------------------------------------------------------------------
  // Whole lines

  /** A delivery: its bytes, and whether the end-of-file key sent it. */
  datatype Sent = Sent(bytes: seq<Byte>, eof: bool)

  /** What one byte delivers. */
  function Sends(t: Termios, s: Line, c: Byte): seq<Sent> {
    if s.verbatim then []
    else
      match ClassOf(t, c)
      case Eof => if s.buf == [] then [] else [Sent(s.buf, true)]
      case Delimiter => [Sent(s.buf + [Translate(t, c)], false)]
      case _ => []
  }

  function Deliveries(t: Termios, s: Line, text: seq<Byte>): seq<Sent>
    decreases |text|
  {
    if text == [] then [] else Sends(t, s, text[0]) + Deliveries(t, Feed(t, s, text[0]), text[1..])
  }

  function Bytes(sent: seq<Sent>): seq<Byte> {
    if sent == [] then [] else sent[0].bytes + Bytes(sent[1..])
  }

  lemma NoBytes()
    ensures Bytes([]) == []
  {
  }

  lemma {:induction false} BytesAdd(a: seq<Sent>, b: seq<Sent>)
    ensures Bytes(a + b) == Bytes(a) + Bytes(b)
  {
    if a == [] {
      assert a + b == b;
    } else {
      assert (a + b)[1..] == a[1..] + b;
      BytesAdd(a[1..], b);
    }
  }

  /** A line that ends in a delimiter, or a non-empty one that the end-of-file key cut short. */
  predicate WholeLine(t: Termios, d: Sent) { d.bytes != [] && (d.eof || Ends(t, d.bytes[|d.bytes| - 1])) }

  lemma StepDelivers(t: Termios, s: Line, c: Byte)
    requires t.icanon
    ensures Feed(t, s, c).input == s.input + Bytes(Sends(t, s, c))
    ensures Sends(t, s, c) != [] ==> Feed(t, s, c).buf == []
    ensures forall d :: d in Sends(t, s, c) ==> WholeLine(t, d) && s.buf <= d.bytes
  {
    var ds := Sends(t, s, c);
    if ds != [] { assert ds == [ds[0]] && ds[1..] == [] && Bytes(ds) == ds[0].bytes + Bytes([]); }
  }

  /** The input only ever grows, and by whole lines. */
  lemma {:induction false} RunDelivers(t: Termios, s: Line, text: seq<Byte>)
    requires t.icanon
    ensures Run(t, s, text).input == s.input + Bytes(Deliveries(t, s, text))
    ensures forall d :: d in Deliveries(t, s, text) ==> WholeLine(t, d)
    decreases |text|
  {
    hide Feed, Sends, WholeLine, Bytes;
    if text != [] {
      var s' := Feed(t, s, text[0]);
      StepDelivers(t, s, text[0]);
      RunDelivers(t, s', text[1..]);
      BytesAdd(Sends(t, s, text[0]), Deliveries(t, s', text[1..]));
    } else {
      NoBytes();
    }
  }

  lemma FeedPrefix(t: Termios, s: Line, c: Byte, before: seq<Byte>)
    ensures Feed(t, s.(input := before + s.input), c) == Feed(t, s, c).(input := before + Feed(t, s, c).input)
  {
    var b := Translate(t, c);
    assert before + s.input + [b] == before + (s.input + [b]);
    assert before + s.input + s.buf == before + (s.input + s.buf);
    assert before + s.input + s.buf + [b] == before + (s.input + s.buf + [b]);
  }

  /** What was delivered before makes no difference to what is delivered next. */
  lemma {:induction false} Independent(t: Termios, s: Line, text: seq<Byte>, before: seq<Byte>)
    ensures Run(t, s.(input := before + s.input), text) == Run(t, s, text).(input := before + Run(t, s, text).input)
    decreases |text|
  {
    hide Feed;
    if text != [] {
      FeedPrefix(t, s, text[0], before);
      Independent(t, Feed(t, s, text[0]), text[1..], before);
    }
  }

  // -------------------------------------------------------------------------
  // Erasing

  lemma TwoBytes(t: Termios, s: Line, a: Byte, b: Byte)
    ensures Run(t, s, [a, b]) == Feed(t, Feed(t, s, a), b)
  {
    assert [a, b][1..] == [b] && [b][1..] == [];
    assert Run(t, Feed(t, s, a), [b]) == Run(t, Feed(t, Feed(t, s, a), b), []);
  }

  /** A byte and the erase key cancel exactly if the byte is an ordinary one, or the line is
      empty and the byte neither ends it nor quotes the erase key. */
  lemma EraseIff(t: Termios, s: Line, c: Byte)
    requires t.icanon && !s.verbatim && ClassOf(t, t.erase).Erase?
    ensures Run(t, s, [c, t.erase]) == s <==>
            ClassOf(t, c).Ordinary? || (s.buf == [] && !ClassOf(t, c).LNext? && !ClassOf(t, c).Delimiter?)
  {
    TwoBytes(t, s, c, t.erase);
    var s' := Feed(t, s, c);
    match ClassOf(t, c)
    case Ordinary => assert s'.buf[..|s'.buf| - 1] == s.buf;
    case LNext => assert |Feed(t, s', t.erase).buf| == |s.buf| + 1;
    case Delimiter => assert |s'.input| == |s.input| + |s.buf| + 1;
    case Eof => assert s.buf == [] ==> s.input + s.buf == s.input;
    case _ =>
  }

  /** Anywhere outside a verbatim escape the pair can be left out. */
  lemma EraseAnywhere(t: Termios, s: Line, pre: seq<Byte>, c: Byte, post: seq<Byte>)
    requires t.icanon && ClassOf(t, t.erase).Erase? && ClassOf(t, c).Ordinary? && !Run(t, s, pre).verbatim
    ensures Run(t, s, pre + [c, t.erase] + post) == Run(t, s, pre + post)
  {
    hide Feed, ClassOf;
    RunAdd(t, s, pre + [c, t.erase], post);
    RunAdd(t, s, pre, [c, t.erase]);
    RunAdd(t, s, pre, post);
    EraseIff(t, Run(t, s, pre), c);
  }

  /** Typing with corrections: each one an ordinary byte and the erase key. */
  datatype Fix = Fix(at: nat, c: Byte)

  function Insert(t: Termios, text: seq<Byte>, f: Fix): seq<Byte>
    requires f.at <= |text|
  {
    text[..f.at] + [f.c, t.erase] + text[f.at..]
  }

  function InsertAll(t: Termios, text: seq<Byte>, fixes: seq<Fix>): (r: seq<Byte>)
    requires forall f :: f in fixes ==> f.at <= |text|
    decreases |fixes|
  {
    if fixes == [] then text else
    var more := Insert(t, text, fixes[0]);
    assert forall f :: f in fixes[1..] ==> f in fixes;
    InsertAll(t, more, fixes[1..])
  }

  /** No correction falls into a verbatim escape. */
  predicate Outside(t: Termios, s: Line, text: seq<Byte>, fixes: seq<Fix>)
    requires forall f :: f in fixes ==> f.at <= |text|
    decreases |fixes|
  {
    fixes == [] ||
    (ClassOf(t, fixes[0].c).Ordinary? && !Run(t, s, text[..fixes[0].at]).verbatim &&
     (assert forall f :: f in fixes[1..] ==> f in fixes;
      Outside(t, s, Insert(t, text, fixes[0]), fixes[1..])))
  }

  /** However many corrections, nested or one after the other, the reader never notices. */
  lemma {:induction false} Corrections(t: Termios, s: Line, text: seq<Byte>, fixes: seq<Fix>)
    requires t.icanon && ClassOf(t, t.erase).Erase?
    requires (forall f :: f in fixes ==> f.at <= |text|) && Outside(t, s, text, fixes)
    ensures Run(t, s, InsertAll(t, text, fixes)) == Run(t, s, text)
    decreases |fixes|
  {
    hide Feed, ClassOf, Run;
    if fixes != [] {
      var f := fixes[0];
      assert forall g :: g in fixes[1..] ==> g in fixes;
      EraseAnywhere(t, s, text[..f.at], f.c, text[f.at..]);
      assert text[..f.at] + text[f.at..] == text;
      Corrections(t, s, Insert(t, text, f), fixes[1..]);
    }
  }

  // -------------------------------------------------------------------------
  // Killing the line

  predicate Delivers(t: Termios, c: Byte) { ClassOf(t, c).Delimiter? || ClassOf(t, c).Eof? }

  lemma {:induction false} NothingDelivered(t: Termios, s: Line, text: seq<Byte>)
    requires t.icanon && forall c :: c in text ==> !Delivers(t, c)
    ensures Run(t, s, text).input == s.input
    decreases |text|
  {
    if text != [] {
      assert text[0] in text;
      NothingDelivered(t, Feed(t, s, text[0]), text[1..]);
    }
  }

  /** Any text without line-ending keys, then the kill key: an empty line, nothing delivered. */
  lemma KillUndoes(t: Termios, s: Line, text: seq<Byte>)
    requires t.icanon && ClassOf(t, t.kill).Kill? && s.buf == [] && !s.verbatim
    requires (forall c :: c in text ==> !Delivers(t, c)) && !Run(t, s, text).verbatim
    ensures Run(t, s, text + [t.kill]) == s
  {
    NothingDelivered(t, s, text);
    RunAdd(t, s, text, [t.kill]);
    assert [t.kill][1..] == [];
  }

  // -------------------------------------------------------------------------
  // The line as seen from its end

  /** Ordinary bytes survive unless an erase key behind them is left for them. */
  function Surviving(t: Termios, text: seq<Byte>, erases: nat): seq<Byte> {
    if text == [] then []
    else
      var n := |text| - 1;
      if ClassOf(t, text[n]).Erase? then Surviving(t, text[..n], erases + 1)
      else if erases > 0 then Surviving(t, text[..n], erases - 1)
      else Surviving(t, text[..n], 0) + [Translate(t, text[n])]
  }

  function DropLast(s: seq<Byte>, k: nat): seq<Byte> { if k <= |s| then s[..|s| - k] else [] }

  lemma Dropping(s: seq<Byte>, b: Byte, k: nat)
    ensures DropLast(DropLast(s, 1), k) == DropLast(s, k + 1)
    ensures DropLast(s + [b], k + 1) == DropLast(s, k)
    ensures DropLast(s, 0) == s
  {
  }

  lemma EditKeys(t: Termios, s: Line, c: Byte)
    requires t.icanon && !s.verbatim
    ensures ClassOf(t, c).Erase? ==> Feed(t, s, c) == s.(buf := DropLast(s.buf, 1))
    ensures ClassOf(t, c).Ordinary? ==> Feed(t, s, c) == s.(buf := s.buf + [Translate(t, c)])
  {
  }

  lemma RunLast(t: Termios, s: Line, text: seq<Byte>, c: Byte)
    ensures Run(t, s, text + [c]) == Feed(t, Run(t, s, text), c)
  {
    hide Feed;
    RunAdd(t, s, text, [c]);
    assert [c][1..] == [];
  }

  /** Reading the keys backwards and counting erases finds the line that typing left. */
  lemma {:induction false} EditedLine(t: Termios, text: seq<Byte>, erases: nat, input: seq<Byte>)
    requires t.icanon && forall c :: c in text ==> ClassOf(t, c).Ordinary? || ClassOf(t, c).Erase?
    ensures var s := Run(t, Line([], false, input), text);
            !s.verbatim && s.input == input && DropLast(s.buf, erases) == Surviving(t, text, erases)
    decreases |text|
  {
    if text != [] {
      hide Feed, ClassOf, DropLast, Run;
      var n := |text| - 1;
      var init, c := text[..n], text[n];
      assert text == init + [c] && c in text && forall d :: d in init ==> d in text;
      var rest := if ClassOf(t, c).Erase? then erases + 1 else if erases > 0 then erases - 1 else 0;
      EditedLine(t, init, rest, input);
      var s := Run(t, Line([], false, input), init);
      RunLast(t, Line([], false, input), init, c);
      EditKeys(t, s, c);
      Dropping(s.buf, Translate(t, c), rest);
      Dropping(s.buf, Translate(t, c), erases);
      Dropping(s.buf + [Translate(t, c)], 0, 0);
    }
  }

  /** Ending the line delivers what survived, and the ending byte. */
  lemma EditedDelivery(t: Termios, text: seq<Byte>, end: Byte, input: seq<Byte>)
    requires t.icanon && forall c :: c in text ==> ClassOf(t, c).Ordinary? || ClassOf(t, c).Erase?
    requires ClassOf(t, end).Delimiter?
    ensures Run(t, Line([], false, input), text + [end])
         == Line([], false, input + Surviving(t, text, 0) + [Translate(t, end)])
  {
    hide ClassOf, Surviving;
    EditedLine(t, text, 0, input);
    RunLast(t, Line([], false, input), text, end);
  }

  // -------------------------------------------------------------------------
  // The keys, by the settings alone

  /** The input flags leave the byte as it is; 10 is newline and 13 carriage return. */
  predicate Untouched(t: Termios, b: Byte) {
    (t.istrip ==> b < 128) && (t.igncr || t.icrnl ==> b != 13) && (t.inlcr ==> b != 10)
  }

  predicate Quiet(t: Termios, b: Byte) { t.isig ==> b != t.intr && b != t.quit && b != t.susp }

  /** The keys that edit a line. */
  function Keys(t: Termios): set<Byte> { {t.kill, t.erase, t.eof} + if t.iexten then {t.lnext} else {} }

  /** The bytes that end a line. */
  function LineEnds(t: Termios): set<Byte> { {10} + if t.eol != 0 then {t.eol} else {} }

  /** Lines are edited, and each key has one meaning. */
  predicate Usable(t: Termios) {
    && t.icanon && t.kill != t.erase && t.kill != t.eof && t.erase != t.eof
    && (t.iexten ==> t.lnext !in {t.kill, t.erase, t.eof})
    && forall k :: k in Keys(t) ==> k !in LineEnds(t) && Untouched(t, k) && Quiet(t, k)
  }

  /** A byte of text. */
  predicate Typed(t: Termios, b: Byte) { b !in Keys(t) && b !in LineEnds(t) && Untouched(t, b) && Quiet(t, b) }

  lemma KeyClasses(t: Termios)
    requires Usable(t)
    ensures ClassOf(t, t.kill).Kill? && ClassOf(t, t.erase).Erase? && ClassOf(t, t.eof).Eof?
    ensures t.iexten ==> ClassOf(t, t.lnext).LNext?
  {
    assert t.kill in Keys(t) && t.erase in Keys(t) && t.eof in Keys(t) && (t.iexten ==> t.lnext in Keys(t));
  }

  /** What each key does to a line. */
  lemma KeysDo(t: Termios, s: Line)
    requires Usable(t) && !s.verbatim
    ensures Feed(t, s, t.kill) == s.(buf := [])
    ensures Feed(t, s, t.erase) == s.(buf := if s.buf == [] then [] else s.buf[..|s.buf| - 1])
    ensures Feed(t, s, t.eof) == Line([], false, s.input + s.buf)
    ensures t.iexten ==> forall b: Byte :: Feed(t, Feed(t, s, t.lnext), b) == s.(buf := s.buf + [b])
  {
    hide ClassOf, Usable;
    KeyClasses(t);
    assert s == Line(s.buf, false, s.input);
  }

  /** Text is added to the line, the end of the line delivers it, and signals drop it. */
  lemma TextDoes(t: Termios, s: Line, b: Byte)
    requires Usable(t) && !s.verbatim
    ensures Typed(t, b) ==> Feed(t, s, b) == s.(buf := s.buf + [b])
    ensures b in LineEnds(t) && Untouched(t, b) && Quiet(t, b) ==>
              Feed(t, s, b) == Line([], false, s.input + s.buf + [b])
    ensures !Quiet(t, b) ==> Feed(t, s, b) == s.(buf := [])
  {
    assert t.kill in Keys(t) && t.erase in Keys(t) && t.eof in Keys(t) && (t.iexten ==> t.lnext in Keys(t));
    assert s == Line(s.buf, false, s.input);
  }

  /** A carriage return ends a line as a newline does when it is mapped to one. */
  lemma ReturnEndsLine(t: Termios, s: Line)
    requires Usable(t) && !s.verbatim && t.icrnl && !t.igncr && Quiet(t, 13)
    ensures Feed(t, s, 13) == Line([], false, s.input + s.buf + [10])
  {
    assert t.kill in Keys(t) && t.erase in Keys(t) && t.eof in Keys(t) && (t.iexten ==> t.lnext in Keys(t));
    assert s == Line(s.buf, false, s.input);
  }

  /** Without line editing every byte is delivered at once, after what the input flags make of
      it: the eighth bit is stripped, then returns are dropped or become newlines, and newlines
      become returns. */
  lemma Flags(t: Termios, s: Line, c: Byte)
    requires !t.icanon && !s.verbatim && Quiet(t, c)
    ensures t.istrip && c >= 128 && Quiet(t, c - 128) ==> Feed(t, s, c) == Feed(t, s, c - 128)
    ensures c == 13 && t.igncr ==> Feed(t, s, c) == s
    ensures c == 13 && !t.igncr && t.icrnl ==> Feed(t, s, c) == s.(input := s.input + [10])
    ensures c == 10 && t.inlcr ==> Feed(t, s, c) == s.(input := s.input + [13])
    ensures Untouched(t, c) ==> Feed(t, s, c) == s.(input := s.input + [c])
  {
  }

  /** Text survives unless an erase key behind it is left for it. */
  function Kept(erase: Byte, text: seq<Byte>, erases: nat): seq<Byte> {
    if text == [] then []
    else
      var n := |text| - 1;
      if text[n] == erase then Kept(erase, text[..n], erases + 1)
      else if erases > 0 then Kept(erase, text[..n], erases - 1)
      else Kept(erase, text[..n], 0) + [text[n]]
  }

  predicate Editing(t: Termios, text: seq<Byte>) { forall b :: b in text ==> Typed(t, b) || b == t.erase }

  lemma EditClasses(t: Termios, b: Byte)
    requires Usable(t)
    ensures ClassOf(t, t.erase).Erase?
    ensures Typed(t, b) ==> ClassOf(t, b).Ordinary? && Translate(t, b) == b
  {
    KeyClasses(t);
  }

  lemma {:induction false} KeptSurvives(t: Termios, text: seq<Byte>, erases: nat)
    requires Usable(t) && Editing(t, text)
    ensures Surviving(t, text, erases) == Kept(t.erase, text, erases)
    ensures forall c :: c in text ==> ClassOf(t, c).Ordinary? || ClassOf(t, c).Erase?
    decreases |text|
  {
    hide ClassOf, Translate, Typed, Usable;
    if text != [] {
      var n := |text| - 1;
      assert text == text[..n] + [text[n]] && text[n] in text && forall b :: b in text[..n] ==> b in text;
      EditClasses(t, text[n]);
      KeptSurvives(t, text[..n], if text[n] == t.erase then erases + 1 else if erases > 0 then erases - 1 else 0);
    }
  }

  /** The settings a terminal starts with. */
  const RESET := Termios(true, false, false, false, true, true, true, 3, 28, 26, 22, 21, 127, 4, 0)

  lemma ResetUsable(b: Byte)
    ensures Usable(RESET) && RESET.erase == 127 && RESET.kill == 21
    ensures Untouched(RESET, 10) && Quiet(RESET, 10) && (32 <= b != 127 ==> Typed(RESET, b))
  {
  }

  /** A line of text typed with corrections arrives as it stood when it was ended, whole; the
      kill key leaves nothing of it. */
  lemma TypedLine(t: Termios, text: seq<Byte>, input: seq<Byte>)
    requires Usable(t) && Editing(t, text)
    ensures Untouched(t, 10) && Quiet(t, 10) ==>
              Run(t, Line([], false, input), text + [10]) == Line([], false, input + Kept(t.erase, text, 0) + [10])
    ensures Run(t, Line([], false, input), text + [t.eof]) == Line([], false, input + Kept(t.erase, text, 0))
    ensures Run(t, Line([], false, input), text + [t.kill]) == Line([], false, input)
  {
    hide ClassOf, Surviving, Kept, Run, Feed, Typed;
    var s := Line([], false, input);
    KeptSurvives(t, text, 0);
    EditedLine(t, text, 0, input);
    RunLast(t, s, text, 10);
    RunLast(t, s, text, t.eof);
    RunLast(t, s, text, t.kill);
    KeysDo(t, Run(t, s, text));
    TextDoes(t, Run(t, s, text), 10);
  }

  // -------------------------------------------------------------------------
  // The terminal object

  class Terminal {
    var tios: Termios
    var canonicalBuf: seq<Byte>
    var verbatim: bool
    var input: seq<Byte>

    constructor (tios: Termios)
      ensures this.tios == tios && View() == Line([], false, [])
    {
      this.tios := tios;
      canonicalBuf, verbatim, input := [], false, [];
    }

    ghost function View(): Line
      reads this
    {
      Line(canonicalBuf, verbatim, input)
    }

    method WriteIn(c: Byte)
      modifies this`input
      ensures input == old(input) + [c]
    {
      input := input + [c];
    }

    method DumpInputBuffer()
      modifies this`input, this`canonicalBuf
      ensures input == old(input) + old(canonicalBuf) && canonicalBuf == []
    {
      var i := 0;
      while i < |canonicalBuf|
        invariant 0 <= i <= |canonicalBuf| && canonicalBuf == old(canonicalBuf)
        invariant input == old(input) + canonicalBuf[..i]
      {
        WriteIn(canonicalBuf[i]);
        assert canonicalBuf[..i + 1] == canonicalBuf[..i] + [canonicalBuf[i]];
        i := i + 1;
      }
      canonicalBuf := [];
    }

    method EraseOne()
      modifies this`canonicalBuf
      ensures canonicalBuf == DropLast(old(canonicalBuf), 1)
    {
      if |canonicalBuf| > 0 { canonicalBuf := canonicalBuf[..|canonicalBuf| - 1]; }
    }

    /** A translated byte on the line being edited. */
    method EditLine(c: Byte)
      modifies this`canonicalBuf, this`verbatim, this`input
      ensures View() == Apply(old(View()), KeyOf(tios, c), c)
    {
      if c == tios.lnext && tios.iexten {
        verbatim := true;
      } else if c == tios.kill {
        canonicalBuf := [];
      } else if c == tios.erase {
        EraseOne();
      } else if c == tios.eof {
        if |canonicalBuf| > 0 { DumpInputBuffer(); }
      } else {
        canonicalBuf := canonicalBuf + [c];
        if c == NL || (tios.eol != 0 && c == tios.eol) { DumpInputBuffer(); }
      }
    }

    method HandleInput(typed: Byte)
      modifies this
      ensures tios == old(tios) && View() == Feed(tios, old(View()), typed)
    {
      hide KeyOf;
      var c := typed;
      if verbatim {
        verbatim := false;
        canonicalBuf := canonicalBuf + [c];
        return;
      }
      if tios.isig && (c == tios.intr || c == tios.quit || c == tios.susp) {
        canonicalBuf := [];
        return;
      }
      if tios.istrip { c := c % 128; }
      if tios.igncr && c == CR { return; }
      if tios.inlcr && c == NL {
        c := CR;
      } else if tios.icrnl && c == CR {
        c := NL;
      }
      if tios.icanon {
        EditLine(c);
      } else {
        WriteIn(c);
      }
    }
  }
}
