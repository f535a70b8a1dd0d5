/** Printing instructions, and what the assembler makes of a printed text. */
module Listing {
  import opened Machine
  import opened Options
  import opened Utility
  import opened Numerals
  import opened Assembler

  predicate IsLine(l: Line)
  {
    |l.operands| == OperandCount(l.op)
  }

  predicate AreLines(lines: seq<Line>)
  {
    forall i :: 0 <= i < |lines| ==> IsLine(lines[i])
  }

  function PrintOperands(operands: seq<nat>): string
    requires operands != []
  {
    if |operands| == 1 then Digits(operands[0])
    else Digits(operands[0]) + [OPERAND_DELIMITER] + PrintOperands(operands[1..])
  }

  function PrintLine(l: Line): string
    requires IsLine(l)
  {
    Mnemonic(l.op) + [OPCODE_DELIMITER] + PrintOperands(l.operands)
  }

  /** A text with a delimiter behind every line. */
  function PrintClosed(lines: seq<Line>, delimiter: char): string
    requires AreLines(lines)
  {
    if lines == [] then "" else PrintLine(lines[0]) + [delimiter] + PrintClosed(lines[1..], delimiter)
  }

  /** A text with a delimiter between the lines. */
  function PrintOpen(lines: seq<Line>, delimiter: char): string
    requires AreLines(lines)
  {
    if lines == [] then "" else
    if |lines| == 1 then PrintLine(lines[0])
    else PrintLine(lines[0]) + [delimiter] + PrintOpen(lines[1..], delimiter)
  }

  function WrappedOperands(operands: seq<nat>): (w: seq<nat>)
    ensures |w| == |operands|
  {
    seq(|operands|, i requires 0 <= i < |operands| => operands[i] % WORD_RANGE)
  }

  /** The lines, with operands as a word can hold them. */
  function Wrapped(lines: seq<Line>): (w: seq<Line>)
    ensures |w| == |lines|
  {
    seq(|lines|, i requires 0 <= i < |lines| => Line(lines[i].op, WrappedOperands(lines[i].operands)))
  }

  // ---------------------------------------------------------------- reading a line

  predicate EndsLine(tail: string, delimiter: char)
  {
    tail == "" || tail[0] == delimiter
  }

  lemma {:induction false} SpanOf(prefix: string, tail: string, a: char, b: char)
    requires forall i :: 0 <= i < |prefix| ==> prefix[i] != a && prefix[i] != b
    requires tail == "" || tail[0] == a || tail[0] == b
    ensures Span(prefix + tail, a, b) == |prefix|
  {
    if prefix == "" {
      assert prefix + tail == tail;
    } else {
      assert (prefix + tail)[1..] == prefix[1..] + tail;
      SpanOf(prefix[1..], tail, a, b);
    }
  }

  lemma ReadPrinted(c: char, x: nat, tail: string, k: nat, delimiter: char)
    requires !IsDigit(delimiter) && (tail == "" || tail[0] == OPERAND_DELIMITER || tail[0] == delimiter)
    ensures ReadOperands([c] + Digits(x) + tail, k + 1, delimiter)
         == Behind([x % WORD_RANGE], ReadOperands(tail, k, delimiter))
  {
    hide Span, Stuif;
    var t := [c] + Digits(x) + tail;
    assert t[1..] == Digits(x) + tail;
    SpanOf(Digits(x), tail, OPERAND_DELIMITER, delimiter);
    PrintedIsRead(x, tail);
    assert (Digits(x) + tail)[|Digits(x)|..] == tail;
  }

  lemma {:induction false} OperandsRead(c: char, operands: seq<nat>, tail: string, delimiter: char)
    requires operands != [] && !IsDigit(delimiter) && EndsLine(tail, delimiter)
    ensures ReadOperands([c] + PrintOperands(operands) + tail, |operands|, delimiter)
         == Some((WrappedOperands(operands), tail))
    decreases |operands|
  {
    hide ReadOperands, Digits, Stuif, Span, WrappedOperands;
    var x := operands[0];
    if |operands| == 1 {
      ReadPrinted(c, x, tail, 0, delimiter);
      ReadAll(tail, [x % WORD_RANGE], delimiter);
      WrappedOne(operands);
    } else {
      var rest := [OPERAND_DELIMITER] + PrintOperands(operands[1..]) + tail;
      OperandsRead(OPERAND_DELIMITER, operands[1..], tail, delimiter);
      ReadPrinted(c, x, rest, |operands| - 1, delimiter);
      assert [c] + PrintOperands(operands) + tail == [c] + Digits(x) + rest;
      WrappedFirst(operands);
    }
  }

  lemma WrappedOne(operands: seq<nat>)
    requires |operands| == 1
    ensures WrappedOperands(operands) == [operands[0] % WORD_RANGE]
  {
  }

  lemma WrappedFirst(operands: seq<nat>)
    requires operands != []
    ensures WrappedOperands(operands) == [operands[0] % WORD_RANGE] + WrappedOperands(operands[1..])
  {
  }

  /** A printed line is read as that line, whatever follows it. */
  lemma LineRead(l: Line, tail: string, delimiter: char)
    requires IsLine(l) && !IsDigit(delimiter) && EndsLine(tail, delimiter)
    ensures Assemble(PrintLine(l) + tail, delimiter)
         == Prepend([Line(l.op, WrappedOperands(l.operands))], Assemble(Rest(tail), delimiter))
  {
    hide Span, Lookup, ReadOperands, PrintOperands, WrappedOperands, Prepend;
    var name, rest := Mnemonic(l.op), [OPCODE_DELIMITER] + PrintOperands(l.operands) + tail;
    var t := PrintLine(l) + tail;
    assert t == name + rest;
    MnemonicsDistinct(l.op, l.op);
    SpanOf(name, rest, OPCODE_DELIMITER, OPCODE_DELIMITER);
    assert t[..|name|] == name && t[|name|..] == rest;
    LookupIs(name, l.op);
    OperandsRead(OPCODE_DELIMITER, l.operands, tail, delimiter);
  }

  // ---------------------------------------------------------------- the language

  /** The mnemonics that take one operand. */
  predicate TakesOne(name: string, op: Operation)
  {
    || (name == "init" && op == Initialize) || (name == "i" && op == Identity) || (name == "h" && op == Hadamard)
    || (name == "p" && op == Phase) || (name == "m" && op == Measure) || (name == "x" && op == PauliX)
    || (name == "y" && op == PauliY) || (name == "z" && op == PauliZ)
  }

  /** Those that take two. */
  predicate TakesTwo(name: string, op: Operation)
  {
    (name == "macro" && op == Macro) || (name == "c" && op == Cnot)
  }

  /** A line of init, i, h, p, m, x, y or z with its operand, whatever follows it. */
  lemma OneOperandLine(name: string, op: Operation, a: nat, tail: string, d: char)
    requires TakesOne(name, op) && !IsDigit(d) && (tail == "" || tail[0] == d)
    ensures Assemble(name + " " + Digits(a) + tail, d)
         == Prepend([Line(op, [a % 0x1_0000_0000_0000_0000])], Assemble(if tail == "" then "" else tail[1..], d))
  {
    hide Assemble, Digits, Prepend, Span;
    var l := Line(op, [a]);
    assert Mnemonic(op) == name && IsLine(l);
    assert PrintLine(l) + tail == name + " " + Digits(a) + tail;
    LineRead(l, tail, d);
    WrappedOne([a]);
  }

  /** A line of macro or c with its two operands, whatever follows it. */
  lemma TwoOperandLine(name: string, op: Operation, a: nat, b: nat, tail: string, d: char)
    requires TakesTwo(name, op) && !IsDigit(d) && (tail == "" || tail[0] == d)
    ensures Assemble(name + " " + Digits(a) + "," + Digits(b) + tail, d)
         == Prepend([Line(op, [a % 0x1_0000_0000_0000_0000, b % 0x1_0000_0000_0000_0000])],
                    Assemble(if tail == "" then "" else tail[1..], d))
  {
    hide Assemble, Digits, Prepend, Span;
    var l := Line(op, [a, b]);
    assert Mnemonic(op) == name && IsLine(l);
    assert [a, b][1..] == [b];
    assert PrintOperands([a, b]) == Digits(a) + "," + Digits(b);
    assert PrintLine(l) + tail == name + " " + Digits(a) + "," + Digits(b) + tail;
    LineRead(l, tail, d);
    assert WrappedOperands([a, b]) == [a % WORD_RANGE, b % WORD_RANGE];
  }

  /** A line whose first word is none of the ten mnemonics is refused. */
  lemma OtherWords(word: string, tail: string, d: char)
    requires (forall i :: 0 <= i < |word| ==> word[i] != ' ') && (tail == "" || tail[0] == ' ') && word + tail != ""
    requires forall op :: !TakesOne(word, op) && !TakesTwo(word, op)
    ensures Assemble(word + tail, d) == UnknownOpcode
  {
    hide ReadOperands, Span;
    var t := word + tail;
    SpanOf(word, tail, ' ', ' ');
    assert t[..|word|] == word;
    forall op ensures Mnemonic(op) != word {
      assert !TakesOne(Mnemonic(op), op) ==> TakesTwo(Mnemonic(op), op);
    }
    assert Lookup(word) == None;
  }

  /** A text that ends before the operands do is read past its end. */
  lemma TooFewOperands(name: string, op: Operation, a: nat, d: char)
    requires TakesOne(name, op) || TakesTwo(name, op)
    requires !IsDigit(d)
    ensures Assemble(name, d) == PastTheEnd
    ensures TakesTwo(name, op) ==> Assemble(name + " " + Digits(a), d) == PastTheEnd
  {
    hide ReadOperands, Span, Digits, Stuif, Assemble, Behind;
    NameRead(name, op, "", d);
    assert name + "" == name;
    ReadNothing(OperandCount(op), d);
    if TakesTwo(name, op) {
      var rest := " " + Digits(a);
      NameRead(name, op, rest, d);
      assert name + rest == name + " " + Digits(a);
      ReadPrinted(' ', a, "", 1, d);
      assert rest + "" == rest;
      ReadNothing(1, d);
      BehindNone([a % WORD_RANGE]);
    }
  }

  lemma BehindNone(operands: seq<nat>)
    ensures Behind(operands, None) == None
  {
  }

  /** A name is read as its operation, and then come the operands. */
  lemma NameRead(name: string, op: Operation, rest: string, d: char)
    requires (TakesOne(name, op) || TakesTwo(name, op)) && (rest == "" || rest[0] == ' ')
    ensures ReadOperands(rest, OperandCount(op), d).None? ==> Assemble(name + rest, d) == PastTheEnd
  {
    hide ReadOperands, Span, Assemble;
    MnemonicsDistinct(op, op);
    assert Mnemonic(op) == name;
    LookupIs(name, op);
    SpanOf(name, rest, ' ', ' ');
    var t := name + rest;
    assert t[..|name|] == name && t[|name|..] == rest;
    AssembleStep(t, |name|, op, d);
  }

  lemma ReadNothing(k: nat, d: char)
    requires k > 0
    ensures ReadOperands("", k, d) == None
  {
  }

  lemma WrappedMore(lines: seq<Line>)
    requires lines != []
    ensures Wrapped(lines) == [Line(lines[0].op, WrappedOperands(lines[0].operands))] + Wrapped(lines[1..])
  {
  }

  /** The lines of a printed text come first, then those of whatever text follows it. */
  lemma {:induction false} ClosedRead(lines: seq<Line>, rest: string, delimiter: char)
    requires AreLines(lines) && !IsDigit(delimiter)
    ensures Assemble(PrintClosed(lines, delimiter) + rest, delimiter) == Prepend(Wrapped(lines), Assemble(rest, delimiter))
  {
    hide Assemble, Wrapped, PrintLine;
    var t := PrintClosed(lines, delimiter) + rest;
    if lines == [] {
      assert t == rest;
      assert Wrapped(lines) == [];
      PrependNothing(Assemble(rest, delimiter));
    } else {
      var tail := [delimiter] + (PrintClosed(lines[1..], delimiter) + rest);
      assert t == PrintLine(lines[0]) + tail;
      LineRead(lines[0], tail, delimiter);
      ClosedRead(lines[1..], rest, delimiter);
      WrappedMore(lines);
      PrependTwice([Line(lines[0].op, WrappedOperands(lines[0].operands))], Wrapped(lines[1..]), Assemble(rest, delimiter));
    }
  }

  lemma PrependNothing(a: Assembly)
    ensures Prepend([], a) == a
  {
    if a.Assembly? { assert [] + a.lines == a.lines; }
  }

  lemma {:induction false} OpenRead(lines: seq<Line>, delimiter: char)
    requires AreLines(lines) && !IsDigit(delimiter)
    ensures Assemble(PrintOpen(lines, delimiter), delimiter) == Assembly(Wrapped(lines))
  {
    hide Assemble, Wrapped, PrintLine;
    EmptyAssembly(delimiter);
    if lines == [] {
      assert Wrapped(lines) == [];
    } else if |lines| == 1 {
      assert PrintLine(lines[0]) + "" == PrintOpen(lines, delimiter);
      LineRead(lines[0], "", delimiter);
      WrappedMore(lines);
      assert Wrapped(lines[1..]) == [];
    } else {
      var tail := [delimiter] + PrintOpen(lines[1..], delimiter);
      assert PrintOpen(lines, delimiter) == PrintLine(lines[0]) + tail;
      LineRead(lines[0], tail, delimiter);
      OpenRead(lines[1..], delimiter);
      WrappedMore(lines);
    }
  }

  // ---------------------------------------------------------------- the round trip

  predicate Blank(t: string)
  {
    forall i :: 0 <= i < |t| ==> t[i] == ' ' || t[i] == '\t'
  }

  lemma {:induction false} BlanksIgnored(blanks: string, t: string)
    requires Blank(blanks) && (t == "" || 'a' <= t[0] <= 'z')
    ensures WithoutLeadingBlanks(blanks + t) == t
  {
    if blanks == "" {
      assert blanks + t == t;
    } else {
      assert (blanks + t)[1..] == blanks[1..] + t;
      BlanksIgnored(blanks[1..], t);
    }
  }

  lemma LineStarts(l: Line, rest: string)
    requires IsLine(l)
    ensures 'a' <= (PrintLine(l) + rest)[0] <= 'z'
  {
    hide PrintOperands;
    MnemonicsDistinct(l.op, l.op);
    assert (PrintLine(l) + rest)[0] == Mnemonic(l.op)[0];
  }

  predicate Fits(lines: seq<Line>)
  {
    forall i, k :: 0 <= i < |lines| && 0 <= k < |lines[i].operands| ==> lines[i].operands[k] < WORD_RANGE
  }

  lemma WrappedFits(lines: seq<Line>)
    ensures Wrapped(lines) == lines <==> Fits(lines)
  {
    if Fits(lines) {
      forall i | 0 <= i < |lines| ensures Wrapped(lines)[i] == lines[i] {
        assert WrappedOperands(lines[i].operands) == lines[i].operands;
      }
    } else {
      var i, k :| 0 <= i < |lines| && 0 <= k < |lines[i].operands| && lines[i].operands[k] >= WORD_RANGE;
      assert Wrapped(lines)[i].operands[k] == lines[i].operands[k] % WORD_RANGE;
    }
  }

  function Print(lines: seq<Line>, closed: bool, delimiter: char): string
    requires AreLines(lines)
  {
    if closed then PrintClosed(lines, delimiter) else PrintOpen(lines, delimiter)
  }

  lemma PrintStarts(lines: seq<Line>, closed: bool, delimiter: char)
    requires AreLines(lines)
    ensures var t := Print(lines, closed, delimiter); t == "" || 'a' <= t[0] <= 'z'
  {
    hide PrintLine;
    if |lines| == 1 && !closed {
      LineStarts(lines[0], "");
      assert PrintLine(lines[0]) + "" == PrintLine(lines[0]);
    } else if lines != [] {
      var rest := [delimiter] + Print(lines[1..], closed, delimiter);
      LineStarts(lines[0], rest);
      assert Print(lines, closed, delimiter) == PrintLine(lines[0]) + rest;
    }
  }

  lemma PrintRead(lines: seq<Line>, closed: bool, delimiter: char)
    requires AreLines(lines) && !IsDigit(delimiter)
    ensures Assemble(Print(lines, closed, delimiter), delimiter) == Assembly(Wrapped(lines))
  {
    hide Assemble, Wrapped, PrintLine;
    OpenRead(lines, delimiter);
    ClosedRead(lines, "", delimiter);
    assert PrintClosed(lines, delimiter) + "" == PrintClosed(lines, delimiter);
    EmptyAssembly(delimiter);
    AllUsed(Wrapped(lines));
  }

  /** Parsing undoes printing: for every line delimiter that is not a digit, with or without
      a last delimiter, with blanks before the text; and the operands come back as they
      were exactly if they fit a word. */
  lemma ParseUndoesPrint(lines: seq<Line>, blanks: string, closed: bool, delimiter: char)
    requires AreLines(lines) && Blank(blanks) && !IsDigit(delimiter)
    ensures Assemble(WithoutLeadingBlanks(blanks + Print(lines, closed, delimiter)), delimiter) == Assembly(Wrapped(lines))
    ensures Assemble(WithoutLeadingBlanks(blanks + Print(lines, closed, delimiter)), delimiter) == Assembly(lines)
       <==> Fits(lines)
  {
    hide Assemble, Wrapped, Fits, Print;
    PrintStarts(lines, closed, delimiter);
    BlanksIgnored(blanks, Print(lines, closed, delimiter));
    WrappedFits(lines);
    PrintRead(lines, closed, delimiter);
  }

  /** A two-digit operand is cut short when its last digit is the delimiter. */
  lemma DigitCutsShort(d: char, line: Line)
    requires IsDigit(d) && line == Line(Hadamard, [10 + DigitOf(d)])
    ensures IsLine(line) && Assemble(PrintLine(line) + [d], d) != Assembly([line])
  {
    hide Assemble;
    var digits := Digits(10 + DigitOf(d));
    assert Digits(1) == "1" && digits == "1" + [d];
    var t := PrintLine(line) + [d];
    assert t == "h 1" + [d, d];
    LookupIs("h", Hadamard);
    SpanOf("h", " 1" + [d, d], ' ', ' ');
    assert t == "h" + (" 1" + [d, d]) && t[..1] == "h" && t[1..] == " 1" + [d, d];
    var u := "1" + [d, d];
    assert t[1..][1..] == u;
    AssembleOne(t, 0, 1, Hadamard, d);
    var r := ReadOperands(t[1..], 1, d);
    assert t[0..] == t;
    DigitRead(d, u, t[1..]);
    var a := Assemble(Rest(r.value.1), d);
    assert Assemble(t, d) == Prepend([Line(Hadamard, [1])], a);
    if a.Assembly? { assert ([Line(Hadamard, [1])] + a.lines)[0] == Line(Hadamard, [1]); }
  }

  lemma FitsOne(line: Line)
    requires |line.operands| == 1 && line.operands[0] < WORD_RANGE
    ensures Fits([line])
  {
  }

  lemma DigitRead(d: char, u: string, t: string)
    requires IsDigit(d) && u == "1" + [d, d] && t != "" && t[1..] == u
    ensures var r := ReadOperands(t, 1, d); r.Some? && r.value.0 == [1]
  {
    assert u[0] == '1';
    assert Span(u, OPERAND_DELIMITER, d) == if d == '1' then 0 else 1 by {
      assert u[1..] == [d, d];
    }
    var n := Span(u, OPERAND_DELIMITER, d);
    assert Stuif(u, n) == 1;
    assert ReadOperands(u[n..], 0, d) == Some(([], u[n..]));
    assert [1] + [] == [1];
  }

  /** What is printed is read back for exactly the line delimiters that are not digits. */
  lemma DelimitersThatWork(d: char)
    requires d != '\0'
    ensures (forall lines :: AreLines(lines) && Fits(lines) ==> Assemble(PrintClosed(lines, d), d) == Assembly(lines))
       <==> !IsDigit(d)
  {
    hide Assemble, Wrapped, PrintLine, Fits;
    if IsDigit(d) {
      var line := Line(Hadamard, [10 + DigitOf(d)]);
      DigitCutsShort(d, line);
      FitsOne(line);
      assert PrintClosed([line], d) == PrintLine(line) + [d];
    } else {
      forall lines | AreLines(lines) && Fits(lines) ensures Assemble(PrintClosed(lines, d), d) == Assembly(lines) {
        PrintRead(lines, true, d);
        WrappedFits(lines);
      }
    }
  }

  // ---------------------------------------------------------------- joining texts

  /** Every operand of the text, the last one too, has a delimiter behind it. */
  ghost predicate Closed(t: string, delimiter: char)
    decreases |t|
  {
    t == "" ||
      var n := Span(t, OPCODE_DELIMITER, OPCODE_DELIMITER);
      var op := Lookup(t[..n]);
      op.Some? &&
      var r := ReadOperands(t[n..], OperandCount(op.value), delimiter);
      r.Some? && r.value.1 != "" && Closed(r.value.1[1..], delimiter)
  }

  lemma {:induction false} SpanBefore(t: string, more: string, a: char, b: char)
    requires Span(t, a, b) < |t|
    ensures Span(t + more, a, b) == Span(t, a, b)
  {
    if t[0] != a && t[0] != b {
      assert (t + more)[1..] == t[1..] + more;
      SpanBefore(t[1..], more, a, b);
    }
  }

  lemma {:induction false} StuifPrefix(t: string, more: string, n: nat)
    requires n <= |t| && t != ""
    ensures Stuif(t + more, n) == Stuif(t, n)
  {
    if n > 1 { StuifPrefix(t, more, n - 1); }
  }

  lemma ReadStep(t: string, k: nat, n: nat, delimiter: char)
    requires t != "" && n == Span(t[1..], OPERAND_DELIMITER, delimiter)
    ensures ReadOperands(t, k + 1, delimiter) == Behind([Stuif(t[1..], n)], ReadOperands(t[1..][n..], k, delimiter))
  {
    hide Span, Stuif;
  }

  lemma {:induction false} OperandsBefore(t: string, more: string, k: nat, delimiter: char)
    requires ReadOperands(t, k, delimiter).Some? && ReadOperands(t, k, delimiter).value.1 != ""
    ensures var r := ReadOperands(t, k, delimiter).value; ReadOperands(t + more, k, delimiter) == Some((r.0, r.1 + more))
    decreases k
  {
    hide Span, Stuif, ReadOperands;
    NotToTheEnd(t, k, delimiter);
    if k == 0 {
      ReadAll(t, [], delimiter);
      ReadAll(t + more, [], delimiter);
      BehindNothing(ReadOperands(t, 0, delimiter));
      BehindNothing(ReadOperands(t + more, 0, delimiter));
    } else {
      var u := t[1..];
      var n := Span(u, OPERAND_DELIMITER, delimiter);
      ReadStep(t, k - 1, n, delimiter);
      NotToTheEnd(u[n..], k - 1, delimiter);
      SpanBefore(u, more, OPERAND_DELIMITER, delimiter);
      StuifPrefix(u, more, n);
      OperandsBefore(u[n..], more, k - 1, delimiter);
      assert (t + more)[1..] == u + more;
      assert (u + more)[n..] == u[n..] + more;
      ReadStep(t + more, k - 1, n, delimiter);
    }
  }

  lemma NotToTheEnd(t: string, k: nat, delimiter: char)
    requires ReadOperands(t, k, delimiter).Some? && ReadOperands(t, k, delimiter).value.1 != ""
    ensures t != ""
  {
  }

  lemma AssembleStep(t: string, n: nat, op: Operation, delimiter: char)
    requires t != "" && n == Span(t, OPCODE_DELIMITER, OPCODE_DELIMITER) && Lookup(t[..n]) == Some(op)
    ensures var r := ReadOperands(t[n..], OperandCount(op), delimiter);
            Assemble(t, delimiter)
              == if r.None? then PastTheEnd
                 else Prepend([Line(op, r.value.0)], Assemble(Rest(r.value.1), delimiter))
  {
  }

  /** A text that is closed is assembled, and the program of a closed text and any other text
      joined is the program of the one and then that of the other. */
  lemma {:induction false} JoinedTexts(a: string, b: string, delimiter: char)
    requires Closed(a, delimiter)
    ensures Assemble(a, delimiter).Assembly?
    ensures Assemble(a + b, delimiter) == Prepend(Assemble(a, delimiter).lines, Assemble(b, delimiter))
    decreases |a|
  {
    hide Assemble, Span, Lookup, ReadOperands;
    if a == "" {
      assert a + b == b;
      EmptyAssembly(delimiter);
      PrependNothing(Assemble(b, delimiter));
    } else {
      var n := Span(a, OPCODE_DELIMITER, OPCODE_DELIMITER);
      var op := Lookup(a[..n]).value;
      var r := ReadOperands(a[n..], OperandCount(op), delimiter).value;
      NotToTheEnd(a[n..], OperandCount(op), delimiter);
      SpanBefore(a, b, OPCODE_DELIMITER, OPCODE_DELIMITER);
      OperandsBefore(a[n..], b, OperandCount(op), delimiter);
      assert (a + b)[..n] == a[..n] && (a + b)[n..] == a[n..] + b;
      AssembleStep(a, n, op, delimiter);
      AssembleStep(a + b, n, op, delimiter);
      assert (r.1 + b)[1..] == r.1[1..] + b;
      JoinedTexts(r.1[1..], b, delimiter);
      PrependTwice([Line(op, r.0)], Assemble(r.1[1..], delimiter).lines, Assemble(b, delimiter));
    }
  }
}
