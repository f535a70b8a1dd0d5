/** The assembler (language/interpreter.cpp) for the chpext dialect. */
module Assembler {
  import opened Machine
  import opened Options
  import opened Numerals

  // ---------------------------------------------------------------- the dialect

  datatype Definition = Definition(mnemonic: string, bytecode: Operation)

  const OPCODE_DELIMITER := ' '
  const OPERAND_DELIMITER := ','

  const DEFINITIONS := [
    Definition("macro", Macro), Definition("init", Initialize), Definition("i", Identity), Definition("h", Hadamard),
    Definition("p", Phase), Definition("m", Measure), Definition("c", Cnot), Definition("x", PauliX),
    Definition("y", PauliY), Definition("z", PauliZ)]

  function Mnemonic(op: Operation): string
  {
    match op
    case Macro => "macro"
    case Initialize => "init"
    case Identity => "i"
    case Hadamard => "h"
    case Phase => "p"
    case Measure => "m"
    case Cnot => "c"
    case PauliX => "x"
    case PauliY => "y"
    case PauliZ => "z"
  }

  lemma DefinitionAt(i: nat)
    requires i < |DEFINITIONS|
    ensures DEFINITIONS[i].mnemonic == Mnemonic(DEFINITIONS[i].bytecode)
  {
  }

  lemma Defined(op: Operation)
    ensures Definition(Mnemonic(op), op) in DEFINITIONS
  {
    var i := match op
      case Macro => 0 case Initialize => 1 case Identity => 2 case Hadamard => 3 case Phase => 4
      case Measure => 5 case Cnot => 6 case PauliX => 7 case PauliY => 8 case PauliZ => 9;
    assert DEFINITIONS[i] == Definition(Mnemonic(op), op);
  }

  /** No two operations share a mnemonic, and mnemonics are of letters, so that none holds a
      delimiter. */
  lemma MnemonicsDistinct(a: Operation, b: Operation)
    ensures Mnemonic(a) == Mnemonic(b) ==> a == b
    ensures 0 < |Mnemonic(a)|
    ensures forall i :: 0 <= i < |Mnemonic(a)| ==> 'a' <= Mnemonic(a)[i] <= 'z'
  {
    assert Mnemonic(a)[0] == Mnemonic(b)[0] && |Mnemonic(a)| == |Mnemonic(b)| ==> a == b;
  }

  /** find_idef: the first definition with this mnemonic. */
  method FindDefinition(text: string, start: nat, length: nat) returns (r: Option<Definition>)
    requires start + length <= |text|
    ensures r.Some? ==> r.value in DEFINITIONS && r.value.mnemonic == text[start..start + length]
    ensures r.None? ==> forall op :: Mnemonic(op) != text[start..start + length]
  {
    var i := 0;
    while i < |DEFINITIONS|
      invariant 0 <= i <= |DEFINITIONS|
      invariant forall k :: 0 <= k < i ==> DEFINITIONS[k].mnemonic != text[start..start + length]
    {
      if |DEFINITIONS[i].mnemonic| == length && DEFINITIONS[i].mnemonic == text[start..start + length] {
        return Some(DEFINITIONS[i]);
      }
      i := i + 1;
    }
    forall op ensures Mnemonic(op) != text[start..start + length] {
      Defined(op);
    }
    r := None;
  }

  ghost function Lookup(mnemonic: string): Option<Operation>
  {
    if exists op :: Mnemonic(op) == mnemonic then var op :| Mnemonic(op) == mnemonic; Some(op) else None
  }

  lemma LookupIs(mnemonic: string, op: Operation)
    ensures Lookup(mnemonic) == Some(op) <==> Mnemonic(op) == mnemonic
  {
    if Mnemonic(op) == mnemonic {
      var found := Lookup(mnemonic).value;
      MnemonicsDistinct(op, found);
    }
  }

  // ---------------------------------------------------------------- what a text means

  /** An instruction with the operands it uses. */
  datatype Line = Line(op: Operation, operands: seq<nat>)

  datatype Assembly = Assembly(lines: seq<Line>) | UnknownOpcode | PastTheEnd

  function Span(t: string, a: char, b: char): (n: nat)
    ensures n <= |t| && (n < |t| ==> t[n] == a || t[n] == b)
    ensures forall i :: 0 <= i < n ==> t[i] != a && t[i] != b
  {
    if t == "" || t[0] == a || t[0] == b then 0 else 1 + Span(t[1..], a, b)
  }

  /** Reads k operands, each behind one character; what is left begins with the character
      that ended the last one. A text that ends too soon is read past its end. */
  function ReadOperands(t: string, k: nat, delimiter: char): (r: Option<(seq<nat>, string)>)
    ensures r.Some? ==> |r.value.0| == k && |r.value.1| <= |t| && (k > 0 ==> |r.value.1| < |t|)
    decreases k
  {
    if k == 0 then Some(([], t))
    else if t == "" then None
    else
      var u := t[1..];
      var n := Span(u, OPERAND_DELIMITER, delimiter);
      match ReadOperands(u[n..], k - 1, delimiter)
      case None => None
      case Some((rest, left)) => Some(([Stuif(u, n)] + rest, left))
  }

  function Rest(t: string): string
  {
    if t == "" then t else t[1..]
  }

  function Prepend(lines: seq<Line>, a: Assembly): Assembly
  {
    if a.Assembly? then Assembly(lines + a.lines) else a
  }

  ghost function Assemble(t: string, delimiter: char): Assembly
    decreases |t|
  {
    if t == "" then Assembly([])
    else
      var n := Span(t, OPCODE_DELIMITER, OPCODE_DELIMITER);
      match Lookup(t[..n])
      case None => UnknownOpcode
      case Some(op) =>
        match ReadOperands(t[n..], OperandCount(op), delimiter)
        case None => PastTheEnd
        case Some((operands, left)) => Prepend([Line(op, operands)], Assemble(Rest(left), delimiter))
  }

  function WithoutLeadingBlanks(t: string): (r: string)
    ensures r == "" || (r[0] != ' ' && r[0] != '\t')
  {
    if t != "" && (t[0] == ' ' || t[0] == '\t') then WithoutLeadingBlanks(t[1..]) else t
  }

  /** The lines that an array of instructions stands for: operands that an operation does
      not use have no meaning, and are whatever was in memory. */
  function Used(code: Program): (lines: seq<Line>)
    ensures |lines| == |code|
  {
    seq(|code|, i requires 0 <= i < |code| => Line(code[i].bytecode, code[i].operands[..OperandCount(code[i].bytecode)]))
  }

  // ---------------------------------------------------------------- the parser

  datatype Outcome = Assembled(code: Program) | Failed(assembly: Assembly)

  predicate Agrees(r: Outcome, a: Assembly)
  {
    match r
    case Assembled(code) => a == Assembly(Used(code))
    case Failed(f) => f == a && !a.Assembly?
  }

  /** Where a scan that starts at pos ends. */
  method Scan(text: string, start: nat, a: char, b: char) returns (pos: nat)
    requires start <= |text|
    ensures start <= pos <= |text| && pos == start + Span(text[start..], a, b)
  {
    pos := start;
    while pos < |text| && text[pos] != a && text[pos] != b
      invariant start <= pos <= |text|
      invariant start + Span(text[start..], a, b) == pos + Span(text[pos..], a, b)
    {
      assert text[pos..][1..] == text[pos + 1..];
      pos := pos + 1;
    }
  }

  method SkipBlanks(text: string) returns (pos: nat)
    ensures pos <= |text| && text[pos..] == WithoutLeadingBlanks(text)
  {
    pos := 0;
    while pos < |text| && (text[pos] == ' ' || text[pos] == '\t')
      invariant pos <= |text| && WithoutLeadingBlanks(text) == WithoutLeadingBlanks(text[pos..])
    {
      assert text[pos..][1..] == text[pos + 1..];
      pos := pos + 1;
    }
  }

  function Behind(done: seq<nat>, r: Option<(seq<nat>, string)>): Option<(seq<nat>, string)>
  {
    match r
    case None => None
    case Some((operands, left)) => Some((done + operands, left))
  }

  lemma ReadOne(text: string, pos: nat, end: nat, k: nat, delimiter: char)
    requires pos < end <= |text| && end == pos + 1 + Span(text[pos + 1..], OPERAND_DELIMITER, delimiter)
    ensures ReadOperands(text[pos..], k + 1, delimiter)
         == Behind([Stuif(text[pos + 1..], end - pos - 1)], ReadOperands(text[end..], k, delimiter))
  {
    hide Span, Stuif;
    assert text[pos..][1..] == text[pos + 1..];
    assert text[pos + 1..][end - pos - 1..] == text[end..];
  }

  lemma BehindNothing(r: Option<(seq<nat>, string)>)
    ensures Behind([], r) == r
  {
    if r.Some? { assert [] + r.value.0 == r.value.0; }
  }

  lemma BehindTwice(a: seq<nat>, b: seq<nat>, r: Option<(seq<nat>, string)>)
    ensures Behind(a, Behind(b, r)) == Behind(a + b, r)
  {
    if r.Some? { assert a + (b + r.value.0) == a + b + r.value.0; }
  }

  lemma ReadNone(t: string, k: nat, done: seq<nat>, delimiter: char)
    requires t == "" && k > 0
    ensures Behind(done, ReadOperands(t, k, delimiter)) == None
  {
  }

  lemma ReadAll(t: string, done: seq<nat>, delimiter: char)
    ensures Behind(done, ReadOperands(t, 0, delimiter)) == Some((done, t))
  {
    assert done + [] == done;
  }

  /** The operands of an instruction, read into an array of the size every instruction has:
      the elements behind the operands read keep what was in memory. */
  method ReadInto(text: string, start: nat, count: nat, delimiter: char, operands: array<nat>)
    returns (pos: nat, past: bool)
    requires start <= |text| && count <= operands.Length
    modifies operands
    ensures start <= pos <= |text| && (count > 0 && !past ==> start < pos)
    ensures ReadOperands(text[start..], count, delimiter) == if past then None else Some((operands[..count], text[pos..]))
    ensures operands[count..] == old(operands[count..])
  {
    hide ReadOperands, Span, Stuif, Behind;
    pos := start;
    past := false;
    var remaining := count;
    assert operands[..0] == [];
    BehindNothing(ReadOperands(text[start..], count, delimiter));
    while remaining > 0
      invariant 0 <= remaining <= count && start <= pos <= |text| && (remaining < count ==> start < pos)
      invariant ReadOperands(text[start..], count, delimiter)
             == Behind(operands[..count - remaining], ReadOperands(text[pos..], remaining, delimiter))
      invariant operands[count..] == old(operands[count..])
    {
      if pos == |text| {
        ReadNone(text[pos..], remaining, operands[..count - remaining], delimiter);
        past := true;
        return;
      }
      ghost var before, done := pos, operands[..count - remaining];
      pos := pos + 1;
      var operandStart := pos;
      pos := Scan(text, operandStart, OPERAND_DELIMITER, delimiter);
      ReadOne(text, before, pos, remaining - 1, delimiter);
      operands[count - remaining] := ReadNumeral(text, operandStart, pos - operandStart);
      remaining := remaining - 1;
      assert operands[..count - remaining] == done + [Stuif(text[operandStart..], pos - operandStart)];
      BehindTwice(done, [Stuif(text[operandStart..], pos - operandStart)], ReadOperands(text[pos..], remaining, delimiter));
    }
    ReadAll(text[pos..], operands[..count], delimiter);
  }

  /** One instruction more: a new array, and the old instructions copied. */
  method Grown(list: array<Instruction>, last: Instruction) returns (longer: array<Instruction>)
    ensures fresh(longer) && longer[..] == list[..] + [last]
  {
    longer := new Instruction[list.Length + 1](_ => last);
    forall i | 0 <= i < list.Length { longer[i] := list[i]; }
  }

  lemma UsedMore(code: Program, last: Instruction)
    ensures Used(code + [last]) == Used(code) + [Line(last.bytecode, last.operands[..OperandCount(last.bytecode)])]
  {
  }

  lemma PrependTwice(a: seq<Line>, b: seq<Line>, c: Assembly)
    ensures Prepend(a, Prepend(b, c)) == Prepend(a + b, c)
  {
    if c.Assembly? { assert a + (b + c.lines) == a + b + c.lines; }
  }

  lemma AssembleOne(text: string, pos: nat, end: nat, op: Operation, delimiter: char)
    requires pos < |text| && end == pos + Span(text[pos..], OPCODE_DELIMITER, OPCODE_DELIMITER)
    requires text[pos..end] == Mnemonic(op)
    ensures var r := ReadOperands(text[end..], OperandCount(op), delimiter);
            Assemble(text[pos..], delimiter)
              == if r.None? then PastTheEnd
                 else Prepend([Line(op, r.value.0)], Assemble(Rest(r.value.1), delimiter))
  {
    var t := text[pos..];
    assert t[..end - pos] == text[pos..end];
    assert t[end - pos..] == text[end..];
    LookupIs(t[..end - pos], op);
  }

  lemma AssembleUnknown(text: string, pos: nat, end: nat, delimiter: char)
    requires pos < |text| && end == pos + Span(text[pos..], OPCODE_DELIMITER, OPCODE_DELIMITER)
    requires forall op :: Mnemonic(op) != text[pos..end]
    ensures Assemble(text[pos..], delimiter) == UnknownOpcode
  {
    assert text[pos..][..end - pos] == text[pos..end];
  }

  lemma NoneUsed(a: Assembly)
    ensures Prepend(Used([]), a) == a && (a.Assembly? ==> Used([]) + a.lines == a.lines)
  {
  }

  lemma AllUsed(lines: seq<Line>)
    ensures Prepend(lines, Assembly([])) == Assembly(lines)
  {
    assert lines + [] == lines;
  }

  lemma FailurePasses(lines: seq<Line>, a: Assembly)
    requires !a.Assembly?
    ensures Prepend(lines, a) == a
  {
  }

  lemma EmptyAssembly(delimiter: char)
    ensures Assemble("", delimiter) == Assembly([])
  {
  }

  lemma DefinedAs(d: Definition)
    requires d in DEFINITIONS
    ensures d.mnemonic == Mnemonic(d.bytecode)
  {
    var i :| 0 <= i < |DEFINITIONS| && DEFINITIONS[i] == d;
    DefinitionAt(i);
  }

  /** parse_program: the cursor stays in the text, and the instructions are the lines of the
      text. */
  method ParseProgram(text: string, delimiter: char) returns (r: Outcome)
    requires CString(text)
    ensures Agrees(r, Assemble(WithoutLeadingBlanks(text), delimiter))
  {
    hide Assemble, ReadOperands, Used, Span, Stuif, Prepend, WithoutLeadingBlanks, Mnemonic, Lookup;
    var pos := SkipBlanks(text);
    var list := new Instruction[0];
    ghost var whole := Assemble(text[pos..], delimiter);
    assert whole == Prepend(Used(list[..]), Assemble(text[pos..], delimiter)) by { NoneUsed(whole); }
    while pos < |text|
      invariant pos <= |text|
      invariant whole == Prepend(Used(list[..]), Assemble(text[pos..], delimiter))
    {
      var opcodeStart := pos;
      pos := Scan(text, pos, OPCODE_DELIMITER, OPCODE_DELIMITER);
      var definition := FindDefinition(text, opcodeStart, pos - opcodeStart);
      if definition.None? {
        AssembleUnknown(text, opcodeStart, pos, delimiter);
        FailurePasses(Used(list[..]), UnknownOpcode);
        return Failed(UnknownOpcode);
      }
      var op := definition.value.bytecode;
      DefinedAs(definition.value);
      AssembleOne(text, opcodeStart, pos, op, delimiter);
      var operands := new nat[MAX_OPERAND_COUNT];
      var past;
      pos, past := ReadInto(text, pos, OperandCount(op), delimiter, operands);
      if past {
        FailurePasses(Used(list[..]), PastTheEnd);
        return Failed(PastTheEnd);
      }
      ghost var done, tail := list[..], Assemble(Rest(text[pos..]), delimiter);
      var last := Instruction(op, operands[..]);
      list := Grown(list, last);
      assert last.operands[..OperandCount(op)] == operands[..OperandCount(op)];
      UsedMore(done, last);
      PrependTwice(Used(done), [Line(op, operands[..OperandCount(op)])], tail);
      if pos < |text| {
        assert text[pos..][1..] == text[pos + 1..];
        pos := pos + 1;
      }
    }
    assert text[pos..] == "";
    EmptyAssembly(delimiter);
    AllUsed(Used(list[..]));
    return Assembled(list[..]);
  }
}
