/** The machine that programs are compiled for (machine.hpp). */
module Machine {

  datatype Operation =
    | Macro | Initialize | Identity | Hadamard | Phase
    | Measure | Cnot | PauliX | PauliY | PauliZ

  /** Every instruction stores two operands, whether or not it uses both. */
  const MAX_OPERAND_COUNT := 2

  function OperandCount(op: Operation): nat
  {
    if op.Macro? || op.Cnot? then 2 else 1
  }

  type Operands = s: seq<nat> | |s| == MAX_OPERAND_COUNT witness [0, 0]

  datatype Instruction = Instruction(bytecode: Operation, operands: Operands)

  type Program = seq<Instruction>
}
