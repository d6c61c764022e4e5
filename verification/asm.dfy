/**
  Registers, operands and the instructions the modelled generator emits, with the
  one-line `emit_*` formatters that turn each instruction into a line of assembly.
 */
module Asm {
  import opened CStrings
  import opened Decimal
  import opened AddrFormat
  import opened Seqs
  import Macros

  datatype Reg = Rbp | Rsp | Rbx | R12 | R13 | R14 | R15 | Rdi | Rsi | Rdx | Rcx | R8 | R9

  function RegName(r: Reg): CStr
  {
    match r
    case Rbp => Macros.RBP
    case Rsp => Macros.RSP
    case Rbx => Macros.RBX
    case R12 => Macros.R12
    case R13 => Macros.R13
    case R14 => Macros.R14
    case R15 => Macros.R15
    case Rdi => Macros.RDI
    case Rsi => Macros.RSI
    case Rdx => Macros.RDX
    case Rcx => Macros.RCX
    case R8 => Macros.R8
    case R9 => Macros.R9
  }

  /** CALL_REGS: the integer argument registers, in calling-convention order. */
  const CallRegs: seq<Reg> := [Rdi, Rsi, Rdx, Rcx, R8, R9]

  /** A register, an immediate `$<value>`, or the memory word `offset` bytes below a base register. */
  datatype Operand = R(reg: Reg) | Imm(value: nat) | Mem(base: Reg, offset: nat)

  function NatText(n: nat): string
  {
    if n == 0 then "0" else DecimalText(n)
  }

  function OperandText(o: Operand): string
  {
    match o
    case R(r) => RegName(r)
    case Imm(v) => "$" + NatText(v)
    case Mem(b, d) => if d == 0 then RegName(b) else AddrText(RegName(b), d)
  }

  datatype Instr =
    | Push(r: Reg)
    | Pop(r: Reg)
    | Mov(src: Operand, dst: Operand)
    | Add(src: Operand, dst: Operand)
    | Sub(src: Operand, dst: Operand)
    | Leave
    | Ret

  /**
    The line the matching `emit_*` formatter writes for an instruction: the
    mnemonic first; for push and pop the register last; for mov, add and sub the
    source operand right after the mnemonic and the destination last.
   */
  function Render(i: Instr): (line: string)
    ensures (i.Push? ==> Macros.PUSH <= line) && (i.Pop? ==> Macros.POP <= line)
    ensures (i.Push? || i.Pop?) ==> EndsWith(line, RegName(i.r))
    ensures i.Mov? ==> Macros.MOV + OperandText(i.src) <= line
    ensures i.Add? ==> Macros.ADD + OperandText(i.src) <= line
    ensures i.Sub? ==> Macros.SUB + OperandText(i.src) <= line
    ensures (i.Mov? || i.Add? || i.Sub?) ==> EndsWith(line, OperandText(i.dst))
    ensures (i.Leave? ==> line == Macros.LEAVE) && (i.Ret? ==> line == Macros.RET)
  {
    match i
    case Push(r) => Macros.PUSH + " " + RegName(r)
    case Pop(r) => Macros.POP + " " + RegName(r)
    case Mov(s, d) => Macros.MOV + OperandText(s) + Macros.COMMA + OperandText(d)
    case Add(s, d) => Macros.ADD + OperandText(s) + Macros.COMMA + OperandText(d)
    case Sub(s, d) => Macros.SUB + OperandText(s) + Macros.COMMA + OperandText(d)
    case Leave => Macros.LEAVE
    case Ret => Macros.RET
  }

  function RenderAll(code: seq<Instr>): (lines: seq<string>)
    ensures |lines| == |code|
  {
    if code == [] then [] else [Render(code[0])] + RenderAll(code[1..])
  }

  /** Line k of a rendered listing is instruction k's line. */
  lemma {:induction false} RenderAllAt(code: seq<Instr>, k: nat)
    requires k < |code|
    ensures RenderAll(code)[k] == Render(code[k])
  {
    RenderCons(code[0], code[1..]);
    assert code == [code[0]] + code[1..];
    if k > 0 {
      RenderAllAt(code[1..], k - 1);
    }
  }

  /** Rendering a listing with a first instruction gives that instruction's line first. */
  lemma RenderCons(x: Instr, rest: seq<Instr>)
    ensures RenderAll([x] + rest) == [Render(x)] + RenderAll(rest)
  {
    assert ([x] + rest)[1..] == rest;
  }

  /** Rendering distributes over concatenation of listings. */
  lemma {:induction false} RenderAllAppend(a: seq<Instr>, b: seq<Instr>)
    ensures RenderAll(a + b) == RenderAll(a) + RenderAll(b)
  {
    if a == [] {
      assert a + b == b;
    } else {
      assert (a + b)[1..] == a[1..] + b;
      RenderAllAppend(a[1..], b);
    }
  }
}
