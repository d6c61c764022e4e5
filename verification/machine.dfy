/**
  A word-level machine for the frame instructions the generator emits, used to
  give its prologue and epilogue a meaning: registers hold words, and the stack
  holds words with its top last, so that %rsp is the stack's depth in words.
 */
module Machine {
  import opened Options
  import opened Asm
  import opened Seqs

  datatype State = State(regs: map<Reg, int>, stack: seq<int>)

  function Read(m: State, r: Reg): int
  {
    if r == Rsp then |m.stack| else if r in m.regs then m.regs[r] else 0
  }

  /** `k` fresh stack words; the model takes their unspecified contents to be zero. */
  function Zeros(k: nat): (z: seq<int>)
    ensures |z| == k
    ensures forall i :: 0 <= i < k ==> z[i] == 0
  {
    if k == 0 then [] else Zeros(k - 1) + [0]
  }

  /** One instruction; None for a stack underflow or a form the machine does not give a meaning. */
  function Exec(i: Instr, m: State): Option<State>
  {
    match i
    case Push(r) => Some(m.(stack := m.stack + [Read(m, r)]))
    case Pop(r) =>
      if |m.stack| == 0 || r == Rsp then None
      else Some(State(m.regs[r := m.stack[|m.stack| - 1]], m.stack[..|m.stack| - 1]))
    case Mov(R(a), R(b)) =>
      if b != Rsp then Some(m.(regs := m.regs[b := Read(m, a)]))
      else if 0 <= Read(m, a) <= |m.stack| then Some(m.(stack := m.stack[..Read(m, a)]))
      else None
    // a store through a register base: memory outside the stack model
    case Mov(R(_), Mem(_, _)) => Some(m)
    case Sub(Imm(v), R(Rsp)) =>
      if v % 8 == 0 then Some(m.(stack := m.stack + Zeros(v / 8))) else None
    case Add(Imm(v), R(Rsp)) =>
      if v % 8 == 0 && v / 8 <= |m.stack| then Some(m.(stack := m.stack[..|m.stack| - v / 8])) else None
    case Leave =>
      // mov %rbp, %rsp; pop %rbp
      var d := Read(m, Rbp);
      if 0 < d <= |m.stack| then Some(State(m.regs[Rbp := m.stack[d - 1]], m.stack[..d - 1])) else None
    case Ret =>
      if |m.stack| == 0 then None else Some(m.(stack := m.stack[..|m.stack| - 1]))
    case _ => None
  }

  function Run(code: seq<Instr>, m: State): Option<State>
    decreases |code|
  {
    if code == [] then Some(m)
    else
      match Exec(code[0], m)
      case None => None
      case Some(m') => Run(code[1..], m')
  }

  /** Running an instruction followed by more code runs the instruction, then the rest. */
  lemma RunCons(i: Instr, rest: seq<Instr>, m: State)
    ensures Run([i] + rest, m) == match Exec(i, m) case None => None case Some(m') => Run(rest, m')
  {
    ConsTail(i, rest);
  }

  /** Running two pieces of code in sequence is running their concatenation. */
  lemma {:induction false} RunAppend(a: seq<Instr>, b: seq<Instr>, m: State)
    ensures Run(a + b, m) == match Run(a, m) case None => None case Some(m') => Run(b, m')
    decreases |a|
  {
    if a == [] {
      assert a + b == b;
    } else {
      assert (a + b)[1..] == a[1..] + b;
      match Exec(a[0], m)
      case None =>
      case Some(m') => RunAppend(a[1..], b, m');
    }
  }

  /** Code that reaches `s` followed by code that takes `s` to `m'` takes the start state to `m'`. */
  lemma RunThen(a: seq<Instr>, b: seq<Instr>, m: State, s: State, m': State)
    requires Run(a, m) == Some(s) && Run(b, s) == Some(m')
    ensures Run(a + b, m) == Some(m')
  {
    RunAppend(a, b, m);
  }
}
