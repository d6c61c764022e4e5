/**
  The function frame the generator builds around every call declaration: the
  prologue that saves the callee-saved registers, the parameter spills, and the
  epilogue that restores them — with their meaning on the word-level machine.
 */
module Frame {
  import opened Options
  import opened CStrings
  import opened Asm
  import opened AddrFormat
  import opened Machine
  import opened Seqs
  import Macros

  /** The frame cursor after the five callee-saved pushes, in bytes. */
  const FrameBase: nat := 40

  /** The callee-saved registers the prologue saves after RBP, in push order. */
  const SavedRegs: seq<Reg> := [Rbx, R12, R13, R14, R15]

  function Pushes(rs: seq<Reg>): (code: seq<Instr>)
    ensures |code| == |rs|
  {
    if rs == [] then [] else [Push(rs[0])] + Pushes(rs[1..])
  }

  function Pops(rs: seq<Reg>): (code: seq<Instr>)
    ensures |code| == |rs|
  {
    if rs == [] then [] else [Pop(rs[0])] + Pops(rs[1..])
  }

  /** Save the caller's frame pointer, set up the new one, save RBX, R12..R15. */
  function Prologue(): seq<Instr>
  {
    [Push(Rbp), Mov(R(Rsp), R(Rbp))] + Pushes(SavedRegs)
  }

  /** Restore R15..R12, RBX, drop the frame, return. */
  function Epilogue(): seq<Instr>
  {
    Pops([R15, R14, R13, R12, Rbx]) + [Leave, Ret]
  }

  function PushedRegs(code: seq<Instr>): seq<Reg>
  {
    if code == [] then []
    else (if code[0].Push? then [code[0].r] else []) + PushedRegs(code[1..])
  }

  function PoppedRegs(code: seq<Instr>): seq<Reg>
  {
    if code == [] then []
    else (if code[0].Pop? then [code[0].r] else []) + PoppedRegs(code[1..])
  }

  lemma {:induction false} PushedAppend(a: seq<Instr>, b: seq<Instr>)
    ensures PushedRegs(a + b) == PushedRegs(a) + PushedRegs(b)
    decreases |a|
  {
    if a == [] {
      assert a + b == b;
    } else {
      ConsTail(a[0], a[1..] + b);
      assert a + b == [a[0]] + (a[1..] + b);
      PushedAppend(a[1..], b);
      AppendAssoc(if a[0].Push? then [a[0].r] else [], PushedRegs(a[1..]), PushedRegs(b));
    }
  }

  lemma {:induction false} PoppedAppend(a: seq<Instr>, b: seq<Instr>)
    ensures PoppedRegs(a + b) == PoppedRegs(a) + PoppedRegs(b)
    decreases |a|
  {
    if a == [] {
      assert a + b == b;
    } else {
      ConsTail(a[0], a[1..] + b);
      assert a + b == [a[0]] + (a[1..] + b);
      PoppedAppend(a[1..], b);
      AppendAssoc(if a[0].Pop? then [a[0].r] else [], PoppedRegs(a[1..]), PoppedRegs(b));
    }
  }

  lemma {:induction false} PushedPushes(rs: seq<Reg>)
    ensures PushedRegs(Pushes(rs)) == rs
    decreases |rs|
  {
    if rs != [] {
      ConsTail(Push(rs[0]), Pushes(rs[1..]));
      PushedPushes(rs[1..]);
      ConsTail(rs[0], rs[1..]);
    }
  }

  lemma {:induction false} PoppedPops(rs: seq<Reg>)
    ensures PoppedRegs(Pops(rs)) == rs
    decreases |rs|
  {
    if rs != [] {
      ConsTail(Pop(rs[0]), Pops(rs[1..]));
      PoppedPops(rs[1..]);
      ConsTail(rs[0], rs[1..]);
    }
  }

  /** The prologue pushes RBP, then the callee-saved registers in order, and no other register. */
  lemma ProloguePushes()
    ensures PushedRegs(Prologue()) == [Rbp] + SavedRegs
  {
    var head: seq<Instr> := [Push(Rbp), Mov(R(Rsp), R(Rbp))];
    PushedAppend(head, Pushes(SavedRegs));
    PushedPushes(SavedRegs);
    assert PushedRegs(head) == [Rbp];
  }

  /** The epilogue pops exactly the callee-saved registers the prologue pushes after RBP, in reverse order. */
  lemma EpiloguePopsInReverse()
    ensures PoppedRegs(Epilogue()) == Reverse(SavedRegs)
  {
    var tail: seq<Instr> := [Leave, Ret];
    var popped := [R15, R14, R13, R12, Rbx];
    PoppedAppend(Pops(popped), tail);
    PoppedPops(popped);
    assert PoppedRegs(tail) == [];
    assert Reverse(SavedRegs[4..]) == [R15];
    assert Reverse(SavedRegs[3..]) == [R15, R14];
    assert Reverse(SavedRegs[2..]) == [R15, R14, R13];
    assert Reverse(SavedRegs[1..]) == [R15, R14, R13, R12];
  }

  /** One parameter's spill: reserve a stack word, then store the argument register at the formatted address. */
  function ParamSpill(i: nat, offset: nat): seq<Instr>
    requires i < |CallRegs| && offset > 0
  {
    [Sub(Imm(8), R(Rsp)), Mov(R(CallRegs[i]), Mem(CallRegs[i], offset))]
  }

  /**
    A spill's lines: emit_sub("$8", RSP), then emit_mov from CALL_REGS[i] to the
    text addr_reg_shift formats for CALL_REGS[i] and the offset.
   */
  lemma ParamSpillText(i: nat, offset: nat)
    requires i < |CallRegs| && offset > 0
    ensures RenderAll(ParamSpill(i, offset)) == [Macros.SUB + "$8" + Macros.COMMA + Macros.RSP,
      Macros.MOV + RegName(CallRegs[i]) + Macros.COMMA + AddrText(RegName(CallRegs[i]), offset)]
  {
    var sub := Sub(Imm(8), R(Rsp));
    var mov := Mov(R(CallRegs[i]), Mem(CallRegs[i], offset));
    assert OperandText(Imm(8)) == "$8" by {
      assert NatText(8) == "8";
    }
    assert Render(sub) == Macros.SUB + "$8" + Macros.COMMA + Macros.RSP;
    assert RenderAll([mov]) == [Render(mov)];
    assert [sub, mov][1..] == [mov];
  }

  /** The spills of `n` parameters, one after another. */
  function SpillCode(n: nat): (code: seq<Instr>)
    requires n <= |CallRegs|
    ensures |code| == 2 * n
  {
    if n == 0 then [] else SpillCode(n - 1) + ParamSpill(n - 1, FrameBase + 8 * n)
  }

  /** The prologue's lines: emit_push(RBP), emit_mov(RSP, RBP), then emit_push of RBX, R12, R13, R14, R15. */
  lemma PrologueText()
    ensures RenderAll(Prologue()) == [Macros.PUSH + " " + Macros.RBP, Macros.MOV + Macros.RSP + Macros.COMMA + Macros.RBP,
      Macros.PUSH + " " + Macros.RBX, Macros.PUSH + " " + Macros.R12, Macros.PUSH + " " + Macros.R13,
      Macros.PUSH + " " + Macros.R14, Macros.PUSH + " " + Macros.R15]
  {
    var a5: seq<Instr> := [Push(R15)] + [];
    var a4 := [Push(R14)] + a5;
    var a3 := [Push(R13)] + a4;
    var a2 := [Push(R12)] + a3;
    var a1 := [Push(Rbx)] + a2;
    var a0 := [Mov(R(Rsp), R(Rbp))] + a1;
    assert Pushes(SavedRegs) == a1;
    assert Prologue() == [Push(Rbp)] + a0;
    RenderCons(Push(R15), []);
    RenderCons(Push(R14), a5);
    RenderCons(Push(R13), a4);
    RenderCons(Push(R12), a3);
    RenderCons(Push(Rbx), a2);
    RenderCons(Mov(R(Rsp), R(Rbp)), a1);
    RenderCons(Push(Rbp), a0);
  }

  /** The epilogue's lines: emit_pop of R15, R14, R13, R12, RBX, then emit_leave and emit_ret. */
  lemma EpilogueText()
    ensures RenderAll(Epilogue()) == [Macros.POP + " " + Macros.R15, Macros.POP + " " + Macros.R14,
      Macros.POP + " " + Macros.R13, Macros.POP + " " + Macros.R12, Macros.POP + " " + Macros.RBX,
      Macros.LEAVE, Macros.RET]
  {
    var b4: seq<Instr> := [Pop(Rbx)] + [];
    var b3 := [Pop(R12)] + b4;
    var b2 := [Pop(R13)] + b3;
    var b1 := [Pop(R14)] + b2;
    var b0 := [Pop(R15)] + b1;
    var tail: seq<Instr> := [Leave] + ([Ret] + []);
    assert Pops([R15, R14, R13, R12, Rbx]) == b0;
    assert Epilogue() == b0 + tail;
    RenderAllAppend(b0, tail);
    RenderCons(Pop(Rbx), []);
    RenderCons(Pop(R12), b4);
    RenderCons(Pop(R13), b3);
    RenderCons(Pop(R14), b2);
    RenderCons(Pop(R15), b1);
    RenderCons(Ret, []);
    RenderCons(Leave, [Ret] + []);
  }

  /** Parameter k's spill sits at instructions 2k and 2k + 1, at offset 48 + 8k formatted against CALL_REGS[k]. */
  lemma {:induction false} SpillCodeAt(n: nat, k: nat)
    requires k < n <= |CallRegs|
    ensures SpillCode(n)[2 * k..2 * k + 2] == ParamSpill(k, FrameBase + 8 + 8 * k)
  {
    var prev := SpillCode(n - 1);
    var last := ParamSpill(n - 1, FrameBase + 8 * n);
    if k < n - 1 {
      SpillCodeAt(n - 1, k);
      SliceOfLeft(prev, last, 2 * k, 2 * k + 2);
    } else {
      SliceOfRight(prev, last, 2 * k, 2 * k + 2);
    }
  }

  /** The values of the registers `rs`, in order. */
  function Reads(m: State, rs: seq<Reg>): (ws: seq<int>)
    ensures |ws| == |rs|
  {
    if rs == [] then [] else [Read(m, rs[0])] + Reads(m, rs[1..])
  }

  lemma {:induction false} ReadsAgree(m: State, m': State, rs: seq<Reg>)
    requires forall r :: r in rs ==> Read(m, r) == Read(m', r)
    ensures Reads(m, rs) == Reads(m', rs)
    decreases |rs|
  {
    if rs != [] {
      assert rs[0] in rs;
      assert forall r :: r in rs[1..] ==> r in rs;
      ReadsAgree(m, m', rs[1..]);
    }
  }

  /** Pushing registers other than RSP stacks their values in order and changes no register. */
  lemma {:induction false} RunPushes(rs: seq<Reg>, m: State)
    requires Rsp !in rs
    ensures Run(Pushes(rs), m) == Some(m.(stack := m.stack + Reads(m, rs)))
    decreases |rs|
  {
    if rs == [] {
      AppendEmpty(m.stack);
    } else {
      var m1 := m.(stack := m.stack + [Read(m, rs[0])]);
      RunCons(Push(rs[0]), Pushes(rs[1..]), m);
      RunPushes(rs[1..], m1);
      assert forall r :: r in rs[1..] ==> r in rs;
      ReadsAgree(m, m1, rs[1..]);
      AppendAssoc(m.stack, [Read(m, rs[0])], Reads(m, rs[1..]));
    }
  }


  /** The registers after popping the words of `v` into `rs` in turn, rs[0] taking the topmost. */
  function PopInto(regs: map<Reg, int>, rs: seq<Reg>, v: seq<int>): map<Reg, int>
    requires |v| == |rs|
    decreases |rs|
  {
    if rs == [] then regs else PopInto(regs[rs[0] := v[|v| - 1]], rs[1..], v[..|v| - 1])
  }

  /** Popping into registers other than RSP takes the words off the top of the stack. */
  lemma {:induction false} RunPops(rs: seq<Reg>, s: State, t: seq<int>, v: seq<int>)
    requires Rsp !in rs && |v| == |rs| && s.stack == t + v
    ensures Run(Pops(rs), s) == Some(State(PopInto(s.regs, rs, v), t))
    decreases |rs|
  {
    if rs == [] {
      assert s.stack == t;
    } else {
      var w := v[|v| - 1];
      var v' := v[..|v| - 1];
      assert s.stack == (t + v') + [w];
      ExecPop(s, rs[0], t + v', w);
      assert Pops(rs)[1..] == Pops(rs[1..]);
      RunPops(rs[1..], State(s.regs[rs[0] := w], t + v'), t, v');
    }
  }

  /** A register outside `rs` keeps its value through the pops. */
  lemma {:induction false} PopIntoOther(regs: map<Reg, int>, rs: seq<Reg>, v: seq<int>, r: Reg)
    requires |v| == |rs| && r !in rs
    ensures r in PopInto(regs, rs, v) <==> r in regs
    ensures r in regs ==> PopInto(regs, rs, v)[r] == regs[r]
    decreases |rs|
  {
    if rs != [] {
      PopIntoOther(regs[rs[0] := v[|v| - 1]], rs[1..], v[..|v| - 1], r);
    }
  }

  /** The machine state after the prologue: RBP and the callee-saved registers stacked above the return address. */
  function AfterPrologue(m: State): State
  {
    State(m.regs[Rbp := |m.stack| + 1], m.stack + [Read(m, Rbp)] + Reads(m, SavedRegs))
  }

  /** Saving RBP, moving the frame pointer up and pushing `rs` stacks RBP and then `rs`'s values. */
  lemma RunFrameEntry(rs: seq<Reg>, m: State)
    requires Rsp !in rs && Rbp !in rs
    ensures Run([Push(Rbp), Mov(R(Rsp), R(Rbp))] + Pushes(rs), m)
      == Some(State(m.regs[Rbp := |m.stack| + 1], m.stack + [Read(m, Rbp)] + Reads(m, rs)))
  {
    var head: seq<Instr> := [Push(Rbp), Mov(R(Rsp), R(Rbp))];
    var m1 := m.(stack := m.stack + [Read(m, Rbp)]);
    var m2 := m1.(regs := m1.regs[Rbp := |m1.stack|]);
    assert head == [Push(Rbp)] + [Mov(R(Rsp), R(Rbp))];
    RunCons(Push(Rbp), [Mov(R(Rsp), R(Rbp))], m);
    RunCons(Mov(R(Rsp), R(Rbp)), [], m1);
    RunAppend(head, Pushes(rs), m);
    RunPushes(rs, m2);
    ReadsAgree(m2, m, rs);
  }

  lemma RunPrologue(m: State)
    ensures Run(Prologue(), m) == Some(AfterPrologue(m))
  {
    RunFrameEntry(SavedRegs, m);
  }

  /** Each spill reserves one zeroed word and stores outside the stack. */
  lemma {:induction false} RunSpillCode(n: nat, m: State)
    requires n <= |CallRegs|
    ensures Run(SpillCode(n), m) == Some(m.(stack := m.stack + Zeros(n)))
  {
    if n > 0 {
      RunSpillCode(n - 1, m);
      var m1 := m.(stack := m.stack + Zeros(n - 1));
      var spill := ParamSpill(n - 1, FrameBase + 8 * n);
      RunAppend(SpillCode(n - 1), spill, m);
      var m2 := m1.(stack := m1.stack + Zeros(1));
      assert Exec(spill[0], m1) == Some(m2);
      assert Exec(spill[1], m2) == Some(m2);
      assert Run(spill[2..], m2) == Some(m2);
      assert Run(spill[1..], m2) == Some(m2);
      assert Run(spill, m1) == Some(m2);
      assert SpillCode(n) == SpillCode(n - 1) + spill;
      assert m.stack + Zeros(n - 1) + Zeros(1) == m.stack + Zeros(n);
      assert m2 == m.(stack := m.stack + Zeros(n));
      assert Run(SpillCode(n), m) == Run(spill, m1);
    } else {
      assert m.stack + Zeros(0) == m.stack;
    }
  }

  /** One pop: the top word goes to the register. */
  lemma ExecPop(s: State, r: Reg, t: seq<int>, w: int)
    requires r != Rsp && s.stack == t + [w]
    ensures Exec(Pop(r), s) == Some(State(s.regs[r := w], t))
  {
    assert s.stack[..|s.stack| - 1] == t;
  }

  /** Popping into `rs`, then `leave` and `ret`: the words of `v` go to `rs`, RBP is reloaded below the frame pointer. */
  lemma RunFrameExit(rs: seq<Reg>, s: State, t: seq<int>, v: seq<int>)
    requires Rsp !in rs && Rbp !in rs && |v| == |rs| && s.stack == t + v
    requires 2 <= Read(s, Rbp) <= |t|
    ensures Run(Pops(rs) + [Leave, Ret], s)
      == Some(State(PopInto(s.regs, rs, v)[Rbp := t[Read(s, Rbp) - 1]], t[..Read(s, Rbp) - 2]))
  {
    var tail: seq<Instr> := [Leave, Ret];
    var d := Read(s, Rbp);
    var s5 := State(PopInto(s.regs, rs, v), t);
    RunPops(rs, s, t, v);
    RunAppend(Pops(rs), tail, s);
    PopIntoOther(s.regs, rs, v, Rbp);
    assert Read(s5, Rbp) == d;
    var s6 := State(s5.regs[Rbp := t[d - 1]], t[..d - 1]);
    assert tail == [Leave] + [Ret];
    RunCons(Leave, [Ret], s5);
    assert t[..d - 1][..d - 2] == t[..d - 2];
    RunCons(Ret, [], s6);
  }

  lemma RunEpilogue(s: State, t: seq<int>, v: seq<int>) returns (s': State)
    requires |v| == 5 && s.stack == t + v
    requires 2 <= Read(s, Rbp) <= |t|
    ensures Run(Epilogue(), s) == Some(s')
    ensures s'.stack == t[..Read(s, Rbp) - 2]
    ensures Read(s', Rbp) == t[Read(s, Rbp) - 1]
    ensures Read(s', Rbx) == v[0] && Read(s', R12) == v[1] && Read(s', R13) == v[2]
    ensures Read(s', R14) == v[3] && Read(s', R15) == v[4]
  {
    var d := Read(s, Rbp);
    var r := PopInto(s.regs, [R15, R14, R13, R12, Rbx], v);
    RunFrameExit([R15, R14, R13, R12, Rbx], s, t, v);
    PopsFive(s.regs, v);
    s' := State(r[Rbp := t[d - 1]], t[..d - 2]);
  }

  /** Where the five pops leave the saved words: R15 takes the top, RBX the fifth from the top. */
  lemma PopsFive(regs: map<Reg, int>, v: seq<int>)
    requires |v| == 5
    ensures var r := PopInto(regs, [R15, R14, R13, R12, Rbx], v);
      && Rbx in r && R12 in r && R13 in r && R14 in r && R15 in r
      && r[Rbx] == v[0] && r[R12] == v[1] && r[R13] == v[2] && r[R14] == v[3] && r[R15] == v[4]
  {
    var r1 := regs[R15 := v[4]];
    var r2 := r1[R14 := v[3]];
    var r3 := r2[R13 := v[2]];
    var r4 := r3[R12 := v[1]];
    var r5 := r4[Rbx := v[0]];
    assert PopInto(r5, [], []) == r5;
    assert PopInto(r4, [Rbx], v[..1]) == r5;
    assert PopInto(r3, [R12, Rbx], v[..2]) == r5;
    assert PopInto(r2, [R13, R12, Rbx], v[..3]) == r5;
    assert PopInto(r1, [R14, R13, R12, Rbx], v[..4]) == r5;
  }

  /** Every register the prologue saves, RBP included, holds its entry value again. */
  predicate Restored(m: State, m': State)
  {
    && Read(m', Rbp) == Read(m, Rbp)
    && Read(m', Rbx) == Read(m, Rbx)
    && Read(m', R12) == Read(m, R12)
    && Read(m', R13) == Read(m, R13)
    && Read(m', R14) == Read(m, R14)
    && Read(m', R15) == Read(m, R15)
  }

  /** The stacked words `AfterPrologue` leaves: the saved RBP below the five callee-saved registers. */
  lemma AfterPrologueStack(m: State) returns (t: seq<int>, v: seq<int>)
    ensures t == m.stack + [Read(m, Rbp)]
    ensures v == [Read(m, Rbx), Read(m, R12), Read(m, R13), Read(m, R14), Read(m, R15)]
    ensures AfterPrologue(m).stack == t + v
    ensures Read(AfterPrologue(m), Rbp) == |m.stack| + 1
  {
    t := m.stack + [Read(m, Rbp)];
    v := Reads(m, SavedRegs);
    assert Reads(m, SavedRegs[4..]) == [Read(m, R15)];
    assert Reads(m, SavedRegs[3..]) == [Read(m, R14), Read(m, R15)];
    assert Reads(m, SavedRegs[2..]) == [Read(m, R13), Read(m, R14), Read(m, R15)];
    assert Reads(m, SavedRegs[1..]) == [Read(m, R12), Read(m, R13), Read(m, R14), Read(m, R15)];
  }

  /**
    Without parameters, prologue then epilogue returns to the caller with every
    saved register restored and the return address popped.
   */
  lemma FrameRestoresWithoutParams(m: State) returns (m': State)
    requires |m.stack| >= 1
    ensures Run(Prologue() + Epilogue(), m) == Some(m')
    ensures Restored(m, m')
    ensures m'.stack == m.stack[..|m.stack| - 1]
  {
    var s := AfterPrologue(m);
    RunPrologue(m);
    m' := EpilogueAfterPrologue(m, s);
    RunThen(Prologue(), Epilogue(), m, s, m');
  }

  /** The epilogue run straight on the machine the prologue left undoes it. */
  lemma EpilogueAfterPrologue(m: State, s: State) returns (m': State)
    requires |m.stack| >= 1
    requires s == AfterPrologue(m)
    ensures Run(Epilogue(), s) == Some(m')
    ensures Restored(m, m')
    ensures m'.stack == m.stack[..|m.stack| - 1]
  {
    var t, v := AfterPrologueStack(m);
    m' := RunEpilogue(s, t, v);
    assert t[..|m.stack| - 1] == m.stack[..|m.stack| - 1];
  }

  /** The top five words once `n` zeroed parameter words sit above the five saved registers. */
  lemma SplitTopFive(t0: seq<int>, v0: seq<int>, n: nat) returns (t: seq<int>, v: seq<int>)
    requires |v0| == 5 && 1 <= n
    ensures t0 + v0 + Zeros(n) == t + v
    ensures |v| == 5 && |t| == |t0| + n
    ensures v[4] == 0
    ensures n == 1 ==> v[0] == v0[1]
  {
    var all := t0 + v0 + Zeros(n);
    t := all[..|all| - 5];
    v := all[|all| - 5..];
    assert all == t + v;
    assert v[4] == all[|all| - 1] == Zeros(n)[n - 1];
    if n == 1 {
      assert v[0] == all[|all| - 5] == v0[1];
    }
  }

  /**
    As written, with one parameter or more the epilogue pops without releasing the
    parameter words: R15 is loaded from the topmost parameter word instead of its
    saved value, and with exactly one parameter RBX receives R12's saved value.
   */
  lemma SpilledFrameMisrestores(n: nat, m: State) returns (m': State)
    requires 1 <= n <= |CallRegs|
    requires |m.stack| >= 1
    ensures Run(Prologue() + SpillCode(n) + Epilogue(), m) == Some(m')
    ensures Read(m', R15) == 0
    ensures n == 1 ==> Read(m', Rbx) == Read(m, R12)
  {
    var s := AfterPrologue(m);
    var s' := s.(stack := s.stack + Zeros(n));
    RunPrologue(m);
    RunSpillCode(n, s);
    RunThen(Prologue(), SpillCode(n), m, s, s');
    var t0, v0 := AfterPrologueStack(m);
    var t, v := SplitTopFive(t0, v0, n);
    assert s'.stack == t + v;
    m' := RunEpilogue(s', t, v);
    RunThen(Prologue() + SpillCode(n), Epilogue(), m, s', m');
  }

  /**
    The epilogue corrected to release the parameter words (`add $8n, %rsp`) before
    the pops.
   */
  function CorrectedEpilogue(n: nat): seq<Instr>
  {
    ReleaseParams(n) + Epilogue()
  }

  function ReleaseParams(n: nat): seq<Instr>
  {
    if n > 0 then [Add(Imm(8 * n), R(Rsp))] else []
  }

  /** Releasing the parameter words drops exactly the words the spills reserved. */
  lemma RunReleaseParams(n: nat, s: State)
    ensures Run(ReleaseParams(n), s.(stack := s.stack + Zeros(n))) == Some(s)
  {
    var s' := s.(stack := s.stack + Zeros(n));
    if n > 0 {
      assert s'.stack[..|s'.stack| - n] == s.stack;
      assert Exec(ReleaseParams(n)[0], s') == Some(s);
      assert Run(ReleaseParams(n)[1..], s) == Some(s);
    } else {
      assert s' == s;
    }
  }

  /** The corrected epilogue on a frame holding `n` parameter words ends where the epilogue ends without them. */
  lemma RunCorrectedEpilogue(n: nat, s: State)
    ensures Run(CorrectedEpilogue(n), s.(stack := s.stack + Zeros(n))) == Run(Epilogue(), s)
  {
    RunReleaseParams(n, s);
    RunAppend(ReleaseParams(n), Epilogue(), s.(stack := s.stack + Zeros(n)));
  }

  /** With the corrected epilogue, every parameter count restores every saved register and returns. */
  lemma CorrectedFrameRestores(n: nat, m: State) returns (m': State)
    requires n <= |CallRegs|
    requires |m.stack| >= 1
    ensures Run(Prologue() + SpillCode(n) + CorrectedEpilogue(n), m) == Some(m')
    ensures Restored(m, m')
    ensures m'.stack == m.stack[..|m.stack| - 1]
  {
    var s := AfterPrologue(m);
    var s' := s.(stack := s.stack + Zeros(n));
    RunPrologue(m);
    RunSpillCode(n, s);
    RunThen(Prologue(), SpillCode(n), m, s, s');
    m' := EpilogueAfterPrologue(m, s);
    RunCorrectedEpilogue(n, s);
    RunThen(Prologue() + SpillCode(n), CorrectedEpilogue(n), m, s', m');
  }
}
