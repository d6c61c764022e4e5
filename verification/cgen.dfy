/**
  The code generator's driver: the global-data pass, the call declarations with
  their frames, and the scope bracketing of declarations and blocks.

  The generator's state is the output stream (one string per line), the scoped
  environment `varNameToAddr` from names to `name_proc` indices, and `name_proc`,
  the location text of every name bound so far.
 */
module Cgen {
  import opened Options
  import opened CStrings
  import opened Asm
  import opened Env
  import opened AddrFormat
  import opened Frame
  import opened Ast
  import opened Seqs
  import Macros

  datatype GenState = GenState(out: seq<string>, env: Env, nameProc: seq<CStr>)

  /**
    The lines VariableDecl_class::code emits for a local declaration. Its body is
    not part of this model; as a pure producer of lines it binds no name and
    appends nothing to name_proc.
   */
  type LocalCode = Variable -> seq<string>

  /** sameType: the two type names are spelled the same. */
  function SameType(a: CStr, b: CStr): (r: bool)
    ensures r <==> a == b
  {
    StrCmpZeroIff(a, b);
    StrCmp(a, b) == 0
  }

  /** The label line that defines `name`. */
  function Label(name: CStr): (line: string)
    ensures LabelName(line) == Some(name)
  {
    assert (name + ":")[..|name|] == name;
    name + ":"
  }

  /** The name a label line defines, or None for a line that is not a label. */
  function LabelName(line: string): Option<string>
  {
    if |line| > 0 && line[|line| - 1] == ':' then Some(line[..|line| - 1]) else None
  }

  /** The directive lines shared by the three global emitters: symbol, alignment, type, size 8, and last the label of `name`. */
  function GlobalHeader(name: CStr): (lines: seq<string>)
    ensures |lines| == 5 && LabelName(lines[4]) == Some(name)
  {
    [Macros.GLOBAL + name, Macros.ALIGN + "8", Macros.SYMBOL_TYPE + name + Macros.COMMA + Macros.OBJECT,
     Macros.SIZE + name + Macros.COMMA + "8", Label(name)]
  }

  /** emit_global_int: the header labelling `name`, then one INTTAG word. */
  function EmitGlobalInt(name: CStr): (lines: seq<string>)
    ensures |lines| == 6 && LabelName(lines[4]) == Some(name) && lines[5] == Macros.INTTAG + "0"
  {
    GlobalHeader(name) + [Macros.INTTAG + "0"]
  }

  /** emit_global_float: the header labelling `name`, then two FLOATTAG words. */
  function EmitGlobalFloat(name: CStr): (lines: seq<string>)
    ensures |lines| == 7 && LabelName(lines[4]) == Some(name)
    ensures lines[5] == Macros.FLOATTAG + "0" && lines[6] == Macros.FLOATTAG + "0"
  {
    GlobalHeader(name) + [Macros.FLOATTAG + "0", Macros.FLOATTAG + "0"]
  }

  /** emit_global_bool: the header labelling `name`, then one BOOLTAG word. */
  function EmitGlobalBool(name: CStr): (lines: seq<string>)
    ensures |lines| == 6 && LabelName(lines[4]) == Some(name) && lines[5] == Macros.BOOLTAG + "0"
  {
    GlobalHeader(name) + [Macros.BOOLTAG + "0"]
  }

  /**
    The directives emitted for one global, chosen by its type name: the shared
    header with size 8 followed by one INTTAG word for Int, two FLOATTAG words
    for Float, one BOOLTAG word for Bool; nothing for any other type.
   */
  function GlobalData(v: Variable): (lines: seq<string>)
    ensures v.typ == IntType ==> lines == GlobalHeader(v.name) + [Macros.INTTAG + "0"]
    ensures v.typ == FloatType ==> lines == GlobalHeader(v.name) + [Macros.FLOATTAG + "0", Macros.FLOATTAG + "0"]
    ensures v.typ == BoolType ==> lines == GlobalHeader(v.name) + [Macros.BOOLTAG + "0"]
    ensures v.typ !in {IntType, FloatType, BoolType} ==> lines == []
  {
    if SameType(v.typ, IntType) then EmitGlobalInt(v.name)
    else if SameType(v.typ, FloatType) then EmitGlobalFloat(v.name)
    else if SameType(v.typ, BoolType) then EmitGlobalBool(v.name)
    else []
  }

  /** The directives of a list of globals, one block after another. */
  function GlobalDataAll(vs: seq<Variable>): seq<string>
  {
    if vs == [] then [] else GlobalData(vs[0]) + GlobalDataAll(vs[1..])
  }

  /** A global's location: its name addressed relative to the instruction pointer. */
  function GlobalLocation(name: CStr): (loc: CStr)
    ensures |loc| == |name| + 6 && loc[..|name|] == name && EndsWith(loc, "(%rip)")
  {
    name + "(%rip)"
  }

  /** Distinct globals get distinct locations. */
  lemma GlobalLocationInjective(a: CStr, b: CStr)
    requires GlobalLocation(a) == GlobalLocation(b)
    ensures a == b
  {
    assert a == GlobalLocation(a)[..|a|];
  }

  /** The directives of two typed globals coincide only when they declare the same name. */
  lemma GlobalDataDeclares(v: Variable, w: Variable)
    requires v.typ in {IntType, FloatType, BoolType} && w.typ in {IntType, FloatType, BoolType}
    requires GlobalData(v) == GlobalData(w)
    ensures v.name == w.name
  {
    assert LabelName(GlobalData(v)[4]) == Some(v.name);
    assert LabelName(GlobalData(w)[4]) == Some(w.name);
  }

  /**
    The bytes written for a global's `name_proc` entry: a copy of the name, then
    the terminator and `)`, `p`, `i`, `r`, `%`, `(` written backwards over it. They
    fit the `strlen(name) + 7` bytes allocated and read back as the location.
   */
  function GlobalLocationBytes(name: CStr): (buf: Buffer)
    ensures FitsIn(buf, |name| + 7)
    ensures ReadCStr(buf, 0) == Some(GlobalLocation(name))
  {
    var n := |name|;
    var copied := StrCpy(map[], name);
    var buf := copied[n + 6 := '\0'][n + 5 := ')'][n + 4 := 'p'][n + 3 := 'i'][n + 2 := 'r'][n + 1 := '%'][n := '('];
    var text := GlobalLocation(name) + ['\0'];
    assert Agrees(buf, map[], text);
    AgreesIsPlace(buf, map[], text);
    PlaceFits(text, |name| + 7);
    ReadPlaced(map[], 0, GlobalLocation(name));
    buf
  }

  function GlobalLocations(vs: seq<Variable>): (locs: seq<CStr>)
    ensures |locs| == |vs|
    ensures forall k :: 0 <= k < |vs| ==> locs[k] == GlobalLocation(vs[k].name)
  {
    if vs == [] then [] else [GlobalLocation(vs[0].name)] + GlobalLocations(vs[1..])
  }

  /** One iteration of code_global_data: call declarations are skipped. */
  function GlobalStep(d: Decl, st: GenState): (r: GenState)
    requires |st.env| > 0
    ensures d.FuncDecl? ==> r == st
    ensures d.VarDecl? ==> r.out == st.out + GlobalData(d.v)
    ensures d.VarDecl? ==> r.nameProc == st.nameProc + [GlobalLocation(d.v.name)]
    ensures |r.env| == |st.env|
    ensures d.VarDecl? ==> Lookup(r.env, d.v.name) == Some(|st.nameProc|)
    ensures d.VarDecl? ==> forall n :: n != d.v.name ==> Lookup(r.env, n) == Lookup(st.env, n)
  {
    match d
    case FuncDecl(_) => st
    case VarDecl(v) =>
      AddIdLookupAll(st.env, v.name, |st.nameProc|);
      GenState(st.out + GlobalData(v),
               AddId(st.env, v.name, |st.nameProc|),
               st.nameProc + [GlobalLocation(v.name)])
  }

  /**
    code_global_data: visits the declarations in order; for each variable it emits
    its directives, appends its location to name_proc, and binds its name to that
    entry's index in the innermost scope.
   */
  function CodeGlobalData(decls: seq<Decl>, st: GenState): (r: GenState)
    requires |st.env| > 0
    ensures r.out == st.out + GlobalDataAll(VarDecls(decls))
    ensures r.nameProc == st.nameProc + GlobalLocations(VarDecls(decls))
    ensures r.env == BindAll(st.env, Names(VarDecls(decls)), |st.nameProc|)
    decreases |decls|
  {
    if decls == [] then st
    else
      var rest := decls[1..];
      var st1 := GlobalStep(decls[0], st);
      var r := CodeGlobalData(rest, st1);
      GlobalStepOut(decls, st);
      GlobalStepLocations(decls, st);
      GlobalStepBinds(decls, st);
      r
  }

  lemma VarDeclsCons(decls: seq<Decl>)
    requires decls != []
    ensures decls[0].VarDecl? ==> VarDecls(decls) == [decls[0].v] + VarDecls(decls[1..])
    ensures decls[0].FuncDecl? ==> VarDecls(decls) == VarDecls(decls[1..])
  {
  }

  lemma GlobalDataAllCons(v: Variable, vs: seq<Variable>)
    ensures GlobalDataAll([v] + vs) == GlobalData(v) + GlobalDataAll(vs)
  {
    assert ([v] + vs)[1..] == vs;
  }

  lemma GlobalLocationsCons(v: Variable, vs: seq<Variable>)
    ensures GlobalLocations([v] + vs) == [GlobalLocation(v.name)] + GlobalLocations(vs)
  {
    assert ([v] + vs)[1..] == vs;
  }

  lemma GlobalStepOut(decls: seq<Decl>, st: GenState)
    requires |st.env| > 0 && decls != []
    ensures var st1 := GlobalStep(decls[0], st);
      && st1.out + GlobalDataAll(VarDecls(decls[1..])) == st.out + GlobalDataAll(VarDecls(decls))
  {
    VarDeclsCons(decls);
    if decls[0].VarDecl? {
      var v := decls[0].v;
      var rest := VarDecls(decls[1..]);
      GlobalDataAllCons(v, rest);
      AppendAfter(GlobalStep(decls[0], st).out, st.out, GlobalData(v), GlobalDataAll(rest));
    }
  }

  lemma GlobalStepLocations(decls: seq<Decl>, st: GenState)
    requires |st.env| > 0 && decls != []
    ensures var st1 := GlobalStep(decls[0], st);
      && st1.nameProc + GlobalLocations(VarDecls(decls[1..])) == st.nameProc + GlobalLocations(VarDecls(decls))
  {
    VarDeclsCons(decls);
    if decls[0].VarDecl? {
      var v := decls[0].v;
      var rest := VarDecls(decls[1..]);
      GlobalLocationsCons(v, rest);
      AppendAfter(GlobalStep(decls[0], st).nameProc, st.nameProc, [GlobalLocation(v.name)], GlobalLocations(rest));
    }
  }

  lemma GlobalStepBinds(decls: seq<Decl>, st: GenState)
    requires |st.env| > 0 && decls != []
    ensures var st1 := GlobalStep(decls[0], st);
      && BindAll(st1.env, Names(VarDecls(decls[1..])), |st1.nameProc|) == BindAll(st.env, Names(VarDecls(decls)), |st.nameProc|)
  {
    VarDeclsCons(decls);
    if decls[0].VarDecl? {
      var v := decls[0].v;
      var rest := VarDecls(decls[1..]);
      NamesCons(v, rest);
      BindAllCons(st.env, v.name, Names(rest), |st.nameProc|);
    }
  }

  /**
    After the global-data pass a global name whose last declaration is variable k
    resolves, innermost first, to the name_proc entry k places after the old end,
    and that entry holds the name's own location.
   */
  lemma GlobalsResolve(decls: seq<Decl>, st: GenState, n: CStr, k: nat)
    requires |st.env| > 0
    requires LastIndexOf(Names(VarDecls(decls)), n) == Some(k)
    ensures Lookup(CodeGlobalData(decls, st).env, n) == Some(|st.nameProc| + k)
    ensures |st.nameProc| + k < |CodeGlobalData(decls, st).nameProc|
    ensures CodeGlobalData(decls, st).nameProc[|st.nameProc| + k] == GlobalLocation(n)
  {
    var r := CodeGlobalData(decls, st);
    GlobalLookup(decls, st, n, k, r.env);
    GlobalEntry(decls, st, n, k, r.nameProc);
  }

  lemma GlobalLookup(decls: seq<Decl>, st: GenState, n: CStr, k: nat, e: Env)
    requires |st.env| > 0
    requires LastIndexOf(Names(VarDecls(decls)), n) == Some(k)
    requires e == BindAll(st.env, Names(VarDecls(decls)), |st.nameProc|)
    ensures Lookup(e, n) == Some(|st.nameProc| + k)
  {
    LookupBoundName(e, st.env, Names(VarDecls(decls)), |st.nameProc|, n, k);
  }

  lemma GlobalEntry(decls: seq<Decl>, st: GenState, n: CStr, k: nat, np: seq<CStr>)
    requires np == st.nameProc + GlobalLocations(VarDecls(decls))
    requires LastIndexOf(Names(VarDecls(decls)), n) == Some(k)
    ensures |st.nameProc| + k < |np| && np[|st.nameProc| + k] == GlobalLocation(n)
  {
    NamesAt(VarDecls(decls), k);
  }

  /** The first lines of a function: its symbol, its type directive and its label. */
  function FunctionHeader(name: CStr): (lines: seq<string>)
    ensures |lines| == 3 && LabelName(lines[2]) == Some(name)
  {
    [Macros.GLOBAL + name, Macros.SYMBOL_TYPE + name + ", " + Macros.FUNCTION, Label(name)]
  }

  /** The size directive that closes a function: the function's size is measured from its label to here. */
  function SizeLine(name: CStr): (line: string)
    ensures Macros.SIZE + name <= line && EndsWith(line, ".-" + name)
  {
    Macros.SIZE + name + Macros.COMMA + ".-" + name
  }

  /** name_proc's entries for `n` parameters, parameter k's being its spill address at offset 48 + 8k. */
  function ParamSlots(n: nat): (slots: seq<CStr>)
    requires n <= |CallRegs|
    ensures |slots| == n
  {
    if n == 0 then [] else ParamSlots(n - 1) + [AddrText(RegName(CallRegs[n - 1]), FrameBase + 8 * n)]
  }

  /** Entry k of the parameters' name_proc entries is parameter k's spill address. */
  lemma {:induction false} ParamSlotsAt(n: nat, k: nat)
    requires k < n <= |CallRegs|
    ensures ParamSlots(n)[k] == AddrText(RegName(CallRegs[k]), FrameBase + 8 + 8 * k)
  {
    if k < n - 1 {
      ParamSlotsAt(n - 1, k);
    }
  }

  /**
    One iteration of the parameter loop for parameter `i`, the cursor already
    advanced to `usage`: reserve a word, spill CALL_REGS[i] to the address `usage`
    bytes below it, and bind the parameter's name to a new name_proc entry holding
    that address.
   */
  function SpillStep(params: seq<Variable>, i: nat, usage: nat, st: GenState): (r: GenState)
    requires i < |params| <= |CallRegs| && usage > 0
    requires |st.env| > 0
    ensures |r.env| == |st.env|
  {
    GenState(st.out + RenderAll(ParamSpill(i, usage)),
             AddId(st.env, params[i].name, |st.nameProc|),
             st.nameProc + [AddrText(RegName(CallRegs[i]), usage)])
  }

  /**
    The first `n` iterations of the parameter loop, the frame cursor starting at the
    saved registers' 40 bytes: each parameter advances the cursor by 8 and takes one
    SpillStep. The cursor ends 8 bytes further per parameter, and name_proc grows by
    one entry per parameter.
   */
  function SpillParams(params: seq<Variable>, n: nat, st: GenState): (r: (GenState, int))
    requires n <= |params| <= |CallRegs|
    requires |st.env| > 0
    ensures r.1 == FrameBase + 8 * n
    ensures |r.0.env| == |st.env|
    ensures |r.0.nameProc| == |st.nameProc| + n
  {
    if n == 0 then (st, FrameBase)
    else
      var prev := SpillParams(params, n - 1, st);
      (SpillStep(params, n - 1, prev.1 + 8, prev.0), prev.1 + 8)
  }

  /** The loop binds the first `n` parameters, in order, to consecutive new name_proc entries. */
  lemma {:induction false} SpillParamsBinds(params: seq<Variable>, n: nat, st: GenState)
    requires n <= |params| <= |CallRegs|
    requires |st.env| > 0
    ensures SpillParams(params, n, st).0.env == BindAll(st.env, Names(params[..n]), |st.nameProc|)
  {
    if n == 0 {
      assert Names(params[..n]) == [];
    } else {
      var prev := SpillParams(params, n - 1, st).0;
      SpillParamsBinds(params, n - 1, st);
      NamesPrefix(params, n);
      BindAllSnoc(st.env, Names(params[..n - 1]), params[n - 1].name, |st.nameProc|, |prev.nameProc|);
    }
  }

  /** The loop's first `n` iterations emit the closed-form spill code for `n` parameters. */
  lemma {:induction false} SpillParamsEmits(params: seq<Variable>, n: nat, st: GenState)
    requires n <= |params| <= |CallRegs|
    requires |st.env| > 0
    ensures SpillParams(params, n, st).0.out == st.out + RenderAll(SpillCode(n))
  {
    if n > 0 {
      SpillParamsEmits(params, n - 1, st);
      var prev := SpillParams(params, n - 1, st);
      var spill := ParamSpill(n - 1, FrameBase + 8 * n);
      assert SpillParams(params, n, st).0.out == prev.0.out + RenderAll(spill);
      RenderAllAppend(SpillCode(n - 1), spill);
      AppendAfter(prev.0.out, st.out, RenderAll(SpillCode(n - 1)), RenderAll(spill));
    }
  }

  /** The name_proc entries the first `n` iterations add are those parameters' spill addresses. */
  lemma {:induction false} SpillParamsSlots(params: seq<Variable>, n: nat, st: GenState)
    requires n <= |params| <= |CallRegs|
    requires |st.env| > 0
    ensures SpillParams(params, n, st).0.nameProc == st.nameProc + ParamSlots(n)
  {
    if n > 0 {
      SpillParamsSlots(params, n - 1, st);
      var prev := SpillParams(params, n - 1, st);
      var slot := AddrText(RegName(CallRegs[n - 1]), FrameBase + 8 * n);
      assert SpillParams(params, n, st).0.nameProc == prev.0.nameProc + [slot];
      AppendAfter(prev.0.nameProc, st.nameProc, ParamSlots(n - 1), [slot]);
    }
  }

  /** The lines a list of local declarations emits, in order. */
  function LocalsCode(locals: seq<Variable>, localCode: LocalCode): seq<string>
  {
    if locals == [] then [] else localCode(locals[0]) + LocalsCode(locals[1..], localCode)
  }

  /** The text of a block, read off its syntax: its locals' code, then each nested block's text in order. */
  function BlockText(b: StmtBlock, localCode: LocalCode): seq<string>
    decreases b, 1, 0
  {
    LocalsCode(b.locals, localCode) + StmtsText(b, 0, localCode)
  }

  function StmtsText(b: StmtBlock, i: nat, localCode: LocalCode): seq<string>
    requires i <= |b.stmts|
    decreases b, 0, |b.stmts| - i
  {
    if i == |b.stmts| then []
    else
      (match b.stmts[i] case Nested(inner) => BlockText(inner, localCode) case Stub => [])
        + StmtsText(b, i + 1, localCode)
  }

  /**
    StmtBlock_class::code: enter a scope, generate the local declarations, then the
    statements, then leave the scope. The environment and name_proc come back as
    they were, and the output grows by the block's text.
   */
  function StmtBlockCode(b: StmtBlock, st: GenState, localCode: LocalCode): (r: GenState)
    ensures r.env == st.env
    ensures r.nameProc == st.nameProc
    ensures r.out == st.out + BlockText(b, localCode)
    decreases b, 1, 0
  {
    var entered := st.(env := EnterScope(st.env));
    var declared := entered.(out := entered.out + LocalsCode(b.locals, localCode));
    var done := StmtsCode(b, 0, declared, localCode);
    AppendAfter(declared.out, st.out, LocalsCode(b.locals, localCode), StmtsText(b, 0, localCode));
    ExitEnterScope(st.env);
    done.(env := ExitScope(done.env))
  }

  /** The statement loop of a block from statement `i` on: nested blocks are generated in order, every other statement is empty. */
  function StmtsCode(b: StmtBlock, i: nat, st: GenState, localCode: LocalCode): (r: GenState)
    requires i <= |b.stmts|
    ensures r.env == st.env
    ensures r.nameProc == st.nameProc
    ensures r.out == st.out + StmtsText(b, i, localCode)
    decreases b, 0, |b.stmts| - i
  {
    if i == |b.stmts| then st
    else
      var st' := match b.stmts[i] case Nested(inner) => StmtBlockCode(inner, st, localCode) case Stub => st;
      var text := match b.stmts[i] case Nested(inner) => BlockText(inner, localCode) case Stub => [];
      AppendAfter(st'.out, st.out, text, StmtsText(b, i + 1, localCode));
      StmtsCode(b, i + 1, st', localCode)
  }

  /** The state the body of a call declaration starts from: scope entered, frame built, parameters spilled and bound. */
  function CallFrame(c: CallDecl, st: GenState): (r: GenState)
    requires |c.params| <= |CallRegs|
    ensures |r.env| == |st.env| + 1
  {
    var entered := st.(env := EnterScope(st.env));
    var framed := entered.(out := entered.out + FunctionHeader(c.name) + RenderAll(Prologue()));
    SpillParams(c.params, |c.params|, framed).0
  }

  /** The frame's scope binds the parameters, in order, over a fresh scope. */
  lemma CallFrameEnv(c: CallDecl, st: GenState)
    requires |c.params| <= |CallRegs|
    ensures CallFrame(c, st).env == BindAll(EnterScope(st.env), Names(c.params), |st.nameProc|)
  {
    var entered := st.(env := EnterScope(st.env));
    var framed := entered.(out := entered.out + FunctionHeader(c.name) + RenderAll(Prologue()));
    SpillParamsBinds(c.params, |c.params|, framed);
    assert c.params[..|c.params|] == c.params;
  }

  /** Leaving the frame's scope restores the caller's environment. */
  lemma CallFrameExit(c: CallDecl, st: GenState)
    requires |c.params| <= |CallRegs|
    ensures ExitScope(CallFrame(c, st).env) == st.env
  {
    CallFrameEnv(c, st);
    ExitEnterScope(st.env);
  }

  /** Building the frame emits the function's header, its prologue and the parameter spills. */
  lemma CallFrameOut(c: CallDecl, st: GenState)
    requires |c.params| <= |CallRegs|
    ensures CallFrame(c, st).out == st.out + FunctionHeader(c.name) + RenderAll(Prologue() + SpillCode(|c.params|))
  {
    var entered := st.(env := EnterScope(st.env));
    var framed := entered.(out := entered.out + FunctionHeader(c.name) + RenderAll(Prologue()));
    SpillParamsEmits(c.params, |c.params|, framed);
    FrameOut(st.out, FunctionHeader(c.name), Prologue(), SpillCode(|c.params|));
  }

  /** Building the frame adds the parameters' spill addresses to name_proc, in order. */
  lemma CallFrameSlots(c: CallDecl, st: GenState)
    requires |c.params| <= |CallRegs|
    ensures CallFrame(c, st).nameProc == st.nameProc + ParamSlots(|c.params|)
  {
    var entered := st.(env := EnterScope(st.env));
    var framed := entered.(out := entered.out + FunctionHeader(c.name) + RenderAll(Prologue()));
    SpillParamsSlots(c.params, |c.params|, framed);
  }

  lemma FrameOut(out: seq<string>, header: seq<string>, p: seq<Instr>, c: seq<Instr>)
    ensures out + header + RenderAll(p) + RenderAll(c) == out + header + RenderAll(p + c)
  {
    RenderAllAppend(p, c);
    assert out + header + RenderAll(p) + RenderAll(c) == out + header + (RenderAll(p) + RenderAll(c));
  }

  /**
    Inside the body a parameter name whose last declaration is parameter k
    resolves to a name_proc entry holding that parameter's spill address:
    offset 48 + 8k against CALL_REGS[k].
   */
  lemma ParamsBoundInBody(c: CallDecl, st: GenState, n: CStr, k: nat)
    requires |c.params| <= |CallRegs|
    requires LastIndexOf(Names(c.params), n) == Some(k)
    ensures k < |c.params|
    ensures Lookup(CallFrame(c, st).env, n) == Some(|st.nameProc| + k)
    ensures |st.nameProc| + k < |CallFrame(c, st).nameProc|
    ensures CallFrame(c, st).nameProc[|st.nameProc| + k] == AddrText(RegName(CallRegs[k]), FrameBase + 8 + 8 * k)
  {
    LastParamIndex(c, n, k);
    ParamLookupInFrame(c, st, n, k);
    ParamSlotInFrame(c, st, k);
  }

  lemma LastParamIndex(c: CallDecl, n: CStr, k: nat)
    requires LastIndexOf(Names(c.params), n) == Some(k)
    ensures k < |c.params|
  {
  }

  lemma ParamLookupInFrame(c: CallDecl, st: GenState, n: CStr, k: nat)
    requires |c.params| <= |CallRegs|
    requires LastIndexOf(Names(c.params), n) == Some(k)
    ensures Lookup(CallFrame(c, st).env, n) == Some(|st.nameProc| + k)
  {
    CallFrameEnv(c, st);
    BoundParamLookup(c, st, n, k, CallFrame(c, st).env);
  }

  /** Lookup in any environment that binds the parameters over a fresh scope. */
  lemma BoundParamLookup(c: CallDecl, st: GenState, n: CStr, k: nat, e: Env)
    requires LastIndexOf(Names(c.params), n) == Some(k)
    requires e == BindAll(EnterScope(st.env), Names(c.params), |st.nameProc|)
    ensures Lookup(e, n) == Some(|st.nameProc| + k)
  {
    LookupBoundName(e, EnterScope(st.env), Names(c.params), |st.nameProc|, n, k);
  }

  lemma ParamSlotInFrame(c: CallDecl, st: GenState, k: nat)
    requires k < |c.params| <= |CallRegs|
    ensures |st.nameProc| + k < |CallFrame(c, st).nameProc|
    ensures CallFrame(c, st).nameProc[|st.nameProc| + k] == AddrText(RegName(CallRegs[k]), FrameBase + 8 + 8 * k)
  {
    CallFrameSlots(c, st);
    ParamSlotsAt(|c.params|, k);
  }

  /** Distinct parameters of one function are spilled to distinct addresses. */
  lemma ParamSlotsDistinct(n: nat, j: nat, k: nat)
    requires n <= |CallRegs| && j < k < n
    ensures ParamSlots(n)[j] != ParamSlots(n)[k]
  {
    ParamSlotsAt(n, j);
    ParamSlotsAt(n, k);
    if ParamSlots(n)[j] == ParamSlots(n)[k] {
      AddrTextInjective(RegName(CallRegs[j]), FrameBase + 8 + 8 * j, RegName(CallRegs[k]), FrameBase + 8 + 8 * k);
    }
  }

  /** The text of a call declaration as a layout: header, prologue, spills, body, epilogue, size. */
  function CallDeclText(c: CallDecl, localCode: LocalCode): seq<string>
    requires |c.params| <= |CallRegs|
  {
    FunctionHeader(c.name) + RenderAll(Prologue() + SpillCode(|c.params|)) + BlockText(c.body, localCode)
      + RenderAll(Epilogue()) + [SizeLine(c.name)]
  }

  /**
    CallDecl_class::code: inside a scope of its own, emits the function's header and
    prologue, spills and binds its parameters, generates its body, and emits the
    epilogue and size directive. The environment comes back exactly as it was and
    name_proc has gained the parameters' spill addresses.
   */
  function CallDeclCode(c: CallDecl, st: GenState, localCode: LocalCode): (r: GenState)
    requires |c.params| <= |CallRegs|
    ensures r.env == st.env
    ensures r.nameProc == st.nameProc + ParamSlots(|c.params|)
    ensures r.out == st.out + CallDeclText(c, localCode)
  {
    var framed := CallFrame(c, st);
    CallFrameExit(c, st);
    CallFrameOut(c, st);
    CallFrameSlots(c, st);
    var body := StmtBlockCode(c.body, framed, localCode);
    CallTextLayout(st.out, FunctionHeader(c.name), RenderAll(Prologue() + SpillCode(|c.params|)),
                   BlockText(c.body, localCode), RenderAll(Epilogue()), [SizeLine(c.name)]);
    assert body.env == framed.env;
    GenState(body.out + RenderAll(Epilogue()) + [SizeLine(c.name)], ExitScope(body.env), body.nameProc)
  }

  lemma CallTextLayout<T>(o: seq<T>, h: seq<T>, p: seq<T>, b: seq<T>, e: seq<T>, z: seq<T>)
    ensures o + h + p + b + e + z == o + (h + p + b + e + z)
  {
  }

  /** Every call declaration has at most as many parameters as there are argument registers. */
  predicate ParamsFit(cs: seq<CallDecl>)
  {
    forall k :: 0 <= k < |cs| ==> |cs[k].params| <= |CallRegs|
  }

  function CallsText(cs: seq<CallDecl>, localCode: LocalCode): seq<string>
    requires ParamsFit(cs)
  {
    if cs == [] then [] else CallDeclText(cs[0], localCode) + CallsText(cs[1..], localCode)
  }

  function CallsSlots(cs: seq<CallDecl>): seq<CStr>
    requires ParamsFit(cs)
  {
    if cs == [] then [] else ParamSlots(|cs[0].params|) + CallsSlots(cs[1..])
  }

  lemma CallDeclsSplit(decls: seq<Decl>)
    requires decls != []
    ensures decls[0].FuncDecl? ==> CallDecls(decls) == [decls[0].c] + CallDecls(decls[1..])
    ensures decls[0].VarDecl? ==> CallDecls(decls) == CallDecls(decls[1..])
  {
  }

  lemma ParamsFitRest(decls: seq<Decl>)
    requires decls != [] && ParamsFit(CallDecls(decls))
    ensures ParamsFit(CallDecls(decls[1..]))
    ensures decls[0].FuncDecl? ==> |decls[0].c.params| <= |CallRegs|
  {
    CallDeclsSplit(decls);
    if decls[0].FuncDecl? {
      var cs := CallDecls(decls);
      assert cs[0] == decls[0].c;
      assert forall k :: 0 <= k < |cs| - 1 ==> cs[k + 1] == CallDecls(decls[1..])[k];
    }
  }

  /** One iteration of code_calls: a call declaration is generated, a variable skipped. */
  function CallsStep(d: Decl, st: GenState, localCode: LocalCode): (r: GenState)
    requires d.FuncDecl? ==> |d.c.params| <= |CallRegs|
    ensures r.env == st.env
  {
    match d
    case VarDecl(_) => st
    case FuncDecl(c) => CallDeclCode(c, st, localCode)
  }

  lemma CallsStepOut(decls: seq<Decl>, st: GenState, localCode: LocalCode)
    requires decls != [] && ParamsFit(CallDecls(decls))
    ensures ParamsFit(CallDecls(decls[1..]))
    ensures decls[0].FuncDecl? ==> |decls[0].c.params| <= |CallRegs|
    ensures CallsStep(decls[0], st, localCode).out + CallsText(CallDecls(decls[1..]), localCode)
      == st.out + CallsText(CallDecls(decls), localCode)
  {
    ParamsFitRest(decls);
    CallDeclsSplit(decls);
    if decls[0].FuncDecl? {
      var c := decls[0].c;
      var cs := [c] + CallDecls(decls[1..]);
      assert cs[1..] == CallDecls(decls[1..]);
      assert CallsText(cs, localCode) == CallDeclText(c, localCode) + CallsText(CallDecls(decls[1..]), localCode);
      assert CallsStep(decls[0], st, localCode).out == st.out + CallDeclText(c, localCode);
      AppendAssoc(st.out, CallDeclText(c, localCode), CallsText(CallDecls(decls[1..]), localCode));
    }
  }

  lemma CallsStepSlots(decls: seq<Decl>, st: GenState, localCode: LocalCode)
    requires decls != [] && ParamsFit(CallDecls(decls))
    ensures ParamsFit(CallDecls(decls[1..]))
    ensures decls[0].FuncDecl? ==> |decls[0].c.params| <= |CallRegs|
    ensures CallsStep(decls[0], st, localCode).nameProc + CallsSlots(CallDecls(decls[1..]))
      == st.nameProc + CallsSlots(CallDecls(decls))
  {
    ParamsFitRest(decls);
    CallDeclsSplit(decls);
    if decls[0].FuncDecl? {
      var c := decls[0].c;
      var cs := [c] + CallDecls(decls[1..]);
      assert cs[1..] == CallDecls(decls[1..]);
      assert CallsSlots(cs) == ParamSlots(|c.params|) + CallsSlots(CallDecls(decls[1..]));
      assert CallsStep(decls[0], st, localCode).nameProc == st.nameProc + ParamSlots(|c.params|);
      AppendAssoc(st.nameProc, ParamSlots(|c.params|), CallsSlots(CallDecls(decls[1..])));
    }
  }

  /** The loop of code_calls: each call declaration in order, the others skipped. */
  function CallsCode(decls: seq<Decl>, st: GenState, localCode: LocalCode): (r: GenState)
    requires ParamsFit(CallDecls(decls))
    ensures r.env == st.env
    ensures r.out == st.out + CallsText(CallDecls(decls), localCode)
    ensures r.nameProc == st.nameProc + CallsSlots(CallDecls(decls))
    decreases |decls|
  {
    if decls == [] then st
    else
      ParamsFitRest(decls);
      var r := CallsCode(decls[1..], CallsStep(decls[0], st, localCode), localCode);
      CallsStepOut(decls, st, localCode);
      CallsStepSlots(decls, st, localCode);
      r
  }

  /** The line that opens the read-only data section. */
  const RodataLine: string := Macros.SECTION + Macros.RODATA

  /** code_calls: the read-only section line once, then every call declaration in source order. */
  function CodeCalls(decls: seq<Decl>, st: GenState, localCode: LocalCode): (r: GenState)
    requires ParamsFit(CallDecls(decls))
    ensures r.env == st.env
    ensures r.out == st.out + [RodataLine] + CallsText(CallDecls(decls), localCode)
    ensures r.nameProc == st.nameProc + CallsSlots(CallDecls(decls))
  {
    CallsCode(decls, st.(out := st.out + [RodataLine]), localCode)
  }

  /**
    code: inside a global scope of its own, the global-data pass and then the
    calls. The environment comes back exactly as it was; the output is the
    globals' directives, the read-only section line and every function in order;
    name_proc has gained every global's location and then every parameter's slot.
   */
  function Code(decls: seq<Decl>, st: GenState, localCode: LocalCode): (r: GenState)
    requires ParamsFit(CallDecls(decls))
    ensures r.env == st.env
    ensures r.out == st.out + GlobalDataAll(VarDecls(decls)) + [RodataLine] + CallsText(CallDecls(decls), localCode)
    ensures r.nameProc == st.nameProc + GlobalLocations(VarDecls(decls)) + CallsSlots(CallDecls(decls))
  {
    var entered := st.(env := EnterScope(st.env));
    var globals := CodeGlobalData(decls, entered);
    var calls := CodeCalls(decls, globals, localCode);
    assert ExitScope(globals.env) == ExitScope(entered.env);
    ExitEnterScope(st.env);
    calls.(env := ExitScope(calls.env))
  }
}
