/** The declarations and statements the generator walks. */
module Ast {
  import opened CStrings

  /** The predefined type names. */
  const IntType: CStr := "Int"
  const FloatType: CStr := "Float"
  const BoolType: CStr := "Bool"

  /** A variable declaration: a global, a parameter or a local. */
  datatype Variable = Variable(name: CStr, typ: CStr)

  /** A block: its local declarations, then its statements. */
  datatype StmtBlock = StmtBlock(locals: seq<Variable>, stmts: seq<Stmt>)

  /**
    A statement: a nested block, or any other statement or expression — their
    generators are empty, so they contribute nothing to the output.
   */
  datatype Stmt = Nested(block: StmtBlock) | Stub

  datatype CallDecl = CallDecl(name: CStr, params: seq<Variable>, returnType: CStr, body: StmtBlock)

  datatype Decl = VarDecl(v: Variable) | FuncDecl(c: CallDecl)

  function Names(vs: seq<Variable>): (ns: seq<CStr>)
    ensures |ns| == |vs|
  {
    if vs == [] then [] else [vs[0].name] + Names(vs[1..])
  }

  lemma NamesCons(v: Variable, vs: seq<Variable>)
    ensures Names([v] + vs) == [v.name] + Names(vs)
  {
    assert ([v] + vs)[1..] == vs;
  }

  /** Entry k of the names is the name of variable k. */
  lemma {:induction false} NamesAt(vs: seq<Variable>, k: nat)
    requires k < |vs|
    ensures Names(vs)[k] == vs[k].name
  {
    if k > 0 {
      NamesAt(vs[1..], k - 1);
    }
  }

  /** The names of one more variable extend the names of the shorter prefix. */
  lemma NamesPrefix(vs: seq<Variable>, n: nat)
    requires 0 < n <= |vs|
    ensures Names(vs[..n]) == Names(vs[..n - 1]) + [vs[n - 1].name]
  {
    var l := Names(vs[..n]);
    var r := Names(vs[..n - 1]) + [vs[n - 1].name];
    forall k | 0 <= k < |l|
      ensures l[k] == r[k]
    {
      NamesAt(vs[..n], k);
      if k < n - 1 {
        NamesAt(vs[..n - 1], k);
      }
    }
  }

  /** The variable declarations among `decls`, in order. */
  function VarDecls(decls: seq<Decl>): seq<Variable>
  {
    if decls == [] then []
    else (if decls[0].VarDecl? then [decls[0].v] else []) + VarDecls(decls[1..])
  }

  /** The call declarations among `decls`, in order. */
  function CallDecls(decls: seq<Decl>): seq<CallDecl>
  {
    if decls == [] then []
    else (if decls[0].FuncDecl? then [decls[0].c] else []) + CallDecls(decls[1..])
  }
}
