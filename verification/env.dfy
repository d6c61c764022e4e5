/**
  The scoped environment `varNameToAddr`: a stack of scopes mapping names to
  indices of `name_proc`, with the symbol table's enter/exit/add/lookup contract.
 */
module Env {
  import opened Options
  import opened CStrings
  import opened Seqs

  type Scope = map<CStr, nat>

  /** The scope stack, innermost scope last. */
  type Env = seq<Scope>

  /** Innermost-first lookup: the binding of the closest scope that has the name. */
  function Lookup(env: Env, n: CStr): Option<nat>
    decreases |env|
  {
    if |env| == 0 then None
    else if n in env[|env| - 1] then Some(env[|env| - 1][n])
    else Lookup(env[..|env| - 1], n)
  }

  /** Lookup finds `v` exactly when some scope binds the name to `v` and no scope inside it binds the name at all. */
  lemma {:induction false} LookupInnermostFirst(env: Env, n: CStr, v: nat)
    ensures Lookup(env, n) == Some(v) <==>
      exists k :: 0 <= k < |env| && n in env[k] && env[k][n] == v &&
        forall j :: k < j < |env| ==> n !in env[j]
    decreases |env|
  {
    if |env| > 0 {
      var last := |env| - 1;
      var outer := env[..last];
      LookupInnermostFirst(outer, n, v);
      if n !in env[last] {
        if Lookup(outer, n) == Some(v) {
          var k :| 0 <= k < |outer| && n in outer[k] && outer[k][n] == v &&
            forall j :: k < j < |outer| ==> n !in outer[j];
          assert forall j :: k < j < |env| ==> n !in env[j] by {
            forall j | k < j < |env|
              ensures n !in env[j]
            {
              if j < last {
                assert env[j] == outer[j];
              }
            }
          }
        }
        if exists k :: 0 <= k < |env| && n in env[k] && env[k][n] == v &&
            forall j :: k < j < |env| ==> n !in env[j] {
          var k :| 0 <= k < |env| && n in env[k] && env[k][n] == v &&
            forall j :: k < j < |env| ==> n !in env[j];
          assert k < last;
          assert outer[k] == env[k];
          assert forall j :: k < j < |outer| ==> n !in outer[j] by {
            forall j | k < j < |outer|
              ensures n !in outer[j]
            {
              assert outer[j] == env[j];
            }
          }
        }
      }
    }
  }

  /** enterscope: push an empty scope. */
  function EnterScope(env: Env): (r: Env)
    ensures |r| == |env| + 1
    ensures r[..|env|] == env
  {
    env + [map[]]
  }

  /** Entering a scope changes no lookup. */
  lemma EnterScopeLookup(env: Env, n: CStr)
    ensures Lookup(EnterScope(env), n) == Lookup(env, n)
  {
  }

  /** exitscope: pop the innermost scope; the outer scopes stay as they were. */
  function ExitScope(env: Env): (r: Env)
    requires |env| > 0
    ensures |r| == |env| - 1
    ensures r + [env[|env| - 1]] == env
  {
    env[..|env| - 1]
  }

  /** Leaving a scope just entered gives back the environment as it was. */
  lemma ExitEnterScope(env: Env)
    ensures ExitScope(EnterScope(env)) == env
  {
  }

  /** addid: bind a name in the innermost scope, leaving the outer scopes alone. */
  function AddId(env: Env, n: CStr, v: nat): (r: Env)
    requires |env| > 0
    ensures |r| == |env|
    ensures ExitScope(r) == ExitScope(env)
  {
    var r := env[..|env| - 1] + [env[|env| - 1][n := v]];
    assert r[..|r| - 1] == env[..|env| - 1];
    r
  }

  /** After addid the bound name resolves to its new entry; every other name resolves as before. */
  lemma AddIdLookup(env: Env, n: CStr, v: nat, m: CStr)
    requires |env| > 0
    ensures Lookup(AddId(env, n, v), m) == if m == n then Some(v) else Lookup(env, m)
  {
    var r := AddId(env, n, v);
    assert r[..|r| - 1] == env[..|env| - 1];
  }

  /** AddIdLookup for every name at once. */
  lemma AddIdLookupAll(env: Env, n: CStr, v: nat)
    requires |env| > 0
    ensures forall m :: Lookup(AddId(env, n, v), m) == if m == n then Some(v) else Lookup(env, m)
  {
    forall m {
      AddIdLookup(env, n, v, m);
    }
  }

  /**
    The position of the last occurrence of `n` in `names`: a later declaration of a
    name in the same scope replaces the earlier one.
   */
  function LastIndexOf(names: seq<CStr>, n: CStr): (r: Option<nat>)
    ensures r.None? <==> n !in names
    ensures r.Some? ==> r.value < |names| && names[r.value] == n
    decreases |names|
  {
    if names == [] then None
    else
      match LastIndexOf(names[1..], n)
      case Some(k) => Some(k + 1)
      case None => if names[0] == n then Some(0) else None
  }

  /** No occurrence of the name follows the one LastIndexOf finds. */
  lemma {:induction false} LastIndexOfIsLast(names: seq<CStr>, n: CStr, j: nat)
    requires LastIndexOf(names, n).Some? && LastIndexOf(names, n).value < j < |names|
    ensures names[j] != n
    decreases |names|
  {
    var rest := LastIndexOf(names[1..], n);
    if rest.Some? {
      LastIndexOfIsLast(names[1..], n, j - 1);
    } else {
      assert names[j] == names[1..][j - 1];
    }
  }

  /** Binds `names[k]` to `base + k` in the innermost scope, in order. */
  function BindAll(env: Env, names: seq<CStr>, base: nat): (r: Env)
    requires |env| > 0
    ensures |r| == |env|
    ensures ExitScope(r) == ExitScope(env)
    decreases |names|
  {
    if names == [] then env else BindAll(AddId(env, names[0], base), names[1..], base + 1)
  }

  /** Binding a list with a head binds the head first, then the tail one index higher. */
  lemma BindAllCons(env: Env, n: CStr, names: seq<CStr>, base: nat)
    requires |env| > 0
    ensures BindAll(env, [n] + names, base) == BindAll(AddId(env, n, base), names, base + 1)
  {
    assert ([n] + names)[1..] == names;
  }

  /** Binding one more name at the end is an addid on top of binding the rest. */
  lemma {:induction false} BindAllSnoc(env: Env, names: seq<CStr>, n: CStr, base: nat, v: nat)
    requires |env| > 0 && v == base + |names|
    ensures BindAll(env, names + [n], base) == AddId(BindAll(env, names, base), n, v)
    decreases |names|
  {
    if names == [] {
      assert [] + [n] == [n];
    } else {
      assert (names + [n])[1..] == names[1..] + [n];
      BindAllSnoc(AddId(env, names[0], base), names[1..], n, base + 1, v);
    }
  }

  /**
    After binding a list of names, a name resolves to the index of its last
    occurrence in the list, and a name not in the list resolves as before.
   */
  lemma {:induction false} LookupBindAll(env: Env, names: seq<CStr>, base: nat, n: CStr)
    requires |env| > 0
    ensures Lookup(BindAll(env, names, base), n) ==
      match LastIndexOf(names, n)
      case Some(k) => Some(base + k)
      case None => Lookup(env, n)
    decreases |names|
  {
    if names != [] {
      LookupBindAll(AddId(env, names[0], base), names[1..], base + 1, n);
      AddIdLookup(env, names[0], base, n);
    }
  }

  /** An environment built by binding `names` resolves a bound name to its last position. */
  lemma LookupBoundName(e: Env, env: Env, names: seq<CStr>, base: nat, n: CStr, k: nat)
    requires |env| > 0 && e == BindAll(env, names, base)
    requires LastIndexOf(names, n) == Some(k)
    ensures Lookup(e, n) == Some(base + k)
  {
    LookupBindAll(env, names, base, n);
  }
}
