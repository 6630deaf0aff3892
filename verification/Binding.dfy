/** Argument binding, and the lexical scope it sets up. */
module Binding {
  import opened Prelude
  import opened Ast
  import opened ConstEval

  // ----- what binding means -----

  predicate Positional(arg: Arg) { arg.name.None? }

  /** The parameter name argument `i` is for. */
  function BoundName(params: seq<Param>, args: seq<Arg>, i: nat): string
    requires i < |args|
  {
    if args[i].name.Some? then args[i].name.value else if i < |params| then params[i].name else ""
  }

  /** There is a parameter for argument `i`. */
  predicate Placed(params: seq<Param>, args: seq<Arg>, i: nat)
    requires i < |args|
  {
    if args[i].name.Some? then FindParam(params, args[i].name.value).Ok? else i < |params|
  }

  function ParamAt(params: seq<Param>, args: seq<Arg>, i: nat): (p: Param)
    requires i < |args| && Placed(params, args, i)
    ensures p in params && p.name == BoundName(params, args, i)
  {
    if args[i].name.Some? then FindParam(params, args[i].name.value).value else params[i]
  }

  /** Argument `i` has a parameter and a value of that parameter's type. */
  predicate Fits(params: seq<Param>, args: seq<Arg>, env: Env, i: nat)
    requires i < |args|
  {
    && Placed(params, args, i)
    && Eval(args[i].value, env).Ok?
    && HasType(Eval(args[i].value, env).value, ParamAt(params, args, i).ty)
  }

  /** Positional arguments come first, and no parameter is bound twice. */
  ghost predicate Ordered(params: seq<Param>, args: seq<Arg>) {
    && (forall i, j :: 0 <= i < j < |args| && Positional(args[j]) ==> Positional(args[i]))
    && (forall i, j :: 0 <= i < j < |args| ==> BoundName(params, args, i) != BoundName(params, args, j))
  }

  ghost predicate Given(params: seq<Param>, args: seq<Arg>, name: string) {
    exists i :: 0 <= i < |args| && BoundName(params, args, i) == name
  }

  /** Parameter `p` has a default of its type. */
  predicate HasDefault(p: Param, scope: Env) {
    && p.default.Some?
    && Eval(p.default.value, scope).Ok?
    && HasType(Eval(p.default.value, scope).value, p.ty)
  }

  ghost predicate Acceptable(callee: string, params: seq<Param>, args: seq<Arg>, env: Env) {
    && Ordered(params, args)
    && (forall i :: 0 <= i < |args| ==> Fits(params, args, env, i))
    && (forall k :: 0 <= k < |params| ==>
          Given(params, args, params[k].name) || HasDefault(params[k], DefaultScope(env, callee)))
  }

  /** `b` binds the declared parameters and no more, to their arguments or their defaults. */
  ghost predicate Binds(callee: string, params: seq<Param>, args: seq<Arg>, env: Env, b: Scope)
    requires Acceptable(callee, params, args, env)
  {
    && (forall name :: name in b <==> exists k :: 0 <= k < |params| && params[k].name == name)
    && (forall i :: 0 <= i < |args| ==>
          Fits(params, args, env, i) && BoundName(params, args, i) in b
          && b[BoundName(params, args, i)] == Eval(args[i].value, env).value)
    && (forall k :: 0 <= k < |params| && !Given(params, args, params[k].name) ==>
          params[k].name in b && b[params[k].name] == Eval(params[k].default.value, DefaultScope(env, callee)).value)
    && (forall k :: 0 <= k < |params| ==> params[k].name in b && HasType(b[params[k].name], params[k].ty))
  }

  // ----- the arguments -----

  /** `bound` holds the first `n` arguments. */
  ghost predicate Holds(params: seq<Param>, args: seq<Arg>, env: Env, n: nat, bound: Scope)
    requires n <= |args|
  {
    && (forall name :: name in bound <==> exists i :: 0 <= i < n && BoundName(params, args, i) == name)
    && (forall i :: 0 <= i < n ==> Eval(args[i].value, env).Ok?)
    && (forall i :: 0 <= i < n ==>
          BoundName(params, args, i) in bound && bound[BoundName(params, args, i)] == Eval(args[i].value, env).value)
  }

  /** The first `n` arguments are acceptable. */
  ghost predicate FitsUpTo(params: seq<Param>, args: seq<Arg>, env: Env, n: nat)
    requires n <= |args|
  {
    && Ordered(params, args[..n])
    && forall i :: 0 <= i < n ==> Fits(params, args, env, i)
  }

  ghost predicate SeenNamed(args: seq<Arg>, n: nat)
    requires n <= |args|
  {
    exists i :: 0 <= i < n && !Positional(args[i])
  }

  /** Argument `n` can follow the first `n`. */
  ghost predicate Follows(params: seq<Param>, args: seq<Arg>, env: Env, n: nat)
    requires n < |args|
  {
    && Fits(params, args, env, n)
    && (Positional(args[n]) ==> !SeenNamed(args, n))
    && forall i :: 0 <= i < n ==> BoundName(params, args, i) != BoundName(params, args, n)
  }

  lemma FitsStep(params: seq<Param>, args: seq<Arg>, env: Env, n: nat)
    requires n < |args|
    ensures FitsUpTo(params, args, env, n + 1) <==> FitsUpTo(params, args, env, n) && Follows(params, args, env, n)
  {
    hide Fits;
    var a, b := args[..n], args[..n + 1];
    assert forall i :: 0 <= i < n ==> a[i] == b[i];
    assert b[n] == args[n];
    assert forall i :: 0 <= i < n ==> BoundName(params, a, i) == BoundName(params, b, i) == BoundName(params, args, i);
    assert BoundName(params, b, n) == BoundName(params, args, n);
    if FitsUpTo(params, args, env, n + 1) {
      forall i, j | 0 <= i < j < n && Positional(a[j]) ensures Positional(a[i]) {
        assert Positional(b[j]);
      }
    }
  }

  lemma {:induction false} FitsPrefix(params: seq<Param>, args: seq<Arg>, env: Env, n: nat)
    requires n <= |args| && FitsUpTo(params, args, env, |args|)
    ensures FitsUpTo(params, args, env, n)
    decreases |args| - n
  {
    hide FitsUpTo, Follows;
    if n < |args| {
      FitsPrefix(params, args, env, n + 1);
      FitsStep(params, args, env, n);
    }
  }

  lemma HoldsStep(params: seq<Param>, args: seq<Arg>, env: Env, n: nat, bound: Scope)
    requires n < |args| && Holds(params, args, env, n, bound) && Follows(params, args, env, n)
    ensures Holds(params, args, env, n + 1, bound[BoundName(params, args, n) := Eval(args[n].value, env).value])
  {
    hide Eval;
    var name := BoundName(params, args, n);
    var more := bound[name := Eval(args[n].value, env).value];
    forall x | x in more ensures exists i :: 0 <= i < n + 1 && BoundName(params, args, i) == x {
      if x == name {
        assert BoundName(params, args, n) == x;
      } else {
        var i :| 0 <= i < n && BoundName(params, args, i) == x;
      }
    }
  }

  lemma FollowsEval(params: seq<Param>, args: seq<Arg>, env: Env, n: nat)
    requires n < |args| && Follows(params, args, env, n)
    ensures Eval(args[n].value, env).Ok?
  {
    hide Eval, FindParam;
  }

  lemma FitsEval(params: seq<Param>, args: seq<Arg>, env: Env, n: nat)
    requires n < |args| && Fits(params, args, env, n)
    ensures Eval(args[n].value, env).Ok?
  {
    hide Eval, FindParam;
  }

  /** What one round of the argument loop does. */
  lemma GivenStep(params: seq<Param>, args: seq<Arg>, env: Env, n: nat, seen: bool, bound: Scope)
    requires n < |args| && Holds(params, args, env, n, bound) && (seen <==> SeenNamed(args, n))
    ensures BindGiven(params, args[n..], n, seen, bound, env)
         == if Follows(params, args, env, n)
            then BindGiven(params, args[n + 1..], n + 1, seen || args[n].name.Some?,
                           bound[BoundName(params, args, n) := Eval(args[n].value, env).value], env)
            else BindGiven(params, args[n..], n, seen, bound, env)
    ensures !Follows(params, args, env, n) ==> BindGiven(params, args[n..], n, seen, bound, env).Err?
    ensures SeenNamed(args, n + 1) <==> seen || args[n].name.Some?
  {
    hide Eval, FindParam;
    assert args[n..][0] == args[n] && args[n..][1..] == args[n + 1..];
    if args[n].name.Some? {
      assert !Positional(args[n]);
    }
    assert BoundName(params, args, n) in bound <==>
           exists i :: 0 <= i < n && BoundName(params, args, i) == BoundName(params, args, n);
  }

  lemma {:induction false} GivenIff(params: seq<Param>, args: seq<Arg>, env: Env, n: nat, seen: bool, bound: Scope)
    requires n <= |args| && FitsUpTo(params, args, env, n) && Holds(params, args, env, n, bound)
    requires seen <==> SeenNamed(args, n)
    ensures var r := BindGiven(params, args[n..], n, seen, bound, env);
            && (r.Ok? <==> FitsUpTo(params, args, env, |args|))
            && (r.Ok? ==> Holds(params, args, env, |args|, r.value))
    decreases |args| - n
  {
    hide FitsUpTo, Follows, Holds, SeenNamed, Eval;
    if n < |args| {
      GivenStep(params, args, env, n, seen, bound);
      FitsStep(params, args, env, n);
      if Follows(params, args, env, n) {
        HoldsStep(params, args, env, n, bound);
        FollowsEval(params, args, env, n);
        GivenIff(params, args, env, n + 1, seen || args[n].name.Some?,
                 bound[BoundName(params, args, n) := Eval(args[n].value, env).value]);
      } else if FitsUpTo(params, args, env, |args|) {
        FitsPrefix(params, args, env, n + 1);
      }
    }
  }

  // ----- the defaults -----

  /** `full` is `bound` with the defaults of the parameters from `k` on that it lacks. */
  ghost predicate Filled(params: seq<Param>, bound: Scope, scope: Env, full: Scope) {
    && (forall name :: name in bound ==> name in full && full[name] == bound[name])
    && (forall name :: name in full ==> name in bound || exists k :: 0 <= k < |params| && params[k].name == name)
    && (forall k :: 0 <= k < |params| && params[k].name !in bound ==>
          HasDefault(params[k], scope) && params[k].name in full
          && full[params[k].name] == Eval(params[k].default.value, scope).value)
  }

  ghost predicate Fillable(params: seq<Param>, bound: Scope, scope: Env) {
    forall k :: 0 <= k < |params| ==> params[k].name in bound || HasDefault(params[k], scope)
  }

  lemma {:induction false} DefaultsIff(params: seq<Param>, bound: Scope, scope: Env)
    requires UniqueParams(params)
    ensures var r := BindDefaults(params, bound, scope);
            && (r.Ok? <==> Fillable(params, bound, scope))
            && (r.Ok? ==> Filled(params, bound, scope, r.value))
    decreases |params|
  {
    hide Eval;
    if params != [] {
      var p, rest := params[0], params[1..];
      assert forall k :: 0 <= k < |rest| ==> rest[k] == params[k + 1] && rest[k].name != p.name;
      if p.name in bound {
        DefaultsIff(rest, bound, scope);
        FillableTail(params, bound, bound, scope);
        if BindDefaults(rest, bound, scope).Ok? {
          FilledTail(params, bound, bound, scope, BindDefaults(rest, bound, scope).value);
        }
      } else if HasDefault(p, scope) {
        var more := bound[p.name := Eval(p.default.value, scope).value];
        DefaultsIff(rest, more, scope);
        FillableTail(params, bound, more, scope);
        if BindDefaults(rest, more, scope).Ok? {
          FilledTail(params, bound, more, scope, BindDefaults(rest, more, scope).value);
        }
      }
    }
  }

  /** `more` is `bound` with the first parameter's default, unless it was bound already. */
  predicate FirstFilled(params: seq<Param>, bound: Scope, more: Scope, scope: Env)
    requires params != []
  {
    if params[0].name in bound then more == bound
    else HasDefault(params[0], scope) && more == bound[params[0].name := Eval(params[0].default.value, scope).value]
  }

  lemma FillableTail(params: seq<Param>, bound: Scope, more: Scope, scope: Env)
    requires params != [] && UniqueParams(params)
    requires FirstFilled(params, bound, more, scope)
    ensures Fillable(params, bound, scope) <==> Fillable(params[1..], more, scope)
  {
    hide HasDefault, Eval;
    assert forall k :: 0 <= k < |params[1..]| ==> params[1..][k] == params[k + 1];
    if Fillable(params[1..], more, scope) {
      forall k | 1 <= k < |params| ensures params[k].name in bound || HasDefault(params[k], scope) {
        assert params[1..][k - 1] == params[k];
      }
    }
  }

  lemma FilledTail(params: seq<Param>, bound: Scope, more: Scope, scope: Env, full: Scope)
    requires params != [] && UniqueParams(params)
    requires FirstFilled(params, bound, more, scope)
    requires Filled(params[1..], more, scope, full)
    ensures Filled(params, bound, scope, full)
  {
    hide Eval;
    var rest := params[1..];
    forall name | name in full ensures name in bound || exists k :: 0 <= k < |params| && params[k].name == name {
      if name !in more {
        var k :| 0 <= k < |rest| && rest[k].name == name;
        assert params[k + 1].name == name;
      } else if name !in bound {
        assert params[0].name == name;
      }
    }
    forall k | 0 <= k < |params| && params[k].name !in bound
      ensures HasDefault(params[k], scope) && params[k].name in full
           && full[params[k].name] == Eval(params[k].default.value, scope).value
    {
      if k > 0 {
        assert rest[k - 1] == params[k];
      }
    }
  }

  // ----- the whole of binding -----

  lemma AllFit(params: seq<Param>, args: seq<Arg>, env: Env)
    ensures FitsUpTo(params, args, env, |args|)
       <==> Ordered(params, args) && forall i :: 0 <= i < |args| ==> Fits(params, args, env, i)
  {
    assert args[..|args|] == args;
  }

  lemma GivenHeld(params: seq<Param>, args: seq<Arg>, env: Env, bound: Scope, name: string)
    requires Holds(params, args, env, |args|, bound)
    ensures name in bound <==> Given(params, args, name)
  {
  }

  /**
   * Binding succeeds exactly when the call is acceptable, and then binds exactly the declared
   * parameters, each to its argument or its default, with a value of its declared type.
   */
  lemma BindArgsIff(callee: string, params: seq<Param>, args: seq<Arg>, env: Env)
    requires UniqueParams(params)
    ensures var r := BindArgs(callee, params, args, env);
            && (r.Ok? <==> Acceptable(callee, params, args, env))
            && (r.Ok? ==> Binds(callee, params, args, env, r.value))
  {
    hide Eval, BindGiven, BindDefaults, Fits, HasDefault, FitsUpTo, Holds, Filled, Given, Binds, UniqueParams;
    assert args[0..] == args;
    StartFits(params, args, env);
    GivenIff(params, args, env, 0, false, map[]);
    AllFit(params, args, env);
    var given := BindGiven(params, args, 0, false, map[], env);
    if given.Ok? {
      var scope := DefaultScope(env, callee);
      DefaultsIff(params, given.value, scope);
      forall k | 0 <= k < |params| ensures params[k].name in given.value <==> Given(params, args, params[k].name) {
        GivenHeld(params, args, env, given.value, params[k].name);
      }
      if BindDefaults(params, given.value, scope).Ok? {
        BindsFilled(callee, params, args, env, given.value, BindDefaults(params, given.value, scope).value);
      }
    }
  }

  lemma StartFits(params: seq<Param>, args: seq<Arg>, env: Env)
    ensures FitsUpTo(params, args, env, 0) && Holds(params, args, env, 0, map[]) && !SeenNamed(args, 0)
  {
  }

  lemma BindsFilled(callee: string, params: seq<Param>, args: seq<Arg>, env: Env, given: Scope, full: Scope)
    requires UniqueParams(params) && Acceptable(callee, params, args, env)
    requires Holds(params, args, env, |args|, given)
    requires Filled(params, given, DefaultScope(env, callee), full)
    ensures Binds(callee, params, args, env, full)
  {
    hide Eval, FindParam;
    forall name | name in full ensures exists k :: 0 <= k < |params| && params[k].name == name {
      if name in given {
        var i :| 0 <= i < |args| && BoundName(params, args, i) == name;
        assert Fits(params, args, env, i);
        ParamIndex(params, ParamAt(params, args, i));
      }
    }
    forall k | 0 <= k < |params| ensures params[k].name in full && HasType(full[params[k].name], params[k].ty) {
      if params[k].name in given {
        var i :| 0 <= i < |args| && BoundName(params, args, i) == params[k].name;
        assert Fits(params, args, env, i);
        SameParam(params, ParamAt(params, args, i), k);
      }
    }
    forall k | 0 <= k < |params| && !Given(params, args, params[k].name)
      ensures params[k].name !in given
    {
    }
  }

  lemma ParamIndex(params: seq<Param>, p: Param)
    requires p in params
    ensures exists k :: 0 <= k < |params| && params[k].name == p.name
  {
    var k :| 0 <= k < |params| && params[k] == p;
    assert params[k].name == p.name;
  }

  lemma SameParam(params: seq<Param>, p: Param, k: nat)
    requires UniqueParams(params) && p in params && k < |params| && params[k].name == p.name
    ensures params[k] == p
  {
    var j :| 0 <= j < |params| && params[j] == p;
    if j < k {
      assert params[j].name != params[k].name;
    }
  }

  // ----- the order of named arguments -----

  /** `args'` is `args` with its named arguments in another order. */
  ghost predicate Reordered(args: seq<Arg>, args': seq<Arg>, perm: seq<nat>, inv: seq<nat>) {
    && |args'| == |args| == |perm| == |inv|
    && (forall i :: 0 <= i < |args| ==> perm[i] < |args| && inv[i] < |args|)
    && (forall i :: 0 <= i < |args| ==> inv[perm[i]] == i && perm[inv[i]] == i)
    && (forall i :: 0 <= i < |args| ==> args'[i] == args[perm[i]])
    && (forall i :: 0 <= i < |args| && Positional(args[i]) ==> perm[i] == i)
  }

  lemma ReorderedBack(args: seq<Arg>, args': seq<Arg>, perm: seq<nat>, inv: seq<nat>)
    requires Reordered(args, args', perm, inv)
    ensures Reordered(args', args, inv, perm)
  {
    forall i | 0 <= i < |args| ensures args[i] == args'[inv[i]] {
      assert perm[inv[i]] == i;
    }
    forall i | 0 <= i < |args| && Positional(args'[i]) ensures inv[i] == i {
      assert Positional(args[perm[i]]);
      assert perm[perm[i]] == perm[i];
      assert inv[perm[perm[i]]] == perm[i] && inv[perm[i]] == i;
    }
  }

  lemma SamePlace(params: seq<Param>, args: seq<Arg>, args': seq<Arg>, perm: seq<nat>, inv: seq<nat>, env: Env, i: nat)
    requires Reordered(args, args', perm, inv) && i < |args|
    ensures BoundName(params, args', i) == BoundName(params, args, perm[i])
    ensures Fits(params, args', env, i) <==> Fits(params, args, env, perm[i])
  {
    hide Eval, FindParam;
    if Positional(args'[i]) {
      ReorderedBack(args, args', perm, inv);
      assert inv[i] == i;
      assert perm[inv[i]] == i;
    }
  }

  lemma ReorderedOrdered(params: seq<Param>, args: seq<Arg>, args': seq<Arg>, perm: seq<nat>, inv: seq<nat>, env: Env)
    requires Reordered(args, args', perm, inv) && Ordered(params, args)
    ensures Ordered(params, args')
  {
    hide Fits, BoundName;
    ReorderedBack(args, args', perm, inv);
    forall i, j | 0 <= i < j < |args'| && Positional(args'[j]) ensures Positional(args'[i]) {
      assert inv[j] == j;
      assert perm[inv[j]] == j;
      assert args[j] == args'[j];
      assert Positional(args[i]);
    }
    forall i, j | 0 <= i < j < |args'| ensures BoundName(params, args', i) != BoundName(params, args', j) {
      SamePlace(params, args, args', perm, inv, env, i);
      SamePlace(params, args, args', perm, inv, env, j);
      assert perm[i] != perm[j];
      assert BoundName(params, args, perm[i]) != BoundName(params, args, perm[j]) by {
        if perm[i] < perm[j] {} else {}
      }
    }
  }

  lemma ReorderedGiven(params: seq<Param>, args: seq<Arg>, args': seq<Arg>, perm: seq<nat>, inv: seq<nat>, env: Env,
                       name: string)
    requires Reordered(args, args', perm, inv) && Given(params, args', name)
    ensures Given(params, args, name)
  {
    hide Fits, BoundName;
    var i :| 0 <= i < |args'| && BoundName(params, args', i) == name;
    SamePlace(params, args, args', perm, inv, env, i);
    assert BoundName(params, args, perm[i]) == name;
  }

  lemma ReorderedAcceptable(callee: string, params: seq<Param>, args: seq<Arg>, args': seq<Arg>,
                            perm: seq<nat>, inv: seq<nat>, env: Env)
    requires Reordered(args, args', perm, inv) && Acceptable(callee, params, args, env)
    ensures Acceptable(callee, params, args', env)
  {
    hide Fits, BoundName, Given, HasDefault, Ordered, Reordered;
    ReorderedOrdered(params, args, args', perm, inv, env);
    SameLength(args, args', perm, inv);
    forall i | 0 <= i < |args'| ensures Fits(params, args', env, i) {
      SamePlace(params, args, args', perm, inv, env, i);
    }
    ReorderedBack(args, args', perm, inv);
    forall k | 0 <= k < |params| && Given(params, args, params[k].name) ensures Given(params, args', params[k].name) {
      ReorderedGiven(params, args', args, inv, perm, env, params[k].name);
    }
  }

  lemma SameLength(args: seq<Arg>, args': seq<Arg>, perm: seq<nat>, inv: seq<nat>)
    requires Reordered(args, args', perm, inv)
    ensures |args'| == |args| == |perm| && forall i :: 0 <= i < |args| ==> perm[i] < |args| && args'[i] == args[perm[i]]
  {
  }

  /** The order of named arguments changes neither whether binding succeeds nor what it binds. */
  lemma NamedOrderIrrelevant(callee: string, params: seq<Param>, args: seq<Arg>, args': seq<Arg>,
                             perm: seq<nat>, inv: seq<nat>, env: Env)
    requires UniqueParams(params) && Reordered(args, args', perm, inv)
    ensures var r, r' := BindArgs(callee, params, args, env), BindArgs(callee, params, args', env);
            (r.Ok? <==> r'.Ok?) && (r.Ok? ==> r == r')
  {
    hide BindArgs, Acceptable, Binds, Reordered;
    BindArgsIff(callee, params, args, env);
    BindArgsIff(callee, params, args', env);
    ReorderedBack(args, args', perm, inv);
    if Acceptable(callee, params, args, env) {
      ReorderedAcceptable(callee, params, args, args', perm, inv, env);
      SameBindings(callee, params, args, args', perm, inv, env, BindArgs(callee, params, args, env).value,
                   BindArgs(callee, params, args', env).value);
    } else if Acceptable(callee, params, args', env) {
      ReorderedAcceptable(callee, params, args', args, inv, perm, env);
    }
  }

  lemma SameBindings(callee: string, params: seq<Param>, args: seq<Arg>, args': seq<Arg>, perm: seq<nat>, inv: seq<nat>,
                     env: Env, b: Scope, b': Scope)
    requires Reordered(args, args', perm, inv)
    requires Acceptable(callee, params, args, env) && Acceptable(callee, params, args', env)
    requires Binds(callee, params, args, env, b) && Binds(callee, params, args', env, b')
    ensures b == b'
  {
    hide Eval, Acceptable, Fits, Ordered, HasDefault, HasType, BoundName, Reordered;
    SameLength(args, args', perm, inv);
    assert b.Keys == b'.Keys;
    forall name | name in b ensures b[name] == b'[name] {
      var k :| 0 <= k < |params| && params[k].name == name;
      if Given(params, args', name) {
        var i :| 0 <= i < |args'| && BoundName(params, args', i) == name;
        SamePlace(params, args, args', perm, inv, env, i);
        FitsEval(params, args', env, i);
        assert b'[BoundName(params, args', i)] == Eval(args'[i].value, env).value;
        assert b[BoundName(params, args, perm[i])] == Eval(args[perm[i]].value, env).value;
      } else if Given(params, args, name) {
        ReorderedBack(args, args', perm, inv);
        ReorderedGiven(params, args', args, inv, perm, env, name);
      }
    }
  }

  // ----- scope -----

  /** The names an expression mentions at its own site. */
  function Names(e: Expr): set<string> {
    match e
    case IntLit(_) => {}
    case Name(name) => {name}
    case BytesLit(elems) => ElemNames(elems)
    case Call(_, args) => ArgNames(args)
    case Binary(_, lhs, rhs) => Names(lhs) + Names(rhs)
  }

  function ElemNames(elems: seq<Expr>): set<string> {
    if elems == [] then {} else Names(elems[0]) + ElemNames(elems[1..])
  }

  function ArgNames(args: seq<Arg>): set<string> {
    if args == [] then {} else
    assert args decreases to args[0];
    assert args[0] decreases to args[0].value;
    Names(args[0].value) + ArgNames(args[1..])
  }

  /** The same module and call chain, seen from places with different locals. */
  ghost predicate Agree(a: Env, b: Env, names: set<string>) {
    && a.consts == b.consts && a.fns == b.fns && a.active == b.active
    && forall name :: name in names ==> Get(a, name) == Get(b, name)
  }

  lemma {:induction false} EvalReadsNames(e: Expr, a: Env, b: Env)
    requires Agree(a, b, Names(e))
    ensures Eval(e, a) == Eval(e, b)
    decreases e, 0
  {
    hide EvalElems, EvalFn, Builtin, IsBuiltin, Xor64, Get;
    match e
    case BytesLit(elems) => ElemsReadNames(elems, a, b);
    case Binary(_, lhs, rhs) => EvalReadsNames(lhs, a, b); EvalReadsNames(rhs, a, b);
    case Call(func, args) =>
      if IsBuiltin(func) {
        if |args| == 1 {
          assert args decreases to args[0];
          assert args[0] decreases to args[0].value;
          assert Names(args[0].value) <= ArgNames(args);
          EvalReadsNames(args[0].value, a, b);
        }
      } else if func in a.fns && func !in a.active {
        CallReadsArguments(func, args, a, b);
      }
    case _ =>
  }

  lemma {:induction false} ElemsReadNames(elems: seq<Expr>, a: Env, b: Env)
    requires Agree(a, b, ElemNames(elems))
    ensures EvalElems(elems, a) == EvalElems(elems, b)
    decreases elems, 0
  {
    hide Eval, Get, Names;
    if elems != [] {
      EvalReadsNames(elems[0], a, b);
      ElemsReadNames(elems[1..], a, b);
    }
  }

  lemma {:induction false} GivenReadsNames(params: seq<Param>, args: seq<Arg>, i: nat, seen: bool, bound: Scope,
                                           a: Env, b: Env)
    requires Agree(a, b, ArgNames(args))
    ensures BindGiven(params, args, i, seen, bound, a) == BindGiven(params, args, i, seen, bound, b)
    decreases args, 0
  {
    hide Eval, Get, Names, FindParam;
    if args != [] {
      assert args decreases to args[0];
      assert args[0] decreases to args[0].value;
      EvalReadsNames(args[0].value, a, b);
      var p := ParamOf(params, args[0], i, seen);
      if p.Ok? && Eval(args[0].value, a).Ok? {
        GivenReadsNames(params, args[1..], i + 1, seen || args[0].name.Some?,
                        bound[p.value.name := Eval(args[0].value, a).value], a, b);
      }
    }
  }

  /**
   * A call reads its caller through its arguments only: its body and its defaults see the
   * parameters, the constants and the `fn` table, never the caller's locals.
   */
  lemma {:induction false} CallReadsArguments(func: string, args: seq<Arg>, a: Env, b: Env)
    requires func in a.fns && func !in a.active && Agree(a, b, ArgNames(args))
    ensures EvalFn(func, args, a) == EvalFn(func, args, b)
    decreases args, 1
  {
    hide Eval, Get, ArgNames, BindGiven, BindDefaults, Idle;
    var f := a.fns[func];
    GivenReadsNames(f.params, args, 0, false, map[], a, b);
    assert DefaultScope(a, func) == DefaultScope(b, func);
    if BindGiven(f.params, args, 0, false, map[], a).Ok? {
      var given := BindGiven(f.params, args, 0, false, map[], a).value;
      if BindDefaults(f.params, given, DefaultScope(a, func)).Ok? {
        var bindings := BindDefaults(f.params, given, DefaultScope(a, func)).value;
        assert Child(a, func, bindings) == Child(b, func, bindings);
      }
    }
  }

  // ----- the binder as the program runs it -----

  /** The two loops of the binder. */
  method BindInLoops(callee: string, params: seq<Param>, args: seq<Arg>, env: Env) returns (r: Result<Scope, LangError>)
    ensures r == BindArgs(callee, params, args, env)
  {
    hide Eval, FindParam;
    var bound: Scope := map[];
    var seenNamed := false;
    assert args[0..] == args;
    for i := 0 to |args|
      invariant BindGiven(params, args[i..], i, seenNamed, bound, env) == BindGiven(params, args, 0, false, map[], env)
    {
      var arg := args[i];
      assert args[i..][0] == arg && args[i..][1..] == args[i + 1..];
      var p := ParamOf(params, arg, i, seenNamed);
      if p.Err? { return Err(p.error); }
      if p.value.name in bound { return Err(Rejected); }
      var v := Eval(arg.value, env);
      if v.Err? { return Err(v.error); }
      if !HasType(v.value, p.value.ty) { return Err(Rejected); }
      bound := bound[p.value.name := v.value];
      seenNamed := seenNamed || arg.name.Some?;
    }
    ghost var given := bound;
    var scope := DefaultScope(env, callee);
    assert params[0..] == params;
    for k := 0 to |params|
      invariant BindDefaults(params[k..], bound, scope) == BindDefaults(params, given, scope)
    {
      var p := params[k];
      assert params[k..][0] == p && params[k..][1..] == params[k + 1..];
      if p.name !in bound {
        if p.default.None? { return Err(Rejected); }
        var v := Eval(p.default.value, scope);
        if v.Err? { return Err(v.error); }
        if !HasType(v.value, p.ty) { return Err(Rejected); }
        bound := bound[p.name := v.value];
      }
    }
    r := Ok(bound);
  }
}
