/**
 What a lambda does when it is called, before and after the pass.  A call as the program has it binds its
 arguments to the named parameters, then tests the patterns against theirs from left to right, then runs
 the body; it knows of no checks and no generated names.
 */
module AnfCalls {
  import opened Options
  import opened Anf

  /** The named parameters take their arguments. */
  function Bound(params: seq<Param>, args: seq<Value>, env: Env): Env
    requires |args| == |params|
  {
    if params == [] then env
    else
      var n := |params| - 1;
      var front := Bound(params[..n], args[..n], env);
      if params[n].Named? then front[params[n].name := args[n]] else front
  }

  function BoundNames(params: seq<Param>): set<Name> {
    set i | 0 <= i < |params| && params[i].Named? :: params[i].name
  }

  /** A parameter cannot be reassigned, whatever is called so outside. */
  function Enter(params: seq<Param>, args: seq<Value>, s: State): State
    requires |args| == |params|
  {
    State(Bound(params, args, s.env), s.vars - BoundNames(params), s.trace)
  }

  /** A value is compared with an argument, and the result required. */
  function Tested(value: Value, arg: Value, s: State): State {
    Emit(Emit(s, Performed(Eq, [value, arg])), Performed(Requires, [Result(|s.trace|)]))
  }

  /** Each pattern is evaluated and tested against its own argument. */
  function Matched(params: seq<Param>, args: seq<Value>, s: State): State
    requires |args| == |params|
  {
    if params == [] then s
    else
      var n := |params| - 1;
      var front := Matched(params[..n], args[..n], s);
      if params[n].Named? then front
      else
        var r := Eval(params[n].pattern, front);
        Tested(r.value, args[n], r.state)
  }

  function Call(params: seq<Param>, body: seq<Expr>, args: seq<Value>, s: State): Outcome
    requires |args| == |params|
  {
    Run(body, Matched(params, args, Enter(params, args, s)))
  }

  /** In each pattern, every variable among operands keeps its value up to its node. */
  predicate SettledMatch(params: seq<Param>, args: seq<Value>, s: State)
    requires |args| == |params|
  {
    params != [] ==>
      var n := |params| - 1;
      && SettledMatch(params[..n], args[..n], s)
      && (params[n].Pattern? ==> Settled(params[n].pattern, Matched(params[..n], args[..n], s)))
  }

  predicate SettledCall(params: seq<Param>, body: seq<Expr>, args: seq<Value>, s: State)
    requires |args| == |params|
  {
    var entered := Enter(params, args, s);
    SettledMatch(params, args, entered) && SettledBody(body, Matched(params, args, entered))
  }

  // ----- the patterns -----

  /** Every pattern has a generated parameter that holds its argument. */
  ghost predicate Holding(params: seq<Param>, args: seq<Value>, t: State)
    requires |args| == |params|
  {
    forall j :: 0 <= j < |params| && params[j].Pattern? ==>
      var name := Temp(Patterns(params[..j])); name in t.env && t.env[name] == args[j]
  }

  lemma HoldingFront(params: seq<Param>, args: seq<Value>, t: State)
    requires |args| == |params| && params != [] && Holding(params, args, t)
    ensures var n := |params| - 1; Holding(params[..n], args[..n], t)
  {
    var n := |params| - 1;
    forall j | 0 <= j < n ensures params[..n][..j] == params[..j] && params[..n][j] == params[j] {
    }
  }

  lemma Compared(r: Expr, name: Name, equal: Name, value: Value, arg: Value, t: State)
    requires r.Ref? && Lookup(r.name, t.env) == value && Lookup(name, t.env) == arg
    requires equal.Temp? && equal !in t.env
    ensures Eval(Assign(Let(equal), Node(Eq, [r, Ref(name)])), t).state ==
      Emit(t, Performed(Eq, [value, arg])).(env := t.env[equal := Result(|t.trace|)])
  {
    var pair := [r, Ref(name)];
    EvalRefs(pair, [value, arg], t);
    hide EvalAll;
    assert Eval(Let(equal), t).state == t;
    assert Eval(Node(Eq, pair), t) == Outcome(Result(|t.trace|), Emit(t, Performed(Eq, [value, arg])));
  }

  lemma Required(equal: Name, value: Value, t: State)
    requires Lookup(equal, t.env) == value
    ensures Eval(Node(Requires, [Ref(equal)]), t) == Outcome(Result(|t.trace|), Emit(t, Performed(Requires, [value])))
  {
    EvalRefs([Ref(equal)], [value], t);
    hide EvalAll;
  }

  lemma RunTwo(a: Expr, b: Expr, t: State)
    ensures Run([a, b], t) == Eval(b, Eval(a, t).state)
  {
    hide Eval;
    RunOne([a], b, t);
    RunOne([], a, t);
    assert [a] + [b] == [a, b] && [] + [a] == [a];
  }

  /** The comparison of a reference with a parameter, and the requirement on its result. */
  lemma ComparisonTests(r: Expr, name: Name, equal: Name, value: Value, arg: Value, t: State)
    requires r.Ref? && Lookup(r.name, t.env) == value && Lookup(name, t.env) == arg
    requires equal.Temp? && equal !in t.env
    ensures var steps := [Assign(Let(equal), Node(Eq, [r, Ref(name)])), Node(Requires, [Ref(equal)])];
      var tested := Tested(value, arg, t);
      Run(steps, t) == Outcome(Result(|t.trace| + 1), tested.(env := t.env[equal := Result(|t.trace|)]))
  {
    hide Eval, Run;
    var first, second := Assign(Let(equal), Node(Eq, [r, Ref(name)])), Node(Requires, [Ref(equal)]);
    Compared(r, name, equal, value, arg, t);
    Required(equal, Result(|t.trace|), Eval(first, t).state);
    RunTwo(first, second, t);
  }

  /** One pattern: what is lifted for it tests the pattern against the argument of its parameter. */
  lemma CheckTests(param: Param, name: Name, arg: Value, s: State, t: State, k: nat)
    requires param.Pattern? && Mentions(param.pattern, 0) && Settled(param.pattern, s) && Same(s, t, 0, k)
    requires name.Temp? && name in t.env && t.env[name] == arg
    ensures var r := LiftCheck(param, name, k); var o := Eval(param.pattern, s);
      && Same(Tested(o.value, arg, o.state), Run(r.before, t).state, 0, r.counter)
      && Run(r.before, t).value == Result(|o.state.trace| + 1)
  {
    var l, o := Lift(param.pattern, Operand, k), Eval(param.pattern, s);
    LiftOperand(param.pattern, s, t, 0, k);
    var t1 := Run(l.before, t).state;
    RunKeepsTemps(l.before, t);
    var equal := Temp(l.counter);
    ComparisonTests(l.expr, name, equal, o.value, arg, t1);
    var steps := [Assign(Let(equal), Node(Eq, [l.expr, Ref(name)])), Node(Requires, [Ref(equal)])];
    assert LiftCheck(param, name, k) == LiftedAll(l.before + steps, [], l.counter + 1);
    hide Run, Eval, Lift, Settled, Mentions;
    RunConcat(l.before, steps, t);
  }

  lemma CheckParts(param: Param, name: Name, s: State, t: State, k: nat)
    requires param.Pattern? && Mentions(param.pattern, 0) && !Settled(param.pattern, s) && Same(s, t, 0, k)
    ensures Parted(Eval(param.pattern, s).state.trace, Run(LiftCheck(param, name, k).before, t).state.trace)
  {
    hide Eval, Settled, Mentions;
    var l, trace := Lift(param.pattern, Operand, k), Eval(param.pattern, s).state.trace;
    LiftParts(param.pattern, s, t, 0, k);
    var equal := Temp(l.counter);
    var steps := [Assign(Let(equal), Node(Eq, [l.expr, Ref(name)])), Node(Requires, [Ref(equal)])];
    assert LiftCheck(param, name, k) == LiftedAll(l.before + steps, [], l.counter + 1);
    hide Run, Lift;
    RunConcat(l.before, steps, t);
    RunKeepsTemps(steps, Run(l.before, t).state);
    PartedGrows(trace, Run(l.before, t).state.trace, trace, Run(l.before + steps, t).state.trace);
  }

  ghost predicate ParamsMention(params: seq<Param>) {
    forall i :: 0 <= i < |params| ==> ParamMentions(params[i])
  }

  /** The value of the last test, if there is one. */
  function LastTest(params: seq<Param>, s: State): Value {
    if Patterns(params) > 0 && |s.trace| > 0 then Result(|s.trace| - 1) else Nothing
  }

  /** Lifted, the checks test every pattern against its own argument, from left to right. */
  lemma {:induction false} ChecksMatch(params: seq<Param>, args: seq<Value>, s: State, t: State, k: nat)
    requires |args| == |params| && ParamsMention(params) && SettledMatch(params, args, s)
    requires Same(s, t, 0, k) && Holding(params, args, t)
    ensures var r := LiftChecks(params, k); var m := Matched(params, args, s);
      Same(m, Run(r.before, t).state, 0, r.counter) && Run(r.before, t).value == LastTest(params, m)
    decreases |params|
  {
    hide Eval, Settled, Mentions, Run, LiftCheck;
    if params == [] {
      RunNothing(t);
    } else {
      var n := |params| - 1;
      var front, last := params[..n], params[n];
      HoldingFront(params, args, t);
      ChecksMatch(front, args[..n], s, t, k);
      var f, m := LiftChecks(front, k), Matched(front, args[..n], s);
      var t1 := Run(f.before, t).state;
      if last.Pattern? {
        var name := Temp(Patterns(front));
        RunKeepsTemps(f.before, t);
        CheckTests(last, name, args[n], m, t1, f.counter);
        var c := LiftCheck(last, name, f.counter);
        CheckNotEmpty(last, name, f.counter);
        RunConcat(f.before, c.before, t);
      } else {
        LiftNamed(last, Temp(Patterns(front)), f.counter);
        assert f.before + [] == f.before;
      }
    }
  }

  lemma RunNothing(t: State)
    ensures Run([], t) == Outcome(Nothing, t)
  {
  }

  lemma LiftNamed(param: Param, name: Name, k: nat)
    requires param.Named?
    ensures LiftCheck(param, name, k) == LiftedAll([], [], k)
  {
  }

  lemma CheckNotEmpty(param: Param, name: Name, k: nat)
    requires param.Pattern?
    ensures LiftCheck(param, name, k).before != []
  {
  }

  lemma {:induction false} ChecksPart(params: seq<Param>, args: seq<Value>, s: State, t: State, k: nat)
    requires |args| == |params| && ParamsMention(params) && !SettledMatch(params, args, s)
    requires Same(s, t, 0, k) && Holding(params, args, t)
    ensures Parted(Matched(params, args, s).trace, Run(LiftChecks(params, k).before, t).state.trace)
    decreases |params|
  {
    hide Eval, Settled, Mentions, Run, LiftCheck;
    var n := |params| - 1;
    var front, last := params[..n], params[n];
    HoldingFront(params, args, t);
    var f, m := LiftChecks(front, k), Matched(front, args[..n], s);
    var t1 := Run(f.before, t).state;
    var c := LiftCheck(last, Temp(Patterns(front)), f.counter);
    RunConcat(f.before, c.before, t);
    RunKeepsTemps(c.before, t1);
    MatchGrows(params, args, s);
    var a, b := Matched(params, args, s).trace, Run(LiftChecks(params, k).before, t).state.trace;
    if SettledMatch(front, args[..n], s) {
      ChecksMatch(front, args[..n], s, t, k);
      CheckParts(last, Temp(Patterns(front)), m, t1, f.counter);
      PartedGrows(Eval(last.pattern, m).state.trace, Run(c.before, t1).state.trace, a, b);
    } else {
      ChecksPart(front, args[..n], s, t, k);
      PartedGrows(m.trace, t1.trace, a, b);
    }
  }

  lemma MatchGrows(params: seq<Param>, args: seq<Value>, s: State)
    requires |args| == |params| && params != []
    ensures var n := |params| - 1;
      var front := Matched(params[..n], args[..n], s);
      && front.trace <= Matched(params, args, s).trace
      && (params[n].Pattern? ==> Eval(params[n].pattern, front).state.trace <= Matched(params, args, s).trace)
  {
    var n := |params| - 1;
    if params[n].Pattern? {
      EvalKeepsTemps(params[n].pattern, Matched(params[..n], args[..n], s));
    }
    hide Eval;
  }

  // ----- the call -----

  lemma {:induction false} NamedSize(params: seq<Param>)
    ensures |NamedParams(params)| == |params|
    decreases |params|
  {
    if params != [] {
      NamedSize(params[..|params| - 1]);
    }
  }

  /** What the last of the new parameters binds. */
  lemma NamedLast(params: seq<Param>, args: seq<Value>, env: Env)
    requires |args| == |params| == |NamedParams(params)| && params != []
    ensures var n := |params| - 1; var front := NamedParams(params[..n]);
      && |front| == n
      && Bound(NamedParams(params), args, env) == Bound(front, args[..n], env)
           [if params[n].Pattern? then Temp(Patterns(params[..n])) else params[n].name := args[n]]
  {
    var n := |params| - 1;
    assert NamedParams(params)[..n] == NamedParams(params[..n]);
  }

  /** `f` has the variables of `e`, and beyond them only generated ones below `k`. */
  ghost predicate Extends(e: Env, f: Env, k: nat) {
    && (forall n :: n in e ==> n.User? && n in f && f[n] == e[n])
    && (forall n :: n in f ==> n in e || (n.Temp? && n.index < k))
  }

  /** The new parameters bind the same variables, and beyond them only generated names. */
  lemma {:induction false} NamedBound(params: seq<Param>, args: seq<Value>, env: Env)
    requires |args| == |params| == |NamedParams(params)| && ParamsMention(params) && forall n :: n in env ==> n.User?
    ensures Extends(Bound(params, args, env), Bound(NamedParams(params), args, env), Patterns(params))
    decreases |params|
  {
    hide Mentions, NamedParams;
    if params == [] {
      NamedNone();
    } else {
      var n := |params| - 1;
      NamedLast(params, args, env);
      NamedBound(params[..n], args[..n], env);
    }
  }

  lemma NamedNone()
    ensures NamedParams([]) == []
  {
  }

  /** Each of the generated names is bound to the argument of its pattern. */
  lemma {:induction false} NamedHold(params: seq<Param>, args: seq<Value>, env: Env, j: nat)
    requires |args| == |params| == |NamedParams(params)| && ParamsMention(params) && j < |params| && params[j].Pattern?
    ensures var name, f := Temp(Patterns(params[..j])), Bound(NamedParams(params), args, env);
      name in f && f[name] == args[j] && name.index < Patterns(params)
    decreases |params|
  {
    hide Mentions, NamedParams;
    var n := |params| - 1;
    NamedLast(params, args, env);
    if j < n {
      NamedHold(params[..n], args[..n], env, j);
      assert params[..n][..j] == params[..j];
    }
  }

  lemma {:induction false} NamedNames(params: seq<Param>)
    requires ParamsMention(params)
    ensures forall n: Name :: n.User? ==> (n in BoundNames(NamedParams(params)) <==> n in BoundNames(params))
    decreases |params|
  {
    hide Mentions;
    if params != [] {
      var front, last := params[..|params| - 1], params[|params| - 1];
      NamedNames(front);
      BoundNamesLast(params);
      BoundNamesLast(NamedParams(params));
      assert NamedParams(params)[..|NamedParams(params)| - 1] == NamedParams(front);
    }
  }

  lemma BoundNamesLast(params: seq<Param>)
    requires params != []
    ensures var last := params[|params| - 1];
      BoundNames(params) == BoundNames(params[..|params| - 1]) + if last.Named? then {last.name} else {}
  {
    var n := |params| - 1;
    forall x | x in BoundNames(params[..n]) ensures x in BoundNames(params) {
      var i :| 0 <= i < n && params[..n][i].Named? && params[..n][i].name == x;
      assert params[i].Named? && params[i].name == x;
    }
    forall x | x in BoundNames(params) && !(params[n].Named? && params[n].name == x)
      ensures x in BoundNames(params[..n])
    {
      var i :| 0 <= i < |params| && params[i].Named? && params[i].name == x;
      assert params[..n][i].Named? && params[..n][i].name == x;
    }
  }

  lemma EnterSame(params: seq<Param>, args: seq<Value>, s: State)
    requires |args| == |params| && ParamsMention(params) && UserVars(s) && forall n :: n in s.env ==> n.User?
    ensures |NamedParams(params)| == |params|
    ensures var a, b := Enter(params, args, s), Enter(NamedParams(params), args, s);
      Same(a, b, 0, Patterns(params)) && Holding(params, args, b)
  {
    NamedSize(params);
    NamedBound(params, args, s.env);
    NamedNames(params);
    forall j | 0 <= j < |params| && params[j].Pattern?
      ensures var name, f := Temp(Patterns(params[..j])), Bound(NamedParams(params), args, s.env);
        name in f && f[name] == args[j]
    {
      NamedHold(params, args, s.env, j);
    }
    hide Bound, BoundNames, NamedParams, Patterns;
    assert s.vars - BoundNames(params) == s.vars - BoundNames(NamedParams(params));
  }

  lemma {:induction false} TrimmedLifts(body: seq<Expr>, k: nat)
    ensures LiftBody(body, k).before == [] <==> Trimmed(body) == []
    decreases |body|
  {
    if body != [] {
      var last := body[|body| - 1];
      TrimmedLifts(body[..|body| - 1], k);
      LowerKind(last, LiftBody(body[..|body| - 1], k).counter);
    }
  }

  /** What a call is left with: the last statement that is not a bare reference, or else the last test. */
  function LeftValue(params: seq<Param>, body: seq<Expr>, m: State): Value {
    if Trimmed(body) != [] then Run(Trimmed(body), m).value else LastTest(params, m)
  }

  /**
   Called on the same arguments, any lambda after the pass performs the same operations on the same values
   in the same order as before it, if and only if every variable among the operands of a node keeps its
   value up to the node.  Then the variables of the program have the same values, and what the call
   leaves is the value of its last statement that is not a bare reference.
   */
  lemma CallKeepsMeaning(id: nat, params: seq<Param>, body: seq<Expr>, args: seq<Value>, s: State, k: nat)
    requires |args| == |params| && Mentions(Lambda(id, params, body), 0)
    requires UserVars(s) && forall n :: n in s.env ==> n.User?
    ensures var now := Lower(Lambda(id, params, body), k).expr; now.Lambda? && |now.params| == |params|
    ensures var now := Lower(Lambda(id, params, body), k).expr;
      var before, after := Call(params, body, args, s), Run(now.body, Enter(now.params, args, s));
      && (after.state.trace == before.state.trace <==> SettledCall(params, body, args, s))
      && (SettledCall(params, body, args, s) ==>
            && Visible(after.state.env) == Visible(before.state.env) && after.state.vars == before.state.vars
            && after.value == LeftValue(params, body, Matched(params, args, Enter(params, args, s))))
  {
    var p := Patterns(params);
    var checks := LiftChecks(params, p);
    var rest := LiftBody(body, checks.counter);
    assert Lower(Lambda(id, params, body), k).expr == Lambda(id, NamedParams(params), checks.before + rest.before);
    assert ParamsMention(params) && forall i :: 0 <= i < |body| ==> Mentions(body[i], 0);
    EnterSame(params, args, s);
    hide Mentions, Lower, LiftChecks, LiftBody, Patterns, NamedParams, Run, SettledBody, SettledMatch, Matched, Enter;
    var a, b := Enter(params, args, s), Enter(NamedParams(params), args, s);
    CalledSame(params, body, args, a, b, p);
  }

  /** The same from the states in which the two bodies are entered. */
  lemma CalledSame(params: seq<Param>, body: seq<Expr>, args: seq<Value>, a: State, b: State, p: nat)
    requires |args| == |params| && ParamsMention(params) && (forall i :: 0 <= i < |body| ==> Mentions(body[i], 0))
    requires Same(a, b, 0, p) && Holding(params, args, b)
    ensures var m, checks := Matched(params, args, a), LiftChecks(params, p);
      var before, after := Run(body, m), Run(checks.before + LiftBody(body, checks.counter).before, b);
      var settled := SettledMatch(params, args, a) && SettledBody(body, m);
      && (after.state.trace == before.state.trace <==> settled)
      && (settled ==>
            && Visible(after.state.env) == Visible(before.state.env) && after.state.vars == before.state.vars
            && after.value == LeftValue(params, body, m))
  {
    hide Mentions, LiftChecks, LiftBody, Run, SettledBody, SettledMatch, Matched, Trimmed, LastTest;
    var m, checks := Matched(params, args, a), LiftChecks(params, p);
    var rest := LiftBody(body, checks.counter);
    var t := Run(checks.before, b).state;
    RunConcat(checks.before, rest.before, b);
    var before, after := Run(body, m), Run(checks.before + rest.before, b);
    if !SettledMatch(params, args, a) {
      ChecksPart(params, args, a, b, p);
      RunKeepsTemps(body, m);
      RunKeepsTemps(rest.before, t);
      PartedGrows(m.trace, t.trace, before.state.trace, after.state.trace);
    } else {
      ChecksMatch(params, args, a, b, p);
      if SettledBody(body, m) {
        BodyKeepsMeaning(body, m, t, 0, checks.counter);
        assert Visible(after.state.env) == Visible(before.state.env);
        LeftBehind(params, body, checks.before, checks.counter, m, b);
      } else {
        BodyParts(body, m, t, 0, checks.counter);
        PartedGrows(before.state.trace, after.state.trace, before.state.trace, after.state.trace);
      }
    }
  }

  lemma LeftBehind(params: seq<Param>, body: seq<Expr>, checks: seq<Expr>, k: nat, m: State, b: State)
    requires Run(checks, b).value == LastTest(params, m)
    requires Run(LiftBody(body, k).before, Run(checks, b).state).value == Run(Trimmed(body), m).value
    ensures Run(checks + LiftBody(body, k).before, b).value == LeftValue(params, body, m)
  {
    TrimmedLifts(body, k);
    hide Run, LiftBody, Trimmed;
    RunConcat(checks, LiftBody(body, k).before, b);
    if LiftBody(body, k).before == [] {
      assert checks + [] == checks;
    }
  }

  // ----- when a caller can tell -----

  lemma {:induction false} UnassignedMatch(params: seq<Param>, args: seq<Value>, s: State)
    requires |args| == |params| && forall i :: 0 <= i < |params| && params[i].Pattern? ==> Unassigned(params[i].pattern)
    ensures SettledMatch(params, args, s)
    decreases |params|
  {
    hide Unassigned, Settled;
    if params != [] {
      var n := |params| - 1;
      UnassignedMatch(params[..n], args[..n], s);
      if params[n].Pattern? {
        UnassignedSettled(params[n].pattern, Matched(params[..n], args[..n], s));
      }
    }
  }

  /** A check on the syntax is enough for every call. */
  lemma UnassignedCall(params: seq<Param>, body: seq<Expr>, args: seq<Value>, s: State)
    requires |args| == |params|
    requires forall i :: 0 <= i < |params| && params[i].Pattern? ==> Unassigned(params[i].pattern)
    requires forall i :: 0 <= i < |body| ==> Unassigned(body[i])
    ensures SettledCall(params, body, args, s)
  {
    hide Unassigned, SettledBody, SettledMatch, Matched, Enter;
    UnassignedMatch(params, args, Enter(params, args, s));
    UnassignedSettledBody(body, Matched(params, args, Enter(params, args, s)));
  }
}
