/**
 A-normal form: inside a lambda, operands are lifted into statements of their own and replaced by
 references to generated names, and the counter of generated names restarts in each lambda.
 */
module Anf {
  import opened Options

  /** Names that a program can write, and the generated ones. */
  datatype Name = User(id: nat) | Temp(index: nat)

  datatype Param = Named(name: Name) | Pattern(pattern: Expr)

  /** `Eq` and `Requires` are the selectors that the pass itself inserts for patterns. */
  datatype Operation = Eq | Requires | Other(id: nat)

  /**
   `Node` is any expression that only has operands: a select, tuple, throw, new, when, try or match.
   A variable declared by `Let` is given a value once; one declared by `Var` can be reassigned.
   */
  datatype Expr =
    | Ref(name: Name)
    | Let(name: Name)
    | Var(name: Name)
    | Const(constant: nat)
    | Oftype(expr: Expr, annotation: nat)
    | Node(operation: Operation, operands: seq<Expr>)
    | Assign(left: Expr, right: Expr)
    | Lambda(id: nat, params: seq<Param>, body: seq<Expr>)

  // ----- what expressions do -----

  /** `Place` is a variable that has no value yet; a closure keeps the variables a program can name. */
  datatype Value =
    | Nothing
    | Literal(constant: nat)
    | Result(event: nat)
    | Assigned(target: Value, value: Value)
    | Closure(id: nat, env: map<Name, Value>)
    | Place(name: Name)

  type Env = map<Name, Value>

  datatype Event =
    | Declared(name: Name)
    | Typed(annotation: nat, value: Value)
    | Performed(operation: Operation, operands: seq<Value>)
    | Stored(target: Value, value: Value)

  /** `vars` are the variables that can be reassigned. */
  datatype State = State(env: Env, vars: set<Name>, trace: seq<Event>)

  datatype Outcome = Outcome(value: Value, state: State)

  datatype Outcomes = Outcomes(values: seq<Value>, state: State)

  function Lookup(name: Name, env: Env): Value {
    if name in env then env[name] else Place(name)
  }

  function Emit(s: State, event: Event): State {
    State(s.env, s.vars, s.trace + [event])
  }

  function Visible(env: Env): Env {
    map n | n in env && n.User? :: env[n]
  }

  /** The variable that an expression names, as a declaration or a reference. */
  function NameOf(e: Expr): Option<Name>
    decreases e
  {
    match e
    case Ref(name) => Some(name)
    case Let(name) => Some(name)
    case Var(name) => Some(name)
    case Oftype(expr, _) => NameOf(expr)
    case _ => None
  }

  /** A variable without a value, or one that can be reassigned, takes the value; anything else is stored to. */
  function Give(target: Option<Name>, prior: Value, value: Value, s: State): State {
    if target.Some? && (target.value !in s.env || target.value in s.vars)
    then State(s.env[target.value := value], s.vars, s.trace)
    else Emit(s, Stored(prior, value))
  }

  /** What the target of an assignment holds when the right side has been evaluated. */
  function Prior(left: Expr, l: Value, s: State): Value {
    if NameOf(left).Some? then Lookup(NameOf(left).value, s.env) else l
  }

  function DeclareVar(name: Name, s: State): State {
    if name.User? then State(s.env, s.vars + {name}, s.trace + [Declared(name)]) else s
  }

  /** Evaluation from left to right. */
  function Eval(e: Expr, s: State): Outcome
    decreases e
  {
    match e
    case Ref(name) => Outcome(Lookup(name, s.env), s)
    case Let(name) => Outcome(Lookup(name, s.env), if name.User? then Emit(s, Declared(name)) else s)
    case Var(name) => Outcome(Lookup(name, s.env), DeclareVar(name, s))
    case Const(constant) => Outcome(Literal(constant), s)
    case Oftype(expr, annotation) =>
      var r := Eval(expr, s);
      Outcome(r.value, Emit(r.state, Typed(annotation, r.value)))
    case Node(operation, operands) =>
      var r := EvalAll(operands, s);
      Outcome(Result(|r.state.trace|), Emit(r.state, Performed(operation, r.values)))
    case Assign(left, right) =>
      var l := Eval(left, s);
      var r := Eval(right, l.state);
      var prior := Prior(left, l.value, r.state);
      Outcome(Assigned(prior, r.value), Give(NameOf(left), prior, r.value, r.state))
    case Lambda(id, _, _) => Outcome(Closure(id, Visible(s.env)), s)
  }

  function EvalAll(es: seq<Expr>, s: State): Outcomes
    decreases es
  {
    if es == [] then Outcomes([], s)
    else
      var first := Eval(es[0], s);
      var rest := EvalAll(es[1..], first.state);
      Outcomes([first.value] + rest.values, rest.state)
  }

  /** The statements of a body in turn; the value is that of the last one. */
  function Run(body: seq<Expr>, s: State): Outcome {
    if body == [] then Outcome(Nothing, s)
    else Eval(body[|body| - 1], Run(body[..|body| - 1], s).state)
  }

  // ----- when an operand may be read late -----

  /** The operands as they are found when all have been evaluated: variables are read again. */
  function Reread(es: seq<Expr>, o: Outcomes): seq<Value>
    requires |o.values| == |es|
  {
    seq(|es|, i requires 0 <= i < |es| =>
      if NameOf(es[i]).Some? then Lookup(NameOf(es[i]).value, o.state.env) else o.values[i])
  }

  lemma {:induction false} EvalAllSize(es: seq<Expr>, s: State)
    ensures |EvalAll(es, s).values| == |es|
    decreases |es|
  {
    if es != [] {
      EvalAllSize(es[1..], Eval(es[0], s).state);
    }
  }

  /**
   In this evaluation every variable among the operands of a node keeps its value up to the node.  It
   speaks of the program as written only, and can be computed before the pass is run.
   */
  predicate Settled(e: Expr, s: State)
    decreases e
  {
    match e
    case Oftype(expr, _) => Settled(expr, s)
    case Node(_, operands) =>
      EvalAllSize(operands, s);
      SettledAll(operands, s) && Reread(operands, EvalAll(operands, s)) == EvalAll(operands, s).values
    case Assign(left, right) => Settled(left, s) && Settled(right, Eval(left, s).state)
    case _ => true
  }

  predicate SettledAll(es: seq<Expr>, s: State)
    decreases es
  {
    es != [] ==> Settled(es[0], s) && SettledAll(es[1..], Eval(es[0], s).state)
  }

  predicate SettledBody(body: seq<Expr>, s: State) {
    body != [] ==>
      && SettledBody(body[..|body| - 1], s)
      && Settled(body[|body| - 1], Run(body[..|body| - 1], s).state)
  }

  /** The variables that an expression assigns when it is evaluated. */
  function Assigns(e: Expr): set<Name>
    decreases e
  {
    match e
    case Oftype(expr, _) => Assigns(expr)
    case Node(_, operands) => set i, n | 0 <= i < |operands| && n in Assigns(operands[i]) :: n
    case Assign(left, right) =>
      Assigns(left) + Assigns(right) + if NameOf(left).Some? then {NameOf(left).value} else {}
    case _ => {}
  }

  /** No variable among the operands of a node is assigned by a later operand. */
  predicate Unassigned(e: Expr)
    decreases e
  {
    match e
    case Oftype(expr, _) => Unassigned(expr)
    case Node(_, operands) =>
      && (forall i :: 0 <= i < |operands| ==> Unassigned(operands[i]))
      && (forall i, j :: 0 <= i < j < |operands| && NameOf(operands[i]).Some? ==>
            NameOf(operands[i]).value !in Assigns(operands[j]))
    case Assign(left, right) => Unassigned(left) && Unassigned(right)
    case _ => true
  }

  lemma {:induction false} NotAssigned(e: Expr, s: State, n: Name)
    requires n !in Assigns(e)
    ensures Lookup(n, Eval(e, s).state.env) == Lookup(n, s.env)
    decreases e
  {
    match e
    case Oftype(expr, _) => NotAssigned(expr, s, n);
    case Node(_, operands) => NoneAssigned(operands, s, n);
    case Assign(left, right) =>
      NotAssigned(left, s, n);
      NotAssigned(right, Eval(left, s).state, n);
    case _ =>
  }

  lemma {:induction false} NoneAssigned(es: seq<Expr>, s: State, n: Name)
    requires forall i :: 0 <= i < |es| ==> n !in Assigns(es[i])
    ensures Lookup(n, EvalAll(es, s).state.env) == Lookup(n, s.env)
    decreases es
  {
    if es != [] {
      NotAssigned(es[0], s, n);
      NoneAssigned(es[1..], Eval(es[0], s).state, n);
    }
  }

  /** Naming a variable changes no variable and gives its value. */
  lemma {:induction false} NamedValue(e: Expr, s: State)
    requires NameOf(e).Some?
    ensures Eval(e, s).state.env == s.env && Eval(e, s).value == Lookup(NameOf(e).value, s.env)
    decreases e
  {
    if e.Oftype? {
      NamedValue(e.expr, s);
    }
  }

  lemma {:induction false} UnassignedOperands(es: seq<Expr>, s: State)
    requires forall i, j :: 0 <= i < j < |es| && NameOf(es[i]).Some? ==> NameOf(es[i]).value !in Assigns(es[j])
    ensures |EvalAll(es, s).values| == |es| && Reread(es, EvalAll(es, s)) == EvalAll(es, s).values
    decreases |es|
  {
    EvalAllSize(es, s);
    if es != [] {
      var s1 := Eval(es[0], s).state;
      UnassignedOperands(es[1..], s1);
      var all, rest := EvalAll(es, s), EvalAll(es[1..], s1);
      if NameOf(es[0]).Some? {
        NamedValue(es[0], s);
        NoneAssigned(es[1..], s1, NameOf(es[0]).value);
      }
      forall i | 0 <= i < |es| ensures Reread(es, all)[i] == all.values[i] {
        if i > 0 {
          assert es[i] == es[1..][i - 1] && all.values[i] == rest.values[i - 1];
          assert Reread(es[1..], rest)[i - 1] == rest.values[i - 1];
        }
      }
    }
  }

  /** The check on the syntax is enough, whatever the state. */
  lemma {:induction false} UnassignedSettled(e: Expr, s: State)
    requires Unassigned(e)
    ensures Settled(e, s)
    decreases e
  {
    match e
    case Oftype(expr, _) => UnassignedSettled(expr, s);
    case Node(_, operands) =>
      UnassignedSettledAll(operands, s);
      UnassignedOperands(operands, s);
    case Assign(left, right) =>
      UnassignedSettled(left, s);
      UnassignedSettled(right, Eval(left, s).state);
    case _ =>
  }

  lemma {:induction false} UnassignedSettledAll(es: seq<Expr>, s: State)
    requires forall i :: 0 <= i < |es| ==> Unassigned(es[i])
    ensures SettledAll(es, s)
    decreases es
  {
    if es != [] {
      UnassignedSettled(es[0], s);
      UnassignedSettledAll(es[1..], Eval(es[0], s).state);
    }
  }

  lemma {:induction false} UnassignedSettledBody(body: seq<Expr>, s: State)
    requires forall i :: 0 <= i < |body| ==> Unassigned(body[i])
    ensures SettledBody(body, s)
    decreases |body|
  {
    if body != [] {
      UnassignedSettledBody(body[..|body| - 1], s);
      UnassignedSettled(body[|body| - 1], Run(body[..|body| - 1], s).state);
    }
  }

  // ----- the pass -----

  /** Where an expression stands: as an operand, on the right of an assignment, or as a statement. */
  datatype Position = Operand | Right | Statement

  /** The statements that were lifted, what stands in the place of the expression, and the counter. */
  datatype Lifted = Lifted(before: seq<Expr>, expr: Expr, counter: nat)

  datatype LiftedAll = LiftedAll(before: seq<Expr>, exprs: seq<Expr>, counter: nat)

  /** Lifts what has to be lifted of an expression whose operands have been dealt with. */
  function MakeTrivial(core: Lifted, position: Position): Lifted {
    if core.expr.Ref? then core
    else if position == Statement then Lifted(core.before + [core.expr], core.expr, core.counter)
    else if core.expr.Oftype? then Lifted(core.before + [core.expr], core.expr.expr, core.counter)
    else if core.expr.Let? || core.expr.Var? then Lifted(core.before + [core.expr], Ref(core.expr.name), core.counter)
    else if position == Right then core
    else
      var name := Temp(core.counter);
      Lifted(core.before + [Assign(Let(name), core.expr)], Ref(name), core.counter + 1)
  }

  function Lift(e: Expr, position: Position, k: nat): Lifted
    decreases e, 1
  {
    MakeTrivial(Lower(e, k), position)
  }

  /** The expression with its operands lifted. */
  function Lower(e: Expr, k: nat): Lifted
    decreases e, 0
  {
    match e
    case Oftype(expr, annotation) =>
      var r := Lift(expr, Operand, k);
      Lifted(r.before, Oftype(r.expr, annotation), r.counter)
    case Node(operation, operands) =>
      var r := LiftAll(operands, k);
      Lifted(r.before, Node(operation, r.exprs), r.counter)
    case Assign(left, right) =>
      var l := Lift(left, Operand, k);
      var r := Lift(right, Right, l.counter);
      Lifted(l.before + r.before, Assign(l.expr, r.expr), r.counter)
    case Lambda(id, params, body) =>
      var checks := LiftChecks(params, Patterns(params));
      Lifted([], Lambda(id, NamedParams(params), checks.before + LiftBody(body, checks.counter).before), k)
    case _ => Lifted([], e, k)
  }

  function LiftAll(es: seq<Expr>, k: nat): LiftedAll
    decreases es, 0
  {
    if es == [] then LiftedAll([], [], k)
    else
      var first := Lift(es[0], Operand, k);
      var rest := LiftAll(es[1..], first.counter);
      LiftedAll(first.before + rest.before, [first.expr] + rest.exprs, rest.counter)
  }

  function LiftBody(body: seq<Expr>, k: nat): LiftedAll
    decreases body, 0
  {
    if body == [] then LiftedAll([], [], k)
    else
      var front := LiftBody(body[..|body| - 1], k);
      var last := Lift(body[|body| - 1], Statement, front.counter);
      LiftedAll(front.before + last.before, [], last.counter)
  }

  /** How many parameters are patterns. */
  function Patterns(params: seq<Param>): nat {
    if params == [] then 0
    else Patterns(params[..|params| - 1]) + if params[|params| - 1].Pattern? then 1 else 0
  }

  function NamedParams(params: seq<Param>): seq<Param> {
    if params == [] then []
    else
      var front, last := params[..|params| - 1], params[|params| - 1];
      NamedParams(front) + [if last.Pattern? then Named(Temp(Patterns(front))) else last]
  }

  /** The checks that replace the patterns. */
  function Checks(params: seq<Param>): seq<Expr> {
    if params == [] then []
    else
      var front, last := params[..|params| - 1], params[|params| - 1];
      Checks(front) +
      if last.Pattern? then [Check(last.pattern, Temp(Patterns(front)))] else []
  }

  function Check(pattern: Expr, name: Name): Expr {
    Node(Requires, [Node(Eq, [pattern, Ref(name)])])
  }

  /** The checks that replace the patterns, lifted as statements. */
  function LiftChecks(params: seq<Param>, k: nat): LiftedAll
    decreases params, 0
  {
    if params == [] then LiftedAll([], [], k)
    else
      var front := LiftChecks(params[..|params| - 1], k);
      var last := LiftCheck(params[|params| - 1], Temp(Patterns(params[..|params| - 1])), front.counter);
      LiftedAll(front.before + last.before, [], last.counter)
  }

  function LiftCheck(param: Param, name: Name, k: nat): LiftedAll
    decreases param, 0
  {
    if param.Named? then LiftedAll([], [], k)
    else
      var p := Lift(param.pattern, Operand, k);
      var equal := Temp(p.counter);
      LiftedAll(p.before + [Assign(Let(equal), Node(Eq, [p.expr, Ref(name)])), Node(Requires, [Ref(equal)])],
                [], p.counter + 1)
  }

  /** The body of a lambda with its checks, as the pass finds it. */
  function FullBody(params: seq<Param>, body: seq<Expr>): seq<Expr> {
    Checks(params) + body
  }

  /** Lifting the checks one by one is lifting them as statements of the body. */
  lemma LiftCheckIs(param: Param, name: Name, k: nat)
    requires param.Pattern?
    ensures var r := Lift(Check(param.pattern, name), Statement, k);
      LiftCheck(param, name, k) == LiftedAll(r.before, [], r.counter)
  {
    var p := Lift(param.pattern, Operand, k);
    var reference := Ref(name);
    assert Lift(reference, Operand, p.counter) == Lifted([], reference, p.counter);
    var inner := [param.pattern, reference];
    LiftPair(param.pattern, reference, k);
    var equal := Node(Eq, inner);
    var e := Lower(equal, k);
    assert e == Lifted(p.before, Node(Eq, [p.expr, reference]), p.counter);
    LiftOne(equal, k);
  }

  lemma LiftOne(e: Expr, k: nat)
    ensures var r := Lift(e, Operand, k); LiftAll([e], k) == LiftedAll(r.before, [r.expr], r.counter)
  {
    var r := Lift(e, Operand, k);
    assert [e][1..] == [];
    assert LiftAll([], r.counter) == LiftedAll([], [], r.counter);
  }

  lemma LiftPair(e: Expr, f: Expr, k: nat)
    ensures var r := Lift(e, Operand, k); var q := Lift(f, Operand, r.counter);
      LiftAll([e, f], k) == LiftedAll(r.before + q.before, [r.expr, q.expr], q.counter)
  {
    var r := Lift(e, Operand, k);
    assert [e, f][1..] == [f];
    LiftOne(f, r.counter);
  }

  lemma {:induction false} LiftBodyConcat(a: seq<Expr>, b: seq<Expr>, k: nat)
    ensures var p := LiftBody(a, k); var q := LiftBody(b, p.counter);
      LiftBody(a + b, k) == LiftedAll(p.before + q.before, [], q.counter)
    decreases |b|
  {
    hide Lift;
    if b == [] {
      assert a + b == a;
    } else {
      var front := b[..|b| - 1];
      assert (a + b)[..|a + b| - 1] == a + front;
      LiftBodyConcat(a, front, k);
    }
  }

  lemma {:induction false} LiftChecksAre(params: seq<Param>, k: nat)
    ensures LiftChecks(params, k) == LiftBody(Checks(params), k)
    decreases |params|
  {
    if params != [] {
      var front, last := params[..|params| - 1], params[|params| - 1];
      LiftChecksAre(front, k);
      if last.Pattern? {
        var check := Check(last.pattern, Temp(Patterns(front)));
        var r := LiftBody(Checks(front), k);
        LiftCheckIs(last, Temp(Patterns(front)), r.counter);
        assert (Checks(front) + [check])[..|Checks(front)|] == Checks(front);
      } else {
        assert Checks(params) == Checks(front);
      }
    }
  }

  /** The new body of a lambda is the lifted form of its checks and its body. */
  lemma LambdaBody(id: nat, params: seq<Param>, body: seq<Expr>, k: nat)
    ensures Lower(Lambda(id, params, body), k).expr ==
      Lambda(id, NamedParams(params), LiftBody(FullBody(params, body), Patterns(params)).before)
  {
    LiftChecksAre(params, Patterns(params));
    LiftBodyConcat(Checks(params), body, Patterns(params));
  }

  // ----- the pass keeps what a body does -----

  /** A program writes no generated name, but may stand below `p` parameters that have one. */
  predicate Mentions(e: Expr, p: nat)
    decreases e
  {
    match e
    case Ref(name) => name.User? || name.index < p
    case Let(name) => name.User?
    case Var(name) => name.User?
    case Const(_) => true
    case Oftype(expr, _) => Mentions(expr, p)
    case Node(_, operands) => forall i :: 0 <= i < |operands| ==> Mentions(operands[i], p)
    case Assign(left, right) => Mentions(left, p) && Mentions(right, p)
    case Lambda(_, params, body) =>
      && (forall i :: 0 <= i < |params| ==> ParamMentions(params[i]))
      && (forall i :: 0 <= i < |body| ==> Mentions(body[i], 0))
  }

  predicate ParamMentions(param: Param)
    decreases param
  {
    if param.Named? then param.name.User? else Mentions(param.pattern, 0)
  }

  /** The same trace, and beyond the same variables only generated ones from `p` up to `k`. */
  ghost predicate Same(s: State, t: State, p: nat, k: nat) {
    && p <= k && s.trace == t.trace && s.vars == t.vars && UserVars(s)
    && (forall n :: n in s.env ==> n in t.env && t.env[n] == s.env[n])
    && (forall n :: n in t.env ==> n in s.env || (n.Temp? && p <= n.index < k))
    && (forall n :: n in s.env && n.Temp? ==> n.index < p)
  }

  /** Generated variables are never reassigned. */
  predicate UserVars(s: State) {
    forall n :: n in s.vars ==> n.User?
  }

  /** A generated variable that has a value keeps it. */
  ghost predicate TempsKept(s: State, t: State) {
    UserVars(s) ==> UserVars(t) && forall n :: n in s.env && n.Temp? ==> n in t.env && t.env[n] == s.env[n]
  }

  lemma {:induction false} EvalKeepsTemps(e: Expr, s: State)
    ensures TempsKept(s, Eval(e, s).state) && s.trace <= Eval(e, s).state.trace
    decreases e
  {
    match e
    case Oftype(expr, _) => EvalKeepsTemps(expr, s);
    case Node(_, operands) => EvalAllKeepsTemps(operands, s);
    case Assign(left, right) =>
      EvalKeepsTemps(left, s);
      EvalKeepsTemps(right, Eval(left, s).state);
    case _ =>
  }

  lemma {:induction false} EvalAllKeepsTemps(es: seq<Expr>, s: State)
    ensures TempsKept(s, EvalAll(es, s).state) && s.trace <= EvalAll(es, s).state.trace
    decreases es
  {
    if es != [] {
      EvalKeepsTemps(es[0], s);
      EvalAllKeepsTemps(es[1..], Eval(es[0], s).state);
    }
  }

  lemma {:induction false} RunKeepsTemps(body: seq<Expr>, s: State)
    ensures TempsKept(s, Run(body, s).state) && s.trace <= Run(body, s).state.trace
    decreases |body|
  {
    if body != [] {
      RunKeepsTemps(body[..|body| - 1], s);
      EvalKeepsTemps(body[|body| - 1], Run(body[..|body| - 1], s).state);
    }
  }

  lemma {:induction false} RunConcat(a: seq<Expr>, b: seq<Expr>, s: State)
    ensures Run(a + b, s).state == Run(b, Run(a, s).state).state
    ensures b != [] ==> Run(a + b, s) == Run(b, Run(a, s).state)
    decreases |b|
  {
    if b == [] {
      assert a + b == a;
    } else {
      var front := b[..|b| - 1];
      assert (a + b)[..|a + b| - 1] == a + front;
      RunConcat(a, front, s);
    }
  }

  lemma RunOne(a: seq<Expr>, e: Expr, s: State)
    ensures Run(a + [e], s) == Eval(e, Run(a, s).state)
  {
    assert (a + [e])[..|a|] == a;
  }

  /** What has been lifted does, with the expression left behind, what the expression did. */
  ghost predicate Does(r: Lifted, t: State, done: Outcome, p: nat) {
    var t1 := Run(r.before, t).state;
    var o := Eval(r.expr, t1);
    o.value == done.value && Same(done.state, o.state, p, r.counter)
  }

  /** The reference left behind has the value, once the lifted statements have run. */
  ghost predicate Leaves(r: Lifted, t: State, done: Outcome, p: nat) {
    var t1 := Run(r.before, t).state;
    && r.expr.Ref? && Lookup(r.expr.name, t1.env) == done.value && Same(done.state, t1, p, r.counter)
    && (Generated(r.expr.name, p) ==> r.expr.name in t1.env)
  }

  predicate Generated(name: Name, p: nat) {
    name.Temp? && p <= name.index
  }

  predicate IsCore(e: Expr) {
    e.Const? || e.Node? || e.Assign? || e.Lambda?
  }

  /** A temporary takes the value of the expression that is lifted into it. */
  lemma LeavesTemp(core: Lifted, t: State, done: Outcome, p: nat)
    requires Does(core, t, done, p) && IsCore(core.expr)
    ensures Leaves(MakeTrivial(core, Operand), t, done, p)
  {
    var name := Temp(core.counter);
    var step := Assign(Let(name), core.expr);
    RunOne(core.before, step, t);
    var t1 := Run(core.before, t).state;
    assert Eval(Let(name), t1).state == t1;
  }

  lemma LeavesPlace(core: Lifted, t: State, done: Outcome, p: nat, position: Position)
    requires Does(core, t, done, p) && position != Statement
    requires core.expr.Ref? || core.expr.Let? || core.expr.Var? || (core.expr.Oftype? && core.expr.expr.Ref?)
    requires var name := if core.expr.Oftype? then core.expr.expr.name else core.expr.name;
      Generated(name, p) ==> name in Run(core.before, t).state.env
    ensures Leaves(MakeTrivial(core, position), t, done, p)
  {
    if !core.expr.Ref? {
      RunOne(core.before, core.expr, t);
    }
  }

  lemma LeavesDoes(r: Lifted, t: State, done: Outcome, p: nat)
    requires Leaves(r, t, done, p)
    ensures Does(r, t, done, p)
  {
  }

  lemma LowerKind(e: Expr, k: nat)
    ensures var core := Lower(e, k).expr;
      && (core.Ref? <==> e.Ref?) && (core.Let? <==> e.Let?) && (core.Var? <==> e.Var?)
      && (core.Oftype? <==> e.Oftype?) && (IsCore(core) <==> IsCore(e))
  {
  }

  /** A variable is left as a reference to itself, anything else as a reference to a generated name. */
  lemma {:induction false} LiftLeavesRef(e: Expr, k: nat)
    ensures var r := Lift(e, Operand, k);
      && k <= r.counter && r.expr.Ref?
      && (if NameOf(e).Some? then r.expr.name == NameOf(e).value
          else r.counter > k && r.expr.name == Temp(r.counter - 1))
    decreases e, 1
  {
    LowerKind(e, k);
    LowerCounts(e, k);
    if e.Oftype? {
      LiftLeavesRef(e.expr, k);
    }
  }

  lemma {:induction false} LowerCounts(e: Expr, k: nat)
    ensures k <= Lower(e, k).counter
    decreases e, 0
  {
    match e
    case Oftype(expr, _) => LiftLeavesRef(expr, k);
    case Node(_, operands) => LiftAllCounts(operands, k);
    case Assign(left, right) =>
      LiftLeavesRef(left, k);
      LowerCounts(right, Lift(left, Operand, k).counter);
    case _ =>
  }

  lemma {:induction false} LiftAllCounts(es: seq<Expr>, k: nat)
    ensures k <= LiftAll(es, k).counter && |LiftAll(es, k).exprs| == |es|
    decreases es, 0
  {
    if es != [] {
      LiftLeavesRef(es[0], k);
      LiftAllCounts(es[1..], Lift(es[0], Operand, k).counter);
    }
  }

  /** Where the trace is kept, the expression with lifted operands does what the expression did. */
  lemma {:induction false} LowerDoes(e: Expr, s: State, t: State, p: nat, k: nat)
    requires Same(s, t, p, k) && Mentions(e, p) && Settled(e, s)
    ensures Does(Lower(e, k), t, Eval(e, s), p)
    decreases e, 0
  {
    match e
    case Oftype(expr, _) =>
      LiftOperand(expr, s, t, p, k);
    case Node(operation, operands) =>
      NodeOperands(operands, s, t, p, k);
    case Assign(left, right) =>
      LiftOperand(left, s, t, p, k);
      var l, o := Lift(left, Operand, k), Eval(left, s);
      LiftRight(right, o.state, Run(l.before, t).state, p, l.counter);
      LiftLeavesRef(left, k);
      NamesMentioned(left, p);
      AssignDoes(left, l, Lift(right, Right, l.counter), t, o, Eval(right, o.state), p);
    case Lambda(_, _, _) =>
      assert Visible(s.env) == Visible(t.env);
    case _ =>
  }

  lemma {:induction false} LiftOperand(e: Expr, s: State, t: State, p: nat, k: nat)
    requires Same(s, t, p, k) && Mentions(e, p) && Settled(e, s)
    ensures Leaves(Lift(e, Operand, k), t, Eval(e, s), p)
    decreases e, 1
  {
    LowerDoes(e, s, t, p, k);
    LowerKind(e, k);
    var core := Lower(e, k);
    if IsCore(e) {
      LeavesTemp(core, t, Eval(e, s), p);
    } else {
      if e.Oftype? {
        LiftOperand(e.expr, s, t, p, k);
      }
      LeavesPlace(core, t, Eval(e, s), p, Operand);
    }
  }

  lemma {:induction false} LiftRight(e: Expr, s: State, t: State, p: nat, k: nat)
    requires Same(s, t, p, k) && Mentions(e, p) && Settled(e, s)
    ensures Does(Lift(e, Right, k), t, Eval(e, s), p)
    decreases e, 1
  {
    LowerDoes(e, s, t, p, k);
    LowerKind(e, k);
    var core := Lower(e, k);
    if !IsCore(e) {
      if e.Oftype? {
        LiftOperand(e.expr, s, t, p, k);
      }
      LeavesPlace(core, t, Eval(e, s), p, Right);
      LeavesDoes(MakeTrivial(core, Right), t, Eval(e, s), p);
    }
  }

  lemma {:induction false} NamesMentioned(e: Expr, p: nat)
    requires Mentions(e, p)
    ensures NameOf(e).Some? ==> var n := NameOf(e).value; n.User? || n.index < p
    decreases e
  {
    if e.Oftype? {
      NamesMentioned(e.expr, p);
    }
  }

  ghost predicate AllRefs(refs: seq<Expr>, values: seq<Value>, t: State) {
    |refs| == |values| && forall i :: 0 <= i < |refs| ==> refs[i].Ref? && Lookup(refs[i].name, t.env) == values[i]
  }

  lemma {:induction false} EvalRefs(refs: seq<Expr>, values: seq<Value>, t: State)
    requires AllRefs(refs, values, t)
    ensures EvalAll(refs, t) == Outcomes(values, t)
    decreases |refs|
  {
    if refs != [] {
      EvalRefs(refs[1..], values[1..], t);
      assert values == [values[0]] + values[1..];
    }
  }

  /** The references left for operands that are no variables keep their values. */
  ghost predicate TempRefs(es: seq<Expr>, refs: seq<Expr>, values: seq<Value>, t: State) {
    && |refs| == |es| == |values|
    && forall i :: 0 <= i < |es| ==>
         && refs[i].Ref?
         && (if NameOf(es[i]).Some? then refs[i].name == NameOf(es[i]).value
             else refs[i].name.Temp? && refs[i].name in t.env && t.env[refs[i].name] == values[i])
  }

  lemma {:induction false} LiftOperands(es: seq<Expr>, s: State, t: State, p: nat, k: nat)
    requires Same(s, t, p, k) && (forall i :: 0 <= i < |es| ==> Mentions(es[i], p)) && SettledAll(es, s)
    ensures var r := LiftAll(es, k); var t1 := Run(r.before, t).state;
      Same(EvalAll(es, s).state, t1, p, r.counter) && TempRefs(es, r.exprs, EvalAll(es, s).values, t1)
    decreases es, 0
  {
    if es != [] {
      LiftOperand(es[0], s, t, p, k);
      LiftLeavesRef(es[0], k);
      var first, o := Lift(es[0], Operand, k), Eval(es[0], s);
      var t1 := Run(first.before, t).state;
      LiftOperands(es[1..], o.state, t1, p, first.counter);
      var rest := LiftAll(es[1..], first.counter);
      RunConcat(first.before, rest.before, t);
      RunKeepsTemps(rest.before, t1);
      TempRefsMore(es, first.expr, rest.exprs, o.value, EvalAll(es[1..], o.state).values, Run(rest.before, t1).state);
    }
  }

  lemma TempRefsMore(es: seq<Expr>, r: Expr, refs: seq<Expr>, v: Value, values: seq<Value>, t: State)
    requires es != [] && TempRefs(es[1..], refs, values, t) && r.Ref?
    requires if NameOf(es[0]).Some? then r.name == NameOf(es[0]).value
      else r.name.Temp? && r.name in t.env && t.env[r.name] == v
    ensures TempRefs(es, [r] + refs, [v] + values, t)
  {
    forall i | 0 < i < |es| ensures es[i] == es[1..][i - 1] {
    }
  }

  /** When the operands have been lifted, the node finds them as they are then. */
  lemma {:induction false} LiftedOperands(es: seq<Expr>, s: State, t: State, p: nat, k: nat)
    requires Same(s, t, p, k) && (forall i :: 0 <= i < |es| ==> Mentions(es[i], p)) && SettledAll(es, s)
    ensures var r := LiftAll(es, k); var t1 := Run(r.before, t).state; var o := EvalAll(es, s);
      && |o.values| == |es| && Same(o.state, t1, p, r.counter)
      && EvalAll(r.exprs, t1) == Outcomes(Reread(es, o), t1)
    decreases es, 1
  {
    LiftOperands(es, s, t, p, k);
    var r, o := LiftAll(es, k), EvalAll(es, s);
    var t1 := Run(r.before, t).state;
    forall i | 0 <= i < |es| ensures Lookup(r.exprs[i].name, t1.env) == Reread(es, o)[i] {
      NamesMentioned(es[i], p);
    }
    EvalRefs(r.exprs, Reread(es, o), t1);
  }

  lemma {:induction false} NodeOperands(es: seq<Expr>, s: State, t: State, p: nat, k: nat)
    requires Same(s, t, p, k) && (forall i :: 0 <= i < |es| ==> Mentions(es[i], p)) && SettledAll(es, s)
    requires |EvalAll(es, s).values| == |es| && Reread(es, EvalAll(es, s)) == EvalAll(es, s).values
    ensures var r := LiftAll(es, k); var t1 := Run(r.before, t).state;
      EvalAll(r.exprs, t1) == Outcomes(EvalAll(es, s).values, t1) && Same(EvalAll(es, s).state, t1, p, r.counter)
    decreases es, 2
  {
    LiftedOperands(es, s, t, p, k);
  }

  /** Lifting the two sides of an assignment in turn leaves the assignment. */
  lemma AssignDoes(e: Expr, l: Lifted, r: Lifted, t: State, left: Outcome, right: Outcome, p: nat)
    requires Leaves(l, t, left, p) && Does(r, Run(l.before, t).state, right, p)
    requires if NameOf(e).Some? then l.expr.name == NameOf(e).value && (l.expr.name.User? || l.expr.name.index < p)
      else l.expr.name.Temp? && p <= l.expr.name.index && l.expr.name in Run(l.before, t).state.env
    ensures var prior := Prior(e, left.value, right.state);
      Does(Lifted(l.before + r.before, Assign(l.expr, r.expr), r.counter), t,
           Outcome(Assigned(prior, right.value), Give(NameOf(e), prior, right.value, right.state)), p)
  {
    var t1 := Run(l.before, t).state;
    var t2 := Run(r.before, t1).state;
    RunConcat(l.before, r.before, t);
    var o := Eval(r.expr, t2);
    RunKeepsTemps(r.before, t1);
    EvalKeepsTemps(r.expr, t2);
    assert Eval(l.expr, t2).state == t2;
    var prior := Prior(e, left.value, right.state);
    assert Lookup(l.expr.name, o.state.env) == prior;
    GiveSame(e, l.expr.name, prior, right.value, right.state, o.state, p, r.counter);
  }

  lemma GiveSame(e: Expr, name: Name, prior: Value, value: Value, s: State, t: State, p: nat, k: nat)
    requires Same(s, t, p, k)
    requires if NameOf(e).Some? then name == NameOf(e).value && (name.User? || name.index < p)
      else name.Temp? && name in t.env
    ensures Same(Give(NameOf(e), prior, value, s), Give(Some(name), prior, value, t), p, k)
  {
  }

  // ----- where the trace is not kept -----

  /** The traces differ at a place that both have reached. */
  ghost predicate Parted(a: seq<Event>, b: seq<Event>) {
    exists i :: 0 <= i < |a| && i < |b| && a[i] != b[i]
  }

  lemma PartedGrows(a: seq<Event>, b: seq<Event>, a': seq<Event>, b': seq<Event>)
    requires Parted(a, b) && a <= a' && b <= b'
    ensures Parted(a', b') && a' != b'
  {
    var i :| 0 <= i < |a| && i < |b| && a[i] != b[i];
    assert a'[i] == a[i] && b'[i] == b[i];
  }

  /** The trace when the lifted statements and then the expression left behind have been evaluated. */
  function LiftedTrace(r: Lifted, t: State): seq<Event> {
    Eval(r.expr, Run(r.before, t).state).state.trace
  }

  lemma LiftedTraceGrows(r: Lifted, t: State)
    ensures Run(r.before, t).state.trace <= LiftedTrace(r, t)
  {
    EvalKeepsTemps(r.expr, Run(r.before, t).state);
  }

  /** Lifting what was left behind makes it part of the statements. */
  lemma MakeTrivialTrace(core: Lifted, position: Position, t: State)
    requires !core.expr.Ref? && !(position == Right && IsCore(core.expr))
    ensures LiftedTrace(core, t) <= Run(MakeTrivial(core, position).before, t).state.trace
  {
    var t1 := Run(core.before, t).state;
    RunOne(core.before, core.expr, t);
    var step := Assign(Let(Temp(core.counter)), core.expr);
    RunOne(core.before, step, t);
    assert Eval(Let(Temp(core.counter)), t1).state == t1;
  }

  /** Where a variable among the operands changes before the node, the lifted program tells otherwise. */
  lemma {:induction false} LowerParts(e: Expr, s: State, t: State, p: nat, k: nat)
    requires Same(s, t, p, k) && Mentions(e, p) && !Settled(e, s)
    ensures Parted(Eval(e, s).state.trace, LiftedTrace(Lower(e, k), t))
    decreases e, 0
  {
    match e
    case Oftype(expr, _) =>
      LiftParts(expr, s, t, p, k);
      LiftedTraceGrows(Lower(e, k), t);
      var l := Lift(expr, Operand, k);
      PartedGrows(Eval(expr, s).state.trace, Run(l.before, t).state.trace,
                  Eval(e, s).state.trace, LiftedTrace(Lower(e, k), t));
    case Node(_, operands) =>
      NodeParts(e, s, t, p, k);
    case Assign(left, right) =>
      AssignParts(e, s, t, p, k);
  }

  lemma {:induction false} LiftParts(e: Expr, s: State, t: State, p: nat, k: nat)
    requires Same(s, t, p, k) && Mentions(e, p) && !Settled(e, s)
    ensures Parted(Eval(e, s).state.trace, Run(Lift(e, Operand, k).before, t).state.trace)
    ensures Parted(Eval(e, s).state.trace, Run(Lift(e, Statement, k).before, t).state.trace)
    ensures Parted(Eval(e, s).state.trace, LiftedTrace(Lift(e, Right, k), t))
    decreases e, 1
  {
    LowerParts(e, s, t, p, k);
    LowerKind(e, k);
    var core, trace := Lower(e, k), Eval(e, s).state.trace;
    MakeTrivialTrace(core, Operand, t);
    PartedGrows(trace, LiftedTrace(core, t), trace, Run(Lift(e, Operand, k).before, t).state.trace);
    MakeTrivialTrace(core, Statement, t);
    PartedGrows(trace, LiftedTrace(core, t), trace, Run(Lift(e, Statement, k).before, t).state.trace);
    if !IsCore(e) {
      MakeTrivialTrace(core, Right, t);
      LiftedTraceGrows(Lift(e, Right, k), t);
      PartedGrows(trace, LiftedTrace(core, t), trace, LiftedTrace(Lift(e, Right, k), t));
    }
  }

  lemma {:induction false} LiftAllParts(es: seq<Expr>, s: State, t: State, p: nat, k: nat)
    requires Same(s, t, p, k) && (forall i :: 0 <= i < |es| ==> Mentions(es[i], p)) && !SettledAll(es, s)
    ensures Parted(EvalAll(es, s).state.trace, Run(LiftAll(es, k).before, t).state.trace)
    decreases es, 0
  {
    var s1, first := Eval(es[0], s).state, Lift(es[0], Operand, k);
    var t1, rest := Run(first.before, t).state, LiftAll(es[1..], first.counter);
    RunConcat(first.before, rest.before, t);
    if Settled(es[0], s) {
      LiftOperand(es[0], s, t, p, k);
      LiftAllParts(es[1..], s1, t1, p, first.counter);
    } else {
      LiftParts(es[0], s, t, p, k);
      EvalAllKeepsTemps(es[1..], s1);
      RunKeepsTemps(rest.before, t1);
      PartedGrows(s1.trace, t1.trace, EvalAll(es, s).state.trace, Run(LiftAll(es, k).before, t).state.trace);
    }
  }

  lemma {:induction false} NodeParts(e: Expr, s: State, t: State, p: nat, k: nat)
    requires Same(s, t, p, k) && Mentions(e, p) && e.Node? && !Settled(e, s)
    ensures Parted(Eval(e, s).state.trace, LiftedTrace(Lower(e, k), t))
    decreases e, -1
  {
    var es := e.operands;
    var o, r := EvalAll(es, s), LiftAll(es, k);
    var t1 := Run(r.before, t).state;
    EvalAllSize(es, s);
    var a, b := Eval(e, s).state.trace, LiftedTrace(Lower(e, k), t);
    if SettledAll(es, s) {
      LiftedOperands(es, s, t, p, k);
      assert a[|o.state.trace|] == Performed(e.operation, o.values);
      assert b[|o.state.trace|] == Performed(e.operation, Reread(es, o));
    } else {
      LiftAllParts(es, s, t, p, k);
      LiftedTraceGrows(Lower(e, k), t);
      PartedGrows(o.state.trace, t1.trace, a, b);
    }
  }

  lemma AssignTrace(l: Lifted, r: Lifted, t: State)
    requires l.expr.Ref?
    ensures var both := Lifted(l.before + r.before, Assign(l.expr, r.expr), r.counter);
      LiftedTrace(r, Run(l.before, t).state) <= LiftedTrace(both, t)
  {
    RunConcat(l.before, r.before, t);
    var t2 := Run(l.before + r.before, t).state;
    assert Eval(l.expr, t2).state == t2;
  }

  lemma {:induction false} AssignParts(e: Expr, s: State, t: State, p: nat, k: nat)
    requires Same(s, t, p, k) && Mentions(e, p) && e.Assign? && !Settled(e, s)
    ensures Parted(Eval(e, s).state.trace, LiftedTrace(Lower(e, k), t))
    decreases e, -1
  {
    var s1, l := Eval(e.left, s).state, Lift(e.left, Operand, k);
    var t1, r := Run(l.before, t).state, Lift(e.right, Right, l.counter);
    var t2 := Run(r.before, t1).state;
    RunConcat(l.before, r.before, t);
    LiftLeavesRef(e.left, k);
    var a, b := Eval(e, s).state.trace, LiftedTrace(Lower(e, k), t);
    assert Eval(e.right, s1).state.trace <= a;
    AssignTrace(l, r, t);
    if Settled(e.left, s) {
      LiftOperand(e.left, s, t, p, k);
      LiftParts(e.right, s1, t1, p, l.counter);
      PartedGrows(Eval(e.right, s1).state.trace, LiftedTrace(r, t1), a, b);
    } else {
      LiftParts(e.left, s, t, p, k);
      EvalKeepsTemps(e.right, s1);
      RunKeepsTemps(r.before, t1);
      LiftedTraceGrows(r, t1);
      PartedGrows(s1.trace, t1.trace, a, b);
    }
  }

  // ----- bodies -----

  /** The body without the bare references at its end. */
  function Trimmed(body: seq<Expr>): seq<Expr> {
    if body != [] && body[|body| - 1].Ref? then Trimmed(body[..|body| - 1]) else body
  }

  lemma {:induction false} TrimmedState(body: seq<Expr>, s: State)
    ensures Run(Trimmed(body), s).state == Run(body, s).state
    decreases |body|
  {
    if body != [] && body[|body| - 1].Ref? {
      TrimmedState(body[..|body| - 1], s);
    }
  }

  /**
   Where every variable among operands keeps its value, the lifted body leaves the same trace and the
   same variables, and ends with the value of the last statement that is not a bare reference.
   */
  lemma {:induction false} BodyKeepsMeaning(body: seq<Expr>, s: State, t: State, p: nat, k: nat)
    requires Same(s, t, p, k) && (forall i :: 0 <= i < |body| ==> Mentions(body[i], p)) && SettledBody(body, s)
    ensures var r := LiftBody(body, k);
      && Same(Run(body, s).state, Run(r.before, t).state, p, r.counter)
      && Run(r.before, t).value == Run(Trimmed(body), s).value
    decreases |body|
  {
    if body != [] {
      var last := body[|body| - 1];
      BodyKeepsMeaning(body[..|body| - 1], s, t, p, k);
      var front := LiftBody(body[..|body| - 1], k);
      var s1, t1 := Run(body[..|body| - 1], s).state, Run(front.before, t).state;
      LowerDoes(last, s1, t1, p, front.counter);
      LowerKind(last, front.counter);
      var core := Lower(last, front.counter);
      RunConcat(front.before, Lift(last, Statement, front.counter).before, t);
      if last.Ref? {
        assert front.before + [] == front.before;
      } else {
        RunOne(core.before, core.expr, t1);
      }
    }
  }

  lemma {:induction false} BodyParts(body: seq<Expr>, s: State, t: State, p: nat, k: nat)
    requires Same(s, t, p, k) && (forall i :: 0 <= i < |body| ==> Mentions(body[i], p)) && !SettledBody(body, s)
    ensures Parted(Run(body, s).state.trace, Run(LiftBody(body, k).before, t).state.trace)
    decreases |body|
  {
    var front, last := body[..|body| - 1], body[|body| - 1];
    var f := LiftBody(front, k);
    var s1, t1 := Run(front, s).state, Run(f.before, t).state;
    var l := Lift(last, Statement, f.counter);
    RunConcat(f.before, l.before, t);
    if SettledBody(front, s) {
      BodyKeepsMeaning(front, s, t, p, k);
      LiftParts(last, s1, t1, p, f.counter);
    } else {
      BodyParts(front, s, t, p, k);
      EvalKeepsTemps(last, s1);
      RunKeepsTemps(l.before, t1);
      PartedGrows(s1.trace, t1.trace, Run(body, s).state.trace, Run(LiftBody(body, k).before, t).state.trace);
    }
  }

  lemma {:induction false} ChecksMention(params: seq<Param>)
    requires forall i :: 0 <= i < |params| ==> ParamMentions(params[i])
    ensures forall i :: 0 <= i < |Checks(params)| ==> Mentions(Checks(params)[i], Patterns(params))
    decreases |params|
  {
    if params != [] {
      var front, last := params[..|params| - 1], params[|params| - 1];
      ChecksMention(front);
      forall i | 0 <= i < |Checks(params)| ensures Mentions(Checks(params)[i], Patterns(params)) {
        if i < |Checks(front)| {
          MentionsMore(Checks(front)[i], Patterns(front), Patterns(params));
        } else {
          MentionsMore(last.pattern, 0, Patterns(params));
        }
      }
    }
  }

  lemma {:induction false} MentionsMore(e: Expr, p: nat, q: nat)
    requires Mentions(e, p) && p <= q
    ensures Mentions(e, q)
    decreases e
  {
    match e
    case Oftype(expr, _) => MentionsMore(expr, p, q);
    case Node(_, operands) =>
      forall i | 0 <= i < |operands| ensures Mentions(operands[i], q) {
        MentionsMore(operands[i], p, q);
      }
    case Assign(left, right) =>
      MentionsMore(left, p, q);
      MentionsMore(right, p, q);
    case _ =>
  }

  lemma FullBodyMentions(id: nat, params: seq<Param>, body: seq<Expr>)
    requires Mentions(Lambda(id, params, body), 0)
    ensures var full := FullBody(params, body);
      forall i :: 0 <= i < |full| ==> Mentions(full[i], Patterns(params))
  {
    var full, p := FullBody(params, body), Patterns(params);
    ChecksMention(params);
    forall i | 0 <= i < |full| ensures Mentions(full[i], p) {
      if i >= |Checks(params)| {
        MentionsMore(body[i - |Checks(params)|], 0, p);
      }
    }
  }

  /** The value is kept unless the body ends with a bare reference to a variable with another value. */
  predicate KeepsValue(body: seq<Expr>, s: State) {
    body != [] && body[|body| - 1].Ref? ==>
      Lookup(body[|body| - 1].name, Run(body, s).state.env) == Run(Trimmed(body), s).value
  }

  lemma ValueKept(body: seq<Expr>, s: State)
    ensures Run(Trimmed(body), s).value == Run(body, s).value <==> KeepsValue(body, s)
  {
    if body != [] && body[|body| - 1].Ref? {
      assert Run(body, s).state == Run(body[..|body| - 1], s).state;
    }
  }

  /**
   Entered with its parameters, the new body of any lambda performs the same operations on the same
   values in the same order as the checks of its patterns and its body did, if and only if every
   variable among the operands of a node keeps its value up to the node.  Then it gives the variables
   of the program the same values, and ends with the same value if and only if it does not end with a
   bare reference to something else.
   */
  lemma LambdaKeepsMeaning(id: nat, params: seq<Param>, body: seq<Expr>, s: State, k: nat)
    requires Mentions(Lambda(id, params, body), 0) && UserVars(s)
    requires forall n :: n in s.env && n.Temp? ==> n.index < Patterns(params)
    ensures var full := FullBody(params, body);
      var before, after := Run(full, s), Run(Lower(Lambda(id, params, body), k).expr.body, s);
      && (after.state.trace == before.state.trace <==> SettledBody(full, s))
      && (SettledBody(full, s) ==>
            && Visible(after.state.env) == Visible(before.state.env) && after.state.vars == before.state.vars
            && (after.value == before.value <==> KeepsValue(full, s)))
  {
    var full, p := FullBody(params, body), Patterns(params);
    FullBodyMentions(id, params, body);
    LambdaBody(id, params, body, k);
    hide Mentions, SettledBody, Run, Lower, LiftBody, Checks, Patterns, NamedParams, Trimmed, KeepsValue;
    var before, after := Run(full, s), Run(LiftBody(full, p).before, s);
    if SettledBody(full, s) {
      BodyKeepsMeaning(full, s, s, p, p);
      ValueKept(full, s);
      assert Visible(after.state.env) == Visible(before.state.env);
    } else {
      BodyParts(full, s, s, p, p);
      PartedGrows(before.state.trace, after.state.trace, before.state.trace, after.state.trace);
    }
  }

  /** A body that ends with a bare reference loses its result. */
  lemma BareReferenceIsDropped(x: Name, s: State)
    requires x.User? && x !in s.env
    ensures var body := [Assign(Let(x), Const(1)), Ref(x)];
      && !KeepsValue(body, s)
      && Run(body, s).value == Literal(1)
      && Run(LiftBody(body, 0).before, s).value == Assigned(Place(x), Literal(1))
  {
    GivenThenUsed(x, s);
    LiftedGiven(x);
    hide LiftBody;
    RunOne([Let(x)], Assign(Ref(x), Const(1)), s);
    RunOne([], Let(x), s);
    assert [] + [Let(x)] == [Let(x)];
    assert Run([Let(x)], s) == Eval(Let(x), s);
  }

  lemma GivenThenUsed(x: Name, s: State)
    requires x.User? && x !in s.env
    ensures var body := [Assign(Let(x), Const(1)), Ref(x)]; !KeepsValue(body, s) && Run(body, s).value == Literal(1)
  {
    var first, last := Assign(Let(x), Const(1)), Ref(x);
    var body := [first, last];
    assert body[..1] == [first] && [first][..0] == [];
    assert Run([], s) == Outcome(Nothing, s);
    assert Run([first], s) == Eval(first, s);
    var s1 := Emit(s, Declared(x));
    assert Eval(Let(x), s) == Outcome(Place(x), s1);
    assert Eval(Const(1), s1) == Outcome(Literal(1), s1);
    assert Eval(first, s).value == Assigned(Place(x), Literal(1));
    assert Trimmed(body) == Trimmed([first]) == [first];
  }

  lemma LiftedGiven(x: Name)
    ensures LiftBody([Assign(Let(x), Const(1)), Ref(x)], 0).before == [Let(x)] + [Assign(Ref(x), Const(1))]
  {
    var first, last := Assign(Let(x), Const(1)), Ref(x);
    var body := [first, last];
    assert body[..1] == [first] && [first][..0] == [];
    var l := Lift(Let(x), Operand, 0);
    assert Lower(Let(x), 0) == Lifted([], Let(x), 0);
    assert l == Lifted([Let(x)], Ref(x), 0);
    assert Lower(first, 0) == Lifted([Let(x)], Assign(Ref(x), Const(1)), 0);
    assert LiftBody([first], 0).before == [Let(x), Assign(Ref(x), Const(1))];
    var front := LiftBody([first], 0);
    assert Lift(last, Statement, front.counter) == Lifted([], last, front.counter);
    assert LiftBody(body, 0).before == front.before + [];
    assert LiftBody(body, 0).before == [Let(x), Assign(Ref(x), Const(1))];
  }

  /** A call that passes a variable and then assigns it. */
  function PassThenGive(x: Name, value: Expr): Expr {
    Node(Other(0), [Ref(x), Assign(Ref(x), value)])
  }

  /** What the operands of such a call are, and what is found when the call is made. */
  lemma PassedAndReread(x: Name, value: Expr, s: State)
    requires var r := Eval(value, s).state; x !in r.env || x in r.vars
    ensures var es := PassThenGive(x, value).operands; var o := EvalAll(es, s);
      && |o.values| == 2 && o.values[0] == Lookup(x, s.env) && Reread(es, o) == [Eval(value, s).value, o.values[1]]
  {
    var give := Assign(Ref(x), value);
    var es := [Ref(x), give];
    assert es[1..] == [give] && [give][1..] == [];
    var s1 := Eval(give, s).state;
    assert EvalAll([], s1) == Outcomes([], s1);
    assert EvalAll([give], s) == Outcomes([Eval(give, s).value], s1);
    var o := EvalAll(es, s);
    assert o == Outcomes([Lookup(x, s.env), Eval(give, s).value], s1);
    assert s1.env[x] == Eval(value, s).value;
  }

  lemma PassThenGiveSettled(x: Name, value: Expr, s: State)
    requires var r := Eval(value, s).state; x !in r.env || x in r.vars
    ensures Settled(PassThenGive(x, value), s) <==> Settled(value, s) && Lookup(x, s.env) == Eval(value, s).value
  {
    PassedAndReread(x, value, s);
    var give := Assign(Ref(x), value);
    assert [Ref(x), give][1..] == [give] && [give][1..] == [];
    assert SettledAll([give], s) <==> Settled(give, s);
    assert SettledAll([Ref(x), give], s) <==> SettledAll([give], s);
    assert Eval(Ref(x), s).state == s;
    assert Settled(give, s) <==> Settled(value, s);
    var o := EvalAll([Ref(x), give], s);
    assert [Eval(value, s).value, o.values[1]][0] == Eval(value, s).value;
    assert o.values == [Lookup(x, s.env), o.values[1]];
  }

  /**
   References are not copied.  A variable that is reassigned while the other operands are evaluated is
   passed with its new value: here the call gets 2, where evaluation from left to right passes 1.
   */
  lemma ReferencesAreNotSnapshots(x: Name, s: State)
    requires x in s.vars && x in s.env && s.env[x] == Literal(1) && UserVars(s)
    requires forall n :: n in s.env ==> n.User?
    ensures var e := PassThenGive(x, Const(2)); var o := EvalAll(e.operands, s);
      && !Unassigned(e) && !Settled(e, s)
      && |o.values| == 2 && o.values[0] == Literal(1) && Reread(e.operands, o)[0] == Literal(2)
      && Run([e], s).state.trace != Run(LiftBody([e], 0).before, s).state.trace
  {
    var e := PassThenGive(x, Const(2));
    assert x in Assigns(e.operands[1]) && NameOf(e.operands[0]) == Some(x);
    PassedAndReread(x, Const(2), s);
    PassThenGiveSettled(x, Const(2), s);
    OneStatement(e, s);
  }

  lemma DeclaredWith(x: Name, constant: nat, s: State)
    requires x.User? && x !in s.env
    ensures var e := Assign(Var(x), Const(constant));
      && Mentions(e, 0)
      && Eval(e, s).state == State(s.env[x := Literal(constant)], s.vars + {x}, s.trace + [Declared(x)])
  {
    var s1 := DeclareVar(x, s);
    assert Mentions(Var(x), 0) && Mentions(Const(constant), 0);
    assert Eval(Var(x), s) == Outcome(Place(x), s1);
    assert Eval(Const(constant), s1) == Outcome(Literal(constant), s1);
  }

  /** The same as a whole body: a `var` is declared with 1, passed, and reassigned by the next operand. */
  lemma ReassignedInACall(x: Name, s: State)
    requires x.User? && x !in s.env && UserVars(s) && forall n :: n in s.env ==> n.User?
    ensures var body := [Assign(Var(x), Const(1)), PassThenGive(x, Const(2))];
      !SettledBody(body, s) && Run(body, s).state.trace != Run(LiftBody(body, 0).before, s).state.trace
  {
    hide Eval, Reread, Settled, SettledBody, Run, LiftBody, Mentions;
    var first, e := Assign(Var(x), Const(1)), PassThenGive(x, Const(2));
    DeclaredWith(x, 1, s);
    PassMentions(x);
    ReferencesAreNotSnapshots(x, Eval(first, s).state);
    SecondUnsettled(first, e, s);
    UnsettledTrace([first, e], s);
  }

  lemma PassMentions(x: Name)
    requires x.User?
    ensures Mentions(PassThenGive(x, Const(2)), 0)
  {
    assert Mentions(Ref(x), 0) && Mentions(Const(2), 0) && Mentions(Assign(Ref(x), Const(2)), 0);
  }

  lemma SecondUnsettled(first: Expr, e: Expr, s: State)
    requires !Settled(e, Eval(first, s).state)
    ensures !SettledBody([first, e], s)
  {
    hide Eval, Settled;
    assert [first, e][..1] == [first] && [first][..0] == [] && Run([], s) == Outcome(Nothing, s);
    assert Run([first], s).state == Eval(first, s).state;
  }

  lemma UnsettledTrace(body: seq<Expr>, s: State)
    requires (forall i :: 0 <= i < |body| ==> Mentions(body[i], 0)) && !SettledBody(body, s)
    requires UserVars(s) && forall n :: n in s.env ==> n.User?
    ensures Run(body, s).state.trace != Run(LiftBody(body, 0).before, s).state.trace
  {
    hide Eval, Settled, Run, LiftBody;
    BodyParts(body, s, s, 0, 0);
    var a, b := Run(body, s).state.trace, Run(LiftBody(body, 0).before, s).state.trace;
    PartedGrows(a, b, a, b);
  }

  lemma OneStatement(e: Expr, s: State)
    requires Mentions(e, 0) && !Settled(e, s) && UserVars(s) && forall n :: n in s.env ==> n.User?
    ensures Run([e], s).state.trace != Run(LiftBody([e], 0).before, s).state.trace
  {
    assert [e][..0] == [] && Run([], s) == Outcome(Nothing, s);
    assert !SettledBody([e], s);
    UnsettledTrace([e], s);
  }

  /** So it is with every operation whose result is assigned: it is a value that nobody had before. */
  lemma ResultIsNeverPassedEarly(x: Name, operation: Operation, operands: seq<Expr>, s: State)
    requires x in s.vars && UserVars(s) && (forall n :: n in s.env ==> n.User?)
    requires Lookup(x, s.env).Result? ==> Lookup(x, s.env).event < |s.trace|
    requires Mentions(PassThenGive(x, Node(operation, operands)), 0)
    ensures var e := PassThenGive(x, Node(operation, operands));
      !Settled(e, s) && Run([e], s).state.trace != Run(LiftBody([e], 0).before, s).state.trace
  {
    var value := Node(operation, operands);
    var e := PassThenGive(x, value);
    EvalAllKeepsTemps(operands, s);
    VarsGrow(value, s);
    PassThenGiveSettled(x, value, s);
    OneStatement(e, s);
  }

  lemma {:induction false} VarsGrow(e: Expr, s: State)
    ensures s.vars <= Eval(e, s).state.vars
    decreases e
  {
    match e
    case Oftype(expr, _) => VarsGrow(expr, s);
    case Node(_, operands) => VarsGrowAll(operands, s);
    case Assign(left, right) =>
      VarsGrow(left, s);
      VarsGrow(right, Eval(left, s).state);
    case _ =>
  }

  lemma {:induction false} VarsGrowAll(es: seq<Expr>, s: State)
    ensures s.vars <= EvalAll(es, s).state.vars
    decreases es
  {
    if es != [] {
      VarsGrow(es[0], s);
      VarsGrowAll(es[1..], Eval(es[0], s).state);
    }
  }

  /** The check on the syntax is not needed where the variable is assigned the value it has. */
  lemma SelfAssignmentIsHarmless(x: Name, s: State)
    requires x in s.vars
    ensures !Unassigned(PassThenGive(x, Ref(x))) && Settled(PassThenGive(x, Ref(x)), s)
  {
    var e := PassThenGive(x, Ref(x));
    assert x in Assigns(e.operands[1]) && NameOf(e.operands[0]) == Some(x);
    PassThenGiveSettled(x, Ref(x), s);
  }

  // ----- the shape of the result -----

  /** Every operand is a reference, except the right side of an assignment. */
  predicate Simple(e: Expr)
    decreases e
  {
    match e
    case Oftype(expr, _) => expr.Ref?
    case Node(_, operands) => forall i :: 0 <= i < |operands| ==> operands[i].Ref?
    case Assign(left, right) =>
      (left.Ref? || (left.Let? && left.name.Temp?)) && !right.Let? && !right.Var? && !right.Oftype? && Simple(right)
    case Lambda(_, params, body) =>
      && (forall i :: 0 <= i < |params| ==> params[i].Named?)
      && (forall i :: 0 <= i < |body| ==> Simple(body[i]))
    case _ => true
  }

  predicate AllSimple(es: seq<Expr>) {
    forall i :: 0 <= i < |es| ==> Simple(es[i])
  }

  lemma {:induction false} LowerSimple(e: Expr, k: nat)
    ensures var r := Lower(e, k); AllSimple(r.before) && Simple(r.expr)
    decreases e, 0
  {
    match e
    case Oftype(expr, _) =>
      LiftSimple(expr, Operand, k);
    case Node(_, operands) =>
      LiftAllSimple(operands, k);
    case Assign(left, right) =>
      LiftSimple(left, Operand, k);
      var l := Lift(left, Operand, k);
      LiftSimple(right, Right, l.counter);
    case Lambda(_, params, body) =>
      NamedParamsNamed(params);
      ChecksSimple(params, Patterns(params));
      BodySimple(body, LiftChecks(params, Patterns(params)).counter);
    case _ =>
  }

  lemma {:induction false} LiftSimple(e: Expr, position: Position, k: nat)
    ensures var r := Lift(e, position, k);
      && AllSimple(r.before) && Simple(r.expr)
      && (position == Operand ==> r.expr.Ref?)
      && (position == Right ==> !r.expr.Let? && !r.expr.Var? && !r.expr.Oftype?)
    decreases e, 1
  {
    LowerSimple(e, k);
    LowerKind(e, k);
    LiftLeavesRef(e, k);
  }

  lemma {:induction false} LiftAllSimple(es: seq<Expr>, k: nat)
    ensures var r := LiftAll(es, k);
      AllSimple(r.before) && forall i :: 0 <= i < |r.exprs| ==> r.exprs[i].Ref?
    decreases es, 0
  {
    if es != [] {
      LiftSimple(es[0], Operand, k);
      LiftAllSimple(es[1..], Lift(es[0], Operand, k).counter);
    }
  }

  lemma {:induction false} BodySimple(body: seq<Expr>, k: nat)
    ensures AllSimple(LiftBody(body, k).before)
    decreases body, 0
  {
    if body != [] {
      BodySimple(body[..|body| - 1], k);
      LiftSimple(body[|body| - 1], Statement, LiftBody(body[..|body| - 1], k).counter);
    }
  }

  lemma {:induction false} ChecksSimple(params: seq<Param>, k: nat)
    ensures AllSimple(LiftChecks(params, k).before)
    decreases params, 0
  {
    if params != [] {
      var front := params[..|params| - 1];
      ChecksSimple(front, k);
      CheckSimple(params[|params| - 1], Temp(Patterns(front)), LiftChecks(front, k).counter);
    }
  }

  lemma {:induction false} CheckSimple(param: Param, name: Name, k: nat)
    ensures AllSimple(LiftCheck(param, name, k).before)
    decreases param, 0
  {
    if param.Pattern? {
      LiftSimple(param.pattern, Operand, k);
    }
  }

  lemma {:induction false} NamedParamsNamed(params: seq<Param>)
    ensures forall i :: 0 <= i < |NamedParams(params)| ==> NamedParams(params)[i].Named?
    decreases |params|
  {
    if params != [] {
      NamedParamsNamed(params[..|params| - 1]);
    }
  }

  // ----- the generated names -----

  /** How many parameters have a generated name. */
  function TempParams(params: seq<Param>): nat {
    if params == [] then 0
    else
      var last := params[|params| - 1];
      TempParams(params[..|params| - 1]) + if last.Named? && last.name.Temp? then 1 else 0
  }

  /** Uses only generated names below `c`; a nested lambda uses only its own. */
  predicate Names(e: Expr, c: nat)
    decreases e, 0
  {
    match e
    case Ref(name) => name.User? || name.index < c
    case Let(name) => name.User?
    case Var(name) => name.User?
    case Const(_) => true
    case Oftype(expr, _) => Names(expr, c)
    case Node(_, operands) => forall i :: 0 <= i < |operands| ==> Names(operands[i], c)
    case Assign(left, right) => Names(left, c) && Names(right, c)
    case Lambda(_, params, body) => BodyNames(body, TempParams(params))
  }

  predicate DeclaresTemp(e: Expr) {
    e.Assign? && e.left.Let? && e.left.name.Temp?
  }

  /** A statement defines the next generated name, or none, and uses only those defined before it. */
  predicate StatementNames(e: Expr, c: nat)
    decreases e, 1
  {
    if DeclaresTemp(e) then e.left.name.index == c && Names(e.right, c) else Names(e, c)
  }

  /** The counter after these statements. */
  function Counter(body: seq<Expr>, c: nat): nat {
    if body == [] then c
    else Counter(body[..|body| - 1], c) + if DeclaresTemp(body[|body| - 1]) then 1 else 0
  }

  /** From `c` on, each generated name is defined once, in order, and before it is used. */
  predicate BodyNames(body: seq<Expr>, c: nat)
    decreases body, 0
  {
    body != [] ==>
      && BodyNames(body[..|body| - 1], c)
      && StatementNames(body[|body| - 1], Counter(body[..|body| - 1], c))
  }

  lemma {:induction false} BodyNamesConcat(a: seq<Expr>, b: seq<Expr>, c: nat)
    requires BodyNames(a, c) && BodyNames(b, Counter(a, c))
    ensures BodyNames(a + b, c) && Counter(a + b, c) == Counter(b, Counter(a, c))
    decreases |b|
  {
    if b == [] {
      assert a + b == a;
    } else {
      assert (a + b)[..|a + b| - 1] == a + b[..|b| - 1];
      BodyNamesConcat(a, b[..|b| - 1], c);
    }
  }

  lemma BodyNamesOne(a: seq<Expr>, e: Expr, c: nat)
    requires BodyNames(a, c) && StatementNames(e, Counter(a, c))
    ensures BodyNames(a + [e], c)
    ensures Counter(a + [e], c) == Counter(a, c) + if DeclaresTemp(e) then 1 else 0
  {
    assert (a + [e])[..|a|] == a;
  }

  lemma {:induction false} NamesMore(e: Expr, c: nat, d: nat)
    requires Names(e, c) && c <= d
    ensures Names(e, d)
    decreases e
  {
    match e
    case Oftype(expr, _) => NamesMore(expr, c, d);
    case Node(_, operands) =>
      forall i | 0 <= i < |operands| ensures Names(operands[i], d) {
        NamesMore(operands[i], c, d);
      }
    case Assign(left, right) =>
      NamesMore(left, c, d);
      NamesMore(right, c, d);
    case _ =>
  }

  ghost predicate LiftedNames(r: Lifted, k: nat) {
    && k <= r.counter && BodyNames(r.before, k) && Counter(r.before, k) == r.counter
    && Names(r.expr, r.counter)
  }

  ghost predicate LiftedAllNames(r: LiftedAll, k: nat) {
    && k <= r.counter && BodyNames(r.before, k) && Counter(r.before, k) == r.counter
    && forall i :: 0 <= i < |r.exprs| ==> Names(r.exprs[i], r.counter)
  }

  lemma MakeTrivialNames(core: Lifted, position: Position, k: nat)
    requires LiftedNames(core, k) && !DeclaresTemp(core.expr)
    ensures LiftedNames(MakeTrivial(core, position), k)
  {
    if !core.expr.Ref? {
      BodyNamesOne(core.before, core.expr, k);
      BodyNamesOne(core.before, Assign(Let(Temp(core.counter)), core.expr), k);
    }
  }

  lemma {:induction false} LowerNames(e: Expr, p: nat, k: nat)
    requires Mentions(e, p) && p <= k
    ensures LiftedNames(Lower(e, k), k) && !DeclaresTemp(Lower(e, k).expr)
    decreases e, 0
  {
    match e
    case Oftype(expr, _) =>
      LiftNames(expr, Operand, p, k);
    case Node(_, operands) =>
      LiftAllNames(operands, p, k);
    case Assign(left, right) =>
      LiftNames(left, Operand, p, k);
      LiftLeavesRef(left, k);
      var l := Lift(left, Operand, k);
      LiftNames(right, Right, p, l.counter);
      var r := Lift(right, Right, l.counter);
      BodyNamesConcat(l.before, r.before, k);
      NamesMore(l.expr, l.counter, r.counter);
    case Lambda(_, params, body) =>
      TempParamsAre(params);
      var c := Patterns(params);
      ChecksNames(params, c);
      var checks := LiftChecks(params, c);
      BodyLiftNames(body, checks.counter);
      BodyNamesConcat(checks.before, LiftBody(body, checks.counter).before, c);
    case _ =>
  }

  lemma {:induction false} LiftNames(e: Expr, position: Position, p: nat, k: nat)
    requires Mentions(e, p) && p <= k
    ensures LiftedNames(Lift(e, position, k), k)
    decreases e, 1
  {
    LowerNames(e, p, k);
    MakeTrivialNames(Lower(e, k), position, k);
  }

  lemma {:induction false} LiftAllNames(es: seq<Expr>, p: nat, k: nat)
    requires (forall i :: 0 <= i < |es| ==> Mentions(es[i], p)) && p <= k
    ensures LiftedAllNames(LiftAll(es, k), k)
    decreases es, 0
  {
    if es != [] {
      LiftNames(es[0], Operand, p, k);
      var first := Lift(es[0], Operand, k);
      LiftAllNames(es[1..], p, first.counter);
      var rest := LiftAll(es[1..], first.counter);
      BodyNamesConcat(first.before, rest.before, k);
      NamesMore(first.expr, first.counter, rest.counter);
    }
  }

  lemma {:induction false} BodyLiftNames(body: seq<Expr>, k: nat)
    requires forall i :: 0 <= i < |body| ==> Mentions(body[i], 0)
    ensures LiftedAllNames(LiftBody(body, k), k)
    decreases body, 0
  {
    if body != [] {
      BodyLiftNames(body[..|body| - 1], k);
      var front := LiftBody(body[..|body| - 1], k);
      LiftNames(body[|body| - 1], Statement, 0, front.counter);
      BodyNamesConcat(front.before, Lift(body[|body| - 1], Statement, front.counter).before, k);
    }
  }

  lemma {:induction false} ChecksNames(params: seq<Param>, k: nat)
    requires (forall i :: 0 <= i < |params| ==> ParamMentions(params[i])) && Patterns(params) <= k
    ensures LiftedAllNames(LiftChecks(params, k), k)
    decreases params, 0
  {
    if params != [] {
      var front := params[..|params| - 1];
      ChecksNames(front, k);
      var r := LiftChecks(front, k);
      CheckNames(params[|params| - 1], Patterns(front), r.counter);
      BodyNamesConcat(r.before, LiftCheck(params[|params| - 1], Temp(Patterns(front)), r.counter).before, k);
    }
  }

  lemma {:induction false} CheckNames(param: Param, j: nat, k: nat)
    requires ParamMentions(param) && (param.Pattern? ==> j < k)
    ensures LiftedAllNames(LiftCheck(param, Temp(j), k), k)
    decreases param, 0
  {
    if param.Pattern? {
      LiftNames(param.pattern, Operand, 0, k);
      var q := Lift(param.pattern, Operand, k);
      var equal := Temp(q.counter);
      var step, check := Assign(Let(equal), Node(Eq, [q.expr, Ref(Temp(j))])), Node(Requires, [Ref(equal)]);
      BodyNamesOne(q.before, step, k);
      BodyNamesOne(q.before + [step], check, k);
      assert q.before + [step, check] == q.before + [step] + [check];
    }
  }

  lemma {:induction false} TempParamsAre(params: seq<Param>)
    requires forall i :: 0 <= i < |params| ==> ParamMentions(params[i])
    ensures TempParams(NamedParams(params)) == Patterns(params)
    decreases |params|
  {
    if params != [] {
      var front := params[..|params| - 1];
      TempParamsAre(front);
      assert NamedParams(params)[..|NamedParams(front)|] == NamedParams(front);
    }
  }

  /** The result is in normal form at every depth, with its generated names defined once and before use. */
  lemma NormalForm(e: Expr, k: nat)
    requires Mentions(e, 0) && e.Lambda?
    ensures var r := Lower(e, k).expr; r.Lambda? && Simple(r) && Names(r, 0)
  {
    LowerSimple(e, k);
    LowerNames(e, 0, k);
  }

  // ----- the visitor -----

  /** Outside every lambda only the lambdas inside an expression are rewritten. */
  function Outside(e: Expr): Expr
    decreases e, 0
  {
    match e
    case Oftype(expr, annotation) => Oftype(Outside(expr), annotation)
    case Node(operation, operands) => Node(operation, OutsideAll(operands))
    case Assign(left, right) => Assign(Outside(left), Outside(right))
    case Lambda(_, _, _) => Lower(e, 0).expr
    case _ => e
  }

  function OutsideAll(es: seq<Expr>): (r: seq<Expr>)
    ensures |r| == |es|
    decreases es, 0
  {
    if es == [] then [] else OutsideAll(es[..|es| - 1]) + [Outside(es[|es| - 1])]
  }

  /** An initialiser outside every lambda, rewritten, does exactly what it did, lambdas being closures. */
  lemma {:induction false} OutsideKeepsMeaning(e: Expr, s: State)
    ensures Eval(Outside(e), s) == Eval(e, s) && NameOf(Outside(e)) == NameOf(e)
    decreases e, 0
  {
    match e
    case Oftype(expr, _) => OutsideKeepsMeaning(expr, s);
    case Node(_, operands) => OutsideAllKeepsMeaning(operands, s);
    case Assign(left, right) =>
      OutsideKeepsMeaning(left, s);
      OutsideKeepsMeaning(right, Eval(left, s).state);
    case _ =>
  }

  lemma {:induction false} OutsideAllKeepsMeaning(es: seq<Expr>, s: State)
    ensures EvalAll(OutsideAll(es), s) == EvalAll(es, s)
    decreases es, 0
  {
    if es != [] {
      OutsideAt(es);
      var rs := OutsideAll(es);
      assert rs[0] == Outside(es[0]);
      OutsideKeepsMeaning(es[0], s);
      OutsideTail(es);
      OutsideAllKeepsMeaning(es[1..], Eval(es[0], s).state);
    }
  }

  lemma {:induction false} OutsideAt(es: seq<Expr>)
    ensures forall i :: 0 <= i < |es| ==> OutsideAll(es)[i] == Outside(es[i])
    decreases |es|
  {
    if es != [] {
      OutsideAt(es[..|es| - 1]);
    }
  }

  lemma OutsideTail(es: seq<Expr>)
    requires es != []
    ensures OutsideAll(es)[1..] == OutsideAll(es[1..])
  {
    OutsideAt(es);
    OutsideAt(es[1..]);
  }

  function Size(e: Expr): (r: nat)
    ensures r >= 1
    decreases e, 0
  {
    match e
    case Oftype(expr, _) => 1 + Size(expr)
    case Node(_, operands) => 1 + SizeAll(operands)
    case Assign(left, right) => 1 + Size(left) + Size(right)
    case Lambda(_, params, body) => 1 + SizeParams(params) + SizeAll(body)
    case _ => 1
  }

  function SizeAll(es: seq<Expr>): nat
    decreases es, 0
  {
    if es == [] then 0 else SizeAll(es[..|es| - 1]) + Size(es[|es| - 1])
  }

  function SizeParams(params: seq<Param>): nat
    decreases params, 0
  {
    if params == [] then 0 else SizeParams(params[..|params| - 1]) + SizeParam(params[|params| - 1])
  }

  function SizeParam(param: Param): nat
    decreases param, 0
  {
    if param.Named? then 0 else 4 + Size(param.pattern)
  }

  lemma {:induction false} SizeOf(es: seq<Expr>, i: nat)
    requires i < |es|
    ensures Size(es[i]) <= SizeAll(es)
    decreases |es|
  {
    if i < |es| - 1 {
      SizeOf(es[..|es| - 1], i);
    }
  }

  lemma {:induction false} SizeConcat(a: seq<Expr>, b: seq<Expr>)
    ensures SizeAll(a + b) == SizeAll(a) + SizeAll(b)
    decreases |b|
  {
    if b == [] {
      assert a + b == a;
    } else {
      assert (a + b)[..|a + b| - 1] == a + b[..|b| - 1];
      SizeConcat(a, b[..|b| - 1]);
    }
  }

  lemma CheckSize(pattern: Expr, name: Name)
    ensures SizeAll([Check(pattern, name)]) == Size(pattern) + 3
  {
    var check := Check(pattern, name);
    var equal := Node(Eq, [pattern, Ref(name)]);
    assert [pattern, Ref(name)][..1] == [pattern] && [pattern][..0] == [];
    assert SizeAll([pattern]) == Size(pattern);
    assert SizeAll([pattern, Ref(name)]) == Size(pattern) + 1;
    assert [equal][..0] == [] && [check][..0] == [];
    assert SizeAll([equal]) == Size(equal);
  }

  lemma {:induction false} ChecksSize(params: seq<Param>)
    ensures SizeAll(Checks(params)) <= SizeParams(params)
    decreases |params|
  {
    if params != [] {
      var front, last := params[..|params| - 1], params[|params| - 1];
      ChecksSize(front);
      if last.Pattern? {
        var check := Check(last.pattern, Temp(Patterns(front)));
        SizeConcat(Checks(front), [check]);
        CheckSize(last.pattern, Temp(Patterns(front)));
      } else {
        assert Checks(params) == Checks(front);
      }
    }
  }

  lemma {:induction false} LiftAllConcat(a: seq<Expr>, b: seq<Expr>, k: nat)
    ensures var p := LiftAll(a, k); var q := LiftAll(b, p.counter);
      LiftAll(a + b, k) == LiftedAll(p.before + q.before, p.exprs + q.exprs, q.counter)
    decreases |a|
  {
    if a == [] {
      assert a + b == b;
    } else {
      assert (a + b)[1..] == a[1..] + b;
      LiftAllConcat(a[1..], b, Lift(a[0], Operand, k).counter);
    }
  }

  /** The lifted statements of a lambda that is being visited, and the counter of the one around it. */
  datatype Frame = Frame(anf: seq<Expr>, hygienic: nat)

  class Visitor {
    var stateStack: seq<Frame>
    var hygienic: nat

    constructor ()
      ensures stateStack == [] && hygienic == 0
    {
      stateStack, hygienic := [], 0;
    }

    method PushStatement(e: Expr)
      requires stateStack != []
      modifies this`stateStack
      ensures stateStack == Pushed(old(stateStack), [e])
    {
      var last := |stateStack| - 1;
      stateStack := stateStack[last := Frame(stateStack[last].anf + [e], stateStack[last].hygienic)];
    }

    method FreshName() returns (name: Name)
      modifies this`hygienic
      ensures name == Temp(old(hygienic)) && hygienic == old(hygienic) + 1
    {
      name := Temp(hygienic);
      hygienic := hygienic + 1;
    }

    /** Returns what takes the place of the expression; outside every lambda nothing changes. */
    method Trivialise(e: Expr, position: Position) returns (r: Expr)
      modifies this
      ensures stateStack == [] <==> old(stateStack) == []
      ensures old(stateStack) == [] ==> r == e && hygienic == old(hygienic)
      ensures old(stateStack) != [] ==>
        var m := MakeTrivial(Lifted([], e, old(hygienic)), position);
        r == m.expr && hygienic == m.counter && stateStack == Pushed(old(stateStack), m.before)
    {
      if stateStack == [] {
        return e;
      }
      PushedNothing(stateStack);
      assert [] + [e] == [e];
      if e.Ref? {
        return e;
      }
      if position == Statement {
        PushStatement(e);
        return e;
      }
      if e.Oftype? {
        PushStatement(e);
        return e.expr;
      }
      if e.Let? || e.Var? {
        PushStatement(e);
        return Ref(e.name);
      }
      if position == Right {
        return e;
      }
      var name := FreshName();
      assert [] + [Assign(Let(name), e)] == [Assign(Let(name), e)];
      PushStatement(Assign(Let(name), e));
      return Ref(name);
    }

    /** Visiting inside a lambda adds the lifted statements to its list; outside, there is none to add to. */
    method Visit(e: Expr, position: Position) returns (r: Expr)
      modifies this
      ensures old(stateStack) == [] ==> r == Outside(e) && hygienic == old(hygienic) && stateStack == []
      ensures old(stateStack) != [] ==> var m := Lift(e, position, old(hygienic));
        r == m.expr && hygienic == m.counter && stateStack == Pushed(old(stateStack), m.before)
      decreases Size(e), 3
    {
      if stateStack == [] {
        r := VisitOutside(e);
        return;
      }
      var core := e;
      PushedNothing(stateStack);
      match e {
        case Oftype(expr, annotation) =>
          var x := Visit(expr, Operand);
          core := Oftype(x, annotation);
        case Node(operation, operands) =>
          var xs := VisitOperands(operands);
          core := Node(operation, xs);
        case Assign(left, right) =>
          var l := Visit(left, Operand);
          ghost var first := Lift(left, Operand, old(hygienic));
          var r := Visit(right, Right);
          PushedTwice(old(stateStack), first.before, Lift(right, Right, first.counter).before);
          core := Assign(l, r);
        case Lambda(id, params, body) =>
          core := VisitLambda(id, params, body);
        case _ =>
      }
      ghost var lowered := Lower(e, old(hygienic));
      assert core == lowered.expr && hygienic == lowered.counter;
      assert stateStack == Pushed(old(stateStack), lowered.before);
      MakeTrivialAfter(lowered, position);
      PushedTwice(old(stateStack), lowered.before, MakeTrivial(Lifted([], core, hygienic), position).before);
      r := Trivialise(core, position);
    }

    /** The same traversal with no list to lift into: nothing is trivialised. */
    method VisitOutside(e: Expr) returns (r: Expr)
      requires stateStack == []
      modifies this
      ensures r == Outside(e) && hygienic == old(hygienic) && stateStack == []
      decreases Size(e), 2
    {
      r := e;
      match e {
        case Oftype(expr, annotation) =>
          var x := Visit(expr, Operand);
          r := Oftype(x, annotation);
        case Node(operation, operands) =>
          var xs := VisitOperands(operands);
          r := Node(operation, xs);
        case Assign(left, right) =>
          var x := Visit(left, Operand);
          var y := Visit(right, Right);
          r := Assign(x, y);
        case Lambda(id, params, body) =>
          r := VisitLambda(id, params, body);
        case _ =>
      }
      r := Trivialise(r, Operand);
    }

    method VisitOperands(es: seq<Expr>) returns (xs: seq<Expr>)
      modifies this
      ensures old(stateStack) == [] ==> xs == OutsideAll(es) && hygienic == old(hygienic) && stateStack == []
      ensures old(stateStack) != [] ==> var m := LiftAll(es, old(hygienic));
        xs == m.exprs && hygienic == m.counter && stateStack == Pushed(old(stateStack), m.before)
      decreases SizeAll(es) + 1, 0
    {
      xs := [];
      var i := 0;
      if stateStack != [] {
        PushedNothing(stateStack);
      }
      while i < |es|
        invariant i <= |es| && (stateStack == [] <==> old(stateStack) == [])
        invariant stateStack == [] ==> xs == OutsideAll(es[..i]) && hygienic == old(hygienic)
        invariant stateStack != [] ==> var m := LiftAll(es[..i], old(hygienic));
          xs == m.exprs && hygienic == m.counter && stateStack == Pushed(old(stateStack), m.before)
      {
        SizeOf(es, i);
        assert es[..i + 1] == es[..i] + [es[i]] && es[..i + 1][..i] == es[..i];
        if stateStack != [] {
          LiftAllConcat(es[..i], [es[i]], old(hygienic));
          LiftOne(es[i], hygienic);
          PushedTwice(old(stateStack), LiftAll(es[..i], old(hygienic)).before, Lift(es[i], Operand, hygienic).before);
        }
        var x := Visit(es[i], Operand);
        xs := xs + [x];
        i := i + 1;
      }
      assert es[..i] == es;
    }

    /** Replaces the patterns by parameters with generated names and returns the checks to be made. */
    method NameParams(params: seq<Param>) returns (named: seq<Param>, checks: seq<Expr>)
      requires hygienic == 0
      modifies this`hygienic
      ensures named == NamedParams(params) && checks == Checks(params) && hygienic == Patterns(params)
    {
      named, checks := [], [];
      var i := 0;
      while i < |params|
        invariant i <= |params|
        invariant named == NamedParams(params[..i]) && checks == Checks(params[..i])
        invariant hygienic == Patterns(params[..i])
      {
        assert params[..i + 1][..i] == params[..i];
        if params[i].Pattern? {
          var name := FreshName();
          checks := checks + [Check(params[i].pattern, name)];
          named := named + [Named(name)];
        } else {
          named := named + [params[i]];
        }
        i := i + 1;
      }
      assert params[..i] == params;
    }

    method VisitStatements(body: seq<Expr>)
      requires stateStack != []
      modifies this
      ensures var m := LiftBody(body, old(hygienic));
        hygienic == m.counter && stateStack == Pushed(old(stateStack), m.before)
      decreases SizeAll(body) + 1, 0
    {
      PushedNothing(stateStack);
      var i := 0;
      while i < |body|
        invariant i <= |body|
        invariant var m := LiftBody(body[..i], old(hygienic));
          hygienic == m.counter && stateStack == Pushed(old(stateStack), m.before)
      {
        SizeOf(body, i);
        assert body[..i + 1][..i] == body[..i];
        PushedTwice(old(stateStack), LiftBody(body[..i], old(hygienic)).before,
                    Lift(body[i], Statement, hygienic).before);
        var _ := Visit(body[i], Statement);
        i := i + 1;
      }
      assert body[..i] == body;
    }

    /** The list of the lambda around is left as it was, and so is its counter. */
    method VisitLambda(id: nat, params: seq<Param>, body: seq<Expr>) returns (r: Expr)
      modifies this
      ensures stateStack == old(stateStack) && hygienic == old(hygienic)
      ensures forall k :: r == Lower(Lambda(id, params, body), k).expr
      decreases Size(Lambda(id, params, body)), 1
    {
      stateStack := stateStack + [Frame([], hygienic)];
      hygienic := 0;
      var named, checks := NameParams(params);
      ChecksSize(params);
      SizeConcat(checks, body);
      forall k: nat ensures Lower(Lambda(id, params, body), k).expr ==
          Lambda(id, NamedParams(params), LiftBody(checks + body, Patterns(params)).before) {
        LambdaBody(id, params, body, k);
      }
      hide Lower, LiftBody, NamedParams, Checks, Patterns;
      VisitStatements(checks + body);
      var last := |stateStack| - 1;
      r := Lambda(id, named, stateStack[last].anf);
      hygienic := stateStack[last].hygienic;
      stateStack := stateStack[..last];
    }
  }

  function Pushed(stack: seq<Frame>, statements: seq<Expr>): seq<Frame>
    requires stack != []
  {
    var last := |stack| - 1;
    stack[last := Frame(stack[last].anf + statements, stack[last].hygienic)]
  }

  lemma PushedNothing(stack: seq<Frame>)
    requires stack != []
    ensures Pushed(stack, []) == stack
  {
    assert stack[|stack| - 1].anf + [] == stack[|stack| - 1].anf;
  }

  lemma PushedTwice(stack: seq<Frame>, a: seq<Expr>, b: seq<Expr>)
    requires stack != []
    ensures Pushed(Pushed(stack, a), b) == Pushed(stack, a + b)
  {
    var last := |stack| - 1;
    assert stack[last].anf + a + b == stack[last].anf + (a + b);
  }

  lemma MakeTrivialAfter(core: Lifted, position: Position)
    ensures var m := MakeTrivial(Lifted([], core.expr, core.counter), position);
      MakeTrivial(core, position) == Lifted(core.before + m.before, m.expr, m.counter)
  {
  }
}
