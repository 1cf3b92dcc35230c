/**
 Name resolution of method bodies, and the captures of `when` closures.

 Resolution walks an expression with a stack of scopes.  A use that crosses the scope of a closure
 on its way to a local is recorded as a capture of that closure, and remembered in the closure's
 own table so that it is recorded once.  The specification knows nothing of this: it has lexical
 environments and free names.
 */
module Resolution {
  import opened Options

  type Name = nat

  /** Locals carry the name they were declared with; entities and type parameters are never captured. */
  datatype Symbol = Local(name: Name, id: nat) | Global(id: nat)

  datatype Binder = Binder(name: Name, id: nat)

  /**
   Expressions by what they do to scopes.  `Block` also stands for the branches of a conditional,
   the body of a loop and the arm of a match; `Seq` for any node that visits its children in order.
   The arguments of a `when` are visited before it, in its own scope.
   */
  datatype Expr =
    | Skip
    | Use(name: Name)
    | Define(binder: Binder, init: Expr)
    | Seq(first: Expr, second: Expr)
    | Block(inner: Expr)
    | When(binders: seq<Binder>, body: Expr)

  type Table = map<Name, Symbol>

  /** A name that is declared twice in one scope keeps its first meaning. */
  function Declare(table: Table, binder: Binder): Table {
    if binder.name in table then table else table[binder.name := Local(binder.name, binder.id)]
  }

  function DeclareAll(table: Table, binders: seq<Binder>): Table {
    if binders == [] then table
    else Declare(DeclareAll(table, binders[..|binders| - 1]), binders[|binders| - 1])
  }

  // ----- the specification -----

  /** The current scope after `e` has been visited in it. */
  function After(e: Expr, scope: Table): Table {
    match e
    case Define(binder, init) => Declare(After(init, scope), binder)
    case Seq(first, second) => After(second, After(first, scope))
    case _ => scope
  }

  /** The names `e` declares in the scope it is visited in. */
  function Declared(e: Expr): set<Name> {
    match e
    case Define(binder, init) => Declared(init) + {binder.name}
    case Seq(first, second) => Declared(first) + Declared(second)
    case _ => {}
  }

  function BinderNames(binders: seq<Binder>): set<Name> {
    set i | 0 <= i < |binders| :: binders[i].name
  }

  function FreeNames(e: Expr): set<Name> {
    match e
    case Skip => {}
    case Use(name) => {name}
    case Define(_, init) => FreeNames(init)
    case Seq(first, second) => FreeNames(first) + (FreeNames(second) - Declared(first))
    case Block(inner) => FreeNames(inner)
    case When(binders, body) => FreeNames(body) - BinderNames(binders)
  }

  /** The locals of the environment among these names. */
  function LocalsOf(names: set<Name>, env: Table): set<Symbol> {
    set n | n in names && n in env && env[n].Local? :: env[n]
  }

  /**
   For each `when` in `e`, in the order in which resolution leaves them, the outer locals that are
   free in its body; `outer` is the environment around the current scope.
   */
  function Captures(e: Expr, outer: Table, scope: Table): seq<set<Symbol>> {
    match e
    case Skip => []
    case Use(_) => []
    case Define(_, init) => Captures(init, outer, scope)
    case Seq(first, second) => Captures(first, outer, scope) + Captures(second, outer, After(first, scope))
    case Block(inner) => Captures(inner, outer + scope, map[])
    case When(binders, body) =>
      Captures(body, outer + scope + DeclareAll(map[], binders), map[]) +
      [LocalsOf(FreeNames(e), outer + scope)]
  }

  /** What each use in `e` means, in the order of the visit; `None` is an undefined name. */
  function Bindings(e: Expr, outer: Table, scope: Table): seq<Option<Symbol>> {
    match e
    case Skip => []
    case Use(name) => [Lookup(name, outer + scope)]
    case Define(_, init) => Bindings(init, outer, scope)
    case Seq(first, second) => Bindings(first, outer, scope) + Bindings(second, outer, After(first, scope))
    case Block(inner) => Bindings(inner, outer + scope, map[])
    case When(binders, body) => Bindings(body, outer + scope + DeclareAll(map[], binders), map[])
  }

  function Lookup(name: Name, env: Table): Option<Symbol> {
    if name in env then Some(env[name]) else None
  }

  // ----- scopes -----

  datatype Scope = Scope(symbols: Table, closure: bool, captures: seq<Symbol>)

  /** The environment that a stack of tables makes, innermost last. */
  function Environment(tables: seq<Table>): Table {
    if tables == [] then map[] else Environment(tables[..|tables| - 1]) + tables[|tables| - 1]
  }

  /** No table from `i` inwards declares the name. */
  predicate NotBelow(tables: seq<Table>, i: int, name: Name) {
    forall k :: 0 <= i <= k < |tables| ==> name !in tables[k]
  }

  ghost predicate Distinct(s: seq<Symbol>) {
    forall i, j :: 0 <= i < j < |s| ==> s[i] != s[j]
  }

  /** The names a scope knows only because it captured them. */
  function Captured(scope: Scope, table: Table): set<Name> {
    set n | n in scope.symbols && n !in table
  }

  /** The scope holds its declarations, and beside them the locals it has captured from outside. */
  ghost predicate ScopeOk(scope: Scope, table: Table, env: Table) {
    && (forall n :: n in table ==> n in scope.symbols && scope.symbols[n] == table[n])
    && (forall n :: n in Captured(scope, table) ==>
          scope.closure && n in env && env[n].Local? && scope.symbols[n] == env[n])
    && Distinct(scope.captures)
    && (forall s :: s in scope.captures <==> s in LocalsOf(Captured(scope, table), env))
  }

  ghost predicate Keyed(table: Table) {
    forall n :: n in table && table[n].Local? ==> table[n].name == n
  }

  /** A name captured at `i` is captured by every closure further out that it crosses. */
  ghost predicate CrossesAll(scopes: seq<Scope>, tables: seq<Table>, i: int)
    requires |scopes| == |tables| && 0 <= i < |scopes|
  {
    forall n, j ::
      n in Captured(scopes[i], tables[i]) && 0 <= j < i && scopes[j].closure && NotBelow(tables[..i], j, n) ==>
        n in scopes[j].symbols
  }

  ghost predicate Agrees(scopes: seq<Scope>, tables: seq<Table>) {
    && |scopes| == |tables|
    && (forall i :: 0 <= i < |tables| ==> Keyed(tables[i]))
    && (forall i :: 0 <= i < |tables| ==> ScopeOk(scopes[i], tables[i], Environment(tables[..i])))
    && (forall i :: 0 <= i < |tables| ==> CrossesAll(scopes, tables, i))
  }

  // ----- resolving one name -----

  /** The closures from `lo` up to `hi` record the symbol. */
  function Marked(scopes: seq<Scope>, name: Name, symbol: Symbol, lo: nat, hi: nat): (r: seq<Scope>)
    requires lo <= hi <= |scopes|
    ensures |r| == |scopes|
    ensures forall i :: 0 <= i < |scopes| ==>
      r[i] == if lo <= i < hi && scopes[i].closure then Recorded(scopes[i], name, symbol) else scopes[i]
    decreases hi - lo
  {
    if lo == hi then scopes
    else
      var rest := Marked(scopes, name, symbol, lo, hi - 1);
      if scopes[hi - 1].closure then rest[hi - 1 := Recorded(scopes[hi - 1], name, symbol)] else rest
  }

  function Recorded(scope: Scope, name: Name, symbol: Symbol): Scope {
    Scope(scope.symbols[name := symbol], scope.closure, scope.captures + [symbol])
  }

  /** What scope `i` has captured once `names` have been used from inside it. */
  ghost function CapturedAfter(scopes: seq<Scope>, tables: seq<Table>, names: set<Name>, i: nat): set<Name>
    requires |scopes| == |tables| && i < |scopes|
  {
    Captured(scopes[i], tables[i]) +
    if scopes[i].closure then Crossing(tables, names, i) else {}
  }

  /** The names among these that are locals outside scope `i` and are not declared from `i` inwards. */
  ghost function Crossing(tables: seq<Table>, names: set<Name>, i: nat): set<Name>
    requires i < |tables|
  {
    set n | n in names && NotBelow(tables, i, n) && n in Environment(tables[..i]) && Environment(tables[..i])[n].Local?
  }

  lemma {:induction false} EnvironmentIs(tables: seq<Table>, f: nat, n: Name)
    requires f < |tables| && n in tables[f] && NotBelow(tables, f + 1, n)
    ensures n in Environment(tables) && Environment(tables)[n] == tables[f][n]
    decreases |tables|
  {
    if f < |tables| - 1 {
      EnvironmentIs(tables[..|tables| - 1], f, n);
    }
  }

  lemma {:induction false} EnvironmentMissing(tables: seq<Table>, n: Name)
    requires NotBelow(tables, 0, n)
    ensures n !in Environment(tables)
    decreases |tables|
  {
    if tables != [] {
      EnvironmentMissing(tables[..|tables| - 1], n);
    }
  }

  /** Tables that do not declare a name let the environment outside through. */
  lemma {:induction false} EnvironmentThrough(tables: seq<Table>, i: nat, n: Name)
    requires i <= |tables| && NotBelow(tables, i, n)
    ensures n in Environment(tables) <==> n in Environment(tables[..i])
    ensures n in Environment(tables) ==> Environment(tables)[n] == Environment(tables[..i])[n]
    decreases |tables|
  {
    if i < |tables| {
      EnvironmentThrough(tables[..|tables| - 1], i, n);
      assert tables[..|tables| - 1][..i] == tables[..i];
    } else {
      assert tables[..i] == tables;
    }
  }

  lemma {:induction false} EnvironmentKeyed(tables: seq<Table>)
    requires forall i :: 0 <= i < |tables| ==> Keyed(tables[i])
    ensures Keyed(Environment(tables))
    decreases |tables|
  {
    if tables != [] {
      EnvironmentKeyed(tables[..|tables| - 1]);
    }
  }

  /** The innermost scope that knows the name, by declaration or capture, has the right symbol. */
  lemma FoundSymbol(scopes: seq<Scope>, tables: seq<Table>, f: nat, n: Name, i: nat)
    requires Agrees(scopes, tables) && f < i <= |scopes| && n in scopes[f].symbols
    requires forall k :: f < k < |scopes| ==> n !in scopes[k].symbols
    ensures NotBelow(tables, f + 1, n)
    ensures n in Environment(tables[..i]) && Environment(tables[..i])[n] == scopes[f].symbols[n]
  {
    forall k | f < k < |tables| ensures n !in tables[k] {
      assert ScopeOk(scopes[k], tables[k], Environment(tables[..k]));
    }
    assert ScopeOk(scopes[f], tables[f], Environment(tables[..f]));
    var front := tables[..i];
    if n in tables[f] {
      EnvironmentIs(front, f, n);
    } else {
      assert n in Captured(scopes[f], tables[f]);
      EnvironmentThrough(front, f, n);
      assert front[..f] == tables[..f];
    }
  }

  /** Every closure further out than the scope that knows the name has already captured it. */
  lemma AlreadyCaptured(scopes: seq<Scope>, tables: seq<Table>, f: nat, n: Name, i: nat)
    requires Agrees(scopes, tables) && i <= f < |scopes| && n in scopes[f].symbols && scopes[i].closure
    requires forall k :: i <= k <= f ==> n !in tables[k]
    ensures n in Captured(scopes[i], tables[i])
  {
    assert n in Captured(scopes[f], tables[f]);
    if i < f {
      assert CrossesAll(scopes, tables, f);
      assert NotBelow(tables[..f], i, n);
    }
  }

  ghost predicate UsedFrom(scopes: seq<Scope>, tables: seq<Table>, names: set<Name>, after: seq<Scope>) {
    && |scopes| == |tables| == |after|
    && forall i :: 0 <= i < |scopes| ==>
         after[i].closure == scopes[i].closure &&
           Captured(after[i], tables[i]) == CapturedAfter(scopes, tables, names, i)
  }

  ghost predicate Finds(scopes: seq<Scope>, n: Name, f: nat) {
    f < |scopes| && n in scopes[f].symbols && forall k :: f < k < |scopes| ==> n !in scopes[k].symbols
  }

  lemma MarkedScope(scopes: seq<Scope>, tables: seq<Table>, f: nat, n: Name, i: nat)
    requires Agrees(scopes, tables) && Finds(scopes, n, f) && scopes[f].symbols[n].Local?
    requires f < i < |scopes| && scopes[i].closure
    ensures var t := Recorded(scopes[i], n, scopes[f].symbols[n]);
      && ScopeOk(t, tables[i], Environment(tables[..i]))
      && Captured(t, tables[i]) == Captured(scopes[i], tables[i]) + {n}
  {
    FoundSymbol(scopes, tables, f, n, i);
    var env := Environment(tables[..i]);
    var symbol := scopes[f].symbols[n];
    var t := Recorded(scopes[i], n, symbol);
    EnvironmentKeyed(tables[..i]);
    assert ScopeOk(scopes[i], tables[i], env);
    assert n !in tables[i];
    assert Captured(t, tables[i]) == Captured(scopes[i], tables[i]) + {n};
    assert LocalsOf(Captured(t, tables[i]), env) == LocalsOf(Captured(scopes[i], tables[i]), env) + {symbol};
    assert symbol !in scopes[i].captures;
  }

  lemma MarkedCrosses(scopes: seq<Scope>, tables: seq<Table>, f: nat, n: Name, hi: nat, i: nat)
    requires Agrees(scopes, tables) && Finds(scopes, n, f) && scopes[f].symbols[n].Local?
    requires f < hi <= |scopes| && (forall k :: hi <= k < |scopes| ==> !scopes[k].closure) && i < |scopes|
    ensures CrossesAll(Marked(scopes, n, scopes[f].symbols[n], f + 1, hi), tables, i)
  {
    var t := Marked(scopes, n, scopes[f].symbols[n], f + 1, hi);
    forall m, j | m in Captured(t[i], tables[i]) && 0 <= j < i && t[j].closure && NotBelow(tables[..i], j, m)
      ensures m in t[j].symbols
    {
      if m in Captured(scopes[i], tables[i]) {
        assert CrossesAll(scopes, tables, i);
      } else if j <= f {
        assert m == n && f < i;
        assert forall k :: j <= k <= f ==> tables[..i][k] == tables[k];
        AlreadyCaptured(scopes, tables, f, n, j);
      }
    }
  }

  lemma MarkedOutside(scopes: seq<Scope>, tables: seq<Table>, f: nat, n: Name, i: nat)
    requires Agrees(scopes, tables) && Finds(scopes, n, f) && i <= f
    ensures Captured(scopes[i], tables[i]) == CapturedAfter(scopes, tables, {n}, i)
  {
    if scopes[i].closure && n in Crossing(tables, {n}, i) {
      AlreadyCaptured(scopes, tables, f, n, i);
    }
  }

  lemma MarkedInside(scopes: seq<Scope>, tables: seq<Table>, f: nat, n: Name, i: nat)
    requires Agrees(scopes, tables) && Finds(scopes, n, f) && scopes[f].symbols[n].Local? && f < i < |scopes| &&
      scopes[i].closure
    ensures Captured(Recorded(scopes[i], n, scopes[f].symbols[n]), tables[i]) == CapturedAfter(scopes, tables, {n}, i)
  {
    MarkedScope(scopes, tables, f, n, i);
    FoundSymbol(scopes, tables, f, n, i);
    assert NotBelow(tables, i, n);
    assert Crossing(tables, {n}, i) == {n};
  }

  /** Marking the closures that the use crosses keeps the stack in order and captures exactly that name. */
  lemma MarkedAgrees(scopes: seq<Scope>, tables: seq<Table>, f: nat, n: Name, hi: nat)
    requires Agrees(scopes, tables) && Finds(scopes, n, f) && scopes[f].symbols[n].Local?
    requires f < hi <= |scopes| && (forall k :: hi <= k < |scopes| ==> !scopes[k].closure)
    ensures var t := Marked(scopes, n, scopes[f].symbols[n], f + 1, hi);
      Agrees(t, tables) && UsedFrom(scopes, tables, {n}, t)
  {
    hide ScopeOk, CrossesAll, Crossing, Captured, Environment, Keyed, Marked;
    var t := Marked(scopes, n, scopes[f].symbols[n], f + 1, hi);
    forall i | 0 <= i < |scopes| ensures ScopeOk(t[i], tables[i], Environment(tables[..i])) {
      if f < i && scopes[i].closure {
        MarkedScope(scopes, tables, f, n, i);
      }
    }
    forall i | 0 <= i < |scopes| ensures CrossesAll(t, tables, i) {
      MarkedCrosses(scopes, tables, f, n, hi, i);
    }
    forall i | 0 <= i < |scopes| ensures Captured(t[i], tables[i]) == CapturedAfter(scopes, tables, {n}, i) {
      if i <= f {
        MarkedOutside(scopes, tables, f, n, i);
      } else if scopes[i].closure {
        MarkedInside(scopes, tables, f, n, i);
      }
    }
  }

  /** A name that is no local outside, or is not found at all, captures nothing. */
  lemma NothingCaptured(scopes: seq<Scope>, tables: seq<Table>, n: Name)
    requires Agrees(scopes, tables)
    requires n in Environment(tables) ==> !Environment(tables)[n].Local?
    ensures UsedFrom(scopes, tables, {n}, scopes)
  {
    forall i | 0 <= i < |scopes| ensures Crossing(tables, {n}, i) == {} {
      if NotBelow(tables, i, n) {
        EnvironmentThrough(tables, i, n);
      }
    }
  }

  lemma NotFound(scopes: seq<Scope>, tables: seq<Table>, n: Name)
    requires Agrees(scopes, tables) && forall k :: 0 <= k < |scopes| ==> n !in scopes[k].symbols
    ensures n !in Environment(tables)
  {
    forall k | 0 <= k < |tables| ensures n !in tables[k] {
      assert ScopeOk(scopes[k], tables[k], Environment(tables[..k]));
    }
    EnvironmentMissing(tables, n);
  }

  // ----- declaring, entering and leaving scopes -----

  /** The innermost scope knows only what it has declared. */
  ghost predicate Declaring(scopes: seq<Scope>, tables: seq<Table>) {
    && |scopes| == |tables| > 0
    && scopes[|scopes| - 1].symbols == tables[|tables| - 1]
    && scopes[|scopes| - 1].captures == []
  }

  lemma NotAClosure(scopes: seq<Scope>, tables: seq<Table>)
    requires Agrees(scopes, tables) && scopes != [] && !scopes[|scopes| - 1].closure
    ensures Declaring(scopes, tables)
  {
    var i := |scopes| - 1;
    assert ScopeOk(scopes[i], tables[i], Environment(tables[..i]));
    assert Captured(scopes[i], tables[i]) == {};
    assert scopes[i].symbols == tables[i];
    if scopes[i].captures != [] {
      assert scopes[i].captures[0] in LocalsOf({}, Environment(tables[..i]));
    }
  }

  lemma DeclaredAgrees(scopes: seq<Scope>, tables: seq<Table>, binder: Binder)
    requires Agrees(scopes, tables) && Declaring(scopes, tables)
    ensures var i := |scopes| - 1;
      var t := tables[i := Declare(tables[i], binder)];
      var s := scopes[i := Scope(t[i], scopes[i].closure, [])];
      Agrees(s, t) && Declaring(s, t)
  {
    hide ScopeOk, CrossesAll, Declare, Environment, Keyed;
    var last := |scopes| - 1;
    var t := tables[last := Declare(tables[last], binder)];
    var s := scopes[last := Scope(t[last], scopes[last].closure, [])];
    DeclaredKeyed(tables[last], binder);
    forall i | 0 <= i < |t|
      ensures ScopeOk(s[i], t[i], Environment(t[..i])) && CrossesAll(s, t, i)
    {
      assert t[..i] == tables[..i];
      DeclaredScope(t[last], scopes[last].closure, Environment(tables[..last]));
      DeclaredCrosses(scopes, tables, s, t, i);
    }
  }

  lemma DeclaredKeyed(table: Table, binder: Binder)
    requires Keyed(table)
    ensures Keyed(Declare(table, binder))
  {
  }

  lemma DeclaredScope(table: Table, closure: bool, env: Table)
    ensures ScopeOk(Scope(table, closure, []), table, env)
  {
    assert Captured(Scope(table, closure, []), table) == {};
  }

  lemma DeclaredCrosses(scopes: seq<Scope>, tables: seq<Table>, s: seq<Scope>, t: seq<Table>, i: nat)
    requires |scopes| == |tables| == |s| == |t| && i < |t| && CrossesAll(scopes, tables, i)
    requires forall j :: 0 <= j < |t| - 1 ==> s[j] == scopes[j] && t[j] == tables[j]
    requires s[|t| - 1].symbols == t[|t| - 1]
    ensures CrossesAll(s, t, i)
  {
    if i == |t| - 1 {
      assert Captured(s[i], t[i]) == {};
    } else {
      assert t[..i] == tables[..i];
    }
  }

  lemma PushedAgrees(scopes: seq<Scope>, tables: seq<Table>, closure: bool)
    requires Agrees(scopes, tables)
    ensures Agrees(scopes + [Scope(map[], closure, [])], tables + [map[]])
  {
    var s, t := scopes + [Scope(map[], closure, [])], tables + [map[]];
    forall i | 0 <= i < |t|
      ensures ScopeOk(s[i], t[i], Environment(t[..i])) && CrossesAll(s, t, i)
    {
      assert t[..i] == tables[..i];
      if i < |tables| {
        assert ScopeOk(scopes[i], tables[i], Environment(tables[..i]));
        assert CrossesAll(scopes, tables, i);
      } else {
        assert Captured(s[i], t[i]) == {};
      }
    }
  }

  lemma PoppedAgrees(scopes: seq<Scope>, tables: seq<Table>, k: nat)
    requires Agrees(scopes, tables) && k <= |scopes|
    ensures Agrees(scopes[..k], tables[..k])
  {
    var s, t := scopes[..k], tables[..k];
    forall i | 0 <= i < k
      ensures ScopeOk(s[i], t[i], Environment(t[..i])) && CrossesAll(s, t, i)
    {
      assert t[..i] == tables[..i];
      assert ScopeOk(scopes[i], tables[i], Environment(tables[..i]));
      assert CrossesAll(scopes, tables, i);
    }
  }

  // ----- visiting -----

  lemma {:induction false} AfterDeclares(e: Expr, scope: Table)
    ensures After(e, scope).Keys == scope.Keys + Declared(e)
  {
    match e
    case Define(binder, init) => AfterDeclares(init, scope);
    case Seq(first, second) =>
      AfterDeclares(first, scope);
      AfterDeclares(second, After(first, scope));
    case _ =>
  }

  lemma {:induction false} BindersDeclared(table: Table, binders: seq<Binder>)
    ensures DeclareAll(table, binders).Keys == table.Keys + BinderNames(binders)
    decreases |binders|
  {
    if binders != [] {
      var front := binders[..|binders| - 1];
      BindersDeclared(table, front);
      assert BinderNames(binders) == BinderNames(front) + {binders[|binders| - 1].name} by {
        assert binders[|binders| - 1].name in BinderNames(binders);
        assert forall i :: 0 <= i < |front| ==> front[i] == binders[i];
      }
    } else {
      assert BinderNames(binders) == {};
    }
  }

  /**
   A visit leaves the outer declarations alone, and makes each closure on the stack capture exactly
   the names free in the expression that are locals outside that closure.
   */
  ghost predicate Visited(e: Expr, scopes: seq<Scope>, tables: seq<Table>, scopes': seq<Scope>, tables': seq<Table>) {
    && |scopes| == |tables| == |scopes'| > 0
    && tables' == tables[|tables| - 1 := After(e, tables[|tables| - 1])]
    && Agrees(scopes', tables')
    && forall i :: 0 <= i < |scopes| ==>
         && scopes'[i].closure == scopes[i].closure
         && Captured(scopes'[i], tables'[i]) == CapturedAfter(scopes, tables, FreeNames(e), i)
  }

  ghost predicate Ready(scopes: seq<Scope>, tables: seq<Table>) {
    |scopes| == |tables| > 0 && !scopes[|scopes| - 1].closure && Agrees(scopes, tables)
  }

  lemma VisitedUse(n: Name, scopes: seq<Scope>, tables: seq<Table>, scopes': seq<Scope>)
    requires Ready(scopes, tables) && Agrees(scopes', tables) && UsedFrom(scopes, tables, {n}, scopes')
    ensures Visited(Use(n), scopes, tables, scopes', tables)
  {
  }

  lemma VisitedSkip(scopes: seq<Scope>, tables: seq<Table>)
    requires Ready(scopes, tables)
    ensures Visited(Skip, scopes, tables, scopes, tables)
  {
    assert forall i :: 0 <= i < |scopes| ==> Crossing(tables, {}, i) == {};
  }

  lemma VisitedDefine(binder: Binder, init: Expr, scopes: seq<Scope>, tables: seq<Table>,
                      s: seq<Scope>, t: seq<Table>, s': seq<Scope>, t': seq<Table>)
    requires Ready(scopes, tables) && Visited(init, scopes, tables, s, t)
    requires t' == t[|t| - 1 := Declare(t[|t| - 1], binder)] && s' == s[|s| - 1 := Scope(t'[|t| - 1], false, [])]
    requires Agrees(s', t')
    ensures Visited(Define(binder, init), scopes, tables, s', t')
  {
    var last := |s| - 1;
    assert Captured(s'[last], t'[last]) == {};
    NotAClosure(scopes, tables);
    assert Captured(scopes[last], tables[last]) == {};
  }

  /** What the second part uses and the first did not declare is what crosses a closure. */
  lemma CrossingSequence(first: Expr, names: set<Name>, tables: seq<Table>, i: nat)
    requires i < |tables| - 1
    ensures var last := |tables| - 1;
      Crossing(tables[last := After(first, tables[last])], names, i) == Crossing(tables, names - Declared(first), i)
  {
    var last := |tables| - 1;
    var t := tables[last := After(first, tables[last])];
    AfterDeclares(first, tables[last]);
    assert t[..i] == tables[..i];
    forall n ensures NotBelow(t, i, n) <==> NotBelow(tables, i, n) && n !in Declared(first) {
      if NotBelow(t, i, n) {
        assert n !in t[last];
        forall k | i <= k < |tables| ensures n !in tables[k] {
          assert n !in t[k];
        }
      }
    }
  }

  lemma CapturedSequence(first: Expr, second: Expr, tables: seq<Table>, i: nat)
    requires i < |tables| - 1
    ensures var last := |tables| - 1;
      Crossing(tables, FreeNames(Seq(first, second)), i) ==
        Crossing(tables, FreeNames(first), i) +
        Crossing(tables[last := After(first, tables[last])], FreeNames(second), i)
  {
    CrossingSequence(first, FreeNames(second), tables, i);
  }

  lemma VisitedSeq(first: Expr, second: Expr, scopes: seq<Scope>, tables: seq<Table>,
                   s: seq<Scope>, t: seq<Table>, s': seq<Scope>, t': seq<Table>)
    requires Ready(scopes, tables) && Visited(first, scopes, tables, s, t) && Visited(second, s, t, s', t')
    ensures Visited(Seq(first, second), scopes, tables, s', t')
  {
    hide Agrees, Crossing;
    forall i | 0 <= i < |scopes|
      ensures Captured(s'[i], t'[i]) == CapturedAfter(scopes, tables, FreeNames(Seq(first, second)), i)
    {
      if scopes[i].closure {
        CapturedSequence(first, second, tables, i);
      }
    }
  }

  /** A table pushed on the stack stops the names it declares. */
  lemma CrossingPushed(tables: seq<Table>, table: Table, names: set<Name>, i: nat)
    requires i < |tables|
    ensures Crossing(tables + [table], names, i) == Crossing(tables, names - table.Keys, i)
  {
    var t := tables + [table];
    assert t[..i] == tables[..i];
    forall n ensures NotBelow(t, i, n) <==> NotBelow(tables, i, n) && n !in table {
      if NotBelow(t, i, n) {
        assert n !in t[|tables|];
        forall k | i <= k < |tables| ensures n !in tables[k] {
          assert n !in t[k];
        }
      }
    }
  }

  lemma VisitedBlock(inner: Expr, scopes: seq<Scope>, tables: seq<Table>, s: seq<Scope>, t: seq<Table>)
    requires Ready(scopes, tables)
    requires Visited(inner, scopes + [Scope(map[], false, [])], tables + [map[]], s, t)
    ensures Visited(Block(inner), scopes, tables, s[..|scopes|], t[..|scopes|])
  {
    hide Agrees;
    PoppedAgrees(s, t, |scopes|);
    var none: Table := map[];
    forall i | 0 <= i < |scopes| ensures Captured(s[i], t[i]) == CapturedAfter(scopes, tables, FreeNames(inner), i) {
      CrossingPushed(tables, map[], FreeNames(inner), i);
      assert FreeNames(inner) - none.Keys == FreeNames(inner);
    }
  }

  lemma VisitedWhen(binders: seq<Binder>, body: Expr, scopes: seq<Scope>, tables: seq<Table>,
                    s: seq<Scope>, t: seq<Table>)
    requires Ready(scopes, tables)
    requires var table := DeclareAll(map[], binders);
      Visited(body, scopes + [Scope(table, true, []), Scope(map[], false, [])], tables + [table, map[]], s, t)
    ensures Visited(When(binders, body), scopes, tables, s[..|scopes|], t[..|scopes|])
    ensures Lists(s[|scopes|].captures, LocalsOf(FreeNames(When(binders, body)), Environment(tables)))
  {
    hide Agrees, Crossing, LocalsOf, Lists, Environment, DeclareAll;
    var k, e := |scopes|, When(binders, body);
    var table := DeclareAll(map[], binders);
    BindersDeclared(map[], binders);
    PoppedAgrees(s, t, k);
    var scopes2 := scopes + [Scope(table, true, []), Scope(map[], false, [])];
    assert FreeNames(body) - table.Keys == FreeNames(e);
    forall i | 0 <= i < k ensures Captured(s[i], t[i]) == CapturedAfter(scopes, tables, FreeNames(e), i) {
      CrossingClosure(tables, table, FreeNames(body), i);
    }
    CrossingClosure(tables, table, FreeNames(body), k);
    assert Captured(scopes2[k], (tables + [table, map[]])[k]) == {};
    ClosureCaptures(tables, table, FreeNames(body), s, t);
  }

  /** The scope of a closure stops its binders; the block in it stops nothing. */
  lemma CrossingClosure(tables: seq<Table>, table: Table, names: set<Name>, i: nat)
    requires i <= |tables|
    ensures Crossing(tables + [table, map[]], names, i) == Crossing(tables + [table], names, i)
    ensures i < |tables| ==> Crossing(tables + [table, map[]], names, i) == Crossing(tables, names - table.Keys, i)
  {
    var tables1, none: Table := tables + [table], map[];
    assert tables + [table, map[]] == tables1 + [map[]];
    assert names - none.Keys == names;
    CrossingPushed(tables1, map[], names, i);
    if i < |tables| {
      CrossingPushed(tables, table, names, i);
    }
  }

  /** What the closure has captured is listed, each symbol once. */
  lemma ClosureCaptures(tables: seq<Table>, table: Table, names: set<Name>, s: seq<Scope>, t: seq<Table>)
    requires Agrees(s, t) && |tables| < |t| && t[..|tables|] == tables
    requires Captured(s[|tables|], t[|tables|]) == Crossing(tables + [table], names, |tables|)
    ensures Lists(s[|tables|].captures, LocalsOf(names - table.Keys, Environment(tables)))
  {
    var k, tables1 := |tables|, tables + [table];
    assert tables1[..k] == tables;
    assert forall n :: NotBelow(tables1, k, n) <==> n !in tables1[k];
    assert ScopeOk(s[k], t[k], Environment(tables));
    LocalsCross(names - table.Keys, Environment(tables), Captured(s[k], t[k]));
  }

  /** Only the names that are locals matter to the locals of an environment. */
  lemma LocalsCross(names: set<Name>, env: Table, crossing: set<Name>)
    requires forall n :: n in crossing <==> n in names && n in env && env[n].Local?
    ensures LocalsOf(crossing, env) == LocalsOf(names, env)
  {
  }

  /** The list has exactly these symbols, each once. */
  ghost predicate Lists(list: seq<Symbol>, symbols: set<Symbol>) {
    Distinct(list) && forall s :: s in list <==> s in symbols
  }

  ghost predicate ListsAll(lists: seq<seq<Symbol>>, sets: seq<set<Symbol>>) {
    |lists| == |sets| && forall i :: 0 <= i < |lists| ==> Lists(lists[i], sets[i])
  }

  lemma EnvironmentPushed(tables: seq<Table>, table: Table)
    ensures Environment(tables + [table]) == Environment(tables) + table
  {
    assert (tables + [table])[..|tables|] == tables;
  }

  // ----- captures of nested closures -----

  /** Every local that is declared anywhere in `e`. */
  function LocalsIn(e: Expr): set<Symbol> {
    match e
    case Skip => {}
    case Use(_) => {}
    case Define(binder, init) => LocalsIn(init) + {Local(binder.name, binder.id)}
    case Seq(first, second) => LocalsIn(first) + LocalsIn(second)
    case Block(inner) => LocalsIn(inner)
    case When(binders, body) => LocalsIn(body) + DeclareAll(map[], binders).Values
  }

  lemma DeclareSymbols(table: Table, binder: Binder)
    ensures Declare(table, binder).Values <= table.Values + {Local(binder.name, binder.id)}
  {
    forall s | s in Declare(table, binder).Values ensures s in table.Values + {Local(binder.name, binder.id)} {
      var n :| n in Declare(table, binder) && Declare(table, binder)[n] == s;
    }
  }

  lemma {:induction false} AfterSymbols(e: Expr, scope: Table)
    ensures After(e, scope).Values <= scope.Values + LocalsIn(e)
  {
    match e
    case Define(binder, init) =>
      AfterSymbols(init, scope);
      DeclareSymbols(After(init, scope), binder);
    case Seq(first, second) =>
      AfterSymbols(first, scope);
      AfterSymbols(second, After(first, scope));
    case _ =>
  }

  /** A capture inside `e` is declared in `e`, or in its scope, or is a local outside that is free in `e`. */
  lemma {:induction false} CapturesAreFree(e: Expr, outer: Table, scope: Table, k: nat, s: Symbol)
    requires k < |Captures(e, outer, scope)| && s in Captures(e, outer, scope)[k]
    ensures s in LocalsIn(e) || s in scope.Values || s in LocalsOf(FreeNames(e) - scope.Keys, outer)
  {
    match e
    case Define(_, init) => CapturesAreFree(init, outer, scope, k, s);
    case Seq(first, second) =>
      var m := |Captures(first, outer, scope)|;
      if k < m {
        CapturesAreFree(first, outer, scope, k, s);
      } else {
        CapturesAreFree(second, outer, After(first, scope), k - m, s);
        AfterSymbols(first, scope);
        AfterDeclares(first, scope);
      }
    case Block(inner) =>
      CapturesAreFree(inner, outer + scope, map[], k, s);
    case When(binders, body) =>
      var table := DeclareAll(map[], binders);
      BindersDeclared(map[], binders);
      if k < |Captures(body, outer + scope + table, map[])| {
        CapturesAreFree(body, outer + scope + table, map[], k, s);
      }
    case _ =>
  }

  /**
   A local that a nested closure captures, and that the enclosing closure does not itself declare,
   is captured by the enclosing closure too.
   */
  lemma NestedCaptures(binders: seq<Binder>, body: Expr, outer: Table, scope: Table, k: nat)
    requires k < |Captures(When(binders, body), outer, scope)|
    ensures var e := When(binders, body);
      var captures := Captures(e, outer, scope);
      captures[k] <= captures[|captures| - 1] + LocalsIn(e)
  {
    var e := When(binders, body);
    var captures := Captures(e, outer, scope);
    var table := DeclareAll(map[], binders);
    BindersDeclared(map[], binders);
    forall s | s in captures[k] ensures s in captures[|captures| - 1] + LocalsIn(e) {
      if k < |captures| - 1 {
        CapturesAreFree(body, outer + scope + table, map[], k, s);
      }
    }
  }

  // ----- the visitor -----

  /** The scope of the program holds entities only. */
  function Entities(globals: map<Name, nat>): Table {
    map n | n in globals :: Global(globals[n])
  }

  class Resolver {
    var scopes: seq<Scope>
    /** The capture list of each `when`, in the order in which resolution leaves them. */
    var captured: seq<seq<Symbol>>
    /** The symbol given to each use. */
    var uses: seq<Option<Symbol>>
    /** The declarations alone, without the captures beside them. */
    ghost var tables: seq<Table>

    ghost predicate Valid()
      reads this
    {
      Ready(scopes, tables)
    }

    constructor (globals: map<Name, nat>)
      ensures Valid() && captured == [] && uses == [] && tables == [Entities(globals)]
    {
      scopes, captured, uses := [Scope(Entities(globals), false, [])], [], [];
      tables := [Entities(globals)];
      new;
      assert Captured(scopes[0], tables[0]) == {};
      assert ScopeOk(scopes[0], tables[0], map[]);
      assert tables[..0] == [];
      assert CrossesAll(scopes, tables, 0);
    }

    /** Looks the name up from the innermost scope outwards, and marks the closures it crossed. */
    method Resolve(name: Name) returns (r: Option<Symbol>)
      requires Valid()
      modifies this`scopes
      ensures Valid()
      ensures r == Lookup(name, Environment(tables))
      ensures UsedFrom(old(scopes), tables, {name}, scopes)
    {
      hide Agrees;
      var i := |scopes|;
      while i > 0 && name !in scopes[i - 1].symbols
        invariant 0 <= i <= |scopes|
        invariant forall k :: i <= k < |scopes| ==> name !in scopes[k].symbols
      {
        i := i - 1;
      }
      if i == 0 {
        NotFound(scopes, tables, name);
        NothingCaptured(scopes, tables, name);
        return None;
      }
      var f, last := i - 1, |scopes| - 1;
      var symbol := scopes[f].symbols[name];
      assert Finds(scopes, name, f);
      FoundSymbol(scopes, tables, f, name, |scopes|);
      assert tables[..|scopes|] == tables;
      if symbol.Local? {
        var hi := if f < last then last else f + 1;
        MarkedAgrees(scopes, tables, f, name, hi);
        MarkClosures(f + 1, hi, name, symbol);
      } else {
        NothingCaptured(scopes, tables, name);
      }
      return Some(symbol);
    }

    /** Walks back from the definition, and adds the symbol to the captures of each closure. */
    method MarkClosures(lo: nat, hi: nat, name: Name, symbol: Symbol)
      requires lo <= hi <= |scopes|
      modifies this`scopes
      ensures scopes == Marked(old(scopes), name, symbol, lo, hi)
    {
      var i := lo;
      while i < hi
        invariant lo <= i <= hi
        invariant scopes == Marked(old(scopes), name, symbol, lo, i)
      {
        if scopes[i].closure {
          scopes := scopes[i := Recorded(scopes[i], name, symbol)];
        }
        i := i + 1;
      }
    }

    method PushScope(closure: bool)
      requires Agrees(scopes, tables)
      modifies this`scopes, this`tables
      ensures Agrees(scopes, tables) && Declaring(scopes, tables)
      ensures tables == old(tables) + [map[]] && scopes == old(scopes) + [Scope(map[], closure, [])]
    {
      hide Agrees;
      PushedAgrees(scopes, tables, closure);
      scopes := scopes + [Scope(map[], closure, [])];
      tables := tables + [map[]];
    }

    method PopScope()
      requires |scopes| == |tables| > 0 && Agrees(scopes, tables)
      modifies this`scopes, this`tables
      ensures Agrees(scopes, tables)
      ensures tables == old(tables[..|tables| - 1]) && scopes == old(scopes[..|scopes| - 1])
    {
      hide Agrees;
      PoppedAgrees(scopes, tables, |scopes| - 1);
      scopes := scopes[..|scopes| - 1];
      tables := tables[..|tables| - 1];
    }

    /** A name that the scope already has keeps its symbol, and the new one is refused. */
    method AddSymbol(binder: Binder) returns (inserted: bool)
      requires Agrees(scopes, tables) && Declaring(scopes, tables)
      modifies this`scopes, this`tables
      ensures Agrees(scopes, tables) && Declaring(scopes, tables)
      ensures var i := old(|tables|) - 1;
        && tables == old(tables)[i := Declare(old(tables)[i], binder)]
        && scopes == old(scopes)[i := Scope(tables[i], old(scopes)[i].closure, [])]
      ensures inserted <==> binder.name !in old(tables)[old(|tables|) - 1]
    {
      hide Agrees;
      DeclaredAgrees(scopes, tables, binder);
      var last := |scopes| - 1;
      var scope := scopes[last];
      inserted := binder.name !in scope.symbols;
      if inserted {
        scopes := scopes[last := scope.(symbols := scope.symbols[binder.name := Local(binder.name, binder.id)])];
      }
      tables := tables[last := Declare(tables[last], binder)];
      assert scopes[last] == Scope(tables[last], scope.closure, []);
      assert scopes == old(scopes)[last := Scope(tables[last], scope.closure, [])];
    }

    method AddBinders(binders: seq<Binder>)
      requires Agrees(scopes, tables) && Declaring(scopes, tables)
      modifies this`scopes, this`tables
      ensures Agrees(scopes, tables) && Declaring(scopes, tables)
      ensures var i := old(|tables|) - 1;
        && tables == old(tables)[i := DeclareAll(old(tables)[i], binders)]
        && scopes == old(scopes)[i := Scope(tables[i], old(scopes)[i].closure, [])]
    {
      hide Agrees;
      var k := 0;
      var last := |scopes| - 1;
      while k < |binders|
        invariant k <= |binders| && last == |scopes| - 1 == |tables| - 1
        invariant Agrees(scopes, tables) && Declaring(scopes, tables)
        invariant tables == old(tables)[last := DeclareAll(old(tables)[last], binders[..k])]
        invariant scopes == old(scopes)[last := Scope(tables[last], old(scopes)[last].closure, [])]
      {
        assert binders[..k + 1][..k] == binders[..k];
        var _ := AddSymbol(binders[k]);
        k := k + 1;
      }
      assert binders[..k] == binders;
    }

    /**
     Visiting an expression resolves every use lexically, and lists for every `when` exactly the
     outer locals that are free in its body, each once.
     */
    method Visit(e: Expr)
      requires Valid()
      modifies this
      ensures Valid()
      ensures Visited(e, old(scopes), old(tables), scopes, tables)
      ensures Logged(e, old(tables), old(captured), captured, old(uses), uses)
      decreases e, 0
    {
      hide Agrees, Logged, CapturedAfter, Captured, FreeNames;
      match e
      case Skip =>
        VisitedSkip(scopes, tables);
        LoggedSkip(tables, captured, uses);
      case Use(name) =>
        var symbol := Resolve(name);
        VisitedUse(name, old(scopes), tables, scopes);
        uses := uses + [symbol];
        LoggedUse(name, tables, captured, old(uses));
      case Define(binder, init) =>
        Visit(init);
        NotAClosure(scopes, tables);
        ghost var s, t := scopes, tables;
        var _ := AddSymbol(binder);
        VisitedDefine(binder, init, old(scopes), old(tables), s, t, scopes, tables);
        LoggedDefine(binder, init, old(tables), old(captured), captured, old(uses), uses);
      case Seq(first, second) =>
        Visit(first);
        ghost var s, t, c, u := scopes, tables, captured, uses;
        Visit(second);
        VisitedSeq(first, second, old(scopes), old(tables), s, t, scopes, tables);
        LoggedSeq(first, second, old(tables), old(captured), c, captured, old(uses), u, uses);
      case Block(inner) =>
        VisitBlock(inner);
      case When(binders, body) =>
        VisitWhen(binders, body);
    }

    /** A method body is resolved in a scope that declares its parameters. */
    method VisitMethod(parameters: seq<Binder>, body: Expr)
      requires Valid()
      modifies this
      ensures Valid() && tables == old(tables)
      ensures Logged(body, tables + [DeclareAll(map[], parameters)], old(captured), captured, old(uses), uses)
    {
      hide Agrees;
      PushScope(false);
      AddBinders(parameters);
      ghost var scope := DeclareAll(map[], parameters);
      assert tables == old(tables) + [scope];
      Visit(body);
      assert tables == old(tables) + [After(body, scope)];
      assert forall i :: 0 <= i < |scopes| ==> scopes[i].closure == (i < |scopes| - 1 && old(scopes)[i].closure);
      PopScope();
      assert tables == old(tables);
    }

    method VisitBlock(inner: Expr)
      requires Valid()
      modifies this
      ensures Valid()
      ensures Visited(Block(inner), old(scopes), old(tables), scopes, tables)
      ensures Logged(Block(inner), old(tables), old(captured), captured, old(uses), uses)
      decreases inner, 1
    {
      PushScope(false);
      Visit(inner);
      VisitedBlock(inner, old(scopes), old(tables), scopes, tables);
      LoggedBlock(inner, old(tables), old(captured), captured, old(uses), uses);
      PopScope();
    }

    /** The scope of the closure with its binders, and the block scope of its body. */
    method EnterClosure(binders: seq<Binder>)
      requires Valid()
      modifies this`scopes, this`tables
      ensures Valid()
      ensures tables == old(tables) + [DeclareAll(map[], binders), map[]]
      ensures scopes == old(scopes) + [Scope(DeclareAll(map[], binders), true, []), Scope(map[], false, [])]
    {
      hide Agrees, DeclareAll;
      PushScope(true);
      AddBinders(binders);
      assert tables == old(tables) + [DeclareAll(map[], binders)];
      assert scopes == old(scopes) + [Scope(DeclareAll(map[], binders), true, [])];
      PushScope(false);
    }

    method VisitWhen(binders: seq<Binder>, body: Expr)
      requires Valid()
      modifies this
      ensures Valid()
      ensures Visited(When(binders, body), old(scopes), old(tables), scopes, tables)
      ensures Logged(When(binders, body), old(tables), old(captured), captured, old(uses), uses)
      decreases body, 1
    {
      hide Agrees, Logged, Lists, LocalsOf, DeclareAll, CapturedAfter;
      ghost var k := |scopes|;
      EnterClosure(binders);
      Visit(body);
      VisitedWhen(binders, body, old(scopes), old(tables), scopes, tables);
      ghost var s, t, c := scopes, tables, captured;
      PopScope();
      captured := captured + [scopes[|scopes| - 1].captures];
      LoggedWhen(binders, body, old(tables), old(captured), c, captured, old(uses), uses);
      PopScope();
      assert scopes == s[..k] && tables == t[..k];
    }
  }

  /** What a visit adds to the capture lists and to the resolved uses. */
  ghost predicate Logged(e: Expr, tables: seq<Table>, c: seq<seq<Symbol>>, c': seq<seq<Symbol>>,
                         u: seq<Option<Symbol>>, u': seq<Option<Symbol>>) {
    && tables != []
    && var outer, scope := Environment(tables[..|tables| - 1]), tables[|tables| - 1];
      && |c| <= |c'| && c == c'[..|c|]
      && ListsAll(c'[|c|..], Captures(e, outer, scope))
      && u' == u + Bindings(e, outer, scope)
  }

  lemma LoggedSkip(tables: seq<Table>, c: seq<seq<Symbol>>, u: seq<Option<Symbol>>)
    requires tables != []
    ensures Logged(Skip, tables, c, c, u, u)
  {
  }

  lemma LoggedDefine(binder: Binder, init: Expr, tables: seq<Table>, c: seq<seq<Symbol>>, c': seq<seq<Symbol>>,
                     u: seq<Option<Symbol>>, u': seq<Option<Symbol>>)
    requires Logged(init, tables, c, c', u, u')
    ensures Logged(Define(binder, init), tables, c, c', u, u')
  {
  }

  lemma LoggedUse(name: Name, tables: seq<Table>, c: seq<seq<Symbol>>, u: seq<Option<Symbol>>)
    requires tables != []
    ensures Logged(Use(name), tables, c, c, u, u + [Lookup(name, Environment(tables))])
  {
  }

  lemma LoggedSeq(first: Expr, second: Expr, tables: seq<Table>, c: seq<seq<Symbol>>, c1: seq<seq<Symbol>>,
                  c2: seq<seq<Symbol>>, u: seq<Option<Symbol>>, u1: seq<Option<Symbol>>, u2: seq<Option<Symbol>>)
    requires tables != [] && Logged(first, tables, c, c1, u, u1)
    requires Logged(second, tables[|tables| - 1 := After(first, tables[|tables| - 1])], c1, c2, u1, u2)
    ensures Logged(Seq(first, second), tables, c, c2, u, u2)
  {
    hide Lists, Environment;
    var last := |tables| - 1;
    var t := tables[last := After(first, tables[last])];
    assert t[..last] == tables[..last];
    assert c2[|c|..] == c1[|c|..] + c2[|c1|..];
    var outer := Environment(tables[..last]);
    ListsConcat(c1[|c|..], c2[|c1|..], Captures(first, outer, tables[last]), Captures(second, outer, t[last]));
  }

  lemma ListsConcat(a: seq<seq<Symbol>>, b: seq<seq<Symbol>>, p: seq<set<Symbol>>, q: seq<set<Symbol>>)
    requires ListsAll(a, p) && ListsAll(b, q)
    ensures ListsAll(a + b, p + q)
  {
    hide Lists;
  }

  lemma LoggedBlock(inner: Expr, tables: seq<Table>, c: seq<seq<Symbol>>, c': seq<seq<Symbol>>,
                    u: seq<Option<Symbol>>, u': seq<Option<Symbol>>)
    requires tables != [] && Logged(inner, tables + [map[]], c, c', u, u')
    ensures Logged(Block(inner), tables, c, c', u, u')
  {
    assert (tables + [map[]])[..|tables|] == tables;
  }

  lemma LoggedWhen(binders: seq<Binder>, body: Expr, tables: seq<Table>, c: seq<seq<Symbol>>, c1: seq<seq<Symbol>>,
                   c2: seq<seq<Symbol>>, u: seq<Option<Symbol>>, u': seq<Option<Symbol>>)
    requires tables != [] && Logged(body, tables + [DeclareAll(map[], binders), map[]], c, c1, u, u')
    requires |c2| == |c1| + 1 && c1 == c2[..|c1|]
    requires Lists(c2[|c1|], LocalsOf(FreeNames(When(binders, body)), Environment(tables)))
    ensures Logged(When(binders, body), tables, c, c2, u, u')
  {
    var table := DeclareAll(map[], binders);
    var pushed := tables + [table, map[]];
    assert pushed[..|tables| + 1] == tables + [table];
    EnvironmentPushed(tables, table);
    assert c2[|c|..] == c1[|c|..] + [c2[|c1|]];
    hide Lists, Environment, DeclareAll, LocalsOf, FreeNames;
  }
}
