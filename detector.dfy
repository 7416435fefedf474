/** The mutation detector and reporter of the no-mutation-props rule: walks
    each component method body in source order, threading the binding
    table, and reports one diagnostic per sub-expression that writes into
    memory reachable from `this.props`. */
module MutationDetector {
  import opened JsSyntax
  import opened PropsTaint

  /** The one message the rule reports. */
  const ErrorMessage: string := "A component must never modify its own props."

  /** Methods that mutate their receiver array in place. */
  const ArrayMutators: set<string> := {"push", "pop", "shift", "unshift"}

  /** Methods of the global `Object` that mutate their first argument. */
  const ObjectMutators: set<string> := {"defineProperty", "assign"}

  /** A reported mutation site, at a 1-based line and column. */
  datatype Diagnostic = Diagnostic(message: string, line: nat, column: nat)

  function At(loc: Loc): Diagnostic
  {
    Diagnostic(ErrorMessage, loc.line, loc.column)
  }

  function LocOf(d: Diagnostic): Loc
  {
    Loc(d.line, d.column)
  }

  /** `e` itself, not counting its sub-expressions, writes into tainted
      memory: a member assignment or `delete` whose object is tainted, an
      array mutator called on a tainted receiver, or an `Object` mutator
      whose first argument (the destination) is tainted. */
  predicate IsMutation(e: Expr, tainted: Bindings)
  {
    match e
    case Assign(target, _) => target.Member? && IsTainted(target.obj, tainted)
    case Delete(operand) => operand.Member? && IsTainted(operand.obj, tainted)
    case Call(callee, args) =>
      && callee.Member?
      && (|| (callee.prop in ArrayMutators && IsTainted(callee.obj, tainted))
          || (&& callee.obj == Ident("Object")
              && callee.prop in ObjectMutators
              && |args| > 0
              && IsTainted(args[0], tainted)))
    case _ => false
  }

  /** The mutating sub-expressions of `e`, outermost first. */
  function Sites(e: Expr, tainted: Bindings): seq<Expr>
    decreases e, 1
  {
    (if IsMutation(e, tainted) then [e] else [])
    + match e {
      case Member(obj, _) => Sites(obj, tainted)
      case ObjLit(props) => PropertySites(props, tainted)
      case ArrLit(elems) => SitesOfAll(elems, tainted)
      case Call(callee, args) => Sites(callee, tainted) + SitesOfAll(args, tainted)
      case Assign(target, value) => Sites(target, tainted) + Sites(value, tainted)
      case Delete(operand) => Sites(operand, tainted)
      case Jsx(_, children) => SitesOfAll(children, tainted)
      case _ => []
    }
  }

  function SitesOfAll(es: seq<Expr>, tainted: Bindings): seq<Expr>
    decreases es, 0
  {
    if |es| == 0 then [] else Sites(es[0], tainted) + SitesOfAll(es[1..], tainted)
  }

  function PropertySites(ps: seq<Property>, tainted: Bindings): seq<Expr>
    decreases ps, 0
  {
    if |ps| == 0 then [] else Sites(ps[0].value, tainted) + PropertySites(ps[1..], tainted)
  }

  /** The expression a statement evaluates. */
  function StmtExpr(s: Stmt): Expr
  {
    match s
    case Decl(_, init, _) => init
    case ExprStmt(e, _) => e
    case Return(v, _) => v
  }

  /** `n` copies of `d`. */
  function Repeat(d: Diagnostic, n: nat): seq<Diagnostic>
  {
    if n == 0 then [] else [d] + Repeat(d, n - 1)
  }

  /** One diagnostic per mutation site in `s`, all at the start of `s`. */
  function Report(s: Stmt, tainted: Bindings): seq<Diagnostic>
  {
    Repeat(At(s.loc), |Sites(StmtExpr(s), tainted)|)
  }

  function Locs(body: seq<Stmt>): set<Loc>
  {
    set s | s in body :: s.loc
  }

  /** The diagnostics of a statement list, each statement checked against the
      bindings of the statements before it. */
  function Detect(body: seq<Stmt>, tainted: Bindings): seq<Diagnostic>
  {
    if |body| == 0 then []
    else Report(body[0], tainted) + Detect(body[1..], Bind(body[0], tainted))
  }

  /** Each method body is a fresh scope: it starts with no aliases. */
  function CheckMethod(m: Method): seq<Diagnostic>
  {
    Detect(m.body, {})
  }

  function CheckMethods(ms: seq<Method>): seq<Diagnostic>
  {
    if |ms| == 0 then [] else CheckMethod(ms[0]) + CheckMethods(ms[1..])
  }

  /** `class C extends React.Component` */
  predicate IsReactComponent(h: Heritage)
  {
    h.Extends? && h.superClass == Member(Ident("React"), "Component")
  }

  /** Only components are checked: `React.createClass` specifications and
      classes extending `React.Component`. */
  function CheckItem(item: Item): seq<Diagnostic>
  {
    match item
    case CreateClass(_, ms) => CheckMethods(ms)
    case ClassDecl(_, h, ms) => if IsReactComponent(h) then CheckMethods(ms) else []
    case TopLevel(_) => []
  }

  /** The rule's output for a whole file, in source order of its items. */
  function CheckProgram(p: Program): seq<Diagnostic>
  {
    if |p| == 0 then [] else CheckItem(p[0]) + CheckProgram(p[1..])
  }

  // ---------------------------------------------------------------------------
  // What the reported sites and diagnostics are

  /** Every reported site is a mutation of tainted memory, and a mutating
      expression reports itself first. */
  lemma {:induction false} SitesSound(e: Expr, tainted: Bindings)
    ensures forall m :: m in Sites(e, tainted) ==> IsMutation(m, tainted)
    ensures IsMutation(e, tainted) ==> |Sites(e, tainted)| > 0 && Sites(e, tainted)[0] == e
    decreases e, 1
  {
    match e
    case Member(obj, _) => SitesSound(obj, tainted);
    case ObjLit(ps) => PropertySitesSound(ps, tainted);
    case ArrLit(es) => SitesOfAllSound(es, tainted);
    case Call(callee, args) =>
      SitesSound(callee, tainted);
      SitesOfAllSound(args, tainted);
    case Assign(target, value) =>
      SitesSound(target, tainted);
      SitesSound(value, tainted);
    case Delete(operand) => SitesSound(operand, tainted);
    case Jsx(_, children) => SitesOfAllSound(children, tainted);
    case _ =>
  }

  lemma {:induction false} SitesOfAllSound(es: seq<Expr>, tainted: Bindings)
    ensures forall m :: m in SitesOfAll(es, tainted) ==> IsMutation(m, tainted)
    decreases es, 0
  {
    if |es| > 0 {
      SitesSound(es[0], tainted);
      SitesOfAllSound(es[1..], tainted);
    }
  }

  lemma {:induction false} PropertySitesSound(ps: seq<Property>, tainted: Bindings)
    ensures forall m :: m in PropertySites(ps, tainted) ==> IsMutation(m, tainted)
    decreases ps, 0
  {
    if |ps| > 0 {
      SitesSound(ps[0].value, tainted);
      PropertySitesSound(ps[1..], tainted);
    }
  }

  /** The sub-expressions the detector walks, `e` itself first, each before
      its own sub-expressions and in source order among siblings. */
  function Subs(e: Expr): seq<Expr>
    decreases e, 1
  {
    [e]
    + match e {
      case Member(obj, _) => Subs(obj)
      case ObjLit(props) => PropertySubs(props)
      case ArrLit(elems) => SubsOfAll(elems)
      case Call(callee, args) => Subs(callee) + SubsOfAll(args)
      case Assign(target, value) => Subs(target) + Subs(value)
      case Delete(operand) => Subs(operand)
      case Jsx(_, children) => SubsOfAll(children)
      case _ => []
    }
  }

  function SubsOfAll(es: seq<Expr>): seq<Expr>
    decreases es, 0
  {
    if |es| == 0 then [] else Subs(es[0]) + SubsOfAll(es[1..])
  }

  function PropertySubs(ps: seq<Property>): seq<Expr>
    decreases ps, 0
  {
    if |ps| == 0 then [] else Subs(ps[0].value) + PropertySubs(ps[1..])
  }

  /** `m` is `e` or one of its sub-expressions, at any depth, among those the
      detector walks. */
  predicate Occurs(m: Expr, e: Expr)
  {
    m in Subs(e)
  }

  /** The elements of `xs` that are mutations, in their order in `xs`. */
  function Mutations(xs: seq<Expr>, tainted: Bindings): seq<Expr>
  {
    if |xs| == 0 then []
    else (if IsMutation(xs[0], tainted) then [xs[0]] else []) + Mutations(xs[1..], tainted)
  }

  lemma {:induction false} MutationsAppend(a: seq<Expr>, b: seq<Expr>, tainted: Bindings)
    ensures Mutations(a + b, tainted) == Mutations(a, tainted) + Mutations(b, tainted)
  {
    if |a| == 0 {
      assert a + b == b;
    } else {
      MutationsAppend(a[1..], b, tainted);
      assert (a + b)[0] == a[0];
      assert (a + b)[1..] == a[1..] + b;
    }
  }

  lemma {:induction false} MutationsIff(m: Expr, xs: seq<Expr>, tainted: Bindings)
    ensures m in Mutations(xs, tainted) <==> m in xs && IsMutation(m, tainted)
  {
    if |xs| > 0 {
      MutationsIff(m, xs[1..], tainted);
      assert xs == [xs[0]] + xs[1..];
    }
  }

  /** The reported sites are exactly the mutating sub-expressions, each once,
      in pre-order: a nested mutation is neither lost nor counted twice. */
  lemma {:induction false} SitesAreMutatingSubs(e: Expr, tainted: Bindings)
    ensures Sites(e, tainted) == Mutations(Subs(e), tainted)
    decreases e, 1
  {
    var children := Subs(e)[1..];
    assert Subs(e) == [e] + children;
    MutationsAppend([e], children, tainted);
    assert [e][1..] == [];
    match e
    case Member(obj, _) => SitesAreMutatingSubs(obj, tainted);
    case ObjLit(ps) => PropertySitesAreMutatingSubs(ps, tainted);
    case ArrLit(es) => SitesOfAllAreMutatingSubs(es, tainted);
    case Call(callee, args) =>
      SitesAreMutatingSubs(callee, tainted);
      SitesOfAllAreMutatingSubs(args, tainted);
      MutationsAppend(Subs(callee), SubsOfAll(args), tainted);
    case Assign(target, value) =>
      SitesAreMutatingSubs(target, tainted);
      SitesAreMutatingSubs(value, tainted);
      MutationsAppend(Subs(target), Subs(value), tainted);
    case Delete(operand) => SitesAreMutatingSubs(operand, tainted);
    case Jsx(_, children) => SitesOfAllAreMutatingSubs(children, tainted);
    case _ =>
  }

  lemma {:induction false} SitesOfAllAreMutatingSubs(es: seq<Expr>, tainted: Bindings)
    ensures SitesOfAll(es, tainted) == Mutations(SubsOfAll(es), tainted)
    decreases es, 0
  {
    if |es| > 0 {
      SitesAreMutatingSubs(es[0], tainted);
      SitesOfAllAreMutatingSubs(es[1..], tainted);
      MutationsAppend(Subs(es[0]), SubsOfAll(es[1..]), tainted);
    }
  }

  lemma {:induction false} PropertySitesAreMutatingSubs(ps: seq<Property>, tainted: Bindings)
    ensures PropertySites(ps, tainted) == Mutations(PropertySubs(ps), tainted)
    decreases ps, 0
  {
    if |ps| > 0 {
      SitesAreMutatingSubs(ps[0].value, tainted);
      PropertySitesAreMutatingSubs(ps[1..], tainted);
      MutationsAppend(Subs(ps[0].value), PropertySubs(ps[1..]), tainted);
    }
  }

  /** An expression is a reported site of `e` exactly when it is a mutating
      sub-expression of `e`, however deeply nested. */
  lemma SitesIff(m: Expr, e: Expr, tainted: Bindings)
    ensures m in Sites(e, tainted) <==> Occurs(m, e) && IsMutation(m, tainted)
  {
    SitesAreMutatingSubs(e, tainted);
    MutationsIff(m, Subs(e), tainted);
  }

  /** Every diagnostic carries the rule's message and the location of a
      statement of the body. */
  lemma {:induction false} DetectLocated(body: seq<Stmt>, tainted: Bindings)
    ensures forall d :: d in Detect(body, tainted) ==> d.message == ErrorMessage && LocOf(d) in Locs(body)
  {
    if |body| > 0 {
      var rest := Detect(body[1..], Bind(body[0], tainted));
      DetectLocated(body[1..], Bind(body[0], tainted));
      RepeatSpec(At(body[0].loc), |Sites(StmtExpr(body[0]), tainted)|);
      forall d | d in rest ensures LocOf(d) in Locs(body) {
        var s :| s in body[1..] && s.loc == LocOf(d);
        assert s in body;
      }
    }
  }

  lemma {:induction false} RepeatSpec(d: Diagnostic, n: nat)
    ensures |Repeat(d, n)| == n
    ensures forall x :: x in Repeat(d, n) ==> x == d
  {
    if n > 0 {
      RepeatSpec(d, n - 1);
    }
  }

  /** A statement yields one diagnostic per mutating sub-expression of the
      expression it evaluates, every one at the start of the statement. */
  lemma ReportPerMutation(s: Stmt, tainted: Bindings)
    ensures |Report(s, tainted)| == |Mutations(Subs(StmtExpr(s)), tainted)|
    ensures forall d :: d in Report(s, tainted) ==> d == At(s.loc)
  {
    SitesAreMutatingSubs(StmtExpr(s), tainted);
    RepeatSpec(At(s.loc), |Sites(StmtExpr(s), tainted)|);
  }
}
