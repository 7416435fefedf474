/** Properties of the no-mutation-props detector that hold for every program. */
module DetectorProperties {
  import opened JsSyntax
  import opened PropsTaint
  import opened MutationDetector

  // ---------------------------------------------------------------------------
  // Syntactic occurrence of the props root

  predicate MentionsProps(e: Expr)
    decreases e, 1
  {
    match e
    case Member(obj, prop) => (obj == This && prop == "props") || MentionsProps(obj)
    case ObjLit(ps) => AnyPropertyMentionsProps(ps)
    case ArrLit(es) => AnyMentionsProps(es)
    case Call(callee, args) => MentionsProps(callee) || AnyMentionsProps(args)
    case Assign(target, value) => MentionsProps(target) || MentionsProps(value)
    case Delete(operand) => MentionsProps(operand)
    case Jsx(_, children) => AnyMentionsProps(children)
    case _ => false
  }

  predicate AnyMentionsProps(es: seq<Expr>)
    decreases es, 0
  {
    |es| > 0 && (MentionsProps(es[0]) || AnyMentionsProps(es[1..]))
  }

  predicate AnyPropertyMentionsProps(ps: seq<Property>)
    decreases ps, 0
  {
    |ps| > 0 && (MentionsProps(ps[0].value) || AnyPropertyMentionsProps(ps[1..]))
  }

  predicate BodyMentionsProps(body: seq<Stmt>)
  {
    exists s :: s in body && MentionsProps(StmtExpr(s))
  }

  predicate ItemMentionsProps(item: Item)
  {
    match item
    case CreateClass(_, ms) => exists m :: m in ms && BodyMentionsProps(m.body)
    case ClassDecl(_, _, ms) => exists m :: m in ms && BodyMentionsProps(m.body)
    case TopLevel(s) => MentionsProps(StmtExpr(s))
  }

  lemma {:induction false} PropsChainMentionsProps(path: seq<string>)
    ensures MentionsProps(PropsChain(path))
  {
    if |path| > 0 {
      PropsChainMentionsProps(path[..|path| - 1]);
    }
  }

  /** With no aliases yet, only an occurrence of `this.props` can taint. */
  lemma UnmentionedUntainted(e: Expr)
    requires !MentionsProps(e)
    ensures !IsTainted(e, {})
  {
    ClassifySound(e, {});
    var t := Classify(e, {});
    if t.FromProps? {
      PropsChainMentionsProps(t.path);
    }
  }

  lemma {:induction false} NoPropsNoSites(e: Expr)
    requires !MentionsProps(e)
    ensures Sites(e, {}) == []
    decreases e, 1
  {
    match e
    case Member(obj, _) => NoPropsNoSites(obj);
    case ObjLit(ps) => NoPropsNoPropertySites(ps);
    case ArrLit(es) => NoPropsNoSitesOfAll(es);
    case Call(callee, args) =>
      NoPropsNoSites(callee);
      NoPropsNoSitesOfAll(args);
      if callee.Member? {
        UnmentionedUntainted(callee.obj);
      }
      if |args| > 0 {
        UnmentionedUntainted(args[0]);
      }
    case Assign(target, value) =>
      NoPropsNoSites(target);
      NoPropsNoSites(value);
      if target.Member? {
        UnmentionedUntainted(target.obj);
      }
    case Delete(operand) =>
      NoPropsNoSites(operand);
      if operand.Member? {
        UnmentionedUntainted(operand.obj);
      }
    case Jsx(_, children) => NoPropsNoSitesOfAll(children);
    case _ =>
  }

  lemma {:induction false} NoPropsNoSitesOfAll(es: seq<Expr>)
    requires !AnyMentionsProps(es)
    ensures SitesOfAll(es, {}) == []
    decreases es, 0
  {
    if |es| > 0 {
      NoPropsNoSites(es[0]);
      NoPropsNoSitesOfAll(es[1..]);
    }
  }

  lemma {:induction false} NoPropsNoPropertySites(ps: seq<Property>)
    requires !AnyPropertyMentionsProps(ps)
    ensures PropertySites(ps, {}) == []
    decreases ps, 0
  {
    if |ps| > 0 {
      NoPropsNoSites(ps[0].value);
      NoPropsNoPropertySites(ps[1..]);
    }
  }

  /** A method body with no occurrence of `this.props` reports nothing. */
  lemma {:induction false} NoPropsNoDiagnostics(body: seq<Stmt>)
    requires !BodyMentionsProps(body)
    ensures Detect(body, {}) == []
  {
    if |body| > 0 {
      assert body[0] in body;
      NoPropsNoSites(StmtExpr(body[0]));
      if body[0].Decl? {
        UnmentionedUntainted(body[0].init);
      }
      assert Bind(body[0], {}) == {};
      assert forall s :: s in body[1..] ==> s in body;
      NoPropsNoDiagnostics(body[1..]);
    }
  }

  lemma {:induction false} NoPropsMethodsSilent(ms: seq<Method>)
    requires forall m :: m in ms ==> !BodyMentionsProps(m.body)
    ensures CheckMethods(ms) == []
  {
    if |ms| > 0 {
      assert ms[0] in ms;
      NoPropsNoDiagnostics(ms[0].body);
      assert forall m :: m in ms[1..] ==> m in ms;
      NoPropsMethodsSilent(ms[1..]);
    }
  }

  /** A file with no occurrence of `this.props` reports nothing. */
  lemma {:induction false} NoPropsProgramSilent(p: Program)
    requires forall item :: item in p ==> !ItemMentionsProps(item)
    ensures CheckProgram(p) == []
  {
    if |p| > 0 {
      assert p[0] in p;
      match p[0] {
        case CreateClass(_, ms) => NoPropsMethodsSilent(ms);
        case ClassDecl(_, _, ms) => NoPropsMethodsSilent(ms);
        case TopLevel(_) =>
      }
      assert forall item :: item in p[1..] ==> item in p;
      NoPropsProgramSilent(p[1..]);
    }
  }

  // ---------------------------------------------------------------------------
  // More aliases never mean fewer diagnostics

  lemma MutationMonotone(e: Expr, t1: Bindings, t2: Bindings)
    requires t1 <= t2
    ensures IsMutation(e, t1) ==> IsMutation(e, t2)
  {
    match e
    case Assign(target, _) =>
      if target.Member? { ClassifyMonotone(target.obj, t1, t2); }
    case Delete(operand) =>
      if operand.Member? { ClassifyMonotone(operand.obj, t1, t2); }
    case Call(callee, args) =>
      if callee.Member? { ClassifyMonotone(callee.obj, t1, t2); }
      if |args| > 0 { ClassifyMonotone(args[0], t1, t2); }
    case _ =>
  }

  lemma {:induction false} SitesMonotone(e: Expr, t1: Bindings, t2: Bindings)
    requires t1 <= t2
    ensures |Sites(e, t1)| <= |Sites(e, t2)|
    decreases e, 1
  {
    MutationMonotone(e, t1, t2);
    match e
    case Member(obj, _) => SitesMonotone(obj, t1, t2);
    case ObjLit(ps) => PropertySitesMonotone(ps, t1, t2);
    case ArrLit(es) => SitesOfAllMonotone(es, t1, t2);
    case Call(callee, args) =>
      SitesMonotone(callee, t1, t2);
      SitesOfAllMonotone(args, t1, t2);
    case Assign(target, value) =>
      SitesMonotone(target, t1, t2);
      SitesMonotone(value, t1, t2);
    case Delete(operand) => SitesMonotone(operand, t1, t2);
    case Jsx(_, children) => SitesOfAllMonotone(children, t1, t2);
    case _ =>
  }

  lemma {:induction false} SitesOfAllMonotone(es: seq<Expr>, t1: Bindings, t2: Bindings)
    requires t1 <= t2
    ensures |SitesOfAll(es, t1)| <= |SitesOfAll(es, t2)|
    decreases es, 0
  {
    if |es| > 0 {
      SitesMonotone(es[0], t1, t2);
      SitesOfAllMonotone(es[1..], t1, t2);
    }
  }

  lemma {:induction false} PropertySitesMonotone(ps: seq<Property>, t1: Bindings, t2: Bindings)
    requires t1 <= t2
    ensures |PropertySites(ps, t1)| <= |PropertySites(ps, t2)|
    decreases ps, 0
  {
    if |ps| > 0 {
      SitesMonotone(ps[0].value, t1, t2);
      PropertySitesMonotone(ps[1..], t1, t2);
    }
  }

  /** Tracking more aliases can only add diagnostics: the analysis errs on
      the side of reporting. */
  lemma {:induction false} DetectMonotone(body: seq<Stmt>, t1: Bindings, t2: Bindings)
    requires t1 <= t2
    ensures |Detect(body, t1)| <= |Detect(body, t2)|
  {
    if |body| > 0 {
      SitesMonotone(StmtExpr(body[0]), t1, t2);
      RepeatSpec(At(body[0].loc), |Sites(StmtExpr(body[0]), t1)|);
      RepeatSpec(At(body[0].loc), |Sites(StmtExpr(body[0]), t2)|);
      BindMonotone(body[0], t1, t2);
      DetectMonotone(body[1..], Bind(body[0], t1), Bind(body[0], t2));
    }
  }

  // ---------------------------------------------------------------------------
  // Detection is compositional

  /** Checking `a + b` is checking `a`, then checking `b` against the
      aliases `a` leaves behind. */
  lemma {:induction false} DetectAppend(a: seq<Stmt>, b: seq<Stmt>, tainted: Bindings)
    ensures Detect(a + b, tainted) == Detect(a, tainted) + Detect(b, BindAll(a, tainted))
  {
    if |a| > 0 {
      assert (a + b)[0] == a[0] && (a + b)[1..] == a[1..] + b;
      DetectAppend(a[1..], b, Bind(a[0], tainted));
    } else {
      assert a + b == b;
    }
  }

  /** A statement with a mutating sub-expression, at any depth, under the
      aliases the statements before it leave behind, is reported at its
      start, wherever it sits in the body. */
  lemma DetectComplete(before: seq<Stmt>, s: Stmt, after: seq<Stmt>, tainted: Bindings, m: Expr)
    requires Occurs(m, StmtExpr(s)) && IsMutation(m, BindAll(before, tainted))
    ensures At(s.loc) in Detect(before + [s] + after, tainted)
  {
    var t := BindAll(before, tainted);
    SitesIff(m, StmtExpr(s), t);
    var n := |Sites(StmtExpr(s), t)|;
    assert Report(s, t) == [At(s.loc)] + Repeat(At(s.loc), n - 1);
    DetectAppend(before, [s] + after, tainted);
    assert ([s] + after)[0] == s && ([s] + after)[1..] == after;
    assert before + [s] + after == before + ([s] + after);
  }

  /** Conversely, every diagnostic is the start of a statement of the body
      that has a mutating sub-expression under the aliases the statements
      before it leave behind. */
  lemma {:induction false} DetectSound(body: seq<Stmt>, tainted: Bindings)
    ensures forall d :: d in Detect(body, tainted) ==>
              exists i, m :: && 0 <= i < |body|
                             && d == At(body[i].loc)
                             && Occurs(m, StmtExpr(body[i]))
                             && IsMutation(m, BindAll(body[..i], tainted))
  {
    if |body| > 0 {
      var first, rest := body[0], body[1..];
      var t1 := Bind(first, tainted);
      DetectSound(rest, t1);
      forall d | d in Detect(body, tainted)
        ensures exists i, m :: && 0 <= i < |body|
                               && d == At(body[i].loc)
                               && Occurs(m, StmtExpr(body[i]))
                               && IsMutation(m, BindAll(body[..i], tainted))
      {
        var sites := Sites(StmtExpr(first), tainted);
        if d in Report(first, tainted) {
          RepeatSpec(At(first.loc), |sites|);
          var m := sites[0];
          SitesIff(m, StmtExpr(first), tainted);
          assert body[..0] == [];
          assert Occurs(m, StmtExpr(body[0])) && IsMutation(m, BindAll(body[..0], tainted));
        } else {
          assert d in Detect(rest, t1);
          var i, m :| && 0 <= i < |rest|
                      && d == At(rest[i].loc)
                      && Occurs(m, StmtExpr(rest[i]))
                      && IsMutation(m, BindAll(rest[..i], t1));
          assert body[..i + 1][0] == first && body[..i + 1][1..] == rest[..i];
          assert BindAll(body[..i + 1], tainted) == BindAll(rest[..i], t1);
          assert body[i + 1] == rest[i];
        }
      }
    }
  }

  // ---------------------------------------------------------------------------
  // Diagnostics come out in source order

  predicate LocLe(a: Loc, b: Loc)
  {
    a.line < b.line || (a.line == b.line && a.column <= b.column)
  }

  predicate InSourceOrder(body: seq<Stmt>)
  {
    forall i, j :: 0 <= i < j < |body| ==> LocLe(body[i].loc, body[j].loc)
  }

  predicate Sorted(ds: seq<Diagnostic>)
  {
    forall i, j :: 0 <= i < j < |ds| ==> LocLe(LocOf(ds[i]), LocOf(ds[j]))
  }

  /** If the statements are in source order, so are the diagnostics. */
  lemma {:induction false} DetectInSourceOrder(body: seq<Stmt>, tainted: Bindings)
    requires InSourceOrder(body)
    ensures Sorted(Detect(body, tainted))
  {
    if |body| > 0 {
      var r0 := Report(body[0], tainted);
      var rest := Detect(body[1..], Bind(body[0], tainted));
      RepeatSpec(At(body[0].loc), |Sites(StmtExpr(body[0]), tainted)|);
      DetectInSourceOrder(body[1..], Bind(body[0], tainted));
      DetectLocated(body[1..], Bind(body[0], tainted));
      forall d | d in rest ensures LocLe(body[0].loc, LocOf(d)) {
        var k :| 0 <= k < |body[1..]| && body[1..][k].loc == LocOf(d);
        assert body[1..][k] == body[k + 1];
      }
      var ds := r0 + rest;
      forall i, j | 0 <= i < j < |ds| ensures LocLe(LocOf(ds[i]), LocOf(ds[j])) {
        if j < |r0| {
          assert ds[i] in r0 && ds[j] in r0;
        } else if i < |r0| {
          assert ds[i] in r0;
          assert ds[j] == rest[j - |r0|] && ds[j] in rest;
        } else {
          assert ds[i] == rest[i - |r0|] && ds[j] == rest[j - |r0|];
        }
      }
    }
  }

  // ---------------------------------------------------------------------------
  // The shapes that are flagged, each exactly when its destination is tainted

  /** Member access adds no mutation sites of its own. */
  lemma {:induction false} ChainSites(base: Expr, path: seq<string>, tainted: Bindings)
    ensures Sites(Chain(base, path), tainted) == Sites(base, tainted)
  {
    if |path| > 0 {
      ChainSites(base, path[..|path| - 1], tainted);
    }
  }

  /** Reading `this.props.a.b` never reports anything. */
  lemma PropsChainHasNoSites(path: seq<string>, tainted: Bindings)
    ensures Sites(PropsChain(path), tainted) == []
  {
    ChainSites(PropsRoot, path, tainted);
  }

  /** Reading `x.a.b` never reports anything. */
  lemma AliasChainHasNoSites(x: string, path: seq<string>, tainted: Bindings)
    ensures Sites(AliasChain(x, path), tainted) == []
  {
    ChainSites(Ident(x), path, tainted);
  }

  /** A declaration from an access chain is never itself reported; unless
      the chain starts at bare `this`, its names are tainted exactly when
      the chain's base is, however deep the chain reads. */
  lemma DeclarationFromChain(pat: Pattern, base: Expr, path: seq<string>, loc: Loc, tainted: Bindings)
    requires Sites(base, tainted) == []
    ensures Report(Decl(pat, Chain(base, path), loc), tainted) == []
    ensures base != This ==>
              Bind(Decl(pat, Chain(base, path), loc), tainted) ==
                if IsTainted(base, tainted) then tainted + Names(pat) else tainted
  {
    ChainSites(base, path, tainted);
    if base != This {
      ClassifyChain(base, path, tainted);
    }
  }

  /** Destructuring or copying any part of `this.props` is not reported and
      makes every declared name an alias. */
  lemma DeclarationFromProps(pat: Pattern, path: seq<string>, loc: Loc, tainted: Bindings)
    ensures Report(Decl(pat, PropsChain(path), loc), tainted) == []
    ensures Bind(Decl(pat, PropsChain(path), loc), tainted) == tainted + Names(pat)
  {
    PropsChainHasNoSites(path, tainted);
    PropsChainTainted(path, tainted);
  }

  /** A one-statement body reports one diagnostic per site, at the statement. */
  lemma SingleStatement(s: Stmt, tainted: Bindings)
    ensures |Sites(StmtExpr(s), tainted)| == 0 ==> Detect([s], tainted) == []
    ensures |Sites(StmtExpr(s), tainted)| == 1 ==> Detect([s], tainted) == [At(s.loc)]
  {
    assert [s][1..] == [];
    assert Detect([s], tainted) == Report(s, tainted);
    assert Repeat(At(s.loc), 0) == [];
    assert Repeat(At(s.loc), 1) == [At(s.loc)] + Repeat(At(s.loc), 0);
  }

  /** `obj.prop = v` reports one diagnostic, at its start, exactly when
      `obj` is tainted. */
  lemma MemberAssignIff(obj: Expr, prop: string, v: Expr, loc: Loc, tainted: Bindings)
    requires Sites(obj, tainted) == [] && Sites(v, tainted) == []
    ensures Detect([ExprStmt(Assign(Member(obj, prop), v), loc)], tainted) ==
              if IsTainted(obj, tainted) then [At(loc)] else []
  {
    var e := Assign(Member(obj, prop), v);
    assert Sites(Member(obj, prop), tainted) == [];
    assert |Sites(e, tainted)| == if IsTainted(obj, tainted) then 1 else 0;
    SingleStatement(ExprStmt(e, loc), tainted);
  }

  /** Any write through a `this.props` chain of depth one or more reports
      exactly one diagnostic. */
  lemma {:induction false} AssignIntoPropsChain(path: seq<string>, v: Expr, loc: Loc, tainted: Bindings)
    requires |path| >= 1 && Sites(v, tainted) == []
    ensures Detect([ExprStmt(Assign(PropsChain(path), v), loc)], tainted) == [At(loc)]
  {
    var init := path[..|path| - 1];
    PropsChainTainted(init, tainted);
    PropsChainHasNoSites(init, tainted);
    MemberAssignIff(PropsChain(init), path[|path| - 1], v, loc, tainted);
  }

  /** `delete obj.prop` reports exactly when `obj` is tainted. */
  lemma DeleteIff(obj: Expr, prop: string, loc: Loc, tainted: Bindings)
    requires Sites(obj, tainted) == []
    ensures Detect([ExprStmt(Delete(Member(obj, prop)), loc)], tainted) ==
              if IsTainted(obj, tainted) then [At(loc)] else []
  {
    var e := Delete(Member(obj, prop));
    assert Sites(Member(obj, prop), tainted) == [];
    assert |Sites(e, tainted)| == if IsTainted(obj, tainted) then 1 else 0;
    SingleStatement(ExprStmt(e, loc), tainted);
  }

  /** `recv.push(...)`, `pop`, `shift`, `unshift` report exactly when the
      receiver is tainted. */
  lemma ArrayMutatorIff(recv: Expr, m: string, args: seq<Expr>, loc: Loc, tainted: Bindings)
    requires m in ArrayMutators
    requires Sites(recv, tainted) == [] && SitesOfAll(args, tainted) == []
    ensures Detect([ExprStmt(Call(Member(recv, m), args), loc)], tainted) ==
              if IsTainted(recv, tainted) then [At(loc)] else []
  {
    var e := Call(Member(recv, m), args);
    assert m !in ObjectMutators;
    assert IsMutation(e, tainted) == IsTainted(recv, tainted);
    assert Sites(Member(recv, m), tainted) == [];
    assert |Sites(e, tainted)| == if IsTainted(recv, tainted) then 1 else 0;
    SingleStatement(ExprStmt(e, loc), tainted);
  }

  /** `Object.defineProperty(target, ...)` and `Object.assign(target, ...)`
      report exactly when the first argument is tainted, whatever the
      later arguments are. */
  lemma ObjectMutatorIff(m: string, target: Expr, rest: seq<Expr>, loc: Loc, tainted: Bindings)
    requires m in ObjectMutators
    requires Sites(target, tainted) == [] && SitesOfAll(rest, tainted) == []
    ensures Detect([ExprStmt(Call(Member(Ident("Object"), m), [target] + rest), loc)], tainted) ==
              if IsTainted(target, tainted) then [At(loc)] else []
  {
    var args := [target] + rest;
    assert args[0] == target && args[1..] == rest;
    var e := Call(Member(Ident("Object"), m), args);
    assert m !in ArrayMutators;
    assert IsMutation(e, tainted) == IsTainted(target, tainted);
    assert Sites(Member(Ident("Object"), m), tainted) == [];
    assert SitesOfAll(args, tainted) == [];
    assert |Sites(e, tainted)| == if IsTainted(target, tainted) then 1 else 0;
    SingleStatement(ExprStmt(e, loc), tainted);
  }

  /** Each method of a component starts from an empty binding table: the
      diagnostics of a method list are those of its methods checked one by
      one, whatever aliases an earlier method declared. */
  lemma {:induction false} CheckMethodsAppend(a: seq<Method>, b: seq<Method>)
    ensures CheckMethods(a + b) == CheckMethods(a) + CheckMethods(b)
  {
    if |a| > 0 {
      assert (a + b)[0] == a[0] && (a + b)[1..] == a[1..] + b;
      CheckMethodsAppend(a[1..], b);
    } else {
      assert a + b == b;
    }
  }

  /** The diagnostics of a file are those of its items, in order. */
  lemma {:induction false} CheckProgramAppend(a: Program, b: Program)
    ensures CheckProgram(a + b) == CheckProgram(a) + CheckProgram(b)
  {
    if |a| > 0 {
      assert (a + b)[0] == a[0] && (a + b)[1..] == a[1..] + b;
      CheckProgramAppend(a[1..], b);
    } else {
      assert a + b == b;
    }
  }

  /** A class that does not extend `React.Component` is not checked: adding
      one anywhere in a file, whatever its methods do, leaves the file's
      diagnostics as they were. */
  lemma NonComponentSilent(before: Program, after: Program, name: string, h: Heritage, ms: seq<Method>)
    requires !IsReactComponent(h)
    ensures CheckProgram(before + [ClassDecl(name, h, ms)] + after) == CheckProgram(before + after)
  {
    var c := ClassDecl(name, h, ms);
    assert CheckProgram([c]) == [] by {
      assert [c][1..] == [];
      assert CheckItem(c) == [];
    }
    CheckProgramAppend(before, [c]);
    CheckProgramAppend(before + [c], after);
    CheckProgramAppend(before, after);
  }
}
