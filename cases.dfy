/** The rule's case table, program by program: each case is its syntax tree,
    written out by hand, and a lemma that the detector reports exactly the
    listed diagnostics (none for a valid case). Lines and columns are those
    of the case's code, 1-based. Longer method bodies are written as a few
    blocks of statements and checked block by block (`DetectAppend`). */
module RuleCases {
  import opened JsSyntax
  import opened PropsTaint
  import opened MutationDetector
  import opened DetectorProperties

  // ---------------------------------------------------------------------------
  // Building blocks

  /** `this.x` */
  function ThisMember(x: string): Expr
  {
    Member(This, x)
  }

  /** `this.props.p`, the one-step `PropsChain`, written out as a single
      member access so that case programs evaluate without unfolding `Chain`. */
  function PropsDot(p: string): Expr
  {
    Member(PropsRoot, p)
  }

  lemma PropsDotIsPropsChain(p: string)
    ensures PropsDot(p) == PropsChain([p])
  {
    assert [p][..0] == [];
    assert Chain(PropsRoot, [p]) == Member(Chain(PropsRoot, []), p);
  }

  /** `recv.m(args)` */
  function Invoke(recv: Expr, m: string, args: seq<Expr>): Expr
  {
    Call(Member(recv, m), args)
  }

  /** `Object.m(args)` */
  function ObjectCall(m: string, args: seq<Expr>): Expr
  {
    Invoke(Ident("Object"), m, args)
  }

  /** `{k: v}` */
  function Obj1(k: string, v: Expr): Expr
  {
    ObjLit([Property(k, v)])
  }

  function StmtAt(line: nat, column: nat, e: Expr): Stmt
  {
    ExprStmt(e, Loc(line, column))
  }

  function DiagAt(line: nat, column: nat): Diagnostic
  {
    At(Loc(line, column))
  }

  /** `var Hello = React.createClass({...})` */
  function CreateClassFile(ms: seq<Method>): Program
  {
    [CreateClass("Hello", ms)]
  }

  /** `class Hello extends React.Component {...}` */
  function Component(ms: seq<Method>): Program
  {
    [ClassDecl("Hello", Extends(Member(Ident("React"), "Component")), ms)]
  }

  lemma CreateClassFileChecksItsMethod(name: string, body: seq<Stmt>)
    ensures CheckProgram(CreateClassFile([Method(name, body)])) == Detect(body, {})
  {
    assert CheckMethods([Method(name, body)]) == Detect(body, {}) + CheckMethods([]);
  }

  lemma ComponentChecksItsMethod(name: string, body: seq<Stmt>)
    ensures CheckProgram(Component([Method(name, body)])) == Detect(body, {})
  {
    assert CheckMethods([Method(name, body)]) == Detect(body, {}) + CheckMethods([]);
  }

  lemma ComponentChecksBothMethods(name1: string, body1: seq<Stmt>, name2: string, body2: seq<Stmt>)
    ensures CheckProgram(Component([Method(name1, body1), Method(name2, body2)])) ==
              Detect(body1, {}) + Detect(body2, {})
  {
    var ms := [Method(name1, body1), Method(name2, body2)];
    assert ms[1..] == [Method(name2, body2)];
    assert CheckMethods(ms[1..]) == Detect(body2, {}) + CheckMethods([]);
  }

  /** `this.props` is tainted, and reading it reports nothing. */
  lemma PropsRootRead(t: Bindings)
    ensures IsTainted(PropsRoot, t) && Sites(PropsRoot, t) == []
  {
  }

  /** Reading a member of `this.props` reports nothing. */
  lemma PropsDotRead(p: string, t: Bindings)
    ensures Sites(PropsDot(p), t) == []
  {
    PropsRootRead(t);
  }

  /** `delete obj.p` on a tainted object whose reading reports nothing is
      one diagnostic and binds nothing. */
  lemma DeleteReported(line: nat, column: nat, obj: Expr, p: string, t: Bindings)
    requires IsTainted(obj, t) && Sites(obj, t) == []
    ensures Report(StmtAt(line, column, Delete(Member(obj, p))), t) == [DiagAt(line, column)]
    ensures Bind(StmtAt(line, column, Delete(Member(obj, p))), t) == t
  {
    assert Sites(Member(obj, p), t) == [];
    assert Sites(Delete(Member(obj, p)), t) == [Delete(Member(obj, p))];
    assert Repeat(DiagAt(line, column), 1) == [DiagAt(line, column)];
  }

  /** `obj.p = v` on a tainted object, where neither side reports anything
      when read, is one diagnostic and binds nothing. */
  lemma AssignReported(line: nat, column: nat, obj: Expr, p: string, v: Expr, t: Bindings)
    requires IsTainted(obj, t) && Sites(obj, t) == [] && Sites(v, t) == []
    ensures Report(StmtAt(line, column, Assign(Member(obj, p), v)), t) == [DiagAt(line, column)]
    ensures Bind(StmtAt(line, column, Assign(Member(obj, p), v)), t) == t
  {
    assert Sites(Member(obj, p), t) == [];
    assert Sites(Assign(Member(obj, p), v), t) == [Assign(Member(obj, p), v)];
    assert Repeat(DiagAt(line, column), 1) == [DiagAt(line, column)];
  }

  /** Arguments none of which reports anything report nothing together. */
  lemma {:induction false} ArgumentsRead(es: seq<Expr>, t: Bindings)
    requires forall i :: 0 <= i < |es| ==> Sites(es[i], t) == []
    ensures SitesOfAll(es, t) == []
  {
    if |es| > 0 {
      ArgumentsRead(es[1..], t);
    }
  }

  /** `Object.m(target, arg)`, for `m` a mutator of its first argument, on a
      tainted target, where neither argument reports anything when read, is
      one diagnostic and binds nothing. */
  lemma ObjectCallReported(line: nat, column: nat, m: string, target: Expr, arg: Expr, t: Bindings)
    requires m in ObjectMutators && IsTainted(target, t) && Sites(target, t) == [] && Sites(arg, t) == []
    ensures Report(StmtAt(line, column, ObjectCall(m, [target, arg])), t) == [DiagAt(line, column)]
    ensures Bind(StmtAt(line, column, ObjectCall(m, [target, arg])), t) == t
  {
    var e := ObjectCall(m, [target, arg]);
    ArgumentsRead([target, arg], t);
    assert Sites(Member(Ident("Object"), m), t) == [];
    assert Sites(e, t) == [e];
    assert Repeat(DiagAt(line, column), 1) == [DiagAt(line, column)];
  }

  /** Two blocks checked one after the other. */
  lemma DetectTwoBlocks(a: seq<Stmt>, b: seq<Stmt>, t: Bindings, ta: Bindings)
    requires BindAll(a, t) == ta
    ensures Detect(a + b, t) == Detect(a, t) + Detect(b, ta)
    ensures BindAll(a + b, t) == BindAll(b, ta)
  {
    DetectAppend(a, b, t);
    BindAllAppend(a, b, t);
  }

  /** Three blocks checked one after the other. */
  lemma DetectThreeBlocks(a: seq<Stmt>, b: seq<Stmt>, c: seq<Stmt>, t: Bindings, ta: Bindings, tb: Bindings)
    requires BindAll(a, t) == ta && BindAll(b, ta) == tb
    ensures Detect(a + b + c, t) == Detect(a, t) + Detect(b, ta) + Detect(c, tb)
    ensures BindAll(a + b + c, t) == BindAll(c, tb)
  {
    DetectTwoBlocks(a, b, t, ta);
    DetectTwoBlocks(a + b, c, t, tb);
  }

  /** Checking a block statement by statement, given what each statement
      reports and binds. */
  lemma Block1(b: seq<Stmt>, t0: Bindings, d0: seq<Diagnostic>, t1: Bindings)
    requires |b| == 1
    requires Report(b[0], t0) == d0 && Bind(b[0], t0) == t1
    ensures Detect(b, t0) == d0 && BindAll(b, t0) == t1
  {
    assert b[1..] == [];
  }

  lemma Block2(b: seq<Stmt>, t0: Bindings, d0: seq<Diagnostic>, t1: Bindings, d1: seq<Diagnostic>, t2: Bindings)
    requires |b| == 2
    requires Report(b[0], t0) == d0 && Bind(b[0], t0) == t1
    requires Report(b[1], t1) == d1 && Bind(b[1], t1) == t2
    ensures Detect(b, t0) == d0 + d1 && BindAll(b, t0) == t2
  {
    Block1(b[1..], t1, d1, t2);
  }

  lemma Block3(b: seq<Stmt>, t0: Bindings, d0: seq<Diagnostic>, t1: Bindings, d1: seq<Diagnostic>, t2: Bindings,
               d2: seq<Diagnostic>, t3: Bindings)
    requires |b| == 3
    requires Report(b[0], t0) == d0 && Bind(b[0], t0) == t1
    requires Report(b[1], t1) == d1 && Bind(b[1], t1) == t2
    requires Report(b[2], t2) == d2 && Bind(b[2], t2) == t3
    ensures Detect(b, t0) == d0 + d1 + d2 && BindAll(b, t0) == t3
  {
    Block2(b[1..], t1, d1, t2, d2, t3);
    assert d0 + (d1 + d2) == d0 + d1 + d2;
  }

  lemma Block4(b: seq<Stmt>, t0: Bindings, d0: seq<Diagnostic>, t1: Bindings, d1: seq<Diagnostic>, t2: Bindings,
               d2: seq<Diagnostic>, t3: Bindings, d3: seq<Diagnostic>, t4: Bindings)
    requires |b| == 4
    requires Report(b[0], t0) == d0 && Bind(b[0], t0) == t1
    requires Report(b[1], t1) == d1 && Bind(b[1], t1) == t2
    requires Report(b[2], t2) == d2 && Bind(b[2], t2) == t3
    requires Report(b[3], t3) == d3 && Bind(b[3], t3) == t4
    ensures Detect(b, t0) == d0 + d1 + d2 + d3 && BindAll(b, t0) == t4
  {
    Block3(b[1..], t1, d1, t2, d2, t3, d3, t4);
    assert d0 + (d1 + d2 + d3) == d0 + d1 + d2 + d3;
  }

  /** A declaration pattern of one name introduces that name. */
  lemma SingleNames(x: string)
    ensures Names(ObjectPattern([x])) == {x} && Names(ArrayPattern([x])) == {x}
  {
    assert forall y :: y in [x] <==> y == x;
  }

  // ---------------------------------------------------------------------------
  // Valid cases

  /** Reading `this.props.name` in JSX. */
  const ReadInRenderBody: seq<Stmt> :=
    [Return(Jsx("div", [Lit("Hello "), PropsDot("name")]), Loc(3, 5))]

  const ReadInRender: Program := CreateClassFile([Method("render", ReadInRenderBody)])

  lemma ReadInRenderSilent()
    ensures CheckProgram(ReadInRender) == []
  {
    CreateClassFileChecksItsMethod("render", ReadInRenderBody);
    assert ReadInRenderBody[1..] == [];
  }

  /** Writing through `obj.props` of a local object literal. */
  const LocalObjectPropsBody: seq<Stmt> :=
    [Decl(Name("obj"), Obj1("props", ObjLit([])), Loc(3, 5)),
     StmtAt(4, 5, Assign(Member(Member(Ident("obj"), "props"), "name"), Lit("foo"))),
     Return(Jsx("div", [Lit("Hello "), Member(Member(Ident("obj"), "props"), "name")]), Loc(5, 5))]

  const LocalObjectProps: Program := CreateClassFile([Method("render", LocalObjectPropsBody)])

  lemma LocalObjectPropsSilent()
    ensures CheckProgram(LocalObjectProps) == []
  {
    CreateClassFileChecksItsMethod("render", LocalObjectPropsBody);
    assert LocalObjectPropsBody[1..][1..][1..] == [];
  }

  /** A file with no component at all. */
  const NoComponent: Program :=
    [TopLevel(Decl(Name("Hello"), Lit("foo"), Loc(1, 1))),
     TopLevel(StmtAt(2, 1, Assign(Member(Ident("module"), "exports"), ObjLit([]))))]

  lemma NoComponentSilent()
    ensures CheckProgram(NoComponent) == []
  {
    assert NoComponent[1..][1..] == [];
  }

  /** A plain class, not a component, assigning `this.props.foo`. */
  const PlainClass: Program :=
    [ClassDecl("Hello", NoSuperClass, [
      Method("getFoo", [
        StmtAt(3, 5, Assign(PropsDot("foo"), Lit("bar"))),
        Return(PropsDot("foo"), Loc(4, 5))])])]

  lemma PlainClassSilent()
    ensures CheckProgram(PlainClass) == []
  {
    assert PlainClass[1..] == [];
  }

  /** Array mutators on `this.thing`, its alias and chains on it, then on a
      fresh array. */
  const PushOnUntainted1: seq<Stmt> :=
    [Decl(ObjectPattern(["list"]), ThisMember("thing"), Loc(3, 5)),
     StmtAt(4, 5, Invoke(Ident("list"), "push", [Lit("1")])),
     StmtAt(5, 5, Invoke(Member(ThisMember("thing"), "list"), "push", [Lit("1")]))]

  const PushOnUntainted2: seq<Stmt> :=
    [StmtAt(6, 5, Invoke(Member(Member(ThisMember("thing"), "foo"), "list"), "push", [Lit("1")])),
     Decl(Name("foo"), ArrLit([]), Loc(7, 5)),
     StmtAt(8, 5, Invoke(Ident("foo"), "push", [Lit("1")])),
     Return(Jsx("div", []), Loc(9, 5))]

  const PushOnUntainted: Program := Component([Method("render", PushOnUntainted1 + PushOnUntainted2)])

  lemma PushOnUntaintedLines3To5()
    ensures Detect(PushOnUntainted1, {}) == [] && BindAll(PushOnUntainted1, {}) == {}
  {
    assert PushOnUntainted1[1..][1..][1..] == [];
  }

  lemma PushOnUntaintedLines6To9()
    ensures Detect(PushOnUntainted2, {}) == []
  {
    assert PushOnUntainted2[1..][1..][1..][1..] == [];
  }

  lemma PushOnUntaintedSilent()
    ensures CheckProgram(PushOnUntainted) == []
  {
    PushOnUntaintedLines3To5();
    PushOnUntaintedLines6To9();
    DetectTwoBlocks(PushOnUntainted1, PushOnUntainted2, {}, {});
    ComponentChecksItsMethod("render", PushOnUntainted1 + PushOnUntainted2);
  }

  /** `delete` through `this.thing`, its alias and a fresh object. */
  const DeleteOnUntainted1: seq<Stmt> :=
    [Decl(ObjectPattern(["foo"]), ThisMember("thing"), Loc(3, 4)),
     StmtAt(4, 4, Delete(Member(Ident("foo"), "bar"))),
     StmtAt(5, 4, Delete(Member(ThisMember("thing"), "foo")))]

  const DeleteOnUntainted2: seq<Stmt> :=
    [Decl(Name("bar"), Obj1("a", Lit("1")), Loc(6, 4)),
     StmtAt(7, 4, Delete(Member(Ident("bar"), "a")))]

  const DeleteOnUntainted: Program := Component([Method("render", DeleteOnUntainted1 + DeleteOnUntainted2)])

  lemma DeleteOnUntaintedLines3To5()
    ensures Detect(DeleteOnUntainted1, {}) == [] && BindAll(DeleteOnUntainted1, {}) == {}
  {
    assert DeleteOnUntainted1[1..][1..][1..] == [];
  }

  lemma DeleteOnUntaintedSilent()
    ensures CheckProgram(DeleteOnUntainted) == []
  {
    DeleteOnUntaintedLines3To5();
    assert Detect(DeleteOnUntainted2, {}) == [] by {
      assert DeleteOnUntainted2[1..][1..] == [];
    }
    DetectTwoBlocks(DeleteOnUntainted1, DeleteOnUntainted2, {}, {});
    ComponentChecksItsMethod("render", DeleteOnUntainted1 + DeleteOnUntainted2);
  }

  /** `Object.defineProperty` on a fresh object and on `this.foo`. */
  const DefinePropertyOnUntaintedBody: seq<Stmt> :=
    [Decl(Name("foo"), ObjLit([]), Loc(3, 4)),
     StmtAt(4, 4, ObjectCall("defineProperty", [Ident("foo"), Lit("bar")])),
     StmtAt(5, 4, ObjectCall("defineProperty", [ThisMember("foo"), Lit("bar")]))]

  const DefinePropertyOnUntainted: Program := Component([Method("render", DefinePropertyOnUntaintedBody)])

  lemma DefinePropertyOnUntaintedSilent()
    ensures CheckProgram(DefinePropertyOnUntainted) == []
  {
    ComponentChecksItsMethod("render", DefinePropertyOnUntaintedBody);
    assert DefinePropertyOnUntaintedBody[1..][1..][1..] == [];
  }

  /** `Object.assign` copying tainted sources into a fresh object, and into `this.foo`. */
  const AssignFromProps1: seq<Stmt> :=
    [Decl(ObjectPattern(["foo"]), PropsRoot, Loc(3, 4)),
     StmtAt(4, 4, ObjectCall("assign", [ObjLit([]), Ident("foo"), Obj1("bar", Lit("1"))]))]

  const AssignFromProps2: seq<Stmt> :=
    [StmtAt(5, 4, ObjectCall("assign", [ThisMember("foo"), Obj1("foo", Lit("1"))])),
     StmtAt(6, 4, ObjectCall("assign", [ObjLit([]), PropsRoot, Obj1("foo", Lit("1"))]))]

  const AssignFromProps3: seq<Stmt> :=
    [StmtAt(7, 4, ObjectCall("assign", [ObjLit([]), PropsDot("foo"), Obj1("foo", Lit("1"))]))]

  const AssignFromProps: Program :=
    Component([Method("render", AssignFromProps1 + AssignFromProps2 + AssignFromProps3)])

  lemma AssignFromPropsLines3To4()
    ensures Detect(AssignFromProps1, {}) == [] && BindAll(AssignFromProps1, {}) == {"foo"}
  {
    SingleNames("foo");
    Block2(AssignFromProps1, {}, [], {"foo"}, [], {"foo"});
  }

  /** Copying `this.props` into a fresh `{}` reports nothing. */
  lemma AssignFromPropsLine6()
    ensures Report(AssignFromProps2[1], {"foo"}) == [] && Bind(AssignFromProps2[1], {"foo"}) == {"foo"}
  {
    PropsRootRead({"foo"});
    assert Sites(Obj1("foo", Lit("1")), {"foo"}) == [];
    var args := [ObjLit([]), PropsRoot, Obj1("foo", Lit("1"))];
    ArgumentsRead(args, {"foo"});
    var e := ObjectCall("assign", args);
    assert AssignFromProps2[1] == StmtAt(6, 4, e);
    assert Sites(Member(Ident("Object"), "assign"), {"foo"}) == [];
    assert Sites(e, {"foo"}) == [];
  }

  lemma AssignFromPropsLines5To6()
    ensures Detect(AssignFromProps2, {"foo"}) == [] && BindAll(AssignFromProps2, {"foo"}) == {"foo"}
  {
    AssignFromPropsLine6();
    Block2(AssignFromProps2, {"foo"}, [], {"foo"}, [], {"foo"});
  }

  lemma AssignFromPropsLine7()
    ensures Detect(AssignFromProps3, {"foo"}) == []
  {
    Block1(AssignFromProps3, {"foo"}, [], {"foo"});
  }

  lemma AssignFromPropsSilent()
    ensures CheckProgram(AssignFromProps) == []
  {
    AssignFromPropsLines3To4();
    AssignFromPropsLines5To6();
    AssignFromPropsLine7();
    DetectThreeBlocks(AssignFromProps1, AssignFromProps2, AssignFromProps3, {}, {"foo"}, {"foo"});
    ComponentChecksItsMethod("render", AssignFromProps1 + AssignFromProps2 + AssignFromProps3);
  }

  // ---------------------------------------------------------------------------
  // Invalid cases

  const AssignDepth1Body: seq<Stmt> :=
    [StmtAt(3, 5, Assign(PropsDot("foo"), Lit("bar"))),
     Return(Jsx("div", [Lit("Hello "), PropsDot("name")]), Loc(4, 5))]

  const AssignDepth1: Program := CreateClassFile([Method("render", AssignDepth1Body)])

  lemma AssignDepth1Reported()
    ensures CheckProgram(AssignDepth1) == [DiagAt(3, 5)]
  {
    CreateClassFileChecksItsMethod("render", AssignDepth1Body);
    assert AssignDepth1Body[1..][1..] == [];
  }

  const AssignDepth2Body: seq<Stmt> :=
    [StmtAt(3, 5, Assign(Member(PropsDot("person"), "name"), Lit("bar"))),
     Return(Jsx("div", [Lit("Hello "), PropsDot("name")]), Loc(4, 5))]

  const AssignDepth2: Program := CreateClassFile([Method("render", AssignDepth2Body)])

  lemma AssignDepth2Reported()
    ensures CheckProgram(AssignDepth2) == [DiagAt(3, 5)]
  {
    CreateClassFileChecksItsMethod("render", AssignDepth2Body);
    assert AssignDepth2Body[1..][1..] == [];
  }

  const AssignDepth3Body: seq<Stmt> :=
    [StmtAt(3, 5, Assign(Member(Member(PropsDot("person"), "name"), "first"), Lit("bar"))),
     Return(Jsx("div", [Lit("Hello")]), Loc(4, 5))]

  const AssignDepth3: Program := CreateClassFile([Method("render", AssignDepth3Body)])

  lemma AssignDepth3Reported()
    ensures CheckProgram(AssignDepth3) == [DiagAt(3, 5)]
  {
    CreateClassFileChecksItsMethod("render", AssignDepth3Body);
    assert AssignDepth3Body[1..][1..] == [];
  }

  const TwoAssignmentsBody: seq<Stmt> :=
    [StmtAt(3, 5, Assign(Member(Member(PropsDot("person"), "name"), "first"), Lit("bar"))),
     StmtAt(4, 5, Assign(Member(Member(PropsDot("person"), "name"), "last"), Lit("baz"))),
     Return(Jsx("div", [Lit("Hello")]), Loc(5, 5))]

  const TwoAssignments: Program := CreateClassFile([Method("render", TwoAssignmentsBody)])

  /** `this.props.person.name` is tainted and reading it reports nothing. */
  lemma PersonNameRead()
    ensures IsTainted(Member(PropsDot("person"), "name"), {})
    ensures Sites(Member(PropsDot("person"), "name"), {}) == []
  {
    PropsDotRead("person", {});
  }

  lemma TwoAssignmentsLines3To5()
    ensures Detect(TwoAssignmentsBody, {}) == [DiagAt(3, 5), DiagAt(4, 5)]
  {
    var name := Member(PropsDot("person"), "name");
    PersonNameRead();
    AssignReported(3, 5, name, "first", Lit("bar"), {});
    AssignReported(4, 5, name, "last", Lit("baz"), {});
    Block3(TwoAssignmentsBody, {}, [DiagAt(3, 5)], {}, [DiagAt(4, 5)], {}, [], {});
  }

  lemma TwoAssignmentsReported()
    ensures CheckProgram(TwoAssignments) == [DiagAt(3, 5), DiagAt(4, 5)]
  {
    TwoAssignmentsLines3To5();
    CreateClassFileChecksItsMethod("render", TwoAssignmentsBody);
  }

  /** A destructured alias mutated in one method; another method follows. */
  const AliasInHelperBody: seq<Stmt> :=
    [Decl(ObjectPattern(["foo"]), PropsRoot, Loc(3, 5)),
     StmtAt(4, 5, Assign(Member(Ident("foo"), "bar"), Lit("1")))]

  const AliasInHelperRender: seq<Stmt> := [Return(Jsx("div", []), Loc(7, 5))]

  const AliasInHelper: Program :=
    Component([Method("helper", AliasInHelperBody), Method("render", AliasInHelperRender)])

  lemma AliasInHelperReported()
    ensures CheckProgram(AliasInHelper) == [DiagAt(4, 5)]
  {
    SingleNames("foo");
    Block2(AliasInHelperBody, {}, [], {"foo"}, [DiagAt(4, 5)], {"foo"});
    Block1(AliasInHelperRender, {}, [], {});
    ComponentChecksBothMethods("helper", AliasInHelperBody, "render", AliasInHelperRender);
  }

  /** The four array mutators on an alias and on chains of depth 1 and 2. */
  const ArrayMutations1: seq<Stmt> :=
    [Decl(ObjectPattern(["list"]), PropsRoot, Loc(3, 5)),
     StmtAt(4, 5, Invoke(Ident("list"), "push", [Lit("1")])),
     StmtAt(5, 5, Invoke(Ident("list"), "pop", [])),
     StmtAt(6, 5, Invoke(Ident("list"), "shift", []))]

  const ArrayMutations2: seq<Stmt> :=
    [StmtAt(7, 5, Invoke(Ident("list"), "unshift", [Lit("1")])),
     StmtAt(8, 5, Invoke(PropsDot("foo"), "push", [Lit("1")])),
     StmtAt(9, 5, Invoke(PropsDot("foo"), "pop", [])),
     StmtAt(10, 5, Invoke(PropsDot("foo"), "shift", []))]

  const ArrayMutations3: seq<Stmt> :=
    [StmtAt(11, 5, Invoke(PropsDot("foo"), "unshift", [Lit("1")])),
     StmtAt(12, 5, Invoke(Member(PropsDot("foo"), "list"), "push", [Lit("1")])),
     StmtAt(13, 5, Invoke(Member(PropsDot("foo"), "list"), "pop", [])),
     StmtAt(14, 5, Invoke(Member(PropsDot("foo"), "list"), "shift", []))]

  const ArrayMutations4: seq<Stmt> :=
    [StmtAt(15, 5, Invoke(Member(PropsDot("foo"), "list"), "unshift", [Lit("1")])),
     Return(Jsx("div", []), Loc(16, 5))]

  const ArrayMutations: Program :=
    Component([Method("render", ArrayMutations1 + ArrayMutations2 + ArrayMutations3 + ArrayMutations4)])

  lemma ArrayMutationsLines3To6()
    ensures Detect(ArrayMutations1, {}) == [DiagAt(4, 5), DiagAt(5, 5), DiagAt(6, 5)]
    ensures BindAll(ArrayMutations1, {}) == {"list"}
  {
    SingleNames("list");
    Block4(ArrayMutations1, {}, [], {"list"}, [DiagAt(4, 5)], {"list"}, [DiagAt(5, 5)], {"list"}, [DiagAt(6, 5)], {"list"});
  }

  lemma ArrayMutationsLines7To10()
    ensures Detect(ArrayMutations2, {"list"}) == [DiagAt(7, 5), DiagAt(8, 5), DiagAt(9, 5), DiagAt(10, 5)]
    ensures BindAll(ArrayMutations2, {"list"}) == {"list"}
  {
    Block4(ArrayMutations2, {"list"}, [DiagAt(7, 5)], {"list"}, [DiagAt(8, 5)], {"list"}, [DiagAt(9, 5)], {"list"},
           [DiagAt(10, 5)], {"list"});
  }

  lemma ArrayMutationsLines11To14()
    ensures Detect(ArrayMutations3, {"list"}) == [DiagAt(11, 5), DiagAt(12, 5), DiagAt(13, 5), DiagAt(14, 5)]
    ensures BindAll(ArrayMutations3, {"list"}) == {"list"}
  {
    Block4(ArrayMutations3, {"list"}, [DiagAt(11, 5)], {"list"}, [DiagAt(12, 5)], {"list"}, [DiagAt(13, 5)], {"list"},
           [DiagAt(14, 5)], {"list"});
  }

  lemma ArrayMutationsLines15To16()
    ensures Detect(ArrayMutations4, {"list"}) == [DiagAt(15, 5)]
  {
    Block2(ArrayMutations4, {"list"}, [DiagAt(15, 5)], {"list"}, [], {"list"});
  }

  lemma ArrayMutationsReported()
    ensures CheckProgram(ArrayMutations) ==
              [DiagAt(4, 5), DiagAt(5, 5), DiagAt(6, 5)]
              + [DiagAt(7, 5), DiagAt(8, 5), DiagAt(9, 5), DiagAt(10, 5)]
              + [DiagAt(11, 5), DiagAt(12, 5), DiagAt(13, 5), DiagAt(14, 5)]
              + [DiagAt(15, 5)]
  {
    ArrayMutationsLines3To6();
    ArrayMutationsLines7To10();
    ArrayMutationsLines11To14();
    ArrayMutationsLines15To16();
    DetectThreeBlocks(ArrayMutations1, ArrayMutations2, ArrayMutations3, {}, {"list"}, {"list"});
    DetectTwoBlocks(ArrayMutations1 + ArrayMutations2 + ArrayMutations3, ArrayMutations4, {}, {"list"});
    ComponentChecksItsMethod("render", ArrayMutations1 + ArrayMutations2 + ArrayMutations3 + ArrayMutations4);
  }

  /** `delete` through object-, array- and simply-declared aliases and through chains. */
  const Deletions1: seq<Stmt> :=
    [Decl(ObjectPattern(["foo"]), PropsRoot, Loc(3, 5)),
     StmtAt(4, 5, Delete(Member(Ident("foo"), "bar"))),
     Decl(ArrayPattern(["bar"]), PropsDot("thing"), Loc(5, 5))]

  const Deletions2: seq<Stmt> :=
    [StmtAt(6, 5, Delete(Member(Ident("bar"), "baz"))),
     Decl(Name("baz"), PropsDot("baz"), Loc(7, 5)),
     StmtAt(8, 5, Delete(Member(Ident("baz"), "a")))]

  const Deletions3: seq<Stmt> :=
    [StmtAt(9, 5, Delete(PropsDot("foo"))),
     StmtAt(10, 5, Delete(Member(PropsDot("foo"), "bar"))),
     Return(Jsx("div", []), Loc(11, 5))]

  const Deletions: Program := Component([Method("render", Deletions1 + Deletions2 + Deletions3)])

  lemma DeletionsLines3To5()
    ensures Detect(Deletions1, {}) == [DiagAt(4, 5)]
    ensures BindAll(Deletions1, {}) == {"foo", "bar"}
  {
    SingleNames("foo");
    SingleNames("bar");
    Block3(Deletions1, {}, [], {"foo"}, [DiagAt(4, 5)], {"foo"}, [], {"foo", "bar"});
  }

  lemma DeletionsLines6To8()
    ensures Detect(Deletions2, {"foo", "bar"}) == [DiagAt(6, 5), DiagAt(8, 5)]
    ensures BindAll(Deletions2, {"foo", "bar"}) == {"foo", "bar", "baz"}
  {
    DeleteReported(6, 5, Ident("bar"), "baz", {"foo", "bar"});
    DeleteReported(8, 5, Ident("baz"), "a", {"foo", "bar", "baz"});
    Block3(Deletions2, {"foo", "bar"}, [DiagAt(6, 5)], {"foo", "bar"}, [], {"foo", "bar", "baz"},
           [DiagAt(8, 5)], {"foo", "bar", "baz"});
  }

  lemma DeletionsLines9To11()
    ensures Detect(Deletions3, {"foo", "bar", "baz"}) == [DiagAt(9, 5), DiagAt(10, 5)]
  {
    var t := {"foo", "bar", "baz"};
    PropsDotRead("foo", t);
    DeleteReported(9, 5, PropsRoot, "foo", t);
    DeleteReported(10, 5, PropsDot("foo"), "bar", t);
    Block3(Deletions3, t, [DiagAt(9, 5)], t, [DiagAt(10, 5)], t, [], t);
  }

  lemma DeletionsReported()
    ensures CheckProgram(Deletions) ==
              [DiagAt(4, 5)] + [DiagAt(6, 5), DiagAt(8, 5)] + [DiagAt(9, 5), DiagAt(10, 5)]
  {
    DeletionsLines3To5();
    DeletionsLines6To8();
    DeletionsLines9To11();
    DetectThreeBlocks(Deletions1, Deletions2, Deletions3, {}, {"foo", "bar"}, {"foo", "bar", "baz"});
    ComponentChecksItsMethod("render", Deletions1 + Deletions2 + Deletions3);
  }

  /** `Object.defineProperty` on aliases and on `this.props` chains. */
  const DefineProperties1: seq<Stmt> :=
    [Decl(ObjectPattern(["foo"]), PropsRoot, Loc(3, 5)),
     StmtAt(4, 5, ObjectCall("defineProperty", [Ident("foo"), Lit("bar")])),
     Decl(ArrayPattern(["bar"]), PropsDot("thing"), Loc(5, 5))]

  const DefineProperties2: seq<Stmt> :=
    [StmtAt(6, 5, ObjectCall("defineProperty", [Ident("bar"), Lit("baz")])),
     Decl(Name("baz"), PropsDot("baz"), Loc(7, 5)),
     StmtAt(8, 5, ObjectCall("defineProperty", [Ident("baz"), Lit("thing")]))]

  const DefineProperties3: seq<Stmt> :=
    [StmtAt(9, 5, ObjectCall("defineProperty", [PropsRoot, Lit("foo")])),
     StmtAt(10, 5, ObjectCall("defineProperty", [PropsDot("foo"), Lit("foo")])),
     Return(Jsx("div", []), Loc(11, 5))]

  const DefineProperties: Program :=
    Component([Method("render", DefineProperties1 + DefineProperties2 + DefineProperties3)])

  lemma DefinePropertiesLines3To5()
    ensures Detect(DefineProperties1, {}) == [DiagAt(4, 5)]
    ensures BindAll(DefineProperties1, {}) == {"foo", "bar"}
  {
    SingleNames("foo");
    SingleNames("bar");
    Block3(DefineProperties1, {}, [], {"foo"}, [DiagAt(4, 5)], {"foo"}, [], {"foo", "bar"});
  }

  lemma DefinePropertiesLines6To8()
    ensures Detect(DefineProperties2, {"foo", "bar"}) == [DiagAt(6, 5), DiagAt(8, 5)]
    ensures BindAll(DefineProperties2, {"foo", "bar"}) == {"foo", "bar", "baz"}
  {
    Block3(DefineProperties2, {"foo", "bar"}, [DiagAt(6, 5)], {"foo", "bar"}, [], {"foo", "bar", "baz"},
           [DiagAt(8, 5)], {"foo", "bar", "baz"});
  }

  lemma DefinePropertiesLines9To11()
    ensures Detect(DefineProperties3, {"foo", "bar", "baz"}) == [DiagAt(9, 5), DiagAt(10, 5)]
  {
    var t := {"foo", "bar", "baz"};
    PropsRootRead(t);
    ObjectCallReported(9, 5, "defineProperty", PropsRoot, Lit("foo"), t);
    Block3(DefineProperties3, t, [DiagAt(9, 5)], t, [DiagAt(10, 5)], t, [], t);
  }

  lemma DefinePropertiesReported()
    ensures CheckProgram(DefineProperties) ==
              [DiagAt(4, 5)] + [DiagAt(6, 5), DiagAt(8, 5)] + [DiagAt(9, 5), DiagAt(10, 5)]
  {
    DefinePropertiesLines3To5();
    DefinePropertiesLines6To8();
    DefinePropertiesLines9To11();
    DetectThreeBlocks(DefineProperties1, DefineProperties2, DefineProperties3, {}, {"foo", "bar"}, {"foo", "bar", "baz"});
    ComponentChecksItsMethod("render", DefineProperties1 + DefineProperties2 + DefineProperties3);
  }

  /** `Object.assign` into aliases and into `this.props` chains. */
  const AssignsInto1: seq<Stmt> :=
    [Decl(ObjectPattern(["foo"]), PropsRoot, Loc(3, 5)),
     StmtAt(4, 5, ObjectCall("assign", [Ident("foo"), Obj1("bar", Lit("1"))])),
     Decl(ArrayPattern(["bar"]), PropsDot("thing"), Loc(5, 5))]

  const AssignsInto2: seq<Stmt> :=
    [StmtAt(6, 5, ObjectCall("assign", [Ident("bar"), Obj1("baz", Lit("1"))])),
     Decl(Name("baz"), PropsDot("baz"), Loc(7, 5)),
     StmtAt(8, 5, ObjectCall("assign", [Ident("baz"), Obj1("bat", Lit("1"))]))]

  const AssignsInto3: seq<Stmt> :=
    [StmtAt(9, 5, ObjectCall("assign", [PropsRoot, Obj1("foo", Lit("1"))])),
     StmtAt(10, 5, ObjectCall("assign", [PropsDot("baz"), Obj1("foo", Lit("1"))])),
     Return(Jsx("div", []), Loc(11, 5))]

  const AssignsInto: Program := Component([Method("render", AssignsInto1 + AssignsInto2 + AssignsInto3)])

  lemma AssignsIntoLines3To5()
    ensures Detect(AssignsInto1, {}) == [DiagAt(4, 5)]
    ensures BindAll(AssignsInto1, {}) == {"foo", "bar"}
  {
    SingleNames("foo");
    SingleNames("bar");
    Block3(AssignsInto1, {}, [], {"foo"}, [DiagAt(4, 5)], {"foo"}, [], {"foo", "bar"});
  }

  lemma AssignsIntoLines6To8()
    ensures Detect(AssignsInto2, {"foo", "bar"}) == [DiagAt(6, 5), DiagAt(8, 5)]
    ensures BindAll(AssignsInto2, {"foo", "bar"}) == {"foo", "bar", "baz"}
  {
    Block3(AssignsInto2, {"foo", "bar"}, [DiagAt(6, 5)], {"foo", "bar"}, [], {"foo", "bar", "baz"},
           [DiagAt(8, 5)], {"foo", "bar", "baz"});
  }

  lemma AssignsIntoLines9To11()
    ensures Detect(AssignsInto3, {"foo", "bar", "baz"}) == [DiagAt(9, 5), DiagAt(10, 5)]
  {
    var t := {"foo", "bar", "baz"};
    PropsRootRead(t);
    ObjectCallReported(9, 5, "assign", PropsRoot, Obj1("foo", Lit("1")), t);
    Block3(AssignsInto3, t, [DiagAt(9, 5)], t, [DiagAt(10, 5)], t, [], t);
  }

  lemma AssignsIntoReported()
    ensures CheckProgram(AssignsInto) ==
              [DiagAt(4, 5)] + [DiagAt(6, 5), DiagAt(8, 5)] + [DiagAt(9, 5), DiagAt(10, 5)]
  {
    AssignsIntoLines3To5();
    AssignsIntoLines6To8();
    AssignsIntoLines9To11();
    DetectThreeBlocks(AssignsInto1, AssignsInto2, AssignsInto3, {}, {"foo", "bar"}, {"foo", "bar", "baz"});
    ComponentChecksItsMethod("render", AssignsInto1 + AssignsInto2 + AssignsInto3);
  }

  // ---------------------------------------------------------------------------
  // The known limitation: an alias of `this` itself is not followed

  const ThisAliasBody: seq<Stmt> :=
    [Decl(Name("that"), This, Loc(3, 5)),
     StmtAt(4, 5, Assign(Member(Member(Member(Member(Ident("that"), "props"), "person"), "name"), "first"), Lit("bar"))),
     Return(Jsx("div", [Lit("Hello")]), Loc(5, 5))]

  const ThisAlias: Program := CreateClassFile([Method("render", ThisAliasBody)])

  lemma ThisAliasNotDetected()
    ensures CheckProgram(ThisAlias) == []
  {
    CreateClassFileChecksItsMethod("render", ThisAliasBody);
    assert ThisAliasBody[1..][1..][1..] == [];
  }
}
