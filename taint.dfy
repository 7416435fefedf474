/** Expression classifier and binding resolver: which expressions denote
    memory reachable from `this.props`, and which local names alias it. */
module PropsTaint {
  import opened JsSyntax

  /** The binding table of one method body: the local names known to alias
      tainted memory. */
  type Bindings = set<string>

  /** What an expression denotes: a path under `this.props`, a path under a
      tainted alias, or nothing reachable from the props. */
  datatype Taint =
    | FromProps(path: seq<string>)
    | FromAlias(alias: string, path: seq<string>)
    | Untainted

  /** Extends a classification by further property accesses. */
  function Extend(t: Taint, path: seq<string>): Taint
  {
    match t
    case FromProps(p) => FromProps(p + path)
    case FromAlias(x, p) => FromAlias(x, p + path)
    case Untainted => Untainted
  }

  /** Classifies `e` against the binding table: `this.props`, a tainted
      alias, or a member chain on either is tainted; literals, `this`, other
      names and chains on them are not. */
  function Classify(e: Expr, tainted: Bindings): Taint
  {
    match e
    case Ident(x) => if x in tainted then FromAlias(x, []) else Untainted
    case Member(obj, prop) =>
      if obj == This && prop == "props" then FromProps([])
      else Extend(Classify(obj, tainted), [prop])
    case _ => Untainted
  }

  predicate IsTainted(e: Expr, tainted: Bindings)
  {
    !Classify(e, tainted).Untainted?
  }

  /** The bindings after statement `s`: a declaration whose initializer is
      tainted taints every name it introduces, whichever field or index it
      extracts. Nothing is ever removed. */
  function Bind(s: Stmt, tainted: Bindings): Bindings
  {
    if s.Decl? && IsTainted(s.init, tainted) then tainted + Names(s.pattern) else tainted
  }

  /** The bindings after a whole statement list, threaded in source order. */
  function BindAll(body: seq<Stmt>, tainted: Bindings): Bindings
  {
    if |body| == 0 then tainted else BindAll(body[1..], Bind(body[0], tainted))
  }

  // ---------------------------------------------------------------------------
  // Properties of the classifier

  /** Whatever is classified as tainted is literally a chain on `this.props`
      or on a tainted alias, with the path the classification names. */
  lemma {:induction false} ClassifySound(e: Expr, tainted: Bindings)
    ensures Classify(e, tainted).FromProps? ==> e == PropsChain(Classify(e, tainted).path)
    ensures Classify(e, tainted).FromAlias? ==>
              Classify(e, tainted).alias in tainted && e == AliasChain(Classify(e, tainted).alias, Classify(e, tainted).path)
  {
    match e
    case Member(obj, prop) =>
      if obj == This && prop == "props" {
        assert e == Chain(PropsRoot, []);
      } else {
        ClassifySound(obj, tainted);
        match Classify(obj, tainted)
        case FromProps(p) => assert (p + [prop])[..|p|] == p;
        case FromAlias(x, p) => assert (p + [prop])[..|p|] == p;
        case Untainted =>
      }
    case _ =>
  }

  /** Member access on any base other than bare `this` carries the base's
      classification along: taint neither starts nor stops part-way. */
  lemma {:induction false} ClassifyChain(base: Expr, path: seq<string>, tainted: Bindings)
    requires base != This
    ensures Classify(Chain(base, path), tainted) == Extend(Classify(base, tainted), path)
  {
    if |path| > 0 {
      var init, last := path[..|path| - 1], path[|path| - 1];
      ClassifyChain(base, init, tainted);
      assert init + [last] == path;
      assert Chain(base, path) == Member(Chain(base, init), last);
      assert Chain(base, init) != This by {
        if |init| == 0 { assert Chain(base, init) == base; }
      }
      match Classify(base, tainted)
      case FromProps(p) => assert p + init + [last] == p + path;
      case FromAlias(x, p) => assert p + init + [last] == p + path;
      case Untainted =>
    }
  }

  /** Every chain on `this.props`, of any depth, is tainted with its path. */
  lemma PropsChainTainted(path: seq<string>, tainted: Bindings)
    ensures Classify(PropsChain(path), tainted) == FromProps(path)
  {
    ClassifyChain(PropsRoot, path, tainted);
    assert [] + path == path;
  }

  /** A chain on a local name is tainted exactly when that name is a tainted alias. */
  lemma AliasChainTainted(x: string, path: seq<string>, tainted: Bindings)
    ensures Classify(AliasChain(x, path), tainted) ==
              if x in tainted then FromAlias(x, path) else Untainted
  {
    ClassifyChain(Ident(x), path, tainted);
    assert [] + path == path;
  }

  /** Taint has exactly two sources: `this.props` and the tainted aliases. */
  lemma TaintedIff(e: Expr, tainted: Bindings)
    ensures IsTainted(e, tainted) <==>
              (exists p :: e == PropsChain(p)) || (exists x, p :: x in tainted && e == AliasChain(x, p))
  {
    if exists p :: e == PropsChain(p) {
      var p :| e == PropsChain(p);
      PropsChainTainted(p, tainted);
    } else if exists x, p :: x in tainted && e == AliasChain(x, p) {
      var x, p :| x in tainted && e == AliasChain(x, p);
      AliasChainTainted(x, p, tainted);
    } else {
      ClassifySound(e, tainted);
    }
  }

  /** Chains on bases that are neither `this.props` nor a tainted alias, such
      as `obj.props`, `this.thing` or a fresh literal, are never tainted. */
  lemma {:induction false} UntaintedBaseChain(base: Expr, path: seq<string>, tainted: Bindings)
    requires base != This && !IsTainted(base, tainted)
    ensures !IsTainted(Chain(base, path), tainted)
  {
    ClassifyChain(base, path, tainted);
  }

  /** A larger binding table never un-taints an expression, nor changes what
      an already tainted expression is classified as. */
  lemma {:induction false} ClassifyMonotone(e: Expr, t1: Bindings, t2: Bindings)
    requires t1 <= t2
    ensures IsTainted(e, t1) ==> Classify(e, t2) == Classify(e, t1)
  {
    match e
    case Member(obj, prop) =>
      if !(obj == This && prop == "props") {
        ClassifyMonotone(obj, t1, t2);
      }
    case _ =>
  }

  lemma BindMonotone(s: Stmt, t1: Bindings, t2: Bindings)
    requires t1 <= t2
    ensures Bind(s, t1) <= Bind(s, t2)
  {
    if s.Decl? {
      ClassifyMonotone(s.init, t1, t2);
    }
  }

  /** A statement list only ever adds aliases, and each name it adds is
      introduced by one of its declarations. */
  lemma {:induction false} BindAllGrows(body: seq<Stmt>, tainted: Bindings)
    ensures tainted <= BindAll(body, tainted)
    ensures forall x :: x in BindAll(body, tainted) && x !in tainted ==>
              exists s :: s in body && s.Decl? && x in Names(s.pattern)
  {
    if |body| > 0 {
      var t1 := Bind(body[0], tainted);
      BindAllGrows(body[1..], t1);
      forall x | x in BindAll(body, tainted) && x !in tainted
        ensures exists s :: s in body && s.Decl? && x in Names(s.pattern)
      {
        if x !in t1 {
          var s :| s in body[1..] && s.Decl? && x in Names(s.pattern);
          assert s in body;
        } else {
          assert body[0] in body;
        }
      }
    }
  }

  /** Threading bindings through `a + b` is threading them through `a`, then `b`. */
  lemma {:induction false} BindAllAppend(a: seq<Stmt>, b: seq<Stmt>, tainted: Bindings)
    ensures BindAll(a + b, tainted) == BindAll(b, BindAll(a, tainted))
  {
    if |a| > 0 {
      assert (a + b)[0] == a[0] && (a + b)[1..] == a[1..] + b;
      BindAllAppend(a[1..], b, Bind(a[0], tainted));
    } else {
      assert a + b == b;
    }
  }

  /** A name is an alias after a statement list exactly when it was one
      before, or some declaration of the list introduces it from an
      initializer that is tainted under the aliases of the statements before
      that declaration. */
  lemma {:induction false} BindAllIff(body: seq<Stmt>, tainted: Bindings, x: string)
    ensures x in BindAll(body, tainted) <==>
              || x in tainted
              || exists i :: 0 <= i < |body| && body[i].Decl? && x in Names(body[i].pattern)
                                              && IsTainted(body[i].init, BindAll(body[..i], tainted))
  {
    if |body| > 0 {
      var n := |body| - 1;
      var init, last := body[..n], body[n];
      BindAllIff(init, tainted, x);
      assert init + [last] == body;
      BindAllAppend(init, [last], tainted);
      assert [last][1..] == [];
      forall i | 0 <= i < n
        ensures body[i] == init[i] && body[..i] == init[..i]
      {
      }
      if exists i :: 0 <= i < |body| && body[i].Decl? && x in Names(body[i].pattern)
                     && IsTainted(body[i].init, BindAll(body[..i], tainted)) {
        var i :| 0 <= i < |body| && body[i].Decl? && x in Names(body[i].pattern)
                 && IsTainted(body[i].init, BindAll(body[..i], tainted));
        if i < n {
          BindAllGrows([last], BindAll(init, tainted));
        }
      }
    }
  }
}
