/** The part of an ECMAScript-with-JSX syntax tree that the no-mutation-props
    rule looks at. Every node kind the rule inspects has its own constructor;
    everything else is `Other`, which the rule neither classifies nor walks. */
module JsSyntax {

  /** 1-based line and 1-based column of a statement's first character. */
  datatype Loc = Loc(line: nat, column: nat)

  datatype Expr =
    | This
    | Ident(name: string)
    | Member(obj: Expr, prop: string)          // obj.prop
    | ObjLit(props: seq<Property>)             // {k: v, ...}, always a fresh object
    | ArrLit(elems: seq<Expr>)                 // [e, ...], always a fresh array
    | Lit(text: string)                        // string or number literal
    | Call(callee: Expr, args: seq<Expr>)      // callee(args)
    | Assign(target: Expr, value: Expr)        // target = value
    | Delete(operand: Expr)                    // delete operand
    | Jsx(tag: string, children: seq<Expr>)    // <tag>...{child}...</tag>, the embedded expressions
    | Other                                    // any other node (function expressions included)

  datatype Property = Property(key: string, value: Expr)

  /** The left-hand side of a declaration. */
  datatype Pattern =
    | Name(name: string)                       // const x = ...
    | ObjectPattern(names: seq<string>)        // const {a, b} = ...
    | ArrayPattern(names: seq<string>)         // const [a, b] = ...

  datatype Stmt =
    | Decl(pattern: Pattern, init: Expr, loc: Loc)
    | ExprStmt(expr: Expr, loc: Loc)
    | Return(value: Expr, loc: Loc)

  /** A method of a class, or a function-valued property of a
      `React.createClass` specification object. */
  datatype Method = Method(name: string, body: seq<Stmt>)

  datatype Heritage = NoSuperClass | Extends(superClass: Expr)

  datatype Item =
    | CreateClass(name: string, methods: seq<Method>)                // var Name = React.createClass({...})
    | ClassDecl(name: string, heritage: Heritage, methods: seq<Method>) // class Name [extends E] {...}
    | TopLevel(stmt: Stmt)                                           // any other top-level statement

  type Program = seq<Item>

  /** The names a declaration pattern introduces. */
  function Names(p: Pattern): set<string>
  {
    match p
    case Name(x) => {x}
    case ObjectPattern(xs) => set x | x in xs
    case ArrayPattern(xs) => set x | x in xs
  }

  /** The root of taint: `this.props`. */
  const PropsRoot: Expr := Member(This, "props")

  /** `base.p1.p2...pn`: a member-access chain of the given path on `base`. */
  function Chain(base: Expr, path: seq<string>): Expr
  {
    if |path| == 0 then base
    else Member(Chain(base, path[..|path| - 1]), path[|path| - 1])
  }

  /** `this.props.p1...pn` */
  function PropsChain(path: seq<string>): Expr
  {
    Chain(PropsRoot, path)
  }

  /** `x.p1...pn` */
  function AliasChain(x: string, path: seq<string>): Expr
  {
    Chain(Ident(x), path)
  }
}
