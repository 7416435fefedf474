# no-mutation-props, modelled in Dafny

The `no-mutation-props` rule of eslint-plugin-react reports every statement
that writes into memory reachable from `this.props` inside a React
component. Components are `React.createClass({...})` specifications and
classes that extend `React.Component`. The rule's test table
(`tests/lib/rules/no-mutation-props.js`) fixes its behaviour: concrete
programs, and the exact diagnostics each one must produce. This project
models the detector that table describes. It proves general properties
of the detector, and it proves, case by case, that the detector gives
each program in the table exactly the diagnostics listed for it.

The model has five modules:

- `JsSyntax` (`syntax.dfy`): a hand-built syntax tree. It has
  expressions, declaration patterns (plain name, object destructuring,
  array destructuring), statements that carry their line and column,
  methods, and top-level items (a `React.createClass` specification, a
  class with optional `extends`, any other statement).
- `PropsTaint` (`taint.dfy`): the classifier and the binding table.
  `this.props` and any member chain on it are tainted. A name in the
  binding table is tainted, and so is any member chain on it. A
  declaration whose initializer is tainted adds every name its pattern
  introduces. Names are added and never removed.
- `MutationDetector` (`detector.dfy`): the detector walks each method
  body in source order and threads the binding table from statement to
  statement. For each mutating sub-expression of a statement it reports
  one diagnostic, at the statement's start. The mutating shapes are:
  - a member assignment or a `delete` whose object is tainted;
  - `push`, `pop`, `shift` or `unshift` called on a tainted receiver;
  - `Object.defineProperty` or `Object.assign` whose first argument is
    tainted.

  Each method starts with an empty binding table. Only components are
  checked.
- `DetectorProperties` (`properties.dfy`): properties that hold for
  every program.
- `RuleCases` (`cases.dfy`): every case of the test table as a syntax
  tree, each with a lemma stating its exact diagnostics.

## Model

| member | source | states |
|---|---|---|
| PropsTaint.Classify | tests/lib/rules/no-mutation-props.js:67-118 | the classifier: `this.props`, a bound alias, or a member chain on either is tainted, with its path; everything else is untainted. Its contract is stated by `PropsChainTainted`, `AliasChainTainted`, `ClassifySound`, `TaintedIff`, `UntaintedBaseChain` and `ClassifyMonotone` |
| PropsTaint.Bind | tests/lib/rules/no-mutation-props.js:272-309 | one statement's effect on the binding table: a declaration with a tainted initializer adds every name its pattern introduces. Stated by `BindMonotone` and, over whole bodies, `BindAllIff` |
| PropsTaint.BindAll | tests/lib/rules/no-mutation-props.js:272-309 | the binding table threaded through a body in source order. Stated by `BindAllIff`, `BindAllGrows` and `BindAllAppend` |
| MutationDetector.IsMutation | tests/lib/rules/no-mutation-props.js:200-387 | the flagged shapes: member assignment or `delete` on a tainted object, an array mutator on a tainted receiver, an `Object` mutator on a tainted first argument. Stated by `MemberAssignIff`, `DeleteIff`, `ArrayMutatorIff`, `ObjectMutatorIff` and `MutationMonotone` |
| MutationDetector.Sites | tests/lib/rules/no-mutation-props.js:121-387 | the mutating sub-expressions of an expression: exactly those of the pre-order walk `Subs` that are mutations, each once and in order. Stated by `SitesAreMutatingSubs`, `SitesIff` (both directions) and `SitesSound`, with `SitesMonotone` and `ChainSites` |
| MutationDetector.Report | tests/lib/rules/no-mutation-props.js:121-179 | one diagnostic per mutating sub-expression of a statement, all at the statement's start. Stated by `ReportPerMutation` and `DetectLocated` |
| MutationDetector.Detect | tests/lib/rules/no-mutation-props.js:121-387 | the diagnostics of a method body, each statement checked under the aliases of the statements before it. Stated by `DetectComplete` and `DetectSound` (a statement is reported exactly when it holds a mutation under those aliases), `DetectLocated`, `DetectInSourceOrder`, `DetectAppend`, `DetectMonotone` and `NoPropsNoDiagnostics` |
| MutationDetector.CheckMethods | tests/lib/rules/no-mutation-props.js:181-199 | every method of a component is checked, each starting with no aliases, in order. Stated by `CheckMethodsAppend`, `NoPropsMethodsSilent` and the `AliasInHelperReported` case |
| MutationDetector.CheckItem | tests/lib/rules/no-mutation-props.js:58-66 | only `React.createClass` specifications and classes extending `React.Component` are checked. Stated by `NonComponentSilent` |
| MutationDetector.CheckProgram | tests/lib/rules/no-mutation-props.js:29-407 | the diagnostics of a file, item by item in order. Stated by `CheckProgramAppend`, `NoPropsProgramSilent` and `NonComponentSilent` |
| PropsTaint.PropsChainTainted | tests/lib/rules/no-mutation-props.js:121-179 | `this.props` followed by any path, of any depth, is tainted, and it is classified with exactly that path |
| PropsTaint.AliasChainTainted | tests/lib/rules/no-mutation-props.js:181-198 | a member chain on a local name is tainted exactly when that name is in the binding table |
| PropsTaint.ClassifySound | tests/lib/rules/no-mutation-props.js:67-118 | whatever is classified as tainted is, literally, `this.props` or a tainted alias followed by the path the classification names |
| PropsTaint.TaintedIff | tests/lib/rules/no-mutation-props.js:67-118 | an expression is tainted if and only if it is a chain on `this.props` or a chain on a name in the binding table: taint has no other source |
| PropsTaint.UntaintedBaseChain | tests/lib/rules/no-mutation-props.js:41-50 | chains on an untainted base other than bare `this` (`obj.props`, `this.thing`, a fresh literal) are never tainted, at any depth |
| PropsTaint.ClassifyMonotone | tests/lib/rules/no-mutation-props.js:181-198 | adding aliases never un-taints an expression, nor changes what an already tainted expression is classified as |
| PropsTaint.BindAllIff | tests/lib/rules/no-mutation-props.js:272-309 | a name is an alias after a body exactly when it was one before, or some declaration of the body introduces it from an initializer tainted under the aliases of the statements before that declaration |
| PropsTaint.BindMonotone | tests/lib/rules/no-mutation-props.js:272-309 | a larger binding table before a statement gives a larger one after it |
| PropsTaint.BindAllGrows | tests/lib/rules/no-mutation-props.js:272-309 | a statement list only adds aliases, and each alias it adds is introduced by one of its declarations |
| PropsTaint.BindAllAppend | tests/lib/rules/no-mutation-props.js:272-309 | threading the binding table through `a + b` is threading it through `a`, then through `b` |
| MutationDetector.SitesSound | tests/lib/rules/no-mutation-props.js:121-387 | every reported site is a mutation of tainted memory, and a mutating expression is reported as its own first site |
| MutationDetector.SitesAreMutatingSubs | tests/lib/rules/no-mutation-props.js:121-387 | the reported sites of an expression are exactly its sub-expressions, in pre-order, that are mutations: a nested mutation is neither lost nor counted twice |
| MutationDetector.SitesOfAllAreMutatingSubs | tests/lib/rules/no-mutation-props.js:200-270 | the reported sites of an argument list are exactly the mutating sub-expressions of its arguments, in order |
| MutationDetector.PropertySitesAreMutatingSubs | tests/lib/rules/no-mutation-props.js:311-387 | the reported sites of an object literal's property values are exactly their mutating sub-expressions, in order |
| MutationDetector.SitesIff | tests/lib/rules/no-mutation-props.js:121-387 | an expression is a reported site of `e` if and only if it is a sub-expression of `e`, at any depth, that mutates tainted memory |
| MutationDetector.DetectLocated | tests/lib/rules/no-mutation-props.js:171-179 | every diagnostic carries the rule's one message and the line and column of a statement of the body |
| MutationDetector.ReportPerMutation | tests/lib/rules/no-mutation-props.js:121-179 | a statement gives as many diagnostics as its expression has mutating sub-expressions, every one at the statement's line and column |
| DetectorProperties.UnmentionedUntainted | tests/lib/rules/no-mutation-props.js:52-56 | with no aliases yet, an expression that does not mention `this.props` is untainted |
| DetectorProperties.NoPropsNoSites | tests/lib/rules/no-mutation-props.js:52-56 | an expression that does not mention `this.props`, checked with no aliases, has no mutation sites |
| DetectorProperties.NoPropsNoDiagnostics | tests/lib/rules/no-mutation-props.js:41-56 | a method body with no occurrence of `this.props` reports nothing |
| DetectorProperties.NoPropsProgramSilent | tests/lib/rules/no-mutation-props.js:52-56 | a file with no occurrence of `this.props` reports nothing |
| DetectorProperties.MutationMonotone | tests/lib/rules/no-mutation-props.js:181-198 | a mutation under some aliases stays a mutation under more aliases |
| DetectorProperties.SitesMonotone | tests/lib/rules/no-mutation-props.js:181-198 | more aliases never give an expression fewer mutation sites |
| DetectorProperties.DetectMonotone | tests/lib/rules/no-mutation-props.js:181-198 | more aliases at the start of a body never give fewer diagnostics |
| DetectorProperties.DetectAppend | tests/lib/rules/no-mutation-props.js:272-309 | checking `a + b` gives the diagnostics of `a`, then those of `b` checked against the aliases `a` leaves behind |
| DetectorProperties.DetectComplete | tests/lib/rules/no-mutation-props.js:272-310 | a statement containing, at any depth, an expression that mutates under the aliases the statements before it leave behind is reported at its start, wherever it sits in the body |
| DetectorProperties.DetectSound | tests/lib/rules/no-mutation-props.js:272-310 | conversely, every diagnostic of a body is the start of one of its statements that contains, at any depth, an expression mutating under the aliases the statements before it leave behind |
| DetectorProperties.DetectInSourceOrder | tests/lib/rules/no-mutation-props.js:161-179 | when the statements are in source order, the diagnostics are sorted by line, then column |
| DetectorProperties.ChainSites | tests/lib/rules/no-mutation-props.js:31-39 | member access adds no mutation sites to its base's |
| DetectorProperties.PropsChainHasNoSites | tests/lib/rules/no-mutation-props.js:31-39 | reading a chain on `this.props`, of any depth, reports nothing |
| DetectorProperties.AliasChainHasNoSites | tests/lib/rules/no-mutation-props.js:272-310 | reading a chain on a name, of any depth, reports nothing: only the mutation of an alias is reported |
| DetectorProperties.DeclarationFromChain | tests/lib/rules/no-mutation-props.js:181-198 | a declaration whose initializer is an access chain is never reported itself; unless the chain starts at bare `this`, it taints its names exactly when the chain's base is tainted, whatever the depth of the chain |
| DetectorProperties.DeclarationFromProps | tests/lib/rules/no-mutation-props.js:272-284 | `const <pattern> = this.props.p1...pn`, any depth and any pattern, is not reported and adds every name the pattern introduces to the aliases |
| DetectorProperties.MemberAssignIff | tests/lib/rules/no-mutation-props.js:121-179 | `obj.prop = v` reports one diagnostic at its start if `obj` is tainted, and none otherwise |
| DetectorProperties.AssignIntoPropsChain | tests/lib/rules/no-mutation-props.js:121-179 | assigning through `this.props.p1...pn`, n at least 1, reports exactly one diagnostic, at the statement |
| DetectorProperties.DeleteIff | tests/lib/rules/no-mutation-props.js:272-310 | `delete obj.prop` reports one diagnostic if `obj` is tainted, and none otherwise |
| DetectorProperties.ArrayMutatorIff | tests/lib/rules/no-mutation-props.js:200-270 | `recv.push/pop/shift/unshift(...)` reports one diagnostic if the receiver is tainted, and none otherwise |
| DetectorProperties.ObjectMutatorIff | tests/lib/rules/no-mutation-props.js:311-387 | `Object.defineProperty` / `Object.assign` reports one diagnostic if its first argument is tainted, and none otherwise, whatever the later arguments are |
| DetectorProperties.CheckMethodsAppend | tests/lib/rules/no-mutation-props.js:181-199 | the diagnostics of a method list `a + b` are those of `a`, then those of `b`: every method starts with an empty binding table, whatever the methods before it declared |
| DetectorProperties.CheckProgramAppend | tests/lib/rules/no-mutation-props.js:29-407 | the diagnostics of `a + b` are those of `a`, then those of `b` |
| DetectorProperties.NonComponentSilent | tests/lib/rules/no-mutation-props.js:58-66 | inserting a class that does not extend `React.Component` anywhere in a file, whatever its methods do, leaves the file's diagnostics unchanged |
| RuleCases.ReadInRenderSilent | tests/lib/rules/no-mutation-props.js:31-39 | rendering `{this.props.name}` reports nothing |
| RuleCases.LocalObjectPropsSilent | tests/lib/rules/no-mutation-props.js:40-50 | assigning into `obj.props.name` of a local object reports nothing |
| RuleCases.NoComponentSilent | tests/lib/rules/no-mutation-props.js:51-56 | a file with no component reports nothing |
| RuleCases.PlainClassSilent | tests/lib/rules/no-mutation-props.js:57-66 | `this.props.foo = 'bar'` in a plain `class Hello` reports nothing |
| RuleCases.PushOnUntaintedLines3To5 | tests/lib/rules/no-mutation-props.js:71-73 | destructuring from `this.thing`, then pushing onto the alias and onto `this.thing.list`, reports nothing and taints nothing |
| RuleCases.PushOnUntaintedLines6To9 | tests/lib/rules/no-mutation-props.js:74-77 | pushing onto `this.thing.foo.list` and onto a fresh `[]` reports nothing |
| RuleCases.PushOnUntaintedSilent | tests/lib/rules/no-mutation-props.js:67-81 | the whole untainted-`push` case reports nothing |
| RuleCases.DeleteOnUntaintedLines3To5 | tests/lib/rules/no-mutation-props.js:86-88 | deleting through an alias of `this.thing`, and through `this.thing.foo`, reports nothing |
| RuleCases.DeleteOnUntaintedSilent | tests/lib/rules/no-mutation-props.js:82-94 | the whole untainted-`delete` case reports nothing, including `delete` on a fresh `{a: 1}` |
| RuleCases.DefinePropertyOnUntaintedSilent | tests/lib/rules/no-mutation-props.js:95-105 | `Object.defineProperty` on a fresh `{}` and on `this.foo` reports nothing |
| RuleCases.AssignFromPropsLines3To4 | tests/lib/rules/no-mutation-props.js:110-111 | `const {foo} = this.props` taints `foo`; `Object.assign({}, foo, ...)` reports nothing |
| RuleCases.AssignFromPropsLines5To6 | tests/lib/rules/no-mutation-props.js:112-113 | `Object.assign` into `this.foo`, and into `{}` from `this.props`, reports nothing |
| RuleCases.AssignFromPropsLine6 | tests/lib/rules/no-mutation-props.js:113 | `Object.assign({}, this.props, {foo: 1})` reports nothing and binds nothing: a tainted source is not a mutation |
| RuleCases.AssignFromPropsLine7 | tests/lib/rules/no-mutation-props.js:114 | `Object.assign` into `{}` from `this.props.foo` reports nothing |
| RuleCases.AssignFromPropsSilent | tests/lib/rules/no-mutation-props.js:106-118 | the whole `Object.assign`-from-props case reports nothing |
| RuleCases.AssignDepth1Reported | tests/lib/rules/no-mutation-props.js:121-133 | `this.props.foo = "bar"` gives exactly one diagnostic, at line 3, column 5 |
| RuleCases.AssignDepth2Reported | tests/lib/rules/no-mutation-props.js:134-146 | `this.props.person.name = "bar"` gives exactly one diagnostic, at line 3, column 5 |
| RuleCases.AssignDepth3Reported | tests/lib/rules/no-mutation-props.js:147-159 | `this.props.person.name.first = "bar"` gives exactly one diagnostic, at line 3, column 5 |
| RuleCases.TwoAssignmentsReported | tests/lib/rules/no-mutation-props.js:160-180 | two such assignments give exactly two diagnostics, at (3, 5) and (4, 5), in that order |
| RuleCases.AliasInHelperReported | tests/lib/rules/no-mutation-props.js:181-199 | in a `helper` method, `foo.bar = 1` after `const {foo} = this.props` gives exactly one diagnostic, at (4, 5); `render` gives none |
| RuleCases.ArrayMutationsLines3To6 | tests/lib/rules/no-mutation-props.js:204-207 | after `const {list} = this.props`, `list.push/pop/shift` give one diagnostic each, at lines 4 to 6 |
| RuleCases.ArrayMutationsLines7To10 | tests/lib/rules/no-mutation-props.js:208-211 | `list.unshift` and `this.props.foo.push/pop/shift` give one diagnostic each, at lines 7 to 10 |
| RuleCases.ArrayMutationsLines11To14 | tests/lib/rules/no-mutation-props.js:212-215 | `this.props.foo.unshift` and `this.props.foo.list.push/pop/shift` give one diagnostic each, at lines 11 to 14 |
| RuleCases.ArrayMutationsLines15To16 | tests/lib/rules/no-mutation-props.js:216-217 | `this.props.foo.list.unshift` gives one diagnostic at line 15; the `return` gives none |
| RuleCases.ArrayMutationsReported | tests/lib/rules/no-mutation-props.js:200-271 | the whole array-mutator case gives exactly twelve diagnostics, at lines 4 to 15, column 5, in order |
| RuleCases.DeletionsLines3To5 | tests/lib/rules/no-mutation-props.js:276-278 | `delete foo.bar` on an alias gives one diagnostic at (4, 5); the declarations taint `foo` and `bar` without being reported |
| RuleCases.DeletionsLines6To8 | tests/lib/rules/no-mutation-props.js:279-281 | `delete bar.baz` and `delete baz.a` on aliases give diagnostics at (6, 5) and (8, 5); `const baz = this.props.baz` taints `baz` |
| RuleCases.DeletionsLines9To11 | tests/lib/rules/no-mutation-props.js:282-284 | `delete this.props.foo` and `delete this.props.foo.bar` give diagnostics at (9, 5) and (10, 5) |
| RuleCases.DeletionsReported | tests/lib/rules/no-mutation-props.js:272-310 | the whole `delete` case gives exactly five diagnostics, at lines 4, 6, 8, 9 and 10, column 5, in order |
| RuleCases.DefinePropertiesLines3To5 | tests/lib/rules/no-mutation-props.js:315-317 | `Object.defineProperty(foo, ...)` on an alias gives one diagnostic at (4, 5) |
| RuleCases.DefinePropertiesLines6To8 | tests/lib/rules/no-mutation-props.js:318-320 | `Object.defineProperty` on the aliases `bar` and `baz` gives diagnostics at (6, 5) and (8, 5) |
| RuleCases.DefinePropertiesLines9To11 | tests/lib/rules/no-mutation-props.js:321-323 | `Object.defineProperty` on `this.props` and on `this.props.foo` gives diagnostics at (9, 5) and (10, 5) |
| RuleCases.DefinePropertiesReported | tests/lib/rules/no-mutation-props.js:311-349 | the whole `Object.defineProperty` case gives exactly five diagnostics, at lines 4, 6, 8, 9 and 10, column 5, in order |
| RuleCases.AssignsIntoLines3To5 | tests/lib/rules/no-mutation-props.js:354-356 | `Object.assign(foo, ...)` on an alias gives one diagnostic at (4, 5) |
| RuleCases.AssignsIntoLines6To8 | tests/lib/rules/no-mutation-props.js:357-359 | `Object.assign` into the aliases `bar` and `baz` gives diagnostics at (6, 5) and (8, 5) |
| RuleCases.AssignsIntoLines9To11 | tests/lib/rules/no-mutation-props.js:360-362 | `Object.assign` into `this.props` and into `this.props.baz` gives diagnostics at (9, 5) and (10, 5) |
| RuleCases.AssignsIntoReported | tests/lib/rules/no-mutation-props.js:350-388 | the whole `Object.assign`-into case gives exactly five diagnostics, at lines 4, 6, 8, 9 and 10, column 5, in order |
| RuleCases.ThisAliasNotDetected | tests/lib/rules/no-mutation-props.js:389-405 | `var that = this; that.props.person.name.first = "bar"` reports nothing: aliasing `this` itself is not tracked |

## Left out

- Parsing. ESLint's `RuleTester`, the parser options, `babel-eslint` and JSX parsing (tests/lib/rules/no-mutation-props.js:12-21) are foreign tooling. Each case is written as a syntax tree by hand, with the line and column of every statement copied from its source text.
- The rule's registration with ESLint is host wiring and is not modelled. The rule implementation `lib/rules/no-mutation-props.js` is not part of this model. Only the behaviour the test table fixes is modelled.
- Nested function scopes. Function expressions and any other syntax the cases do not use are the opaque `Other` node, which is neither classified nor walked.
- Re-assignment and shadowing. Aliases are only ever added, so a later `foo = {}` or an inner declaration does not un-taint a name. No case exercises either.
- Array methods other than `push`, `pop`, `shift` and `unshift` (`splice`, `sort`, `reverse`, ...) are not flagged, because no case shows what the rule does with them.
- `this.props = v` (assigning `this.props` itself) is not flagged. The object of that assignment is `this`, which is not tainted, and no case covers it.
- Diagnostics carry the message, line and column that the cases check. Any further fields of an ESLint report are not modelled.
- Other kinds of component. The case at tests/lib/rules/no-mutation-props.js:58-66 expects a plain `class Hello` that assigns `this.props.foo` to report nothing, so the model checks only `React.createClass` specifications and classes extending `React.Component`. Other ways of writing a component (a class extending a bare `Component`, `React.PureComponent`, a function component) appear in no case and are not checked.
