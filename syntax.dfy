/** The positioned syntax tree the Narcissus parser hands to nestless.js, cut
    down to the node kinds the analyzer and the rewriter distinguish.
    Statement and function nodes carry an `id`: the JS passes hang
    annotations (`astBlock`, `usesThis`, `exitBlocks`) on node objects, and
    the model keeps those in side tables keyed by this identity. */
module Syntax {
  import opened Diagnostics

  /** An expression node with its source offsets. */
  datatype Expr = Expr(kind: ExprKind, start: nat, end: nat)

  datatype ExprKind =
    | Identifier(name: string)
    | This
    | Comma(items: seq<Expr>)            // COMMA
    | Less(left: Expr, right: Expr)      // LT
    | Negate(operand: Expr)              // UNARY_MINUS
    | Call(callee: Expr, args: Expr)     // CALL, whose children are [callee, argument list]
    | List(items: seq<Expr>)             // LIST, the argument list of a call
    | ObjectInit(props: seq<Expr>)       // OBJECT_INIT, children are PROPERTY_INIT nodes
    | Function(f: Func)                  // FUNCTION used as an expression
    | Yield(value: Expr)                 // YIELD; the operand is a property, not a child
    | Operator(operands: seq<Expr>)      // every other expression kind: only its children matter

  /** A statement node with its source offsets. */
  datatype Stmt = Stmt(id: nat, kind: StmtKind, start: nat, end: nat)

  datatype StmtKind =
    | Block(stmts: seq<Stmt>)
    | If(condition: Expr, thenPart: Stmt, elsePart: Option<Stmt>)
    | Loop(header: seq<Expr>, loopBody: Stmt)         // DO, FOR, FOR_IN, WHILE
    | Switch(discriminant: Expr, cases: seq<Stmt>)  // each case's `statements` node
    | Try(tryBlock: Stmt, catchBlocks: seq<Stmt>, finallyBlock: Option<Stmt>)
    | FunctionDecl(f: Func)
    | Break
    | Continue
    | Return(value: Option<Expr>)
    | Semicolon(expression: Expr)                   // an expression statement
    | Throw(exception: Expr)
    | Var(initializers: seq<Option<Expr>>)
    | Unsupported                                   // any other statement kind

  /** A function (declaration or expression): parameter names, whether the
      body is wrapped in a GENERATOR node, the body's statements, and the
      offset just past its closing brace. */
  datatype Func = Func(id: nat, params: seq<string>, generator: bool, body: seq<Stmt>, end: nat)

  /** The child list the JS default case walks (`node.children`). */
  function Children(e: Expr): (cs: seq<Expr>)
    ensures forall c :: c in cs ==> c < e
  {
    match e.kind
    case Identifier(_) => []
    case This => []
    case Comma(items) => items
    case Less(l, r) => [l, r]
    case Negate(o) => [o]
    case Call(c, a) => [c, a]
    case List(items) => items
    case ObjectInit(props) => props
    case Function(_) => []
    case Yield(_) => []
    case Operator(ops) => ops
  }

  // Sizes: the termination measure for the tree walks of both passes.

  function ExprSize(e: Expr): (n: nat)
    ensures n >= 1
    decreases e
  {
    match e.kind
    case Identifier(_) => 1
    case This => 1
    case Comma(items) => 1 + ExprsSize(items)
    case Less(l, r) => 1 + ExprSize(l) + ExprSize(r)
    case Negate(o) => 1 + ExprSize(o)
    case Call(c, a) => 1 + ExprSize(c) + ExprSize(a)
    case List(items) => 1 + ExprsSize(items)
    case ObjectInit(props) => 1 + ExprsSize(props)
    case Function(f) => 1 + FuncSize(f)
    case Yield(v) => 1 + ExprSize(v)
    case Operator(ops) => 1 + ExprsSize(ops)
  }

  function ExprsSize(es: seq<Expr>): nat
    decreases es
  {
    if es == [] then 0 else ExprSize(es[0]) + ExprsSize(es[1..])
  }

  lemma ChildrenSmaller(e: Expr)
    ensures ExprsSize(Children(e)) < ExprSize(e)
  {
    match e.kind
    case Less(l, r) =>
      assert [l, r][1..] == [r] && [r][1..] == [];
      assert ExprsSize([r]) == ExprSize(r);
    case Call(c, a) =>
      assert [c, a][1..] == [a] && [a][1..] == [];
      assert ExprsSize([a]) == ExprSize(a);
    case Negate(o) => assert [o][1..] == [];
    case _ =>
  }

  function OptExprSize(e: Option<Expr>): nat {
    match e
    case None => 0
    case Some(x) => ExprSize(x)
  }

  function OptExprsSize(es: seq<Option<Expr>>): nat {
    if es == [] then 0 else OptExprSize(es[0]) + OptExprsSize(es[1..])
  }

  function FuncSize(f: Func): nat
    decreases f
  {
    1 + StmtsSize(f.body)
  }

  function StmtSize(s: Stmt): (n: nat)
    ensures n >= 1
    decreases s
  {
    match s.kind
    case Block(body) => 1 + StmtsSize(body)
    case If(c, t, e) => 1 + ExprSize(c) + StmtSize(t) + (if e.Some? then StmtSize(e.value) else 0)
    case Loop(h, b) => 1 + ExprsSize(h) + StmtSize(b)
    case Switch(d, cases) => 1 + ExprSize(d) + StmtsSize(cases)
    case Try(t, cs, fin) => 1 + StmtSize(t) + StmtsSize(cs) + (if fin.Some? then StmtSize(fin.value) else 0)
    case FunctionDecl(f) => 1 + FuncSize(f)
    case Return(v) => 1 + (if v.Some? then ExprSize(v.value) else 0)
    case Semicolon(e) => 1 + ExprSize(e)
    case Throw(e) => 1 + ExprSize(e)
    case Var(inits) => 1 + OptExprsSize(inits)
    case _ => 1
  }

  function StmtsSize(ss: seq<Stmt>): nat
    decreases ss
  {
    if ss == [] then 0 else StmtSize(ss[0]) + StmtsSize(ss[1..])
  }

  lemma {:induction false} StmtsSizeBound(ss: seq<Stmt>, i: nat)
    requires i < |ss|
    ensures StmtSize(ss[i]) <= StmtsSize(ss)
  {
    if i > 0 { StmtsSizeBound(ss[1..], i - 1); }
  }

  lemma {:induction false} ExprsSizeBound(es: seq<Expr>, i: nat)
    requires i < |es|
    ensures ExprSize(es[i]) <= ExprsSize(es)
  {
    if i > 0 { ExprsSizeBound(es[1..], i - 1); }
  }

  lemma {:induction false} OptExprsSizeBound(es: seq<Option<Expr>>, i: nat)
    requires i < |es|
    ensures OptExprSize(es[i]) <= OptExprsSize(es)
  {
    if i > 0 { OptExprsSizeBound(es[1..], i - 1); }
  }

  // Identities: the ids of the statements and functions inside a node.
  // The analyzer's side tables change only at the ids of the subtree it
  // walks, and these sets say which ids those are.

  ghost function ExprIds(e: Expr): set<nat>
    decreases ExprSize(e), 0
  {
    match e.kind
    case Identifier(_) => {}
    case This => {}
    case Comma(items) => ExprsIds(items)
    case Less(l, r) => ExprIds(l) + ExprIds(r)
    case Negate(o) => ExprIds(o)
    case Call(c, a) => ExprIds(c) + ExprIds(a)
    case List(items) => ExprsIds(items)
    case ObjectInit(props) => ExprsIds(props)
    case Function(f) => FuncIds(f)
    case Yield(v) => ExprIds(v)
    case Operator(ops) => ExprsIds(ops)
  }

  ghost function ExprsIds(es: seq<Expr>): set<nat>
    decreases ExprsSize(es), 1
  {
    if es == [] then {} else ExprIds(es[0]) + ExprsIds(es[1..])
  }

  ghost function OptExprsIds(es: seq<Option<Expr>>): set<nat>
    decreases OptExprsSize(es), 1, |es|
  {
    if es == [] then {}
    else
      assert OptExprSize(es[0]) <= OptExprsSize(es);
      (if es[0].Some? then ExprIds(es[0].value) else {}) + OptExprsIds(es[1..])
  }

  /** The function's own id and the ids inside its body. */
  ghost function FuncIds(f: Func): set<nat>
    decreases FuncSize(f), 2
  {
    {f.id} + StmtsIds(f.body)
  }

  /** The ids strictly inside statement `s`. */
  ghost function InnerIds(s: Stmt): set<nat>
    decreases StmtSize(s), 3
  {
    match s.kind
    case Block(body) => StmtsIds(body)
    case If(c, t, e) => ExprIds(c) + StmtIds(t) + (if e.Some? then StmtIds(e.value) else {})
    case Loop(h, b) => ExprsIds(h) + StmtIds(b)
    case Switch(d, cases) => ExprIds(d) + StmtsIds(cases)
    case Try(t, cs, fin) => StmtIds(t) + StmtsIds(cs) + (if fin.Some? then StmtIds(fin.value) else {})
    case FunctionDecl(f) => FuncIds(f)
    case Return(v) => if v.Some? then ExprIds(v.value) else {}
    case Semicolon(e) => ExprIds(e)
    case Throw(e) => ExprIds(e)
    case Var(inits) => OptExprsIds(inits)
    case _ => {}
  }

  ghost function StmtIds(s: Stmt): set<nat>
    decreases StmtSize(s), 4
  {
    {s.id} + InnerIds(s)
  }

  ghost function StmtsIds(ss: seq<Stmt>): set<nat>
    decreases StmtsSize(ss), 5
  {
    if ss == [] then {} else StmtIds(ss[0]) + StmtsIds(ss[1..])
  }

  /** The statements of one list have identities of their own: no
      statement's id occurs inside it or inside another statement of the
      list. Node identity in the JS is object identity, so a parsed tree
      always has this property. */
  ghost predicate DistinctIds(nodes: seq<Stmt>) {
    && (forall k :: 0 <= k < |nodes| ==> nodes[k].id !in InnerIds(nodes[k]))
    && (forall j, k :: 0 <= j < |nodes| && 0 <= k < |nodes| && j != k ==> nodes[j].id !in StmtIds(nodes[k]))
  }

  lemma {:induction false} StmtsIdsAt(ss: seq<Stmt>, i: nat)
    requires i < |ss|
    ensures StmtIds(ss[i]) <= StmtsIds(ss)
  {
    if i > 0 { StmtsIdsAt(ss[1..], i - 1); }
  }

  lemma {:induction false} ExprsIdsAt(es: seq<Expr>, i: nat)
    requires i < |es|
    ensures ExprIds(es[i]) <= ExprsIds(es)
  {
    if i > 0 { ExprsIdsAt(es[1..], i - 1); }
  }

  lemma {:induction false} OptExprsIdsAt(es: seq<Option<Expr>>, i: nat)
    requires i < |es| && es[i].Some?
    ensures ExprIds(es[i].value) <= OptExprsIds(es)
  {
    if i > 0 { OptExprsIdsAt(es[1..], i - 1); }
  }

  /** The child walk stays inside the expression's ids. */
  lemma ChildrenIds(e: Expr)
    ensures ExprsIds(Children(e)) <= ExprIds(e)
  {
    match e.kind
    case Less(l, r) =>
      assert [l, r][1..] == [r] && [r][1..] == [];
      assert ExprsIds([r]) == ExprIds(r);
    case Call(c, a) =>
      assert [c, a][1..] == [a] && [a][1..] == [];
      assert ExprsIds([a]) == ExprIds(a);
    case Negate(o) =>
      assert [o][1..] == [];
      assert ExprsIds([o]) == ExprIds(o);
    case _ =>
  }
}
