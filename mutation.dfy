/** The bind rewriter of nestless.js (`mutation()`, nestless.js:296-564)
    and the driver that runs the analyzer, the rewriter and the emitter over
    one script (`rewrite`, nestless.js:740-772). The rewriter walks the
    statements with a stack of scopes (innermost first) and records patches:
    a bind statement `a, b <- f(x);` becomes `f(x, function (err, a, b) {
    if (err) return cb(err); ...` with the rest of the block moved into the
    callback, and `yield`, `return` and `throw` in a bound scope report
    through the callback. */
module Mutation {
  import opened Diagnostics
  import opened Syntax
  import opened Helpers
  import opened Patches
  import Analysis
  import Emit

  const FuncBindPrefix: string := "("
  const FuncBindSuffix: string := "}).bind(this)); "

  /** The boolean properties a scope object carries. */
  datatype Flag = CanYield | CanThrow | CanEscape | CannotBind | UsesThis | ReturnAfter

  /** `scopeInherited` (nestless.js:330): what a block copies from the
      scope around it. */
  const Inherited: set<Flag> := {CanYield, CanThrow, CanEscape, UsesThis}

  /** A scope: its nesting level, the callback parameter it reports
      through, the flags it has set, and the closing text queued for the
      end of its block (innermost closer first). */
  datatype Scope = Scope(level: int, callback: Option<string>, flags: set<Flag>, closes: seq<string>)

  /** The level of the innermost scope, 0 outside every scope. */
  function Level(stack: seq<Scope>): int {
    if stack == [] then 0 else stack[0].level
  }

  /** `flags` with each flag named in `extra` set as `extra` says. */
  function Override(flags: set<Flag>, extra: map<Flag, bool>): (r: set<Flag>)
    ensures forall f :: f in extra ==> (f in r <==> extra[f])
    ensures forall f :: f !in extra ==> (f in r <==> f in flags)
  {
    (flags - extra.Keys) + (set f | f in extra.Keys && extra[f])
  }

  /** The scope `block` pushes (nestless.js:335-343): one level deeper,
      with the enclosing callback, the inherited flags of the enclosing
      scope (never `cannotBind`, never `returnAfter`), overridden by
      `extra`. */
  function BlockScope(stack: seq<Scope>, extra: map<Flag, bool>): (s: Scope)
    ensures s.level == Level(stack) + 1 && s.closes == []
    ensures s.callback == if stack == [] then None else stack[0].callback
    ensures forall f :: f in extra ==> (f in s.flags <==> extra[f])
    ensures forall f :: f !in extra ==> (f in s.flags <==> stack != [] && f in Inherited && f in stack[0].flags)
  {
    var inherited := if stack == [] then {} else stack[0].flags * Inherited;
    Scope(Level(stack) + 1, if stack == [] then None else stack[0].callback, Override(inherited, extra), [])
  }

  /** The callback parameter of a function: its last parameter, when that
      passes the callback-name test (nestless.js:372-376). */
  function CallbackParam(params: seq<string>): (cb: Option<string>)
    ensures cb.Some? <==> params != [] && IsCallbackName(params[|params| - 1])
    ensures cb.Some? ==> cb.value == params[|params| - 1]
  {
    if params != [] && IsCallbackName(params[|params| - 1]) then Some(params[|params| - 1]) else None
  }

  /** The scope `mutateFunc` pushes (nestless.js:366-376): one level
      deeper, inheriting nothing; only `usesThis` may be set. */
  function FuncScope(stack: seq<Scope>, params: seq<string>, usesThis: bool): (s: Scope)
    ensures s.level == Level(stack) + 1 && s.closes == [] && s.callback == CallbackParam(params)
    ensures forall f :: f in s.flags <==> f == UsesThis && usesThis
  {
    Scope(Level(stack) + 1, CallbackParam(params), if usesThis then {UsesThis} else {}, [])
  }

  /** The checks and the scope update of a bind statement
      (nestless.js:483-495): binding needs a scope, one outside a switch
      case, with a callback; afterwards the scope may yield and throw
      through the callback but no longer break or continue. */
  function BindScope(stack: seq<Scope>): (r: Result<Scope>)
    ensures r.Ok? <==> stack != [] && CannotBind !in stack[0].flags && stack[0].callback.Some?
    ensures r.Err? ==> r.error.Nope?
    ensures r.Ok? ==> CanYield in r.value.flags && CanThrow in r.value.flags && CanEscape !in r.value.flags
    ensures r.Ok? ==> forall f :: f !in {CanYield, CanThrow, CanEscape} ==> (f in r.value.flags <==> f in stack[0].flags)
    ensures r.Ok? ==> r.value.(flags := stack[0].flags) == stack[0]
  {
    if stack == [] then Err(Nope("Can't bind in global scope; please wrap in {}s"))
    else if CannotBind in stack[0].flags then Err(Nope("Can't bind in a switch; please wrap in {}s"))
    else if stack[0].callback.None? then Err(Nope("Can't bind inside a function without a callback parameter"))
    else Ok(stack[0].(flags := stack[0].flags + {CanYield, CanThrow} - {CanEscape}))
  }

  /** BREAK and CONTINUE (nestless.js:461-465): allowed only where the
      innermost scope may escape. With no scope at all the JS reads a
      property of `undefined`, an internal error. */
  function EscapeCheck(stack: seq<Scope>, isBreak: bool): (r: Outcome)
    ensures r.Pass? <==> stack != [] && CanEscape in stack[0].flags
    ensures r.Fail? && stack != [] ==> r.error.Nope?
    ensures r.Fail? && stack == [] ==> r.error.Bug?
  {
    if stack == [] then Fail(Bug("No scope to escape from"))
    else if CanEscape in stack[0].flags then Pass
    else Fail(Nope(if isBreak then "Can't break after binding" else "Can't continue after binding"))
  }

  /** A binding scope's escape is closed: right after a bind, `break` and
      `continue` are user errors. */
  lemma BindForbidsEscape(stack: seq<Scope>, isBreak: bool)
    requires BindScope(stack).Ok?
    ensures EscapeCheck([BindScope(stack).value] + stack[1..], isBreak).Fail?
    ensures EscapeCheck([BindScope(stack).value] + stack[1..], isBreak).error.Nope?
  {
  }

  /** The last element of a non-empty list. */
  function Last(xs: seq<string>): string
    requires xs != []
  {
    xs[|xs| - 1]
  }

  /** `parts.join(sep)`. */
  function JoinWith(parts: seq<string>, sep: string): string
    decreases |parts|
  {
    if parts == [] then "" else if |parts| == 1 then parts[0] else parts[0] + sep + JoinWith(parts[1..], sep)
  }

  /** The text that replaces the tail of a bind statement
      (nestless.js:496-505): the opening of the callback function that
      receives `err` and the bound names, returning the error through
      `cb`; wrapped for `.bind(this)` when the scope uses `this`, and
      after a comma when the call already has arguments. */
  function Continuation(params: seq<string>, cb: string, captureThis: bool, hasArgs: bool): string {
    var opening := "function (" + JoinWith(["err"] + FilterUnderscores(params), ", ") + ") { if (err) return " + cb + "(err";
    var wrapped := if captureThis then FuncBindPrefix + opening else opening;
    if hasArgs then ", " + wrapped else wrapped
  }

  /** What closes a bind's callback at the end of its block. */
  function Closer(captureThis: bool): string {
    if captureThis then FuncBindSuffix else "}); "
  }

  /** A statement the rewriter treats as a bind. */
  predicate IsBind(node: Stmt) {
    node.kind.Semicolon? && SplitArrow(node.kind.expression).Ok? && SplitArrow(node.kind.expression).value.Some?
  }

  predicate IsEscape(node: Stmt) {
    node.kind.Break? || node.kind.Continue?
  }

  /** A `yield` may stand where the innermost scope has a callback and may
      yield through it (nestless.js:400-408). */
  predicate YieldAllowed(stack: seq<Scope>) {
    stack != [] && stack[0].callback.Some? && CanYield in stack[0].flags
  }

  /** A `yield` occurs in `e` where `mutateExpr` (nestless.js:388-416)
      meets it: along the child walk and the property values of an object
      literal, but not inside a nested function, which has a scope of its
      own. */
  ghost predicate HasYield(e: Expr)
    decreases e, 1
  {
    match e.kind
    case Yield(_) => true
    case Function(_) => false
    case ObjectInit(props) => PropsHaveYield(props)
    case _ => ChildrenHaveYield(e)
  }

  /** Some child of `e` has a `yield`. */
  ghost predicate ChildrenHaveYield(e: Expr)
    decreases e, 0
  {
    match e.kind
    case Comma(items) => AnyHasYield(items)
    case Less(l, r) => HasYield(l) || HasYield(r)
    case Negate(o) => HasYield(o)
    case Call(c, a) => HasYield(c) || HasYield(a)
    case List(items) => AnyHasYield(items)
    case ObjectInit(props) => AnyHasYield(props)
    case Operator(ops) => AnyHasYield(ops)
    case _ => false
  }

  ghost predicate AnyHasYield(es: seq<Expr>)
    decreases es, 2
  {
    exists k :: 0 <= k < |es| && HasYield(es[k])
  }

  /** A declarator's initializer, when present, has a `yield`. */
  ghost predicate InitHasYield(init: Option<Expr>) {
    init.Some? && HasYield(init.value)
  }

  /** Some property of an object literal has a child with a `yield`. */
  ghost predicate PropsHaveYield(props: seq<Expr>)
    decreases props, 2
  {
    exists k :: 0 <= k < |props| && ChildrenHaveYield(props[k])
  }

  lemma ChildrenHaveYieldIs(e: Expr)
    ensures ChildrenHaveYield(e) == AnyHasYield(Children(e))
  {
    match e.kind
    case Less(l, r) => assert [l, r][0] == l && [l, r][1] == r;
    case Call(c, a) => assert [c, a][0] == c && [c, a][1] == a;
    case Negate(o) => assert [o][0] == o;
    case _ =>
  }

  /** A statement that binds in the scope it runs in: a bind, or an IF
      branch or an unbraced loop body that does, since those run in the
      enclosing scope (nestless.js:429-441). */
  ghost predicate Binds(node: Stmt)
    decreases node
  {
    || IsBind(node)
    || (node.kind.If? && (Binds(node.kind.thenPart) || (node.kind.elsePart.Some? && Binds(node.kind.elsePart.value))))
    || (node.kind.Loop? && !node.kind.loopBody.kind.Block? && Binds(node.kind.loopBody))
  }

  /** Some statement before `i` binds. */
  ghost predicate BindsBefore(nodes: seq<Stmt>, i: int) {
    exists k :: 0 <= k < i && k < |nodes| && Binds(nodes[k])
  }

  /** Some statement of `nodes` that binds is followed, later in the same
      list, by a `break` or `continue`. */
  ghost predicate BindThenEscape(nodes: seq<Stmt>) {
    exists i, j :: 0 <= i < j < |nodes| && Binds(nodes[i]) && IsEscape(nodes[j])
  }

  /** A SWITCH case as the rewriter accepts it: a BLOCK none of whose
      statements binds, since a case's scope may not bind
      (nestless.js:443-446, 487-488). */
  ghost predicate CaseWithoutBind(c: Stmt) {
    c.kind.Block? && forall k :: 0 <= k < |c.kind.stmts| ==> !Binds(c.kind.stmts[k])
  }

  /** `s` and `t` agree on the flags a bind changes (nestless.js:492-494). */
  predicate SameEffects(s: Scope, t: Scope) {
    && (CanYield in s.flags <==> CanYield in t.flags)
    && (CanThrow in s.flags <==> CanThrow in t.flags)
    && (CanEscape in s.flags <==> CanEscape in t.flags)
  }

  /** A scope after a bind: it yields and throws through the callback and
      may no longer escape. */
  predicate Bound(s: Scope) {
    CanYield in s.flags && CanThrow in s.flags && CanEscape !in s.flags
  }

  /** `s` is `t` as far as statements can tell after it is pushed: the
      same level and callback, and the same `cannotBind` and `usesThis`. */
  predicate SameFrame(s: Scope, t: Scope) {
    && s.level == t.level && s.callback == t.callback
    && (CannotBind in s.flags <==> CannotBind in t.flags)
    && (UsesThis in s.flags <==> UsesThis in t.flags)
  }

  /** What the statements of one list ran under, in a scope that was `top`
      when the list started: each ran in a scope of the same frame; before
      the first statement that binds, with `top`'s bind-related flags; from
      then on, in a bound scope. Any statement that binds found `top`
      willing to bind. */
  ghost predicate RanUnder(nodes: seq<Stmt>, scopes: seq<Scope>, top: Scope) {
    && |scopes| == |nodes|
    && (forall k :: 0 <= k < |nodes| ==> SameFrame(scopes[k], top))
    && (forall k :: 0 <= k < |nodes| && !BindsBefore(nodes, k) ==> SameEffects(scopes[k], top))
    && (forall k :: 0 <= k < |nodes| && BindsBefore(nodes, k) ==> Bound(scopes[k]))
    && (forall k :: 0 <= k < |nodes| && Binds(nodes[k]) ==> top.callback.Some? && CannotBind !in top.flags)
  }

  /** What a statement may do to the stack: keep the enclosing scopes and
      the innermost one's level, callback, `cannotBind` and `usesThis`;
      never reopen an escape that a bind closed. */
  ghost predicate Kept(s0: seq<Scope>, s1: seq<Scope>) {
    && |s1| == |s0|
    && (s0 != [] ==>
          && s1[1..] == s0[1..]
          && s1[0].level == s0[0].level && s1[0].callback == s0[0].callback
          && (CannotBind in s1[0].flags <==> CannotBind in s0[0].flags)
          && (UsesThis in s1[0].flags <==> UsesThis in s0[0].flags)
          && (CanEscape in s1[0].flags ==> CanEscape in s0[0].flags))
  }

  /** Patches are never withdrawn: every replacement stays, and every
      insertion list only gets longer at its end. */
  ghost predicate Extends(r0: map<int, Replacement>, i0: map<int, seq<string>>,
                          r1: map<int, Replacement>, i1: map<int, seq<string>>) {
    && (forall p :: p in r0 ==> p in r1 && r1[p] == r0[p])
    && (forall p :: p in i0 ==> p in i1 && i0[p] <= i1[p])
  }

  /** The rewriter: the scope stack, the patch recorder, and the
      analyzer's annotations it reads (`astBlock`, `dead`, `funcExit`,
      `usesThis`). */
  class Rewriter {
    var stack: seq<Scope>
    const patches: Patches
    const notes: Analysis.State

    ghost predicate Valid()
      reads patches
    {
      patches.Valid()
    }

    /** The patches recorded since the start of the current call only
        add to the earlier ones. */
    twostate predicate Grew()
      reads patches
    {
      Extends(old(patches.replacements), old(patches.insertions), patches.replacements, patches.insertions)
    }

    constructor (notes: Analysis.State)
      ensures Valid() && stack == [] && this.notes == notes
      ensures fresh(patches) && patches.replacements == map[] && patches.insertions == map[]
    {
      stack := [];
      this.notes := notes;
      patches := new Patches();
    }

    /** Whether statement `node` was tagged with a dead block. */
    predicate Dead(node: Stmt) {
      node.id in notes.astBlock && notes.astBlock[node.id] in notes.dead
    }

    /** Whether the last statement of a block lies in a function's exit
      block, after which no `return; ` is added. */
    predicate EndsInFuncExit(nodes: seq<Stmt>) {
      nodes != [] && nodes[|nodes| - 1].id in notes.astBlock && notes.astBlock[nodes[|nodes| - 1].id] in notes.funcExit
    }

    /** `close` (nestless.js:326-328): queues `text` ahead of the innermost
        scope's other closers. */
    method Close(text: string)
      requires |stack| > 0
      modifies this
      ensures stack == [old(stack[0]).(closes := [text] + old(stack[0]).closes)] + old(stack[1..])
    {
      stack := [stack[0].(closes := [text] + stack[0].closes)] + stack[1..];
    }

    /** `block` (nestless.js:332-363): the statements of a BLOCK node in a
        scope of their own; at the end the scope's closers, and a final
        `return; ` when a return or throw was rewritten and the block does
        not end in a function exit, are inserted before the closing brace.
        The scope it pushes is the one it pops. */
    method Block(node: Stmt, extra: map<Flag, bool>) returns (r: Outcome, ghost scopes: seq<Scope>)
      requires Valid()
      modifies this, patches
      ensures Valid() && Grew()
      ensures r.Pass? ==> stack == old(stack)
      ensures !node.kind.Block? ==> r == Fail(Bug("That's no block!")) && unchanged(this, patches)
      ensures r.Pass? ==> node.kind.Block? && RanUnder(node.kind.stmts, scopes, BlockScope(old(stack), extra))
      decreases StmtSize(node), 1
    {
      scopes := [];
      if !node.kind.Block? {
        r := Fail(Bug("That's no block!"));
        return;
      }
      var outer := stack;
      stack := [BlockScope(outer, extra)] + outer;
      r, scopes := Stmts(node.kind.stmts);
      if r.Fail? {
        return;
      }
      var scope := stack[0];
      stack := stack[1..];
      var closes := scope.closes;
      if ReturnAfter in scope.flags && !EndsInFuncExit(node.kind.stmts) {
        closes := closes + ["return; "];
      }
      if closes != [] {
        r := patches.Insert(node.end - 1, Emit.Joined(closes));
      }
    }

    /** `mutateFunc` (nestless.js:365-386): the body of a function in a
        fresh scope whose callback is the last parameter when that looks
        like one; the scope's closers go before the closing brace. */
    method MutateFunc(f: Func) returns (r: Outcome, ghost scopes: seq<Scope>)
      requires Valid()
      modifies this, patches
      ensures Valid() && Grew()
      ensures r.Pass? ==> stack == old(stack)
      ensures r.Pass? ==> RanUnder(f.body, scopes, FuncScope(old(stack), f.params, f.id in notes.usesThis))
      ensures r.Pass? && (exists k :: 0 <= k < |f.body| && Binds(f.body[k])) ==> CallbackParam(f.params).Some?
      decreases FuncSize(f), 5
    {
      var outer := stack;
      stack := [FuncScope(outer, f.params, f.id in notes.usesThis)] + outer;
      r, scopes := Stmts(f.body);
      if r.Fail? {
        return;
      }
      var scope := stack[0];
      stack := stack[1..];
      if scope.closes != [] {
        r := patches.Insert(f.end - 1, Emit.Joined(scope.closes));
      }
    }

    /** `mutateExpr` (nestless.js:388-416): rewrites the functions nested
        in an expression and its `yield`s, which report through the
        callback and are errors outside a bound scope. */
    method MutateExpr(e: Expr) returns (r: Outcome)
      requires Valid()
      modifies this, patches
      ensures Valid() && Grew()
      ensures r.Pass? ==> stack == old(stack)
      ensures e.kind.Yield? && old(stack) == [] ==> r == Fail(Nope("Can't yield in global scope"))
      ensures e.kind.Yield? && old(stack) != [] && (old(stack)[0].callback.None? || CanYield !in old(stack)[0].flags) ==>
        r == Fail(Nope("Can't yield in non-bound scope"))
      ensures e.kind.Yield? && r.Pass? ==>
        && patches.replacements == old(patches.replacements)[e.start := Replacement(e.start + 6, old(stack)[0].callback.value + "(null, ")]
        && patches.insertions == old(patches.insertions)[e.kind.value.end := Queued(old(patches.insertions), e.kind.value.end) + [")"]]
      ensures HasYield(e) && !YieldAllowed(old(stack)) ==> r.Fail?
      decreases ExprSize(e), 0
    {
      match e.kind
      case ObjectInit(props) =>
        r := MutateProps(props);
      case Function(f) =>
        ghost var scopes;
        r, scopes := MutateFunc(f);
      case Yield(value) =>
        if stack == [] {
          return Fail(Nope("Can't yield in global scope"));
        }
        var scope := stack[0];
        if scope.callback.None? || CanYield !in scope.flags {
          return Fail(Nope("Can't yield in non-bound scope"));
        }
        r := patches.Replace(e.start, e.start + 6, scope.callback.value + "(null, ");
        if r.Fail? {
          return;
        }
        r := patches.Insert(value.end, ")");
      case _ =>
        ChildrenSmaller(e);
        ChildrenHaveYieldIs(e);
        r := MutateExprs(Children(e));
    }

    /** The property values of an object literal: `mutateExpr` on the
        children of each property, in order. */
    method MutateProps(props: seq<Expr>) returns (r: Outcome)
      requires Valid()
      modifies this, patches
      ensures Valid() && Grew()
      ensures r.Pass? ==> stack == old(stack)
      ensures PropsHaveYield(props) && !YieldAllowed(old(stack)) ==> r.Fail?
      decreases ExprsSize(props), 2
    {
      var i := 0;
      while i < |props|
        invariant 0 <= i <= |props| && Valid() && stack == old(stack) && Grew()
        invariant !YieldAllowed(old(stack)) ==> forall k :: 0 <= k < i ==> !ChildrenHaveYield(props[k])
      {
        ExprsSizeBound(props, i);
        ChildrenSmaller(props[i]);
        ChildrenHaveYieldIs(props[i]);
        r := MutateExprs(Children(props[i]));
        if r.Fail? {
          return;
        }
        i := i + 1;
      }
      r := Pass;
    }

    /** `mutateExpr` on each expression, in order. */
    method MutateExprs(es: seq<Expr>) returns (r: Outcome)
      requires Valid()
      modifies this, patches
      ensures Valid() && Grew()
      ensures r.Pass? ==> stack == old(stack)
      ensures AnyHasYield(es) && !YieldAllowed(old(stack)) ==> r.Fail?
      decreases ExprsSize(es), 1
    {
      var i := 0;
      while i < |es|
        invariant 0 <= i <= |es| && Valid() && stack == old(stack) && Grew()
        invariant !YieldAllowed(old(stack)) ==> forall k :: 0 <= k < i ==> !HasYield(es[k])
      {
        ExprsSizeBound(es, i);
        r := MutateExpr(es[i]);
        if r.Fail? {
          return;
        }
        i := i + 1;
      }
      r := Pass;
    }

    /** `stmt` (nestless.js:419-526) on one statement. A bind that fails
        the scope checks is a user error; after a bind, the innermost
        scope may no longer escape, and a `break` or `continue` passes only
        where it may. */
    method Stmt(node: Stmt) returns (r: Outcome)
      requires Valid()
      modifies this, patches
      ensures Valid() && Grew()
      ensures r.Pass? ==> Kept(old(stack), stack)
      ensures IsBind(node) && BindScope(old(stack)).Err? ==> r == Fail(BindScope(old(stack)).error)
      ensures r.Pass? && Binds(node) ==> BindScope(old(stack)).Ok? && stack != [] && Bound(stack[0])
      ensures r.Pass? && !Binds(node) && old(stack) != [] ==> stack != [] && SameEffects(stack[0], old(stack)[0])
      ensures IsEscape(node) ==> r == EscapeCheck(old(stack), node.kind.Break?)
      ensures node.kind.Unsupported? ==> r.Fail? && r.error.Bug?
      decreases StmtSize(node), 2
    {
      if node.kind.Block? {
        ghost var scopes;
        r, scopes := Block(node, map[]);
      } else if node.kind.If? {
        r := StmtIf(node);
      } else if node.kind.Loop? {
        ghost var bodyScopes;
        r, bodyScopes := StmtLoop(node);
      } else if node.kind.Switch? {
        r := StmtSwitch(node);
      } else if node.kind.Try? {
        ghost var tryScopes;
        r, tryScopes := StmtTry(node);
      } else {
        r := StmtSimple(node);
      }
    }

    /** `stmt` on a statement with no nested statements, and on a function
        declaration, whose body is a scope of its own. */
    method StmtSimple(node: Stmt) returns (r: Outcome)
      requires !node.kind.Block? && !node.kind.If? && !node.kind.Loop? && !node.kind.Switch? && !node.kind.Try?
      requires Valid()
      modifies this, patches
      ensures Valid() && Grew()
      ensures r.Pass? ==> Kept(old(stack), stack)
      ensures IsBind(node) && BindScope(old(stack)).Err? ==> r == Fail(BindScope(old(stack)).error)
      ensures r.Pass? && IsBind(node) ==> BindScope(old(stack)).Ok? && stack != [] && Bound(stack[0])
      ensures r.Pass? && !IsBind(node) && old(stack) != [] ==> stack != [] && SameEffects(stack[0], old(stack)[0])
      ensures IsEscape(node) ==> r == EscapeCheck(old(stack), node.kind.Break?)
      ensures node.kind.Unsupported? ==> r.Fail? && r.error.Bug?
      decreases StmtSize(node), 1
    {
      match node.kind
      case FunctionDecl(f) =>
        ghost var scopes;
        r, scopes := MutateFunc(f);
      case Break =>
        r := EscapeCheck(stack, true);
      case Continue =>
        r := EscapeCheck(stack, false);
      case Return(_) =>
        r := StmtReturn(node);
      case Semicolon(_) =>
        r := StmtSemicolon(node);
      case Throw(_) =>
        r := StmtThrow(node);
      case Var(_) =>
        r := StmtVar(node);
      case Unsupported =>
        r := Fail(Bug("Unexpected statement"));
    }

    /** IF: the branches, each in the enclosing scope; the condition is
        not rewritten. */
    method StmtIf(node: Stmt) returns (r: Outcome)
      requires node.kind.If? && Valid()
      modifies this, patches
      ensures Valid() && Grew()
      ensures r.Pass? ==> Kept(old(stack), stack)
      ensures r.Pass? && Binds(node) ==> BindScope(old(stack)).Ok? && stack != [] && Bound(stack[0])
      ensures r.Pass? && !Binds(node) && old(stack) != [] ==> stack != [] && SameEffects(stack[0], old(stack)[0])
      decreases StmtSize(node), 0
    {
      r := Stmt(node.kind.thenPart);
      if r.Fail? {
        return;
      }
      if node.kind.elsePart.Some? {
        r := Stmt(node.kind.elsePart.value);
      }
    }

    /** Loops: a block body is a scope that may break and continue; any
        other body is a statement of the enclosing scope. The header is not
        rewritten. */
    method StmtLoop(node: Stmt) returns (r: Outcome, ghost bodyScopes: seq<Scope>)
      requires node.kind.Loop? && Valid()
      modifies this, patches
      ensures Valid() && Grew()
      ensures r.Pass? ==> Kept(old(stack), stack)
      ensures r.Pass? && Binds(node) ==> BindScope(old(stack)).Ok? && stack != [] && Bound(stack[0])
      ensures r.Pass? && !Binds(node) && old(stack) != [] ==> stack != [] && SameEffects(stack[0], old(stack)[0])
      ensures r.Pass? && node.kind.loopBody.kind.Block? ==>
        var body := node.kind.loopBody.kind.stmts;
        |bodyScopes| == |body| && forall k :: 0 <= k < |body| && !BindsBefore(body, k) ==> CanEscape in bodyScopes[k].flags
      decreases StmtSize(node), 0
    {
      bodyScopes := [];
      if node.kind.loopBody.kind.Block? {
        r, bodyScopes := Block(node.kind.loopBody, map[CanEscape := true]);
      } else {
        r := Stmt(node.kind.loopBody);
      }
    }

    /** An expression statement: a bind when it has the arrow form, a
        malformed arrow an error, otherwise an expression to rewrite. */
    method StmtSemicolon(node: Stmt) returns (r: Outcome)
      requires node.kind.Semicolon? && Valid()
      modifies this, patches
      ensures Valid() && Grew()
      ensures r.Pass? ==> Kept(old(stack), stack)
      ensures SplitArrow(node.kind.expression).Err? ==> r == Fail(SplitArrow(node.kind.expression).error)
      ensures IsBind(node) && BindScope(old(stack)).Err? ==> r == Fail(BindScope(old(stack)).error)
      ensures r.Pass? && IsBind(node) ==> BindScope(old(stack)).Ok? && stack != [] && Bound(stack[0])
      ensures r.Pass? && !IsBind(node) ==> stack == old(stack)
      ensures SplitArrow(node.kind.expression) == Ok(None) && HasYield(node.kind.expression) && !YieldAllowed(old(stack)) ==>
        r.Fail?
      decreases StmtSize(node), 0
    {
      var arrow := SplitArrow(node.kind.expression);
      if arrow.Err? {
        r := Fail(arrow.error);
      } else if arrow.value.None? {
        r := MutateExpr(node.kind.expression);
      } else {
        r := StmtBind(node, arrow.value.value);
      }
    }

    /** VAR: the initializers that are present. */
    method StmtVar(node: Stmt) returns (r: Outcome)
      requires node.kind.Var? && Valid()
      modifies this, patches
      ensures Valid() && Grew()
      ensures r.Pass? ==> stack == old(stack)
      ensures !YieldAllowed(old(stack)) && (exists k :: 0 <= k < |node.kind.initializers| && InitHasYield(node.kind.initializers[k])) ==>
        r.Fail?
      decreases StmtSize(node), 0
    {
      var inits := node.kind.initializers;
      var i := 0;
      while i < |inits|
        invariant 0 <= i <= |inits| && Valid() && stack == old(stack) && Grew()
        invariant !YieldAllowed(old(stack)) ==> forall k :: 0 <= k < i ==> !InitHasYield(inits[k])
      {
        OptExprsSizeBound(inits, i);
        if inits[i].Some? {
          r := MutateExpr(inits[i].value);
          if r.Fail? {
            return;
          }
        }
        i := i + 1;
      }
      r := Pass;
    }

    /** SWITCH: each case in a block of its own that may escape but may
        not bind. */
    method StmtSwitch(node: Stmt) returns (r: Outcome)
      requires node.kind.Switch? && Valid()
      modifies this, patches
      ensures Valid() && Grew()
      ensures r.Pass? ==> stack == old(stack)
      ensures r.Pass? ==> forall i :: 0 <= i < |node.kind.cases| ==> CaseWithoutBind(node.kind.cases[i])
      decreases StmtSize(node), 0
    {
      var cases := node.kind.cases;
      var i := 0;
      while i < |cases|
        invariant 0 <= i <= |cases| && Valid() && stack == old(stack) && Grew()
        invariant forall j :: 0 <= j < i ==> CaseWithoutBind(cases[j])
      {
        StmtsSizeBound(cases, i);
        ghost var scopes;
        r, scopes := Block(cases[i], map[CanEscape := true, CannotBind := true]);
        if r.Fail? {
          return;
        }
        i := i + 1;
      }
      r := Pass;
    }

    /** TRY: the try block may not throw through the callback; the catch
        and finally blocks are plain blocks. */
    method StmtTry(node: Stmt) returns (r: Outcome, ghost tryScopes: seq<Scope>)
      requires node.kind.Try? && Valid()
      modifies this, patches
      ensures Valid() && Grew()
      ensures r.Pass? ==> stack == old(stack)
      ensures r.Pass? ==> node.kind.tryBlock.kind.Block?
      ensures r.Pass? ==>
        var body := node.kind.tryBlock.kind.stmts;
        |tryScopes| == |body| && forall k :: 0 <= k < |body| && !BindsBefore(body, k) ==> CanThrow !in tryScopes[k].flags
      decreases StmtSize(node), 0
    {
      r, tryScopes := Block(node.kind.tryBlock, map[CanThrow := false]);
      if r.Fail? {
        return;
      }
      var catches := node.kind.catchBlocks;
      var i := 0;
      while i < |catches|
        invariant 0 <= i <= |catches| && Valid() && stack == old(stack) && Grew()
      {
        StmtsSizeBound(catches, i);
        ghost var scopes;
        r, scopes := Block(catches[i], map[]);
        if r.Fail? {
          return;
        }
        i := i + 1;
      }
      if node.kind.finallyBlock.Some? {
        ghost var scopes;
        r, scopes := Block(node.kind.finallyBlock.value, map[]);
      } else {
        r := Pass;
      }
    }

    /** RETURN: an error outside every scope; in a bound scope, a returned
        value is passed to the callback as `cb(null, value)` and the block
        is marked to end in `return; `. */
    method StmtReturn(node: Stmt) returns (r: Outcome)
      requires node.kind.Return? && Valid()
      modifies this, patches
      ensures Valid() && Grew()
      ensures old(stack) == [] ==> r == Fail(Nope("Can't return in global scope"))
      ensures r.Pass? ==> Kept(old(stack), stack) && stack != []
      ensures r.Pass? && node.kind.value.Some? && old(stack)[0].callback.Some? && CanYield in old(stack)[0].flags ==>
        && stack == [old(stack)[0].(flags := old(stack)[0].flags + {ReturnAfter})] + old(stack)[1..]
        && node.start in patches.replacements
        && patches.replacements[node.start] == Replacement(node.start + 7, "return " + old(stack)[0].callback.value + "(null, ")
        && node.kind.value.value.end in patches.insertions
        && Last(patches.insertions[node.kind.value.value.end]) == ")"
      ensures r.Pass? && !(node.kind.value.Some? && old(stack)[0].callback.Some? && CanYield in old(stack)[0].flags) ==>
        stack == old(stack)
      ensures node.kind.value.Some? && HasYield(node.kind.value.value) && !YieldAllowed(old(stack)) ==> r.Fail?
      decreases StmtSize(node), 0
    {
      if stack == [] {
        return Fail(Nope("Can't return in global scope"));
      }
      if node.kind.value.None? {
        return Pass;
      }
      var value := node.kind.value.value;
      r := MutateExpr(value);
      if r.Fail? {
        return;
      }
      var scope := stack[0];
      if scope.callback.Some? && CanYield in scope.flags {
        r := patches.Replace(node.start, node.start + 7, "return " + scope.callback.value + "(null, ");
        if r.Fail? {
          return;
        }
        r := patches.Insert(value.end, ")");
        if r.Fail? {
          return;
        }
        stack := [scope.(flags := scope.flags + {ReturnAfter})] + stack[1..];
      }
    }

    /** THROW: left alone outside every scope; where the scope may throw
        through the callback, `throw e` becomes `return cb(e)` and the
        block is marked to end in `return; `. */
    method StmtThrow(node: Stmt) returns (r: Outcome)
      requires node.kind.Throw? && Valid()
      modifies this, patches
      ensures Valid() && Grew()
      ensures r.Pass? ==> Kept(old(stack), stack)
      ensures old(stack) != [] && old(stack)[0].callback.Some? && CanThrow in old(stack)[0].flags && r.Pass? ==>
        && stack == [old(stack)[0].(flags := old(stack)[0].flags + {ReturnAfter})] + old(stack)[1..]
        && patches.replacements == old(patches.replacements)[node.start := Replacement(node.start + 6, "return " + old(stack)[0].callback.value + "(")]
        && patches.insertions == old(patches.insertions)[node.kind.exception.end := Queued(old(patches.insertions), node.kind.exception.end) + [")"]]
      ensures !(old(stack) != [] && old(stack)[0].callback.Some? && CanThrow in old(stack)[0].flags) ==>
        r.Pass? && unchanged(this, patches)
      decreases StmtSize(node), 0
    {
      if stack == [] {
        return Pass;
      }
      var scope := stack[0];
      if scope.callback.Some? && CanThrow in scope.flags {
        r := patches.Replace(node.start, node.start + 6, "return " + scope.callback.value + "(");
        if r.Fail? {
          return;
        }
        r := patches.Insert(node.kind.exception.end, ")");
        if r.Fail? {
          return;
        }
        stack := [scope.(flags := scope.flags + {ReturnAfter})] + stack[1..];
      } else {
        r := Pass;
      }
    }

    /** A bind statement `params <- rhs(args);` (nestless.js:479-506):
        after the scope checks, the binder list and arrow are deleted, the
        call's closing is replaced by the opening of the callback function,
        and the callback's closer is queued for the end of the block. */
    method StmtBind(node: Stmt, arrow: Arrow) returns (r: Outcome)
      requires node.kind.Semicolon? && SplitArrow(node.kind.expression) == Ok(Some(arrow)) && Valid()
      modifies this, patches
      ensures Valid() && Grew()
      ensures BindScope(old(stack)).Err? ==> r == Fail(BindScope(old(stack)).error) && unchanged(this, patches)
      ensures r.Pass? ==> BindScope(old(stack)).Ok?
      ensures r.Pass? ==>
        var scope := BindScope(old(stack)).value;
        && stack == [scope.(closes := [Closer(UsesThis in scope.flags)] + scope.closes)] + old(stack)[1..]
        && patches.replacements == old(patches.replacements)[node.start := Replacement(arrow.rhs.start, "")]
             [arrow.argList.end := Replacement(node.end, Continuation(arrow.params, scope.callback.value,
                                                                     UsesThis in scope.flags, arrow.argList.kind.items != []))]
        && patches.insertions == old(patches.insertions)
      decreases StmtSize(node), 0
    {
      var bound := BindScope(stack);
      if bound.Err? {
        return Fail(bound.error);
      }
      var scope := bound.value;
      stack := [scope] + stack[1..];
      r := patches.Replace(node.start, arrow.rhs.start, "");
      if r.Fail? {
        return;
      }
      var captureThis := UsesThis in scope.flags;
      r := patches.Replace(arrow.argList.end, node.end,
                           Continuation(arrow.params, scope.callback.value, captureThis, arrow.argList.kind.items != []));
      if r.Fail? {
        return;
      }
      Close(Closer(captureThis));
    }

    /** The statements before `i` that lie in dead blocks are marked. */
    ghost predicate MarkedUpTo(ins: map<int, seq<string>>, nodes: seq<Stmt>, i: int) {
      forall k :: 0 <= k < i && k < |nodes| && Dead(nodes[k]) ==> Marked(ins, nodes[k].start)
    }

    /** Marks stay when the insertion lists only grow; the statement at `i`
        adds its own. */
    lemma MarksStay(i0: map<int, seq<string>>, i1: map<int, seq<string>>, nodes: seq<Stmt>, i: nat)
      requires forall q :: q in i0 ==> q in i1 && i0[q] <= i1[q]
      requires MarkedUpTo(i0, nodes, i) && i < |nodes|
      requires Dead(nodes[i]) ==> Marked(i1, nodes[i].start)
      ensures MarkedUpTo(i1, nodes, i + 1)
    {
      forall k | 0 <= k < i && Dead(nodes[k])
        ensures Marked(i1, nodes[k].start)
      {
        MarkedStays(i0, i1, nodes[k].start);
      }
    }

    /** One statement of `stmts` (nestless.js:531-534): a statement in a
        dead block is first marked with a `/* DEAD */ ` comment. */
    method Visit(node: Stmt) returns (r: Outcome)
      requires Valid()
      modifies this, patches
      ensures Valid() && Grew()
      ensures r.Pass? ==> Kept(old(stack), stack)
      ensures r.Pass? && IsEscape(node) ==> !Closed(old(stack))
      ensures r.Pass? && Binds(node) ==> BindScope(old(stack)).Ok? && stack != [] && Bound(stack[0])
      ensures r.Pass? && !Binds(node) && old(stack) != [] ==> stack != [] && SameEffects(stack[0], old(stack)[0])
      ensures r.Pass? && Dead(node) ==> Marked(patches.insertions, node.start)
      decreases StmtSize(node), 3
    {
      if Dead(node) {
        r := patches.Insert(node.start, DeadMark);
        if r.Fail? {
          return;
        }
      }
      ghost var marked := patches.insertions;
      r := Stmt(node);
      if r.Pass? && Dead(node) {
        MarkedStays(marked, patches.insertions, node.start);
      }
    }

    /** The walk over `nodes` has visited the first `i` statements,
        starting with the stack `top`: the stack is kept, a bind so far
        left the innermost scope bound and no bind has changed its flags
        otherwise, no escape followed a bind, every dead statement so far
        is marked, and `scopes` holds the innermost scope each statement
        ran under. */
    ghost predicate Walked(nodes: seq<Stmt>, i: nat, scopes: seq<Scope>, top: seq<Scope>, now: seq<Scope>, ins: map<int, seq<string>>) {
      && i <= |nodes| && |scopes| == i && Kept(top, now)
      && (BindsBefore(nodes, i) ==> now != [] && Bound(now[0]))
      && (!BindsBefore(nodes, i) && top != [] ==> now != [] && SameEffects(now[0], top[0]))
      && !BindThenEscape(nodes[..i])
      && MarkedUpTo(ins, nodes, i)
      && (top != [] ==> RanUnder(nodes[..i], scopes, top[0]))
    }

    /** Statement `i` of `stmts`, extending the walk by one. */
    method VisitAt(nodes: seq<Stmt>, i: nat, ghost scopes: seq<Scope>, ghost top: seq<Scope>) returns (r: Outcome, ghost scopes': seq<Scope>)
      requires Valid() && i < |nodes| && Walked(nodes, i, scopes, top, stack, patches.insertions)
      modifies this, patches
      ensures Valid() && Grew()
      ensures r.Pass? ==> Walked(nodes, i + 1, scopes', top, stack, patches.insertions)
      decreases StmtsSize(nodes), 4
    {
      StmtsSizeBound(nodes, i);
      ghost var before := patches.insertions;
      ghost var s0 := stack;
      scopes' := scopes + [if stack != [] then stack[0] else Scope(0, None, {}, [])];
      assert scopes'[..i] == scopes;
      r := Visit(nodes[i]);
      if r.Pass? {
        MarksStay(before, patches.insertions, nodes, i);
        RanUnderStep(nodes, i, scopes', top, s0);
        NoEscapeAfterBind(nodes, i);
      }
    }

    /** `stmts` (nestless.js:528-536): each statement in order, marking
        those in dead blocks. Within one list, no `break` or `continue`
        follows a statement that binds. */
    method Stmts(nodes: seq<Stmt>) returns (r: Outcome, ghost scopes: seq<Scope>)
      requires Valid()
      modifies this, patches
      ensures Valid() && Grew()
      ensures r.Pass? ==> Kept(old(stack), stack)
      ensures r.Pass? ==> !BindThenEscape(nodes)
      ensures r.Pass? ==> forall k :: 0 <= k < |nodes| && Dead(nodes[k]) ==> Marked(patches.insertions, nodes[k].start)
      ensures r.Pass? && old(stack) != [] ==> RanUnder(nodes, scopes, old(stack)[0])
      decreases StmtsSize(nodes), 5
    {
      scopes := [];
      var i := 0;
      while i < |nodes|
        invariant 0 <= i <= |nodes| && Valid() && Grew()
        invariant Walked(nodes, i, scopes, old(stack), stack, patches.insertions)
      {
        r, scopes := VisitAt(nodes, i, scopes, old(stack));
        if r.Fail? {
          return;
        }
        i := i + 1;
      }
      assert nodes[..i] == nodes;
      r := Pass;
    }
  }

  /** The comment that marks unreachable code. */
  const DeadMark: string := "/* DEAD */ "

  /** `DeadMark` is queued at `p`. */
  predicate Marked(ins: map<int, seq<string>>, p: int) {
    p in ins && DeadMark in ins[p]
  }

  /** Queued text stays queued when insertion lists only grow. */
  lemma MarkedStays(i0: map<int, seq<string>>, i1: map<int, seq<string>>, p: int)
    requires forall q :: q in i0 ==> q in i1 && i0[q] <= i1[q]
    requires Marked(i0, p)
    ensures Marked(i1, p)
  {
    var k :| 0 <= k < |i0[p]| && i0[p][k] == DeadMark;
    assert i1[p][k] == DeadMark;
  }

  /** The innermost scope may no longer break or continue. */
  predicate Closed(stack: seq<Scope>) {
    stack != [] && CanEscape !in stack[0].flags
  }

  /** Extending the list by one statement creates a bind-then-escape pair
      only if the new statement escapes after an earlier bind. */
  lemma NoEscapeAfterBind(nodes: seq<Stmt>, i: nat)
    requires i < |nodes| && !BindThenEscape(nodes[..i])
    requires BindsBefore(nodes, i) ==> !IsEscape(nodes[i])
    ensures !BindThenEscape(nodes[..i + 1])
    ensures BindsBefore(nodes, i + 1) == (BindsBefore(nodes, i) || Binds(nodes[i]))
  {
  }

  /** One more statement of a list: it ran under `s0[0]`, the innermost
      scope before it. */
  lemma RanUnderStep(nodes: seq<Stmt>, i: nat, scopes: seq<Scope>, top: seq<Scope>, s0: seq<Scope>)
    requires i < |nodes| && |scopes| == i + 1 && (s0 != [] ==> scopes[i] == s0[0])
    requires top != [] ==> RanUnder(nodes[..i], scopes[..i], top[0])
    requires Kept(top, s0)
    requires BindsBefore(nodes, i) ==> s0 != [] && Bound(s0[0])
    requires !BindsBefore(nodes, i) && top != [] ==> SameEffects(s0[0], top[0])
    requires Binds(nodes[i]) ==> BindScope(s0).Ok?
    ensures top != [] ==> RanUnder(nodes[..i + 1], scopes, top[0])
  {
    if top != [] {
      forall k | 0 <= k < i + 1
        ensures SameFrame(scopes[k], top[0])
        ensures !BindsBefore(nodes[..i + 1], k) ==> SameEffects(scopes[k], top[0])
        ensures BindsBefore(nodes[..i + 1], k) ==> Bound(scopes[k])
        ensures Binds(nodes[..i + 1][k]) ==> top[0].callback.Some? && CannotBind !in top[0].flags
      {
        if k < i {
          assert scopes[..i][k] == scopes[k] && nodes[..i][k] == nodes[..i + 1][k];
          assert BindsBefore(nodes[..i + 1], k) == BindsBefore(nodes[..i], k);
        } else {
          assert BindsBefore(nodes[..i + 1], k) == BindsBefore(nodes, i);
        }
      }
    }
  }

  /** `rewrite` (nestless.js:740-772) on a parsed script: the analyzer
      over the top-level statements, the rewriter over each of them
      outside any scope, then the emitter. The ghost `reps` and `ins` are
      the patches the rewriter recorded, which the recorder accepted; the
      output is what the emitter makes of them, so it has as many line
      breaks as the source, and a script that needed no patch comes back
      unchanged. */
  method Rewrite(src: string, nodes: seq<Stmt>) returns (r: Result<string>, ghost reps: map<int, Replacement>, ghost ins: map<int, seq<string>>)
    ensures r.Ok? ==> WellFormed(reps, ins) && r == Emit.Run(src, reps, ins, Emit.SortedPoints(Emit.PointSet(reps, ins)), 0)
    ensures r.Ok? ==> Emit.LineBreaks(r.value) == Emit.LineBreaks(src)
    ensures r.Ok? && reps == map[] && ins == map[] ==> r.value == src
  {
    reps, ins := map[], map[];
    var notes :- Analysis.Analyze(nodes);
    var rw := new Rewriter(notes);
    var i := 0;
    while i < |nodes|
      invariant 0 <= i <= |nodes| && rw.Valid() && fresh(rw.patches)
    {
      var step := rw.Stmt(nodes[i]);
      if step.Fail? {
        return Err(step.error), reps, ins;
      }
      i := i + 1;
    }
    reps, ins := rw.patches.replacements, rw.patches.insertions;
    assert Emit.Forward(reps);
    r := Emit.Emit(src, rw.patches.replacements, rw.patches.insertions);
    if r.Ok? {
      Emit.EmitKeepsLineBreaks(src, reps, ins);
      if reps == map[] && ins == map[] {
        Emit.EmitUnpatched(src);
      }
    }
  }
}
