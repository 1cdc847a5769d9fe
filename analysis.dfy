/** The control-flow analyzer of nestless.js (`analysis()`,
    nestless.js:19-292). It cuts every function body into basic blocks,
    links them by `exits`/`entrances` edges, and tags each statement with
    the block it lies in (`astBlock`), so that the rewriter can tell dead
    statements and function exits apart. Blocks live in an arena indexed by
    their `index` (the JS `blockCtr`); the per-node annotations the JS hangs
    on syntax nodes are side tables keyed by node identity. */
module Analysis {
  import opened Diagnostics
  import opened Syntax
  import opened Helpers

  /** The level a `break` outside any loop or switch defers to: the JS
      reads `escapeLevels[0]` of an empty list and files the block under
      the key "undefined", which no scope ever consumes. */
  const NoEscape: int := -1

  /** The blocks deferred to `level` so far. */
  function Deferred(defers: map<int, seq<nat>>, level: int): seq<nat> {
    if level in defers then defers[level] else []
  }

  /** `addExit` keeps the two edge lists mirror images: `b` occurs in the
      exits of `a` as often as `a` occurs in the entrances of `b`. */
  ghost predicate Mirror(exits: seq<seq<nat>>, entrances: seq<seq<nat>>)
    requires |exits| == |entrances|
  {
    forall a, b {:trigger multiset(exits[a])[b], multiset(entrances[b])[a]} :: 0 <= a < |exits| && 0 <= b < |exits| ==> multiset(exits[a])[b] == multiset(entrances[b])[a]
  }

  /** Every edge runs from an older block to a newer one. */
  ghost predicate Forward(exits: seq<seq<nat>>, entrances: seq<seq<nat>>)
    requires |exits| == |entrances|
  {
    && (forall j, k :: 0 <= j < |exits| && 0 <= k < |exits[j]| ==> j < exits[j][k] < |exits|)
    && (forall j, k :: 0 <= j < |entrances| && 0 <= k < |entrances[j]| ==> entrances[j][k] < j)
  }

  lemma MirrorAddEdge(exits: seq<seq<nat>>, entrances: seq<seq<nat>>, from: nat, to: nat)
    requires |exits| == |entrances| && from < |exits| && to < |exits|
    requires Mirror(exits, entrances)
    ensures Mirror(exits[from := exits[from] + [to]], entrances[to := entrances[to] + [from]])
  {
    var ex := exits[from := exits[from] + [to]];
    var en := entrances[to := entrances[to] + [from]];
    forall a, b | 0 <= a < |ex| && 0 <= b < |ex|
      ensures multiset(ex[a])[b] == multiset(en[b])[a]
    {
      assert multiset(ex[a])[b] == multiset(exits[a])[b] + (if a == from && b == to then 1 else 0);
      assert multiset(en[b])[a] == multiset(entrances[b])[a] + (if a == from && b == to then 1 else 0);
    }
  }

  lemma MirrorGrow(exits: seq<seq<nat>>, entrances: seq<seq<nat>>)
    requires |exits| == |entrances| && Forward(exits, entrances) && Mirror(exits, entrances)
    ensures Mirror(exits + [[]], entrances + [[]])
  {
    var n := |exits|;
    var ex := exits + [[]];
    var en := entrances + [[]];
    forall a, b | 0 <= a < |ex| && 0 <= b < |ex|
      ensures multiset(ex[a])[b] == multiset(en[b])[a]
    {
      if a == n && b < n {
        assert n !in entrances[b];
      } else if b == n && a < n {
        assert n !in exits[a];
      }
    }
  }

  /** The least bound above every element of `ws` (0 for none): the
      measure that shrinks as the worklist of `blocksNeedingExit` walks
      edges backwards. */
  function Bound(ws: seq<nat>): (m: nat)
    ensures forall k :: 0 <= k < |ws| ==> ws[k] < m
    ensures ws != [] ==> m > 0
  {
    if ws == [] then 0
    else
      var rest := Bound(ws[1..]);
      assert forall k :: 1 <= k < |ws| ==> ws[k] == ws[1..][k - 1];
      if ws[0] + 1 > rest then ws[0] + 1 else rest
  }

  lemma {:induction false} BoundAtMost(ws: seq<nat>, m: nat)
    requires forall k :: 0 <= k < |ws| ==> ws[k] < m
    ensures Bound(ws) <= m
  {
    if ws != [] {
      BoundAtMost(ws[1..], m);
    }
  }

  /** The analyzer's state, the variables the `analysis()` closure keeps:
      - the block arena: block `b`, for `b < blockCount` (the JS
        `blockCtr`), has the edges `exits[b]` and `entrances[b]`, and each
        flag the JS sets on blocks is the set of blocks carrying it
        (`returned` is the JS `returns`);
      - the walk's position: the block stack (innermost first), the blocks
        deferred to each nesting level, the level, the levels of the
        enclosing loops and switches (innermost first), the enclosing
        function;
      - the annotations it leaves on the tree: statement id to its block,
        function id to its entry block and to its exit blocks, and the
        functions that mention `this`. */
  datatype State = State(
    blockCount: nat, exits: seq<seq<nat>>, entrances: seq<seq<nat>>,
    over: set<nat>, dead: set<nat>, returned: set<nat>, breaks: set<nat>,
    funcEntry: set<nat>, funcExit: set<nat>, hasStmts: set<nat>, braceless: set<nat>,
    stack: seq<nat>, defers: map<int, seq<nat>>, curLevel: int, escapeLevels: seq<int>, curFunc: Option<nat>,
    astBlock: map<nat, nat>, entryBlock: map<nat, nat>, exitBlocks: map<nat, seq<nat>>, usesThis: set<nat>)

  /** The state `analysis()` starts from. */
  const Start := State(0, [], [], {}, {}, {}, {}, {}, {}, {}, {}, [], map[], 0, [], None, map[], map[], map[], {})

  /** The arena's edges mirror each other and run forwards, and every
      block index the state holds is a block of the arena; every tagged
      statement's block holds statements. Each conjunct reads only the
      fields it is about. */
  ghost predicate Valid(st: State) {
    && Arena(st.blockCount, st.exits, st.entrances)
    && Below(st.stack, st.blockCount)
    && DefersBelow(st.defers, st.blockCount)
    && TagsHold(st.astBlock, st.hasStmts)
    && EntriesBelow(st.entryBlock, st.blockCount)
    && ExitListsBelow(st.exitBlocks, st.blockCount)
  }

  ghost predicate Arena(n: nat, exits: seq<seq<nat>>, entrances: seq<seq<nat>>) {
    |exits| == |entrances| == n && Forward(exits, entrances) && Mirror(exits, entrances)
  }

  /** Every block of `bs` is one of the first `n`. */
  ghost predicate Below(bs: seq<nat>, n: nat) {
    forall k :: 0 <= k < |bs| ==> bs[k] < n
  }

  ghost predicate DefersBelow(defers: map<int, seq<nat>>, n: nat) {
    forall l :: l in defers ==> Below(defers[l], n)
  }

  ghost predicate TagsHold(astBlock: map<nat, nat>, hasStmts: set<nat>) {
    forall s :: s in astBlock ==> astBlock[s] in hasStmts
  }

  ghost predicate EntriesBelow(entryBlock: map<nat, nat>, n: nat) {
    forall f :: f in entryBlock ==> entryBlock[f] < n
  }

  ghost predicate ExitListsBelow(exitBlocks: map<nat, seq<nat>>, n: nat) {
    forall f :: f in exitBlocks ==> Below(exitBlocks[f], n)
  }

  /** Nothing is deferred to, and no loop or switch escapes to, a level
      deeper than the current one. */
  ghost predicate Settled(st: State) {
    && st.curLevel >= 0
    && DefersAtMost(st.defers, st.curLevel)
    && EscapesAtMost(st.escapeLevels, st.curLevel)
  }

  ghost predicate DefersAtMost(defers: map<int, seq<nat>>, level: int) {
    forall l :: l in defers ==> l <= level
  }

  ghost predicate EscapesAtMost(levels: seq<int>, level: int) {
    forall k :: 0 <= k < |levels| ==> levels[k] <= level
  }

  /** `killsNext` (nestless.js:104-106): code after such a block is dead. */
  predicate KillsNext(st: State, b: nat) {
    b in st.dead || b in st.returned || b in st.breaks
  }

  /** From `st` to `st'` blocks are only added, flags once set stay set,
      tagged statements stay tagged, and functions found to use `this`
      stay so. */
  ghost predicate Grown(st: State, st': State) {
    && st.blockCount <= st'.blockCount
    && st.over <= st'.over && st.dead <= st'.dead && st.returned <= st'.returned && st.breaks <= st'.breaks
    && st.funcEntry <= st'.funcEntry && st.funcExit <= st'.funcExit
    && st.hasStmts <= st'.hasStmts && st.braceless <= st'.braceless
    && st.astBlock.Keys <= st'.astBlock.Keys
    && st.usesThis <= st'.usesThis
    && ExitsKept(st.exits, st'.exits)
  }

  /** Edges once added stay: every exit of a block in `e0` is still an
      exit of that block in `e1`. */
  ghost predicate ExitsKept(e0: seq<seq<nat>>, e1: seq<seq<nat>>) {
    |e0| <= |e1| && forall a, b :: 0 <= a < |e0| && b in e0[a] ==> b in e1[a]
  }

  /** Each block of `blocks` is entered from `from`. */
  ghost predicate EnteredFrom(exits: seq<seq<nat>>, from: nat, blocks: seq<nat>) {
    from < |exits| && forall i :: 0 <= i < |blocks| ==> blocks[i] in exits[from]
  }

  /** Each block of `froms` leads into `to`. */
  ghost predicate LeadInto(exits: seq<seq<nat>>, froms: seq<nat>, to: nat) {
    forall k :: 0 <= k < |froms| ==> froms[k] < |exits| && to in exits[froms[k]]
  }

  lemma EnteredFromKept(e0: seq<seq<nat>>, e1: seq<seq<nat>>, from: nat, blocks: seq<nat>)
    requires EnteredFrom(e0, from, blocks) && ExitsKept(e0, e1)
    ensures EnteredFrom(e1, from, blocks)
  {
  }

  lemma LeadIntoKept(e0: seq<seq<nat>>, e1: seq<seq<nat>>, froms: seq<nat>, to: nat)
    requires LeadInto(e0, froms, to) && ExitsKept(e0, e1)
    ensures LeadInto(e1, froms, to)
  {
  }

  /** The blocks case `i - 1` of a SWITCH left deferred, `falls[i - 1]`,
      fall through into the entry block of case `i`. */
  ghost predicate FallsInto(exits: seq<seq<nat>>, falls: seq<seq<nat>>, entries: seq<nat>) {
    forall i :: 0 < i < |entries| && i <= |falls| ==> LeadInto(exits, falls[i - 1], entries[i])
  }

  /** One more case: entered from `top` and from the previous case's
      fall-throughs, with the earlier wiring kept. */
  lemma FallsIntoStep(e0: seq<seq<nat>>, e1: seq<seq<nat>>, falls: seq<seq<nat>>, entries: seq<nat>,
                      entry: nat, fallThroughs: seq<nat>, top: nat)
    requires FallsInto(e0, falls, entries) && ExitsKept(e0, e1) && EnteredFrom(e0, top, entries)
    requires |entries| == |falls| && (|falls| > 0 ==> falls[|falls| - 1] == fallThroughs)
    requires EnteredFrom(e1, top, [entry]) && LeadInto(e1, fallThroughs, entry)
    ensures EnteredFrom(e1, top, entries + [entry])
    ensures forall more: seq<nat> :: FallsInto(e1, falls + [more], entries + [entry])
  {
    forall i | 0 < i < |entries| && i <= |falls| ensures LeadInto(e1, falls[i - 1], entries[i]) {
      LeadIntoKept(e0, e1, falls[i - 1], entries[i]);
    }
    forall more: seq<nat>, i | 0 < i < |entries| + 1 && i <= |falls| + 1
      ensures LeadInto(e1, (falls + [more])[i - 1], (entries + [entry])[i])
    {
      if i == |entries| {
        assert (entries + [entry])[i] == entry && (falls + [more])[i - 1] == fallThroughs;
      } else {
        assert (entries + [entry])[i] == entries[i] && (falls + [more])[i - 1] == falls[i - 1];
      }
    }
  }

  /** The walk is back where it was in `st`: block stack, level, escape
      levels and enclosing function. */
  ghost predicate Restored(st: State, st': State) {
    st'.stack == st.stack && st'.curLevel == st.curLevel && st'.escapeLevels == st.escapeLevels && st'.curFunc == st.curFunc
  }

  /** What each analysis step keeps: `st'` is a valid, settled state that
      extends `st` with the walk back where it was. */
  ghost predicate Balanced(st: State, st': State) {
    Valid(st') && Settled(st') && Grown(st, st') && Restored(st, st')
  }

  /** `l` has the same deferred blocks, or none, in both maps. */
  ghost predicate SameAt(d0: map<int, seq<nat>>, d1: map<int, seq<nat>>, l: int) {
    (l in d0 <==> l in d1) && (l in d0 ==> d0[l] == d1[l])
  }

  /** Every entry of `a` outside `ids` is still in `b`, unchanged. */
  ghost predicate SameOutside<V>(a: map<nat, V>, b: map<nat, V>, ids: set<nat>) {
    forall id :: id in a && id !in ids ==> id in b && b[id] == a[id]
  }

  /** The enclosing function, as a set. */
  function CurFunc(st: State): set<nat> {
    if st.curFunc.Some? then {st.curFunc.value} else {}
  }

  /** From `st` to `st'` the annotations on the tree changed only at the
      ids in `ids`: the JS sets `astBlock`, `entryBlock` and `exitBlocks`
      only on the nodes it walks, and marks as using `this` only the
      function it is in or a function it walks. */
  ghost predicate NotesKept(st: State, st': State, ids: set<nat>) {
    && SameOutside(st.astBlock, st'.astBlock, ids)
    && SameOutside(st.entryBlock, st'.entryBlock, ids)
    && SameOutside(st.exitBlocks, st'.exitBlocks, ids)
    && st'.usesThis <= st.usesThis + ids + CurFunc(st)
  }

  lemma NotesKeptTrans(s0: State, s1: State, s2: State, i: set<nat>, j: set<nat>, k: set<nat>)
    requires NotesKept(s0, s1, i) && NotesKept(s1, s2, j) && i <= k && j <= k && s1.curFunc == s0.curFunc
    ensures NotesKept(s0, s2, k)
  {
  }

  /** An expression walk adds to `usesThis` the enclosing function exactly
      when `mentions` holds, and otherwise only functions among `ids`. */
  ghost predicate ThisMarked(st: State, st': State, ids: set<nat>, mentions: bool) {
    && st'.usesThis <= st.usesThis + ids + (if mentions then CurFunc(st) else {})
    && (mentions ==> CurFunc(st) <= st'.usesThis)
  }

  lemma ThisMarkedTrans(s0: State, s1: State, s2: State, i: set<nat>, j: set<nat>, k: set<nat>, a: bool, b: bool)
    requires ThisMarked(s0, s1, i, a) && ThisMarked(s1, s2, j, b) && i <= k && j <= k
    requires s1.curFunc == s0.curFunc && s1.usesThis <= s2.usesThis
    ensures ThisMarked(s0, s2, k, a || b)
  {
  }

  /** `this` occurs in `e` where `analyzeExpr` (nestless.js:63-84) looks
      for it: along the child walk and the property values of an object
      literal, but not inside a nested function, which is a `this` scope
      of its own. */
  ghost predicate MentionsThis(e: Expr)
    decreases e, 1
  {
    match e.kind
    case This => true
    case Function(_) => false
    case ObjectInit(props) => PropsMentionThis(props)
    case _ => ChildrenMentionThis(e)
  }

  /** Some child of `e` mentions `this`. */
  ghost predicate ChildrenMentionThis(e: Expr)
    decreases e, 0
  {
    match e.kind
    case Comma(items) => AnyMentionsThis(items)
    case Less(l, r) => MentionsThis(l) || MentionsThis(r)
    case Negate(o) => MentionsThis(o)
    case Call(c, a) => MentionsThis(c) || MentionsThis(a)
    case List(items) => AnyMentionsThis(items)
    case ObjectInit(props) => AnyMentionsThis(props)
    case Operator(ops) => AnyMentionsThis(ops)
    case _ => false
  }

  ghost predicate AnyMentionsThis(es: seq<Expr>)
    decreases es, 2
  {
    exists k :: 0 <= k < |es| && MentionsThis(es[k])
  }

  /** Some property of an object literal has a child that mentions `this`. */
  ghost predicate PropsMentionThis(props: seq<Expr>)
    decreases props, 2
  {
    exists k :: 0 <= k < |props| && ChildrenMentionThis(props[k])
  }

  lemma ChildrenMentionThisIs(e: Expr)
    ensures ChildrenMentionThis(e) == AnyMentionsThis(Children(e))
  {
    match e.kind
    case Less(l, r) => assert [l, r][0] == l && [l, r][1] == r;
    case Call(c, a) => assert [c, a][0] == c && [c, a][1] == a;
    case Negate(o) => assert [o][0] == o;
    case _ =>
  }

  lemma AnyMentionsThisPrefix(es: seq<Expr>, i: nat)
    requires i < |es|
    ensures AnyMentionsThis(es[..i + 1]) == (AnyMentionsThis(es[..i]) || MentionsThis(es[i]))
  {
    assert es[..i + 1][i] == es[i];
    if AnyMentionsThis(es[..i + 1]) && !MentionsThis(es[i]) {
      var k :| 0 <= k < i + 1 && MentionsThis(es[..i + 1][k]);
      assert es[..i][k] == es[k];
    }
    if AnyMentionsThis(es[..i]) {
      var k :| 0 <= k < i && MentionsThis(es[..i][k]);
      assert es[..i + 1][k] == es[k];
    }
  }

  lemma PropsMentionThisPrefix(props: seq<Expr>, i: nat)
    requires i < |props|
    ensures PropsMentionThis(props[..i + 1]) == (PropsMentionThis(props[..i]) || ChildrenMentionThis(props[i]))
  {
    assert props[..i + 1][i] == props[i];
    if PropsMentionThis(props[..i + 1]) && !ChildrenMentionThis(props[i]) {
      var k :| 0 <= k < i + 1 && ChildrenMentionThis(props[..i + 1][k]);
      assert props[..i][k] == props[k];
    }
    if PropsMentionThis(props[..i]) {
      var k :| 0 <= k < i && ChildrenMentionThis(props[..i][k]);
      assert props[..i + 1][k] == props[k];
    }
  }

  /** Statement `k` of `nodes` is tagged with block `tags[k]`. */
  ghost predicate Tied(nodes: seq<Stmt>, tags: seq<nat>, astBlock: map<nat, nat>) {
    |tags| == |nodes| && forall k :: 0 <= k < |nodes| ==> nodes[k].id in astBlock && astBlock[nodes[k].id] == tags[k]
  }

  /** Every statement right after a `return` in `nodes` is tagged with a
      dead block. */
  ghost predicate DeadAfterReturn(nodes: seq<Stmt>, astBlock: map<nat, nat>, dead: set<nat>) {
    forall k :: 0 < k < |nodes| && nodes[k - 1].kind.Return? ==> nodes[k].id in astBlock && astBlock[nodes[k].id] in dead
  }

  lemma TiedExtend(nodes: seq<Stmt>, i: nat, tags: seq<nat>, a0: map<nat, nat>, a1: map<nat, nat>, t: nat)
    requires DistinctIds(nodes) && i < |nodes|
    requires Tied(nodes[..i], tags, a0) && SameOutside(a0, a1, StmtIds(nodes[i]))
    requires nodes[i].id in a1 && a1[nodes[i].id] == t
    ensures Tied(nodes[..i + 1], tags + [t], a1)
  {
    forall k | 0 <= k < i ensures nodes[k].id in a1 && a1[nodes[k].id] == tags[k] {
      assert nodes[..i][k] == nodes[k];
    }
  }

  /** The statements a body stands for: those of a BLOCK, or the lone
      statement itself. */
  ghost function BodyIds(node: Stmt): (ids: set<nat>)
    ensures ids <= StmtIds(node)
  {
    if node.kind.Block? then StmtsIds(node.kind.stmts) else StmtIds(node)
  }

  /** `addExit` (nestless.js:256-259): records the edge on both ends,
      keeping the edge lists mirror images of each other. */
  function AddExit(st: State, from: nat, to: nat): (st': State)
    requires Valid(st) && from < to < st.blockCount
    ensures Valid(st')
    ensures st'.exits == st.exits[from := st.exits[from] + [to]]
    ensures st'.entrances == st.entrances[to := st.entrances[to] + [from]]
    ensures st'.(exits := st.exits, entrances := st.entrances) == st
  {
    MirrorAddEdge(st.exits, st.entrances, from, to);
    st.(exits := st.exits[from := st.exits[from] + [to]], entrances := st.entrances[to := st.entrances[to] + [from]])
  }

  /** `newBlock` (nestless.js:86-91): the next index, `st.blockCount`,
      with `entry` as its sole entrance when one is given. */
  function NewBlock(st: State, entry: Option<nat>): (st': State)
    requires Valid(st) && (entry.Some? ==> entry.value < st.blockCount)
    ensures Valid(st') && st'.blockCount == st.blockCount + 1
    ensures st'.entrances == st.entrances + [if entry.Some? then [entry.value] else []]
    ensures st'.exits == (if entry.Some? then st.exits[entry.value := st.exits[entry.value] + [st.blockCount]] else st.exits) + [[]]
    ensures st'.(blockCount := st.blockCount, exits := st.exits, entrances := st.entrances) == st
  {
    MirrorGrow(st.exits, st.entrances);
    var b := st.blockCount;
    var grown := st.(blockCount := b + 1, exits := st.exits + [[]], entrances := st.entrances + [[]]);
    if entry.Some? then
      assert [] + [entry.value] == [entry.value];
      AddExit(grown, entry.value, b)
    else grown
  }

  /** `deferExit` (nestless.js:250-254) on the map of deferred blocks:
      queues `b` behind the blocks already deferred to `toLevel` and
      leaves every other level alone. */
  function Defer(defers: map<int, seq<nat>>, toLevel: int, b: nat): (d: map<int, seq<nat>>)
    ensures Deferred(d, toLevel) == Deferred(defers, toLevel) + [b]
    ensures toLevel in d && d - {toLevel} == defers - {toLevel}
  {
    defers[toLevel := Deferred(defers, toLevel) + [b]]
  }

  /** `deferExit` on the analyzer's state. */
  function DeferExit(st: State, toLevel: int, b: nat): (st': State)
    requires Valid(st) && b < st.blockCount
    ensures Valid(st') && st' == st.(defers := Defer(st.defers, toLevel, b))
  {
    st.(defers := Defer(st.defers, toLevel, b))
  }

  /** `addExit(b, target)` for each `b` of `from`, in order. */
  method ConnectAll(st: State, from: seq<nat>, target: nat) returns (st': State)
    requires Valid(st) && target < st.blockCount
    requires Below(from, target)
    ensures Valid(st')
    ensures st'.entrances == st.entrances[target := st.entrances[target] + from]
    ensures st'.exits == AddExits(st.exits, from, target)
    ensures st'.(exits := st.exits, entrances := st.entrances) == st
    ensures ExitsKept(st.exits, st'.exits) && LeadInto(st'.exits, from, target)
  {
    st' := st;
    var i := 0;
    assert st.entrances[target] + from[..0] == st.entrances[target];
    while i < |from|
      invariant 0 <= i <= |from|
      invariant Valid(st')
      invariant st'.entrances == st.entrances[target := st.entrances[target] + from[..i]]
      invariant st'.exits == AddExits(st.exits, from[..i], target)
      invariant st'.(exits := st.exits, entrances := st.entrances) == st
    {
      assert from[..i + 1][..i] == from[..i];
      assert (st.entrances[target] + from[..i]) + [from[i]] == st.entrances[target] + from[..i + 1];
      st' := AddExit(st', from[i], target);
      i := i + 1;
    }
    assert from[..i] == from;
    AddExitsKeeps(st.exits, from, target);
    AddExitsLead(st.exits, from, target);
  }

  /** `consumeEachDefer(level, b => addExit(b, target))`: every block
      deferred to `level`, in order, gets an edge to `target`, and the
      level is left with nothing deferred. */
  method ConnectDefers(st: State, level: int, target: nat) returns (st': State)
    requires Valid(st) && target < st.blockCount
    requires Below(Deferred(st.defers, level), target)
    ensures Valid(st')
    ensures st'.defers == st.defers - {level}
    ensures st'.entrances == st.entrances[target := st.entrances[target] + Deferred(st.defers, level)]
    ensures st'.exits == AddExits(st.exits, Deferred(st.defers, level), target)
    ensures st'.(exits := st.exits, entrances := st.entrances, defers := st.defers) == st
    ensures ExitsKept(st.exits, st'.exits) && LeadInto(st'.exits, Deferred(st.defers, level), target)
  {
    st' := ConnectAll(st, Deferred(st.defers, level), target);
    st' := st'.(defers := st'.defers - {level});
  }

  /** `newBlock(from)` seen from the walk: a fresh block entered from
      `from`, with the earlier edges kept and nothing but the arena
      changed. */
  method Enter(st: State, from: nat) returns (st': State, block: nat)
    requires Valid(st) && from < st.blockCount
    ensures block == st.blockCount && Valid(st') && st'.blockCount == block + 1
    ensures st'.(blockCount := st.blockCount, exits := st.exits, entrances := st.entrances) == st
    ensures ExitsKept(st.exits, st'.exits) && EnteredFrom(st'.exits, from, [block])
  {
    block := st.blockCount;
    st' := NewBlock(st, Some(from));
  }

  /** `addExit(b, target)` for each `b` of `from`, seen from the walk. */
  method Join(st: State, from: seq<nat>, target: nat) returns (st': State)
    requires Valid(st) && target < st.blockCount && Below(from, target)
    ensures Valid(st') && st'.(exits := st.exits, entrances := st.entrances) == st
    ensures ExitsKept(st.exits, st'.exits) && LeadInto(st'.exits, from, target)
  {
    st' := ConnectAll(st, from, target);
  }

  /** `deferExit(toLevel, b)` for each `b` of `bs`, in order. */
  method DeferAll(st: State, toLevel: int, bs: seq<nat>) returns (st': State)
    requires Valid(st) && Below(bs, st.blockCount)
    ensures Valid(st')
    ensures st'.defers == if bs == [] then st.defers else st.defers[toLevel := Deferred(st.defers, toLevel) + bs]
    ensures st'.(defers := st.defers) == st
  {
    var defers := st.defers;
    var pending := Deferred(st.defers, toLevel);
    var i := 0;
    while i < |bs|
      invariant 0 <= i <= |bs|
      invariant defers == if i == 0 then st.defers else st.defers[toLevel := pending + bs[..i]]
    {
      assert Deferred(defers, toLevel) == pending + bs[..i] by {
        if i == 0 { assert pending + [] == pending; }
      }
      assert pending + bs[..i + 1] == (pending + bs[..i]) + [bs[i]] by {
        assert bs[..i + 1] == bs[..i] + [bs[i]];
      }
      defers := Defer(defers, toLevel, bs[i]);
      i := i + 1;
    }
    assert bs[..i] == bs;
    if bs != [] {
      assert Below(pending + bs, st.blockCount);
    }
    st' := st.(defers := defers);
  }

  /** `consumeEachDefer(level, b => deferExit(toLevel, b))`: the blocks
      deferred to `level` move, in order, behind those already deferred
      to `toLevel`, and `level` is left with nothing deferred. */
  method PassDefers(st: State, level: int, toLevel: int) returns (st': State)
    requires Valid(st) && level != toLevel
    ensures Valid(st')
    ensures st'.defers == if Deferred(st.defers, level) == [] then st.defers - {level}
      else (st.defers - {level})[toLevel := Deferred(st.defers, toLevel) + Deferred(st.defers, level)]
    ensures st'.(defers := st.defers) == st
  {
    var pending := Deferred(st.defers, level);
    assert Below(pending, st.blockCount);
    st' := DeferAll(st, toLevel, pending);
    st' := st'.(defers := st'.defers - {level});
  }

  /** `p` walks `entrances` backwards from `from` to `to`, through blocks
      that hold no statements and do not start a function. */
  ghost predicate BackWalk(st: State, p: seq<nat>, from: nat, to: nat) {
    && |p| >= 1 && p[0] == from && p[|p| - 1] == to
    && (forall i :: 0 <= i < |p| ==> p[i] < |st.entrances|)
    && (forall i :: 0 <= i < |p| - 1 ==>
          p[i] !in st.hasStmts && p[i] !in st.funcEntry && p[i + 1] in st.entrances[p[i]])
  }

  ghost predicate Reaches(st: State, from: nat, to: nat) {
    exists p :: BackWalk(st, p, from, to)
  }

  /** Each of `ws` walks from `from` to the matching block of `ends`. */
  ghost predicate Walks(st: State, ws: seq<seq<nat>>, from: nat, ends: seq<nat>) {
    |ws| == |ends| && forall k :: 0 <= k < |ws| ==> BackWalk(st, ws[k], from, ends[k])
  }

  lemma WalksConcat(st: State, ws: seq<seq<nat>>, from: nat, ends: seq<nat>, vs: seq<seq<nat>>, more: seq<nat>)
    requires Walks(st, ws, from, ends) && Walks(st, vs, from, more)
    ensures Walks(st, ws + vs, from, ends + more)
  {
    forall k | 0 <= k < |ws + vs| ensures BackWalk(st, (ws + vs)[k], from, (ends + more)[k]) {
      if k >= |ws| {
        assert (ws + vs)[k] == vs[k - |ws|] && (ends + more)[k] == more[k - |ws|];
      } else {
        assert (ws + vs)[k] == ws[k] && (ends + more)[k] == ends[k];
      }
    }
  }

  /** Walking one more entrance back from the end of a walk through a
      block with no statements that starts no function. */
  lemma WalksExtend(st: State, w: seq<nat>, from: nat, b: nat) returns (extended: seq<seq<nat>>)
    requires BackWalk(st, w, from, b) && b !in st.hasStmts && b !in st.funcEntry
    requires forall k :: 0 <= k < |st.entrances[b]| ==> st.entrances[b][k] < |st.entrances|
    ensures Walks(st, extended, from, st.entrances[b])
  {
    var ins := st.entrances[b];
    extended := seq(|ins|, k requires 0 <= k < |ins| => w + [ins[k]]);
    forall k | 0 <= k < |ins| ensures BackWalk(st, extended[k], from, ins[k]) {
      assert ins[k] in st.entrances[b];
    }
  }

  /** `blocksNeedingExit` (nestless.js:268-285): nothing for a block whose
      flow is already over; otherwise the statement-holding blocks found
      by walking entrances back from `block`, never through a function's
      entry block. The walk ends because edges run forwards. */
  method BlocksNeedingExit(st: State, block: nat) returns (found: seq<nat>)
    requires Valid(st) && block < st.blockCount
    ensures block in st.over ==> found == []
    ensures forall k :: 0 <= k < |found| ==> found[k] in st.hasStmts && Reaches(st, block, found[k])
    ensures block !in st.over && block in st.hasStmts ==> found == [block]
  {
    if block in st.over {
      return [];
    }
    found := [];
    ghost var foundWalks: seq<seq<nat>> := [];
    var wanting: seq<nat> := [block];
    ghost var walks: seq<seq<nat>> := [[block]];
    while wanting != []
      invariant forall k :: 0 <= k < |wanting| ==> wanting[k] < st.blockCount
      invariant Walks(st, walks, block, wanting)
      invariant |foundWalks| == |found|
      invariant forall k :: 0 <= k < |found| ==> found[k] in st.hasStmts && BackWalk(st, foundWalks[k], block, found[k])
      invariant block in st.hasStmts ==> (wanting == [block] && found == []) || (wanting == [] && found == [block])
      decreases Bound(wanting)
    {
      var nextGen: seq<nat> := [];
      ghost var nextWalks: seq<seq<nat>> := [];
      var top := Bound(wanting);
      var i := 0;
      while i < |wanting|
        invariant 0 <= i <= |wanting|
        invariant forall k :: 0 <= k < |nextGen| ==> nextGen[k] < top - 1
        invariant Walks(st, nextWalks, block, nextGen)
        invariant |foundWalks| == |found|
        invariant forall k :: 0 <= k < |found| ==> found[k] in st.hasStmts && BackWalk(st, foundWalks[k], block, found[k])
        invariant block in st.hasStmts && wanting == [block] ==> nextGen == [] && found == wanting[..i]
      {
        var b := wanting[i];
        if b in st.hasStmts {
          found := found + [b];
          foundWalks := foundWalks + [walks[i]];
        } else if b !in st.funcEntry {
          var ins := st.entrances[b];
          ghost var extended := WalksExtend(st, walks[i], block, b);
          WalksConcat(st, nextWalks, block, nextGen, extended, ins);
          nextGen := nextGen + ins;
          nextWalks := nextWalks + extended;
        }
        i := i + 1;
      }
      BoundAtMost(nextGen, top - 1);
      wanting := nextGen;
      walks := nextWalks;
    }
  }

  /** `analyzeFunc` (nestless.js:28-61): the body runs from a fresh entry
      block flagged `funcEntry`; the blocks it leaves deferred to the
      current level are the function's exits and are flagged `funcExit`;
      what was deferred to that level before is put back. The ghost
      `exits` are the blocks the body left deferred; only the function's
      own ids are annotated, and a `this` inside marks no enclosing
      function. */
  method AnalyzeFunc(st: State, f: Func) returns (r: Result<State>, ghost exits: seq<nat>)
    requires Valid(st) && Settled(st)
    ensures r.Ok? ==> Balanced(st, r.value) && SameAt(st.defers, r.value.defers, st.curLevel)
    ensures r.Ok? ==> NotesKept(st, r.value, FuncIds(f)) && r.value.usesThis <= st.usesThis + FuncIds(f)
    ensures r.Ok? ==> st.blockCount in r.value.funcEntry
    ensures r.Ok? && f.id !in StmtsIds(f.body) ==> f.id in r.value.entryBlock && r.value.entryBlock[f.id] == st.blockCount
    ensures r.Ok? && exits != [] ==> f.id in r.value.exitBlocks && r.value.exitBlocks[f.id] == exits
    ensures r.Ok? ==> forall k :: 0 <= k < |exits| ==> exits[k] in r.value.funcExit
    ensures r.Ok? ==> forall k :: 0 <= k < |exits| ==> exits[k] < r.value.blockCount
    ensures r.Ok? && f.body != [] && DistinctIds(f.body) ==>
      var last := f.body[|f.body| - 1].id;
      last in r.value.astBlock && (r.value.astBlock[last] !in r.value.over ==> r.value.astBlock[last] in exits)
    decreases FuncSize(f), 3
  {
    exits := [];
    var block := st.blockCount;
    var level := st.curLevel;
    var inner := EnterFunc(st, f.id);
    ghost var tags;
    r, tags := AnalyzeStmts(inner, f.body, block);
    if r.Err? {
      return;
    }
    var after;
    after, exits := RecordExits(r.value, f.id, level);
    var restored := if level in st.defers then after.defers[level := st.defers[level]] else after.defers - {level};
    r := Ok(after.(defers := restored, curFunc := st.curFunc));
  }

  /** nestless.js:30-43: a function's walk starts in a fresh block with no
      entry edge, flagged `funcEntry` and recorded as the function's entry
      block, inside the function and with nothing deferred to the current
      level. */
  method EnterFunc(st: State, id: nat) returns (inner: State)
    requires Valid(st) && Settled(st)
    ensures Valid(inner) && Settled(inner) && Grown(st, inner)
    ensures inner.blockCount == st.blockCount + 1 && inner.funcEntry == st.funcEntry + {st.blockCount}
    ensures inner.entryBlock == st.entryBlock[id := st.blockCount]
    ensures inner.defers == st.defers - {st.curLevel} && inner.curFunc == Some(id)
    ensures inner.(blockCount := st.blockCount, exits := st.exits, entrances := st.entrances, funcEntry := st.funcEntry,
                   entryBlock := st.entryBlock, defers := st.defers, curFunc := st.curFunc) == st
  {
    var block := st.blockCount;
    inner := NewBlock(st.(curFunc := Some(id)), None);
    inner := inner.(funcEntry := inner.funcEntry + {block}, entryBlock := inner.entryBlock[id := block]);
    inner := inner.(defers := inner.defers - {st.curLevel});
  }

  /** nestless.js:47-53: the blocks deferred to `level`, if the level has
      an entry, become the exit blocks of function `id`, each flagged
      `funcExit`; nothing else changes. */
  method RecordExits(st: State, id: nat, level: int) returns (st': State, exits: seq<nat>)
    requires Valid(st)
    ensures exits == Deferred(st.defers, level)
    ensures Valid(st') && st'.(exitBlocks := st.exitBlocks, funcExit := st.funcExit) == st
    ensures st.funcExit <= st'.funcExit && SameOutside(st.exitBlocks, st'.exitBlocks, {id})
    ensures exits != [] ==> id in st'.exitBlocks && st'.exitBlocks[id] == exits
    ensures forall k :: 0 <= k < |exits| ==> exits[k] in st'.funcExit
  {
    exits := Deferred(st.defers, level);
    st' := st;
    if level in st.defers {
      st' := st.(exitBlocks := st.exitBlocks[id := exits],
                 funcExit := st.funcExit + set k | 0 <= k < |exits| :: exits[k]);
    }
  }

  /** `analyzeExpr` (nestless.js:63-84): finds the functions nested in an
      expression and the functions that mention `this`. */
  method AnalyzeExpr(st: State, e: Expr) returns (r: Result<State>)
    requires Valid(st) && Settled(st)
    ensures r.Ok? ==> Balanced(st, r.value) && SameAt(st.defers, r.value.defers, st.curLevel)
    ensures r.Ok? ==> NotesKept(st, r.value, ExprIds(e)) && ThisMarked(st, r.value, ExprIds(e), MentionsThis(e))
    decreases ExprSize(e), 0
  {
    if e.kind.ObjectInit? {
      r := AnalyzeProps(st, e.kind.props);
    } else if e.kind.Function? {
      ghost var exits;
      r, exits := AnalyzeFunc(st, e.kind.f);
    } else if e.kind.This? {
      r := Ok(st.(usesThis := st.usesThis + CurFunc(st)));
    } else {
      ChildrenSmaller(e);
      ChildrenIds(e);
      ChildrenMentionThisIs(e);
      r := AnalyzeExprs(st, Children(e));
    }
  }

  /** OBJECT_INIT: the children of each property, in order. */
  method AnalyzeProps(st: State, props: seq<Expr>) returns (r: Result<State>)
    requires Valid(st) && Settled(st)
    ensures r.Ok? ==> Balanced(st, r.value) && SameAt(st.defers, r.value.defers, st.curLevel)
    ensures r.Ok? ==> NotesKept(st, r.value, ExprsIds(props)) && ThisMarked(st, r.value, ExprsIds(props), PropsMentionThis(props))
    decreases ExprsSize(props), 2
  {
    var cur := st;
    var i := 0;
    while i < |props|
      invariant 0 <= i <= |props|
      invariant Balanced(st, cur) && SameAt(st.defers, cur.defers, st.curLevel)
      invariant NotesKept(st, cur, ExprsIds(props)) && ThisMarked(st, cur, ExprsIds(props), PropsMentionThis(props[..i]))
    {
      cur :- AnalyzePropAt(st, cur, props, i);
      i := i + 1;
    }
    assert props[..i] == props;
    return Ok(cur);
  }

  /** One property of an object literal: its value is analyzed among the
      property's children, and `this` in it marks the enclosing function. */
  method AnalyzePropAt(st: State, cur: State, props: seq<Expr>, i: nat) returns (r: Result<State>)
    requires Valid(st) && Settled(st) && i < |props|
    requires Balanced(st, cur) && SameAt(st.defers, cur.defers, st.curLevel)
    requires NotesKept(st, cur, ExprsIds(props)) && ThisMarked(st, cur, ExprsIds(props), PropsMentionThis(props[..i]))
    ensures r.Ok? ==> Balanced(st, r.value) && SameAt(st.defers, r.value.defers, st.curLevel)
    ensures r.Ok? ==> NotesKept(st, r.value, ExprsIds(props))
    ensures r.Ok? ==> ThisMarked(st, r.value, ExprsIds(props), PropsMentionThis(props[..i + 1]))
    decreases ExprsSize(props), 1
  {
    ExprsSizeBound(props, i);
    ChildrenSmaller(props[i]);
    ExprsIdsAt(props, i);
    ChildrenIds(props[i]);
    ChildrenMentionThisIs(props[i]);
    PropsMentionThisPrefix(props, i);
    var next :- AnalyzeExprs(cur, Children(props[i]));
    NotesKeptTrans(st, cur, next, ExprsIds(props), ExprsIds(Children(props[i])), ExprsIds(props));
    ThisMarkedTrans(st, cur, next, ExprsIds(props), ExprsIds(Children(props[i])), ExprsIds(props),
                    PropsMentionThis(props[..i]), ChildrenMentionThis(props[i]));
    return Ok(next);
  }

  /** `analyzeExpr` on each expression, in order. */
  method AnalyzeExprs(st: State, es: seq<Expr>) returns (r: Result<State>)
    requires Valid(st) && Settled(st)
    ensures r.Ok? ==> Balanced(st, r.value) && SameAt(st.defers, r.value.defers, st.curLevel)
    ensures r.Ok? ==> NotesKept(st, r.value, ExprsIds(es)) && ThisMarked(st, r.value, ExprsIds(es), AnyMentionsThis(es))
    decreases ExprsSize(es), 1
  {
    var cur := st;
    var i := 0;
    while i < |es|
      invariant 0 <= i <= |es|
      invariant Balanced(st, cur) && SameAt(st.defers, cur.defers, st.curLevel)
      invariant NotesKept(st, cur, ExprsIds(es)) && ThisMarked(st, cur, ExprsIds(es), AnyMentionsThis(es[..i]))
    {
      ExprsSizeBound(es, i);
      ExprsIdsAt(es, i);
      AnyMentionsThisPrefix(es, i);
      var next :- AnalyzeExpr(cur, es[i]);
      NotesKeptTrans(st, cur, next, ExprsIds(es), ExprIds(es[i]), ExprsIds(es));
      ThisMarkedTrans(st, cur, next, ExprsIds(es), ExprIds(es[i]), ExprsIds(es), AnyMentionsThis(es[..i]), MentionsThis(es[i]));
      cur := next;
      i := i + 1;
    }
    assert es[..i] == es;
    return Ok(cur);
  }

  /** `analyzeBlock` (nestless.js:93-102): a statement list in `block`; a
      lone statement standing for a block marks it `braceless`. */
  method AnalyzeBlock(st: State, node: Stmt, block: nat) returns (r: Result<State>)
    requires Valid(st) && Settled(st) && block < st.blockCount
    ensures r.Ok? ==> Balanced(st, r.value) && NotesKept(st, r.value, BodyIds(node))
    ensures r.Ok? && !node.kind.Block? ==> block in r.value.braceless
    decreases StmtSize(node), if node.kind.Block? then 0 else 7
  {
    ghost var tags;
    if node.kind.Block? {
      r, tags := AnalyzeStmts(st, node.kind.stmts, block);
    } else {
      assert StmtsSize([node]) == StmtSize(node) && StmtsIds([node]) == StmtIds(node) by {
        assert [node][1..] == [];
      }
      r, tags := AnalyzeStmts(st.(braceless := st.braceless + {block}), [node], block);
    }
  }

  /** `analyzeBlock(node, newBlock(from))`: the body `node` in a fresh
      block, `block`, entered from `from`. */
  method AnalyzeEntered(st: State, node: Stmt, from: nat) returns (r: Result<State>, block: nat)
    requires Valid(st) && Settled(st) && from < st.blockCount
    ensures block == st.blockCount
    ensures r.Ok? ==> Balanced(st, r.value) && NotesKept(st, r.value, BodyIds(node)) && block < r.value.blockCount
    ensures r.Ok? ==> EnteredFrom(r.value.exits, from, [block])
    decreases StmtSize(node), if node.kind.Block? then 1 else 8
  {
    var entered;
    entered, block := Enter(st, from);
    r := AnalyzeBlock(entered, node, block);
    if r.Ok? {
      EnteredFromKept(entered.exits, r.value.exits, from, [block]);
    }
  }

  /** `analyzeStmt` (nestless.js:108-205) on one statement, with the
      current block on top of the stack. A statement that leaves its
      block's flow going defers nothing new to the current level. */
  method AnalyzeStmt(st: State, node: Stmt) returns (r: Result<State>)
    requires Valid(st) && Settled(st) && |st.stack| > 0
    ensures r.Ok? ==> Balanced(st, r.value) && NotesKept(st, r.value, InnerIds(node))
    ensures r.Ok? && st.stack[0] !in r.value.over ==> SameAt(st.defers, r.value.defers, st.curLevel)
    ensures r.Ok? && node.kind.Return? ==> st.stack[0] in r.value.over && st.stack[0] in r.value.returned
    ensures r.Ok? && (node.kind.Break? || node.kind.Continue?) ==> st.stack[0] in r.value.over && st.stack[0] in r.value.breaks
    ensures node.kind.Unsupported? ==> r.Err? && r.error.Bug?
    decreases StmtSize(node), 3
  {
    match node.kind
    case Block(_) =>
      r := AnalyzeNested(st, node);
    case If(_, _, _) =>
      ghost var elseBlock;
      r, elseBlock := AnalyzeIf(st, node);
    case Loop(_, _) =>
      ghost var bodyBlock;
      r, bodyBlock := AnalyzeLoop(st, node);
    case Switch(_, _) =>
      ghost var entries, falls;
      r, entries, falls := AnalyzeSwitch(st, node);
    case Try(_, _, _) =>
      ghost var catchEntries, finallyBlock, joined;
      r, catchEntries, finallyBlock, joined := AnalyzeTry(st, node);
    case FunctionDecl(f) =>
      ghost var exits;
      r, exits := AnalyzeFunc(st, f);
    case _ =>
      r := AnalyzeSimple(st, node);
  }

  /** The statements that hold no nested statement list. */
  method AnalyzeSimple(st: State, node: Stmt) returns (r: Result<State>)
    requires !node.kind.Block? && !node.kind.If? && !node.kind.Loop? && !node.kind.Switch? && !node.kind.Try? && !node.kind.FunctionDecl?
    requires Valid(st) && Settled(st) && |st.stack| > 0
    ensures r.Ok? ==> Balanced(st, r.value) && NotesKept(st, r.value, InnerIds(node))
    ensures r.Ok? && st.stack[0] !in r.value.over ==> SameAt(st.defers, r.value.defers, st.curLevel)
    ensures r.Ok? && node.kind.Return? ==> st.stack[0] in r.value.over && st.stack[0] in r.value.returned
    ensures r.Ok? && (node.kind.Break? || node.kind.Continue?) ==> st.stack[0] in r.value.over && st.stack[0] in r.value.breaks
    ensures node.kind.Unsupported? ==> r.Err? && r.error.Bug?
    decreases StmtSize(node), 1
  {
    match node.kind
    case Break =>
      r := Ok(Escape(st));
    case Continue =>
      r := Ok(Escape(st));
    case Return(_) =>
      r := AnalyzeReturn(st, node);
    case Semicolon(_) =>
      r := AnalyzeSemicolon(st, node);
    case Throw(_) =>
      r := Ok(st);
    case Var(_) =>
      r := AnalyzeVar(st, node);
    case Unsupported =>
      r := Err(Bug("Unexpected statement"));
  }

  /** BLOCK: the statements in a block entered from the current one. */
  method AnalyzeNested(st: State, node: Stmt) returns (r: Result<State>)
    requires node.kind.Block?
    requires Valid(st) && Settled(st) && |st.stack| > 0
    ensures r.Ok? ==> Balanced(st, r.value) && NotesKept(st, r.value, InnerIds(node)) && st.stack[0] in r.value.over
    ensures r.Ok? ==> EnteredFrom(r.value.exits, st.stack[0], [st.blockCount])
    decreases StmtSize(node), 2
  {
    var top := st.stack[0];
    var block;
    r, block := AnalyzeEntered(st.(over := st.over + {top}), node, top);
  }

  /** RETURN: the flow ends here; the returned value is analyzed. */
  method AnalyzeReturn(st: State, node: Stmt) returns (r: Result<State>)
    requires node.kind.Return?
    requires Valid(st) && Settled(st) && |st.stack| > 0
    ensures r.Ok? ==> Balanced(st, r.value) && NotesKept(st, r.value, InnerIds(node))
    ensures r.Ok? ==> st.stack[0] in r.value.over && st.stack[0] in r.value.returned
    decreases StmtSize(node), 0
  {
    var top := st.stack[0];
    var ended := st.(over := st.over + {top}, returned := st.returned + {top});
    if node.kind.value.Some? {
      r := AnalyzeExpr(ended, node.kind.value.value);
    } else {
      r := Ok(ended);
    }
  }

  /** SEMICOLON: a bind statement is left alone (its call is rewritten,
      not analyzed); any other expression is analyzed. */
  method AnalyzeSemicolon(st: State, node: Stmt) returns (r: Result<State>)
    requires node.kind.Semicolon?
    requires Valid(st) && Settled(st)
    ensures r.Ok? ==> Balanced(st, r.value) && SameAt(st.defers, r.value.defers, st.curLevel)
    ensures r.Ok? ==> NotesKept(st, r.value, InnerIds(node))
    ensures SplitArrow(node.kind.expression).Err? ==> r == Err(SplitArrow(node.kind.expression).error)
    decreases StmtSize(node), 0
  {
    var arrow := SplitArrow(node.kind.expression);
    if arrow.Err? {
      r := Err(arrow.error);
    } else if arrow.value.None? {
      r := AnalyzeExpr(st, node.kind.expression);
    } else {
      r := Ok(st);
    }
  }

  /** VAR: each initializer, in order. */
  method AnalyzeVar(st: State, node: Stmt) returns (r: Result<State>)
    requires node.kind.Var?
    requires Valid(st) && Settled(st)
    ensures r.Ok? ==> Balanced(st, r.value) && SameAt(st.defers, r.value.defers, st.curLevel)
    ensures r.Ok? ==> NotesKept(st, r.value, InnerIds(node))
    decreases StmtSize(node), 0
  {
    var inits := node.kind.initializers;
    var cur := st;
    var i := 0;
    while i < |inits|
      invariant 0 <= i <= |inits|
      invariant Balanced(st, cur) && SameAt(st.defers, cur.defers, st.curLevel)
      invariant NotesKept(st, cur, OptExprsIds(inits))
    {
      OptExprsSizeBound(inits, i);
      if inits[i].Some? {
        OptExprsIdsAt(inits, i);
        var next :- AnalyzeExpr(cur, inits[i].value);
        NotesKeptTrans(st, cur, next, OptExprsIds(inits), ExprIds(inits[i].value), OptExprsIds(inits));
        cur := next;
      }
      i := i + 1;
    }
    r := Ok(cur);
  }

  /** BREAK and CONTINUE: the flow ends here and the block is deferred to
      the innermost enclosing loop's or switch's level. */
  function Escape(st: State): (st': State)
    requires Valid(st) && Settled(st) && |st.stack| > 0
    ensures Balanced(st, st') && NotesKept(st, st', {}) && st.stack[0] in st'.over && st.stack[0] in st'.breaks
    ensures var target := if st.escapeLevels == [] then NoEscape else st.escapeLevels[0];
      Deferred(st'.defers, target) == Deferred(st.defers, target) + [st.stack[0]]
  {
    var top := st.stack[0];
    DeferExit(st.(over := st.over + {top}, breaks := st.breaks + {top}),
              if st.escapeLevels == [] then NoEscape else st.escapeLevels[0], top)
  }

  /** IF: each branch in a block entered from the current one; with no
      else part, the current block itself is deferred to this level. */
  method AnalyzeIf(st: State, node: Stmt) returns (r: Result<State>, ghost elseBlock: nat)
    requires node.kind.If?
    requires Valid(st) && Settled(st) && |st.stack| > 0
    ensures r.Ok? ==> Balanced(st, r.value) && NotesKept(st, r.value, InnerIds(node)) && st.stack[0] in r.value.over
    ensures r.Ok? ==> EnteredFrom(r.value.exits, st.stack[0], [st.blockCount])
    ensures r.Ok? && node.kind.elsePart.Some? ==> st.blockCount < elseBlock && EnteredFrom(r.value.exits, st.stack[0], [elseBlock])
    ensures r.Ok? && node.kind.elsePart.None? ==>
      var d := Deferred(r.value.defers, st.curLevel); d != [] && d[|d| - 1] == st.stack[0]
    decreases StmtSize(node), 0
  {
    var top := st.stack[0];
    r, elseBlock := AnalyzeBranches(st.(over := st.over + {top}), node.kind.thenPart, node.kind.elsePart, top);
  }

  /** The two branches of an IF, each in a fresh block entered from `top`;
      with no else part, `top` itself is deferred to this level. */
  method AnalyzeBranches(st: State, thenPart: Stmt, elsePart: Option<Stmt>, top: nat) returns (r: Result<State>, ghost elseBlock: nat)
    requires Valid(st) && Settled(st) && top < st.blockCount
    ensures r.Ok? ==> Balanced(st, r.value) && NotesKept(st, r.value, BodyIds(thenPart) + ElseIds(elsePart))
    ensures r.Ok? ==> EnteredFrom(r.value.exits, top, [st.blockCount])
    ensures r.Ok? && elsePart.Some? ==> st.blockCount < elseBlock && EnteredFrom(r.value.exits, top, [elseBlock])
    ensures r.Ok? && elsePart.None? ==>
      var d := Deferred(r.value.defers, st.curLevel); d != [] && d[|d| - 1] == top
    decreases StmtSize(thenPart) + (if elsePart.Some? then StmtSize(elsePart.value) else 0), 10
  {
    var cur, thenBlock;
    elseBlock := 0;
    cur, thenBlock :- AnalyzeEntered(st, thenPart, top);
    r, elseBlock := AnalyzeElse(cur, elsePart, top);
    if r.Ok? {
      NotesKeptTrans(st, cur, r.value, BodyIds(thenPart), ElseIds(elsePart), BodyIds(thenPart) + ElseIds(elsePart));
      EnteredFromKept(cur.exits, r.value.exits, top, [thenBlock]);
    }
  }

  /** The ids an else part stands for. */
  ghost function ElseIds(elsePart: Option<Stmt>): set<nat> {
    if elsePart.Some? then BodyIds(elsePart.value) else {}
  }

  /** The else part of an IF, in a fresh block entered from `top`; with
      none, `top` itself is deferred to this level. */
  method AnalyzeElse(st: State, elsePart: Option<Stmt>, top: nat) returns (r: Result<State>, elseBlock: nat)
    requires Valid(st) && Settled(st) && top < st.blockCount
    ensures r.Ok? ==> Balanced(st, r.value) && NotesKept(st, r.value, ElseIds(elsePart))
    ensures r.Ok? && elsePart.Some? ==> elseBlock == st.blockCount && EnteredFrom(r.value.exits, top, [elseBlock])
    ensures r.Ok? && elsePart.None? ==>
      var d := Deferred(r.value.defers, st.curLevel); d != [] && d[|d| - 1] == top
    decreases if elsePart.Some? then StmtSize(elsePart.value) else 0, 9
  {
    if elsePart.Some? {
      r, elseBlock := AnalyzeEntered(st, elsePart.value, top);
    } else {
      elseBlock := 0;
      r := Ok(DeferExit(st, st.curLevel, top));
    }
  }

  /** DO, FOR, FOR_IN, WHILE: the header expressions, then the body in a
      block entered from the current one, with this level as the target
      of `break` and `continue`. */
  method AnalyzeLoop(st: State, node: Stmt) returns (r: Result<State>, ghost bodyBlock: nat)
    requires node.kind.Loop?
    requires Valid(st) && Settled(st) && |st.stack| > 0
    ensures r.Ok? ==> Balanced(st, r.value) && NotesKept(st, r.value, InnerIds(node)) && st.stack[0] in r.value.over
    ensures r.Ok? ==> st.blockCount <= bodyBlock && EnteredFrom(r.value.exits, st.stack[0], [bodyBlock])
    decreases StmtSize(node), 0
  {
    var top := st.stack[0];
    bodyBlock := 0;
    var cur :- AnalyzeExprs(st, node.kind.header);
    var body;
    body, bodyBlock :- AnalyzeEntered(cur.(escapeLevels := [cur.curLevel] + cur.escapeLevels, over := cur.over + {top}), node.kind.loopBody, top);
    NotesKeptTrans(st, cur, body, InnerIds(node), BodyIds(node.kind.loopBody), InnerIds(node));
    r := Ok(body.(escapeLevels := body.escapeLevels[1..]));
  }

  /** SWITCH: each case in a block entered from the current one and from
      the previous case's fall-through blocks; `break` leaves for the
      level around the switch. */
  method AnalyzeSwitch(st: State, node: Stmt) returns (r: Result<State>, ghost entries: seq<nat>, ghost falls: seq<seq<nat>>)
    requires node.kind.Switch?
    requires Valid(st) && Settled(st) && |st.stack| > 0
    ensures r.Ok? ==> Balanced(st, r.value) && NotesKept(st, r.value, InnerIds(node)) && st.stack[0] in r.value.over
    ensures r.Ok? ==> |entries| == |node.kind.cases| && EnteredFrom(r.value.exits, st.stack[0], entries)
    ensures r.Ok? ==> FallsInto(r.value.exits, falls, entries)
    decreases StmtSize(node), 0
  {
    var top := st.stack[0];
    var breakLevel := st.curLevel;
    var inner := st.(curLevel := breakLevel + 1, escapeLevels := [breakLevel] + st.escapeLevels, over := st.over + {top});
    var cur;
    cur, entries, falls :- AnalyzeCases(inner, node.kind.cases, top);
    r := Ok(cur.(curLevel := breakLevel, escapeLevels := st.escapeLevels));
  }

  /** The cases of a SWITCH, in order, at the case level: each entered
      from the switch's block `top` and from the previous case's
      fall-throughs. */
  method AnalyzeCases(st: State, cases: seq<Stmt>, top: nat) returns (r: Result<State>, ghost entries: seq<nat>, ghost falls: seq<seq<nat>>)
    requires Valid(st) && Settled(st) && top < st.blockCount && st.curLevel !in st.defers
    ensures r.Ok? ==> Balanced(st, r.value) && NotesKept(st, r.value, StmtsIds(cases)) && st.curLevel !in r.value.defers
    ensures r.Ok? ==> |entries| == |cases| && EnteredFrom(r.value.exits, top, entries) && FallsInto(r.value.exits, falls, entries)
    decreases StmtsSize(cases), 9
  {
    var cur := st;
    var fallThroughs: seq<nat> := [];
    entries, falls := [], [];
    var i := 0;
    while i < |cases|
      invariant 0 <= i <= |cases|
      invariant Balanced(st, cur) && st.curLevel !in cur.defers
      invariant Below(fallThroughs, cur.blockCount)
      invariant NotesKept(st, cur, StmtsIds(cases))
      invariant |entries| == i && EnteredFrom(cur.exits, top, entries)
      invariant FallsInto(cur.exits, falls, entries) && (if i == 0 then falls == [] else |falls| == i && falls[i - 1] == fallThroughs)
    {
      StmtsSizeBound(cases, i);
      StmtsIdsAt(cases, i);
      var next, nextFalls :- AnalyzeCase(cur, cases[i], top, fallThroughs);
      NotesKeptTrans(st, cur, next, StmtsIds(cases), StmtIds(cases[i]), StmtsIds(cases));
      FallsIntoStep(cur.exits, next.exits, falls, entries, cur.blockCount, fallThroughs, top);
      entries := entries + [cur.blockCount];
      falls := falls + [nextFalls];
      cur, fallThroughs := next, nextFalls;
      i := i + 1;
    }
    r := Ok(cur);
  }

  /** One case of a SWITCH, at the case level: the blocks the previous
      case left deferred to that level fall through into this case's
      entry block; the blocks this case leaves deferred there are
      returned, and the case level is left with nothing deferred. */
  method AnalyzeCase(st: State, node: Stmt, top: nat, fallThroughs: seq<nat>) returns (r: Result<State>, next: seq<nat>)
    requires Valid(st) && Settled(st) && top < st.blockCount && st.curLevel !in st.defers
    requires Below(fallThroughs, st.blockCount)
    ensures r.Ok? ==> Balanced(st, r.value) && NotesKept(st, r.value, StmtIds(node)) && st.curLevel !in r.value.defers
    ensures r.Ok? ==> Below(next, r.value.blockCount)
    ensures r.Ok? ==> EnteredFrom(r.value.exits, top, [st.blockCount]) && LeadInto(r.value.exits, fallThroughs, st.blockCount)
    decreases StmtSize(node), 8
  {
    next := [];
    var entered, caseEntry := Enter(st, top);
    var joined := Join(entered, fallThroughs, caseEntry);
    var cur :- AnalyzeBlock(joined, node, caseEntry);
    EnteredFromKept(entered.exits, cur.exits, top, [caseEntry]);
    LeadIntoKept(joined.exits, cur.exits, fallThroughs, caseEntry);
    next := Deferred(cur.defers, st.curLevel);
    r := Ok(cur.(defers := cur.defers - {st.curLevel}));
  }

  /** TRY: the try block, each catch block and the finally block are
      entered from a block that follows the current one; the blocks
      deferred to this level lead into the finally block. */
  method AnalyzeTry(st: State, node: Stmt) returns (r: Result<State>, ghost catchEntries: seq<nat>, ghost finallyBlock: nat, ghost joined: seq<nat>)
    requires node.kind.Try?
    requires Valid(st) && Settled(st) && |st.stack| > 0
    ensures r.Ok? ==> Balanced(st, r.value) && NotesKept(st, r.value, InnerIds(node)) && st.stack[0] in r.value.over
    ensures r.Ok? ==> EnteredFrom(r.value.exits, st.stack[0], [st.blockCount])
    ensures r.Ok? ==> |catchEntries| == |node.kind.catchBlocks| && EnteredFrom(r.value.exits, st.blockCount, catchEntries)
    ensures r.Ok? && node.kind.finallyBlock.Some? ==>
      EnteredFrom(r.value.exits, st.blockCount, [finallyBlock]) && LeadInto(r.value.exits, joined, finallyBlock)
    decreases StmtSize(node), 0
  {
    var top := st.stack[0];
    r, catchEntries, finallyBlock, joined := AnalyzeGuarded(st.(over := st.over + {top}), node.kind.tryBlock, node.kind.catchBlocks, node.kind.finallyBlock, top);
  }

  /** The try block of a TRY, in a fresh block entered from `top`, then
      its handlers. */
  method AnalyzeGuarded(st: State, tryPart: Stmt, catches: seq<Stmt>, fin: Option<Stmt>, top: nat)
    returns (r: Result<State>, ghost catchEntries: seq<nat>, ghost finallyBlock: nat, ghost joined: seq<nat>)
    requires Valid(st) && Settled(st) && top < st.blockCount
    ensures r.Ok? ==> Balanced(st, r.value) && NotesKept(st, r.value, BodyIds(tryPart) + HandlerIds(catches, fin))
    ensures r.Ok? ==> EnteredFrom(r.value.exits, top, [st.blockCount])
    ensures r.Ok? ==> |catchEntries| == |catches| && EnteredFrom(r.value.exits, st.blockCount, catchEntries)
    ensures r.Ok? && fin.Some? ==>
      EnteredFrom(r.value.exits, st.blockCount, [finallyBlock]) && LeadInto(r.value.exits, joined, finallyBlock)
    decreases StmtSize(tryPart) + StmtsSize(catches) + (if fin.Some? then StmtSize(fin.value) else 0), 11
  {
    catchEntries, finallyBlock, joined := [], 0, [];
    var cur, tryBlock;
    cur, tryBlock :- AnalyzeEntered(st, tryPart, top);
    r, catchEntries, finallyBlock, joined := AnalyzeHandlers(cur, catches, fin, tryBlock);
    if r.Ok? {
      NotesKeptTrans(st, cur, r.value, BodyIds(tryPart), HandlerIds(catches, fin), BodyIds(tryPart) + HandlerIds(catches, fin));
      EnteredFromKept(cur.exits, r.value.exits, top, [tryBlock]);
    }
  }

  /** The ids the catch and finally blocks of a TRY stand for. */
  ghost function HandlerIds(catches: seq<Stmt>, fin: Option<Stmt>): set<nat> {
    StmtsIds(catches) + if fin.Some? then BodyIds(fin.value) else {}
  }

  /** The catch blocks, then the finally block, of a TRY whose try block
      is `tryBlock`. */
  method AnalyzeHandlers(st: State, catches: seq<Stmt>, fin: Option<Stmt>, tryBlock: nat)
    returns (r: Result<State>, ghost catchEntries: seq<nat>, ghost finallyBlock: nat, ghost joined: seq<nat>)
    requires Valid(st) && Settled(st) && tryBlock < st.blockCount
    ensures r.Ok? ==> Balanced(st, r.value) && NotesKept(st, r.value, HandlerIds(catches, fin))
    ensures r.Ok? ==> |catchEntries| == |catches| && EnteredFrom(r.value.exits, tryBlock, catchEntries)
    ensures r.Ok? && fin.Some? ==> EnteredFrom(r.value.exits, tryBlock, [finallyBlock]) && LeadInto(r.value.exits, joined, finallyBlock)
    decreases StmtsSize(catches) + (if fin.Some? then StmtSize(fin.value) else 0), 10
  {
    finallyBlock, joined := 0, [];
    var caught;
    caught, catchEntries :- AnalyzeCatches(st, catches, tryBlock);
    if fin.Some? {
      r, finallyBlock, joined := AnalyzeFinally(caught, fin.value, tryBlock);
      if r.Ok? {
        NotesKeptTrans(st, caught, r.value, StmtsIds(catches), BodyIds(fin.value), HandlerIds(catches, fin));
        EnteredFromKept(caught.exits, r.value.exits, tryBlock, catchEntries);
      }
    } else {
      r := Ok(caught);
    }
  }

  /** The catch blocks of a TRY, each in a fresh block entered from the
      try block `from`. */
  method AnalyzeCatches(st: State, catches: seq<Stmt>, from: nat) returns (r: Result<State>, ghost entries: seq<nat>)
    requires Valid(st) && Settled(st) && from < st.blockCount
    ensures r.Ok? ==> Balanced(st, r.value) && NotesKept(st, r.value, StmtsIds(catches))
    ensures r.Ok? ==> |entries| == |catches| && EnteredFrom(r.value.exits, from, entries)
    decreases StmtsSize(catches), 9
  {
    entries := [];
    var cur := st;
    var i := 0;
    while i < |catches|
      invariant 0 <= i <= |catches|
      invariant Balanced(st, cur) && NotesKept(st, cur, StmtsIds(catches))
      invariant |entries| == i && EnteredFrom(cur.exits, from, entries)
    {
      StmtsSizeBound(catches, i);
      StmtsIdsAt(catches, i);
      var next, entry;
      next, entry :- AnalyzeEntered(cur, catches[i], from);
      NotesKeptTrans(st, cur, next, StmtsIds(catches), BodyIds(catches[i]), StmtsIds(catches));
      EnteredFromKept(cur.exits, next.exits, from, entries);
      entries := entries + [entry];
      cur := next;
      i := i + 1;
    }
    r := Ok(cur);
  }

  /** The finally block of a TRY, in a fresh block `block` entered from
      the try block `from` and from the blocks deferred to this level,
      `joined`, which are consumed. */
  method AnalyzeFinally(st: State, fin: Stmt, from: nat) returns (r: Result<State>, block: nat, joined: seq<nat>)
    requires Valid(st) && Settled(st) && from < st.blockCount
    ensures block == st.blockCount && joined == Deferred(st.defers, st.curLevel)
    ensures r.Ok? ==> Balanced(st, r.value) && NotesKept(st, r.value, BodyIds(fin))
    ensures r.Ok? ==> EnteredFrom(r.value.exits, from, [block]) && LeadInto(r.value.exits, joined, block)
    decreases StmtSize(fin), 9
  {
    joined := Deferred(st.defers, st.curLevel);
    var entered;
    entered, block := Enter(st, from);
    var connected := Join(entered, joined, block);
    connected := connected.(defers := connected.defers - {st.curLevel});
    r := AnalyzeBlock(connected, fin, block);
    if r.Ok? {
      EnteredFromKept(entered.exits, r.value.exits, from, [block]);
      LeadIntoKept(connected.exits, r.value.exits, joined, block);
    }
  }

  /** `analyzeStmts` (nestless.js:207-248): the statements of one scope,
      one level deeper, starting in `block`, which is dead when the
      enclosing block kills what follows it. When the scope ends, its
      open statement-holding blocks and whatever is still deferred to it
      pass to the outer level. The ghost `tags` are the blocks the
      statements were tagged with. */
  method AnalyzeStmts(st: State, nodes: seq<Stmt>, block: nat) returns (r: Result<State>, ghost tags: seq<nat>)
    requires Valid(st) && Settled(st) && block < st.blockCount
    ensures r.Ok? ==> Balanced(st, r.value) && st.curLevel + 1 !in r.value.defers
    ensures r.Ok? ==> NotesKept(st, r.value, StmtsIds(nodes))
    ensures r.Ok? && DistinctIds(nodes) ==> Tied(nodes, tags, r.value.astBlock)
    ensures r.Ok? ==> Tagged(nodes, tags, r.value.astBlock, r.value.hasStmts, r.value.dead, |st.stack| > 0 && KillsNext(st, st.stack[0]))
    ensures r.Ok? && DistinctIds(nodes) ==> DeadAfterReturn(nodes, r.value.astBlock, r.value.dead)
    ensures r.Ok? && |st.stack| > 0 && KillsNext(st, st.stack[0]) ==> block in r.value.dead
    ensures r.Ok? && nodes != [] && tags[|nodes| - 1] !in r.value.over ==> tags[|nodes| - 1] in Deferred(r.value.defers, st.curLevel)
    decreases StmtsSize(nodes), 6
  {
    var deadStart := |st.stack| > 0 && KillsNext(st, st.stack[0]);
    var inner := st.(curLevel := st.curLevel + 1, stack := [block] + st.stack,
                     dead := if deadStart then st.dead + {block} else st.dead);
    var cur, current;
    cur, current, tags :- AnalyzeEach(inner, nodes, deadStart);
    var found;
    cur, found := LeaveScope(cur, current, st.curLevel);
    r := Ok(cur.(curLevel := st.curLevel, stack := st.stack));
  }

  /** The loop of `analyzeStmts`, over the statements of one scope, with
      the scope's first block on top of the stack. */
  method AnalyzeEach(st: State, nodes: seq<Stmt>, deadStart: bool) returns (r: Result<State>, current: nat, ghost tags: seq<nat>)
    requires Valid(st) && Settled(st) && |st.stack| > 0 && st.curLevel !in st.defers
    requires deadStart ==> st.stack[0] in st.dead
    ensures r.Ok? ==> Valid(r.value) && Settled(r.value) && Grown(st, r.value) && current < r.value.blockCount
    ensures r.Ok? ==> r.value.curLevel == st.curLevel && r.value.stack == [current] + st.stack[1..]
    ensures r.Ok? ==> r.value.escapeLevels == st.escapeLevels && r.value.curFunc == st.curFunc
    ensures r.Ok? ==> Tagged(nodes, tags, r.value.astBlock, r.value.hasStmts, r.value.dead, deadStart)
    ensures r.Ok? ==> NotesKept(st, r.value, StmtsIds(nodes))
    ensures r.Ok? && DistinctIds(nodes) ==> Tied(nodes, tags, r.value.astBlock)
    ensures r.Ok? && nodes != [] ==> current == tags[|nodes| - 1]
    decreases StmtsSize(nodes), 5
  {
    var cur := st;
    current := st.stack[0];
    tags := [];
    var i := 0;
    while i < |nodes|
      invariant EachSoFar(st, nodes, i, cur, current, tags, deadStart)
    {
      cur, current, tags :- AnalyzeEachAt(st, nodes, deadStart, i, cur, current, tags);
      i := i + 1;
    }
    assert nodes[..i] == nodes;
    assert cur.stack[0] == current;
    r := Ok(cur);
  }

  /** What `analyzeStmts`' loop keeps after `i` statements: the walk is
      at the block `current`, where the last statement was tagged, and the
      statements so far are tagged as `Tagged` and `Tied` say. */
  ghost predicate EachSoFar(st: State, nodes: seq<Stmt>, i: int, cur: State, current: nat, tags: seq<nat>, deadStart: bool) {
    && |st.stack| > 0 && 0 <= i <= |nodes|
    && Valid(cur) && Settled(cur) && Grown(st, cur)
    && cur.curLevel == st.curLevel && cur.stack == [current] + st.stack[1..]
    && cur.escapeLevels == st.escapeLevels && cur.curFunc == st.curFunc
    && (st.curLevel in cur.defers ==> current in cur.over)
    && (deadStart ==> current in cur.dead)
    && Tagged(nodes[..i], tags, cur.astBlock, cur.hasStmts, cur.dead, deadStart)
    && (i > 0 && nodes[i - 1].kind.Return? ==> current in cur.over && current in cur.returned)
    && NotesKept(st, cur, StmtsIds(nodes))
    && (DistinctIds(nodes) ==> Tied(nodes[..i], tags, cur.astBlock))
    && (i > 0 ==> current == tags[i - 1])
  }

  /** One step of `analyzeStmts`' loop: statement `i` is analyzed after
      the ones before it, and the loop's facts hold one statement
      further. */
  method AnalyzeEachAt(st: State, nodes: seq<Stmt>, deadStart: bool, i: nat, cur: State, current: nat, ghost tags: seq<nat>)
    returns (r: Result<State>, next: nat, ghost tags': seq<nat>)
    requires i < |nodes| && EachSoFar(st, nodes, i, cur, current, tags, deadStart)
    ensures r.Ok? ==> EachSoFar(st, nodes, i + 1, r.value, next, tags', deadStart)
    decreases StmtsSize(nodes), 4, 1
  {
    StmtsSizeBound(nodes, i);
    StmtsIdsAt(nodes, i);
    tags' := tags;
    r, next := AnalyzeNextStmt(cur, current, nodes[i]);
    if r.Err? {
      return;
    }
    var after := r.value;
    TaggedGrow(nodes[..i], tags, cur.astBlock, cur.hasStmts, cur.dead, after.astBlock, after.hasStmts, after.dead, deadStart);
    TaggedExtend(nodes[..i], tags, after.astBlock, after.hasStmts, after.dead, deadStart, nodes[i], next);
    NotesKeptTrans(st, cur, after, StmtsIds(nodes), StmtIds(nodes[i]), StmtsIds(nodes));
    if DistinctIds(nodes) {
      TiedExtend(nodes, i, tags, cur.astBlock, after.astBlock, next);
    }
    assert nodes[..i] + [nodes[i]] == nodes[..i + 1];
    tags' := tags + [next];
  }

  /** One round of `analyzeStmts`' loop: the statement `node` is tagged
      with the block that follows `current` and analyzed there. */
  method AnalyzeNextStmt(st: State, current: nat, node: Stmt) returns (r: Result<State>, next: nat)
    requires Valid(st) && Settled(st) && |st.stack| > 0 && st.stack[0] == current
    requires st.curLevel in st.defers ==> current in st.over
    ensures r.Ok? ==> Valid(r.value) && Settled(r.value) && Grown(st, r.value)
    ensures r.Ok? ==> r.value.stack == [next] + st.stack[1..] && r.value.curLevel == st.curLevel
    ensures r.Ok? ==> r.value.escapeLevels == st.escapeLevels && r.value.curFunc == st.curFunc
    ensures r.Ok? && st.curLevel in r.value.defers ==> next in r.value.over
    ensures r.Ok? ==> node.id in r.value.astBlock && next in r.value.hasStmts
    ensures r.Ok? ==> NotesKept(st, r.value, StmtIds(node))
    ensures r.Ok? && node.id !in InnerIds(node) ==> r.value.astBlock[node.id] == next
    ensures r.Ok? && ((current in st.over && current in st.returned) || current in st.dead) ==> next in r.value.dead
    ensures r.Ok? && node.kind.Return? ==> next in r.value.over && next in r.value.returned
    decreases StmtSize(node), 4, 0
  {
    var entered;
    entered, next := EnterStmt(st, current, node.id);
    r := AnalyzeStmt(entered, node);
  }

  /** Statement `k` of `nodes` was tagged with block `tags[k]`, which
      holds statements; it is dead when the scope started dead or when
      statement `k - 1` is a `return`. */
  ghost predicate Tagged(nodes: seq<Stmt>, tags: seq<nat>, astBlock: map<nat, nat>, hasStmts: set<nat>, dead: set<nat>, deadStart: bool) {
    && |tags| == |nodes|
    && forall k :: 0 <= k < |nodes| ==>
         && nodes[k].id in astBlock && tags[k] in hasStmts
         && (deadStart ==> tags[k] in dead)
         && (k > 0 && nodes[k - 1].kind.Return? ==> tags[k] in dead)
  }

  lemma TaggedGrow(nodes: seq<Stmt>, tags: seq<nat>, a0: map<nat, nat>, h0: set<nat>, d0: set<nat>,
                   a1: map<nat, nat>, h1: set<nat>, d1: set<nat>, deadStart: bool)
    requires Tagged(nodes, tags, a0, h0, d0, deadStart)
    requires a0.Keys <= a1.Keys && h0 <= h1 && d0 <= d1
    ensures Tagged(nodes, tags, a1, h1, d1, deadStart)
  {
  }

  lemma TaggedExtend(nodes: seq<Stmt>, tags: seq<nat>, astBlock: map<nat, nat>, hasStmts: set<nat>, dead: set<nat>,
                     deadStart: bool, node: Stmt, t: nat)
    requires Tagged(nodes, tags, astBlock, hasStmts, dead, deadStart)
    requires node.id in astBlock && t in hasStmts && (deadStart ==> t in dead)
    requires |nodes| > 0 && nodes[|nodes| - 1].kind.Return? ==> t in dead
    ensures Tagged(nodes + [node], tags + [t], astBlock, hasStmts, dead, deadStart)
  {
    var ns := nodes + [node];
    var ts := tags + [t];
    forall k | 0 < k < |ns| && ns[k - 1].kind.Return?
      ensures ts[k] in dead
    {
      if k == |nodes| {
        assert ns[k - 1] == nodes[|nodes| - 1];
      } else {
        assert ns[k - 1] == nodes[k - 1] && ts[k] == tags[k];
      }
    }
  }

  /** The head of each round of `analyzeStmts`' loop: the blocks
      deferred to this level flow into the block that will hold the
      statement `id`, which is tagged with it. */
  method EnterStmt(st: State, current: nat, id: nat) returns (st': State, next: nat)
    requires Valid(st) && Settled(st) && |st.stack| > 0 && st.stack[0] == current
    requires st.curLevel in st.defers ==> current in st.over
    ensures Valid(st') && Settled(st') && Grown(st, st')
    ensures st'.stack == [next] + st.stack[1..] && st'.curLevel == st.curLevel
    ensures st'.escapeLevels == st.escapeLevels && st'.curFunc == st.curFunc
    ensures st.curLevel !in st'.defers
    ensures id in st'.astBlock && st'.astBlock[id] == next && next in st'.hasStmts
    ensures NotesKept(st, st', {id})
    ensures current !in st.over ==> next == current
    ensures (current in st.over && current in st.returned) || current in st.dead ==> next in st'.dead
  {
    st', next := FollowOver(st, current);
    st' := ConnectDefers(st', st.curLevel, next);
    st' := st'.(astBlock := st'.astBlock[id := next], hasStmts := st'.hasStmts + {next});
  }

  /** A block whose flow is over is followed by a fresh block with no
      entrances, dead when the old one was dead or returned; any other
      block carries on. */
  method FollowOver(st: State, current: nat) returns (st': State, next: nat)
    requires Valid(st) && Settled(st) && |st.stack| > 0 && st.stack[0] == current
    requires st.curLevel in st.defers ==> current in st.over
    ensures Valid(st') && Settled(st') && Grown(st, st')
    ensures st'.stack == [next] + st.stack[1..] && next < st'.blockCount
    ensures st'.(blockCount := st.blockCount, exits := st.exits, entrances := st.entrances, stack := st.stack, dead := st.dead) == st
    ensures Below(Deferred(st'.defers, st.curLevel), next)
    ensures current !in st.over ==> next == current
    ensures (current in st.over && current in st.returned) || current in st.dead ==> next in st'.dead
  {
    if current !in st.over {
      return st, current;
    }
    var wasDead := current in st.dead || current in st.returned;
    next := st.blockCount;
    st' := NewBlock(st, None);
    st' := st'.(stack := [next] + st.stack[1..], dead := if wasDead then st'.dead + {next} else st'.dead);
  }

  /** The tail of `analyzeStmts`: the open statement-holding blocks
      reaching the scope's last block, then the blocks still deferred to
      this level, are deferred to the level outside it. */
  method LeaveScope(st: State, current: nat, prevLevel: int) returns (st': State, found: seq<nat>)
    requires Valid(st) && Settled(st) && current < st.blockCount && prevLevel >= 0 && prevLevel + 1 == st.curLevel
    ensures Valid(st') && st.curLevel !in st'.defers
    ensures forall l :: l in st'.defers ==> l <= prevLevel
    ensures st'.(defers := st.defers) == st
    ensures Deferred(st'.defers, prevLevel) == Deferred(st.defers, prevLevel) + found + Deferred(st.defers, st.curLevel)
    ensures current !in st.over && current in st.hasStmts ==> found == [current]
  {
    found := BlocksNeedingExit(st, current);
    st' := DeferAll(st, prevLevel, found);
    st' := PassDefers(st', st.curLevel, prevLevel);
  }

  /** `analysis()` followed by `analyzeScript` (nestless.js:19-27,
      287-289): the top-level statements, from a fresh block. Every
      statement ends up tagged with a statement-holding block. */
  method Analyze(nodes: seq<Stmt>) returns (r: Result<State>)
    ensures r.Ok? ==> Valid(r.value) && Settled(r.value) && r.value.stack == [] && r.value.curLevel == 0
    ensures r.Ok? ==> forall k :: 0 <= k < |nodes| ==>
      nodes[k].id in r.value.astBlock && r.value.astBlock[nodes[k].id] in r.value.hasStmts
    ensures r.Ok? && DistinctIds(nodes) ==> DeadAfterReturn(nodes, r.value.astBlock, r.value.dead)
  {
    ghost var tags;
    r, tags := AnalyzeStmts(NewBlock(Start, None), nodes, 0);
    if r.Ok? {
      assert TagsHold(r.value.astBlock, r.value.hasStmts);
    }
  }

  /** The exit lists after `addExit(b, target)` for each `b` of `from`,
      in order. */
  function AddExits(exits: seq<seq<nat>>, from: seq<nat>, target: nat): (r: seq<seq<nat>>)
    ensures |r| == |exits|
    decreases |from|
  {
    if from == [] then exits
    else
      var before := AddExits(exits, from[..|from| - 1], target);
      var b := from[|from| - 1];
      if b < |before| then before[b := before[b] + [target]] else before
  }

  lemma {:induction false} AddExitsKeeps(exits: seq<seq<nat>>, from: seq<nat>, target: nat)
    ensures ExitsKept(exits, AddExits(exits, from, target))
    decreases |from|
  {
    if from != [] {
      AddExitsKeeps(exits, from[..|from| - 1], target);
    }
  }

  /** After `addExit(b, target)` for each `b` of `from`, each of them
      leads into `target`. */
  lemma {:induction false} AddExitsLead(exits: seq<seq<nat>>, from: seq<nat>, target: nat)
    requires Below(from, |exits|)
    ensures LeadInto(AddExits(exits, from, target), from, target)
    decreases |from|
  {
    if from != [] {
      var init := from[..|from| - 1];
      AddExitsLead(exits, init, target);
      var before := AddExits(exits, init, target);
      AddExitsKeeps(before, [from[|from| - 1]], target);
      assert [from[|from| - 1]][..0] == [];
      forall k | 0 <= k < |from| ensures target in AddExits(exits, from, target)[from[k]] {
        if k < |from| - 1 {
          assert from[k] == init[k];
        }
      }
    }
  }
}
