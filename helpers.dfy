/** The pure helpers of nestless.js: recognising a bind statement
    (`splitArrow`), tidying its binder names (`filterUnderscores`), and the
    callback-parameter naming test (`CALLBACK_RE`). */
module Helpers {
  import opened Diagnostics
  import opened Syntax

  // ---------------------------------------------------------------------
  // Decimal numerals, for the `'_' + n` renaming.

  function DigitChar(d: nat): char
    requires d < 10
  {
    "0123456789"[d]
  }

  /** The decimal numeral of `n`, as JS string concatenation writes it. */
  function NatToString(n: nat): (s: string)
    ensures |s| >= 1
    decreases n
  {
    if n < 10 then [DigitChar(n)] else NatToString(n / 10) + [DigitChar(n % 10)]
  }

  lemma DigitCharInjective(a: nat, b: nat)
    requires a < 10 && b < 10 && DigitChar(a) == DigitChar(b)
    ensures a == b
  {
  }

  /** Distinct numbers have distinct numerals. */
  lemma {:induction false} NatToStringInjective(a: nat, b: nat)
    requires NatToString(a) == NatToString(b)
    ensures a == b
    decreases a
  {
    var s := NatToString(a);
    if a < 10 || b < 10 {
      if a < 10 && b < 10 { DigitCharInjective(a, b); }
    } else {
      var pa, pb := NatToString(a / 10), NatToString(b / 10);
      assert s == pa + [DigitChar(a % 10)];
      assert s == pb + [DigitChar(b % 10)];
      assert pa == s[..|s| - 1] == pb;
      DigitCharInjective(a % 10, b % 10);
      NatToStringInjective(a / 10, b / 10);
    }
  }

  // ---------------------------------------------------------------------
  // filterUnderscores (nestless.js:704-718)

  const Discard: string := "_"

  /** The binder list with its trailing `_` entries popped off. */
  function TrimDiscards(ps: seq<string>): (r: seq<string>)
    ensures r <= ps
    ensures r == [] || r[|r| - 1] != Discard
    ensures forall i :: |r| <= i < |ps| ==> ps[i] == Discard
  {
    if ps != [] && ps[|ps| - 1] == Discard then TrimDiscards(ps[..|ps| - 1]) else ps
  }

  /** How many entries of `ps` are `_`. */
  function CountDiscards(ps: seq<string>): nat {
    if ps == [] then 0 else CountDiscards(ps[..|ps| - 1]) + (if ps[|ps| - 1] == Discard then 1 else 0)
  }

  /** Each `_` of `ps` renamed `_n`, `_(n+1)`, ... from left to right. */
  function NumberDiscards(ps: seq<string>, n: nat): seq<string> {
    if ps == [] then []
    else if ps[0] == Discard then [Discard + NatToString(n)] + NumberDiscards(ps[1..], n + 1)
    else [ps[0]] + NumberDiscards(ps[1..], n)
  }

  /** The name the `i`-th binder of `ps` gets when discards are numbered
      from `n`: its ordinal counts the `_` entries before it. */
  lemma {:induction false} NumberDiscardsAt(ps: seq<string>, n: nat, i: nat)
    requires i < |ps|
    ensures |NumberDiscards(ps, n)| == |ps|
    ensures NumberDiscards(ps, n)[i] ==
      if ps[i] == Discard then Discard + NatToString(n + CountDiscards(ps[..i])) else ps[i]
  {
    NumberDiscardsLength(ps, n);
    if i == 0 {
      assert ps[..0] == [];
    } else {
      var m := if ps[0] == Discard then n + 1 else n;
      NumberDiscardsAt(ps[1..], m, i - 1);
      assert NumberDiscards(ps, n)[i] == NumberDiscards(ps[1..], m)[i - 1];
      assert ps[1..][i - 1] == ps[i];
      CountDiscardsCons(ps[..i]);
      assert ps[..i][1..] == ps[1..][..i - 1];
      assert n + CountDiscards(ps[..i]) == m + CountDiscards(ps[1..][..i - 1]);
    }
  }

  lemma {:induction false} NumberDiscardsLength(ps: seq<string>, n: nat)
    ensures |NumberDiscards(ps, n)| == |ps|
    decreases |ps|
  {
    if ps != [] { NumberDiscardsLength(ps[1..], if ps[0] == Discard then n + 1 else n); }
  }

  /** Counting from the front agrees with counting from the back. */
  lemma {:induction false} CountDiscardsCons(ps: seq<string>)
    requires ps != []
    ensures CountDiscards(ps) == (if ps[0] == Discard then 1 else 0) + CountDiscards(ps[1..])
    decreases |ps|
  {
    if |ps| > 1 {
      CountDiscardsCons(ps[..|ps| - 1]);
      assert ps[..|ps| - 1][1..] == ps[1..][..|ps[1..]| - 1];
    }
  }

  /** Counting over a prefix never decreases as the prefix grows. */
  lemma {:induction false} CountDiscardsPrefix(ps: seq<string>, i: nat, j: nat)
    requires i < j <= |ps| && ps[i] == Discard
    ensures CountDiscards(ps[..i]) < CountDiscards(ps[..j])
    decreases j
  {
    assert ps[..j][..j - 1] == ps[..j - 1];
    if j - 1 > i {
      CountDiscardsPrefix(ps, i, j - 1);
    } else {
      assert ps[..j][j - 1] == ps[i];
    }
  }

  /** `filterUnderscores`: trailing discards are dropped; when more than one
      discard is left, each is renamed with its 1-based ordinal. */
  function FilterUnderscores(input: seq<string>): (r: seq<string>)
    ensures |r| <= |input|
  {
    var trimmed := TrimDiscards(input);
    if CountDiscards(trimmed) > 1 then
      NumberDiscardsLength(trimmed, 1);
      NumberDiscards(trimmed, 1)
    else trimmed
  }

  /** Only a trailing run of `_` is removed: the kept part is a prefix of the
      input that does not end in `_`, and everything after it is `_`. */
  lemma FilterUnderscoresTrims(input: seq<string>)
    ensures var r := FilterUnderscores(input);
      && (|r| == 0 || input[|r| - 1] != Discard)
      && (forall i :: |r| <= i < |input| ==> input[i] == Discard)
  {
    var t := TrimDiscards(input);
    if CountDiscards(t) > 1 { NumberDiscardsLength(t, 1); }
  }

  /** Names other than `_` keep their place; each kept `_` becomes `_k`
      where `k` counts the discards up to and including it, unless it is
      the only discard left. */
  lemma FilterUnderscoresAt(input: seq<string>, i: nat)
    requires i < |FilterUnderscores(input)|
    ensures var r := FilterUnderscores(input);
      var t := TrimDiscards(input);
      && (input[i] != Discard ==> r[i] == input[i])
      && (input[i] == Discard ==>
            r[i] == if CountDiscards(t) > 1 then Discard + NatToString(1 + CountDiscards(input[..i])) else Discard)
  {
    var t := TrimDiscards(input);
    var r := FilterUnderscores(input);
    if CountDiscards(t) > 1 {
      NumberDiscardsLength(t, 1);
      assert r == NumberDiscards(t, 1);
      NumberDiscardsAt(t, 1, i);
    } else {
      assert r == t;
    }
    assert t[i] == input[i] && t[..i] == input[..i];
  }

  /** The renaming leaves no two discards with the same name. */
  lemma FilterUnderscoresDistinct(input: seq<string>, i: nat, j: nat)
    requires i < j < |FilterUnderscores(input)|
    requires input[i] == Discard && input[j] == Discard
    ensures FilterUnderscores(input)[i] != FilterUnderscores(input)[j]
  {
    var t := TrimDiscards(input);
    var r := FilterUnderscores(input);
    NumberDiscardsLength(t, 1);
    if CountDiscards(t) <= 1 {
      assert t[i] == input[i] && t[j] == input[j] && t[..|t|] == t;
      CountDiscardsPrefix(t, i, j);
      CountDiscardsPrefix(t, j, |t|);
      assert false;
    }
    FilterUnderscoresAt(input, i);
    FilterUnderscoresAt(input, j);
    CountDiscardsPrefix(input, i, j);
    if r[i] == r[j] {
      assert r[i][1..] == NatToString(1 + CountDiscards(input[..i]));
      assert r[j][1..] == NatToString(1 + CountDiscards(input[..j]));
      NatToStringInjective(1 + CountDiscards(input[..i]), 1 + CountDiscards(input[..j]));
    }
  }

  /** Renamed discards are kept apart from each other only: a binder the
      user already called `_1` can meet a renamed one, as in
      `_, _1, _, x`, which becomes `_1, _1, _2, x`. */
  lemma FilterUnderscoresMeetsNamed()
    ensures FilterUnderscores(["_", "_1", "_", "x"]) == ["_1", "_1", "_2", "x"]
  {
    var ps := ["_", "_1", "_", "x"];
    assert TrimDiscards(ps) == ps;
    assert CountDiscards(["_"]) == 1 by { assert ["_"][..0] == []; }
    assert CountDiscards(["_", "_1"]) == 1 by { assert ["_", "_1"][..1] == ["_"]; }
    assert CountDiscards(["_", "_1", "_"]) == 2 by { assert ["_", "_1", "_"][..2] == ["_", "_1"]; }
    assert CountDiscards(ps) == 2 by { assert ps[..3] == ["_", "_1", "_"]; }
    assert Discard + NatToString(1) == "_1" && Discard + NatToString(2) == "_2" by {
      assert DigitChar(1) == '1' && DigitChar(2) == '2';
    }
    assert NumberDiscards(["x"], 3) == ["x"] by { assert ["x"][1..] == []; }
    assert NumberDiscards(["_", "x"], 2) == ["_2", "x"] by { assert ["_", "x"][1..] == ["x"]; }
    assert NumberDiscards(["_1", "_", "x"], 2) == ["_1", "_2", "x"] by { assert ["_1", "_", "x"][1..] == ["_", "x"]; }
    assert ps[1..] == ["_1", "_", "x"];
  }

  // ---------------------------------------------------------------------
  // CALLBACK_RE = /c(?:all)?b(?:ack)?/i (nestless.js:10), an unanchored,
  // case-insensitive search: it matches exactly when "cb" or "callb" occurs.

  function LowerAscii(c: char): char {
    if 'A' <= c <= 'Z' then (c as int + 32) as char else c
  }

  function Lower(s: string): (r: string)
    ensures |r| == |s| && forall i :: 0 <= i < |s| ==> r[i] == LowerAscii(s[i])
  {
    if s == [] then [] else [LowerAscii(s[0])] + Lower(s[1..])
  }

  predicate OccursAt(pat: string, s: string, i: nat) {
    i + |pat| <= |s| && s[i..i + |pat|] == pat
  }

  /** Scans `s` from position `i` for "cb" or "callb". */
  function SearchCallback(s: string, i: nat): (found: bool)
    requires i <= |s|
    ensures found <==> exists k :: i <= k <= |s| && (OccursAt("cb", s, k) || OccursAt("callb", s, k))
    decreases |s| - i
  {
    if i == |s| then false
    else if OccursAt("cb", s, i) || OccursAt("callb", s, i) then true
    else SearchCallback(s, i + 1)
  }

  /** Whether a parameter name passes the callback-name test. */
  function IsCallbackName(name: string): (r: bool)
    ensures r <==> exists k :: 0 <= k <= |name| && (OccursAt("cb", Lower(name), k) || OccursAt("callb", Lower(name), k))
  {
    SearchCallback(Lower(name), 0)
  }

  // ---------------------------------------------------------------------
  // splitArrow (nestless.js:668-702)

  /** A recognised bind statement `params... <- rhs`, where `rhs` is a
      call and `argList` its argument list. */
  datatype Arrow = Arrow(rhs: Expr, argList: Expr, params: seq<string>)

  /** The names of the leading identifiers of `items`, up to the first
      element that is not an identifier. */
  function LeadingNames(items: seq<Expr>): (names: seq<string>)
    ensures |names| <= |items|
    ensures forall i :: 0 <= i < |names| ==> items[i].kind == Identifier(names[i])
  {
    if items == [] || !items[0].kind.Identifier? then []
    else [items[0].kind.name] + LeadingNames(items[1..])
  }

  /** Reads an expression statement's expression as a bind statement:
      `Ok(None)` when it is not one, `Ok(Some(arrow))` when it is, and an
      error when it starts like one but is malformed. */
  function SplitArrow(e: Expr): (r: Result<Option<Arrow>>)
    ensures r.Ok? && r.value.Some? ==>
      var a := r.value.value;
      && a.rhs.kind.Call? && a.argList == a.rhs.kind.args && a.argList.kind.List?
      && |a.params| >= 1
  {
    var tuple := if e.kind.Comma? then e.kind.items else [];
    if e.kind.Comma? && tuple == [] then Err(Bug("Empty comma expression"))
    else
      var params := if e.kind.Comma? then LeadingNames(tuple[..|tuple| - 1]) else [];
      var arrow := if e.kind.Comma? then tuple[|tuple| - 1] else e;
      if !arrow.kind.Less? then Ok(None)
      else if !arrow.kind.right.kind.Negate? then Err(Nope("Incomplete arrow"))
      else if !arrow.kind.left.kind.Identifier? then Err(Nope("Identifier(s) expected before arrow"))
      else
        var rhs := arrow.kind.right.kind.operand;
        if !rhs.kind.Call? then Err(Nope("Call expected after arrow"))
        else if !rhs.kind.args.kind.List? then Err(Bug("Unexpected call format"))
        else Ok(Some(Arrow(rhs, rhs.kind.args, params + [arrow.kind.left.kind.name])))
  }

  /** Whether `e` is written `ids..., x < -call`: the shape that SplitArrow
      reports as no bind statement at all when the last part is not `<`. */
  predicate EndsInLess(e: Expr) {
    if e.kind.Comma? then e.kind.items != [] && e.kind.items[|e.kind.items| - 1].kind.Less?
    else e.kind.Less?
  }

  /** An expression is a bind candidate exactly when its last comma part is
      a `<` comparison; anything else is an ordinary expression statement. */
  lemma SplitArrowNone(e: Expr)
    requires !e.kind.Comma? || e.kind.items != []
    ensures SplitArrow(e) == Ok(None) <==> !EndsInLess(e)
  {
  }

  /** Building `p1, ..., pk, x < -call(args)` from identifiers and splitting
      it again gives back the binder names and the call. */
  lemma {:induction false} SplitArrowRoundTrip(ids: seq<Expr>, x: Expr, neg: Expr, call: Expr, whole: Expr)
    requires forall i :: 0 <= i < |ids| ==> ids[i].kind.Identifier?
    requires x.kind.Identifier? && neg.kind == Negate(call) && call.kind.Call? && call.kind.args.kind.List?
    requires whole.kind.Less? && whole.kind.left == x && whole.kind.right == neg
    ensures SplitArrow(Expr(Comma(ids + [whole]), 0, 0)) ==
      Ok(Some(Arrow(call, call.kind.args, Names(ids) + [x.kind.name])))
  {
    var items := ids + [whole];
    assert items[..|items| - 1] == ids;
    LeadingNamesAll(ids);
  }

  function Names(ids: seq<Expr>): seq<string>
    requires forall i :: 0 <= i < |ids| ==> ids[i].kind.Identifier?
  {
    if ids == [] then [] else [ids[0].kind.name] + Names(ids[1..])
  }

  lemma {:induction false} LeadingNamesAll(ids: seq<Expr>)
    requires forall i :: 0 <= i < |ids| ==> ids[i].kind.Identifier?
    ensures LeadingNames(ids) == Names(ids)
  {
    if ids != [] { LeadingNamesAll(ids[1..]); }
  }

  /** The single-binder form `x < -call(args)`, with no comma, splits into
      the call and the one name. */
  lemma SplitArrowSingle(x: Expr, neg: Expr, call: Expr, whole: Expr)
    requires x.kind.Identifier? && neg.kind == Negate(call) && call.kind.Call? && call.kind.args.kind.List?
    requires whole.kind == Less(x, neg)
    ensures SplitArrow(whole) == Ok(Some(Arrow(call, call.kind.args, [x.kind.name])))
  {
    assert [] + [x.kind.name] == [x.kind.name];
  }

  /** A non-identifier in the tuple does not raise the "Identifiers(s)
      expected in tuple" error (its guard tests a flag that is never
      cleared): collecting binder names just stops there. */
  lemma {:induction false} SplitArrowStopsAtNonIdentifier(ids: seq<Expr>, bad: Expr, rest: seq<Expr>,
                                                       x: Expr, call: Expr, whole: Expr)
    requires forall i :: 0 <= i < |ids| ==> ids[i].kind.Identifier?
    requires !bad.kind.Identifier?
    requires x.kind.Identifier? && call.kind.Call? && call.kind.args.kind.List?
    requires whole.kind == Less(x, Expr(Negate(call), 0, 0))
    ensures SplitArrow(Expr(Comma(ids + [bad] + rest + [whole]), 0, 0)) ==
      Ok(Some(Arrow(call, call.kind.args, Names(ids) + [x.kind.name])))
  {
    var items := ids + [bad] + rest + [whole];
    var front := items[..|items| - 1];
    assert front == ids + ([bad] + rest);
    LeadingNamesStop(ids, [bad] + rest);
    LeadingNamesAll(ids);
  }

  lemma {:induction false} LeadingNamesStop(ids: seq<Expr>, tail: seq<Expr>)
    requires forall i :: 0 <= i < |ids| ==> ids[i].kind.Identifier?
    requires tail != [] && !tail[0].kind.Identifier?
    ensures LeadingNames(ids + tail) == LeadingNames(ids)
  {
    if ids != [] {
      assert (ids + tail)[1..] == ids[1..] + tail;
      LeadingNamesStop(ids[1..], tail);
    }
  }
}
