/** The emitter of nestless.js (`emit`, nestless.js:611-656): walks the
    source once, left to right, copying text between patch points, writing
    the insertions queued at each point and then its replacement text, and
    skipping the replaced span. The output is returned rather than written
    to a stream. */
module Emit {
  import opened Diagnostics
  import opened Patches

  /** Every replacement span runs forwards (the recorder guarantees it). */
  ghost predicate Forward(reps: map<int, Replacement>) {
    forall p :: p in reps ==> p <= reps[p].end
  }

  /** The offsets at which something is patched. */
  function PointSet(reps: map<int, Replacement>, ins: map<int, seq<string>>): set<int> {
    reps.Keys + ins.Keys
  }

  predicate Increasing(ps: seq<int>) {
    forall i, j :: 0 <= i < j < |ps| ==> ps[i] < ps[j]
  }

  lemma Inhabited(s: set<int>)
    requires s != {}
    ensures exists x :: x in s
  {
    if forall x :: x !in s { assert false; }
  }

  /** `m` is the least element of `s`. */
  predicate IsMin(m: int, s: set<int>) {
    m in s && forall y :: y in s ==> m <= y
  }

  /** A non-empty finite set of integers has a least element. */
  lemma {:induction false} MinExists(s: set<int>)
    requires s != {}
    ensures exists m :: IsMin(m, s)
    decreases |s|
  {
    Inhabited(s);
    var x :| x in s;
    var rest := s - {x};
    if rest == {} {
      assert s == {x};
      assert IsMin(x, s);
    } else {
      MinExists(rest);
      var m :| IsMin(m, rest);
      if x < m {
        forall y | y in s ensures x <= y { if y != x { assert y in rest; } }
        assert IsMin(x, s);
      } else {
        forall y | y in s ensures m <= y { if y != x { assert y in rest; } }
        assert IsMin(m, s);
      }
    }
  }

  /** The patch points in ascending order (the JS numeric sort). */
  function SortedPoints(s: set<int>): (ps: seq<int>)
    ensures Increasing(ps) && |ps| == |s|
    ensures forall p :: p in ps <==> p in s
    decreases |s|
  {
    if s == {} then []
    else
      MinExists(s);
      var m :| IsMin(m, s);
      var rest := SortedPoints(s - {m});
      assert forall p :: p in rest ==> m < p;
      [m] + rest
  }

  /** `fragments.join('')`. */
  function Joined(fragments: seq<string>): string {
    if fragments == [] then "" else fragments[0] + Joined(fragments[1..])
  }

  /** The text queued for insertion at `p`. */
  function Inserted(ins: map<int, seq<string>>, p: int): string {
    if p in ins then Joined(ins[p]) else ""
  }

  function Min(a: int, b: int): int {
    if a <= b then a else b
  }

  function Prepend(s: string, r: Result<string>): Result<string> {
    match r
    case Ok(t) => Ok(s + t)
    case Err(e) => Err(e)
  }

  lemma PrependEmpty(r: Result<string>)
    ensures Prepend("", r) == r
  {
    if r.Ok? { assert "" + r.value == r.value; }
  }

  lemma PrependAssoc(a: string, b: string, r: Result<string>)
    ensures Prepend(a, Prepend(b, r)) == Prepend(a + b, r)
  {
    if r.Ok? { assert a + (b + r.value) == (a + b) + r.value; }
  }

  lemma Associative(a: string, b: string, c: string)
    ensures (a + b) + c == a + (b + c)
  {
  }

  /** What the emitter's loop produces from read cursor `pos` with the
      points `ps` still to visit. */
  function Run(src: string, reps: map<int, Replacement>, ins: map<int, seq<string>>, ps: seq<int>, pos: nat): Result<string>
    requires Forward(reps)
    decreases |ps|
  {
    if pos >= |src| then Ok("")
    else if ps == [] then Ok(src[pos..])
    else if ps[0] < pos then
      Err(Bug(if ps[0] in reps then "Replacement was overwritten by another replacement"
              else "Insertion was overwritten by another replacement"))
    else if ps[0] >= |src| then Ok(src[pos..])
    else
      var next: nat := ps[0];
      var copied := src[pos..next] + Inserted(ins, next);
      if next in reps then
        var e: nat := reps[next].end;
        if '\n' in src[next..Min(e, |src|)] then Err(Bug("Replacement would squash newline"))
        else Prepend(copied + reps[next].text, Run(src, reps, ins, ps[1..], e))
      else Prepend(copied, Run(src, reps, ins, ps[1..], next))
  }

  /** The emitter. Its result is what `Run` describes for the ascending
      point list; the lemmas below say what that is. */
  method Emit(src: string, reps: map<int, Replacement>, ins: map<int, seq<string>>) returns (r: Result<string>)
    requires Forward(reps)
    ensures r == Run(src, reps, ins, SortedPoints(PointSet(reps, ins)), 0)
  {
    var points := SortedPoints(reps.Keys + ins.Keys);
    r := Walk(src, reps, ins, points);
  }

  /** The emitter's main loop over the ascending point list `all`. */
  method Walk(src: string, reps: map<int, Replacement>, ins: map<int, seq<string>>, all: seq<int>) returns (r: Result<string>)
    requires Forward(reps)
    ensures r == Run(src, reps, ins, all, 0)
  {
    var points := all;
    var out := "";
    var pos: nat := 0;
    PrependEmpty(Run(src, reps, ins, points, pos));
    while pos < |src|
      invariant Run(src, reps, ins, all, 0) == Prepend(out, Run(src, reps, ins, points, pos))
      decreases |points|
    {
      if points == [] {
        out := out + src[pos..];
        break;
      }
      var chunk, next, last := Step(src, reps, ins, points, pos);
      if last.Some? {
        if last.value.Err? {
          return last.value;
        }
        out := out + last.value.value;
        break;
      }
      PrependAssoc(out, chunk, Run(src, reps, ins, points[1..], next));
      out := out + chunk;
      points := points[1..];
      pos := next;
    }
    assert out + "" == out;
    return Ok(out);
  }

  /** One pass of the emitter's loop at point `points[0]`, read cursor
      `pos`: either the rest of the output is settled (`last`), or `chunk`
      is written and the walk goes on from `next`. The JS inner loop
      `while (next < pos)` throws on its first pass, since every point is a
      key of one of the two maps. */
  method Step(src: string, reps: map<int, Replacement>, ins: map<int, seq<string>>, points: seq<int>, pos: nat)
    returns (chunk: string, next: nat, last: Option<Result<string>>)
    requires Forward(reps) && pos < |src| && points != []
    ensures last.Some? ==> Run(src, reps, ins, points, pos) == last.value
    ensures last.None? ==> Run(src, reps, ins, points, pos) == Prepend(chunk, Run(src, reps, ins, points[1..], next))
  {
    chunk, next := "", pos;
    if points[0] < pos {
      if points[0] in reps {
        return chunk, next, Some(Err(Bug("Replacement was overwritten by another replacement")));
      }
      return chunk, next, Some(Err(Bug("Insertion was overwritten by another replacement")));
    }
    next := points[0];
    if next >= |src| {
      return chunk, next, Some(Ok(src[pos..]));
    }
    chunk := src[pos..next] + Inserted(ins, next);
    if next in reps {
      var repl := reps[next];
      if '\n' in src[next..Min(repl.end, |src|)] {
        return chunk, next, Some(Err(Bug("Replacement would squash newline")));
      }
      chunk := chunk + repl.text;
      next := repl.end;
    }
    last := None;
  }

  // ---------------------------------------------------------------------
  // A reference definition of the output, position by position.

  /** Source offset `i` lies inside a replaced span. */
  ghost predicate Covered(reps: map<int, Replacement>, i: int) {
    exists p :: p in reps && p <= i < reps[p].end
  }

  /** What a patch at offset `i` contributes: its insertions, then its
      replacement text. */
  function PatchAt(reps: map<int, Replacement>, ins: map<int, seq<string>>, i: int): string {
    Inserted(ins, i) + (if i in reps then reps[i].text else "")
  }

  /** The output from source offset `i` on, where patches below `lo` are
      already written: at each offset the patch text comes first, then the
      source character unless a replacement covers it. */
  ghost function Splice(src: string, reps: map<int, Replacement>, ins: map<int, seq<string>>, i: nat, lo: int): string
    decreases |src| - i
  {
    if i >= |src| then ""
    else
      (if i >= lo then PatchAt(reps, ins, i) else "")
      + (if Covered(reps, i) then "" else [src[i]])
      + Splice(src, reps, ins, i + 1, lo)
  }

  /** No patch point lies strictly inside a replaced span. */
  ghost predicate Disjoint(reps: map<int, Replacement>, ins: map<int, seq<string>>) {
    forall p, q :: p in reps && q in PointSet(reps, ins) && p < q ==> reps[p].end <= q
  }

  /** No replacement at or after `pos` inside the source would remove a
      line break. */
  ghost predicate KeepsLinesFrom(src: string, reps: map<int, Replacement>, pos: nat) {
    Forward(reps) &&
    forall p :: p in reps && pos <= p < |src| ==> '\n' !in src[p..Min(reps[p].end, |src|)]
  }

  lemma {:induction false} SpliceLo(src: string, reps: map<int, Replacement>, ins: map<int, seq<string>>, i: nat, lo: int, lo': int)
    requires lo <= i && lo' <= i
    ensures Splice(src, reps, ins, i, lo) == Splice(src, reps, ins, i, lo')
    decreases |src| - i
  {
    if i < |src| { SpliceLo(src, reps, ins, i + 1, lo, lo'); }
  }

  /** Offsets that are neither patched nor covered are copied verbatim. */
  lemma {:induction false} SpliceCopy(src: string, reps: map<int, Replacement>, ins: map<int, seq<string>>, pos: nat, next: nat, lo: int)
    requires pos <= next <= |src|
    requires forall i :: pos <= i < next ==> !Covered(reps, i) && (i >= lo ==> i !in reps && i !in ins)
    ensures Splice(src, reps, ins, pos, lo) == src[pos..next] + Splice(src, reps, ins, next, lo)
    decreases next - pos
  {
    var rest := Splice(src, reps, ins, next, lo);
    if pos < next {
      SpliceCopy(src, reps, ins, pos + 1, next, lo);
      SpliceKeep(src, reps, ins, pos, lo);
      assert src[pos..next] == [src[pos]] + src[pos + 1..next];
      Associative([src[pos]], src[pos + 1..next], rest);
    } else {
      assert src[pos..next] + rest == rest;
    }
  }

  /** An offset that is neither patched nor covered is copied. */
  lemma SpliceKeep(src: string, reps: map<int, Replacement>, ins: map<int, seq<string>>, i: nat, lo: int)
    requires i < |src| && !Covered(reps, i) && (i >= lo ==> i !in reps && i !in ins)
    ensures Splice(src, reps, ins, i, lo) == [src[i]] + Splice(src, reps, ins, i + 1, lo)
  {
    assert (if i >= lo then PatchAt(reps, ins, i) else "") == "";
    assert forall t: string :: "" + t == t;
  }

  /** Offsets that are covered and not patched contribute nothing. */
  lemma {:induction false} SpliceSkip(src: string, reps: map<int, Replacement>, ins: map<int, seq<string>>, a: nat, b: nat, lo: int)
    requires a <= b
    requires forall i :: a <= i < b ==> Covered(reps, i) && (i >= lo ==> i !in reps && i !in ins)
    ensures Splice(src, reps, ins, a, lo) == Splice(src, reps, ins, b, lo)
    decreases b - a
  {
    if a < b && a < |src| {
      SpliceSkip(src, reps, ins, a + 1, b, lo);
      assert Covered(reps, a) && (a >= lo ==> a !in reps && a !in ins);
      assert Splice(src, reps, ins, a, lo) == "" + "" + Splice(src, reps, ins, a + 1, lo);
    } else if a < b {
      SpliceEnd(src, reps, ins, b, lo);
    }
  }

  lemma SpliceEnd(src: string, reps: map<int, Replacement>, ins: map<int, seq<string>>, i: nat, lo: int)
    requires i >= |src|
    ensures Splice(src, reps, ins, i, lo) == ""
  {
  }

  /** Where the emitter's loop stands at cursor `pos` with `ps` still to
      visit: `ps` holds, in ascending order, exactly the points from `lo`
      on, and every replacement before `lo` has ended by `pos`. */
  ghost predicate Pending(reps: map<int, Replacement>, ins: map<int, seq<string>>, ps: seq<int>, pos: nat, lo: int) {
    && Increasing(ps)
    && pos <= lo <= pos + 1
    && (forall q :: q in ps <==> q in PointSet(reps, ins) && q >= lo)
    && (forall p :: p in reps && p < lo ==> reps[p].end <= pos)
  }

  lemma FirstIsLeast(ps: seq<int>, q: int)
    requires Increasing(ps) && q in ps
    ensures ps != [] && ps[0] <= q
  {
    var k :| 0 <= k < |ps| && ps[k] == q;
  }

  /** Below the next point, no offset is covered or (from `lo` on) patched. */
  lemma PendingBelow(reps: map<int, Replacement>, ins: map<int, seq<string>>, ps: seq<int>, pos: nat, lo: int, bound: int)
    requires Pending(reps, ins, ps, pos, lo)
    requires ps == [] || bound <= ps[0]
    ensures forall i :: pos <= i < bound ==> !Covered(reps, i) && (i >= lo ==> i !in reps && i !in ins)
  {
    forall i | pos <= i < bound
      ensures !Covered(reps, i) && (i >= lo ==> i !in reps && i !in ins)
    {
      if i >= lo && (i in reps || i in ins) {
        assert i in PointSet(reps, ins);
        FirstIsLeast(ps, i);
        assert false;
      }
      if Covered(reps, i) {
        var p :| p in reps && p <= i < reps[p].end;
        if p >= lo {
          assert p in PointSet(reps, ins);
          FirstIsLeast(ps, p);
        }
        assert false;
      }
    }
  }

  /** With no point left inside the source, the loop copies the rest. */
  lemma RunRest(src: string, reps: map<int, Replacement>, ins: map<int, seq<string>>, ps: seq<int>, pos: nat, lo: int)
    requires Forward(reps) && Pending(reps, ins, ps, pos, lo)
    requires pos < |src| && (ps == [] || ps[0] >= |src|)
    ensures Run(src, reps, ins, ps, pos) == Ok(src[pos..])
    ensures KeepsLinesFrom(src, reps, pos)
    ensures Splice(src, reps, ins, pos, lo) == src[pos..]
  {
    PendingBelow(reps, ins, ps, pos, lo, |src|);
    SpliceCopy(src, reps, ins, pos, |src|, lo);
    SpliceEnd(src, reps, ins, |src|, lo);
    assert src[pos..|src|] + "" == src[pos..];
    forall p | p in reps && pos <= p < |src|
      ensures '\n' !in src[p..Min(reps[p].end, |src|)]
    {
      assert p < lo && reps[p].end == p;
    }
  }

  /** Where the loop's cursor goes after visiting point `next`. */
  function After(reps: map<int, Replacement>, next: int): int {
    if next in reps then reps[next].end else next
  }

  /** The first offset whose patches are still to be written after
      visiting point `next`. */
  function LoAfter(reps: map<int, Replacement>, next: int): int {
    if next in reps && reps[next].end > next then reps[next].end else next + 1
  }

  /** Visiting the first point leaves the loop in a pending state again. */
  lemma PendingStep(reps: map<int, Replacement>, ins: map<int, seq<string>>, ps: seq<int>, pos: nat, lo: int)
    requires Forward(reps) && Disjoint(reps, ins) && Pending(reps, ins, ps, pos, lo) && ps != []
    ensures ps[0] >= pos && After(reps, ps[0]) >= ps[0]
    ensures Pending(reps, ins, ps[1..], After(reps, ps[0]), LoAfter(reps, ps[0]))
  {
    assert ps[0] in ps;
    var next := ps[0];
    var e := After(reps, next);
    var lo' := LoAfter(reps, next);
    forall q | q in ps[1..] ensures q >= lo' {
      var k :| 1 <= k < |ps| && ps[k] == q;
      assert next < q;
      assert q in PointSet(reps, ins);
    }
    forall q | q in PointSet(reps, ins) && q >= lo' ensures q in ps[1..] {
      assert q in ps;
      var k :| 0 <= k < |ps| && ps[k] == q;
      assert k != 0;
    }
    forall p | p in reps && p < lo' ensures reps[p].end <= e {
      if p >= lo {
        assert p in PointSet(reps, ins);
        FirstIsLeast(ps, p);
      }
    }
  }

  /** The reference output at a visited point: its patch, then what
      follows the span it replaces. */
  lemma SpliceStep(src: string, reps: map<int, Replacement>, ins: map<int, seq<string>>, ps: seq<int>, pos: nat, lo: int)
    requires Forward(reps) && Disjoint(reps, ins) && Pending(reps, ins, ps, pos, lo)
    requires ps != [] && pos <= ps[0] < |src|
    ensures Splice(src, reps, ins, ps[0], lo)
      == PatchAt(reps, ins, ps[0]) + Splice(src, reps, ins, After(reps, ps[0]), LoAfter(reps, ps[0]))
  {
    assert ps[0] in ps;
    var next := ps[0];
    if After(reps, next) == next {
      assert !Covered(reps, next);
      SpliceStepKeep(src, reps, ins, next, lo);
    } else {
      SpliceStepSkip(src, reps, ins, next, lo);
    }
  }

  lemma SpliceStepKeep(src: string, reps: map<int, Replacement>, ins: map<int, seq<string>>, next: nat, lo: int)
    requires lo <= next < |src| && !Covered(reps, next)
    ensures Splice(src, reps, ins, next, lo) == PatchAt(reps, ins, next) + Splice(src, reps, ins, next, next + 1)
  {
    SpliceLo(src, reps, ins, next + 1, lo, next + 1);
    var tail := Splice(src, reps, ins, next + 1, lo);
    assert Splice(src, reps, ins, next, next + 1) == [src[next]] + tail by {
      SpliceKeep(src, reps, ins, next, next + 1);
    }
    assert Splice(src, reps, ins, next, lo) == PatchAt(reps, ins, next) + [src[next]] + tail by {
      SplicePatchKeep(src, reps, ins, next, lo);
    }
    Associative(PatchAt(reps, ins, next), [src[next]], tail);
  }

  lemma SplicePatchKeep(src: string, reps: map<int, Replacement>, ins: map<int, seq<string>>, i: nat, lo: int)
    requires lo <= i < |src| && !Covered(reps, i)
    ensures Splice(src, reps, ins, i, lo) == PatchAt(reps, ins, i) + [src[i]] + Splice(src, reps, ins, i + 1, lo)
  {
  }

  lemma SpliceStepSkip(src: string, reps: map<int, Replacement>, ins: map<int, seq<string>>, next: nat, lo: int)
    requires Disjoint(reps, ins)
    requires lo <= next < |src| && next in reps && reps[next].end > next
    ensures Splice(src, reps, ins, next, lo) == PatchAt(reps, ins, next) + Splice(src, reps, ins, reps[next].end, reps[next].end)
  {
    var e := reps[next].end;
    var stop := Min(e, |src|);
    assert Splice(src, reps, ins, next + 1, lo) == Splice(src, reps, ins, stop, lo) by {
      InsideSpan(reps, ins, next);
      SpliceSkip(src, reps, ins, next + 1, stop, lo);
    }
    assert Splice(src, reps, ins, stop, lo) == Splice(src, reps, ins, e, e) by {
      if e >= |src| {
        SpliceEnd(src, reps, ins, stop, lo);
        SpliceEnd(src, reps, ins, e, e);
      } else {
        SpliceLo(src, reps, ins, e, lo, e);
      }
    }
    assert Splice(src, reps, ins, next, lo) == PatchAt(reps, ins, next) + Splice(src, reps, ins, next + 1, lo) by {
      assert Covered(reps, next);
      assert PatchAt(reps, ins, next) + "" == PatchAt(reps, ins, next);
    }
  }

  /** Offsets strictly inside a replaced span are covered and, with no
      point inside a span, not patched. */
  lemma InsideSpan(reps: map<int, Replacement>, ins: map<int, seq<string>>, p: int)
    requires Disjoint(reps, ins) && p in reps
    ensures forall i :: p < i < reps[p].end ==> Covered(reps, i) && i !in reps && i !in ins
  {
    forall i | p < i < reps[p].end
      ensures Covered(reps, i) && i !in reps && i !in ins
    {
      assert i !in PointSet(reps, ins);
    }
  }

  /** The line-break check from `pos` is the check at the next point plus
      the check from where the cursor goes next. */
  lemma KeepsStep(src: string, reps: map<int, Replacement>, ins: map<int, seq<string>>, ps: seq<int>, pos: nat, lo: int)
    requires Forward(reps) && Disjoint(reps, ins) && Pending(reps, ins, ps, pos, lo)
    requires ps != [] && pos <= ps[0] < |src|
    ensures KeepsLinesFrom(src, reps, pos) <==>
      (ps[0] in reps ==> '\n' !in src[ps[0]..Min(reps[ps[0]].end, |src|)]) && KeepsLinesFrom(src, reps, After(reps, ps[0]))
  {
    assert ps[0] in ps;
    var next := ps[0];
    var e := After(reps, next);
    forall p | p in reps && pos <= p < |src| && p != next && p < e
      ensures '\n' !in src[p..Min(reps[p].end, |src|)]
    {
      if p >= lo {
        FirstIsLeast(ps, p);
      }
      assert reps[p].end == p;
    }
    if next in reps && !KeepsLinesFrom(src, reps, e) {
      var p :| p in reps && e <= p < |src| && '\n' in src[p..Min(reps[p].end, |src|)];
      assert pos <= p;
    }
    if next !in reps && !KeepsLinesFrom(src, reps, e) {
      var p :| p in reps && e <= p < |src| && '\n' in src[p..Min(reps[p].end, |src|)];
      assert pos <= p;
    }
  }

  /** The emitter's loop, from any cursor, agrees with the reference
      definition when no point falls inside a replaced span, and fails
      exactly when a replacement would remove a line break. */
  lemma {:induction false} RunSplices(src: string, reps: map<int, Replacement>, ins: map<int, seq<string>>,
                                      ps: seq<int>, pos: nat, lo: int)
    requires Forward(reps) && Disjoint(reps, ins) && Pending(reps, ins, ps, pos, lo)
    ensures var r := Run(src, reps, ins, ps, pos);
      && (r.Ok? <==> KeepsLinesFrom(src, reps, pos))
      && (r.Ok? ==> r.value == Splice(src, reps, ins, pos, lo))
    decreases |ps|
  {
    if pos >= |src| {
    } else if ps == [] || ps[0] >= |src| {
      RunRest(src, reps, ins, ps, pos, lo);
    } else {
      PendingStep(reps, ins, ps, pos, lo);
      var next: nat := ps[0];
      var e: nat := After(reps, next);
      PendingBelow(reps, ins, ps, pos, lo, next);
      SpliceCopy(src, reps, ins, pos, next, lo);
      SpliceStep(src, reps, ins, ps, pos, lo);
      KeepsStep(src, reps, ins, ps, pos, lo);
      RunSplices(src, reps, ins, ps[1..], e, LoAfter(reps, next));
      var copied := src[pos..next] + Inserted(ins, next);
      var rest := Run(src, reps, ins, ps[1..], e);
      if next in reps {
        if '\n' !in src[next..Min(e, |src|)] {
          assert Run(src, reps, ins, ps, pos) == Prepend(copied + reps[next].text, rest);
          if rest.Ok? {
            Associative(src[pos..next] + Inserted(ins, next), reps[next].text, rest.value);
            Associative(src[pos..next], Inserted(ins, next), reps[next].text + rest.value);
            Associative(Inserted(ins, next), reps[next].text, rest.value);
          }
        }
      } else {
        assert Run(src, reps, ins, ps, pos) == Prepend(copied, rest);
        if rest.Ok? {
          assert PatchAt(reps, ins, next) == Inserted(ins, next) + "" == Inserted(ins, next);
          Associative(src[pos..next], Inserted(ins, next), rest.value);
        }
      }
    }
  }

  /** With no point inside a replaced span and no negative point, the
      output is the reference splice, and the emitter fails exactly when a
      replacement inside the source would remove a line break. */
  lemma EmitSplices(src: string, reps: map<int, Replacement>, ins: map<int, seq<string>>)
    requires Forward(reps) && Disjoint(reps, ins)
    requires forall q :: q in PointSet(reps, ins) ==> q >= 0
    ensures var r := Run(src, reps, ins, SortedPoints(PointSet(reps, ins)), 0);
      && (r.Ok? <==> KeepsLinesFrom(src, reps, 0))
      && (r.Ok? ==> r.value == Splice(src, reps, ins, 0, 0))
  {
    var ps := SortedPoints(PointSet(reps, ins));
    assert Pending(reps, ins, ps, 0, 0);
    RunSplices(src, reps, ins, ps, 0, 0);
  }

  /** With nothing recorded, the reference output is the source itself. */
  lemma {:induction false} SpliceUnpatched(src: string, i: nat, lo: int)
    requires i <= |src|
    ensures Splice(src, map[], map[], i, lo) == src[i..]
    decreases |src| - i
  {
    if i < |src| {
      SpliceUnpatched(src, i + 1, lo);
      SpliceKeep(src, map[], map[], i, lo);
      assert src[i..] == [src[i]] + src[i + 1..];
    }
  }

  /** Emitting with no patches reproduces the source. */
  lemma EmitUnpatched(src: string)
    ensures Run(src, map[], map[], SortedPoints(PointSet(map[], map[])), 0) == Ok(src)
  {
    EmitSplices(src, map[], map[]);
    SpliceUnpatched(src, 0, 0);
  }

  /** A point strictly inside a replaced span that ends inside the source
      makes the emitter fail, whatever else is recorded. */
  lemma EmitDetectsOverlap(src: string, reps: map<int, Replacement>, ins: map<int, seq<string>>, p: int, q: int)
    requires Forward(reps) && (forall r :: r in reps ==> reps[r].end < |src|)
    requires p in reps && q in PointSet(reps, ins) && 0 <= p < q < reps[p].end
    ensures Run(src, reps, ins, SortedPoints(PointSet(reps, ins)), 0).Err?
  {
    RunDetects(src, reps, ins, SortedPoints(PointSet(reps, ins)), 0, p, q);
  }

  lemma {:induction false} RunDetects(src: string, reps: map<int, Replacement>, ins: map<int, seq<string>>,
                                      ps: seq<int>, pos: nat, p: int, q: int)
    requires Forward(reps) && (forall r :: r in reps ==> reps[r].end < |src|)
    requires Increasing(ps) && p in ps && q in ps
    requires p in reps && p < q < reps[p].end && pos < |src|
    ensures Run(src, reps, ins, ps, pos).Err?
    decreases |ps|
  {
    FirstIsLeast(ps, p);
    if ps[0] >= pos {
      var next: nat := ps[0];
      var e := After(reps, next);
      var k :| 0 <= k < |ps| && ps[k] == q;
      assert k > 0 && q in ps[1..];
      if next == p {
        if '\n' !in src[next..Min(e, |src|)] {
          FirstIsLeast(ps[1..], q);
          assert Run(src, reps, ins, ps[1..], e).Err?;
        }
      } else {
        var j :| 0 <= j < |ps| && ps[j] == p;
        assert j > 0 && p in ps[1..];
        RunDetects(src, reps, ins, ps[1..], e, p, q);
      }
    }
  }

  /** A replacement that reaches the end of the source ends the walk: a
      point recorded inside it is dropped without an error. */
  lemma EmitDropsPastEnd()
    ensures var reps := map[1 := Replacement(3, "X")];
            var ins := map[2 := ["Y"]];
            Run("abc", reps, ins, SortedPoints(PointSet(reps, ins)), 0) == Ok("aX")
  {
    var reps := map[1 := Replacement(3, "X")];
    var ins := map[2 := ["Y"]];
    var ps := SortedPoints(PointSet(reps, ins));
    assert PointSet(reps, ins) == {1, 2};
    assert 1 in ps && 2 in ps;
    assert ps == [1, 2] by {
      FirstIsLeast(ps, 1);
      assert |ps| == 2;
    }
    assert Inserted(ins, 1) == "";
    assert "abc"[0..1] + "" == "a";
    assert "abc"[1..Min(3, 3)] == "bc";
    assert Run("abc", reps, ins, [2], 3) == Ok("");
    assert "a" + "X" + "" == "aX";
  }

  // ---------------------------------------------------------------------
  // Line breaks: the reason the recorder refuses line breaks in patch text
  // and the emitter refuses to replace one is that the output must keep
  // every source line on the line it started on.

  /** The number of line breaks in `s`. */
  function LineBreaks(s: string): nat {
    if s == [] then 0 else (if s[0] == '\n' then 1 else 0) + LineBreaks(s[1..])
  }

  lemma {:induction false} LineBreaksConcat(a: string, b: string)
    ensures LineBreaks(a + b) == LineBreaks(a) + LineBreaks(b)
  {
    if a == [] {
      assert a + b == b;
    } else {
      assert (a + b)[1..] == a[1..] + b;
      LineBreaksConcat(a[1..], b);
    }
  }

  lemma {:induction false} NoLineBreaks(s: string)
    requires '\n' !in s
    ensures LineBreaks(s) == 0
  {
    if s != [] {
      NoLineBreaks(s[1..]);
    }
  }

  lemma {:induction false} JoinedNoLineBreaks(fragments: seq<string>)
    requires forall k :: 0 <= k < |fragments| ==> '\n' !in fragments[k]
    ensures LineBreaks(Joined(fragments)) == 0
  {
    if fragments != [] {
      NoLineBreaks(fragments[0]);
      JoinedNoLineBreaks(fragments[1..]);
      LineBreaksConcat(fragments[0], Joined(fragments[1..]));
    }
  }

  lemma InsertedNoLineBreaks(ins: map<int, seq<string>>, p: int)
    requires forall q, k :: q in ins && 0 <= k < |ins[q]| ==> '\n' !in ins[q][k]
    ensures LineBreaks(Inserted(ins, p)) == 0
  {
    if p in ins {
      JoinedNoLineBreaks(ins[p]);
    }
  }

  lemma SourceSplit(src: string, pos: nat, next: nat, stop: nat)
    requires pos <= next <= stop <= |src|
    ensures LineBreaks(src[pos..]) == LineBreaks(src[pos..next]) + LineBreaks(src[next..stop]) + LineBreaks(src[stop..])
  {
    assert src[pos..] == src[pos..next] + (src[next..stop] + src[stop..]);
    LineBreaksConcat(src[next..stop], src[stop..]);
    LineBreaksConcat(src[pos..next], src[next..stop] + src[stop..]);
  }

  lemma OutputSplit(a: string, b: string, c: string, d: string)
    ensures LineBreaks(a + b + c + d) == LineBreaks(a) + LineBreaks(b) + LineBreaks(c) + LineBreaks(d)
  {
    LineBreaksConcat(a, b);
    LineBreaksConcat(a + b, c);
    LineBreaksConcat(a + b + c, d);
  }

  /** From read cursor `pos` on, a successful walk over patches the
      recorder accepted writes exactly the line breaks of the source text
      it walks over. */
  lemma {:induction false} RunKeepsLineBreaks(src: string, reps: map<int, Replacement>, ins: map<int, seq<string>>,
                                              ps: seq<int>, pos: nat)
    requires WellFormed(reps, ins) && Run(src, reps, ins, ps, pos).Ok?
    ensures LineBreaks(Run(src, reps, ins, ps, pos).value) == LineBreaks(src[Min(pos, |src|)..])
    decreases |ps|
  {
    if pos >= |src| {
      assert src[Min(pos, |src|)..] == [];
    } else if ps != [] && pos <= ps[0] < |src| {
      var next: nat := ps[0];
      InsertedNoLineBreaks(ins, next);
      if next in reps {
        var e: nat := reps[next].end;
        var stop := Min(e, |src|);
        if '\n' !in src[next..stop] {
          var rest := Run(src, reps, ins, ps[1..], e);
          RunKeepsLineBreaks(src, reps, ins, ps[1..], e);
          NoLineBreaks(src[next..stop]);
          NoLineBreaks(reps[next].text);
          OutputSplit(src[pos..next], Inserted(ins, next), reps[next].text, rest.value);
          SourceSplit(src, pos, next, stop);
        }
      } else {
        var rest := Run(src, reps, ins, ps[1..], next);
        RunKeepsLineBreaks(src, reps, ins, ps[1..], next);
        OutputSplit(src[pos..next], Inserted(ins, next), "", rest.value);
        assert src[pos..next] + Inserted(ins, next) + "" == src[pos..next] + Inserted(ins, next);
        SourceSplit(src, pos, next, next);
      }
    }
  }

  /** The emitter's output over patches the recorder accepted has as many
      line breaks as the source. */
  lemma EmitKeepsLineBreaks(src: string, reps: map<int, Replacement>, ins: map<int, seq<string>>)
    requires WellFormed(reps, ins) && Run(src, reps, ins, SortedPoints(PointSet(reps, ins)), 0).Ok?
    ensures LineBreaks(Run(src, reps, ins, SortedPoints(PointSet(reps, ins)), 0).value) == LineBreaks(src)
  {
    RunKeepsLineBreaks(src, reps, ins, SortedPoints(PointSet(reps, ins)), 0);
    assert src[Min(0, |src|)..] == src;
  }
}
