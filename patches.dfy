/** The patch recorder of nestless.js (`replace` and `insert`,
    nestless.js:302-324): two sparse maps keyed by source offset. */
module Patches {
  import opened Diagnostics

  /** `replacements[start]`: replace `[start, end)` by `text`. */
  datatype Replacement = Replacement(end: int, text: string)

  /** What the recorder guarantees of every entry it accepts: no patch at
      offset 0, no backwards span, no line break in any text, and no empty
      insertion list. */
  ghost predicate WellFormed(reps: map<int, Replacement>, ins: map<int, seq<string>>) {
    && (forall p :: p in reps ==> p != 0 && p <= reps[p].end && '\n' !in reps[p].text)
    && (forall p :: p in ins ==> p != 0 && ins[p] != [])
    && (forall p, k :: p in ins && 0 <= k < |ins[p]| ==> '\n' !in ins[p][k])
  }

  class Patches {
    var replacements: map<int, Replacement>
    var insertions: map<int, seq<string>>

    ghost predicate Valid()
      reads this
    {
      WellFormed(replacements, insertions)
    }

    constructor ()
      ensures Valid() && replacements == map[] && insertions == map[]
    {
      replacements := map[];
      insertions := map[];
    }

    /** Records that `[start, end)` is to be replaced by `text`. A start of
        0, a backwards span, a second replacement at the same start and a
        line break in the text are internal errors; on error nothing
        changes. */
    method Replace(start: int, end: int, text: string) returns (r: Outcome)
      requires Valid()
      modifies this
      ensures Valid()
      ensures r.Pass? <==> start != 0 && start <= end && start !in old(replacements) && '\n' !in text
      ensures r.Fail? ==> r.error.Bug?
      ensures replacements == if r.Pass? then old(replacements)[start := Replacement(end, text)] else old(replacements)
      ensures insertions == old(insertions)
    {
      if start == 0 {
        return Fail(Bug("Invalid start"));
      }
      if end < start {
        return Fail(Bug("Replacement would back up"));
      }
      if start in replacements {
        return Fail(Bug("Replacement exists"));
      }
      if '\n' in text {
        return Fail(Bug("Replacement would insert newline"));
      }
      replacements := replacements[start := Replacement(end, text)];
      return Pass;
    }

    /** Records `text` to be inserted at `pos`, after any text already
        recorded there. Offset 0 and a line break are internal errors; on
        error nothing changes. */
    method Insert(pos: int, text: string) returns (r: Outcome)
      requires Valid()
      modifies this
      ensures Valid()
      ensures r.Pass? <==> pos != 0 && '\n' !in text
      ensures r.Fail? ==> r.error.Bug?
      ensures insertions == if r.Pass? then old(insertions)[pos := Queued(old(insertions), pos) + [text]] else old(insertions)
      ensures replacements == old(replacements)
    {
      if pos == 0 {
        return Fail(Bug("Invalid insertion pos"));
      }
      if '\n' in text {
        return Fail(Bug("Insertion would insert newline"));
      }
      if pos in insertions {
        insertions := insertions[pos := insertions[pos] + [text]];
      } else {
        assert Queued(insertions, pos) + [text] == [text];
        insertions := insertions[pos := [text]];
      }
      return Pass;
    }
  }

  /** The fragments already queued at `pos`. */
  function Queued(ins: map<int, seq<string>>, pos: int): seq<string> {
    if pos in ins then ins[pos] else []
  }
}
