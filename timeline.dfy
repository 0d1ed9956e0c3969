/**
 * A level's timeline: a dictionary from step numbers to lists of commands.
 * Skipping to a step discards every command list whose step lies before it.
 */
module Timeline {
  import opened Lists

  /** One line of a timeline script. */
  type Command = string

  /**
   * A position on the timeline.  The level adds each frame's time multiplier
   * to its step and a `skip_to` command passes a float, so steps are reals;
   * whole-numbered keys of a timeline file are reals too.
   */
  type Step = real

  /** The smallest element of a non-empty finite set of steps. */
  lemma LeastOf(s: set<Step>) returns (w: Step)
    requires s != {}
    ensures w in s && forall y :: y in s ==> w <= y
    decreases |s|
  {
    // Naming the witness of `s != {}` in a branch of its own keeps the
    // `:|` below from resting on an assumption the verifier cannot see.
    if forall y :: y !in s {
      assert false;
    }
    var x :| x in s;
    var rest := s - {x};
    if rest == {} {
      w := x;
      assert s == {x};
    } else {
      var m := LeastOf(rest);
      w := if x < m then x else m;
      forall y | y in s ensures w <= y {
        if y != x { assert y in rest; }
      }
    }
  }

  /** Strictly increasing. */
  ghost predicate Ascending(s: seq<Step>)
  {
    forall i, j :: 0 <= i < j < |s| ==> s[i] < s[j]
  }

  /** `sorted(keys)`. */
  method SortedKeys(keys: set<Step>) returns (r: seq<Step>)
    ensures Ascending(r)
    ensures forall x :: x in keys <==> x in r
    ensures |r| == |keys|
  {
    r := [];
    var rest := keys;
    while rest != {}
      invariant Ascending(r)
      invariant forall x :: x in keys <==> x in r || x in rest
      invariant forall x :: x in r ==> x !in rest
      invariant forall x, y :: x in r && y in rest ==> x < y
      invariant |r| + |rest| == |keys|
      decreases |rest|
    {
      ghost var least := LeastOf(rest);
      var m :| m in rest && forall y :: y in rest ==> m <= y;
      forall i | 0 <= i < |r| ensures r[i] < m {
        assert r[i] in r;
      }
      r := r + [m];
      rest := rest - {m};
    }
  }

  /** The timeline once every step before `step` has been emptied. */
  function Skipped(tl: map<Step, seq<Command>>, step: Step): (r: map<Step, seq<Command>>)
  {
    map k | k in tl :: if k < step then [] else tl[k]
  }

  /** Skipping neither adds nor removes steps, empties the ones before the target and keeps the rest. */
  lemma SkippedShape(tl: map<Step, seq<Command>>, step: Step)
    ensures Skipped(tl, step).Keys == tl.Keys
    ensures forall k :: k in tl && k < step ==> Skipped(tl, step)[k] == []
    ensures forall k :: k in tl && k >= step ==> Skipped(tl, step)[k] == tl[k]
  {
  }

  /** Two skips in a row are one skip to the later target. */
  lemma SkippedTwice(tl: map<Step, seq<Command>>, a: Step, b: Step)
    ensures Skipped(Skipped(tl, a), b) == Skipped(tl, if a < b then b else a)
  {
    var lhs := Skipped(Skipped(tl, a), b);
    var rhs := Skipped(tl, if a < b then b else a);
    assert lhs.Keys == rhs.Keys;
    forall k | k in lhs ensures lhs[k] == rhs[k] {
    }
  }

  /**
   * When the loop of `timeline_skipto` stops, every step it emptied lies
   * before the target and every step still queued lies at or after it, so
   * the timeline is the skipped one.
   */
  lemma SkipDone(tl: map<Step, seq<Command>>, step: Step, r: map<Step, seq<Command>>, keys: seq<Step>, i: nat)
    requires Ascending(keys) && (forall x :: x in tl <==> x in keys)
    requires i <= |keys| && (i == |keys| || keys[i] >= step)
    requires forall j :: 0 <= j < i ==> keys[j] < step
    requires r.Keys == tl.Keys
    requires forall k :: k in r ==> r[k] == if k in keys[..i] then [] else tl[k]
    ensures r == Skipped(tl, step)
  {
    forall k | k in r
      ensures r[k] == Skipped(tl, step)[k]
    {
      var j :| 0 <= j < |keys| && keys[j] == k;
      if j < i {
        assert keys[..i][j] == k;
      } else {
        assert k >= step by {
          if j > i { assert keys[i] < keys[j]; }
        }
        forall m | 0 <= m < i
          ensures keys[..i][m] != k
        {
        }
      }
    }
  }

  /** The loop of `timeline_skipto`: pop the sorted steps while they lie before `step`, emptying each. */
  method SkipSorted(tl: map<Step, seq<Command>>, step: Step) returns (r: map<Step, seq<Command>>)
    ensures r == Skipped(tl, step)
  {
    var keys := SortedKeys(tl.Keys);
    var i := 0;
    r := tl;
    while i < |keys| && keys[i] < step
      invariant 0 <= i <= |keys|
      invariant r.Keys == tl.Keys
      invariant forall j :: 0 <= j < i ==> keys[j] < step
      invariant forall k :: k in r ==> r[k] == if k in keys[..i] then [] else tl[k]
    {
      assert keys[..i + 1] == keys[..i] + [keys[i]];
      r := r[keys[i] := []];
      i := i + 1;
    }
    SkipDone(tl, step, r, keys, i);
  }

  class Level {
    var timeline: map<Step, seq<Command>>
    var timelineStep: Step
    var timelineSkipTarget: Option<Step>

    /** A level whose timeline was loaded as `tl`, at step 0. */
    constructor (tl: map<Step, seq<Command>>, skipTarget: Option<Step>)
      ensures timeline == tl && timelineStep == 0.0 && timelineSkipTarget == skipTarget
    {
      timeline := tl;
      timelineStep := 0.0;
      timelineSkipTarget := skipTarget;
    }

    /** `timeline_skipto`. */
    method SkipTo(step: Step)
      modifies this
      ensures timelineStep == step
      ensures timeline == Skipped(old(timeline), step)
      ensures timelineSkipTarget == old(timelineSkipTarget)
    {
      timelineStep := step;
      var tl := SkipSorted(timeline, step);
      timeline := tl;
    }

    /**
     * The skip that pausing or dismissing a dialog performs: when a skip
     * target is set and not yet reached, jump to it.
     */
    method SkipPending() returns (skipped: bool)
      modifies this
      ensures skipped <==> old(timelineSkipTarget).Some? && old(timelineStep) < old(timelineSkipTarget).value
      ensures skipped ==> timelineStep == old(timelineSkipTarget).value &&
                          timeline == Skipped(old(timeline), timelineStep)
      ensures !skipped ==> timeline == old(timeline) && timelineStep == old(timelineStep)
      ensures timelineSkipTarget == old(timelineSkipTarget)
    {
      skipped := false;
      if timelineSkipTarget.Some? && timelineStep < timelineSkipTarget.value {
        SkipTo(timelineSkipTarget.value);
        skipped := true;
      }
    }
  }
}
