/** The running-best policy shared by both catalog scans: a candidate
    replaces the best so far only when its score is strictly greater than the
    best so far and at least the threshold 0.7.  Skipped candidates have no
    score (`None`).  The specification states the outcome of that policy
    without the loop: the winner is the first candidate holding the largest
    score, and nothing wins when no score reaches the threshold. */
module Ranking {
  import opened Common

  /** The minimum score for a match. */
  const Threshold: real := 0.7

  predicate Qualifies(v: Option<real>)
  {
    v.Some? && v.value >= Threshold
  }

  /** No scored candidate reaches the threshold. */
  predicate NoneQualifies(vals: seq<Option<real>>)
  {
    forall j :: 0 <= j < |vals| ==> !Qualifies(vals[j])
  }

  /** Candidate `i` reaches the threshold, no candidate scores higher, and
      every earlier candidate scores strictly lower. */
  predicate IsBest(vals: seq<Option<real>>, i: int)
  {
    && 0 <= i < |vals|
    && Qualifies(vals[i])
    && (forall j :: 0 <= j < |vals| && vals[j].Some? ==> vals[j].value <= vals[i].value)
    && (forall j :: 0 <= j < i && vals[j].Some? ==> vals[j].value < vals[i].value)
  }

  /** The best candidate, when there is one, is unique. */
  lemma BestIsUnique(vals: seq<Option<real>>, i: int, k: int)
    requires IsBest(vals, i) && IsBest(vals, k)
    ensures i == k
  {
  }

  /** Exactly one of the two outcomes holds: either some candidate reaches
      the threshold and then a best candidate exists, or none does. */
  lemma {:induction false} BestExists(vals: seq<Option<real>>)
    requires !NoneQualifies(vals)
    ensures exists i :: IsBest(vals, i)
  {
    var n := |vals|;
    var p := vals[..n - 1];
    if Qualifies(vals[n - 1]) && (NoneQualifies(p) || forall j :: 0 <= j < n - 1 && vals[j].Some? ==> vals[j].value < vals[n - 1].value) {
      forall j | 0 <= j < n && vals[j].Some?
        ensures vals[j].value <= vals[n - 1].value
      {
        if j < n - 1 && !NoneQualifies(p) {
          assert p[j] == vals[j];
        } else if j < n - 1 {
          assert p[j] == vals[j];
          assert !Qualifies(p[j]);
        }
      }
      forall j | 0 <= j < n - 1 && vals[j].Some?
        ensures vals[j].value < vals[n - 1].value
      {
        assert p[j] == vals[j];
        if NoneQualifies(p) { assert !Qualifies(p[j]); }
      }
      assert IsBest(vals, n - 1);
    } else {
      assert !NoneQualifies(p) by {
        if NoneQualifies(p) {
          forall j | 0 <= j < n ensures !Qualifies(vals[j]) {
            if j < n - 1 { assert p[j] == vals[j]; }
          }
        }
      }
      BestExists(p);
      var i :| IsBest(p, i);
      assert IsBest(vals, i) by {
        forall j | 0 <= j < n && vals[j].Some?
          ensures vals[j].value <= vals[i].value
        {
          if j < n - 1 { assert p[j] == vals[j]; }
          else {
            assert p[i] == vals[i];
            if Qualifies(vals[n - 1]) {
              var j' :| 0 <= j' < n - 1 && vals[j'].Some? && vals[j'].value >= vals[n - 1].value;
              assert p[j'] == vals[j'];
            }
          }
        }
        forall j | 0 <= j < i && vals[j].Some?
          ensures vals[j].value < vals[i].value
        {
          assert p[j] == vals[j] && p[i] == vals[i];
        }
      }
    }
  }

  /** The replacement rule: strictly greater than the best so far, and at
      least the threshold. */
  predicate Replaces(v: Option<real>, bestScore: real)
  {
    v.Some? && v.value > bestScore && v.value >= Threshold
  }

  /** One step of the running-best loop.  `best` is the winner among the
      candidates `vals` seen so far (or `None`), `bestScore` its score (0.0
      when there is none); candidate `v` is considered next. */
  lemma StepPreservesBest(vals: seq<Option<real>>, best: Option<nat>, bestScore: real, v: Option<real>)
    requires best.None? ==> bestScore == 0.0 && NoneQualifies(vals)
    requires best.Some? ==> IsBest(vals, best.value) && vals[best.value].value == bestScore
    ensures Replaces(v, bestScore) ==> IsBest(vals + [v], |vals|)
    ensures !Replaces(v, bestScore) && best.Some? ==> IsBest(vals + [v], best.value)
    ensures !Replaces(v, bestScore) && best.None? ==> NoneQualifies(vals + [v])
  {
  }
}
