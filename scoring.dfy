/** Score bookkeeping: how each merge of a tilt updates the current score
 *  and the best score (Main.java:174, 183-188), and the best-score update
 *  made when a game ends or a new one starts (Main.java:77-80, 94-97). */
module Scoring {
  import opened Sides
  import opened Lines

  /** The current score and the best final score of the session. */
  datatype Tally = Tally(score: int, maxScore: int)

  /** One merge that creates a tile of value v: the score grows by v; when
   *  v is the goal and the score now beats the best score, the best score
   *  takes it and the current score restarts at 0. */
  function Credit1(t: Tally, v: int): (r: Tally)
    ensures r.maxScore >= t.maxScore
    ensures r.maxScore != t.maxScore ==> v == GOAL && r.score == 0 && r.maxScore == t.score + v
    ensures r.maxScore == t.maxScore ==> r.score == t.score + v
  {
    var s := t.score + v;
    if v == GOAL && t.maxScore < s then Tally(0, s) else Tally(s, t.maxScore)
  }

  /** The merges vs of a tilt, credited in the order the tilt makes them. */
  function Credit(t: Tally, vs: seq<int>): Tally
  {
    if vs == [] then t else Credit1(Credit(t, vs[..|vs| - 1]), vs[|vs| - 1])
  }

  /** The best score when a game ends or a new one is requested. */
  function RecordMax(t: Tally): (r: Tally)
    ensures r.score == t.score
    ensures r.maxScore >= t.maxScore && r.maxScore >= t.score
    ensures r.maxScore == t.maxScore || r.maxScore == t.score
  {
    if t.maxScore < t.score then Tally(t.score, t.score) else t
  }

  /** The best score never decreases over a tilt. */
  lemma {:induction false} CreditKeepsMax(t: Tally, vs: seq<int>)
    ensures Credit(t, vs).maxScore >= t.maxScore
  {
    if vs != [] {
      CreditKeepsMax(t, vs[..|vs| - 1]);
    }
  }

  /** Without a goal tile the score grows by exactly the sum of the merged
   *  values and the best score stays. */
  lemma {:induction false} CreditWithoutGoal(t: Tally, vs: seq<int>)
    requires forall i :: 0 <= i < |vs| ==> vs[i] != GOAL
    ensures Credit(t, vs) == Tally(t.score + Sum(vs), t.maxScore)
  {
    if vs != [] {
      CreditWithoutGoal(t, vs[..|vs| - 1]);
    }
  }

  /** Reaching the goal with a score above the best makes that score the
   *  best and restarts the current score at 0, even mid-tilt. */
  lemma GoalResetsScore(t: Tally, vs: seq<int>)
    requires vs != [] && vs[|vs| - 1] == GOAL
    requires Credit(t, vs[..|vs| - 1]).maxScore < Credit(t, vs[..|vs| - 1]).score + GOAL
    ensures Credit(t, vs).score == 0
    ensures Credit(t, vs).maxScore == Credit(t, vs[..|vs| - 1]).score + GOAL
  {
  }

  /** Reaching the goal with a score that does not beat the best just adds
   *  the goal to the score; the best score stays. */
  lemma GoalKeepsScore(t: Tally, vs: seq<int>)
    requires vs != [] && vs[|vs| - 1] == GOAL
    requires Credit(t, vs[..|vs| - 1]).score + GOAL <= Credit(t, vs[..|vs| - 1]).maxScore
    ensures Credit(t, vs).score == Credit(t, vs[..|vs| - 1]).score + GOAL
    ensures Credit(t, vs).maxScore == Credit(t, vs[..|vs| - 1]).maxScore
  {
  }

  /** Crediting merges in two batches is crediting them all. */
  lemma {:induction false} CreditAppend(t: Tally, a: seq<int>, b: seq<int>)
    ensures Credit(t, a + b) == Credit(Credit(t, a), b)
    decreases |b|
  {
    if b == [] {
      assert a + b == a;
    } else {
      assert (a + b)[..|a + b| - 1] == a + b[..|b| - 1];
      CreditAppend(t, a, b[..|b| - 1]);
    }
  }
}
