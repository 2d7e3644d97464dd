// The exhaustive search over whole-kilovolt voltage scales.
module GridSearch {
  import opened StaticNetwork
  import opened ArresterStages

  // The root finder: what it returns for each request.
  type Solver = (seq<real>, int) -> real

  ghost predicate Solving(net: Network, solver: Solver)
    requires Valid(net)
  {
    forall values: seq<real>, closed: int :: Request(values, closed)
      ==> Root(net, values, closed, solver(values, closed))
  }

  // new_share of one stage.
  function NewShare(net: Network, solver: Solver, values: seq<real>, closed: int): real
    requires Valid(net) && Request(values, closed)
  {
    Share(net, values, closed, solver(values, closed), closed - 1)
  }

  function Min(x: real, y: real): real { if y < x then y else x }

  // The least new share of stages 2 to k; score is the case of all stages.
  function Score(net: Network, solver: Solver, values: seq<real>, k: int): real
    requires Valid(net) && Request(values, 1) && 2 <= k <= BRANCHES
  {
    if k == 2 then NewShare(net, solver, values, 2)
    else Min(Score(net, solver, values, k - 1), NewShare(net, solver, values, k))
  }

  lemma {:induction false} NewShareAtMostOne(net: Network, solver: Solver, values: seq<real>, closed: int)
    requires Valid(net) && Solving(net, solver) && Request(values, closed)
    ensures 0.0 < NewShare(net, solver, values, closed) <= 1.0
  {
    SharesAreAPartition(net, values, closed, solver(values, closed), closed - 1);
  }

  lemma {:induction false} ScoreOnlyFalls(net: Network, solver: Solver, values: seq<real>, j: int, k: int)
    requires Valid(net) && Request(values, 1) && 2 <= j <= k <= BRANCHES
    ensures Score(net, solver, values, k) <= Score(net, solver, values, j)
    decreases k
  {
    if j < k { ScoreOnlyFalls(net, solver, values, j, k - 1); }
  }

  // The pruned evaluation: stopping as soon as the running minimum falls below
  // the best score never changes whether the candidate wins, nor with what.
  method Evaluate(net: Network, solver: Solver, values: seq<real>, bestScore: real) returns (score: real)
    requires Valid(net) && Solving(net, solver) && Request(values, 1)
    ensures score > bestScore <==> Score(net, solver, values, BRANCHES) > bestScore
    ensures score > bestScore ==> score == Score(net, solver, values, BRANCHES)
  {
    score := 1.0;
    for stage := 2 to BRANCHES + 1
      invariant stage == 2 ==> score == 1.0
      invariant stage > 2 ==> score == Score(net, solver, values, stage - 1)
    {
      NewShareAtMostOne(net, solver, values, stage);
      score := Min(score, NewShare(net, solver, values, stage));
      if score < bestScore {
        ScoreOnlyFalls(net, solver, values, stage, BRANCHES);
        break;
      }
    }
  }

  // ---- the grid ----

  const LOW := 61
  const HIGH := 99

  predicate Triple(x: int, y: int, z: int) { LOW <= x < y < z <= HIGH }

  // itertools.combinations yields ascending triples in this order.
  predicate Earlier(x: int, y: int, z: int, a: int, b: int, c: int) {
    x < a || (x == a && (y < b || (y == b && z < c)))
  }

  function Candidate(x: int, y: int, z: int): (r: seq<real>)
    requires Triple(x, y, z)
    ensures Request(r, 1)
  {
    [100.0, z as real, y as real, x as real, 60.0]
  }

  // Five whole-kilovolt scales that fall from 100 to 60.
  ghost predicate Falls(values: seq<real>) {
    |values| == 5 && values[0] == 100.0 && values[4] == 60.0
    && (forall i :: 0 <= i < 4 ==> values[i] > values[i + 1])
    && forall i :: 0 <= i < 5 ==> values[i] == values[i].Floor as real
  }

  // The candidates of the search are exactly these.
  lemma {:induction false} CandidateFalls(x: int, y: int, z: int)
    requires Triple(x, y, z)
    ensures Falls(Candidate(x, y, z))
  {
    var values := Candidate(x, y, z);
    assert values[0] > values[1] > values[2] > values[3] > values[4];
    assert (x as real).Floor == x && (y as real).Floor == y && (z as real).Floor == z;
  }

  lemma {:induction false} FallingIsCandidate(values: seq<real>) returns (x: int, y: int, z: int)
    requires Falls(values)
    ensures Triple(x, y, z) && values == Candidate(x, y, z)
  {
    x, y, z := values[3].Floor, values[2].Floor, values[1].Floor;
    assert values[0] > values[1] && values[1] > values[2] && values[2] > values[3] && values[3] > values[4];
    assert values[1] == z as real && values[2] == y as real && values[3] == x as real;
  }

  // Every triple before (a, b, c) scores at most best.
  ghost predicate Covered(net: Network, solver: Solver, best: real, a: int, b: int, c: int)
    requires Valid(net)
  {
    forall x, y, z :: Triple(x, y, z) && Earlier(x, y, z, a, b, c) ==>
      Score(net, solver, Candidate(x, y, z), BRANCHES) <= best
  }

  // The winner is the start, or the first triple that beats it and every
  // triple before.
  ghost predicate Winner(net: Network, solver: Solver, start: seq<real>, best: seq<real>, bestScore: real)
    requires Valid(net) && Request(start, 1)
  {
    (best == start && bestScore == Score(net, solver, start, BRANCHES))
    || exists x, y, z :: Triple(x, y, z) && best == Candidate(x, y, z)
         && bestScore == Score(net, solver, best, BRANCHES) > Score(net, solver, start, BRANCHES)
         && forall p, q, r :: Triple(p, q, r) && Earlier(p, q, r, x, y, z) ==>
              Score(net, solver, Candidate(p, q, r), BRANCHES) < bestScore
  }

  // ---- how many there are ----

  function Pairs(n: nat): nat { if n == 0 then 0 else Pairs(n - 1) + (n - 1) }

  function Triples(n: nat): nat { if n == 0 then 0 else Triples(n - 1) + Pairs(n - 1) }

  lemma {:induction false} PairsClosed(n: nat)
    ensures 2 * Pairs(n) == n * (n - 1)
  {
    if n > 0 { PairsClosed(n - 1); }
  }

  lemma {:induction false} TripleStep(m: int, triples: int, pairs: int)
    requires 6 * triples == m * (m - 1) * (m - 2) && 2 * pairs == m * (m - 1)
    ensures 6 * (triples + pairs) == (m + 1) * m * (m - 1)
  {
    assert (m + 1) * m * (m - 1) == m * (m - 1) * (m - 2) + 3 * (m * (m - 1));
  }

  // The product of n and the two whole numbers below it.
  function Falling(n: int): int { n * (n - 1) * (n - 2) }

  lemma {:induction false} TriplesClosed(n: nat)
    ensures 6 * Triples(n) == Falling(n)
  {
    if n > 0 {
      TriplesClosed(n - 1);
      PairsClosed(n - 1);
      TripleStep(n - 1, Triples(n - 1), Pairs(n - 1));
    }
  }

  const COMBINATIONS := 9139

  // One comparison of the search.
  method Consider(net: Network, solver: Solver, start: seq<real>, best: seq<real>, bestScore: real,
                  a: int, b: int, c: int)
    returns (newBest: seq<real>, newScore: real)
    requires Valid(net) && Solving(net, solver) && Request(start, 1) && Triple(a, b, c)
    requires Covered(net, solver, bestScore, a, b, c) && Winner(net, solver, start, best, bestScore)
    requires bestScore >= Score(net, solver, start, BRANCHES)
    ensures Covered(net, solver, newScore, a, b, c + 1) && Winner(net, solver, start, newBest, newScore)
    ensures newScore >= Score(net, solver, start, BRANCHES)
  {
    newBest, newScore := best, bestScore;
    var values := Candidate(a, b, c);
    var score := Evaluate(net, solver, values, bestScore);
    if score > bestScore {
      newBest, newScore := values, score;
      forall p, q, r | Triple(p, q, r) && Earlier(p, q, r, a, b, c)
        ensures Score(net, solver, Candidate(p, q, r), BRANCHES) < newScore {
        assert Score(net, solver, Candidate(p, q, r), BRANCHES) <= bestScore;
      }
    }
    forall x, y, z | Triple(x, y, z) && Earlier(x, y, z, a, b, c + 1)
      ensures Score(net, solver, Candidate(x, y, z), BRANCHES) <= newScore {
      if !(x == a && y == b && z == c) { assert Earlier(x, y, z, a, b, c); }
    }
  }

  // integer_grid_search: the result is the greatest score over the start and
  // all 9139 triples, and the first candidate in order that reaches it.
  method IntegerGridSearch(net: Network, solver: Solver, start: seq<real>)
    returns (best: seq<real>, bestScore: real, count: nat)
    requires Valid(net) && Solving(net, solver) && Request(start, 1)
    ensures bestScore >= Score(net, solver, start, BRANCHES)
    ensures forall x, y, z :: Triple(x, y, z) ==> Score(net, solver, Candidate(x, y, z), BRANCHES) <= bestScore
    ensures Winner(net, solver, start, best, bestScore)
    ensures forall values :: Falls(values) ==>
              Request(values, 1) && Score(net, solver, values, BRANCHES) <= bestScore
    ensures best == start || Falls(best)
    ensures count == COMBINATIONS
  {
    best, bestScore, count := start, Score(net, solver, start, BRANCHES), 0;
    TriplesClosed(HIGH - LOW + 1);
    for a := LOW to HIGH + 1
      invariant Covered(net, solver, bestScore, a, a + 1, a + 2)
      invariant Winner(net, solver, start, best, bestScore) && bestScore >= Score(net, solver, start, BRANCHES)
      invariant count + Triples(HIGH + 1 - a) == COMBINATIONS
    {
      best, bestScore, count := SearchFrom(net, solver, start, best, bestScore, count, a);
    }
    AllCovered(net, solver, bestScore);
    forall values | Falls(values) ensures Request(values, 1) && Score(net, solver, values, BRANCHES) <= bestScore {
      var x, y, z := FallingIsCandidate(values);
    }
    if best != start {
      var x, y, z :| Triple(x, y, z) && best == Candidate(x, y, z);
      CandidateFalls(x, y, z);
    }
  }

  method SearchFrom(net: Network, solver: Solver, start: seq<real>, best0: seq<real>, score0: real, count0: nat, a: int)
    returns (best: seq<real>, bestScore: real, count: nat)
    requires Valid(net) && Solving(net, solver) && Request(start, 1) && LOW <= a <= HIGH
    requires Covered(net, solver, score0, a, a + 1, a + 2)
    requires Winner(net, solver, start, best0, score0) && score0 >= Score(net, solver, start, BRANCHES)
    ensures Covered(net, solver, bestScore, a + 1, a + 2, a + 3)
    ensures Winner(net, solver, start, best, bestScore) && bestScore >= Score(net, solver, start, BRANCHES)
    ensures count == count0 + Pairs(HIGH - a)
  {
    best, bestScore, count := best0, score0, count0;
    for b := a + 1 to HIGH + 1
      invariant Covered(net, solver, bestScore, a, b, b + 1)
      invariant Winner(net, solver, start, best, bestScore) && bestScore >= Score(net, solver, start, BRANCHES)
      invariant count + Pairs(HIGH + 1 - b) == count0 + Pairs(HIGH - a)
    {
      for c := b + 1 to HIGH + 1
        invariant Covered(net, solver, bestScore, a, b, c)
        invariant Winner(net, solver, start, best, bestScore) && bestScore >= Score(net, solver, start, BRANCHES)
        invariant count + (HIGH + 1 - c) + Pairs(HIGH - b) == count0 + Pairs(HIGH - a)
      {
        best, bestScore := Consider(net, solver, start, best, bestScore, a, b, c);
        count := count + 1;
      }
      NextCovered(net, solver, bestScore, a, b);
    }
    RowCovered(net, solver, bestScore, a);
  }

  lemma {:induction false} AllCovered(net: Network, solver: Solver, best: real)
    requires Valid(net) && Covered(net, solver, best, HIGH + 1, HIGH + 2, HIGH + 3)
    ensures forall x, y, z :: Triple(x, y, z) ==> Score(net, solver, Candidate(x, y, z), BRANCHES) <= best
  {
    forall x, y, z | Triple(x, y, z) ensures Score(net, solver, Candidate(x, y, z), BRANCHES) <= best {
      assert Earlier(x, y, z, HIGH + 1, HIGH + 2, HIGH + 3);
    }
  }

  lemma {:induction false} RowCovered(net: Network, solver: Solver, best: real, a: int)
    requires Valid(net) && Covered(net, solver, best, a, HIGH + 1, HIGH + 2)
    ensures Covered(net, solver, best, a + 1, a + 2, a + 3)
  {
    forall x, y, z | Triple(x, y, z) && Earlier(x, y, z, a + 1, a + 2, a + 3)
      ensures Score(net, solver, Candidate(x, y, z), BRANCHES) <= best {
      assert Earlier(x, y, z, a, HIGH + 1, HIGH + 2);
    }
  }

  lemma {:induction false} NextCovered(net: Network, solver: Solver, best: real, a: int, b: int)
    requires Valid(net) && Covered(net, solver, best, a, b, HIGH + 1)
    ensures Covered(net, solver, best, a, b + 1, b + 2)
  {
    forall x, y, z | Triple(x, y, z) && Earlier(x, y, z, a, b + 1, b + 2)
      ensures Score(net, solver, Candidate(x, y, z), BRANCHES) <= best {
      assert Earlier(x, y, z, a, b, HIGH + 1);
    }
  }
}
