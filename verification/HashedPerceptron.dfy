/** The hashed perceptron branch predictor as it runs: weight tables, history words and the dynamic threshold. */
module HashedPerceptron {
  import opened Bits
  import opened Perceptrons
  import opened HashedHistories

  const SPEED: int := 18

  /** The sum of the first `n` selected weights. */
  function Total(ws: seq<int>, n: nat): int
    requires n <= |ws|
  {
    if n == 0 then 0 else Total(ws, n - 1) + ws[n - 1]
  }

  function AllMoved(ws: seq<int>, taken: bool): (r: seq<int>)
    ensures |r| == |ws|
  {
    seq(|ws|, i requires 0 <= i < |ws| => Moved(ws[i], taken))
  }

  /** How many of the first `n` weights are saturated in the direction of the outcome. */
  function Saturated(ws: seq<int>, taken: bool, n: nat): (r: nat)
    requires n <= |ws|
    ensures r <= n
  {
    if n == 0 then 0 else Saturated(ws, taken, n - 1) + if Blocked(ws[n - 1], taken) then 1 else 0
  }

  /** Training moves the sum of the selected weights towards the outcome, by one for each weight that is not saturated. */
  lemma {:induction false} TrainingMovesTotal(ws: seq<int>, taken: bool, n: nat)
    requires n <= |ws|
    ensures Total(AllMoved(ws, taken), n) == Total(ws, n) + (if taken then 1 else -1) * (n - Saturated(ws, taken, n))
  {
    if n > 0 { TrainingMovesTotal(ws, taken, n - 1); }
  }

  lemma {:induction false} TotalBounded(ws: seq<int>, n: nat)
    requires n <= |ws| && forall i :: 0 <= i < |ws| ==> -128 <= ws[i] <= 127
    ensures -128 * n <= Total(ws, n) <= 127 * n
  {
    if n > 0 { TotalBounded(ws, n - 1); }
  }

  /** The threshold and its counter after a branch. */
  function Adapted(theta: int, tc: int, correct: bool, magnitude: nat): (int, int) {
    if !correct then (if tc + 1 >= SPEED then (theta + 1, 0) else (theta, tc + 1))
    else if magnitude < theta then (if tc - 1 <= -SPEED then (theta - 1, 0) else (theta, tc - 1))
    else (theta, tc)
  }

  ghost predicate ThresholdOk(theta: int, tc: int) { theta >= 0 && -SPEED < tc < SPEED }

  /** The threshold never gets negative and its counter stays below the speed: only weak outputs lower the threshold. */
  lemma AdaptedOk(theta: int, tc: int, correct: bool, magnitude: nat)
    requires ThresholdOk(theta, tc)
    ensures var (t, c) := Adapted(theta, tc, correct, magnitude); ThresholdOk(t, c)
  {
  }

  /** What a branch adds to the balance: one for a misprediction, minus one for a weak right prediction. */
  function Push(theta: int, correct: bool, magnitude: nat): int {
    if !correct then 1 else if magnitude < theta then -1 else 0
  }

  /**
   The threshold and its counter are one number in steps of the speed: it moves by exactly what the
   branch pushes, so the threshold grows by one for each 18 mispredictions in excess of weak right predictions.
   */
  lemma ThresholdFollowsBalance(theta: int, tc: int, correct: bool, magnitude: nat)
    requires ThresholdOk(theta, tc)
    ensures var (t, c) := Adapted(theta, tc, correct, magnitude); SPEED * t + c == SPEED * theta + tc + Push(theta, correct, magnitude)
    ensures var (t, c) := Adapted(theta, tc, correct, magnitude); t == theta || (c == 0 && (t > theta <==> !correct))
  {
  }

  /** A resolved branch, as the adaptation sees it. */
  datatype Resolution = Resolution(correct: bool, magnitude: nat)

  function Adapting(theta: int, tc: int, rs: seq<Resolution>): (int, int) {
    if |rs| == 0 then (theta, tc)
    else var (t, c) := Adapting(theta, tc, rs[..|rs| - 1]); Adapted(t, c, rs[|rs| - 1].correct, rs[|rs| - 1].magnitude)
  }

  /** All pushes of a run. */
  function Pushes(theta: int, tc: int, rs: seq<Resolution>): int {
    if |rs| == 0 then 0
    else Pushes(theta, tc, rs[..|rs| - 1]) + Push(Adapting(theta, tc, rs[..|rs| - 1]).0, rs[|rs| - 1].correct, rs[|rs| - 1].magnitude)
  }

  /** Over a run the balance of mispredictions and weak right predictions is kept exactly. */
  lemma {:induction false} BalanceIsKept(theta: int, tc: int, rs: seq<Resolution>)
    requires ThresholdOk(theta, tc)
    ensures var (t, c) := Adapting(theta, tc, rs); ThresholdOk(t, c) && SPEED * t + c == SPEED * theta + tc + Pushes(theta, tc, rs)
  {
    if |rs| > 0 {
      var b := rs[|rs| - 1];
      BalanceIsKept(theta, tc, rs[..|rs| - 1]);
      var (t, c) := Adapting(theta, tc, rs[..|rs| - 1]);
      ThresholdFollowsBalance(t, c, b.correct, b.magnitude);
      AdaptedOk(t, c, b.correct, b.magnitude);
    }
  }

  function Magnitude(y: int): nat { if y < 0 then -y else y }

  class Predictor {
    const tables: array2<int>
    const words: array<nat>
    const indices: array<nat>
    var theta: int
    var tc: int
    var yout: int
    ghost var outcomes: seq<bool>

    ghost predicate Layout() {
      tables.Length0 == TABLES && tables.Length1 == TABLE_SIZE && words.Length == WORDS && indices.Length == TABLES && words != indices
    }

    /** The weights that the last prediction used. */
    function Selected(): (ws: seq<int>)
      requires Layout() && forall i :: 0 <= i < TABLES ==> indices[i] < TABLE_SIZE
      reads tables, indices
      ensures |ws| == TABLES && forall i :: 0 <= i < TABLES ==> ws[i] == tables[i, indices[i]]
    {
      seq(TABLES, i requires 0 <= i < TABLES reads tables, indices requires Layout() && indices[i] < TABLE_SIZE => tables[i, indices[i]])
    }

    ghost predicate WeightsOk()
      reads tables
      requires Layout()
    {
      forall i, x :: 0 <= i < TABLES && 0 <= x < TABLE_SIZE ==> -128 <= tables[i, x] <= 127
    }

    ghost predicate Valid()
      reads this, tables, words, indices
    {
      && Layout() && WeightsOk() && Holds(words[..], outcomes) && ThresholdOk(theta, tc)
      && (forall i :: 0 <= i < TABLES ==> indices[i] < TABLE_SIZE)
      && -2048 <= yout <= 2032
    }

    constructor ()
      ensures Valid() && outcomes == [] && theta == 10
    {
      tables := new int[TABLES, TABLE_SIZE]((i, x) => 0);
      words := new nat[WORDS](_ => 0);
      indices := new nat[TABLES](_ => 0);
      theta, tc, yout, outcomes := 10, 0, 0, [];
      new;
      forall j: nat | j < WORDS ensures words[..][j] == Value([], j * WORD, WORD) { NoOutcomes(j * WORD, WORD); }
    }

    /** The hash of the history and the address for one table. */
    method HashIndex(n: nat, pc: nat) returns (x: nat)
      requires Layout() && n / WORD < WORDS
      ensures x == IndexOf(words[..], n, pc)
    {
      var mostWords, lastWord := n / WORD, n % WORD;
      x := 0;
      for j := 0 to mostWords
        invariant x == XorWords(words[..], j)
      {
        x := Xor(x, words[j]);
      }
      x := Xor(x, Low(words[mostWords], Power(lastWord)));
      x := Xor(x, pc);
      x := x % TABLE_SIZE;
    }

    /** One table of predict_branch: its index is remembered and its weight added. */
    method SelectWeight(i: nat, pc: nat, sum: int) returns (r: int)
      requires Layout() && i < TABLES && (forall k :: 0 <= k < TABLES ==> indices[k] < TABLE_SIZE) && sum == Total(Selected(), i)
      modifies indices
      ensures indices[i] == IndexOf(words[..], LENGTHS[i], pc) < TABLE_SIZE
      ensures forall k :: 0 <= k < TABLES && k != i ==> indices[k] == old(indices[k])
      ensures r == Total(Selected(), i + 1)
    {
      hide IndexOf;
      ghost var before := Selected();
      var x := HashIndex(LENGTHS[i], pc);
      indices[i] := x;
      SamePrefix(before, Selected(), i);
      r := sum + tables[i, x];
    }

    /** predict_branch. */
    method PredictBranch(pc: nat) returns (taken: bool)
      requires Valid()
      modifies this`yout, indices
      ensures Valid() && taken == (yout >= 1) && yout == Total(Selected(), TABLES)
      ensures forall i :: 0 <= i < TABLES ==> indices[i] == IndexOf(words[..], LENGTHS[i], pc)
    {
      hide IndexOf, Value, Total;
      assert Total(Selected(), 0) == 0 by { TotalZero(Selected()); }
      var sum := 0;
      for i := 0 to TABLES
        invariant forall k :: 0 <= k < TABLES ==> indices[k] < TABLE_SIZE
        invariant forall k :: 0 <= k < i ==> indices[k] == IndexOf(words[..], LENGTHS[k], pc)
        invariant sum == Total(Selected(), i)
      {
        sum := SelectWeight(i, pc, sum);
      }
      TotalBounded(Selected(), TABLES);
      yout := sum;
      taken := yout >= 1;
    }

    /** The first part of last_branch_result: the outcome is shifted through all words. */
    method InsertOutcome(taken: bool)
      requires Layout() && Holds(words[..], outcomes)
      modifies this`outcomes, words
      ensures Holds(words[..], outcomes) && outcomes == [taken] + old(outcomes)
    {
      ghost var h, g := outcomes, [taken] + outcomes;
      var b := taken;
      hide Value, Power;
      for i := 0 to WORDS
        invariant b == Outcome(g, i * WORD)
        invariant forall k: nat :: k < i ==> words[k] == Value(g, k * WORD, WORD)
        invariant forall k: nat :: i <= k < WORDS ==> words[k] == Value(h, k * WORD, WORD)
      {
        InsertedWord(h, taken, i * WORD);
        words[i] := 2 * words[i] + Digit(b);
        b := words[i] / TABLE_SIZE % 2 == 1;
        words[i] := words[i] % TABLE_SIZE;
      }
      outcomes := g;
    }

    /** The weights that were used move towards the outcome. */
    method TrainWeights(taken: bool)
      requires Layout() && WeightsOk() && forall i :: 0 <= i < TABLES ==> indices[i] < TABLE_SIZE
      modifies tables
      ensures WeightsOk() && Selected() == AllMoved(old(Selected()), taken)
      ensures forall i, x :: 0 <= i < TABLES && 0 <= x < TABLE_SIZE && x != indices[i] ==> tables[i, x] == old(tables[i, x])
    {
      ghost var ws := Selected();
      for i := 0 to TABLES
        invariant WeightsOk()
        invariant forall k :: 0 <= k < TABLES ==> tables[k, indices[k]] == if k < i then Moved(ws[k], taken) else ws[k]
        invariant forall k, x :: 0 <= k < TABLES && 0 <= x < TABLE_SIZE && x != indices[k] ==> tables[k, x] == old(tables[k, x])
      {
        var x := indices[i];
        if taken {
          if tables[i, x] < 127 { tables[i, x] := tables[i, x] + 1; }
        } else {
          if tables[i, x] > -128 { tables[i, x] := tables[i, x] - 1; }
        }
      }
    }

    /** last_branch_result: a misprediction or a weak output trains the weights that were used and adapts the threshold. */
    method LastBranchResult(taken: bool)
      requires Valid()
      modifies this, words, tables
      ensures Valid() && outcomes == [taken] + old(outcomes) && yout == old(yout)
      ensures var correct := taken == (old(yout) >= 1);
              var trains := !correct || Magnitude(old(yout)) < old(theta);
              && (theta, tc) == Adapted(old(theta), old(tc), correct, Magnitude(old(yout)))
              && Selected() == (if trains then AllMoved(old(Selected()), taken) else old(Selected()))
              && Total(Selected(), TABLES) == Total(old(Selected()), TABLES)
                 + if trains then (if taken then 1 else -1) * (TABLES - Saturated(old(Selected()), taken, TABLES)) else 0
    {
      ghost var ws := Selected();
      AdaptedOk(theta, tc, taken == (yout >= 1), Magnitude(yout));
      TrainingMovesTotal(ws, taken, TABLES);
      hide Holds, Total, Saturated;
      var correct := taken == (yout >= 1);
      InsertOutcome(taken);
      var a := Magnitude(yout);
      if !correct || a < theta {
        TrainWeights(taken);
        AdaptThreshold(correct, a);
      }
    }

    method AdaptThreshold(correct: bool, a: nat)
      requires !correct || a < theta
      modifies this`theta, this`tc
      ensures (theta, tc) == Adapted(old(theta), old(tc), correct, a)
    {
      if !correct {
        tc := tc + 1;
        if tc >= SPEED {
          theta := theta + 1;
          tc := 0;
        }
      } else if a < theta {
        tc := tc - 1;
        if tc <= -SPEED {
          theta := theta - 1;
          tc := 0;
        }
      }
    }
  }

  lemma {:induction false} NoOutcomes(off: nat, n: nat)
    ensures Value([], off, n) == 0
  {
    if n > 0 { NoOutcomes(off, n - 1); }
  }

  lemma TotalZero(ws: seq<int>)
    ensures Total(ws, 0) == 0
  {
  }

  lemma {:induction false} SamePrefix(v: seq<int>, w: seq<int>, n: nat)
    requires n <= |v| && n <= |w| && forall i :: 0 <= i < n ==> v[i] == w[i]
    ensures Total(v, n) == Total(w, n)
  {
    if n > 0 { SamePrefix(v, w, n - 1); }
  }
}
