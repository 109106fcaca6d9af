/** The perceptron branch predictor: dot products over the branch history, saturating training, and the two history registers. */
module Perceptrons {
  import opened Bits

  const HISTORY: nat := 24
  const WEIGHTS: nat := HISTORY + 1
  const PERCEPTRONS: nat := 163
  const THETA: int := 60
  const ENTRIES: nat := 100
  const MAX64: nat := 0x1_0000_0000_0000_0000

  ghost predicate InRange(w: seq<int>) { |w| == WEIGHTS && forall i :: 0 <= i < WEIGHTS ==> -128 <= w[i] <= 127 }

  /** The history register after one more outcome. */
  function Shift(history: nat, b: bool): nat { (2 * history + if b then 1 else 0) % MAX64 }

  /** The register after the outcomes `os`, the oldest first. */
  function Recorded(os: seq<bool>): nat {
    if |os| == 0 then 0 else Shift(Recorded(os[..|os| - 1]), os[|os| - 1])
  }

  /** Its bits are the last 64 outcomes, the most recent lowest. */
  lemma {:induction false} RecordedBits(os: seq<bool>, a: nat)
    ensures Bit(Recorded(os), a) <==> a < 64 && a < |os| && os[|os| - 1 - a]
    decreases |os|
  {
    if |os| == 0 {
      BitOfZero(a);
    } else {
      ShiftBits(Recorded(os[..|os| - 1]), os[|os| - 1], a);
      if a > 0 { RecordedBits(os[..|os| - 1], a - 1); }
    }
  }

  lemma ShiftBits(history: nat, b: bool, a: nat)
    ensures Bit(Shift(history, b), a) <==> a < 64 && if a == 0 then b else Bit(history, a - 1)
  {
    hide Power;
    var pushed := 2 * history + if b then 1 else 0;
    assert pushed / 2 == history;
    RegisterSize();
    BitOfLow(pushed, 64, a);
  }

  lemma RegisterSize()
    ensures Power(64) == MAX64
  {
    hide Power;
    SixteenBits();
    PowerAdds(16, 16);
    PowerAdds(32, 32);
  }

  /** The first `n` weights, each added if its branch of the history was taken and subtracted otherwise. */
  function Dot(w: seq<int>, history: nat, n: nat): int
    requires n < |w|
  {
    if n == 0 then w[0] else Dot(w, history, n - 1) + if Bit(history, n - 1) then w[n] else -w[n]
  }

  function Output(w: seq<int>, history: nat): int
    requires |w| == WEIGHTS
  {
    Dot(w, history, HISTORY)
  }

  /** Whether training counts weight `i` up: the bias follows the outcome, the others whether they agree with it. */
  predicate Up(history: nat, taken: bool, i: nat) {
    if i == 0 then taken else Bit(history, i - 1) == taken
  }

  /** A weight that cannot move because it is saturated. */
  predicate Blocked(x: int, up: bool) { if up then x >= 127 else x <= -128 }

  function Moved(x: int, up: bool): int {
    if Blocked(x, up) then x else if up then x + 1 else x - 1
  }

  /** All weights of a perceptron trained with one outcome. */
  function Trained(w: seq<int>, history: nat, taken: bool): (r: seq<int>)
    requires |w| == WEIGHTS
    ensures |r| == WEIGHTS
  {
    seq(WEIGHTS, i requires 0 <= i < WEIGHTS => Moved(w[i], Up(history, taken, i)))
  }

  /** How many of the first `n` + 1 weights cannot move. */
  function Stuck(w: seq<int>, history: nat, taken: bool, n: nat): (r: nat)
    requires n < |w|
    ensures r <= n + 1
  {
    (if n == 0 then 0 else Stuck(w, history, taken, n - 1)) + if Blocked(w[n], Up(history, taken, n)) then 1 else 0
  }

  lemma {:induction false} DotMoves(w: seq<int>, history: nat, taken: bool, n: nat)
    requires |w| == WEIGHTS && n < WEIGHTS
    ensures Dot(Trained(w, history, taken), history, n)
         == Dot(w, history, n) + (if taken then 1 else -1) * (n + 1 - Stuck(w, history, taken, n))
  {
    if n > 0 { DotMoves(w, history, taken, n - 1); }
  }

  /** One training step moves the output on the same history towards the outcome, by one for each weight that is not saturated. */
  lemma TrainingMovesOutput(w: seq<int>, history: nat, taken: bool)
    requires InRange(w)
    ensures InRange(Trained(w, history, taken))
    ensures Output(Trained(w, history, taken), history)
         == Output(w, history) + (if taken then 1 else -1) * (WEIGHTS - Stuck(w, history, taken, HISTORY))
  {
    DotMoves(w, history, taken, HISTORY);
  }

  /** Training stops only for an output beyond the threshold in the direction of the outcome. */
  predicate Confident(output: int, taken: bool) { if taken then output > THETA else output < -THETA }

  function Size(y: int): nat { if y < 0 then -y else y }

  /** Training goes on after a misprediction, and while the output is not beyond the threshold. */
  lemma TrainsUnlessSure(output: int, taken: bool)
    ensures !Confident(output, taken) <==> (output >= 0) != taken || Size(output) <= THETA
  {
  }

  /** What perceptron_state keeps from the prediction to the update. */
  datatype Prediction = Prediction(taken: bool, output: int, history: nat, row: nat)

  class Predictor {
    const weights: array2<int>
    const buffer: array<Prediction>
    var counter: nat
    var current: nat          // the buffer entry of the branch being predicted
    var specHistory: nat
    var history: nat

    ghost predicate Layout() {
      weights.Length0 == PERCEPTRONS && weights.Length1 == WEIGHTS && buffer.Length == ENTRIES
    }

    function Row(r: nat): (w: seq<int>)
      requires Layout() && r < PERCEPTRONS
      reads weights
      ensures |w| == WEIGHTS && forall i :: 0 <= i < WEIGHTS ==> w[i] == weights[r, i]
    {
      seq(WEIGHTS, i requires 0 <= i < WEIGHTS reads weights requires Layout() => weights[r, i])
    }

    ghost predicate Valid()
      reads this, weights, buffer
    {
      && Layout() && counter < ENTRIES && current < ENTRIES
      && (forall r :: 0 <= r < PERCEPTRONS ==> InRange(Row(r)))
      && (forall k :: 0 <= k < ENTRIES ==> buffer[k].row < PERCEPTRONS)
    }

    constructor ()
      ensures Valid() && fresh(weights) && fresh(buffer) && specHistory == history == 0
    {
      weights := new int[PERCEPTRONS, WEIGHTS]((r, i) => 0);
      buffer := new Prediction[ENTRIES](_ => Prediction(false, 0, 0, 0));
      counter, current, specHistory, history := 0, 0, 0, 0;
    }

    /** predict_branch. */
    method PredictBranch(ip: nat) returns (taken: bool)
      requires Valid()
      modifies this, buffer
      ensures Valid() && history == old(history) && specHistory == Shift(old(specHistory), taken)
      ensures var w := Row(ip % PERCEPTRONS);
              && taken == (Output(w, old(specHistory)) >= 0)
              && buffer[current] == Prediction(taken, Output(w, old(specHistory)), old(specHistory), ip % PERCEPTRONS)
    {
      current := counter;
      counter := counter + 1;
      if counter >= ENTRIES { counter := 0; }
      var index := ip % PERCEPTRONS;
      var output := weights[index, 0];
      for i := 0 to HISTORY
        invariant output == Dot(Row(index), specHistory, i)
      {
        if Bit(specHistory, i) { output := output + weights[index, i + 1]; } else { output := output + -weights[index, i + 1]; }
      }
      taken := output >= 0;
      buffer[current] := Prediction(taken, output, specHistory, index);
      specHistory := Shift(specHistory, taken);
    }

    /** The training loop of last_branch_result. */
    method Train(r: nat, h: nat, taken: bool)
      requires Layout() && r < PERCEPTRONS && InRange(Row(r))
      modifies weights
      ensures Row(r) == Trained(old(Row(r)), h, taken)
      ensures forall q, i :: 0 <= q < PERCEPTRONS && 0 <= i < WEIGHTS && q != r ==> weights[q, i] == old(weights[q, i])
    {
      ghost var w := Row(r);
      var bias := if taken then weights[r, 0] + 1 else weights[r, 0] - 1;
      if bias > 127 { bias := 127; }
      if bias < -128 { bias := -128; }
      weights[r, 0] := bias;
      for i := 0 to HISTORY
        invariant forall q, k :: 0 <= q < PERCEPTRONS && 0 <= k < WEIGHTS && q != r ==> weights[q, k] == old(weights[q, k])
        invariant forall k :: 0 <= k < WEIGHTS ==> weights[r, k] == if k <= i then Moved(w[k], Up(h, taken, k)) else w[k]
      {
        var x := weights[r, i + 1];
        if Bit(h, i) == taken {
          x := x + 1;
          if x > 127 { x := 127; }
        } else {
          x := x - 1;
          if x < -128 { x := -128; }
        }
        weights[r, i + 1] := x;
      }
    }

    /** last_branch_result for the branch that was predicted last. */
    method LastBranchResult(taken: bool)
      requires Valid()
      modifies this`history, this`specHistory, weights
      ensures Valid() && history == Shift(old(history), taken)
      ensures specHistory == if buffer[current].taken != taken then history else old(specHistory)
      ensures var p := buffer[current];
              Row(p.row) == if Confident(p.output, taken) then old(Row(p.row)) else Trained(old(Row(p.row)), p.history, taken)
    {
      var p := buffer[current];
      history := Shift(history, taken);
      if p.taken != taken { specHistory := history; }
      var y := if p.output > THETA then 1 else if p.output < -THETA then 0 else 2;
      if y == 1 && taken { return; }
      if y == 0 && !taken { return; }
      assert InRange(Row(p.row));
      TrainingMovesOutput(Row(p.row), p.history, taken);
      Train(p.row, p.history, taken);
      forall r | 0 <= r < PERCEPTRONS ensures InRange(Row(r)) { assert r != p.row ==> Row(r) == old(Row(r)); }
    }

    /**
     A branch is predicted and then resolved: both histories agree again, and unless the output was
     beyond the threshold on the right side, predicting it again on the same history gives an output
     that lies nearer to the outcome by the number of weights that could move.
     */
    method Resolve(ip: nat, taken: bool) returns (predicted: bool)
      requires Valid() && specHistory == history
      modifies this, weights, buffer
      ensures Valid() && specHistory == history == Shift(old(history), taken)
      ensures var w, r := old(Row(ip % PERCEPTRONS)), ip % PERCEPTRONS;
              && predicted == (Output(w, old(history)) >= 0)
              && Output(Row(r), old(history)) == Output(w, old(history))
                 + if Confident(Output(w, old(history)), taken) then 0
                   else (if taken then 1 else -1) * (WEIGHTS - Stuck(w, old(history), taken, HISTORY))
    {
      ghost var w := Row(ip % PERCEPTRONS);
      assert InRange(w);
      TrainingMovesOutput(w, history, taken);
      hide Dot, Trained, Stuck, Shift, InRange;
      predicted := PredictBranch(ip);
      LastBranchResult(taken);
    }
  }
}
