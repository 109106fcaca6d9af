/** The global history of the hashed perceptron predictor: words of twelve outcomes, and the table indices hashed from them. */
module HashedHistories {
  import opened Bits

  const WORD: nat := 12
  const WORDS: nat := 20
  const TABLE_SIZE: nat := 4096
  const TABLES: nat := 16
  const LENGTHS: seq<nat> := [0, 3, 4, 6, 8, 10, 14, 19, 26, 36, 49, 67, 91, 125, 170, 232]

  /** The outcome of age `a`; 0 is the most recent one. */
  predicate Outcome(h: seq<bool>, a: nat) { a < |h| && h[a] }

  function Digit(b: bool): nat { if b then 1 else 0 }

  /** The `n` outcomes from age `off` on as a number, the most recent in the lowest bit. */
  function Value(h: seq<bool>, off: nat, n: nat): nat {
    if n == 0 then 0 else Value(h, off, n - 1) + Digit(Outcome(h, off + n - 1)) * Power(n - 1)
  }

  /** A word is its first outcome and twice the rest. */
  lemma {:induction false} FirstDigit(h: seq<bool>, off: nat, n: nat)
    ensures Value(h, off, n + 1) == Digit(Outcome(h, off)) + 2 * Value(h, off + 1, n)
  {
    if n > 0 {
      FirstDigit(h, off, n - 1);
      assert off + 1 + (n - 1) == off + n;
    } else {
      assert Value(h, off, 1) == Digit(Outcome(h, off)) * Power(0);
    }
  }

  lemma {:induction false} ValueFits(h: seq<bool>, off: nat, n: nat)
    ensures Value(h, off, n) < Power(n)
  {
    if n > 0 { ValueFits(h, off, n - 1); }
  }

  /** Bit `k` of a word is the outcome of age `off + k`. */
  lemma {:induction false} BitIsOutcome(h: seq<bool>, off: nat, n: nat, k: nat)
    requires k < n
    ensures Bit(Value(h, off, n), k) <==> Outcome(h, off + k)
    decreases n
  {
    FirstDigit(h, off, n - 1);
    if k > 0 { BitIsOutcome(h, off + 1, n - 1, k - 1); }
  }

  /** One more outcome moves all others up by one. */
  lemma {:induction false} OlderByOne(h: seq<bool>, b: bool, off: nat, n: nat)
    ensures Value([b] + h, off + 1, n) == Value(h, off, n)
  {
    if n > 0 {
      OlderByOne(h, b, off, n - 1);
      assert ([b] + h)[1..] == h;
    }
  }

  /** A longer word is a shorter one below the rest. */
  lemma {:induction false} WordSplits(h: seq<bool>, off: nat, m: nat, n: nat)
    requires m <= n
    ensures Value(h, off, n) == Join(Value(h, off, m), Power(m), Value(h, off + m, n - m))
    decreases n
  {
    if m < n {
      WordSplits(h, off, m, n - 1);
      PowerAdds(m, n - 1 - m);
      var x, y := Value(h, off, m), Value(h, off + m, n - 1 - m);
      var p, q, d := Power(m), Power(n - 1 - m), Digit(Outcome(h, off + n - 1));
      assert Value(h, off, n) == Value(h, off, n - 1) + d * Power(n - 1);
      assert off + m + (n - m) - 1 == off + n - 1;
      assert Value(h, off + m, n - m) == y + d * q;
      Distribute(x, p, y, q, d);
    } else {
      assert Value(h, off + m, 0) == 0;
    }
  }

  lemma Distribute(x: nat, p: nat, y: nat, q: nat, d: nat)
    requires d == 0 || d == 1
    ensures x + p * y + d * (p * q) == x + p * (y + d * q)
  {
  }

  /** Masking a word keeps its most recent outcomes. */
  lemma MaskedWord(h: seq<bool>, off: nat, m: nat, n: nat)
    requires m <= n
    ensures Low(Value(h, off, n), Power(m)) == Value(h, off, m)
  {
    WordSplits(h, off, m, n);
    ValueFits(h, off, m);
    JoinParts(Value(h, off, m), Power(m), Value(h, off + m, n - m));
  }

  // ----- table indices

  function XorWords(words: seq<nat>, m: nat): nat
    requires m <= |words|
  {
    if m == 0 then 0 else Xor(XorWords(words, m - 1), words[m - 1])
  }

  /** The index for history length `n`. */
  function IndexOf(words: seq<nat>, n: nat, pc: nat): (r: nat)
    requires n / WORD < |words|
    ensures r < TABLE_SIZE
  {
    Xor(Xor(XorWords(words, n / WORD), Low(words[n / WORD], Power(n % WORD))), pc) % TABLE_SIZE
  }

  /** The words hold the outcomes, twelve each. */
  ghost predicate Holds(words: seq<nat>, h: seq<bool>) {
    |words| == WORDS && forall j: nat :: j < WORDS ==> words[j] == Value(h, j * WORD, WORD)
  }

  /** Bit `k` of word `j` is the outcome of age 12 j + k. */
  lemma WordBits(words: seq<nat>, h: seq<bool>, j: nat, k: nat)
    requires Holds(words, h) && j < WORDS && k < WORD
    ensures Bit(words[j], k) <==> Outcome(h, j * WORD + k)
  {
    BitIsOutcome(h, j * WORD, WORD, k);
  }

  // ----- what the index is

  /** Whether an odd number of the outcomes of age `b`, 12 + b, 24 + b and so on below `n` were taken. */
  ghost predicate OddlyTaken(h: seq<bool>, b: nat, n: nat) {
    n > 0 && OddlyTaken(h, b, n - 1) != ((n - 1) % WORD == b && Outcome(h, n - 1))
  }

  /** A word folds twelve more outcomes in, one into each bit. */
  lemma {:induction false} WordFolds(h: seq<bool>, b: nat, off: nat, n: nat)
    requires b < WORD && n <= WORD && off % WORD == 0
    ensures OddlyTaken(h, b, off + n) == (OddlyTaken(h, b, off) != (b < n && Outcome(h, off + b)))
  {
    if n > 0 {
      WordFolds(h, b, off, n - 1);
      assert (off + n - 1) % WORD == n - 1;
    }
  }

  lemma BitOfValue(h: seq<bool>, off: nat, n: nat, b: nat)
    ensures Bit(Value(h, off, n), b) <==> b < n && Outcome(h, off + b)
  {
    if b < n {
      BitIsOutcome(h, off, n, b);
    } else {
      ValueFits(h, off, n);
      LowOfSmall(Value(h, off, n), Power(n));
      BitOfLow(Value(h, off, n), n, b);
    }
  }

  lemma {:induction false} BitOfXorWords(words: seq<nat>, h: seq<bool>, m: nat, b: nat)
    requires Holds(words, h) && m <= WORDS && b < WORD
    ensures Bit(XorWords(words, m), b) <==> OddlyTaken(h, b, m * WORD)
  {
    if m > 0 {
      BitOfXorWords(words, h, m - 1, b);
      BitOfXor(XorWords(words, m - 1), words[m - 1], b);
      BitOfValue(h, (m - 1) * WORD, WORD, b);
      WordFolds(h, b, (m - 1) * WORD, WORD);
    } else {
      BitOfZero(b);
    }
  }

  /** Bit `b` of the index is the parity of bit `b` of the address and of the outcomes of age 12 j + b below `n`. */
  lemma IndexBits(words: seq<nat>, h: seq<bool>, n: nat, pc: nat, b: nat)
    requires Holds(words, h) && n / WORD < WORDS && b < WORD
    ensures Bit(IndexOf(words, n, pc), b) <==> Bit(pc, b) != OddlyTaken(h, b, n)
  {
    var m, k := n / WORD, n % WORD;
    var x, y := XorWords(words, m), Low(words[m], Power(k));
    MaskedWord(h, m * WORD, k, WORD);
    BitOfXorWords(words, h, m, b);
    BitOfValue(h, m * WORD, k, b);
    WordFolds(h, b, m * WORD, k);
    BitOfXor(x, y, b);
    BitOfXor(Xor(x, y), pc, b);
    PowerOfTwelve();
    BitOfLow(Xor(Xor(x, y), pc), WORD, b);
  }

  /** The histories differ in the outcome of age `a` and in no other below `n`. */
  ghost predicate DifferAt(h: seq<bool>, g: seq<bool>, a: nat, n: nat) {
    forall k: nat :: k < n ==> (Outcome(h, k) != Outcome(g, k) <==> k == a)
  }

  lemma {:induction false} ParityDiffers(h: seq<bool>, g: seq<bool>, a: nat, n: nat, m: nat)
    requires DifferAt(h, g, a, n) && m <= n
    ensures OddlyTaken(h, a % WORD, m) != OddlyTaken(g, a % WORD, m) <==> a < m
  {
    if m > 0 { ParityDiffers(h, g, a, n, m - 1); }
  }

  /** Each of the `n` most recent outcomes matters: with one of them changed the index is another one. */
  lemma EveryOutcomeMatters(v: seq<nat>, w: seq<nat>, h: seq<bool>, g: seq<bool>, n: nat, pc: nat, a: nat)
    requires Holds(v, h) && Holds(w, g) && n / WORD < WORDS && a < n && DifferAt(h, g, a, n)
    ensures IndexOf(v, n, pc) != IndexOf(w, n, pc)
  {
    hide IndexOf;
    IndexBits(v, h, n, pc, a % WORD);
    IndexBits(w, g, n, pc, a % WORD);
    ParityDiffers(h, g, a, n, n);
  }

  ghost predicate Agree(h: seq<bool>, g: seq<bool>, n: nat) { forall a: nat :: a < n ==> Outcome(h, a) == Outcome(g, a) }

  lemma {:induction false} AgreeingValues(h: seq<bool>, g: seq<bool>, off: nat, m: nat, n: nat)
    requires Agree(h, g, n) && off + m <= n
    ensures Value(h, off, m) == Value(g, off, m)
  {
    if m > 0 { AgreeingValues(h, g, off, m - 1, n); }
  }

  lemma {:induction false} AgreeingWords(v: seq<nat>, w: seq<nat>, h: seq<bool>, g: seq<bool>, m: nat, n: nat)
    requires Holds(v, h) && Holds(w, g) && Agree(h, g, n) && m * WORD <= n && m <= WORDS
    ensures XorWords(v, m) == XorWords(w, m)
  {
    if m > 0 {
      AgreeingWords(v, w, h, g, m - 1, n);
      AgreeingValues(h, g, (m - 1) * WORD, WORD, n);
    }
  }

  /** The index depends only on the `n` most recent outcomes and the address of the branch. */
  lemma IndexDependsOnRecent(v: seq<nat>, w: seq<nat>, h: seq<bool>, g: seq<bool>, n: nat, pc: nat)
    requires Holds(v, h) && Holds(w, g) && Agree(h, g, n) && n / WORD < WORDS
    ensures IndexOf(v, n, pc) == IndexOf(w, n, pc)
  {
    var m := n / WORD;
    AgreeingWords(v, w, h, g, m, n);
    MaskedWord(h, m * WORD, n % WORD, WORD);
    MaskedWord(g, m * WORD, n % WORD, WORD);
    AgreeingValues(h, g, m * WORD, n % WORD, n);
  }

  /** The word from age `off` on after one more outcome, before the mask, and the bit it hands on. */
  lemma InsertedWord(h: seq<bool>, b: bool, off: nat)
    ensures var w := 2 * Value(h, off, WORD) + Digit(Outcome([b] + h, off));
            && w % TABLE_SIZE == Value([b] + h, off, WORD)
            && (w / TABLE_SIZE % 2 == 1 <==> Outcome([b] + h, off + WORD))
  {
    var g := [b] + h;
    FirstDigit(g, off, WORD);
    OlderByOne(h, b, off, WORD);
    ValueFits(g, off, WORD);
    PowerOfTwelve();
    assert Value(g, off, WORD + 1) == Value(g, off, WORD) + Digit(Outcome(g, off + WORD)) * Power(WORD);
  }
}
