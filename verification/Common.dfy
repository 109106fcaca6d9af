/** Notions shared by the models of the core, the memory system and the predictors. */
module Common {

  datatype Option<+T> = None | Some(value: T)

  /** The three values of the simulator's progress flags: 0, INFLIGHT and COMPLETED. */
  datatype Status = Idle | Inflight | Completed

  /** Index `x` of a circular buffer of `n` slots that has run at most once past the end. */
  function Wrap(n: nat, x: nat): nat {
    if x < n then x else x - n
  }

  /** How many steps a circular buffer of `n` slots takes from `head` to slot `i`. */
  function AgeFrom(head: nat, n: nat, i: nat): nat
    requires head < n && i < n
  {
    if head <= i then i - head else i + n - head
  }

  ghost predicate Distinct<T>(q: seq<T>) {
    forall i, j :: 0 <= i < j < |q| ==> q[i] != q[j]
  }

  lemma MulMonotonic(m: nat, x: int, y: int)
    requires x <= y
    ensures m * x <= m * y
  {
  }

  lemma {:induction false} DistinctCount<T>(q: seq<T>, x: T)
    requires Distinct(q)
    ensures multiset(q)[x] == if x in q then 1 else 0
  {
    if |q| > 0 {
      var q' := q[1..];
      DistinctCount(q', x);
      assert q == [q[0]] + q';
      assert multiset(q) == multiset{q[0]} + multiset(q');
    }
  }

  /** Distinct numbers below `n` are at most `n` many. */
  lemma {:induction false} DistinctBelow(q: seq<nat>, n: nat)
    requires Distinct(q)
    requires forall x :: x in q ==> x < n
    ensures |q| <= n
  {
    if |q| == 0 {
      return;
    }
    assert q[0] in q && 0 < n;
    if n - 1 in q {
      var k :| 0 <= k < |q| && q[k] == n - 1;
      var rest := q[..k] + q[k + 1..];
      assert forall x :: x in rest ==> x in q;
      forall i, j | 0 <= i < j < |rest| ensures rest[i] != rest[j] {
        var i', j' := if i < k then i else i + 1, if j < k then j else j + 1;
        assert rest[i] == q[i'] && rest[j] == q[j'];
      }
      forall x | x in rest ensures x < n - 1 {
        var i :| 0 <= i < |rest| && rest[i] == x;
        assert x == q[if i < k then i else i + 1];
      }
      DistinctBelow(rest, n - 1);
    } else {
      DistinctBelow(q, n - 1);
    }
  }

  /** From queue `a` to queue `b`, slots have left at the front and others come in at the end. */
  ghost predicate Fifo(a: seq<nat>, b: seq<nat>) {
    exists n: nat | n <= |a| :: a[n..] <= b && forall k :: |a| - n <= k < |b| ==> b[k] !in a
  }

  lemma PrefixIsFifo(a: seq<nat>, b: seq<nat>)
    requires Distinct(b) && a <= b
    ensures Fifo(a, b)
  {
    assert a[0..] == a;
    assert forall i :: 0 <= i < |a| ==> a[i] == b[i];
  }

  lemma SuffixIsFifo(a: seq<nat>, n: nat)
    requires n <= |a|
    ensures Fifo(a, a[n..])
  {
  }
}
