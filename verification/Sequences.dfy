/** Regrouping facts about concatenation, stated once so that each proof can ask for just the one it needs. */
module Sequences {

  lemma Assoc<T>(a: seq<T>, b: seq<T>, c: seq<T>)
    ensures a + (b + c) == a + b + c
  {
  }

  lemma HeadAndTail<T>(a: seq<T>, b: seq<T>)
    requires a != []
    ensures (a + b)[0] == a[0] && (a + b)[1..] == a[1..] + b
  {
  }

  lemma Rest<T>(a: seq<T>, b: seq<T>)
    ensures (a + b)[|a|..] == b && (a + b)[..|a|] == a
  {
  }
}

/** An induction over the points of a run, stated once for every property that holds up to some point. */
module Runs {

  /** What fails once fails for good: `follows` holds all the way exactly when nothing has failed at the end. */
  lemma {:induction false} UpTo(follows: nat -> bool, clean: nat -> bool, n: nat)
    requires follows(0) && clean(0)
    requires forall i: nat :: i < n && clean(i + 1) ==> clean(i)
    requires forall i: nat :: i < n && clean(i) && follows(i) ==> (follows(i + 1) <==> clean(i + 1))
    ensures (forall m: nat :: m <= n ==> follows(m)) <==> clean(n)
  {
    if n > 0 {
      UpTo(follows, clean, n - 1);
      assert follows(n - 1 + 1) <==> follows(n);
    }
  }
}
