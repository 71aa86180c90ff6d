/** Conservation over every run: requests, pool packets and matched packets are
    neither lost nor duplicated, whatever the interleaving.

    Each ledger counts one thing over the callbacks in flight and over the shared
    state. A step that keeps the balance between its own callback and the shared
    state keeps the balance of the whole. */
module Ledgers {
  import opened Rendezvous
  import opened Driver

  /** How often x occurs in xs. */
  function Count<T(==)>(xs: seq<T>, x: T): nat {
    if xs == [] then 0 else Count(xs[..|xs| - 1], x) + if xs[|xs| - 1] == x then 1 else 0
  }

  lemma {:induction false} CountConcat<T>(a: seq<T>, b: seq<T>, x: T)
    ensures Count(a + b, x) == Count(a, x) + Count(b, x)
  {
    if b == [] {
      assert a + b == a;
    } else {
      var n := |b| - 1;
      assert (a + b)[..|a| + n] == a + b[..n];
      CountConcat(a, b[..n], x);
    }
  }

  lemma CountOne<T>(y: T, x: T)
    ensures Count([y], x) == if y == x then 1 else 0
  {
  }

  lemma CountHead<T>(xs: seq<T>, x: T)
    requires xs != []
    ensures Count(xs, x) == (if xs[0] == x then 1 else 0) + Count(xs[1..], x)
  {
    assert xs == [xs[0]] + xs[1..];
    CountConcat([xs[0]], xs[1..], x);
  }

  lemma CountPlace<T>(xs: seq<T>, k: nat, x: T)
    requires k < |xs|
    ensures Count(xs, x) == (if xs[k] == x then 1 else 0) + Count(xs[..k] + xs[k + 1..], x)
  {
    assert xs == xs[..k] + xs[k..];
    CountConcat(xs[..k], xs[k..], x);
    CountHead(xs[k..], x);
    CountConcat(xs[..k], xs[k + 1..], x);
  }

  lemma {:induction false} CountOnlyMembers<T>(xs: seq<T>, x: T)
    ensures Count(xs, x) > 0 <==> x in xs
  {
    if xs != [] {
      CountOnlyMembers(xs[..|xs| - 1], x);
      assert xs == xs[..|xs| - 1] + [xs[|xs| - 1]];
    }
  }

  lemma TallyAppend(ts: seq<Thread>, t: Thread, f: Thread -> nat)
    ensures Tally(ts + [t], f) == Tally(ts, f) + f(t)
  {
    assert (ts + [t])[..|ts|] == ts;
  }

  lemma {:induction false} TallyUpdate(ts: seq<Thread>, i: nat, t: Thread, f: Thread -> nat)
    requires i < |ts|
    ensures Tally(ts[i := t], f) + f(ts[i]) == Tally(ts, f) + f(t)
  {
    var n := |ts| - 1;
    if i == n {
      assert ts[i := t][..n] == ts[..n];
    } else {
      assert ts[i := t][..n] == ts[..n][i := t];
      TallyUpdate(ts[..n], i, t, f);
    }
  }

  lemma {:induction false} NoRepeatsCount<T>(xs: seq<T>, x: T)
    requires NoRepeats(xs)
    ensures Count(xs, x) == if x in xs then 1 else 0
  {
    if xs != [] {
      NoRepeatsCount(xs[1..], x);
      CountHead(xs, x);
    }
  }

  /** Nothing occurs twice in xs if nothing occurs more often than in ys. */
  lemma CountedOnce<T>(xs: seq<T>, ys: seq<T>)
    requires NoRepeats(ys) && forall x :: Count(xs, x) <= Count(ys, x)
    ensures NoRepeats(xs)
  {
    forall i, j | 0 <= i < j < |xs| ensures xs[i] != xs[j] {
      CountPlace(xs, j, xs[j]);
      var rest := xs[..j] + xs[j + 1..];
      NoRepeatsCount(ys, xs[j]);
      assert rest[i] == xs[i];
      CountPlace(rest, i, xs[j]);
    }
  }
}
