/** First-match search, as `Array.prototype.find` does it, by a string key of each element. */
module Lookup {
  import opened Wrappers

  /** `i` is the position of the first element of `xs` whose key is `k`. */
  predicate IsFirstMatch<T>(xs: seq<T>, key: T -> string, k: string, i: int)
  {
    0 <= i < |xs| && key(xs[i]) == k && forall j :: 0 <= j < i ==> key(xs[j]) != k
  }

  predicate NoMatch<T>(xs: seq<T>, key: T -> string, k: string)
  {
    forall i :: 0 <= i < |xs| ==> key(xs[i]) != k
  }

  /** `xs.find(x => key(x) === k)`. */
  function Find<T>(xs: seq<T>, key: T -> string, k: string): (r: Option<T>)
    ensures r.Some? ==> key(r.value) == k
  {
    if xs == [] then None
    else if key(xs[0]) == k then Some(xs[0])
    else Find(xs[1..], key, k)
  }

  /** `Find` returns the first match, and nothing exactly when no element matches. */
  lemma {:induction false} FindFirstMatch<T>(xs: seq<T>, key: T -> string, k: string)
    ensures Find(xs, key, k).None? <==> NoMatch(xs, key, k)
    ensures forall i :: IsFirstMatch(xs, key, k, i) ==> Find(xs, key, k) == Some(xs[i])
  {
    if xs != [] && key(xs[0]) != k {
      FindFirstMatch(xs[1..], key, k);
      assert forall i :: IsFirstMatch(xs, key, k, i) ==> IsFirstMatch(xs[1..], key, k, i - 1);
      if NoMatch(xs[1..], key, k) {
        forall i | 0 < i < |xs| ensures key(xs[i]) != k {
          assert xs[i] == xs[1..][i - 1];
        }
      }
    }
  }

  /** Whatever `Find` returns is the first match. */
  lemma {:induction false} FindIsFirst<T>(xs: seq<T>, key: T -> string, k: string)
    requires Find(xs, key, k).Some?
    ensures exists i :: IsFirstMatch(xs, key, k, i) && Find(xs, key, k) == Some(xs[i])
  {
    if key(xs[0]) == k {
      assert IsFirstMatch(xs, key, k, 0);
    } else {
      FindIsFirst(xs[1..], key, k);
      var i :| IsFirstMatch(xs[1..], key, k, i) && Find(xs[1..], key, k) == Some(xs[1..][i]);
      assert IsFirstMatch(xs, key, k, i + 1);
    }
  }
}
