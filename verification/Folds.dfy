/** Running a step over a list of inputs, and what it puts out on the way. */
module Folds {

  function Final<S, K>(step: (S, K) -> S, s: S, keys: seq<K>): S {
    if keys == [] then s else step(Final(step, s, keys[..|keys| - 1]), keys[|keys| - 1])
  }

  function PutOut<S, K, O>(step: (S, K) -> S, out: (S, K) -> seq<O>, s: S, keys: seq<K>): seq<O> {
    if keys == [] then []
    else PutOut(step, out, s, keys[..|keys| - 1]) + out(Final(step, s, keys[..|keys| - 1]), keys[|keys| - 1])
  }

  lemma {:induction false} OneMoreKey<S, K, O>(step: (S, K) -> S, out: (S, K) -> seq<O>, s: S, keys: seq<K>, key: K)
    ensures Final(step, s, keys + [key]) == step(Final(step, s, keys), key)
    ensures PutOut(step, out, s, keys + [key]) == PutOut(step, out, s, keys) + out(Final(step, s, keys), key)
  {
    assert (keys + [key])[..|keys|] == keys;
  }

  /** Two lists one after the other. */
  lemma {:induction false} FoldConcat<S, K, O>(step: (S, K) -> S, out: (S, K) -> seq<O>, s: S, a: seq<K>, b: seq<K>)
    ensures Final(step, s, a + b) == Final(step, Final(step, s, a), b)
    ensures PutOut(step, out, s, a + b) == PutOut(step, out, s, a) + PutOut(step, out, Final(step, s, a), b)
  {
    if b == [] {
      assert a + b == a;
    } else {
      var front, last := b[..|b| - 1], b[|b| - 1];
      assert a + b == (a + front) + [last] && b == front + [last];
      FoldConcat(step, out, s, a, front);
      OneMoreKey(step, out, s, a + front, last);
      OneMoreKey(step, out, Final(step, s, a), front, last);
    }
  }
}
