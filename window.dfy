/**
 * Bounded history windows: every controller appends a sample to a list and
 * then keeps only the newest `cap` entries, evicting the oldest first.
 */
module Window {

  /** Append `x`, then keep the newest `cap` entries. */
  function Push<T>(w: seq<T>, x: T, cap: nat): (r: seq<T>)
    ensures |r| == if |w| + 1 <= cap then |w| + 1 else cap
    ensures cap > 0 ==> r[|r| - 1] == x
  {
    var v := w + [x];
    if |v| > cap then v[|v| - cap..] else v
  }

  /** Below the cap nothing is evicted; at the cap exactly the oldest entry
      is, and the others keep their order. */
  lemma PushEvictsOldest<T>(w: seq<T>, x: T, cap: nat)
    requires cap > 0
    ensures |w| < cap ==> Push(w, x, cap) == w + [x]
    ensures |w| >= cap ==> Push(w, x, cap) == w[|w| - cap + 1..] + [x]
  {
    if |w| >= cap {
      assert (w + [x])[|w| + 1 - cap..] == w[|w| - cap + 1..] + [x];
    }
  }

  /** Push in place of a list held by the caller: append, then drop the
      oldest entries beyond `cap`. */
  method Append<T>(w: seq<T>, x: T, cap: nat) returns (r: seq<T>)
    ensures r == Push(w, x, cap)
  {
    r := w + [x];
    if |r| > cap {
      r := r[|r| - cap..];
    }
  }

  /** The newest `cap` entries of a stream of samples. */
  function Newest<T>(xs: seq<T>, cap: nat): seq<T>
  {
    if |xs| <= cap then xs else xs[|xs| - cap..]
  }

  /** The window obtained by pushing every sample of `xs`, in order, onto `w`. */
  function PushAll<T>(w: seq<T>, xs: seq<T>, cap: nat): seq<T>
    decreases |xs|
  {
    if xs == [] then w else Push(PushAll(w, xs[..|xs| - 1], cap), xs[|xs| - 1], cap)
  }

  /** Pushing onto the window of a stream gives the window of the longer stream. */
  lemma PushNewest<T>(xs: seq<T>, x: T, cap: nat)
    ensures Push(Newest(xs, cap), x, cap) == Newest(xs + [x], cap)
  {
    var ys := xs + [x];
    if |ys| > cap {
      var n := Newest(xs, cap);
      var r := Push(n, x, cap);
      assert |r| == cap;
      forall i | 0 <= i < cap
        ensures r[i] == ys[|ys| - cap + i]
      {
        if i < cap - 1 || cap == 0 {
          assert r[i] == (n + [x])[|n| + 1 - cap + i];
        }
      }
    }
  }

  /** After any number of pushes onto an empty window, the window holds
      exactly the newest `cap` samples, oldest first. */
  lemma {:induction false} PushAllKeepsNewest<T>(xs: seq<T>, cap: nat)
    ensures PushAll([], xs, cap) == Newest(xs, cap)
    decreases |xs|
  {
    if xs != [] {
      var init := xs[..|xs| - 1];
      PushAllKeepsNewest(init, cap);
      PushNewest(init, xs[|xs| - 1], cap);
      assert init + [xs[|xs| - 1]] == xs;
    }
  }
}
