/** Counting the held chunks of a hash window. */
module WindowFacts {
  import opened Bytes
  import opened Sums
  import opened Receivers

  function InWindow(w: nat): nat -> int {
    (i: nat) => if i / HASH_WINDOW == w then 1 else 0
  }

  lemma {:induction false} WindowCount(n: nat, w: nat)
    ensures Total(n, InWindow(w)) == if n <= w * HASH_WINDOW then 0 else WindowSize(n, w)
  {
    if n > 0 {
      WindowCount(n - 1, w);
    }
  }

  /** A window's count never exceeds its size and reaches it exactly when all of it is held. */
  lemma WindowFull(held: seq<bool>, w: nat)
    requires w < Windows(|held|)
    ensures 0 < WindowSize(|held|, w) && HeldInWindow(held, w) <= WindowSize(|held|, w)
    ensures HeldInWindow(held, w) == WindowSize(|held|, w) <==>
            forall i: nat :: i < |held| && i / HASH_WINDOW == w ==> held[i]
  {
    var n := |held|;
    WindowCount(n, w);
    TotalBounds(n, HeldIn(held, w), InWindow(w));
    if forall i: nat :: i < n && i / HASH_WINDOW == w ==> held[i] {
      TotalSame(n, HeldIn(held, w), InWindow(w));
    } else {
      var i: nat :| i < n && i / HASH_WINDOW == w && !held[i];
      assert HeldIn(held, w)(i) != InWindow(w)(i);
    }
  }

  /** Recording chunk i adds one to its window and nothing to the others. */
  lemma WindowGains(held: seq<bool>, i: nat, w: nat)
    requires i < |held| && !held[i]
    ensures HeldInWindow(held[i := true], w) == HeldInWindow(held, w) + if i / HASH_WINDOW == w then 1 else 0
  {
    TotalChange(|held|, HeldIn(held, w), HeldIn(held[i := true], w), i);
  }

  /** The windows cover the chunks, and their frames name them in 32 bits. */
  lemma WindowOfChunk(n: nat, i: nat)
    requires i < n
    ensures i / HASH_WINDOW < Windows(n)
  {
  }

  lemma WindowStart(n: nat, w: nat)
    requires w < Windows(n) && n < MAX32
    ensures U32(w * HASH_WINDOW) == w * HASH_WINDOW < n
    ensures 0 < WindowSize(n, w) <= HASH_WINDOW && U32(WindowSize(n, w)) == WindowSize(n, w)
    ensures w * HASH_WINDOW + WindowSize(n, w) <= n
    ensures forall i: nat ::
              i < n && i / HASH_WINDOW == w <==> w * HASH_WINDOW <= i < w * HASH_WINDOW + WindowSize(n, w)
  {
  }
}
