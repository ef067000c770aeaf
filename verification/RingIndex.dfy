/** Positions in a circular buffer: where the k-th item of an endless stream
    lands when every item is stored one place after the previous one. */
module RingIndex {

  /** One step forward in a buffer of n places: back to 0 after the last one. */
  function Inc(i: nat, n: nat): (r: nat)
    requires i < n
    ensures r < n
  {
    if i + 1 < n then i + 1 else 0
  }

  lemma IncIsModulus(i: nat, n: nat)
    requires i < n
    ensures Inc(i, n) == (i + 1) % n
  {
  }

  /** The place of item k: n places are used over and over, starting at 0. */
  function Pos(k: nat, n: nat): (r: nat)
    requires n > 0
    ensures r < n
  {
    if k == 0 then 0 else Inc(Pos(k - 1, n), n)
  }

  lemma {:induction false} PosOffset(k: nat, d: nat, n: nat)
    requires d < n
    ensures Pos(k + d, n) == if Pos(k, n) + d < n then Pos(k, n) + d else Pos(k, n) + d - n
  {
    if d > 0 {
      PosOffset(k, d - 1, n);
    }
  }

  /** Fewer than n items apart means different places. */
  lemma PosDistinct(j: nat, k: nat, n: nat)
    requires j < k < j + n
    ensures Pos(j, n) != Pos(k, n)
  {
    PosOffset(j, k - j, n);
  }

  /** In the first round the place is the item number. */
  lemma PosFirstRound(k: nat, n: nat)
    requires k < n
    ensures Pos(k, n) == k
  {
    PosOffset(0, k, n);
  }

  /** Item n is the first to reuse place 0. */
  lemma PosWraps(n: nat)
    requires n > 0
    ensures Pos(n, n) == 0
  {
    PosFirstRound(n - 1, n);
  }
}
