/** Machine integers, optional values, and sums of sequences. */
module Basics {
  const TWO_32 := 0x1_0000_0000
  const TWO_63 := 0x8000_0000_0000_0000
  const TWO_64 := 0x1_0000_0000_0000_0000

  type uint8 = x: int | 0 <= x < 256
  type uint16 = x: int | 0 <= x < 65536
  type uint32 = x: int | 0 <= x < 0x1_0000_0000
  type uint64 = x: int | 0 <= x < 0x1_0000_0000_0000_0000
  type int32 = x: int | -0x8000_0000 <= x < 0x8000_0000

  /** What 32 bits with sign keep of a number. */
  function ToInt32(x: int): int32 {
    (x + 0x8000_0000) % 0x1_0000_0000 - 0x8000_0000
  }

  lemma ToInt32Wraps(x: int)
    requires -0x8000_0000 <= x < TWO_32
    ensures ToInt32(x) == if x < 0x8000_0000 then x else x - TWO_32
  {
  }

  datatype Option<T> = None | Some(value: T)

  function Sum(s: seq<int>): int {
    if s == [] then 0 else Sum(s[..|s| - 1]) + s[|s| - 1]
  }

  lemma {:induction false} SumUpdate(s: seq<int>, i: nat, x: int)
    requires i < |s|
    ensures Sum(s[i := x]) == Sum(s) - s[i] + x
  {
    var init := s[..|s| - 1];
    if i == |s| - 1 {
      assert s[i := x][..|s| - 1] == init;
    } else {
      SumUpdate(init, i, x);
      assert s[i := x][..|s| - 1] == init[i := x];
    }
  }

  lemma {:induction false} SumZeros(s: seq<int>)
    requires forall i :: 0 <= i < |s| ==> s[i] == 0
    ensures Sum(s) == 0
  {
    if s != [] {
      SumZeros(s[..|s| - 1]);
    }
  }

  lemma {:induction false} SumAppend(s: seq<int>, t: seq<int>)
    ensures Sum(s + t) == Sum(s) + Sum(t)
  {
    if t == [] {
      assert s + t == s;
    } else {
      SumAppend(s, t[..|t| - 1]);
      assert (s + t)[..|s + t| - 1] == s + t[..|t| - 1];
    }
  }
}
