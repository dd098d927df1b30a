/** Vocabulary shared by the kernel models. */
module Common {
  datatype Option<+T> = None | Some(value: T)

  /** The number of values of an unsigned 32-bit and of a 64-bit word. */
  const U32: nat := 0x1_0000_0000
  const USIZE: nat := 0x1_0000_0000_0000_0000

  type Byte = b: int | 0 <= b < 256

  ghost function Sum(s: seq<nat>): nat {
    if s == [] then 0 else Sum(s[..|s| - 1]) + s[|s| - 1]
  }

  lemma {:induction false} SumUpdate(s: seq<nat>, i: nat, v: nat)
    requires i < |s|
    ensures Sum(s[i := v]) == Sum(s) - s[i] + v
  {
    var last := |s| - 1;
    if i == last {
      assert s[i := v][..last] == s[..last];
    } else {
      assert s[i := v][..last] == s[..last][i := v];
      SumUpdate(s[..last], i, v);
    }
  }

  ghost function Below(n: nat): (r: set<nat>)
    ensures |r| == n && forall i :: i in r <==> 0 <= i < n
  {
    if n == 0 then {} else Below(n - 1) + {n - 1}
  }

  /** A set of indices below n has at most n members, and n of them only if it has all. */
  lemma {:induction false} IndexSetBound(a: set<nat>, n: nat)
    requires forall i :: i in a ==> i < n
    ensures |a| <= n
    ensures |a| == n <==> (forall i :: 0 <= i < n ==> i in a)
  {
    assert a <= Below(n);
    SubsetSize(a, Below(n));
    assert (forall i :: 0 <= i < n ==> i in a) ==> a == Below(n);
  }

  lemma {:induction false} SubsetSize<T>(a: set<T>, b: set<T>)
    requires a <= b
    ensures |a| <= |b|
    ensures |a| == |b| ==> a == b
    decreases a
  {
    if a == {} {
    } else {
      var x :| x in a;
      SubsetSize(a - {x}, b - {x});
    }
  }

  lemma {:induction false} MulLe(a: nat, b: nat, d: nat)
    requires a <= b
    ensures a * d <= b * d
  {
    if a == b {
    } else {
      MulLe(a, b - 1, d);
      assert b * d == (b - 1) * d + d;
    }
  }
}
