/** Small shared vocabulary: options, and facts about duplicate-free sequences. */
module Prelude {
  datatype Option<+T> = None | Some(value: T)

  datatype CodeId = CodeId(n: nat)
  datatype UserId = UserId(n: nat)
  /** An IPv4 address inside the tunnel, as a 32-bit number. */
  datatype TunIP = TunIP(v: int)

  type Byte = x: int | 0 <= x < 256
  type Bytes = seq<Byte>

  /** A big-endian 16-bit field. */
  function U16(p: Bytes, at: nat): (r: nat)
    requires at + 2 <= |p|
    ensures r < 0x1_0000
  {
    var hi: int, lo: int := p[at], p[at + 1];
    hi * 256 + lo
  }

  ghost predicate NoDup<T>(s: seq<T>) {
    forall i, j | 0 <= i < j < |s| :: s[i] != s[j]
  }

  /** `s` without the first occurrence of `x`: the source's `append(list[:i], list[i+1:]...)`. */
  function Without<T(==)>(s: seq<T>, x: T): (r: seq<T>)
    ensures x !in s ==> r == s
    ensures x in s ==> |r| == |s| - 1
    ensures forall y | y in r :: y in s
    ensures forall y | y in s && y != x :: y in r
  {
    if s == [] then []
    else if s[0] == x then s[1..]
    else [s[0]] + Without(s[1..], x)
  }

  /** On a duplicate-free list, removing the first occurrence removes the element. */
  lemma {:induction false} WithoutNoDup<T>(s: seq<T>, x: T)
    requires NoDup(s)
    ensures NoDup(Without(s, x)) && x !in Without(s, x)
  {
    if s != [] {
      assert s[0] !in s[1..];
      WithoutNoDup(s[1..], x);
    }
  }

  /** Where the first occurrence stands, `Without` is the two halves around it. */
  lemma {:induction false} WithoutAt<T>(s: seq<T>, x: T, i: nat)
    requires i <= |s| && x !in s[..i]
    ensures i < |s| && s[i] == x ==> Without(s, x) == s[..i] + s[i + 1..]
    ensures i == |s| ==> Without(s, x) == s
  {
    if i > 0 {
      assert s[0] == s[..i][0];
      assert s[1..][..i - 1] == s[..i][1..];
      WithoutAt(s[1..], x, i - 1);
    }
  }

  lemma Assoc<T>(a: seq<T>, b: seq<T>, c: seq<T>)
    ensures a + (b + c) == (a + b) + c
  {
  }

  lemma SuffixStep<T>(s: seq<T>, i: nat)
    requires i < |s|
    ensures s[i..] == [s[i]] + s[i + 1..]
  {
  }

  lemma SubsetSize<T>(a: set<T>, b: set<T>)
    requires a <= b
    ensures |a| <= |b|
    ensures |a| == |b| ==> a == b
  {
    assert b == a + (b - a);
  }
}
