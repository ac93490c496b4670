/** The linear hash family of hash_generator.py: a key is right-padded with
    spaces to length k, each character becomes its code point, the first k
    codes are taken, and the hash is the dot product with k coefficients,
    reduced modulo p. */
module Hashing {

  import opened Wrappers

  /** `s.ljust(k, " ")`: s itself when it already has k or more characters,
      otherwise s followed by enough spaces to reach length k. */
  function Pad(s: string, k: nat): (r: string)
    ensures |r| == if |s| >= k then |s| else k
    ensures r[..|s|] == s
    ensures forall i :: |s| <= i < |r| ==> r[i] == ' '
  {
    if |s| >= k then s else s + Spaces(k - |s|)
  }

  function Spaces(n: nat): (r: string)
    ensures |r| == n && forall i :: 0 <= i < n ==> r[i] == ' '
  {
    seq(n, _ => ' ')
  }

  /** `[ord(ch) for ch in s]`: the code point of every character. */
  function Embed(s: string): (e: seq<int>)
    ensures |e| == |s|
    ensures forall i :: 0 <= i < |s| ==> e[i] == s[i] as int
  {
    seq(|s|, i requires 0 <= i < |s| => s[i] as int)
  }

  /** `sum(map(lambda x: x[0] * x[1], zip(z, e)))`: zip stops at the shorter
      of the two sequences. */
  function Dot(z: seq<int>, e: seq<int>): (r: int)
    ensures |z| == 0 || |e| == 0 ==> r == 0
    ensures (forall i :: 0 <= i < |z| ==> z[i] >= 0) && (forall i :: 0 <= i < |e| ==> e[i] >= 0) ==> r >= 0
  {
    if |z| == 0 || |e| == 0 then 0 else z[0] * e[0] + Dot(z[1..], e[1..])
  }

  /** The hash of s under coefficients z, modulus p and dimension k. */
  function HashValue(z: seq<int>, p: int, k: nat, s: string): (h: int)
    requires p > 0
    ensures 0 <= h < p
  {
    Dot(z, Embed(Pad(s, k))[..k]) % p
  }

  /** The k-character key the hash actually sees: s padded, then cut to k. */
  function Key(s: string, k: nat): (key: string)
    ensures |key| == k
    ensures forall i :: 0 <= i < k ==> key[i] == if i < |s| then s[i] else ' '
  {
    Pad(s, k)[..k]
  }

  /** Reference definition of the hash's sum, written index by index:
      the sum of z[i] * code(t[i]) for i < n. */
  function WeightedSum(z: seq<int>, t: string, n: nat): int
    requires n <= |z| && n <= |t|
  {
    if n == 0 then 0 else WeightedSum(z, t, n - 1) + z[n - 1] * (t[n - 1] as int)
  }

  function MinNat(a: nat, b: nat): nat { if a <= b then a else b }

  lemma {:induction false} DotSnoc(z: seq<int>, e: seq<int>)
    requires |z| > 0 && |e| > 0
    ensures var n := MinNat(|z|, |e|);
      Dot(z, e) == Dot(z[..n - 1], e[..n - 1]) + z[n - 1] * e[n - 1]
    decreases |z|
  {
    var n := MinNat(|z|, |e|);
    if n == 1 {
      assert Dot(z[1..], e[1..]) == 0;
      assert Dot(z[..0], e[..0]) == 0;
    } else {
      DotSnoc(z[1..], e[1..]);
      assert z[1..][..n - 2] == z[..n - 1][1..];
      assert e[1..][..n - 2] == e[..n - 1][1..];
    }
  }

  lemma {:induction false} DotIsWeightedSum(z: seq<int>, t: string, n: nat)
    requires n == MinNat(|z|, |t|)
    ensures Dot(z, Embed(t)) == WeightedSum(z, t, n)
    decreases n
  {
    if n > 0 {
      DotSnoc(z, Embed(t));
      assert Embed(t)[..n - 1] == Embed(t[..n - 1]);
      DotIsWeightedSum(z[..n - 1], t[..n - 1], n - 1);
      WeightedSumFrame(z[..n - 1], t[..n - 1], z, t, n - 1);
    }
  }

  /** WeightedSum over the first n positions looks at no other position. */
  lemma {:induction false} WeightedSumFrame(z: seq<int>, t: string, z': seq<int>, t': string, n: nat)
    requires n <= |z| && n <= |t| && n <= |z'| && n <= |t'|
    requires z[..n] == z'[..n] && t[..n] == t'[..n]
    ensures WeightedSum(z, t, n) == WeightedSum(z', t', n)
    decreases n
  {
    if n > 0 {
      assert z[n - 1] == z[..n][n - 1] == z'[n - 1];
      assert t[n - 1] == t[..n][n - 1] == t'[n - 1];
      assert z[..n - 1] == z[..n][..n - 1] && z'[..n - 1] == z'[..n][..n - 1];
      assert t[..n - 1] == t[..n][..n - 1] && t'[..n - 1] == t'[..n][..n - 1];
      WeightedSumFrame(z, t, z', t', n - 1);
    }
  }

  lemma EmbedPadIsEmbedKey(s: string, k: nat)
    ensures Embed(Pad(s, k))[..k] == Embed(Key(s, k))
  {
  }

  /** The hash is the weighted sum, over the first min(|z|, k) positions of
      the padded key, of coefficient times code point, reduced modulo p. */
  lemma HashIsWeightedSum(z: seq<int>, p: int, k: nat, s: string)
    requires p > 0
    ensures HashValue(z, p, k, s) == WeightedSum(z, Key(s, k), MinNat(|z|, k)) % p
  {
    EmbedPadIsEmbedKey(s, k);
    DotIsWeightedSum(z, Key(s, k), MinNat(|z|, k));
  }

  /** Two strings with the same k-character key hash alike. */
  lemma HashDependsOnlyOnKey(z: seq<int>, p: int, k: nat, s: string, t: string)
    requires p > 0
    requires Key(s, k) == Key(t, k)
    ensures HashValue(z, p, k, s) == HashValue(z, p, k, t)
  {
    EmbedPadIsEmbedKey(s, k);
    EmbedPadIsEmbedKey(t, k);
  }

  /** Truncation: characters past the k-th are ignored. */
  lemma Truncation(z: seq<int>, p: int, k: nat, s: string, t: string)
    requires p > 0
    requires |s| >= k && |t| >= k && s[..k] == t[..k]
    ensures HashValue(z, p, k, s) == HashValue(z, p, k, t)
  {
    assert Key(s, k) == Key(t, k);
    HashDependsOnlyOnKey(z, p, k, s, t);
  }

  /** Padding: a short string hashes like itself explicitly padded with
      spaces to length k, and any string hashes like its own key. */
  lemma Padding(z: seq<int>, p: int, k: nat, s: string)
    requires p > 0
    ensures |s| < k ==> HashValue(z, p, k, s) == HashValue(z, p, k, s + Spaces(k - |s|))
    ensures HashValue(z, p, k, s) == HashValue(z, p, k, Key(s, k))
  {
    assert Key(Key(s, k), k) == Key(s, k);
    HashDependsOnlyOnKey(z, p, k, s, Key(s, k));
    if |s| < k {
      assert Key(s + Spaces(k - |s|), k) == Key(s, k);
      HashDependsOnlyOnKey(z, p, k, s, s + Spaces(k - |s|));
    }
  }

  /** A generator of one hash function: modulus p, dimension k and, once
      GenerateHashFunction has run, its k coefficients. */
  class HashGenerator {
    var p: int
    var k: nat
    var z: Option<seq<int>>

    /** Stores p and k; no coefficients exist yet. */
    constructor (p: int, k: nat)
      ensures this.p == p && this.k == k && z == None
    {
      this.p := p;
      this.k := k;
      z := None;
    }

    /** The generator holds k coefficients, each in [0, p). */
    ghost predicate Generated()
      reads this
    {
      z.Some? && |z.value| == k && forall c :: c in z.value ==> 0 <= c < p
    }

    /** Stores and returns k coefficients. The uniform draws from [0, p - 1]
        are the parameter `draws`: one value per coefficient, each in range
        (so with k > 0 and p <= 0 no call is possible, as no draw exists). */
    method GenerateHashFunction(draws: seq<int>) returns (coeffs: seq<int>)
      requires |draws| == k && forall d :: d in draws ==> 0 <= d < p
      modifies this
      ensures p == old(p) && k == old(k)
      ensures coeffs == draws && z == Some(coeffs)
      ensures |coeffs| == k && forall c :: c in coeffs ==> 0 <= c < p
      ensures Generated()
    {
      z := Some(draws);
      coeffs := draws;
    }

    /** The hash of s with the stored coefficients. */
    function Hash(s: string): (h: int)
      reads this
      requires z.Some? && p > 0
      ensures 0 <= h < p
    {
      HashValue(z.value, p, k, s)
    }
  }
}
