/**
 * Addresses as byte arrays, as folonet-server/main.go walks a CIDR range:
 * `incrementIP` adds one to the address in place, carrying from the last
 * byte, and the range is walked from its network address while the range
 * contains the current address.
 */
module IpRange {
  import opened GoFormat

  function Pow256(n: nat): (p: nat)
    ensures p >= 1
  {
    if n == 0 then 1 else 256 * Pow256(n - 1)
  }

  function Pow2(n: nat): (p: nat)
    ensures p >= 1
  {
    if n == 0 then 1 else 2 * Pow2(n - 1)
  }

  const ADDRESS_SPACE: nat := 0x1_0000_0000

  /** The address read as a big-endian unsigned number. */
  function Value(s: seq<bv8>): nat {
    if s == [] then 0 else Value(s[..|s| - 1]) * 256 + s[|s| - 1] as nat
  }

  lemma {:induction false} ValueBound(s: seq<bv8>)
    ensures Value(s) < Pow256(|s|)
  {
    if s != [] {
      ValueBound(s[..|s| - 1]);
    }
  }

  /** The bytes after adding one with carry; all-0xFF wraps to all zeros. */
  function Succ(s: seq<bv8>): (r: seq<bv8>)
    ensures |r| == |s|
  {
    if s == [] then []
    else if s[|s| - 1] != 0xFF then s[..|s| - 1] + [s[|s| - 1] + 1]
    else Succ(s[..|s| - 1]) + [0]
  }

  /** `Succ` adds one; only the largest address wraps, to zero. */
  lemma {:induction false} SuccValue(s: seq<bv8>)
    ensures Value(s) + 1 < Pow256(|s|) ==> Value(Succ(s)) == Value(s) + 1
    ensures Value(s) + 1 == Pow256(|s|) ==> Value(Succ(s)) == 0
  {
    if s != [] {
      var pre := s[..|s| - 1];
      var last := s[|s| - 1];
      ValueBound(pre);
      var r := Succ(s);
      if last != 0xFF {
        assert r[..|r| - 1] == pre;
        assert r[|r| - 1] as nat == last as nat + 1;
      } else {
        assert r[..|r| - 1] == Succ(pre);
        SuccValue(pre);
        assert Value(s) + 1 == (Value(pre) + 1) * 256;
      }
    }
  }

  /**
   * One round of the carry loop: adding one to byte `j` either ends the carry
   * or leaves it for the bytes before `j`.
   */
  lemma CarryStep(before: seq<bv8>, after: seq<bv8>, j: nat, n: nat)
    requires n == j + 1 && j < |before| && after == before[j := before[j] + 1]
    ensures after[j] != 0 ==> Succ(before[..n]) + before[n..] == after
    ensures after[j] == 0 ==> Succ(before[..n]) + before[n..] == Succ(after[..j]) + after[j..]
  {
    assert before[..n][..j] == before[..j] == after[..j];
    if after[j] != 0 {
      assert after == after[..j] + [after[j]] + before[n..];
    } else {
      assert after[j..] == [0] + before[n..];
    }
  }

  /** `incrementIP`: the carry loop over the bytes of the address, last byte first. */
  method IncrementIP(ip: array<bv8>)
    modifies ip
    ensures ip[..] == Succ(old(ip[..]))
    ensures Value(old(ip[..])) + 1 < Pow256(ip.Length) ==> Value(ip[..]) == Value(old(ip[..])) + 1
    ensures Value(old(ip[..])) + 1 == Pow256(ip.Length) ==> Value(ip[..]) == 0
  {
    SuccValue(ip[..]);
    var j := ip.Length - 1;
    ghost var n := ip.Length;
    assert ip[..n] == ip[..];
    while j >= 0
      invariant -1 <= j < ip.Length && n == j + 1
      invariant Succ(old(ip[..])) == Succ(ip[..n]) + ip[n..]
      decreases j
    {
      ghost var before := ip[..];
      ip[j] := ip[j] + 1;
      CarryStep(before, ip[..], j, n);
      if ip[j] > 0 {
        return;
      }
      n := j;
      j := j - 1;
    }
  }

  /** The address `n` increments after `s`. */
  function Iterate(s: seq<bv8>, n: nat): (r: seq<bv8>)
    ensures |r| == |s|
  {
    if n == 0 then s else Succ(Iterate(s, n - 1))
  }

  lemma {:induction false} IterateValue(s: seq<bv8>, n: nat)
    requires Value(s) + n < Pow256(|s|)
    ensures Value(Iterate(s, n)) == Value(s) + n
  {
    if n > 0 {
      IterateValue(s, n - 1);
      SuccValue(Iterate(s, n - 1));
    }
  }

  /**
   * An IPv4 range as `ip.Mask(ipnet.Mask)` leaves it: a 4-byte network
   * address aligned to a block of 2^(32 - prefixLen) addresses.
   */
  datatype Cidr = Cidr(network: seq<bv8>, prefixLen: nat)

  function BlockSize(prefixLen: nat): nat
    requires prefixLen <= 32
  {
    Pow2(32 - prefixLen)
  }

  /** A 4-byte network address and a prefix length of at most 32. */
  predicate Shaped(c: Cidr) {
    |c.network| == 4 && c.prefixLen <= 32
  }

  /** A shaped range whose network address is aligned to its block, with a prefix of at least one bit. */
  predicate WellFormed(c: Cidr) {
    Shaped(c) && 1 <= c.prefixLen && Value(c.network) % BlockSize(c.prefixLen) == 0
  }

  /** `ipnet.Contains`: the address agrees with the network address on the first `prefixLen` bits. */
  predicate Contains(c: Cidr, ip: seq<bv8>)
    requires WellFormed(c)
  {
    |ip| == 4 && Value(ip) / BlockSize(c.prefixLen) == Value(c.network) / BlockSize(c.prefixLen)
  }

  lemma {:induction false} Pow2Add(a: nat, b: nat)
    ensures Pow2(a + b) == Pow2(a) * Pow2(b)
  {
    if a > 0 {
      Pow2Add(a - 1, b);
    }
  }

  lemma Pow256Four()
    ensures Pow256(4) == ADDRESS_SPACE
  {
    assert Pow256(1) == 256;
    assert Pow256(2) == 65536;
    assert Pow256(3) == 16777216;
  }

  lemma Pow2ThirtyTwo()
    ensures Pow2(32) == ADDRESS_SPACE
  {
    Pow2Add(16, 16);
    Pow2Add(8, 8);
    Pow2Add(4, 4);
    Pow2Add(2, 2);
    assert Pow2(2) == 4;
  }

  lemma {:induction false} MulAtLeast(e: nat, d: nat)
    requires e >= 1
    ensures e * d >= d
  {
    if e > 1 {
      MulAtLeast(e - 1, d);
      assert e * d == (e - 1) * d + d;
    }
  }

  lemma MulLe(a: int, b: int, d: int)
    requires a <= b && d >= 0
    ensures a * d <= b * d
  {
    if a < b {
      MulAtLeast(b - a, d);
      assert b * d == a * d + (b - a) * d;
    }
  }

  lemma DivUnique(v: int, d: int, q: int)
    requires d > 0 && q * d <= v < q * d + d
    ensures v / d == q
  {
    var k := v / d;
    assert v == k * d + v % d;
    if k > q {
      MulLe(q + 1, k, d);
    } else if k < q {
      MulLe(k + 1, q, d);
    }
  }

  lemma DivBlock(v: int, n: int, d: int)
    requires d > 0 && n % d == 0
    ensures v / d == n / d <==> n <= v < n + d
  {
    var q := n / d;
    assert n == q * d;
    if n <= v < n + d {
      DivUnique(v, d, q);
    }
    if v / d == q {
      assert v == q * d + v % d;
    }
  }

  lemma BlockArith(m: int, d: int, n: int, s: int)
    requires m >= 2 && d >= 1 && m * d == s && 0 <= n < s && n % d == 0
    ensures d < s && n + d <= s
  {
    MulLe(2, m, d);
    var q := n / d;
    assert n == q * d;
    if q >= m {
      MulLe(m, q, d);
    } else {
      MulLe(q + 1, m, d);
    }
  }

  /** The block of a well-formed range lies inside the address space, and is smaller than it. */
  lemma BlockFits(c: Cidr)
    requires WellFormed(c)
    ensures BlockSize(c.prefixLen) < ADDRESS_SPACE
    ensures Value(c.network) + BlockSize(c.prefixLen) <= ADDRESS_SPACE
  {
    Pow2Add(c.prefixLen, 32 - c.prefixLen);
    Pow2ThirtyTwo();
    Pow256Four();
    ValueBound(c.network);
    BlockArith(Pow2(c.prefixLen), BlockSize(c.prefixLen), Value(c.network), ADDRESS_SPACE);
  }

  /** `Contains` holds exactly for the addresses from the network address on, one block long. */
  lemma ContainsIsBlock(c: Cidr, ip: seq<bv8>)
    requires WellFormed(c) && |ip| == 4
    ensures Contains(c, ip) <==>
              Value(c.network) <= Value(ip) < Value(c.network) + BlockSize(c.prefixLen)
  {
    DivBlock(Value(ip), Value(c.network), BlockSize(c.prefixLen));
  }

  /**
   * Walking from the network address, the k-th address is network + k and in
   * the range for every k below the block size, and the walk leaves the range
   * exactly after the last one.
   */
  lemma WalkCoversBlock(c: Cidr, k: nat)
    requires WellFormed(c) && k <= BlockSize(c.prefixLen)
    ensures k < BlockSize(c.prefixLen) ==> Value(Iterate(c.network, k)) == Value(c.network) + k
    ensures Contains(c, Iterate(c.network, k)) <==> k < BlockSize(c.prefixLen)
  {
    var d := BlockSize(c.prefixLen);
    var n := Value(c.network);
    BlockFits(c);
    Pow256Four();
    if k < d {
      IterateValue(c.network, k);
      ContainsIsBlock(c, Iterate(c.network, k));
    } else {
      IterateValue(c.network, k - 1);
      SuccValue(Iterate(c.network, k - 1));
      ContainsIsBlock(c, Iterate(c.network, k));
      if n + d == ADDRESS_SPACE {
        assert Value(Iterate(c.network, k)) == 0;
        assert n > 0;
      }
    }
  }

  /** `ip.String()` of the first `n` addresses of the walk, in order. */
  function AddressStrings(start: seq<bv8>, n: nat): (r: seq<string>)
    requires |start| == 4
    ensures |r| == n
  {
    if n == 0 then [] else AddressStrings(start, n - 1) + [DottedQuad(Iterate(start, n - 1))]
  }

  /** One more address appends its string; `next` names the longer count. */
  lemma AddressStringsSnoc(start: seq<bv8>, n: nat, next: nat)
    requires |start| == 4 && next == n + 1
    ensures AddressStrings(start, next) == AddressStrings(start, n) + [DottedQuad(Iterate(start, n))]
  {
  }

  /** The k-th string of the walk is the k-th address after the start. */
  lemma {:induction false} AddressStringsAt(start: seq<bv8>, n: nat, k: nat)
    requires |start| == 4 && k < n
    ensures AddressStrings(start, n)[k] == DottedQuad(Iterate(start, k))
  {
    var m: nat := n - 1;
    AddressStringsSnoc(start, m, n);
    if k < m {
      AddressStringsAt(start, m, k);
    }
  }

  /** No address string is empty. */
  lemma AddressStringsNonEmpty(start: seq<bv8>, n: nat)
    requires |start| == 4
    ensures forall i :: 0 <= i < n ==> AddressStrings(start, n)[i] != ""
  {
    if n > 0 {
      AddressStringsNonEmpty(start, n - 1);
    }
  }
}
