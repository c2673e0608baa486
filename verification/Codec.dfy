/** The encodings that key and id strings are built from, each with its inverse. */
module Codec {
  import opened ByteStrings

  const SLASH: byte := 47
  const BAR: byte := 124

  // ----- hexadecimal (encoding/hex, and %x)

  function HexDigit(n: int): (d: byte)
    requires 0 <= n < 16
    ensures d != SLASH && d != BAR
  {
    if n < 10 then (48 + n) as byte else (87 + n) as byte
  }

  function Hex(b: Bytes): (h: Bytes)
    ensures |h| == 2 * |b|
    ensures forall i :: 0 <= i < |h| ==> h[i] != SLASH && h[i] != BAR
  {
    if b == [] then []
    else [HexDigit(b[0] as int / 16), HexDigit(b[0] as int % 16)] + Hex(b[1..])
  }

  lemma {:induction false} HexInjective(a: Bytes, b: Bytes)
    requires Hex(a) == Hex(b)
    ensures a == b
  {
    assert |a| == |b|;
    if a != [] {
      assert Hex(a)[0] == Hex(b)[0] && Hex(a)[1] == Hex(b)[1];
      assert a[0] as int / 16 == b[0] as int / 16 && a[0] as int % 16 == b[0] as int % 16;
      assert Hex(a)[2..] == Hex(a[1..]) && Hex(b)[2..] == Hex(b[1..]);
      HexInjective(a[1..], b[1..]);
      assert a == [a[0]] + a[1..] && b == [b[0]] + b[1..];
    }
  }

  // ----- decimal (%d)

  function Decimal(n: nat): (d: Bytes)
    ensures d != []
    ensures forall i :: 0 <= i < |d| ==> 48 <= d[i] < 58
  {
    if n < 10 then [(48 + n) as byte]
    else Decimal(n / 10) + [(48 + n % 10) as byte]
  }

  lemma {:induction false} DecimalInjective(m: nat, n: nat)
    requires Decimal(m) == Decimal(n)
    ensures m == n
  {
    var dm, dn := Decimal(m), Decimal(n);
    assert dm[|dm| - 1] == dn[|dn| - 1];
    assert m % 10 == n % 10;
    if m >= 10 && n >= 10 {
      assert dm[..|dm| - 1] == Decimal(m / 10) && dn[..|dn| - 1] == Decimal(n / 10);
      DecimalInjective(m / 10, n / 10);
    }
  }

  // ----- big-endian 64-bit words (encoding/binary)

  const TWO64: nat := 0x1_0000_0000_0000_0000

  type u64 = x: int | 0 <= x < TWO64
  type u32 = x: int | 0 <= x < 0x1_0000_0000

  function BigEndian(n: nat, width: nat): (b: Bytes)
    ensures |b| == width
  {
    if width == 0 then []
    else BigEndian(n / 256, width - 1) + [(n % 256) as byte]
  }

  function FromBigEndian(b: Bytes): nat {
    if b == [] then 0
    else FromBigEndian(b[..|b| - 1]) * 256 + b[|b| - 1] as int
  }

  function Pow256(width: nat): (p: nat)
    ensures p > 0
  {
    if width == 0 then 1 else 256 * Pow256(width - 1)
  }

  lemma {:induction false} BigEndianRoundTrip(n: nat, width: nat)
    requires n < Pow256(width)
    ensures FromBigEndian(BigEndian(n, width)) == n
  {
    if width > 0 {
      BigEndianRoundTrip(n / 256, width - 1);
      var b := BigEndian(n, width);
      assert b[..|b| - 1] == BigEndian(n / 256, width - 1);
    }
  }

  lemma WordRoundTrip(n: u64)
    ensures |BigEndian(n, 8)| == 8 && FromBigEndian(BigEndian(n, 8)) == n
  {
    assert Pow256(4) == 0x1_0000_0000;
    assert Pow256(8) == TWO64;
    BigEndianRoundTrip(n, 8);
  }

  // ----- path splitting

  predicate NoSlash(b: Bytes) {
    forall i :: 0 <= i < |b| ==> b[i] != SLASH
  }

  function SplitFrom(k: Bytes, curr: Bytes): (parts: seq<Bytes>)
    ensures parts == [] <==> k == [] && curr == []
  {
    if k == [] then (if curr != [] then [curr] else [])
    else if k[0] == SLASH then [curr] + SplitFrom(k[1..], [])
    else SplitFrom(k[1..], curr + [k[0]])
  }

  method SplitPath(k: Bytes) returns (parts: seq<Bytes>)
    ensures parts == SplitFrom(k, [])
  {
    parts := [];
    var curr: Bytes := [];
    var i := 0;
    while i < |k|
      invariant 0 <= i <= |k|
      invariant parts + SplitFrom(k[i..], curr) == SplitFrom(k, [])
    {
      assert k[i..][1..] == k[i + 1..];
      if k[i] == SLASH {
        parts := parts + [curr];
        curr := [];
      } else {
        curr := curr + [k[i]];
      }
      i := i + 1;
    }
    if curr != [] {
      parts := parts + [curr];
    }
  }

  /** Every part followed by a slash. */
  function JoinSlashed(parts: seq<Bytes>): Bytes {
    if parts == [] then [] else parts[0] + [SLASH] + JoinSlashed(parts[1..])
  }

  lemma {:induction false} PartsNoSlash(k: Bytes, curr: Bytes)
    requires NoSlash(curr)
    ensures forall i :: 0 <= i < |SplitFrom(k, curr)| ==> NoSlash(SplitFrom(k, curr)[i])
  {
    if k != [] {
      PartsNoSlash(k[1..], if k[0] == SLASH then [] else curr + [k[0]]);
    }
  }

  function WithFinalSlash(k: Bytes): Bytes {
    if k == [] || k[|k| - 1] == SLASH then k else k + [SLASH]
  }

  lemma FinalSlashAfter(dir: Bytes, t: Bytes)
    ensures WithFinalSlash(dir + [SLASH] + t) == dir + [SLASH] + WithFinalSlash(t)
  {
  }

  /** Splitting loses nothing but an optional final slash. */
  lemma {:induction false} SplitJoins(k: Bytes, curr: Bytes)
    requires NoSlash(curr)
    ensures JoinSlashed(SplitFrom(k, curr)) == WithFinalSlash(curr + k)
    decreases k, 1
  {
    if k == [] {
      assert curr + k == curr;
      assert curr != [] ==> JoinSlashed([curr]) == curr + [SLASH] + [];
    } else if k[0] == SLASH {
      SplitJoinsAtSlash(k, curr);
    } else {
      SplitJoins(k[1..], curr + [k[0]]);
      assert curr + [k[0]] + k[1..] == curr + k;
    }
  }

  lemma {:induction false} SplitJoinsAtSlash(k: Bytes, curr: Bytes)
    requires k != [] && k[0] == SLASH
    ensures JoinSlashed(SplitFrom(k, curr)) == WithFinalSlash(curr + k)
    decreases k, 0
  {
    var t := k[1..];
    calc {
      JoinSlashed(SplitFrom(k, curr));
      JoinSlashed([curr] + SplitFrom(t, []));
      { JoinFirst(curr, SplitFrom(t, [])); }
      curr + [SLASH] + JoinSlashed(SplitFrom(t, []));
      { SplitJoins(t, []); assert [] + t == t; }
      curr + [SLASH] + WithFinalSlash(t);
      { FinalSlashAfter(curr, t); }
      WithFinalSlash(curr + [SLASH] + t);
      { assert curr + k == curr + [SLASH] + t; }
      WithFinalSlash(curr + k);
    }
  }

  lemma JoinFirst(part: Bytes, rest: seq<Bytes>)
    ensures JoinSlashed([part] + rest) == part + [SLASH] + JoinSlashed(rest)
  {
  }

  /** The last part of a path is what follows its last slash, when that is not empty. */
  lemma {:induction false} LastPart(dir: Bytes, name: Bytes, curr: Bytes)
    requires NoSlash(name) && name != []
    ensures var parts := SplitFrom(dir + [SLASH] + name, curr);
      parts != [] && parts[|parts| - 1] == name
  {
    var k := dir + [SLASH] + name;
    if dir == [] {
      assert k[1..] == name;
      OnePart(name, []);
    } else {
      assert k[1..] == dir[1..] + [SLASH] + name;
      LastPart(dir[1..], name, if k[0] == SLASH then [] else curr + [k[0]]);
    }
  }

  lemma {:induction false} OnePart(name: Bytes, curr: Bytes)
    requires NoSlash(name) && curr + name != []
    ensures SplitFrom(name, curr) == [curr + name]
  {
    if name == [] {
      assert curr + name == curr;
    } else {
      OnePart(name[1..], curr + [name[0]]);
      assert curr + [name[0]] + name[1..] == curr + name;
    }
  }
}
