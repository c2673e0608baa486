/** The byte strings that token ids are hashed from. */
module CapOrigins {
  import opened ByteStrings
  import opened Codec
  import opened Records

  datatype Origin =
    | Minted(sender: Bytes, capType: Bytes, nonce: nat)
    | Delegated(parent: Bytes, sender: Bytes, nonce: nat)

  function MintPreimage(sender: Bytes, capType: Bytes, nonce: nat): Bytes {
    Hex(sender) + [BAR] + capType + [BAR] + Decimal(nonce)
  }

  function DelegatePreimage(parent: Bytes, sender: Bytes, nonce: nat): Bytes {
    parent + [BAR] + Hex(sender) + [BAR] + Decimal(nonce)
  }

  function Preimage(o: Origin): Bytes {
    match o
    case Minted(sender, capType, nonce) => MintPreimage(sender, capType, nonce)
    case Delegated(parent, sender, nonce) => DelegatePreimage(parent, sender, nonce)
  }

  /** Senders are public keys of 32 bytes; a delegation names a stored token. */
  predicate WellFormed(o: Origin) {
    |o.sender| == 32 && (o.Delegated? ==> IsId(o.parent))
  }

  predicate NoBar(b: Bytes) {
    forall i :: 0 <= i < |b| ==> b[i] != BAR
  }

  lemma BarInside(a: Bytes, x: Bytes, b: Bytes, y: Bytes)
    requires |a| < |b| && a + [BAR] + x == b + [BAR] + y
    ensures !NoBar(x)
  {
    assert (b + [BAR] + y)[|b|] == BAR;
    assert (a + [BAR] + x)[|b|] == x[|b| - |a| - 1];
  }

  /** The last bar of a string splits it in one way. */
  lemma LastBarSplits(a: Bytes, x: Bytes, b: Bytes, y: Bytes)
    requires NoBar(x) && NoBar(y) && a + [BAR] + x == b + [BAR] + y
    ensures a == b && x == y
  {
    if |a| < |b| {
      BarInside(a, x, b, y);
    } else if |b| < |a| {
      BarInside(b, y, a, x);
    } else {
      var s, t := a + [BAR] + x, b + [BAR] + y;
      assert a == s[..|a|] && b == t[..|b|];
      assert x == s[|a| + 1..] && y == t[|b| + 1..];
    }
  }

  lemma DecimalNoBar(n: nat)
    ensures NoBar(Decimal(n))
  {
  }

  lemma MintInjective(a: Origin, b: Origin)
    requires WellFormed(a) && WellFormed(b) && a.Minted? && b.Minted? && Preimage(a) == Preimage(b)
    ensures a == b
  {
    DecimalNoBar(a.nonce);
    DecimalNoBar(b.nonce);
    LastBarSplits(Hex(a.sender) + [BAR] + a.capType, Decimal(a.nonce), Hex(b.sender) + [BAR] + b.capType, Decimal(b.nonce));
    var s, t := Hex(a.sender) + [BAR] + a.capType, Hex(b.sender) + [BAR] + b.capType;
    assert s[..64] == Hex(a.sender) && t[..64] == Hex(b.sender);
    assert s[65..] == a.capType && t[65..] == b.capType;
    HexInjective(a.sender, b.sender);
    DecimalInjective(a.nonce, b.nonce);
  }

  lemma DelegateInjective(a: Origin, b: Origin)
    requires WellFormed(a) && WellFormed(b) && a.Delegated? && b.Delegated? && Preimage(a) == Preimage(b)
    ensures a == b
  {
    DecimalNoBar(a.nonce);
    DecimalNoBar(b.nonce);
    LastBarSplits(a.parent + [BAR] + Hex(a.sender), Decimal(a.nonce), b.parent + [BAR] + Hex(b.sender), Decimal(b.nonce));
    var s, t := a.parent + [BAR] + Hex(a.sender), b.parent + [BAR] + Hex(b.sender);
    assert s[..16] == a.parent && t[..16] == b.parent;
    assert s[17..] == Hex(a.sender) && t[17..] == Hex(b.sender);
    HexInjective(a.sender, b.sender);
    DecimalInjective(a.nonce, b.nonce);
  }

  lemma MintNotDelegate(a: Origin, b: Origin)
    requires WellFormed(a) && WellFormed(b) && a.Minted? && b.Delegated?
    ensures Preimage(a) != Preimage(b)
  {
    assert Preimage(a)[16] == Hex(a.sender)[16];
    assert Preimage(b)[16] == BAR;
  }

  /** No two ways of making a token hash the same byte string. */
  lemma PreimageInjective(a: Origin, b: Origin)
    requires WellFormed(a) && WellFormed(b) && Preimage(a) == Preimage(b)
    ensures a == b
  {
    if a.Minted? && b.Minted? {
      MintInjective(a, b);
    } else if a.Delegated? && b.Delegated? {
      DelegateInjective(a, b);
    } else if a.Minted? {
      MintNotDelegate(a, b);
    } else {
      MintNotDelegate(b, a);
    }
  }
}
