/** What holds of the capability tokens in every reachable state: the derive index agrees with the
    parent fields, delegation only weakens a grant, and the parent relation is a forest. */
module CapInvariant {
  import opened ByteStrings
  import opened Codec
  import opened Keys
  import opened Engine
  import opened Records
  import opened CapGraph
  import opened CapCascade
  import opened CapSweep
  import opened CapHandlers

  /** The fields that are fixed when a token is made. */
  predicate SameGrant(t: Token, u: Token) {
    u == t.(status := u.status, usedCount := u.usedCount)
  }

  /** What one delegation passes on. The depth counter has 32 bits. */
  predicate Attenuates(parent: Token, child: Token) {
    && child.issuer == parent.issuer && child.capType == parent.capType && child.capVersion == parent.capVersion
    && parent.delegatable && child.delegatable
    && child.maxDepth == parent.maxDepth && child.curDepth == ChildDepth(parent)
    && ScopesWithin(child.scopes, parent.scopes)
    && (parent.expiresAt > 0 ==> child.expiresAt != 0 && child.expiresAt <= parent.expiresAt)
    && (parent.maxUses > 0 ==> 0 < child.maxUses <= parent.maxUses)
  }

  predicate UsageOk(t: Token) {
    t.maxUses > 0 ==> t.usedCount <= t.maxUses && (t.status == Unspent ==> t.usedCount < t.maxUses)
  }

  predicate DepthOk(t: Token) {
    (t.delegatable ==> t.maxDepth > 0) && (t.delegatable ==> t.curDepth <= t.maxDepth)
  }

  ghost predicate TokenOk(data: State, id: Bytes)
    requires IsToken(data, id)
  {
    var t := TokenAt(data, id);
    && IsId(id) && t.id == id && UsageOk(t) && DepthOk(t)
    && (t.parent != [] ==>
          IsToken(data, t.parent) && Attenuates(TokenAt(data, t.parent), t) && DeriveKey(t.parent, id) in data)
  }

  ghost predicate TokensOk(data: State) {
    forall id :: IsToken(data, id) ==> TokenOk(data, id)
  }

  /** k is the index key of a stored token with a parent. */
  ghost predicate IndexEntry(data: State, k: Bytes) {
    exists c :: IsToken(data, c) && TokenAt(data, c).parent != [] && k == DeriveKey(TokenAt(data, c).parent, c)
  }

  predicate IsDeriveKey(k: Bytes) { HasPrefix(k, Prefix(CapDerive)) }

  ghost predicate IndexExact(data: State) {
    forall k :: k in data && IsDeriveKey(k) ==> IndexEntry(data, k)
  }

  ghost predicate Ranked(data: State, rank: map<Bytes, nat>) {
    && (forall id :: IsToken(data, id) ==> id in rank)
    && (forall id :: IsToken(data, id) && TokenAt(data, id).parent in rank ==>
          rank[TokenAt(data, id).parent] < rank[id])
  }

  /** Parents can be ranked strictly below their children. */
  ghost predicate Forest(data: State) {
    exists rank :: Ranked(data, rank)
  }

  ghost predicate CapInv(data: State) {
    TokensOk(data) && IndexExact(data) && Forest(data)
  }

  lemma InitiallyOk()
    ensures CapInv(map[])
  {
    assert Ranked(map[], map[]);
  }

  // ----- the derive index

  lemma DeriveKeySplits(p: Bytes, parent: Bytes, child: Bytes)
    requires IsId(parent) && IsId(child)
    ensures HasPrefix(DeriveKey(parent, child), DeriveDir(p)) <==> p == parent
    ensures LastOf(DeriveKey(parent, child)) == child
  {
    var k, d := DeriveKey(parent, child), DeriveDir(p);
    var base := |Prefix(CapDerive)|;
    LastPart(Prefix(CapDerive) + parent, child, []);
    assert k == Prefix(CapDerive) + parent + [SLASH] + child;
    var tail := parent + [SLASH] + child;
    assert forall j :: 0 <= j < 33 && j != 16 ==> tail[j] != SLASH;
    if HasPrefix(k, d) {
      PrefixBytes(k, d);
      assert d[base + |p|] == SLASH && k[base + |p|] == tail[|p|];
      assert |p| == 16;
      assert d[base..base + 16] == p;
      assert k[base..base + 16] == parent;
      assert d[base..base + 16] == k[base..base + 16];
    }
    if p == parent {
      assert k[..|d|] == d;
    }
  }

  /** Scanning the index below p and taking last path parts yields exactly the tokens whose parent
      is p. */
  lemma KidsAreChildren(data: State, p: Bytes, c: Bytes)
    requires CapInv(data)
    ensures c in Kids(data.Keys, p) <==> p != [] && IsToken(data, c) && TokenAt(data, c).parent == p
  {
    if c in Kids(data.Keys, p) {
      hide CapInv;
      var ks := SortedKeys(set k | k in data.Keys && HasPrefix(k, DeriveDir(p)));
      var i :| 0 <= i < |ks| && LastOf(ks[i]) == c;
      assert ks[i] in Elements(ks);
      EntryBelow(data, p, ks[i]);
    }
    if p != [] && IsToken(data, c) && TokenAt(data, c).parent == p {
      hide Kids, DeriveKey, Prefix, IndexExact, Forest;
      assert TokenOk(data, c) && TokenOk(data, p);
      KeyMakesKid(data.Keys, p, c);
    }
  }

  lemma KeyMakesKid(keys: set<Bytes>, p: Bytes, c: Bytes)
    requires IsId(p) && IsId(c) && DeriveKey(p, c) in keys
    ensures c in Kids(keys, p)
  {
    hide DeriveKey, Prefix, HasPrefix, LastOf;
    var ks := SortedKeys(set k | k in keys && HasPrefix(k, DeriveDir(p)));
    DeriveKeySplits(p, p, c);
    assert DeriveKey(p, c) in Elements(ks);
    var i :| 0 <= i < |ks| && ks[i] == DeriveKey(p, c);
    assert Kids(keys, p)[i] == c;
  }

  lemma DirInDerive(p: Bytes, k: Bytes)
    requires HasPrefix(k, DeriveDir(p))
    ensures IsDeriveKey(k)
  {
  }

  lemma EntryBelow(data: State, p: Bytes, k: Bytes)
    requires CapInv(data) && k in data && HasPrefix(k, DeriveDir(p))
    ensures IsToken(data, LastOf(k)) && TokenAt(data, LastOf(k)).parent == p && p != []
  {
    DirInDerive(p, k);
    assert IndexEntry(data, k);
    var c :| IsToken(data, c) && TokenAt(data, c).parent != [] && k == DeriveKey(TokenAt(data, c).parent, c);
    var q := TokenAt(data, c).parent;
    assert TokenOk(data, c) && TokenOk(data, q);
    DeriveKeySplits(p, q, c);
  }

  /** No child is listed twice. */
  lemma KidsNoRepeats(data: State, p: Bytes)
    requires CapInv(data)
    ensures NoRepeats(Kids(data.Keys, p))
  {
    var ks := SortedKeys(set k | k in data.Keys && HasPrefix(k, DeriveDir(p)));
    forall i, j | 0 <= i < j < |ks| && LastOf(ks[i]) == LastOf(ks[j]) ensures false {
      assert ks[i] in Elements(ks) && ks[j] in Elements(ks);
      EntryOf(data, p, ks[i]);
      EntryOf(data, p, ks[j]);
      AscendingDistinct(ks, i, j);
    }
  }

  lemma EntryOf(data: State, p: Bytes, k: Bytes)
    requires CapInv(data) && k in data && HasPrefix(k, DeriveDir(p))
    ensures k == DeriveKey(p, LastOf(k))
  {
    DirInDerive(p, k);
    assert IndexEntry(data, k);
    var c :| IsToken(data, c) && TokenAt(data, c).parent != [] && k == DeriveKey(TokenAt(data, c).parent, c);
    var q := TokenAt(data, c).parent;
    assert TokenOk(data, c) && TokenOk(data, q);
    DeriveKeySplits(p, q, c);
  }

  /** Hence a cascade never meets a missing token, and never fails. */
  lemma IndexIsSound(data: State)
    requires CapInv(data)
    ensures IndexSound(data) && WellKeyed(data)
  {
    forall p, c | c in Kids(data.Keys, p) ensures IsToken(data, c) {
      KidsAreChildren(data, p, c);
    }
    forall id | IsToken(data, id) ensures TokenAt(data, id).id == id {
      assert TokenOk(data, id);
    }
  }

  // ----- how a step may change the tokens

  /** Same tokens with the same grants, and the same index. */
  ghost predicate SameTokens(data: State, d: State) {
    && (forall id :: IsToken(d, id) <==> IsToken(data, id))
    && (forall id :: IsToken(data, id) ==> SameGrant(TokenAt(data, id), TokenAt(d, id)))
    && (forall k :: IsDeriveKey(k) ==> (k in d <==> k in data))
  }

  lemma DeriveKeyIsDeriveKey(p: Bytes, c: Bytes)
    ensures IsDeriveKey(DeriveKey(p, c)) && !IsUtxoKey(DeriveKey(p, c))
  {
    if IsUtxoKey(DeriveKey(p, c)) {
      NamespacesDisjoint(CapUtxo, CapDerive, DeriveKey(p, c));
    }
  }

  /** A change of status and use counters keeps the invariant. */
  lemma SameTokensKeepsInv(data: State, d: State)
    requires CapInv(data) && SameTokens(data, d)
    requires forall id :: IsToken(data, id) ==> UsageOk(TokenAt(d, id))
    ensures CapInv(d)
  {
    hide Prefix;
    forall id | IsToken(d, id) ensures TokenOk(d, id) {
      assert TokenOk(data, id);
      var t, u := TokenAt(data, id), TokenAt(d, id);
      assert SameGrant(t, u);
      if t.parent != [] {
        assert SameGrant(TokenAt(data, t.parent), TokenAt(d, t.parent));
        DeriveKeyIsDeriveKey(t.parent, id);
      }
    }
    forall k | k in d && IsDeriveKey(k) ensures IndexEntry(d, k) {
      assert IndexEntry(data, k);
      var c :| IsToken(data, c) && TokenAt(data, c).parent != [] && k == DeriveKey(TokenAt(data, c).parent, c);
      assert SameGrant(TokenAt(data, c), TokenAt(d, c));
    }
    var rank :| Ranked(data, rank);
    forall id | IsToken(d, id) && TokenAt(d, id).parent in rank ensures rank[TokenAt(d, id).parent] < rank[id] {
      assert SameGrant(TokenAt(data, id), TokenAt(d, id));
    }
    assert Ranked(d, rank);
  }

  /** One new token t, filed and indexed; every other token and index key stays. */
  ghost predicate Grown(data: State, d: State, t: Token) {
    && (forall id :: IsToken(d, id) <==> id == t.id || IsToken(data, id))
    && (forall id :: IsToken(d, id) ==> TokenAt(d, id) == if id == t.id then t else TokenAt(data, id))
    && (forall k :: IsDeriveKey(k) ==>
          (k in d <==> k in data || (t.parent != [] && k == DeriveKey(t.parent, t.id))))
  }

  lemma GrownKeepsInv(data: State, d: State, t: Token)
    requires CapInv(data) && Grown(data, d, t) && !IsToken(data, t.id)
    requires IsId(t.id) && UsageOk(t) && DepthOk(t)
    requires t.parent != [] ==> IsToken(data, t.parent) && Attenuates(TokenAt(data, t.parent), t)
    ensures CapInv(d)
  {
    hide Prefix, Attenuates;
    forall id | IsToken(d, id) ensures TokenOk(d, id) {
      var u := TokenAt(d, id);
      if id != t.id {
        assert TokenOk(data, id);
      }
      DeriveKeyIsDeriveKey(u.parent, id);
    }
    forall k | k in d && IsDeriveKey(k) ensures IndexEntry(d, k) {
      if k in data {
        assert IndexEntry(data, k);
        var c :| IsToken(data, c) && TokenAt(data, c).parent != [] && k == DeriveKey(TokenAt(data, c).parent, c);
        assert TokenAt(d, c) == TokenAt(data, c);
      } else {
        assert IsToken(d, t.id);
      }
    }
    GrownForest(data, d, t);
  }

  lemma GrownForest(data: State, d: State, t: Token)
    requires TokensOk(data) && Forest(data) && Grown(data, d, t) && !IsToken(data, t.id)
    requires t.parent != [] ==> IsToken(data, t.parent)
    requires IsId(t.id)
    ensures Forest(d)
  {
    var rank :| Ranked(data, rank);
    var kept := map id | id in rank && IsToken(data, id) :: rank[id];
    var top := if t.parent in kept then kept[t.parent] + 1 else 0;
    var grown := kept[t.id := top];
    forall id | IsToken(d, id) && TokenAt(d, id).parent in grown
      ensures grown[TokenAt(d, id).parent] < grown[id]
    {
      if id != t.id {
        assert TokenOk(data, id);
        assert TokenAt(data, id).parent != t.id;
      } else {
        assert t.parent != t.id;
      }
    }
    assert Ranked(d, grown);
  }
}
