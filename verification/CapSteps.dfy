/** Every handler keeps the invariant of CapInvariant and only moves tokens forward. */
module CapSteps {
  import opened ByteStrings
  import opened Codec
  import opened Keys
  import opened Engine
  import opened Records
  import opened CapGraph
  import opened CapCascade
  import opened CapSweep
  import opened CapOrigins
  import opened CapHandlers
  import opened CapInvariant
  import opened Nonce

  /** t may become u: the grant stays, no way back to UNSPENT, bounded uses only count up. */
  predicate TokenEvolves(t: Token, u: Token) {
    && SameGrant(t, u)
    && (u.status == Unspent ==> t.status == Unspent)
    && (t.maxUses > 0 ==> t.usedCount <= u.usedCount)
  }

  /** Tokens are never lost, grants never change, and no token returns to UNSPENT. */
  ghost predicate Evolves(data: State, d: State) {
    forall id :: IsToken(data, id) ==> IsToken(d, id) && TokenEvolves(TokenAt(data, id), TokenAt(d, id))
  }

  lemma EvolvesTransitive(a: State, b: State, c: State)
    requires Evolves(a, b) && Evolves(b, c)
    ensures Evolves(a, c)
  {
  }

  lemma MarkedSteps(data: State, ids: set<Bytes>, s: TokenStatus)
    requires CapInv(data) && s != Unspent
    ensures var d := Marked(data, ids, s); CapInv(d) && Evolves(data, d)
  {
    var d := Marked(data, ids, s);
    assert (forall id :: IsToken(d, id) <==> IsToken(data, id)) &&
      (forall id :: IsToken(data, id) ==> TokenAt(d, id) == if id in ids then TokenAt(data, id).(status := s) else TokenAt(data, id)) by {
      forall id ensures
        (IsToken(d, id) <==> IsToken(data, id)) &&
        (IsToken(data, id) ==> TokenAt(d, id) == if id in ids then TokenAt(data, id).(status := s) else TokenAt(data, id))
      {
        MarkedToken(data, ids, s, id);
      }
    }
    assert d.Keys == data.Keys;
    hide Marked, Prefix;
    forall id | IsToken(data, id) ensures UsageOk(TokenAt(d, id)) {
      assert TokenOk(data, id);
    }
    SameTokensKeepsInv(data, d);
  }

  // ----- a record rewritten in place

  lemma RewriteSteps(data: State, id: Bytes, u: Token)
    requires CapInv(data) && IsToken(data, id) && SameGrant(TokenAt(data, id), u) && UsageOk(u)
    requires TokenEvolves(TokenAt(data, id), u)
    ensures var d := data[UtxoKey(id) := TokenV(u)]; CapInv(d) && Evolves(data, d)
  {
    hide Prefix;
    var d := data[UtxoKey(id) := TokenV(u)];
    forall x ensures IsToken(d, x) <==> IsToken(data, x)
      ensures IsToken(data, x) ==> TokenAt(d, x) == if x == id then u else TokenAt(data, x)
    {
      if UtxoKey(x) == UtxoKey(id) {
        KeyInjective(CapUtxo, x, CapUtxo, id);
      }
    }
    forall k | IsDeriveKey(k) ensures k in d <==> k in data {
      if k == UtxoKey(id) {
        NamespacesDisjoint(CapUtxo, CapDerive, k);
      }
    }
    forall x | IsToken(data, x) ensures UsageOk(TokenAt(d, x)) {
      assert TokenOk(data, x);
    }
    SameTokensKeepsInv(data, d);
  }

  predicate CountsOneUse(t: Token, u: Token) {
    t.maxUses > 0 ==> u.usedCount == t.usedCount + 1 && u.usedCount <= t.maxUses
  }

  /** A successful spend counts one use, and the bound on uses is kept. */
  lemma SpendSteps(data: State, ctx: Ctx, sender: Bytes, id: Bytes)
    requires CapInv(data)
    ensures var (d, r) := SpendSpec(data, ctx, sender, id);
      && CapInv(d) && Evolves(data, d)
      && (r.Ok? ==> IsWhite(data, id) && IsToken(d, id) && CountsOneUse(TokenAt(data, id), TokenAt(d, id)))
  {
    hide Prefix, CapInv;
    var (d, r) := SpendSpec(data, ctx, sender, id);
    if IsToken(data, id) {
      var t := TokenAt(data, id);
      assert UsageOk(t) by {
        UsageOfInv(data, id);
      }
      if t.holder == sender && t.status == Unspent {
        RewriteSteps(data, id, if t.expiresAt > 0 && ctx.now >= t.expiresAt then t.(status := Expired) else UsedOnce(t));
      }
    }
  }

  lemma UsageOfInv(data: State, id: Bytes)
    requires CapInv(data) && IsToken(data, id)
    ensures UsageOk(TokenAt(data, id)) && TokenAt(data, id).id == id && IsId(id)
  {
  }

  // ----- a new token

  lemma MintGrows(data: State, ctx: Ctx, sender: Bytes, nonce: nat, p: CapOp)
    requires p.MintCap? && MintSpec(data, ctx, sender, nonce, p).1.Ok?
    ensures Grown(data, MintSpec(data, ctx, sender, nonce, p).0, MintedToken(ctx, sender, nonce, p))
  {
    hide Prefix;
    var t := MintedToken(ctx, sender, nonce, p);
    var d := MintSpec(data, ctx, sender, nonce, p).0;
    forall id ensures IsToken(d, id) <==> id == t.id || IsToken(data, id)
      ensures IsToken(d, id) ==> TokenAt(d, id) == if id == t.id then t else TokenAt(data, id)
    {
      KeysApart(id, t);
      if UtxoKey(id) == UtxoKey(t.id) {
        KeyInjective(CapUtxo, id, CapUtxo, t.id);
      }
    }
    forall k | IsDeriveKey(k) ensures k in d <==> k in data {
      if k == UtxoKey(t.id) {
        NamespacesDisjoint(CapUtxo, CapDerive, k);
      } else if k == HolderKey(t) {
        NamespacesDisjoint(CapHolder, CapDerive, k);
      } else if k == TypeKey(t) {
        NamespacesDisjoint(CapType, CapDerive, k);
      }
    }
  }

  lemma KeysApart(id: Bytes, t: Token)
    ensures UtxoKey(id) != HolderKey(t) && UtxoKey(id) != TypeKey(t)
  {
    hide Prefix;
    if UtxoKey(id) == HolderKey(t) {
      NamespacesDisjoint(CapUtxo, CapHolder, UtxoKey(id));
    }
    if UtxoKey(id) == TypeKey(t) {
      NamespacesDisjoint(CapUtxo, CapType, UtxoKey(id));
    }
  }

  lemma DelegateGrows(data: State, ctx: Ctx, sender: Bytes, nonce: nat, p: CapOp)
    requires p.DelegateCap? && DelegateSpec(data, ctx, sender, nonce, p).1.Ok?
    requires TokenAt(data, p.id).id != []
    ensures Grown(data, DelegateSpec(data, ctx, sender, nonce, p).0, DelegatedToken(ctx, sender, nonce, TokenAt(data, p.id), p))
  {
    hide Prefix;
    var t := DelegatedToken(ctx, sender, nonce, TokenAt(data, p.id), p);
    var d := DelegateSpec(data, ctx, sender, nonce, p).0;
    DeriveKeyIsDeriveKey(t.parent, t.id);
    forall id ensures IsToken(d, id) <==> id == t.id || IsToken(data, id)
      ensures IsToken(d, id) ==> TokenAt(d, id) == if id == t.id then t else TokenAt(data, id)
    {
      if UtxoKey(id) == UtxoKey(t.id) {
        KeyInjective(CapUtxo, id, CapUtxo, t.id);
      }
    }
    forall k | IsDeriveKey(k) ensures k in d <==> k in data || k == DeriveKey(t.parent, t.id) {
      if k == UtxoKey(t.id) {
        NamespacesDisjoint(CapUtxo, CapDerive, k);
      }
    }
  }

  lemma DelegateAttenuates(ctx: Ctx, sender: Bytes, nonce: nat, parent: Token, p: CapOp)
    requires p.DelegateCap? && MayDelegate(parent, p) && DepthOk(parent)
    ensures var t := DelegatedToken(ctx, sender, nonce, parent, p); Attenuates(parent, t) && UsageOk(t) && DepthOk(t)
  {
  }

  function NewOrigin(sender: Bytes, nonce: nat, op: CapOp): Origin
    requires op.MintCap? || op.DelegateCap?
  {
    if op.MintCap? then Minted(sender, op.capType, nonce) else Delegated(op.id, sender, nonce)
  }

  function NewId(ctx: Ctx, sender: Bytes, nonce: nat, op: CapOp): Id
    requires op.MintCap? || op.DelegateCap?
  {
    ctx.digest(Preimage(NewOrigin(sender, nonce, op)))
  }

  predicate MakesToken(op: CapOp) { op.MintCap? || op.DelegateCap? }

  /** Every transaction keeps the invariant and moves tokens forward only, when the id of a token it
      makes is fresh. */
  lemma CapStep(data: State, ctx: Ctx, sender: Bytes, nonce: nat, op: CapOp)
    requires CapInv(data)
    requires MakesToken(op) && CapSpec(data, ctx, sender, nonce, op).1.Ok? ==> !IsToken(data, NewId(ctx, sender, nonce, op))
    ensures var (d, _) := CapSpec(data, ctx, sender, nonce, op); CapInv(d) && Evolves(data, d)
  {
    hide Prefix, CapInv, Expiring, Reach;
    match op {
      case MintCap(_, _, _, _, _, _, _, _) =>
        if MintSpec(data, ctx, sender, nonce, op).1.Ok? {
          MintGrows(data, ctx, sender, nonce, op);
          GrownKeepsInv(data, CapSpec(data, ctx, sender, nonce, op).0, MintedToken(ctx, sender, nonce, op));
        }
      case SpendCap(id) => SpendSteps(data, ctx, sender, id);
      case DelegateCap(_, _, _, _, _) =>
        if DelegateSpec(data, ctx, sender, nonce, op).1.Ok? {
          var parent := TokenAt(data, op.id);
          ParentOfInv(data, op.id);
          DelegateAttenuates(ctx, sender, nonce, parent, op);
          DelegateGrows(data, ctx, sender, nonce, op);
          GrownKeepsInv(data, CapSpec(data, ctx, sender, nonce, op).0, DelegatedToken(ctx, sender, nonce, parent, op));
        }
      case RevokeCap(id) =>
        if RevokeSpec(data, sender, id).1.Ok? {
          MarkedSteps(data, {id} + Reach(data, id), Revoked);
        }
      case BatchExpire => MarkedSteps(data, Expiring(data, ctx.now), Expired);
      case BadCapPayload =>
    }
  }

  /** A transaction makes at most the one token that its origin names, and only when it succeeds. */
  lemma CapNewTokens(data: State, ctx: Ctx, sender: Bytes, nonce: nat, op: CapOp, id: Bytes)
    requires CapInv(data) && IsToken(CapSpec(data, ctx, sender, nonce, op).0, id)
    ensures IsToken(data, id) ||
      (MakesToken(op) && CapSpec(data, ctx, sender, nonce, op).1.Ok? && id == NewId(ctx, sender, nonce, op) &&
       (op.DelegateCap? ==> IsId(op.id)))
  {
    hide Prefix, CapInv, Expiring, Reach, Marked;
    match op {
      case MintCap(_, _, _, _, _, _, _, _) =>
        if MintSpec(data, ctx, sender, nonce, op).1.Ok? {
          MintGrows(data, ctx, sender, nonce, op);
        }
      case DelegateCap(_, _, _, _, _) =>
        if DelegateSpec(data, ctx, sender, nonce, op).1.Ok? {
          ParentOfInv(data, op.id);
          DelegateGrows(data, ctx, sender, nonce, op);
        }
      case SpendCap(x) =>
        if IsToken(data, x) && UtxoKey(id) == UtxoKey(x) {
          KeyInjective(CapUtxo, id, CapUtxo, x);
        }
      case RevokeCap(x) => MarkedToken(data, {x} + Reach(data, x), Revoked, id);
      case BatchExpire => MarkedToken(data, Expiring(data, ctx.now), Expired, id);
      case BadCapPayload =>
    }
  }

  lemma ParentOfInv(data: State, id: Bytes)
    requires CapInv(data) && IsToken(data, id)
    ensures TokenAt(data, id).id == id && IsId(id) && DepthOk(TokenAt(data, id))
  {
  }

  // ----- freshness of ids

  /** Each stored token was made by a transaction whose nonce its sender has used up. The set pres
      holds the byte strings that are hashed in the run. */
  ghost predicate OriginsOk(data: State, digest: Bytes -> Id, pres: set<Bytes>) {
    forall id :: IsToken(data, id) ==> HasOrigin(data, digest, pres, id)
  }

  ghost predicate HasOrigin(data: State, digest: Bytes -> Id, pres: set<Bytes>, id: Bytes) {
    exists o :: WellFormed(o) && Preimage(o) in pres && digest(Preimage(o)) == id && o.nonce < NonceOf(data, o.sender)
  }

  /** No two of the hashed byte strings collide. */
  ghost predicate CollisionFree(digest: Bytes -> Id, pres: set<Bytes>) {
    forall a, b :: a in pres && b in pres && digest(a) == digest(b) ==> a == b
  }

  /** The id of a token made under the current nonce of its sender is not in use. */
  lemma FreshId(data: State, digest: Bytes -> Id, pres: set<Bytes>, o: Origin)
    requires OriginsOk(data, digest, pres) && CollisionFree(digest, pres)
    requires WellFormed(o) && Preimage(o) in pres && o.nonce == NonceOf(data, o.sender)
    ensures !IsToken(data, digest(Preimage(o)))
  {
    var id := digest(Preimage(o));
    if IsToken(data, id) {
      assert HasOrigin(data, digest, pres, id);
      var made :| WellFormed(made) && Preimage(made) in pres && digest(Preimage(made)) == id && made.nonce < NonceOf(data, made.sender);
      PreimageInjective(made, o);
    }
  }

  // ----- frame: other parts of the tree

  ghost predicate SameOwned(data: State, d: State, o: Owner) {
    forall k :: OwnerOf(k) == o ==> (k in data <==> k in d) && (k in data ==> data[k] == d[k])
  }

  lemma OtherOwnersKeepTokens(data: State, d: State)
    requires SameOwned(data, d, Cap)
    ensures forall id :: IsToken(d, id) <==> IsToken(data, id)
    ensures forall id :: IsToken(data, id) ==> TokenAt(d, id) == TokenAt(data, id)
    ensures forall k :: IsDeriveKey(k) ==> (k in d <==> k in data)
  {
    hide Prefix, OwnerOf;
    forall id ensures (UtxoKey(id) in data <==> UtxoKey(id) in d) && (UtxoKey(id) in data ==> data[UtxoKey(id)] == d[UtxoKey(id)]) {
      NamespaceOwner(CapUtxo, UtxoKey(id));
    }
    forall k | IsDeriveKey(k) ensures k in d <==> k in data {
      NamespaceOwner(CapDerive, k);
    }
  }

  lemma OtherOwnersKeepInv(data: State, d: State)
    requires CapInv(data) && SameOwned(data, d, Cap)
    ensures CapInv(d) && Evolves(data, d)
  {
    hide Prefix, OwnerOf;
    OtherOwnersKeepTokens(data, d);
    forall id | IsToken(data, id) ensures UsageOk(TokenAt(d, id)) {
      UsageOfInv(data, id);
    }
    SameTokensKeepsInv(data, d);
  }
}
