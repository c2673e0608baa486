/** Who may change a token: every change to a stored token, and every new token, traced to the sender
    of the transaction that made it. Stated on the records alone. */
module CapAuthority {
  import opened ByteStrings
  import opened Codec
  import opened Keys
  import opened Engine
  import opened Records
  import opened Reachability
  import opened CapGraph
  import opened CapSweep
  import opened CapOrigins
  import opened CapHandlers
  import opened CapInvariant
  import opened CapSteps

  /** The ways in which one transaction may turn the stored token t into u. Only its issuer has a token
      revoked, only its holder spends it, and only an expired token expires by a spend. */
  predicate Authorised(t: Token, u: Token, now: int, sender: Bytes, op: CapOp, ok: bool) {
    || u == t
    || (ok && op.RevokeCap? && sender == t.issuer && (op.id == t.id || t.status == Unspent) && u == t.(status := Revoked))
    || (op == SpendCap(t.id) && sender == t.holder && t.status == Unspent &&
        if 0 < t.expiresAt <= now then !ok && u == t.(status := Expired)
        else ok && u == t.(usedCount := (t.usedCount + 1) % TWO32,
                           status := if 0 < t.maxUses <= (t.usedCount + 1) % TWO32 then Spent else Unspent))
    || (ok && op.BatchExpire? && t.status == Unspent && u == t.(status := Expired))
  }

  /** What the token with this id may be when the transaction has just made it: the sender's own root,
      or a child of a token that the sender holds, filed under the holder asked for. */
  ghost predicate MadeAsAsked(data: State, t: Token, now: int, sender: Bytes, op: CapOp) {
    && t.status == Unspent && t.usedCount == 0 && t.issuedAt == now
    && match op
       case MintCap(holder, capType, capVersion, scopes, expiresAt, maxUses, delegatable, maxDepth) =>
         && t.parent == [] && t.curDepth == 0 && t.issuer == sender && t.holder == holder
         && t.capType == capType && t.capVersion == capVersion && t.scopes == scopes && t.expiresAt == expiresAt
         && t.maxUses == maxUses && t.delegatable == delegatable && t.maxDepth == maxDepth
       case DelegateCap(id, newHolder, scopes, expiresAt, maxUses) =>
         IsToken(data, id) &&
         var p := TokenAt(data, id);
         && p.holder == sender && t.parent == id && t.holder == newHolder && t.issuer == p.issuer
         && t.capType == p.capType && t.capVersion == p.capVersion && t.scopes == scopes
         && t.expiresAt == (if expiresAt == 0 then p.expiresAt else expiresAt)
         && t.maxUses == (if maxUses == 0 then p.maxUses else maxUses)
         && t.delegatable && t.maxDepth == p.maxDepth && t.curDepth == (p.curDepth + 1) % TWO32
       case _ => false
  }

  // ----- one issuer for a whole tree of delegations

  lemma {:induction false} IssuerDownPath(data: State, p: Bytes, path: seq<Bytes>)
    requires CapInv(data) && IsToken(data, p)
    requires path != [] && WhitePath(Derived(data.Keys), White(data), p, path)
    ensures IsWhite(data, path[|path| - 1])
    ensures TokenAt(data, path[|path| - 1]).issuer == TokenAt(data, p).issuer
    decreases |path|
  {
    hide Kids, White, Prefix, CapInv;
    var c := path[0];
    WhiteIff(data, c);
    KidsAreChildren(data, p, c);
    IssuerOfChild(data, c);
    if |path| > 1 {
      IssuerDownPath(data, c, path[1..]);
    }
  }

  lemma IssuerOfChild(data: State, c: Bytes)
    requires CapInv(data) && IsToken(data, c) && TokenAt(data, c).parent != []
    ensures IsToken(data, TokenAt(data, c).parent)
    ensures TokenAt(data, c).issuer == TokenAt(data, TokenAt(data, c).parent).issuer
  {
    hide Prefix, IndexExact, Forest;
    assert TokenOk(data, c);
  }

  /** A revocation reaches tokens of one issuer only. */
  lemma ReachHasIssuer(data: State, p: Bytes, x: Bytes)
    requires CapInv(data) && IsToken(data, p) && x in Reach(data, p)
    ensures IsWhite(data, x) && TokenAt(data, x).issuer == TokenAt(data, p).issuer
  {
    hide Kids, White, CapInv;
    var path :| path != [] && path[|path| - 1] == x && WhitePath(Derived(data.Keys), White(data), p, path);
    IssuerDownPath(data, p, path);
  }

  // ----- every change is authorised

  lemma RevokeAuthorised(data: State, sender: Bytes, id: Bytes, now: int, x: Bytes)
    requires CapInv(data) && IsToken(data, x)
    ensures var (d, r) := RevokeSpec(data, sender, id);
      && (r.Ok? <==> IsToken(data, id) && TokenAt(data, id).issuer == sender) && (r.Fail? ==> d == data)
      && IsToken(d, x) && Authorised(TokenAt(data, x), TokenAt(d, x), now, sender, RevokeCap(id), r.Ok?)
  {
    hide Marked, Reach, CapInv;
    var ids := {id} + Reach(data, id);
    MarkedToken(data, ids, Revoked, x);
    UsageOfInv(data, x);
    if RevokeSpec(data, sender, id).1.Ok? && x in Reach(data, id) {
      ReachHasIssuer(data, id, x);
    }
  }

  lemma SpendAuthorised(data: State, ctx: Ctx, sender: Bytes, id: Bytes, x: Bytes)
    requires CapInv(data) && IsToken(data, x)
    ensures var (d, r) := SpendSpec(data, ctx, sender, id);
      IsToken(d, x) && Authorised(TokenAt(data, x), TokenAt(d, x), ctx.now, sender, SpendCap(id), r.Ok?)
  {
    hide CapInv, Prefix;
    UsageOfInv(data, x);
    if UtxoKey(x) == UtxoKey(id) {
      KeyInjective(CapUtxo, x, CapUtxo, id);
    }
  }

  lemma ExpireAuthorised(data: State, now: int, sender: Bytes, x: Bytes)
    requires IsToken(data, x)
    ensures IsToken(SweepSpec(data, now), x)
    ensures Authorised(TokenAt(data, x), TokenAt(SweepSpec(data, now), x), now, sender, BatchExpire, true)
  {
    hide Marked, Expiring;
    MarkedToken(data, Expiring(data, now), Expired, x);
    if x in Expiring(data, now) {
      ExpiringIsWhite(data, now, x);
    }
  }

  lemma ExpiringIsWhite(data: State, now: int, x: Bytes)
    requires x in Expiring(data, now)
    ensures IsWhite(data, x)
  {
    WhiteIff(data, x);
  }

  /** Whatever a transaction changes in a stored token, its sender was entitled to. */
  lemma ChangesAuthorised(data: State, ctx: Ctx, sender: Bytes, nonce: nat, op: CapOp, x: Bytes)
    requires CapInv(data) && IsToken(data, x)
    requires MakesToken(op) && CapSpec(data, ctx, sender, nonce, op).1.Ok? ==> !IsToken(data, NewId(ctx, sender, nonce, op))
    ensures var (d, r) := CapSpec(data, ctx, sender, nonce, op);
      IsToken(d, x) && Authorised(TokenAt(data, x), TokenAt(d, x), ctx.now, sender, op, r.Ok?)
  {
    hide CapInv, Prefix, RevokeSpec, SpendSpec, SweepSpec, SweepEvents, Authorised;
    UnchangedAuthorised(data, x, ctx.now, sender, op, CapSpec(data, ctx, sender, nonce, op).1.Ok?);
    match op {
      case MintCap(_, _, _, _, _, _, _, _) =>
        if MintSpec(data, ctx, sender, nonce, op).1.Ok? {
          MintGrows(data, ctx, sender, nonce, op);
        }
      case DelegateCap(_, _, _, _, _) =>
        if DelegateSpec(data, ctx, sender, nonce, op).1.Ok? {
          ParentOfInv(data, op.id);
          DelegateGrows(data, ctx, sender, nonce, op);
        }
      case SpendCap(id) => SpendAuthorised(data, ctx, sender, id, x);
      case RevokeCap(id) => RevokeAuthorised(data, sender, id, ctx.now, x);
      case BatchExpire => ExpireAuthorised(data, ctx.now, sender, x);
      case BadCapPayload =>
    }
  }

  lemma UnchangedAuthorised(data: State, x: Bytes, now: int, sender: Bytes, op: CapOp, ok: bool)
    requires IsToken(data, x)
    ensures Authorised(TokenAt(data, x), TokenAt(data, x), now, sender, op, ok)
  {
  }

  /** A new token is what a successful mint or delegation asked for, and a delegation is its parent
      holder's. */
  lemma NewTokenAsAsked(data: State, ctx: Ctx, sender: Bytes, nonce: nat, op: CapOp, x: Bytes)
    requires CapInv(data) && !IsToken(data, x) && IsToken(CapSpec(data, ctx, sender, nonce, op).0, x)
    ensures CapSpec(data, ctx, sender, nonce, op).1.Ok?
    ensures MadeAsAsked(data, TokenAt(CapSpec(data, ctx, sender, nonce, op).0, x), ctx.now, sender, op)
  {
    hide CapInv, Prefix, RevokeSpec, SpendSpec, SweepSpec, SweepEvents;
    CapNewTokens(data, ctx, sender, nonce, op, x);
    if op.MintCap? {
      MintGrows(data, ctx, sender, nonce, op);
    } else {
      ParentOfInv(data, op.id);
      DelegateGrows(data, ctx, sender, nonce, op);
    }
  }

  // ----- every entitled request works

  /** Each action succeeds exactly for those entitled to it, and then does what it was asked for: a token
      is made as asked, used once more, revoked, or every due token expired, a hundred gas for each. A
      failure changes nothing unless it expires the token of a late spend. */
  lemma EntitledSucceed(data: State, ctx: Ctx, sender: Bytes, nonce: nat, op: CapOp)
    requires CapInv(data)
    requires MakesToken(op) && CapSpec(data, ctx, sender, nonce, op).1.Ok? ==> !IsToken(data, NewId(ctx, sender, nonce, op))
    ensures var (d, r) := CapSpec(data, ctx, sender, nonce, op);
      match op
      case MintCap(holder, capType, _, scopes, _, _, delegatable, maxDepth) =>
        && (r.Ok? <==> holder != [] && capType != [] && scopes != [] && (delegatable ==> maxDepth > 0))
        && (if r.Ok? then MadeNow(data, d, ctx, sender, nonce, op) else d == data)
      case DelegateCap(id, _, scopes, expiresAt, maxUses) =>
        && (r.Ok? <==>
              IsToken(data, id) &&
              var p := TokenAt(data, id);
              && p.holder == sender && p.delegatable && (p.curDepth + 1) % TWO32 <= p.maxDepth
              && scopes != [] && (forall s :: s in scopes ==> s in p.scopes)
              && (p.expiresAt <= 0 || expiresAt <= p.expiresAt) && (p.maxUses == 0 || maxUses <= p.maxUses))
        && (if r.Ok? then MadeNow(data, d, ctx, sender, nonce, op) else d == data)
      case SpendCap(id) =>
        && (r.Ok? <==>
              && IsToken(data, id) && TokenAt(data, id).holder == sender && TokenAt(data, id).status == Unspent
              && (TokenAt(data, id).expiresAt <= 0 || ctx.now < TokenAt(data, id).expiresAt))
        && (r.Ok? ==> IsToken(d, id) && TokenAt(d, id).usedCount == (TokenAt(data, id).usedCount + 1) % TWO32)
      case RevokeCap(id) =>
        && (r.Ok? <==> IsToken(data, id) && TokenAt(data, id).issuer == sender)
        && (if r.Ok? then IsToken(d, id) && TokenAt(d, id).status == Revoked else d == data)
      case BatchExpire => r.Ok? && r.gas == 100 * |r.events| && TokensSwept(data, d, r.events, ctx.now)
      case BadCapPayload => r.Fail? && d == data
  {
    hide CapInv, Prefix, Marked, Reach, SweepSpec, SweepEvents, TokensSwept, MadeNow;
    match op {
      case MintCap(_, _, _, _, _, _, _, _) =>
        if MintSpec(data, ctx, sender, nonce, op).1.Ok? {
          MakesItsToken(data, ctx, sender, nonce, op);
        }
      case DelegateCap(_, _, _, _, _) =>
        if IsToken(data, op.id) {
          ParentOfInv(data, op.id);
        }
        if DelegateSpec(data, ctx, sender, nonce, op).1.Ok? {
          MakesItsToken(data, ctx, sender, nonce, op);
        }
      case SpendCap(_) =>
      case RevokeCap(id) => MarkedToken(data, {id} + Reach(data, id), Revoked, id);
      case BatchExpire => SweepTold(data, ctx.now);
      case BadCapPayload =>
    }
  }

  /** The token with the new id is there, as asked for. */
  ghost predicate MadeNow(data: State, d: State, ctx: Ctx, sender: Bytes, nonce: nat, op: CapOp)
    requires MakesToken(op)
  {
    var id := NewId(ctx, sender, nonce, op);
    IsToken(d, id) && TokenAt(d, id).id == id && MadeAsAsked(data, TokenAt(d, id), ctx.now, sender, op)
  }

  lemma MakesItsToken(data: State, ctx: Ctx, sender: Bytes, nonce: nat, op: CapOp)
    requires CapInv(data) && MakesToken(op) && CapSpec(data, ctx, sender, nonce, op).1.Ok?
    requires !IsToken(data, NewId(ctx, sender, nonce, op))
    ensures MadeNow(data, CapSpec(data, ctx, sender, nonce, op).0, ctx, sender, nonce, op)
  {
    hide CapInv, Prefix, MadeAsAsked;
    if op.MintCap? {
      MintGrows(data, ctx, sender, nonce, op);
    } else {
      ParentOfInv(data, op.id);
      DelegateGrows(data, ctx, sender, nonce, op);
    }
    NewTokenAsAsked(data, ctx, sender, nonce, op, NewId(ctx, sender, nonce, op));
  }
}
