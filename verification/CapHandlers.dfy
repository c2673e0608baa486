/** The transaction handlers of the capability module. */
module CapHandlers {
  import opened ByteStrings
  import opened Codec
  import opened Keys
  import opened Engine
  import opened Records
  import opened CapGraph
  import opened CapCascade
  import opened CapSweep
  import opened CapOrigins

  datatype CapOp =
    | MintCap(holder: Bytes, capType: Bytes, capVersion: Bytes, scopes: seq<Bytes>,
              expiresAt: int, maxUses: u32, delegatable: bool, maxDepth: u32)
    | SpendCap(id: Bytes)
    | DelegateCap(id: Bytes, newHolder: Bytes, scopes: seq<Bytes>, expiresAt: int, maxUses: u32)
    | RevokeCap(id: Bytes)
    | BatchExpire
    | BadCapPayload

  const TWO32: nat := 0x1_0000_0000

  // ----- mint

  function MintedToken(ctx: Ctx, sender: Bytes, nonce: nat, p: CapOp): Token
    requires p.MintCap?
  {
    Token(ctx.digest(MintPreimage(sender, p.capType, nonce)), sender, p.holder, p.capType, p.capVersion, p.scopes,
          ctx.now, p.expiresAt, p.maxUses, 0, p.delegatable, p.maxDepth, 0, [], Unspent)
  }

  function HolderKey(t: Token): Bytes { Key(CapHolder, Hex(t.holder) + [SLASH] + t.id) }

  function TypeKey(t: Token): Bytes { Key(CapType, t.capType + [SLASH] + t.id) }

  function MintSpec(data: State, ctx: Ctx, sender: Bytes, nonce: nat, p: CapOp): (State, Outcome)
    requires p.MintCap?
  {
    var t := MintedToken(ctx, sender, nonce, p);
    if p.holder == [] || p.capType == [] || p.scopes == [] then (data, Fail(CAP_BASE + 1))
    else if p.delegatable && p.maxDepth == 0 then (data, Fail(CAP_BASE + 2))
    else (data[UtxoKey(t.id) := TokenV(t)][HolderKey(t) := Mark][TypeKey(t) := Mark], Ok(3000, []))
  }

  method Mint(store: Store, ctx: Ctx, sender: Bytes, nonce: nat, p: CapOp) returns (r: Outcome)
    requires p.MintCap?
    modifies store`data
    ensures (store.data, r) == MintSpec(old(store.data), ctx, sender, nonce, p)
    ensures r.Ok? <==> p.holder != [] && p.capType != [] && p.scopes != [] && (p.delegatable ==> p.maxDepth > 0)
    ensures r.Fail? ==> store.data == old(store.data)
    ensures r.Ok? ==>
      var id := ctx.digest(MintPreimage(sender, p.capType, nonce));
      && r == Ok(3000, []) && UtxoKey(id) in store.data
      && Key(CapHolder, Hex(p.holder) + [SLASH] + id) in store.data && Key(CapType, p.capType + [SLASH] + id) in store.data
  {
    if |p.holder| == 0 || |p.capType| == 0 || |p.scopes| == 0 {
      return Fail(CAP_BASE + 1);
    }
    var utxo := MintedToken(ctx, sender, nonce, p);
    if utxo.delegatable && utxo.maxDepth == 0 {
      return Fail(CAP_BASE + 2);
    }
    store.Set(UtxoKey(utxo.id), TokenV(utxo));
    store.Set(HolderKey(utxo), Mark);
    store.Set(TypeKey(utxo), Mark);
    r := Ok(3000, []);
  }

  // ----- spend

  /** One more use, on a counter of 32 bits. */
  function UsedOnce(t: Token): Token {
    var used: u32 := (t.usedCount + 1) % TWO32;
    t.(usedCount := used, status := if t.maxUses > 0 && used >= t.maxUses then Spent else t.status)
  }

  function SpendSpec(data: State, ctx: Ctx, sender: Bytes, id: Bytes): (State, Outcome) {
    if !IsToken(data, id) then (data, Fail(CAP_BASE))
    else
      var t := TokenAt(data, id);
      if t.holder != sender then (data, Fail(CAP_BASE + 2))
      else if t.status != Unspent then (data, Fail(CAP_BASE + 41))
      else if t.expiresAt > 0 && ctx.now >= t.expiresAt then
        (data[UtxoKey(id) := TokenV(t.(status := Expired))], Fail(CAP_BASE + 43))
      else (data[UtxoKey(id) := TokenV(UsedOnce(t))], Ok(2000, []))
  }

  method Spend(store: Store, ctx: Ctx, sender: Bytes, id: Bytes) returns (r: Outcome)
    requires WellKeyed(store.data)
    modifies store`data
    ensures (store.data, r) == SpendSpec(old(store.data), ctx, sender, id)
    // Nobody but the holder spends, and only an UNSPENT token: all others change nothing.
    ensures !(IsWhite(old(store.data), id) && TokenAt(old(store.data), id).holder == sender) ==>
      r.Fail? && store.data == old(store.data)
    ensures r.Ok? <==>
      && IsToken(old(store.data), id) && TokenAt(old(store.data), id).holder == sender
      && TokenAt(old(store.data), id).status == Unspent
      && (TokenAt(old(store.data), id).expiresAt <= 0 || ctx.now < TokenAt(old(store.data), id).expiresAt)
  {
    var raw := store.Get(UtxoKey(id));
    if raw.None? || !raw.value.TokenV? {
      return Fail(CAP_BASE);
    }
    var utxo := raw.value.token;
    assert utxo == TokenAt(store.data, id);
    if utxo.holder != sender {
      return Fail(CAP_BASE + 2);
    }
    if utxo.status != Unspent {
      return Fail(CAP_BASE + 41);
    }
    if utxo.expiresAt > 0 && ctx.now >= utxo.expiresAt {
      utxo := utxo.(status := Expired);
      store.Set(UtxoKey(utxo.id), TokenV(utxo));
      return Fail(CAP_BASE + 43);
    }
    utxo := utxo.(usedCount := (utxo.usedCount + 1) % TWO32);
    if utxo.maxUses > 0 && utxo.usedCount >= utxo.maxUses {
      utxo := utxo.(status := Spent);
    }
    store.Set(UtxoKey(utxo.id), TokenV(utxo));
    r := Ok(2000, []);
  }

  // ----- delegate

  predicate ScopesWithin(sub: seq<Bytes>, sup: seq<Bytes>) {
    sub != [] && forall i :: 0 <= i < |sub| ==> sub[i] in sup
  }

  method IsSubset(sub: seq<Bytes>, sup: seq<Bytes>) returns (ok: bool)
    ensures ok <==> ScopesWithin(sub, sup)
  {
    if |sub| == 0 {
      return false;
    }
    var m: set<Bytes> := {};
    for i := 0 to |sup|
      invariant forall x :: x in m <==> x in sup[..i]
    {
      assert sup[..i + 1] == sup[..i] + [sup[i]];
      m := m + {sup[i]};
    }
    assert sup[..|sup|] == sup;
    for i := 0 to |sub|
      invariant forall j :: 0 <= j < i ==> sub[j] in sup
    {
      if sub[i] !in m {
        return false;
      }
    }
    ok := true;
  }

  function ChildDepth(parent: Token): u32 {
    (parent.curDepth + 1) % TWO32
  }

  function DelegatedToken(ctx: Ctx, sender: Bytes, nonce: nat, parent: Token, p: CapOp): Token
    requires p.DelegateCap?
  {
    Token(ctx.digest(DelegatePreimage(parent.id, sender, nonce)), parent.issuer, p.newHolder, parent.capType,
          parent.capVersion, p.scopes, ctx.now, if p.expiresAt == 0 then parent.expiresAt else p.expiresAt,
          if p.maxUses == 0 then parent.maxUses else p.maxUses, 0, parent.delegatable,
          parent.maxDepth, ChildDepth(parent), parent.id, Unspent)
  }

  predicate MayDelegate(parent: Token, p: CapOp)
    requires p.DelegateCap?
  {
    && parent.delegatable
    && !(parent.maxDepth > 0 && ChildDepth(parent) > parent.maxDepth)
    && ScopesWithin(p.scopes, parent.scopes)
    && !(parent.expiresAt > 0 && p.expiresAt > parent.expiresAt)
    && !(parent.maxUses > 0 && p.maxUses > parent.maxUses)
  }

  function DelegateSpec(data: State, ctx: Ctx, sender: Bytes, nonce: nat, p: CapOp): (State, Outcome)
    requires p.DelegateCap?
  {
    if !IsToken(data, p.id) then (data, Fail(CAP_BASE))
    else
      var parent := TokenAt(data, p.id);
      if parent.holder != sender then (data, Fail(CAP_BASE + 2))
      else if !MayDelegate(parent, p) then (data, Fail(CAP_BASE + 42))
      else
        var t := DelegatedToken(ctx, sender, nonce, parent, p);
        (data[UtxoKey(t.id) := TokenV(t)][DeriveKey(parent.id, t.id) := Mark], Ok(3000, []))
  }

  method Delegate(store: Store, ctx: Ctx, sender: Bytes, nonce: nat, p: CapOp) returns (r: Outcome)
    requires p.DelegateCap?
    modifies store`data
    ensures (store.data, r) == DelegateSpec(old(store.data), ctx, sender, nonce, p)
    ensures r.Ok? <==>
      IsToken(old(store.data), p.id) &&
      var t := TokenAt(old(store.data), p.id);
      && t.holder == sender && t.delegatable && (t.maxDepth == 0 || (t.curDepth + 1) % TWO32 <= t.maxDepth)
      && p.scopes != [] && (forall s :: s in p.scopes ==> s in t.scopes)
      && (t.expiresAt <= 0 || p.expiresAt <= t.expiresAt) && (t.maxUses == 0 || p.maxUses <= t.maxUses)
    ensures r.Fail? ==> store.data == old(store.data)
  {
    var raw := store.Get(UtxoKey(p.id));
    if raw.None? || !raw.value.TokenV? {
      return Fail(CAP_BASE);
    }
    var parent := raw.value.token;
    assert parent == TokenAt(store.data, p.id);
    if parent.holder != sender {
      return Fail(CAP_BASE + 2);
    }
    if !parent.delegatable {
      return Fail(CAP_BASE + 42);
    }
    var childDepth := ChildDepth(parent);
    if parent.maxDepth > 0 && childDepth > parent.maxDepth {
      return Fail(CAP_BASE + 42);
    }
    var within := IsSubset(p.scopes, parent.scopes);
    if !within {
      return Fail(CAP_BASE + 42);
    }
    if parent.expiresAt > 0 && p.expiresAt > parent.expiresAt {
      return Fail(CAP_BASE + 42);
    }
    if parent.maxUses > 0 && p.maxUses > parent.maxUses {
      return Fail(CAP_BASE + 42);
    }
    var child := Token(ctx.digest(DelegatePreimage(parent.id, sender, nonce)), parent.issuer, p.newHolder, parent.capType,
                       parent.capVersion, p.scopes, ctx.now, p.expiresAt, p.maxUses, 0, parent.delegatable,
                       parent.maxDepth, childDepth, parent.id, Unspent);
    if child.expiresAt == 0 {
      child := child.(expiresAt := parent.expiresAt);
    }
    if child.maxUses == 0 {
      child := child.(maxUses := parent.maxUses);
    }
    store.Set(UtxoKey(child.id), TokenV(child));
    store.Set(DeriveKey(parent.id, child.id), Mark);
    r := Ok(3000, []);
  }

  // ----- dispatch

  ghost function CapSpec(data: State, ctx: Ctx, sender: Bytes, nonce: nat, op: CapOp): (State, Outcome) {
    match op
    case MintCap(_, _, _, _, _, _, _, _) => MintSpec(data, ctx, sender, nonce, op)
    case SpendCap(id) => SpendSpec(data, ctx, sender, id)
    case DelegateCap(_, _, _, _, _) => DelegateSpec(data, ctx, sender, nonce, op)
    case RevokeCap(id) => RevokeSpec(data, sender, id)
    case BatchExpire =>
      (SweepSpec(data, ctx.now), Ok(100 * |SweepEvents(data, ctx.now)|, SweepEvents(data, ctx.now)))
    case BadCapPayload => (data, Fail(CAP_BASE + 1))
  }

  method ExecuteCap(store: Store, ctx: Ctx, sender: Bytes, nonce: nat, op: CapOp) returns (r: Outcome)
    requires WellKeyed(store.data) && IndexSound(store.data)
    modifies store`data
    ensures (store.data, r) == CapSpec(old(store.data), ctx, sender, nonce, op)
  {
    hide Marked, Kids, White, Reach, SweepEvents, Expiring;
    match op {
      case MintCap(_, _, _, _, _, _, _, _) => r := Mint(store, ctx, sender, nonce, op);
      case SpendCap(id) => r := Spend(store, ctx, sender, id);
      case DelegateCap(_, _, _, _, _) => r := Delegate(store, ctx, sender, nonce, op);
      case RevokeCap(id) => r := Revoke(store, sender, id);
      case BatchExpire =>
        var events, failed := ExpireAtTime(store, ctx.now);
        r := Ok(100 * |events|, events);
      case BadCapPayload => r := Fail(CAP_BASE + 1);
    }
  }
}
