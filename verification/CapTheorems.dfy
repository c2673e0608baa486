/** Consequences of the token invariant: attenuation along chains of any length, and what an expiry
    sweep does to a reachable state. */
module CapTheorems {
  import opened ByteStrings
  import opened Codec
  import opened Keys
  import opened Engine
  import opened Records
  import opened Reachability
  import opened CapGraph
  import opened CapCascade
  import opened CapSweep
  import opened CapOrigins
  import opened CapHandlers
  import opened CapInvariant
  import opened CapSteps

  // ----- chains of delegations

  ghost predicate Chain(data: State, path: seq<Bytes>) {
    && path != []
    && (forall i :: 0 <= i < |path| ==> IsToken(data, path[i]))
    && (forall i :: 1 <= i < |path| ==> IsChildOf(data, path, i))
  }

  predicate IsChildOf(data: State, path: seq<Bytes>, i: int)
    requires 1 <= i < |path| && IsToken(data, path[i])
  {
    path[i - 1] != [] && TokenAt(data, path[i]).parent == path[i - 1]
  }

  lemma ChainPrefix(data: State, path: seq<Bytes>)
    requires Chain(data, path) && |path| > 1
    ensures Chain(data, path[..|path| - 1])
    ensures TokenAt(data, path[|path| - 1]).parent == path[|path| - 2] != []
  {
    var q := path[..|path| - 1];
    forall i | 1 <= i < |q| ensures IsChildOf(data, q, i) {
      assert IsChildOf(data, path, i);
    }
    assert IsChildOf(data, path, |path| - 1);
  }

  /** z is n delegations below a. */
  predicate Weaker(a: Token, z: Token, n: nat) {
    && z.issuer == a.issuer && z.capType == a.capType && z.capVersion == a.capVersion
    && z.maxDepth == a.maxDepth && z.curDepth == (a.curDepth + n) % TWO32
    && (forall s :: s in z.scopes ==> s in a.scopes)
    && (a.maxUses > 0 ==> 0 < z.maxUses <= a.maxUses)
    && (n > 0 ==> a.delegatable && z.delegatable && z.curDepth <= z.maxDepth)
  }

  lemma CountOn(a: nat, n: nat)
    ensures ((a + n) % TWO32 + 1) % TWO32 == (a + n + 1) % TWO32
  {
  }

  lemma WeakerStep(a: Token, y: Token, z: Token, n: nat)
    requires Weaker(a, y, n) && Attenuates(y, z) && DepthOk(z) && (n == 0 ==> y == a)
    ensures Weaker(a, z, n + 1)
  {
    CountOn(a.curDepth, n);
    forall s | s in z.scopes ensures s in a.scopes {
      assert s in y.scopes;
    }
  }

  /** Along every chain the issuer and type stay, scopes shrink, a positive use bound bounds every
      descendant, and the depth counter (of 32 bits) counts the links. */
  lemma {:induction false} ChainAttenuates(data: State, path: seq<Bytes>)
    requires CapInv(data) && Chain(data, path)
    ensures Weaker(TokenAt(data, path[0]), TokenAt(data, path[|path| - 1]), |path| - 1)
    decreases |path|
  {
    hide Weaker, Prefix, DepthOk, Attenuates;
    var n := |path| - 1;
    if n > 0 {
      ChainPrefix(data, path);
      ChainAttenuates(data, path[..n]);
      assert TokenOk(data, path[n]);
      WeakerStep(TokenAt(data, path[0]), TokenAt(data, path[n - 1]), TokenAt(data, path[n]), n - 1);
    } else {
      WeakerSelf(TokenAt(data, path[0]));
    }
  }

  lemma WeakerSelf(a: Token)
    ensures Weaker(a, a, 0)
  {
  }

  /** A chain below a token with MaxDepth under 2^32-1 is no longer than its remaining depth, and the
      depth rises by one per link. */
  lemma {:induction false} ChainDepth(data: State, path: seq<Bytes>)
    requires CapInv(data) && Chain(data, path) && TokenAt(data, path[0]).maxDepth < TWO32 - 1
    ensures var a := TokenAt(data, path[0]); var n := |path| - 1;
      n > 0 ==> TokenAt(data, path[n]).curDepth == a.curDepth + n && a.curDepth + n <= a.maxDepth
    decreases |path|
  {
    hide Prefix;
    var n := |path| - 1;
    if n > 0 {
      ChainPrefix(data, path);
      ChainDepth(data, path[..n]);
      ChainAttenuates(data, path[..n]);
      assert TokenOk(data, path[n]) && TokenOk(data, path[n - 1]);
      DepthStep(TokenAt(data, path[0]), TokenAt(data, path[n - 1]), TokenAt(data, path[n]));
    }
  }

  lemma DepthStep(a: Token, y: Token, z: Token)
    requires a.maxDepth < TWO32 - 1 && y.maxDepth == a.maxDepth && Attenuates(y, z) && DepthOk(y) && DepthOk(z)
    ensures z.curDepth == y.curDepth + 1 <= a.maxDepth
  {
  }

  lemma {:induction false} ChainRanks(data: State, path: seq<Bytes>, rank: map<Bytes, nat>)
    requires TokensOk(data) && Ranked(data, rank) && Chain(data, path)
    ensures path[0] in rank && path[|path| - 1] in rank
    ensures rank[path[0]] + |path| - 1 <= rank[path[|path| - 1]]
    decreases |path|
  {
    if |path| > 1 {
      ChainPrefix(data, path);
      ChainRanks(data, path[..|path| - 1], rank);
    }
  }

  /** The parent relation is a forest: no token lies below itself. */
  lemma NoTokenBelowItself(data: State, path: seq<Bytes>)
    requires CapInv(data) && Chain(data, path) && |path| > 1
    ensures path[0] != path[|path| - 1]
  {
    var rank :| Ranked(data, rank);
    ChainRanks(data, path, rank);
  }

  /** Without negative expiries along it, a chain never outlives its head. */
  lemma {:induction false} ChainExpiry(data: State, path: seq<Bytes>)
    requires CapInv(data) && Chain(data, path)
    requires forall i :: 0 <= i < |path| ==> TokenAt(data, path[i]).expiresAt >= 0
    requires TokenAt(data, path[0]).expiresAt > 0
    ensures 0 < TokenAt(data, path[|path| - 1]).expiresAt <= TokenAt(data, path[0]).expiresAt
    decreases |path|
  {
    hide Prefix, IndexExact, Forest, UsageOk, DepthOk, ScopesWithin, ChildDepth;
    var n := |path| - 1;
    if n > 0 {
      ChainPrefix(data, path);
      ChainExpiry(data, path[..n]);
      assert TokenOk(data, path[n]);
    }
  }

  /** A delegation passes a positive expiry bound on exactly when the request does not ask for a
      negative expiry. */
  lemma DelegateBoundsExpiry(ctx: Ctx, sender: Bytes, nonce: nat, parent: Token, p: CapOp)
    requires p.DelegateCap? && MayDelegate(parent, p) && parent.expiresAt > 0
    ensures 0 < DelegatedToken(ctx, sender, nonce, parent, p).expiresAt <= parent.expiresAt <==> p.expiresAt >= 0
  {
  }

  /** The depth of a delegated token is one more than its parent's exactly when the parent's counter
      is not at its 32-bit maximum; there it restarts at zero and the depth check lets it pass. */
  lemma DelegateDeepens(ctx: Ctx, sender: Bytes, nonce: nat, parent: Token, p: CapOp)
    requires p.DelegateCap? && MayDelegate(parent, p)
    ensures DelegatedToken(ctx, sender, nonce, parent, p).curDepth == parent.curDepth + 1 <==> parent.curDepth < TWO32 - 1
  {
  }

  lemma DepthWrapAllowed()
    ensures exists parent: Token, p: CapOp :: p.DelegateCap? && DepthOk(parent) && MayDelegate(parent, p) && ChildDepth(parent) == 0
  {
    var parent := Token([], [], [], [], [], [[1]], 0, 0, 0, 0, true, TWO32 - 1, TWO32 - 1, [], Unspent);
    var p := DelegateCap([], [], [[1]], 0, 0);
    assert [1 as byte] in parent.scopes;
    assert MayDelegate(parent, p) && ChildDepth(parent) == 0;
  }

  // ----- the sweep

  lemma DueAfterSweep(data: State, ids: set<Bytes>, now: int)
    ensures Due(Marked(data, ids, Expired), now) == Due(data, now) - ids
  {
  }

  /** After a sweep no token is due. */
  lemma SweepLeavesNoneDue(data: State, now: int)
    ensures Due(SweepSpec(data, now), now) == {}
  {
    DueAfterSweep(data, Expiring(data, now), now);
  }

  /** An earlier sweep makes no difference to a later one; sweeping twice is sweeping once. */
  lemma SweepAbsorbs(data: State, early: int, late: int)
    requires early <= late
    ensures SweepSpec(SweepSpec(data, early), late) == SweepSpec(data, late)
  {
    hide Marked, Kids;
    var g, w := Derived(data.Keys), White(data);
    var e := Expiring(data, early);
    var d := Marked(data, e, Expired);
    DueAfterSweep(data, e, late);
    WhiteMarked(data, e, Expired);
    DueGrows(data, early, late);
    ReachFromAbsorbs(g, w, Due(data, early), Due(data, late));
    MarkedTwice(data, e, Expiring(d, late), Expired);
  }

  lemma DueGrows(data: State, early: int, late: int)
    requires early <= late
    ensures Due(data, early) <= Due(data, late) && Due(data, late) <= White(data)
  {
  }

  lemma ReachFromClosed<V(!new)>(g: Graph<V>, w: set<V>, sources: set<V>)
    ensures Closed(g, w, ReachFrom(g, w, sources))
  {
    forall x, c | x in ReachFrom(g, w, sources) && c in g(x) && c in w ensures c in ReachFrom(g, w, sources) {
      if x in sources {
        ReachIsClosed(g, w, x);
        assert c in ReachSet(g, w, x);
      } else {
        var s :| s in sources && x in ReachSet(g, w, s);
        ReachIsClosed(g, w, s);
        assert c in ReachSet(g, w, s);
      }
    }
  }

  lemma ReachFromAbsorbs<V(!new)>(g: Graph<V>, w: set<V>, a: set<V>, b: set<V>)
    requires a <= b
    ensures ReachFrom(g, w, a) + ReachFrom(g, w - ReachFrom(g, w, a), b - ReachFrom(g, w, a)) == ReachFrom(g, w, b)
  {
    var e := ReachFrom(g, w, a);
    var rest := ReachFrom(g, w - e, b - e);
    ReachFromClosed(g, w, a);
    ReachFromClosed(g, w - e, b - e);
    assert Closed(g, w, e + rest);
    ClosedHoldsReachFrom(g, w, b, e + rest);
    ReachFromClosed(g, w, b);
    ClosedHoldsReachFrom(g, w, a, ReachFrom(g, w, b));
    assert Closed(g, w - e, ReachFrom(g, w, b));
    ClosedHoldsReachFrom(g, w - e, b - e, ReachFrom(g, w, b));
  }

  /** Some due token with a negative expiry has an UNSPENT child that is not due. */
  ghost predicate NegativeOverUndue(data: State, now: int) {
    exists c :: IsWhite(data, c) && TokenAt(data, c).parent != [] && IsWhite(data, TokenAt(data, c).parent) &&
      TokenAt(data, TokenAt(data, c).parent).expiresAt < 0 && IsDue(TokenAt(data, TokenAt(data, c).parent), now) &&
      !IsDue(TokenAt(data, c), now)
  }

  /** In a reachable state the sweep expires the due tokens and nothing else, exactly unless a due
      token with a negative expiry has an UNSPENT child that is not due. */
  lemma SweepIsExact(data: State, now: int)
    requires CapInv(data)
    ensures Expiring(data, now) == Due(data, now) <==> !NegativeOverUndue(data, now)
  {
    hide Kids;
    var g, w := Derived(data.Keys), White(data);
    WhiteIffAll(data);
    if NegativeOverUndue(data, now) {
      var c :| IsWhite(data, c) && TokenAt(data, c).parent != [] && IsWhite(data, TokenAt(data, c).parent) &&
        TokenAt(data, TokenAt(data, c).parent).expiresAt < 0 && IsDue(TokenAt(data, TokenAt(data, c).parent), now) &&
        !IsDue(TokenAt(data, c), now);
      var p := TokenAt(data, c).parent;
      KidsAreChildren(data, p, c);
      ReachStep(g, w, p, c);
      assert c in ReachSet(g, w, p) && p in Due(data, now);
      assert c in Expiring(data, now) && c !in Due(data, now);
    } else {
      forall x, c | x in Due(data, now) && c in g(x) && c in w ensures c in Due(data, now) {
        KidsAreChildren(data, x, c);
        assert TokenOk(data, c);
      }
      ClosedHoldsReachFrom(g, w, Due(data, now), Due(data, now));
    }
  }

  /** When no stored token has a negative expiry, the inner cascades of a sweep paint nothing more. */
  lemma SweepWithoutNegatives(data: State, now: int)
    requires CapInv(data) && forall id :: IsToken(data, id) ==> TokenAt(data, id).expiresAt >= 0
    ensures Expiring(data, now) == Due(data, now)
  {
    SweepIsExact(data, now);
  }

  /** The events of a sweep name each due token once, in id order. */
  lemma SweepEventsOncePerDue(data: State, now: int, id: Bytes)
    ensures |SweepEvents(data, now)| == |Due(data, now)|
    ensures Event(CapabilityExpired, id) in SweepEvents(data, now) <==> id in Due(data, now)
    ensures forall i, j :: 0 <= i < j < |SweepEvents(data, now)| ==>
      LexLess(SweepEvents(data, now)[i].subject, SweepEvents(data, now)[j].subject)
  {
  }

  lemma NegativeRoot(ctx: Ctx, who: Bytes)
    requires |who| == 32
    ensures var d := CapSpec(map[], ctx, who, 0, NegativeMint(who)).0; var root := ctx.digest(MintPre(who));
      CapInv(d) && IsToken(d, root) && TokenAt(d, root) == MintedToken(ctx, who, 0, NegativeMint(who))
  {
    hide Prefix, CapInv;
    InitiallyOk();
    CapStep(map[], ctx, who, 0, NegativeMint(who));
    MintGrows(map[], ctx, who, 0, NegativeMint(who));
  }

  lemma NegativeChild(ctx: Ctx, who: Bytes, d: State)
    requires var root := ctx.digest(MintPre(who));
      ctx.digest(DelegatePre(ctx, who)) != root && CapInv(d) && IsToken(d, root) &&
      (forall id :: IsToken(d, id) ==> id == root) && TokenAt(d, root) == MintedToken(ctx, who, 0, NegativeMint(who))
    ensures var root := ctx.digest(MintPre(who)); var kid := ctx.digest(DelegatePre(ctx, who));
      var d2 := CapSpec(d, ctx, who, 1, LaterDelegate(ctx, who)).0;
      CapInv(d2) && IsToken(d2, root) && TokenAt(d2, root) == TokenAt(d, root) &&
      IsToken(d2, kid) && TokenAt(d2, kid) == DelegatedToken(ctx, who, 1, TokenAt(d, root), LaterDelegate(ctx, who))
  {
    hide Prefix, CapInv;
    var root := ctx.digest(MintPre(who));
    assert [1 as byte] in TokenAt(d, root).scopes;
    CapStep(d, ctx, who, 1, LaterDelegate(ctx, who));
    DelegateGrows(d, ctx, who, 1, LaterDelegate(ctx, who));
  }

  /** A mint with expiry -1 and a delegation that asks for expiry 1000 make a state in which the
      sweep at time 0 expires a token that is not due. */
  lemma NegativeExpiryExpiresUndue(ctx: Ctx, who: Bytes)
    requires ctx.now == 0 && |who| == 32
    requires ctx.digest(DelegatePre(ctx, who)) != ctx.digest(MintPre(who))
    ensures var d := CapSpec(CapSpec(map[], ctx, who, 0, NegativeMint(who)).0, ctx, who, 1, LaterDelegate(ctx, who)).0;
      exists id :: id in Expiring(d, 0) && id !in Due(d, 0)
  {
    hide Prefix, Due, Expiring, CapSpec, CapInv;
    var root, kid := ctx.digest(MintPre(who)), ctx.digest(DelegatePre(ctx, who));
    var d1 := CapSpec(map[], ctx, who, 0, NegativeMint(who)).0;
    NegativeRoot(ctx, who);
    OnlyRoot(ctx, who);
    NegativeChild(ctx, who, d1);
    UndueChild(CapSpec(d1, ctx, who, 1, LaterDelegate(ctx, who)).0, root, kid);
  }

  lemma OnlyRoot(ctx: Ctx, who: Bytes)
    requires |who| == 32
    ensures forall id :: IsToken(CapSpec(map[], ctx, who, 0, NegativeMint(who)).0, id) ==> id == ctx.digest(MintPre(who))
  {
  }

  lemma UndueChild(data: State, p: Bytes, c: Bytes)
    requires CapInv(data) && p != [] && IsWhite(data, p) && IsWhite(data, c) && TokenAt(data, c).parent == p
    requires IsDue(TokenAt(data, p), 0) && !IsDue(TokenAt(data, c), 0)
    ensures c in Expiring(data, 0) && c !in Due(data, 0)
  {
    hide Kids;
    WhiteIffAll(data);
    KidsAreChildren(data, p, c);
    ReachStep(Derived(data.Keys), White(data), p, c);
    assert p in Due(data, 0) && c in ReachSet(Derived(data.Keys), White(data), p);
  }

  function MintPre(who: Bytes): Bytes { MintPreimage(who, [1], 0) }

  function NegativeMint(who: Bytes): CapOp { MintCap(who, [1], [1], [[1]], -1, 0, true, 1) }

  function LaterDelegate(ctx: Ctx, who: Bytes): CapOp {
    DelegateCap(ctx.digest(MintPre(who)), who, [[1]], 1000, 0)
  }

  function DelegatePre(ctx: Ctx, who: Bytes): Bytes {
    DelegatePreimage(ctx.digest(MintPre(who)), who, 1)
  }
}
