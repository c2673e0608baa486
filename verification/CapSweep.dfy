/** Revocation and the expiry sweep: the two starts of a cascade. */
module CapSweep {
  import opened ByteStrings
  import opened Codec
  import opened Keys
  import opened Engine
  import opened Records
  import opened CapGraph
  import opened CapCascade
  import opened Reachability

  const CAP_BASE := 40

  ghost predicate IndexSound(data: State) {
    forall p :: KidsStored(data, p)
  }

  lemma IndexSoundAfterMark(data: State, ids: set<Bytes>, s: TokenStatus)
    requires IndexSound(data)
    ensures IndexSound(Marked(data, ids, s))
  {
    StoredAfterMarkAll(data, ids, s);
  }

  // ----- revoke

  ghost function RevokeSpec(data: State, sender: Bytes, id: Bytes): (State, Outcome) {
    if !IsToken(data, id) then (data, Fail(CAP_BASE))
    else if TokenAt(data, id).issuer != sender then (data, Fail(CAP_BASE + 2))
    else (Marked(data, {id} + Reach(data, id), Revoked), Ok(2000, []))
  }

  method Revoke(store: Store, sender: Bytes, id: Bytes) returns (r: Outcome)
    requires WellKeyed(store.data)
    modifies store`data
    ensures IndexSound(old(store.data)) ==> (store.data, r) == RevokeSpec(old(store.data), sender, id)
    ensures exists ids :: store.data == Marked(old(store.data), ids, Revoked)
    // Nobody but the issuer revokes: everyone else is refused and changes nothing.
    ensures !(IsToken(old(store.data), id) && TokenAt(old(store.data), id).issuer == sender) ==>
      r.Fail? && store.data == old(store.data)
    ensures IndexSound(old(store.data)) ==>
      (r.Ok? <==> IsToken(old(store.data), id) && TokenAt(old(store.data), id).issuer == sender)
  {
    hide Kids, Marked, Reach, White, KidsStored;
    ghost var data := store.data;
    assert data == Marked(data, {}, Revoked) by {
      MarkedNothing(data, Revoked);
    }
    var raw := store.Get(UtxoKey(id));
    if raw.None? || !raw.value.TokenV? {
      return Fail(CAP_BASE);
    }
    var utxo := raw.value.token;
    if utxo.issuer != sender {
      return Fail(CAP_BASE + 2);
    }
    utxo := utxo.(status := Revoked);
    SaveMarks(data, id, Revoked);
    MarkedWellKeyed(data, {id}, Revoked);
    store.Set(UtxoKey(utxo.id), TokenV(utxo));
    var affected, failed;
    ghost var painted;
    affected, failed, painted := Cascade(store, utxo.id, Revoked);
    MarkedTwice(data, {id}, painted, Revoked);
    assert store.data == Marked(data, {id} + painted, Revoked);
    if failed {
      assert !IndexSound(data) by {
        if IndexSound(data) {
          IndexSoundAfterMark(data, {id}, Revoked);
        }
      }
      return Fail(CAP_BASE);
    }
    RevokedSet(data, id, Revoked);
    r := Ok(2000, []);
  }

  lemma RevokedSet(data: State, id: Bytes, s: TokenStatus)
    requires s != Unspent
    ensures {id} + Reach(Marked(data, {id}, s), id) == {id} + Reach(data, id)
  {
    WhiteMarked(data, {id}, s);
    ReachWithoutSelf(Derived(data.Keys), White(data), id);
  }

  /** White-path theorem: after a successful revocation a token differs from before exactly when it
      is the revoked one or a path of formerly UNSPENT tokens leads to it from there; such a token
      only changed its status, to REVOKED. */
  lemma RevokeWhitePath(data: State, sender: Bytes, id: Bytes, x: Bytes)
    requires IsToken(data, id) && TokenAt(data, id).issuer == sender && IsToken(data, x)
    ensures var d := RevokeSpec(data, sender, id).0;
      && d.Keys == data.Keys && IsToken(d, x)
      && TokenAt(d, x) ==
        (if x == id || (IsWhite(data, x) && Reaches(Derived(data.Keys), White(data), id, x))
         then TokenAt(data, x).(status := Revoked) else TokenAt(data, x))
  {
    hide Marked, Kids;
    MarkedToken(data, {id} + Reach(data, id), Revoked, x);
    WhiteIff(data, x);
  }

  // ----- the expiry sweep

  predicate IsDue(t: Token, now: int) {
    t.status == Unspent && t.expiresAt != 0 && t.expiresAt <= now
  }

  ghost function Due(data: State, now: int): set<Bytes> {
    set id | id in White(data) && IsToken(data, id) && IsDue(TokenAt(data, id), now)
  }

  /** The tokens a sweep expires: the due ones and what white paths lead to from them. */
  ghost function Expiring(data: State, now: int): set<Bytes> {
    ReachFrom(Derived(data.Keys), White(data), Due(data, now))
  }

  ghost function SweepSpec(data: State, now: int): State {
    Marked(data, Expiring(data, now), Expired)
  }

  ghost function ExpiryEvents(ids: seq<Bytes>): (r: seq<Event>)
    ensures |r| == |ids| && forall i :: 0 <= i < |r| ==> r[i] == Event(CapabilityExpired, ids[i])
  {
    seq(|ids|, i requires 0 <= i < |ids| => Event(CapabilityExpired, ids[i]))
  }

  ghost function SweepEvents(data: State, now: int): seq<Event> {
    ExpiryEvents(SortedKeys(Due(data, now)))
  }

  /** The due ids among the first i candidates. */
  ghost function DueBefore(data: State, now: int, cs: seq<KV<Value>>, i: nat): set<Bytes>
    requires i <= |cs|
  {
    set j | 0 <= j < i && cs[j].value.TokenV? && IsDue(cs[j].value.token, now) :: cs[j].value.token.id
  }

  lemma CandidatesInOrder(data: State, cs: seq<KV<Value>>)
    requires WellKeyed(data) && cs == Scan(data, Prefix(CapUtxo))
    ensures forall i :: 0 <= i < |cs| && cs[i].value.TokenV? ==>
      IsToken(data, cs[i].value.token.id) && TokenAt(data, cs[i].value.token.id) == cs[i].value.token
    ensures forall i, j :: 0 <= i < j < |cs| && cs[i].value.TokenV? && cs[j].value.TokenV? ==>
      LexLess(cs[i].value.token.id, cs[j].value.token.id)
    ensures forall id :: IsToken(data, id) ==> exists i :: 0 <= i < |cs| && cs[i].value == data[UtxoKey(id)]
  {
    ScanMembers(data, Prefix(CapUtxo));
    forall i | 0 <= i < |cs| && cs[i].value.TokenV?
      ensures cs[i].key == UtxoKey(cs[i].value.token.id)
    {
      KeyOfRest(CapUtxo, cs[i].key);
      assert IsToken(data, Rest(CapUtxo, cs[i].key));
    }
    forall i, j | 0 <= i < j < |cs| && cs[i].value.TokenV? && cs[j].value.TokenV?
      ensures LexLess(cs[i].value.token.id, cs[j].value.token.id)
    {
      assert LexLess(KeysOf(cs)[i], KeysOf(cs)[j]);
      LexCommonPrefix(Prefix(CapUtxo), cs[i].value.token.id, cs[j].value.token.id);
    }
  }

  /** What the sweep knows after i candidates: m is painted, the events name the due ones so far. */
  ghost predicate Swept(data: State, now: int, cs: seq<KV<Value>>, i: nat, m: set<Bytes>, ids: seq<Bytes>) {
    && i <= |cs|
    && m <= Expiring(data, now)
    && Closed(Derived(data.Keys), White(data), m)
    && DueBefore(data, now, cs, i) <= m
    && Ascending(ids) && Elements(ids) == DueBefore(data, now, cs, i)
  }

  /** What a sweep makes of the stored tokens, told on the records: every UNSPENT token with a nonzero
      expiry at or before now expires, each with an event; nothing else happens to any token except that
      an UNSPENT one may expire with an ancestor. */
  ghost predicate TokensSwept(data: State, d: State, out: seq<Event>, now: int) {
    && (forall id :: IsToken(d, id) <==> IsToken(data, id))
    && (forall id :: IsToken(data, id) ==> SweptTo(TokenAt(data, id), TokenAt(d, id), now))
    && (forall id :: Event(CapabilityExpired, id) in out <==>
          IsToken(data, id) && TokenAt(data, id).status == Unspent && TokenAt(data, id).expiresAt != 0 &&
          TokenAt(data, id).expiresAt <= now)
  }

  predicate SweptTo(t: Token, u: Token, now: int) {
    if t.status == Unspent && t.expiresAt != 0 && t.expiresAt <= now then u == t.(status := Expired)
    else u == t || (t.status == Unspent && u == t.(status := Expired))
  }

  lemma DueExpire(data: State, now: int, id: Bytes)
    ensures id in Due(data, now) <==> IsToken(data, id) && IsDue(TokenAt(data, id), now)
    ensures id in Due(data, now) ==> id in Expiring(data, now)
    ensures id in Expiring(data, now) ==> IsWhite(data, id)
  {
    WhiteIff(data, id);
  }

  lemma SweepTold(data: State, now: int)
    ensures TokensSwept(data, SweepSpec(data, now), SweepEvents(data, now), now)
  {
    hide Marked, Expiring, Due, SortedKeys;
    var due := SortedKeys(Due(data, now));
    forall id ensures IsToken(SweepSpec(data, now), id) <==> IsToken(data, id)
      ensures IsToken(data, id) ==> SweptTo(TokenAt(data, id), TokenAt(SweepSpec(data, now), id), now)
      ensures Event(CapabilityExpired, id) in SweepEvents(data, now) <==> IsToken(data, id) && IsDue(TokenAt(data, id), now)
    {
      MarkedToken(data, Expiring(data, now), Expired, id);
      DueExpire(data, now, id);
      assert id in Elements(due) <==> id in Due(data, now);
      if id in Due(data, now) {
        var i :| 0 <= i < |due| && due[i] == id;
        assert SweepEvents(data, now)[i] == Event(CapabilityExpired, id);
      }
    }
  }

  method ExpireAtTime(store: Store, now: int) returns (events: seq<Event>, failed: bool)
    requires WellKeyed(store.data)
    modifies store`data
    ensures IndexSound(old(store.data)) ==>
      !failed && store.data == SweepSpec(old(store.data), now) && events == SweepEvents(old(store.data), now)
    ensures IndexSound(old(store.data)) ==> TokensSwept(old(store.data), store.data, events, now)
    ensures exists ids :: ids <= Expiring(old(store.data), now) && store.data == Marked(old(store.data), ids, Expired)
  {
    hide Kids, Marked, Reach, White, KidsStored, Scan, ReachFrom, DueBefore, Prefix, ExpiryEvents,
         Closed, Ascending, Elements, SortedKeys, Derived, TokensSwept;
    ghost var data := store.data;
    ghost var painted: set<Bytes> := {};
    ghost var ids: seq<Bytes> := [];
    var candidates := store.IteratePrefix(Prefix(CapUtxo));
    CandidatesInOrder(data, candidates);
    SweepStart(data, now, candidates);
    events := [];
    failed := false;
    var i := 0;
    while i < |candidates|
      invariant 0 <= i <= |candidates|
      invariant store.data == Marked(data, painted, Expired)
      invariant Swept(data, now, candidates, i, painted, ids)
      invariant events == ExpiryEvents(ids)
    {
      if !candidates[i].value.TokenV? {
        SweepSkip(data, now, candidates, i, painted, ids);
        i := i + 1;
        continue;
      }
      var utxo := candidates[i].value.token;
      if utxo.status != Unspent || utxo.expiresAt == 0 || utxo.expiresAt > now {
        SweepSkip(data, now, candidates, i, painted, ids);
        i := i + 1;
        continue;
      }
      utxo := utxo.(status := Expired);
      StaleSaveMarks(data, painted, utxo.id, Expired);
      store.Set(UtxoKey(utxo.id), TokenV(utxo));
      SweepPaint(data, now, candidates, i, painted, ids);
      var affected, cascadeFailed;
      ghost var below;
      affected, cascadeFailed, below := Cascade(store, utxo.id, Expired);
      MarkedTwice(data, painted + {utxo.id}, below, Expired);
      if cascadeFailed {
        assert !IndexSound(data) by {
          if IndexSound(data) {
            IndexSoundAfterMark(data, painted + {utxo.id}, Expired);
          }
        }
        return [], true;
      }
      ExpiryEventsNext(ids, utxo.id);
      events := events + [Event(CapabilityExpired, utxo.id)];
      painted := painted + {utxo.id} + below;
      ids := ids + [utxo.id];
      i := i + 1;
    }
    SweepDone(data, now, candidates, painted, ids);
    SweepTold(data, now);
  }

  lemma ExpiryEventsNext(ids: seq<Bytes>, id: Bytes)
    ensures ExpiryEvents(ids + [id]) == ExpiryEvents(ids) + [Event(CapabilityExpired, id)]
  {
  }

  lemma SweepStart(data: State, now: int, cs: seq<KV<Value>>)
    ensures Marked(data, {}, Expired) == data && Swept(data, now, cs, 0, {}, [])
  {
  }

  lemma DueBeforeNext(data: State, now: int, cs: seq<KV<Value>>, i: nat)
    requires i < |cs|
    ensures DueBefore(data, now, cs, i + 1) == DueBefore(data, now, cs, i) +
      (if cs[i].value.TokenV? && IsDue(cs[i].value.token, now) then {cs[i].value.token.id} else {})
  {
  }

  lemma SweepSkip(data: State, now: int, cs: seq<KV<Value>>, i: nat, m: set<Bytes>, ids: seq<Bytes>)
    requires i < |cs| && Swept(data, now, cs, i, m, ids)
    requires !cs[i].value.TokenV? || !IsDue(cs[i].value.token, now)
    ensures Swept(data, now, cs, i + 1, m, ids)
  {
    DueBeforeNext(data, now, cs, i);
  }

  /** Saving the stale record of an expired token does not undo any change an earlier cascade made. */
  lemma StaleSaveMarks(data: State, m: set<Bytes>, id: Bytes, s: TokenStatus)
    requires s != Unspent && WellKeyed(data) && IsToken(data, id)
    ensures Marked(data, m, s)[UtxoKey(id) := TokenV(TokenAt(data, id).(status := s))] == Marked(data, m + {id}, s)
    ensures WellKeyed(Marked(data, m + {id}, s))
  {
    MarkedToken(data, m, s, id);
    SaveMarks(Marked(data, m, s), id, s);
    MarkedTwice(data, m, {id}, s);
    MarkedWellKeyed(data, m + {id}, s);
  }

  lemma CandidateIsDue(data: State, now: int, cs: seq<KV<Value>>, i: nat)
    requires WellKeyed(data) && cs == Scan(data, Prefix(CapUtxo)) && i < |cs|
    requires cs[i].value.TokenV? && IsDue(cs[i].value.token, now)
    ensures cs[i].value.token.id in Due(data, now)
    ensures forall x :: x in DueBefore(data, now, cs, i) ==> LexLess(x, cs[i].value.token.id)
  {
    hide Kids, Prefix, Scan;
    CandidatesInOrder(data, cs);
    WhiteIff(data, cs[i].value.token.id);
  }

  lemma AscendingAppend(ids: seq<Bytes>, d: Bytes)
    requires Ascending(ids) && forall x :: x in Elements(ids) ==> LexLess(x, d)
    ensures Ascending(ids + [d]) && Elements(ids + [d]) == Elements(ids) + {d}
  {
  }

  lemma PaintDue(data: State, now: int, m: set<Bytes>, d: Bytes)
    requires m <= Expiring(data, now) && Closed(Derived(data.Keys), White(data), m) && d in Due(data, now)
    ensures var all := m + {d} + Reach(Marked(data, m + {d}, Expired), d);
      all <= Expiring(data, now) && Closed(Derived(data.Keys), White(data), all)
  {
    hide Kids, Marked, White, Due;
    WhiteMarked(data, m + {d}, Expired);
    PaintFrom(Derived(data.Keys), White(data), m, d);
  }

  lemma SweepPaint(data: State, now: int, cs: seq<KV<Value>>, i: nat, m: set<Bytes>, ids: seq<Bytes>)
    requires WellKeyed(data) && cs == Scan(data, Prefix(CapUtxo))
    requires i < |cs| && Swept(data, now, cs, i, m, ids)
    requires cs[i].value.TokenV? && IsDue(cs[i].value.token, now)
    ensures var d := cs[i].value.token.id;
      Swept(data, now, cs, i + 1, m + {d} + Reach(Marked(data, m + {d}, Expired), d), ids + [d])
  {
    hide Kids, Marked, Prefix, Scan, White, Reach, ReachFrom, Closed, DueBefore, Ascending;
    var d := cs[i].value.token.id;
    CandidateIsDue(data, now, cs, i);
    PaintDue(data, now, m, d);
    DueBeforeNext(data, now, cs, i);
    AscendingAppend(ids, d);
  }

  lemma DueAll(data: State, now: int, cs: seq<KV<Value>>)
    requires WellKeyed(data) && cs == Scan(data, Prefix(CapUtxo))
    ensures DueBefore(data, now, cs, |cs|) == Due(data, now)
  {
    hide Kids, Prefix, Scan, White;
    CandidatesInOrder(data, cs);
    WhiteIffAll(data);
    forall id | id in Due(data, now) ensures id in DueBefore(data, now, cs, |cs|) {
      var i :| 0 <= i < |cs| && cs[i].value == data[UtxoKey(id)];
      assert cs[i].value.token.id == id;
    }
  }

  lemma SweepDone(data: State, now: int, cs: seq<KV<Value>>, m: set<Bytes>, ids: seq<Bytes>)
    requires WellKeyed(data) && cs == Scan(data, Prefix(CapUtxo))
    requires Swept(data, now, cs, |cs|, m, ids)
    ensures m == Expiring(data, now) && ids == SortedKeys(Due(data, now))
  {
    hide Kids, Prefix, Scan, White, ReachFrom, Due, DueBefore;
    DueAll(data, now, cs);
    ClosedHoldsReachFrom(Derived(data.Keys), White(data), Due(data, now), m);
    AscendingUnique(ids, SortedKeys(Due(data, now)));
  }
}
