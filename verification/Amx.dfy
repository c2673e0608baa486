/** Matching a service request to a listing: filtering, rational scores, and the choice of the best. */
module Amx {
  import opened ByteStrings
  import opened Codec
  import opened Sorting
  import opened Keys
  import opened Engine
  import opened Records
  import opened MoneyMath

  const AMX_BASE := 10

  datatype Request = Request(caps: seq<Bytes>, currency: Bytes, budget: Price, deadline: int)

  function ListingKey(id: Bytes): Bytes { Key(AmxListing, id) }

  predicate IsListing(data: State, id: Bytes) { ListingKey(id) in data && data[ListingKey(id)].ListingV? }

  function ListingAt(data: State, id: Bytes): Listing
    requires IsListing(data, id)
  {
    data[ListingKey(id)].listing
  }

  /** Every listing is filed under its own id, as every handler that saves one does. */
  ghost predicate ListingsKeyed(data: State) {
    forall id :: IsListing(data, id) ==> ListingAt(data, id).id == id
  }

  lemma SaveKeepsKeyed(data: State, l: Listing)
    requires ListingsKeyed(data)
    ensures ListingsKeyed(data[ListingKey(l.id) := ListingV(l)])
  {
    hide Prefix;
    var d := data[ListingKey(l.id) := ListingV(l)];
    forall id | IsListing(d, id) ensures ListingAt(d, id).id == id {
      if ListingKey(id) == ListingKey(l.id) {
        KeyInjective(AmxListing, id, AmxListing, l.id);
      } else {
        assert IsListing(data, id);
      }
    }
  }

  // ----- eligibility

  function Upper(b: Bytes): Bytes {
    seq(|b|, i requires 0 <= i < |b| => if 97 <= b[i] <= 122 then b[i] - 32 else b[i])
  }

  predicate ExceedsBudget(price: Price, budget: Price) {
    price.Malformed? || budget.Malformed? || price.value > budget.value
  }

  predicate CapsContain(caps: seq<Bytes>, required: seq<Bytes>) {
    forall i :: 0 <= i < |required| ==> required[i] in caps
  }

  /** Active, in the request's currency, capable and affordable. */
  predicate Eligible(l: Listing, r: Request) {
    && l.status == ListingActive && Upper(l.currency) == Upper(r.currency)
    && CapsContain(l.caps, r.caps) && !ExceedsBudget(l.price, r.budget)
  }

  /** The same, told on the records: a listing serves a request when it is active, in its currency, offers
      every capability it requires, and both prices are numbers with the listing's within the budget. */
  predicate Serves(l: Listing, r: Request) {
    && l.status == ListingActive && Upper(l.currency) == Upper(r.currency) && (forall c :: c in r.caps ==> c in l.caps)
    && l.price.Rational? && r.budget.Rational? && l.price.value <= r.budget.value
  }

  lemma EligibleServes(l: Listing, r: Request)
    ensures Eligible(l, r) <==> Serves(l, r)
  {
  }

  method CheckCaps(caps: seq<Bytes>, required: seq<Bytes>) returns (ok: bool)
    ensures ok <==> CapsContain(caps, required)
  {
    var has: set<Bytes> := {};
    for i := 0 to |caps|
      invariant forall x :: x in has <==> x in caps[..i]
    {
      assert caps[..i + 1] == caps[..i] + [caps[i]];
      has := has + {caps[i]};
    }
    assert caps[..|caps|] == caps;
    for i := 0 to |required|
      invariant forall j :: 0 <= j < i ==> required[j] in caps
    {
      if required[i] !in has {
        return false;
      }
    }
    ok := true;
  }

  // ----- scores

  function PriceOf(l: Listing): real { if l.price.Rational? then l.price.value else 0.0 }

  const EPSILON: real := 0.000001

  /** The price score before it is clamped to [0, 1]. */
  function RawPriceScore(price: real, lo: real, hi: real): real
    requires lo <= hi
  {
    1.0 - (price - lo) / (hi - lo + EPSILON)
  }

  function PriceScore(price: real, lo: real, hi: real): real
    requires lo <= hi
  {
    var s := RawPriceScore(price, lo, hi);
    if s < 0.0 then 0.0 else if s > 1.0 then 1.0 else s
  }

  function CapScore(n: nat): real { n as real / (n + 1) as real }

  function Score(l: Listing, lo: real, hi: real): real
    requires lo <= hi
  {
    0.3 * PriceScore(PriceOf(l), lo, hi) + 0.3 * 0.7 + 0.2 * 0.8 + 0.2 * CapScore(|l.caps|)
  }

  /** For a price between the extremes both clamps are unreachable. */
  lemma ClampsUnreachable(price: real, lo: real, hi: real)
    requires lo <= price <= hi
    ensures 0.0 < RawPriceScore(price, lo, hi) <= 1.0
    ensures PriceScore(price, lo, hi) == RawPriceScore(price, lo, hi)
  {
  }

  lemma CheaperScoresHigher(p: real, q: real, lo: real, hi: real)
    requires lo <= p <= hi && lo <= q <= hi
    ensures p < q <==> PriceScore(p, lo, hi) > PriceScore(q, lo, hi)
  {
  }

  lemma MoreCapsScoreHigher(m: nat, n: nat)
    requires m < n
    ensures CapScore(m) < CapScore(n)
  {
  }

  // ----- the best candidate

  /** Higher score, or the smaller id at equal scores. */
  predicate Beats(a: Listing, b: Listing, lo: real, hi: real)
    requires lo <= hi
  {
    Score(a, lo, hi) > Score(b, lo, hi) || (Score(a, lo, hi) == Score(b, lo, hi) && LexLess(a.id, b.id))
  }

  ghost predicate Extremes(cand: seq<Listing>, lo: real, hi: real) {
    && (exists i :: 0 <= i < |cand| && PriceOf(cand[i]) == lo)
    && (exists i :: 0 <= i < |cand| && PriceOf(cand[i]) == hi)
    && (forall i :: 0 <= i < |cand| ==> lo <= PriceOf(cand[i]) <= hi)
  }

  method MinMaxPrice(cand: seq<Listing>) returns (lo: real, hi: real)
    requires cand != []
    ensures Extremes(cand, lo, hi)
  {
    lo, hi := 0.0, 0.0;
    var i := 0;
    while i < |cand|
      invariant 0 <= i <= |cand|
      invariant i > 0 ==> Extremes(cand[..i], lo, hi)
    {
      var p := PriceOf(cand[i]);
      ExtremesNext(cand, i, lo, hi);
      if i == 0 || p < lo {
        lo := p;
      }
      if i == 0 || p > hi {
        hi := p;
      }
      i := i + 1;
    }
    assert cand[..i] == cand;
  }

  lemma ExtremesNext(cand: seq<Listing>, i: nat, lo: real, hi: real)
    requires i < |cand| && (i > 0 ==> Extremes(cand[..i], lo, hi))
    ensures var p := PriceOf(cand[i]);
      Extremes(cand[..i + 1], if i == 0 || p < lo then p else lo, if i == 0 || p > hi then p else hi)
  {
  }

  lemma BeatsStrictWeak(lo: real, hi: real)
    requires lo <= hi
    ensures StrictWeak((a: Listing, b: Listing) => lo <= hi && Beats(a, b, lo, hi))
  {
    hide Score;
    forall a: Listing, b: Listing | Beats(a, b, lo, hi) ensures !Beats(b, a, lo, hi) {
      if LexLess(a.id, b.id) {
        LexAsymmetric(a.id, b.id);
      }
    }
    forall a: Listing, b: Listing, c: Listing | !Beats(b, a, lo, hi) && !Beats(c, b, lo, hi)
      ensures !Beats(c, a, lo, hi)
    {
      LexNegTransitive(a.id, b.id, c.id);
    }
  }

  lemma LexNegTransitive(a: Bytes, b: Bytes, c: Bytes)
    ensures !LexLess(b, a) && !LexLess(c, b) ==> !LexLess(c, a)
  {
    LexTrichotomy(a, b);
    if LexLess(c, a) && LexLess(a, b) {
      LexTransitive(c, a, b);
    }
  }

  ghost predicate IsBest(cand: seq<Listing>, best: Listing) {
    && best in cand
    && exists lo, hi :: Extremes(cand, lo, hi) && BeatsAll(cand, best, lo, hi)
  }

  ghost predicate BeatsAll(cand: seq<Listing>, best: Listing, lo: real, hi: real) {
    lo <= hi && forall i :: 0 <= i < |cand| && cand[i].id != best.id ==> Beats(best, cand[i], lo, hi)
  }

  /** Scores all candidates and sorts them. */
  method PickBest(cand: seq<Listing>) returns (best: Listing)
    requires cand != []
    ensures IsBest(cand, best)
  {
    var lo, hi := MinMaxPrice(cand);
    BeatsStrictWeak(lo, hi);
    var ranked := Sort(cand, (a: Listing, b: Listing) => lo <= hi && Beats(a, b, lo, hi));
    MultisetElements(ranked, cand);
    best := ranked[0];
    assert best in ranked;
    forall i | 0 <= i < |cand| && cand[i].id != best.id ensures Beats(best, cand[i], lo, hi) {
      hide Score;
      assert cand[i] in ranked;
      var j :| 0 <= j < |ranked| && ranked[j] == cand[i];
      assert !Beats(ranked[j], ranked[0], lo, hi);
      LexTrichotomy(best.id, cand[i].id);
    }
  }

  /** Two lists of the same candidates with distinct ids have the same best one, whatever their order. */
  lemma BestUnique(a: seq<Listing>, b: seq<Listing>, x: Listing, y: Listing)
    requires forall l :: l in a <==> l in b
    requires forall l, m :: l in a && m in a && l.id == m.id ==> l == m
    requires IsBest(a, x) && IsBest(b, y)
    ensures x == y
  {
    hide Score;
    var lo, hi :| Extremes(a, lo, hi) && BeatsAll(a, x, lo, hi);
    var lo', hi' :| Extremes(b, lo', hi') && BeatsAll(b, y, lo', hi');
    SameExtremes(a, b, lo, hi, lo', hi');
    if x.id != y.id {
      assert y in a && x in b;
      var i :| 0 <= i < |a| && a[i] == y;
      var j :| 0 <= j < |b| && b[j] == x;
      assert Beats(x, a[i], lo, hi) && Beats(y, b[j], lo, hi);
      BeatsBothWays(x, y, lo, hi);
    }
  }

  lemma BeatsBothWays(x: Listing, y: Listing, lo: real, hi: real)
    requires lo <= hi
    ensures !(Beats(x, y, lo, hi) && Beats(y, x, lo, hi))
  {
    hide Score;
    if LexLess(x.id, y.id) {
      LexAsymmetric(x.id, y.id);
    }
  }

  lemma SameExtremes(a: seq<Listing>, b: seq<Listing>, lo: real, hi: real, lo': real, hi': real)
    requires forall l :: l in a <==> l in b
    requires Extremes(a, lo, hi) && Extremes(b, lo', hi')
    ensures lo == lo' && hi == hi'
  {
    forall i | 0 <= i < |a| ensures lo' <= PriceOf(a[i]) <= hi' {
      assert a[i] in b;
    }
    forall i | 0 <= i < |b| ensures lo <= PriceOf(b[i]) <= hi {
      assert b[i] in a;
    }
  }

  /** The best candidate is Pareto-optimal: no other one is at most as expensive and at least as
      capable with one of the two strict. */
  lemma BestIsPareto(cand: seq<Listing>, best: Listing, other: Listing)
    requires IsBest(cand, best) && other in cand && other.id != best.id
    ensures !(PriceOf(other) <= PriceOf(best) && |other.caps| >= |best.caps| &&
              (PriceOf(other) < PriceOf(best) || |other.caps| > |best.caps|))
  {
    var lo, hi :| Extremes(cand, lo, hi) && BeatsAll(cand, best, lo, hi);
    var i :| 0 <= i < |cand| && cand[i] == other;
    var j :| 0 <= j < |cand| && cand[j] == best;
    assert Beats(best, cand[i], lo, hi);
    hide PriceScore, CapScore;
    CheaperScoresHigher(PriceOf(other), PriceOf(best), lo, hi);
    CheaperScoresHigher(PriceOf(best), PriceOf(other), lo, hi);
    if |best.caps| < |other.caps| {
      MoreCapsScoreHigher(|best.caps|, |other.caps|);
    }
  }

  /** The exact trade of price against capabilities: with r the price range plus a millionth, a outranks b
      when three tenths of its price advantage over r outweigh a fifth of its lag in n / (n + 1). */
  lemma ScoreTradeOff(a: Listing, b: Listing, lo: real, hi: real)
    requires lo <= PriceOf(a) <= hi && lo <= PriceOf(b) <= hi
    ensures Score(a, lo, hi) - Score(b, lo, hi) ==
      0.3 * ((PriceOf(b) - PriceOf(a)) / (hi - lo + 0.000001)) +
      0.2 * (1.0 / (|b.caps| + 1) as real - 1.0 / (|a.caps| + 1) as real)
  {
    ClampsUnreachable(PriceOf(a), lo, hi);
    ClampsUnreachable(PriceOf(b), lo, hi);
    Difference(PriceOf(b) - lo, PriceOf(a) - lo, hi - lo + EPSILON);
    CapsLag(|a.caps|);
    CapsLag(|b.caps|);
  }

  lemma Difference(x: real, y: real, r: real)
    requires r > 0.0
    ensures x / r - y / r == (x - y) / r
  {
  }

  lemma CapsLag(n: nat)
    ensures CapScore(n) == 1.0 - 1.0 / (n + 1) as real
  {
    assert n as real == (n + 1) as real - 1.0;
  }

  // ----- the handler

  /** The eligible listings in a state, in key order. */
  ghost function Candidates(kvs: seq<KV<Value>>, r: Request): seq<Listing> {
    if kvs == [] then []
    else
      var last := kvs[|kvs| - 1].value;
      Candidates(kvs[..|kvs| - 1], r) + (if last.ListingV? && Eligible(last.listing, r) then [last.listing] else [])
  }

  ghost function CandidatesOf(data: State, r: Request): seq<Listing> {
    Candidates(Scan(data, Prefix(AmxListing)), r)
  }

  lemma {:induction false} CandidatesMembers(kvs: seq<KV<Value>>, r: Request, l: Listing)
    ensures l in Candidates(kvs, r) <==> Eligible(l, r) && exists i :: 0 <= i < |kvs| && kvs[i].value == ListingV(l)
  {
    if kvs != [] {
      var rest := kvs[..|kvs| - 1];
      CandidatesMembers(rest, r, l);
      if l in Candidates(rest, r) {
        var i :| 0 <= i < |rest| && rest[i].value == ListingV(l);
        assert kvs[i].value == ListingV(l);
      }
      forall i | 0 <= i < |kvs| && kvs[i].value == ListingV(l) && Eligible(l, r) ensures l in Candidates(kvs, r) {
        assert i < |rest| ==> rest[i] == kvs[i];
      }
    }
  }

  /** The candidates are exactly the stored eligible listings, told apart by their ids. */
  lemma CandidatesExact(data: State, r: Request, l: Listing)
    requires ListingsKeyed(data)
    ensures l in CandidatesOf(data, r) <==> IsListing(data, l.id) && ListingAt(data, l.id) == l && Eligible(l, r)
  {
    hide Prefix, Eligible;
    var kvs := Scan(data, Prefix(AmxListing));
    CandidatesMembers(kvs, r, l);
    ScanMembers(data, Prefix(AmxListing));
    if l in CandidatesOf(data, r) {
      var i :| 0 <= i < |kvs| && kvs[i].value == ListingV(l);
      KeyOfRest(AmxListing, kvs[i].key);
      assert IsListing(data, Rest(AmxListing, kvs[i].key));
    }
    if IsListing(data, l.id) && ListingAt(data, l.id) == l && Eligible(l, r) {
      var i :| 0 <= i < |kvs| && kvs[i].key == ListingKey(l.id);
    }
  }

  function OrderKey(id: Bytes): Bytes { Key(AmxOrder, id) }

  function FailedOrder(ctx: Ctx, sender: Bytes, nonce: nat): Order {
    Order(ctx.digest(sender + Decimal(nonce) + Ascii("failed")), [], sender, [], 0.0, 0.0, [], OrderFailed, ctx.now, ctx.now)
  }

  function MatchedOrder(ctx: Ctx, sender: Bytes, nonce: nat, best: Listing): Order {
    var id := ctx.digest(sender + Decimal(nonce) + best.id);
    Order(id, best.id, sender, best.provider, PriceOf(best), Round8(BpsOf(PriceOf(best), 1200)),
          ctx.digest(id + Ascii("escrow")), OrderMatched, ctx.now, ctx.now)
  }

  /** Refuses a late request; otherwise records an order for the best eligible listing, or a failed
      order when there is none. */
  method SubmitRequest(store: Store, ctx: Ctx, sender: Bytes, nonce: nat, r: Request) returns (o: Outcome, ghost chosen: Option<Listing>)
    modifies store`data
    ensures r.deadline > 0 && ctx.now > r.deadline ==> o == Fail(AMX_BASE + 12) && store.data == old(store.data)
    ensures !(r.deadline > 0 && ctx.now > r.deadline) ==>
      (match chosen
       case None =>
         CandidatesOf(old(store.data), r) == [] &&
         var ord := FailedOrder(ctx, sender, nonce);
         store.data == old(store.data)[OrderKey(ord.id) := OrderV(ord)] && o == Ok(8000, [Event(OrderFailedEvent, ord.id)])
       case Some(best) =>
         IsBest(CandidatesOf(old(store.data), r), best) &&
         var ord := MatchedOrder(ctx, sender, nonce, best);
         store.data == old(store.data)[OrderKey(ord.id) := OrderV(ord)] && o == Ok(8000, [Event(OrderMatchedEvent, ord.id)]))
    // Told on the stored listings: one is chosen exactly when one serves the request, and it serves it.
    ensures ListingsKeyed(old(store.data)) && !(r.deadline > 0 && ctx.now > r.deadline) ==>
      (match chosen
       case None => forall id :: IsListing(old(store.data), id) ==> !Serves(ListingAt(old(store.data), id), r)
       case Some(best) =>
         IsListing(old(store.data), best.id) && ListingAt(old(store.data), best.id) == best && Serves(best, r))
  {
    hide Prefix, IsBest, Scan, Upper, Serves, ListingsKeyed, FailedOrder, MatchedOrder;
    chosen := None;
    if r.deadline > 0 && ctx.now > r.deadline {
      return Fail(AMX_BASE + 12), chosen;
    }
    var listings := store.IteratePrefix(Prefix(AmxListing));
    var cand: seq<Listing> := [];
    var i := 0;
    while i < |listings|
      invariant 0 <= i <= |listings|
      invariant cand == Candidates(listings[..i], r)
      invariant store.data == old(store.data)
    {
      assert listings[..i + 1][..i] == listings[..i];
      if listings[i].value.ListingV? {
        var l := listings[i].value.listing;
        var capable := CheckCaps(l.caps, r.caps);
        if l.status == ListingActive && Upper(l.currency) == Upper(r.currency) && capable && !ExceedsBudget(l.price, r.budget) {
          cand := cand + [l];
        }
      }
      i := i + 1;
    }
    assert listings[..i] == listings;
    if |cand| == 0 {
      var failed := FailedOrder(ctx, sender, nonce);
      store.Set(OrderKey(failed.id), OrderV(failed));
      if ListingsKeyed(old(store.data)) {
        NoneServes(old(store.data), r);
      }
      return Ok(8000, [Event(OrderFailedEvent, failed.id)]), chosen;
    }
    var best := PickBest(cand);
    chosen := Some(best);
    if ListingsKeyed(old(store.data)) {
      BestServes(old(store.data), r, best);
    }
    var order := MatchedOrder(ctx, sender, nonce, best);
    store.Set(OrderKey(order.id), OrderV(order));
    o := Ok(8000, [Event(OrderMatchedEvent, order.id)]);
  }

  lemma NoneServes(data: State, r: Request)
    requires ListingsKeyed(data) && CandidatesOf(data, r) == []
    ensures forall id :: IsListing(data, id) ==> !Serves(ListingAt(data, id), r)
  {
    hide Prefix, Eligible, Serves, Candidates;
    forall id | IsListing(data, id) ensures !Serves(ListingAt(data, id), r) {
      CandidatesExact(data, r, ListingAt(data, id));
      EligibleServes(ListingAt(data, id), r);
    }
  }

  lemma BestServes(data: State, r: Request, best: Listing)
    requires ListingsKeyed(data) && IsBest(CandidatesOf(data, r), best)
    ensures IsListing(data, best.id) && ListingAt(data, best.id) == best && Serves(best, r)
  {
    hide Prefix, Eligible, Serves, Candidates;
    CandidatesExact(data, r, best);
    EligibleServes(best, r);
  }

  /** The commission of a match is twelve percent of its price, rounded to eight digits. */
  lemma OrderCommission(ctx: Ctx, sender: Bytes, nonce: nat, best: Listing)
    ensures var ord := MatchedOrder(ctx, sender, nonce, best);
      && ord.price == PriceOf(best) && ord.provider == best.provider && ord.consumer == sender && ord.listingId == best.id
      && -0.000000005 <= ord.commission - 0.12 * ord.price <= 0.000000005
  {
    RoundError(0.12 * PriceOf(best));
    assert BpsOf(PriceOf(best), 1200) == 0.12 * PriceOf(best);
  }

  /** What a request chooses is stored, eligible, and better than every other eligible listing. */
  lemma ChosenIsOptimal(data: State, r: Request, best: Listing, id: Bytes)
    requires ListingsKeyed(data) && IsBest(CandidatesOf(data, r), best)
    requires IsListing(data, id) && Eligible(ListingAt(data, id), r) && id != best.id
    ensures IsListing(data, best.id) && ListingAt(data, best.id) == best && Eligible(best, r)
    ensures exists lo, hi :: lo <= hi && Extremes(CandidatesOf(data, r), lo, hi) && Beats(best, ListingAt(data, id), lo, hi)
  {
    hide Prefix, Eligible, Score;
    var cand := CandidatesOf(data, r);
    var l := ListingAt(data, id);
    CandidatesExact(data, r, best);
    CandidatesExact(data, r, l);
    var lo, hi :| Extremes(cand, lo, hi) && BeatsAll(cand, best, lo, hi);
    var i :| 0 <= i < |cand| && cand[i] == l;
    assert Beats(best, cand[i], lo, hi);
  }
}
