/** Arbitration votes: the one-pass plurality count over an unordered map, and its two callers. */
module Arb {
  import opened ByteStrings
  import opened Records

  const ARB_BASE := 60

  const TIE: Bytes := Ascii("tie")
  const CONSUMER: Bytes := Ascii("consumer")

  function Count(votes: seq<Bytes>, c: Bytes): nat { multiset(votes)[c] }

  /** c has strictly more votes than every other choice. */
  ghost predicate Plurality(votes: seq<Bytes>, c: Bytes) {
    c in votes && forall d :: d != c ==> Count(votes, d) < Count(votes, c)
  }

  ghost predicate IsTop(votes: seq<Bytes>, c: Bytes) {
    c in votes && forall d :: Count(votes, d) <= Count(votes, c)
  }

  /** Two choices share the top count. */
  ghost predicate Tied(votes: seq<Bytes>) {
    exists c, d :: c != d && IsTop(votes, c) && IsTop(votes, d)
  }

  ghost predicate IsVerdict(votes: seq<Bytes>, winner: Bytes) {
    if votes == [] then winner == []
    else if Tied(votes) then winner == TIE
    else Plurality(votes, winner)
  }

  /** There is one verdict, and it does not depend on the order of the votes. */
  lemma VerdictUnique(a: seq<Bytes>, b: seq<Bytes>, x: Bytes, y: Bytes)
    requires multiset(a) == multiset(b) && IsVerdict(a, x) && IsVerdict(b, y)
    ensures x == y
  {
    SameVotes(a, b);
    assert forall c :: IsTop(a, c) <==> IsTop(b, c);
    assert Tied(a) <==> Tied(b);
    if a != [] && !Tied(a) {
      assert Plurality(a, y);
      OnePlurality(a, x, y);
    }
  }

  lemma OnePlurality(votes: seq<Bytes>, c: Bytes, d: Bytes)
    requires Plurality(votes, c) && Plurality(votes, d)
    ensures c == d
  {
    assert c == d || Count(votes, d) < Count(votes, c);
    assert c == d || Count(votes, c) < Count(votes, d);
  }

  lemma SameVotes(a: seq<Bytes>, b: seq<Bytes>)
    requires multiset(a) == multiset(b)
    ensures a == [] <==> b == []
    ensures forall c :: c in a <==> c in b
    ensures forall c :: Count(a, c) == Count(b, c)
  {
    assert |multiset(a)| == |a| && |multiset(b)| == |b|;
    forall c ensures c in a <==> c in b {
      assert c in a <==> c in multiset(a);
      assert c in b <==> c in multiset(b);
    }
  }

  /** The word for a tie is returned exactly on a tie, or when that very word wins the plurality. */
  lemma TieWordMeans(votes: seq<Bytes>, winner: Bytes)
    requires IsVerdict(votes, winner)
    ensures winner == TIE <==> Tied(votes) || Plurality(votes, TIE)
  {
    if votes == [] {
      assert !Tied(votes);
      assert |TIE| == 3;
    } else if !Tied(votes) && Plurality(votes, TIE) {
      OnePlurality(votes, winner, TIE);
    }
  }

  /** A single ballot with that word is taken for a tie although one choice has all votes. */
  lemma TieWordCanWin()
    ensures IsVerdict([TIE], TIE) && !Tied([TIE]) && Plurality([TIE], TIE)
  {
  }

  /** What the scan over the counts knows after visiting some choices. */
  ghost predicate Scanned(counts: map<Bytes, nat>, seen: set<Bytes>, winner: Bytes, best: nat, tie: bool) {
    && seen <= counts.Keys
    && (seen == {} ==> winner == [] && best == 0 && !tie)
    && (seen != {} ==> winner in seen && counts[winner] == best)
    && (forall c :: c in seen ==> counts[c] <= best)
    && (tie <==> exists c :: c in seen && c != winner && counts[c] == best)
  }

  lemma ScanNext(counts: map<Bytes, nat>, seen: set<Bytes>, winner: Bytes, best: nat, tie: bool, c: Bytes)
    requires Scanned(counts, seen, winner, best, tie) && c in counts && c !in seen && counts[c] > 0
    ensures counts[c] > best ==> Scanned(counts, seen + {c}, c, counts[c], false)
    ensures counts[c] == best ==> Scanned(counts, seen + {c}, winner, best, true)
    ensures counts[c] < best ==> Scanned(counts, seen + {c}, winner, best, tie)
  {
  }

  ghost predicate Tallied(votes: seq<Bytes>, counts: map<Bytes, nat>) {
    && (forall c :: c in counts <==> c in votes)
    && (forall c :: c in counts ==> counts[c] == Count(votes, c))
  }

  lemma TallyNext(votes: seq<Bytes>, counts: map<Bytes, nat>, v: Bytes)
    requires Tallied(votes, counts)
    ensures Tallied(votes + [v], counts[v := (if v in counts then counts[v] else 0) + 1])
  {
  }

  method Tally(votes: seq<Bytes>) returns (counts: map<Bytes, nat>)
    ensures Tallied(votes, counts)
  {
    hide Tallied, Count;
    counts := map[];
    var i := 0;
    assert Tallied(votes[..0], counts) by {
      TalliedNone();
    }
    while i < |votes|
      invariant 0 <= i <= |votes|
      invariant Tallied(votes[..i], counts)
    {
      var v := votes[i];
      TallyNext(votes[..i], counts, v);
      assert votes[..i + 1] == votes[..i] + [v];
      counts := counts[v := (if v in counts then counts[v] else 0) + 1];
      i := i + 1;
    }
    assert votes[..i] == votes;
  }

  lemma TalliedNone()
    ensures Tallied([], map[])
  {
  }

  lemma TallyPositive(votes: seq<Bytes>, counts: map<Bytes, nat>, c: Bytes)
    requires Tallied(votes, counts) && c in counts
    ensures counts[c] > 0
  {
  }

  /** Counts the ballots, then scans the counts in an arbitrary order. */
  method MajorityVote(votes: seq<Bytes>) returns (winner: Bytes)
    ensures IsVerdict(votes, winner)
  {
    hide IsVerdict, Tallied, Scanned, Count;
    var counts := Tally(votes);
    winner := [];
    var best, tie := 0, false;
    var rest := counts.Keys;
    assert Scanned(counts, counts.Keys - rest, winner, best, tie) by {
      ScannedNone(counts);
      assert counts.Keys - rest == {};
    }
    while rest != {}
      invariant rest <= counts.Keys
      invariant Scanned(counts, counts.Keys - rest, winner, best, tie)
      decreases |rest|
    {
      var candidate :| candidate in rest;
      TallyPositive(votes, counts, candidate);
      ScanNext(counts, counts.Keys - rest, winner, best, tie, candidate);
      assert counts.Keys - (rest - {candidate}) == counts.Keys - rest + {candidate};
      rest := rest - {candidate};
      if counts[candidate] > best {
        winner, best, tie := candidate, counts[candidate], false;
      } else if counts[candidate] == best {
        tie := true;
      }
    }
    assert counts.Keys - rest == counts.Keys;
    ScanDone(votes, counts, winner, best, tie);
    if tie {
      winner := TIE;
    }
  }

  lemma ScannedNone(counts: map<Bytes, nat>)
    ensures Scanned(counts, {}, [], 0, false)
  {
  }

  lemma ScanDone(votes: seq<Bytes>, counts: map<Bytes, nat>, winner: Bytes, best: nat, tie: bool)
    requires Tallied(votes, counts)
    requires Scanned(counts, counts.Keys, winner, best, tie)
    ensures IsVerdict(votes, if tie then TIE else winner)
  {
    forall c | c !in votes ensures Count(votes, c) == 0 {
      assert c !in multiset(votes);
    }
    if votes == [] {
      assert counts.Keys == {};
    } else {
      assert votes[0] in counts;
      assert IsTop(votes, winner);
      if tie {
        var d :| d in counts && d != winner && counts[d] == best;
        assert IsTop(votes, d);
      } else {
        assert Plurality(votes, winner);
        assert !Tied(votes) by {
          if c, d :| c != d && IsTop(votes, c) && IsTop(votes, d) {
            OnlyTop(votes, winner, c);
            OnlyTop(votes, winner, d);
          }
        }
      }
    }
  }

  lemma OnlyTop(votes: seq<Bytes>, winner: Bytes, c: Bytes)
    requires Plurality(votes, winner) && IsTop(votes, c)
    ensures c == winner
  {
    assert Count(votes, winner) <= Count(votes, c);
  }

  // ----- the two callers

  datatype Phase = PhaseAuto | PhaseCommittee | PhaseFull

  datatype DisputeStatus = Filed | AutoResolved | CommitteeReview | CommitteeResolved | FullReview | FinalResolved

  class Dispute {
    var phase: Phase
    var status: DisputeStatus
    var verdict: Bytes
    var resolvedAt: int
    var members: seq<Bytes>
    var committeeVotes: seq<Bytes>
    var fullVotes: seq<Bytes>

    constructor (phase: Phase, status: DisputeStatus, verdict: Bytes, members: seq<Bytes>)
      ensures this.phase == phase && this.status == status && this.verdict == verdict && this.members == members
      ensures committeeVotes == [] && fullVotes == []
    {
      this.phase, this.status, this.verdict, this.members := phase, status, verdict, members;
      committeeVotes, fullVotes, resolvedAt := [], [], 0;
    }

    /** From the third ballot on: a clear plurality resolves the dispute, anything read as a tie sends
        it to the full vote. */
    method CommitteeVote(sender: Bytes, vote: Bytes) returns (o: Outcome)
      modifies this
      ensures members == old(members) && fullVotes == old(fullVotes) && resolvedAt == old(resolvedAt)
      ensures old(phase) != PhaseCommittee ==> o == Fail(ARB_BASE + 62)
      ensures old(phase) == PhaseCommittee && sender !in old(members) ==> o == Fail(ARB_BASE + 61)
      ensures o.Fail? ==> unchanged(this)
      ensures o.Ok? ==> o == Ok(1500, []) && committeeVotes == old(committeeVotes) + [vote]
      ensures o.Ok? && |committeeVotes| < 3 ==> phase == old(phase) && status == old(status) && verdict == old(verdict)
      ensures o.Ok? && |committeeVotes| >= 3 ==>
        if Tied(committeeVotes) || Plurality(committeeVotes, TIE)
        then phase == PhaseFull && status == FullReview && verdict == old(verdict)
        else phase == PhaseCommittee && status == CommitteeResolved && Plurality(committeeVotes, verdict)
    {
      if phase != PhaseCommittee {
        return Fail(ARB_BASE + 62);
      }
      if sender !in members {
        return Fail(ARB_BASE + 61);
      }
      committeeVotes := committeeVotes + [vote];
      if |committeeVotes| >= 3 {
        var winner := MajorityVote(committeeVotes);
        TieWordMeans(committeeVotes, winner);
        if winner == TIE {
          phase := PhaseFull;
          status := FullReview;
        } else {
          status := CommitteeResolved;
          verdict := winner;
        }
      }
      o := Ok(1500, []);
    }

    /** From the fifth ballot on the dispute is decided: for the plurality, or for the consumer. */
    method FullVote(vote: Bytes, now: int) returns (o: Outcome)
      modifies this
      ensures members == old(members) && committeeVotes == old(committeeVotes) && phase == old(phase)
      ensures old(phase) != PhaseFull ==> o == Fail(ARB_BASE + 62) && unchanged(this)
      ensures old(phase) == PhaseFull ==> o == Ok(1500, []) && fullVotes == old(fullVotes) + [vote]
      ensures o.Ok? && |fullVotes| < 5 ==> status == old(status) && verdict == old(verdict) && resolvedAt == old(resolvedAt)
      ensures o.Ok? && |fullVotes| >= 5 ==>
        status == FinalResolved && resolvedAt == now &&
        if Tied(fullVotes) || Plurality(fullVotes, TIE) then verdict == CONSUMER else Plurality(fullVotes, verdict)
    {
      if phase != PhaseFull {
        return Fail(ARB_BASE + 62);
      }
      fullVotes := fullVotes + [vote];
      if |fullVotes| >= 5 {
        var winner := MajorityVote(fullVotes);
        TieWordMeans(fullVotes, winner);
        if winner == TIE {
          winner := CONSUMER;
        }
        verdict := winner;
        status := FinalResolved;
        resolvedAt := now;
      }
      o := Ok(1500, []);
    }
  }
}
