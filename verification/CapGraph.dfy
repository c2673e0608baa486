/** Capability tokens as a graph: the derive index gives every token its children, and the
    UNSPENT tokens are the white vertices that a cascade may enter. */
module CapGraph {
  import opened ByteStrings
  import opened Codec
  import opened Keys
  import opened Engine
  import opened Records
  import opened Reachability

  // ----- tokens in a state

  predicate IsToken(data: State, id: Bytes) {
    UtxoKey(id) in data && data[UtxoKey(id)].TokenV?
  }

  function TokenAt(data: State, id: Bytes): Token
    requires IsToken(data, id)
  {
    data[UtxoKey(id)].token
  }

  /** Every token is filed under its own id. */
  ghost predicate WellKeyed(data: State) {
    forall id :: IsToken(data, id) ==> TokenAt(data, id).id == id
  }

  predicate IsWhite(data: State, id: Bytes) {
    IsToken(data, id) && TokenAt(data, id).status == Unspent
  }

  predicate IsUtxoKey(k: Bytes) { HasPrefix(k, Prefix(CapUtxo)) }

  ghost function White(data: State): set<Bytes> {
    set k | k in data && IsUtxoKey(k) && IsWhite(data, Rest(CapUtxo, k)) :: Rest(CapUtxo, k)
  }

  lemma WhiteIff(data: State, id: Bytes)
    ensures id in White(data) <==> IsWhite(data, id)
  {
  }

  lemma WhiteIffAll(data: State)
    ensures forall id :: id in White(data) <==> IsWhite(data, id)
  {
  }

  // ----- changing the status of a set of tokens

  ghost function Marked(data: State, ids: set<Bytes>, s: TokenStatus): (r: State)
    ensures r.Keys == data.Keys
  {
    map k | k in data ::
      if IsUtxoKey(k) && Rest(CapUtxo, k) in ids && data[k].TokenV?
      then TokenV(data[k].token.(status := s)) else data[k]
  }

  lemma MarkedToken(data: State, ids: set<Bytes>, s: TokenStatus, id: Bytes)
    ensures IsToken(Marked(data, ids, s), id) <==> IsToken(data, id)
    ensures IsToken(data, id) ==>
      TokenAt(Marked(data, ids, s), id) == (if id in ids then TokenAt(data, id).(status := s) else TokenAt(data, id))
  {
  }

  lemma MarkedTwice(data: State, a: set<Bytes>, b: set<Bytes>, s: TokenStatus)
    ensures Marked(Marked(data, a, s), b, s) == Marked(data, a + b, s)
  {
  }

  lemma MarkedNothing(data: State, s: TokenStatus)
    ensures Marked(data, {}, s) == data
  {
  }

  lemma MarkedWellKeyed(data: State, ids: set<Bytes>, s: TokenStatus)
    requires WellKeyed(data)
    ensures WellKeyed(Marked(data, ids, s))
  {
    forall id | IsToken(Marked(data, ids, s), id) ensures TokenAt(Marked(data, ids, s), id).id == id {
      MarkedToken(data, ids, s, id);
    }
  }

  lemma WhiteMarked(data: State, ids: set<Bytes>, s: TokenStatus)
    requires s != Unspent
    ensures White(Marked(data, ids, s)) == White(data) - ids
  {
  }

  /** Saving a token's record with a new status marks exactly that token. */
  lemma SaveMarks(data: State, id: Bytes, s: TokenStatus)
    requires IsToken(data, id)
    ensures data[UtxoKey(id) := TokenV(TokenAt(data, id).(status := s))] == Marked(data, {id}, s)
  {
    forall k | k in data && IsUtxoKey(k) && Rest(CapUtxo, k) == id ensures k == UtxoKey(id) {
      KeyOfRest(CapUtxo, k);
    }
    assert IsUtxoKey(UtxoKey(id)) && Rest(CapUtxo, UtxoKey(id)) == id;
  }

  // ----- the derive index

  function LastOf(k: Bytes): Bytes {
    var parts := SplitFrom(k, []);
    if parts == [] then [] else parts[|parts| - 1]
  }

  /** The children listed for p: the last path parts of the index keys below it, in key order. */
  ghost function Kids(keys: set<Bytes>, p: Bytes): seq<Bytes> {
    var ks := SortedKeys(set k | k in keys && HasPrefix(k, DeriveDir(p)));
    seq(|ks|, i requires 0 <= i < |ks| => LastOf(ks[i]))
  }

  ghost predicate KidsStored(data: State, p: Bytes) {
    forall c :: c in Kids(data.Keys, p) ==> IsToken(data, c)
  }

  /** The derive relation as a graph. */
  ghost function Derived(keys: set<Bytes>): Graph<Bytes> {
    p => Kids(keys, p)
  }

  /** The tokens below p that some path of UNSPENT tokens leads to. */
  ghost function Reach(data: State, p: Bytes): set<Bytes> {
    ReachSet(Derived(data.Keys), White(data), p)
  }
}
