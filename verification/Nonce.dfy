/** The per-sender nonce cells. */
module Nonce {
  import opened ByteStrings
  import opened Codec
  import opened Keys
  import opened Engine
  import opened Records

  function NonceOf(data: State, pub: Bytes): nat {
    var cell := Lookup(data, NonceKey(pub));
    if cell.None? || !cell.value.Word? || |cell.value.word| != 8 then 0
    else FromBigEndian(cell.value.word)
  }

  function WithNonce(data: State, pub: Bytes, n: nat): State {
    data[NonceKey(pub) := Word(BigEndian(n % TWO64, 8))]
  }

  method GetNonce(store: Store, pub: Bytes) returns (n: nat)
    ensures n == NonceOf(store.data, pub)
    ensures !(NonceKey(pub) in store.data && store.data[NonceKey(pub)].Word? && |store.data[NonceKey(pub)].word| == 8) ==> n == 0
  {
    var raw := store.Get(NonceKey(pub));
    if raw.None? || !raw.value.Word? || |raw.value.word| != 8 {
      return 0;
    }
    n := FromBigEndian(raw.value.word);
  }

  method SetNonce(store: Store, pub: Bytes, n: nat)
    modifies store`data
    ensures store.data == WithNonce(old(store.data), pub, n)
  {
    var buf := BigEndian(n % TWO64, 8);
    store.Set(NonceKey(pub), Word(buf));
  }

  /** A written nonce is read back, modulo 2^64, and no other sender's nonce changes. */
  lemma NonceReadBack(data: State, pub: Bytes, n: nat, other: Bytes)
    ensures NonceOf(WithNonce(data, pub, n), other) == if other == pub then n % TWO64 else NonceOf(data, other)
  {
    WordRoundTrip(n % TWO64);
    if other != pub && NonceKey(other) == NonceKey(pub) {
      NonceKeyInjective(other, pub);
    }
  }
}
