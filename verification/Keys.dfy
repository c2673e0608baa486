/** Key namespaces of the shared state tree and the builders that fill them. */
module Keys {
  import opened ByteStrings
  import opened Codec

  datatype Namespace =
    | AmxListing | AmxOrder | AmxIndex | AapTask | AapEvidence | AapSla | AapHeartbeat
    | WeaveDag | WeaveNode | CapUtxo | CapHolder | CapType | CapDerive | RepScore
    | ArbDispute | ArbVote | FiatEscrow | FiatDeposit | FiatPool | NodeReg | NodeVal
    | GovProp | GovVote | AccNonce | Params

  function Prefix(ns: Namespace): Bytes {
    match ns
    case AmxListing => Ascii("amx/l/")
    case AmxOrder => Ascii("amx/o/")
    case AmxIndex => Ascii("amx/i/")
    case AapTask => Ascii("aap/t/")
    case AapEvidence => Ascii("aap/e/")
    case AapSla => Ascii("aap/s/")
    case AapHeartbeat => Ascii("aap/h/")
    case WeaveDag => Ascii("weave/d/")
    case WeaveNode => Ascii("weave/n/")
    case CapUtxo => Ascii("cap/u/")
    case CapHolder => Ascii("cap/h/")
    case CapType => Ascii("cap/t/")
    case CapDerive => Ascii("cap/d/")
    case RepScore => Ascii("rep/s/")
    case ArbDispute => Ascii("arb/d/")
    case ArbVote => Ascii("arb/v/")
    case FiatEscrow => Ascii("fiat/e/")
    case FiatDeposit => Ascii("fiat/dep/")
    case FiatPool => Ascii("fiat/pool")
    case NodeReg => Ascii("node/r/")
    case NodeVal => Ascii("node/v/")
    case GovProp => Ascii("gov/p/")
    case GovVote => Ascii("gov/v/")
    case AccNonce => Ascii("acc/n/")
    case Params => Ascii("params/")
  }

  /** The owners of disjoint parts of the tree, told apart by the first three bytes of a key. */
  datatype Owner = Amx | Aap | Weave | Cap | Rep | Arb | Fiat | Node | Gov | Acc | Par | Afd | Nobody

  function RootOf(o: Owner): Bytes
    requires o != Nobody
  {
    match o
    case Amx => Ascii("amx")
    case Aap => Ascii("aap")
    case Weave => Ascii("wea")
    case Cap => Ascii("cap")
    case Rep => Ascii("rep")
    case Arb => Ascii("arb")
    case Fiat => Ascii("fia")
    case Node => Ascii("nod")
    case Gov => Ascii("gov")
    case Acc => Ascii("acc")
    case Par => Ascii("par")
    case Afd => Ascii("afd")
  }

  function OwnerOfRoot(a: byte, b: byte, c: byte): Owner {
    if (a, b, c) == (97, 109, 120) then Amx
    else if (a, b, c) == (97, 97, 112) then Aap
    else if (a, b, c) == (119, 101, 97) then Weave
    else if (a, b, c) == (99, 97, 112) then Cap
    else if (a, b, c) == (114, 101, 112) then Rep
    else if (a, b, c) == (97, 114, 98) then Arb
    else if (a, b, c) == (102, 105, 97) then Fiat
    else if (a, b, c) == (110, 111, 100) then Node
    else if (a, b, c) == (103, 111, 118) then Gov
    else if (a, b, c) == (97, 99, 99) then Acc
    else if (a, b, c) == (112, 97, 114) then Par
    else if (a, b, c) == (97, 102, 100) then Afd
    else Nobody
  }

  function OwnerOf(k: Bytes): Owner {
    if |k| < 3 then Nobody else OwnerOfRoot(k[0], k[1], k[2])
  }

  function OwnerOfNamespace(ns: Namespace): Owner {
    match ns
    case AmxListing | AmxOrder | AmxIndex => Amx
    case AapTask | AapEvidence | AapSla | AapHeartbeat => Aap
    case WeaveDag | WeaveNode => Weave
    case CapUtxo | CapHolder | CapType | CapDerive => Cap
    case RepScore => Rep
    case ArbDispute | ArbVote => Arb
    case FiatEscrow | FiatDeposit | FiatPool => Fiat
    case NodeReg | NodeVal => Node
    case GovProp | GovVote => Gov
    case AccNonce => Acc
    case Params => Par
  }

  lemma PrefixBytes(k: Bytes, p: Bytes)
    requires HasPrefix(k, p)
    ensures forall i :: 0 <= i < |p| ==> k[i] == p[i]
  {
  }

  lemma PrefixFromBytes(k: Bytes, p: Bytes)
    requires |p| <= |k| && forall i :: 0 <= i < |p| ==> k[i] == p[i]
    ensures HasPrefix(k, p)
  {
  }

  lemma RootTells(o: Owner)
    requires o != Nobody
    ensures |RootOf(o)| == 3 && OwnerOfRoot(RootOf(o)[0], RootOf(o)[1], RootOf(o)[2]) == o
  {
  }

  lemma OwnerUnique(k: Bytes, o: Owner)
    requires o != Nobody && HasPrefix(k, RootOf(o))
    ensures OwnerOf(k) == o
  {
    hide RootOf, OwnerOfRoot;
    PrefixBytes(k, RootOf(o));
    RootTells(o);
  }

  lemma NamespaceRoot(ns: Namespace)
    ensures HasPrefix(Prefix(ns), RootOf(OwnerOfNamespace(ns))) && OwnerOfNamespace(ns) != Nobody
  {
    hide OwnerOfRoot, HasPrefix;
    var o := OwnerOfNamespace(ns);
    assert |RootOf(o)| == 3 && RootOf(o)[0] == Prefix(ns)[0] && RootOf(o)[1] == Prefix(ns)[1] && RootOf(o)[2] == Prefix(ns)[2];
    PrefixFromBytes(Prefix(ns), RootOf(o));
  }

  /** Every key of a namespace belongs to the owner of that namespace. */
  lemma NamespaceOwner(ns: Namespace, k: Bytes)
    requires HasPrefix(k, Prefix(ns))
    ensures OwnerOf(k) == OwnerOfNamespace(ns)
  {
    hide RootOf, Prefix, OwnerOf;
    var root := RootOf(OwnerOfNamespace(ns));
    NamespaceRoot(ns);
    PrefixBytes(k, Prefix(ns));
    PrefixBytes(Prefix(ns), root);
    PrefixFromBytes(k, root);
    OwnerUnique(k, OwnerOfNamespace(ns));
  }

  /** The position of the byte that tells the namespaces of one owner apart. */
  function TagAt(o: Owner): nat {
    match o
    case Fiat | Node => 5
    case Weave => 6
    case Par => 0
    case _ => 4
  }

  function FromTag(o: Owner, tag: byte): Namespace {
    match o
    case Amx => if tag == 108 then AmxListing else if tag == 111 then AmxOrder else AmxIndex
    case Aap => if tag == 116 then AapTask else if tag == 101 then AapEvidence else if tag == 115 then AapSla else AapHeartbeat
    case Weave => if tag == 100 then WeaveDag else WeaveNode
    case Cap => if tag == 117 then CapUtxo else if tag == 104 then CapHolder else if tag == 116 then CapType else CapDerive
    case Rep => RepScore
    case Arb => if tag == 100 then ArbDispute else ArbVote
    case Fiat => if tag == 101 then FiatEscrow else if tag == 100 then FiatDeposit else FiatPool
    case Node => if tag == 114 then NodeReg else NodeVal
    case Gov => if tag == 112 then GovProp else GovVote
    case Acc => AccNonce
    case _ => Params
  }

  lemma TagTellsMarket(ns: Namespace)
    requires OwnerOfNamespace(ns) in {Amx, Aap}
    ensures TagAt(OwnerOfNamespace(ns)) < |Prefix(ns)|
    ensures FromTag(OwnerOfNamespace(ns), Prefix(ns)[TagAt(OwnerOfNamespace(ns))]) == ns
  {
  }

  lemma TagTellsTokens(ns: Namespace)
    requires OwnerOfNamespace(ns) in {Weave, Cap, Rep, Arb}
    ensures TagAt(OwnerOfNamespace(ns)) < |Prefix(ns)|
    ensures FromTag(OwnerOfNamespace(ns), Prefix(ns)[TagAt(OwnerOfNamespace(ns))]) == ns
  {
  }

  lemma TagTellsRest(ns: Namespace)
    requires OwnerOfNamespace(ns) in {Fiat, Node, Gov, Acc, Par}
    ensures TagAt(OwnerOfNamespace(ns)) < |Prefix(ns)|
    ensures FromTag(OwnerOfNamespace(ns), Prefix(ns)[TagAt(OwnerOfNamespace(ns))]) == ns
  {
  }

  lemma TagTells(ns: Namespace)
    ensures TagAt(OwnerOfNamespace(ns)) < |Prefix(ns)|
    ensures FromTag(OwnerOfNamespace(ns), Prefix(ns)[TagAt(OwnerOfNamespace(ns))]) == ns
  {
    hide Prefix;
    match OwnerOfNamespace(ns) {
      case Amx | Aap => TagTellsMarket(ns);
      case Weave | Cap | Rep | Arb => TagTellsTokens(ns);
      case _ => TagTellsRest(ns);
    }
  }

  /** The namespaces are prefix-free: no key lies in two of them. */
  lemma NamespacesDisjoint(a: Namespace, b: Namespace, k: Bytes)
    requires HasPrefix(k, Prefix(a)) && HasPrefix(k, Prefix(b))
    ensures a == b
  {
    hide Prefix, OwnerOf;
    NamespaceOwner(a, k);
    NamespaceOwner(b, k);
    PrefixBytes(k, Prefix(a));
    PrefixBytes(k, Prefix(b));
    TagTells(a);
    TagTells(b);
  }

  // ----- key builders

  function Key(ns: Namespace, rest: Bytes): (k: Bytes)
    ensures HasPrefix(k, Prefix(ns)) && k[|Prefix(ns)|..] == rest && |k| == |Prefix(ns)| + |rest|
  {
    Prefix(ns) + rest
  }

  function Rest(ns: Namespace, k: Bytes): Bytes
    requires HasPrefix(k, Prefix(ns))
  {
    k[|Prefix(ns)|..]
  }

  lemma KeyOfRest(ns: Namespace, k: Bytes)
    requires HasPrefix(k, Prefix(ns))
    ensures Key(ns, Rest(ns, k)) == k
  {
  }

  lemma KeyInjective(a: Namespace, x: Bytes, b: Namespace, y: Bytes)
    requires Key(a, x) == Key(b, y)
    ensures a == b && x == y
  {
    NamespacesDisjoint(a, b, Key(a, x));
  }

  function UtxoKey(id: Bytes): Bytes { Key(CapUtxo, id) }

  function DeriveDir(parent: Bytes): Bytes { Key(CapDerive, parent + [SLASH]) }

  function DeriveKey(parent: Bytes, child: Bytes): Bytes { Key(CapDerive, parent + [SLASH] + child) }

  function NonceKey(pub: Bytes): Bytes { Key(AccNonce, Hex(pub)) }

  /** The nonce cells of two senders are distinct keys. */
  lemma NonceKeyInjective(a: Bytes, b: Bytes)
    requires NonceKey(a) == NonceKey(b)
    ensures a == b
  {
    KeyInjective(AccNonce, Hex(a), AccNonce, Hex(b));
    HexInjective(a, b);
  }
}
