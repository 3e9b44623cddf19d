/**
 The cryptography of the session layer, symbolically (src/crypto/kdf.c,
 src/crypto/kem.c, src/crypto/frame.c): every KDF is an injective constructor,
 Diffie-Hellman is commutative, the KEM decapsulates only what was encapsulated to
 the same pair, and a sealed box opens only under its own key with the header it
 was sealed with.
 */
module Symbolic {
  import opened Options

  type Text = string

  datatype Label = Initiator | Responder | Generation | ControlKey

  datatype Term =
    | Seed(n: nat)
    | Derived(root: Term, tag: Label)
    | NewRoot(root: Term, dh: Term, kem: Term)
    | NewChain(root: Term, dh: Term, kem: Term)
    | NextChain(chain: Term)
    | MsgKey(chain: Term)
    | DhSecret(low: nat, high: nat)
    | KemSecret(pk: nat, coin: nat)
    | KemRejected(sk: nat, ct: Ciphertext)

  // ----- Diffie-Hellman ------------------------------------------------------------------

  // The public point of secret key `id`, or a point of small order.
  datatype Point = Pub(id: nat) | SmallOrder(n: nat)

  predicate Contributory(p: Point) { p.Pub? }

  // tt_dh_shared: fails exactly on a point that is not contributory.
  function DhShared(sk: nat, p: Point): (r: Option<Term>)
    ensures r.Some? <==> Contributory(p)
  {
    if !p.Pub? then None
    else if sk <= p.id then Some(DhSecret(sk, p.id)) else Some(DhSecret(p.id, sk))
  }

  lemma DhCommutes(a: nat, b: nat)
    ensures DhShared(a, Pub(b)) == DhShared(b, Pub(a))
  {
  }

  // ----- KEM ------------------------------------------------------------------------------

  datatype Ciphertext = Ct(pk: nat, coin: nat) | Junk(n: nat)

  function KemDec(ct: Ciphertext, sk: nat): Term {
    if ct.Ct? && ct.pk == sk then KemSecret(sk, ct.coin) else KemRejected(sk, ct)
  }

  // ----- frames -----------------------------------------------------------------------------

  // The header of a DATA frame. A header of any other length is Malformed.
  datatype Header = Plain | KemPub(kemPk: nat, ephPk: Point) | Rekey(ct: Ciphertext, ephPk: Point) | Malformed(len: nat)

  datatype Box = Sealed(key: Term, seqNo: nat, hdr: Header, text: Text) | Garbage(n: nat)

  // The body of a control frame: two numbers.
  datatype Note = AckNote(acked: nat, gen: Term) | ResendNote(gen: Term, from: nat)

  datatype Frame =
    | Data(seqNo: nat, hdr: Header, box: Box)
    | Control(key: Term, note: Note)

  function Seal(key: Term, seqNo: nat, hdr: Header, text: Text): (f: Frame)
    ensures f.Data? && f.hdr == hdr && f.seqNo == seqNo
  {
    Data(seqNo, hdr, Sealed(key, seqNo, hdr, text))
  }

  // tt_frame_decode of a DATA frame: everything before the ciphertext is authenticated.
  function Open(key: Term, f: Frame): (r: Option<Text>)
    requires f.Data?
    ensures r.Some? <==> f.box.Sealed? && f == Seal(key, f.seqNo, f.hdr, f.box.text)
    ensures r.Some? ==> r.value == f.box.text
  {
    if f.box.Sealed? && f.box.key == key && f.box.seqNo == f.seqNo && f.box.hdr == f.hdr
    then Some(f.box.text) else None
  }
}
