/**
 The session state machine (src/session.c): receiving, emitting, the re-key
 protocol, the parked carrier of a lossy session and the re-send buffer. The
 functions say what each operation does to the state; class TTSession (in
 SessionObject.dfy) does it in place.
 */
module Sessions {
  import opened Options
  import opened Limits
  import opened Symbolic
  import opened Ratchets
  import opened SentRings

  datatype Status = NoSession | DecodeFail | SeqTooOld | Replay | Busy | BadState | CarrierParked

  // One key-pair set for both directions, the peer's published keys, and the flags of
  // the re-key protocol.
  datatype Rekeying = Rekeying(
    eph: nat, haveKem: bool, kem: nat,
    peerHave: bool, peerKem: nat, peerEph: Point,
    rekeyDue: bool, awaitingPeer: bool, published: bool, postFoldPublish: bool, publishBack: bool,
    carrier: Option<Frame>)

  // Receiver-driven recovery, apart from the buffer of sent texts.
  datatype Recovery = Recovery(
    recvAcked: nat, ackDue: bool,
    reqPending: bool, reqGen: Term, reqFrom: nat,
    repPending: bool, repGen: Term, repFrom: nat)

  datatype State = State(
    active: bool, lossy: bool, root: Term,
    send: Ratchet, recv: Ratchet, rekey: Rekeying,
    sent: seq<Sent>, rel: Recovery, pending: seq<Text>)

  // What one call takes from its surroundings: whether AES-GCM is available, and its
  // random draws (key-pair seeds and the coin of an encapsulation).
  datatype Env = Env(gcm: bool, eph: nat, kem: nat, coin: nat)

  datatype FeedResult = Delivered(text: Text) | Rejected(why: Status)

  datatype EmitResult = Emitted(frame: Frame) | Nothing | Failed(why: Status)

  function GenOf(root: Term): Term { Derived(root, Generation) }

  function CtlKey(root: Term): Term { Derived(root, ControlKey) }

  // ----- receiving ------------------------------------------------------------------------

  // The decrypt failed: ask for everything from the next expected number.
  function Desync(s: State): State {
    if s.lossy then s
    else s.(rel := s.rel.(reqPending := true, reqGen := GenOf(s.root), reqFrom := s.recv.seqNo))
  }

  function NoteAck(s: State): State {
    if !s.lossy && s.recv.seqNo > s.rel.recvAcked + 1
    then s.(rel := s.rel.(recvAcked := s.recv.seqNo - 1, ackDue := true))
    else s
  }

  // A consumed REKEY: fold the receive direction and rotate our own pair.
  function ApplyRekey(s: State, ct: Ciphertext, point: Point, env: Env): State {
    match DhShared(s.rekey.eph, point)
    case None => s
    case Some(dh) =>
      s.(recv := Fold(s.recv, dh, KemDec(ct, s.rekey.kem)),
         rekey := s.rekey.(peerEph := point, eph := env.eph, kem := env.kem, haveKem := true,
                           published := false, postFoldPublish := true))
  }

  // A published pair: keep it; fold if we were waiting for it, else publish ours back.
  function ApplyKemPub(k: Rekeying, kem: nat, point: Point): Rekeying {
    if DhShared(k.eph, point).None? then k else
      var learned := k.(peerKem := kem, peerEph := point, peerHave := true);
      if k.awaitingPeer then learned.(awaitingPeer := false, rekeyDue := true)
      else if k.haveKem && !k.published then learned.(publishBack := true)
      else learned
  }

  function ApplyHeader(s: State, hdr: Header, env: Env): State {
    match hdr
    case Rekey(ct, point) => ApplyRekey(s, ct, point, env)
    case KemPub(kem, point) => s.(rekey := ApplyKemPub(s.rekey, kem, point))
    case _ => s
  }

  function Accept(s: State, hdr: Header, env: Env): State {
    ApplyHeader(NoteAck(s), hdr, env)
  }

  // A frame at or ahead of the expected number.
  function FeedAhead(s: State, f: Frame, env: Env): (State, FeedResult)
    requires f.Data? && s.recv.seqNo <= f.seqNo
  {
    if f.seqNo - s.recv.seqNo >= MAX_SKIP then (s, Rejected(SeqTooOld)) else
      match Open(KeyAt(s.recv, f.seqNo), f)
      case None => (Desync(s), Rejected(DecodeFail))
      case Some(text) => (Accept(s.(recv := Commit(s.recv, f.seqNo)), f.hdr, env), Delivered(text))
  }

  // A frame behind the expected number: only a stored key opens it.
  function FeedBehind(s: State, f: Frame, env: Env): (State, FeedResult)
    requires f.Data?
  {
    var i := FindSkipped(s.recv.skipped, f.seqNo);
    if i == |s.recv.skipped| then (s, Rejected(Replay)) else
      var e, rest := s.recv.skipped[i], RemoveAt(s.recv.skipped, i);
      match Open(e.key, f)
      case None => (Desync(s.(recv := s.recv.(skipped := AddSkipped(rest, Skipped(f.seqNo, e.key))))), Rejected(DecodeFail))
      case Some(text) => (Accept(s.(recv := s.recv.(skipped := rest)), f.hdr, env), Delivered(text))
  }

  function FeedControl(s: State, f: Frame): (State, FeedResult)
    requires f.Control?
  {
    if s.lossy || f.key != CtlKey(s.root) then (s, Rejected(DecodeFail)) else
      match f.note
      case AckNote(acked, gen) => (s.(sent := AckSent(s.sent, gen, acked)), Delivered(""))
      case ResendNote(gen, from) => (s.(rel := s.rel.(repPending := true, repGen := gen, repFrom := from)), Delivered(""))
  }

  // tt_session_feed, for frames that are not part of the handshake
  function Feed(s: State, f: Frame, env: Env): (State, FeedResult) {
    if !s.active then (s, Rejected(NoSession))
    else if f.Control? then FeedControl(s, f)
    else if f.hdr.Malformed? then (s, Rejected(DecodeFail))
    else if s.recv.seqNo <= f.seqNo then FeedAhead(s, f, env)
    else FeedBehind(s, f, env)
  }

  // ----- emitting -------------------------------------------------------------------------

  function HeaderLen(h: Header): nat {
    match h
    case Plain => 0
    case KemPub(_, _) => 1190
    case Rekey(_, _) => 1071
    case Malformed(len) => len
  }

  function FrameLen(gcm: bool, h: Header, text: Text): nat {
    (if gcm then 25 else 37) + HeaderLen(h) + |text| + 16
  }

  // The automatic trigger: every 64 frames, unless the peer's keys are awaited.
  function Due(s: State): Rekeying {
    if !s.rekey.awaitingPeer && s.send.sinceFold >= REKEY_EVERY then s.rekey.(rekeyDue := true) else s.rekey
  }

  datatype Secrets = Secrets(dh: Term, kem: Term)

  // The header to attach, the flags after attaching it, and the secrets of a fold.
  function PickHeader(k: Rekeying, env: Env): (Rekeying, Header, Option<Secrets>) {
    if k.postFoldPublish then
      (k.(published := true, postFoldPublish := false, publishBack := false), KemPub(k.kem, Pub(k.eph)), None)
    else if k.rekeyDue && k.peerHave then
      match DhShared(k.eph, k.peerEph)
      case None => (k, Plain, None)
      case Some(dh) =>
        (k, Rekey(Ct(k.peerKem, env.coin), Pub(k.eph)), Some(Secrets(dh, KemSecret(k.peerKem, env.coin))))
    else if k.rekeyDue && !k.awaitingPeer then
      var kem := if k.haveKem then k.kem else env.kem;
      (k.(haveKem := true, kem := kem, published := true, awaitingPeer := true, rekeyDue := false),
       KemPub(kem, Pub(k.eph)), None)
    else if k.publishBack then
      (k.(published := true, publishBack := false), KemPub(k.kem, Pub(k.eph)), None)
    else (k, Plain, None)
  }

  lemma HeaderFits(k: Rekeying, env: Env)
    ensures HeaderLen(PickHeader(k, env).1) <= 1190 && !PickHeader(k, env).1.Malformed?
  {
  }

  function HeaderFor(s: State, carrierOnly: bool, env: Env): (Rekeying, Header, Option<Secrets>) {
    if !s.lossy || carrierOnly then PickHeader(Due(s), env) else (Due(s), Plain, None)
  }

  function Zeros(n: nat): Text { seq(n, _ => '\0') }

  // The text that ends up buffered. A text that lies in the slot of the oldest entry is
  // wiped when that entry is dropped, before it is copied.
  function Buffered(s: State, text: Text, fromOldest: bool): Text {
    if fromOldest && |s.sent| >= SENT_MAX then Zeros(|text|) else text
  }

  // emit_frame. `fromOldest`: the text lies in the ring's oldest slot.
  function EmitFrame(s: State, text: Text, fromOldest: bool, carrierOnly: bool, env: Env): (r: (State, EmitResult))
    ensures !r.1.Emitted? ==> r.0.sent == s.sent
  {
    if s.lossy && s.rekey.carrier.Some? then (s, Failed(CarrierParked)) else
      var (k, hdr, fold) := HeaderFor(s, carrierOnly, env);
      var n := s.send.seqNo;
      var stepped := s.(rekey := k, send := StepChain(s.send));
      if FrameLen(env.gcm, hdr, text) > FRAME_MAX then (stepped, Failed(BadState)) else
        var f := Seal(KeyAt(s.send, n), n, hdr, text);
        (Sending(stepped, n, Buffered(s, text, fromOldest), f, fold), Emitted(f))
  }

  // The state after frame f, number n, was built.
  function Sending(s: State, n: nat, stored: Text, f: Frame, fold: Option<Secrets>): State
    requires f.Data?
  {
    var k := if fold.Some? then s.rekey.(rekeyDue := false, peerHave := false) else s.rekey;
    var send := if fold.Some? then Fold(s.send, fold.value.dh, fold.value.kem)
                else s.send.(sinceFold := s.send.sinceFold + 1);
    s.(send := send,
       rekey := if s.lossy && !f.hdr.Plain? then k.(carrier := Some(f)) else k,
       sent := if s.lossy then s.sent else AddSent(s.sent, Sent(GenOf(s.root), n, stored)))
  }

  // tt_session_rekey_pending
  predicate RekeyPending(s: State) {
    && s.active
    && (|| (!s.rekey.awaitingPeer && s.send.sinceFold >= REKEY_EVERY)
        || (s.rekey.rekeyDue && s.rekey.peerHave)
        || (s.rekey.rekeyDue && !s.rekey.awaitingPeer)
        || s.rekey.postFoldPublish
        || s.rekey.publishBack)
  }

  // tt_session_carrier
  function Carrier(s: State, env: Env): (State, EmitResult) {
    if !s.active then (s, Nothing)
    else if s.rekey.carrier.Some? then (s, Emitted(s.rekey.carrier.value))
    else if !RekeyPending(s) then (s, Nothing)
    else EmitFrame(s, "", false, true, env)
  }

  // tt_session_carrier_done
  function CarrierDone(s: State): State {
    s.(rekey := s.rekey.(carrier := None))
  }

  // tt_session_rekey_due
  function ForceRekey(s: State): State {
    if s.active then s.(rekey := s.rekey.(rekeyDue := true)) else s
  }

  // tt_session_send
  function SendText(s: State, text: Text, env: Env): (State, EmitResult) {
    if |text| > DATA_MAX then (s, Failed(BadState))
    else if s.active then EmitFrame(s, text, false, false, env)
    else if |s.pending| >= PENDING_MAX then (s, Failed(Busy))
    else if text == "" then (s, Nothing)
    else (s.(pending := s.pending + [text]), Nothing)
  }

  // tt_session_send_lossy
  function SendLossy(s: State, text: Text, env: Env): (State, EmitResult) {
    if |text| > DATA_MAX then (s, Failed(BadState))
    else if !s.active then (s, Nothing)
    else EmitFrame(s, text, false, false, env)
  }

  // tt_session_flush
  function Flush(s: State, env: Env): (State, EmitResult) {
    if !s.active || s.pending == [] then (s, Nothing) else
      var (t, r) := EmitFrame(s, s.pending[0], false, false, env);
      if r.Emitted? then (t.(pending := t.pending[1..]), r) else (t, r)
  }

  // ----- the re-send buffer ---------------------------------------------------------------

  predicate Asked(s: State, e: Sent) {
    e.gen == s.rel.repGen && e.seqNo >= s.rel.repFrom
  }

  // Re-send the first buffered text from position r on that was asked for and can be
  // emitted.
  function Resend(s: State, r: nat, env: Env): (State, EmitResult)
    decreases |s.sent| - r
  {
    if r >= |s.sent| then (s.(rel := s.rel.(repPending := false)), Nothing)
    else if !Asked(s, s.sent[r]) then Resend(s, r + 1, env)
    else
      var e := s.sent[r];
      var (t, result) := EmitFrame(s, e.text, r == 0, false, env);
      if result.Emitted? then (t.(sent := RemoveSent(t.sent, e.gen, e.seqNo)), result)
      else Resend(t, r + 1, env)
  }

  // tt_session_rel_poll
  function RelPoll(s: State, env: Env): (State, EmitResult) {
    if !s.active then (s, Nothing)
    else if s.rel.reqPending then
      (s.(rel := s.rel.(reqPending := false)),
       Emitted(Control(CtlKey(s.root), ResendNote(s.rel.reqGen, s.rel.reqFrom))))
    else if s.rel.repPending then Resend(s, 0, env)
    else if s.rel.ackDue then
      (s.(rel := s.rel.(ackDue := false)), Emitted(Control(CtlKey(s.root), AckNote(s.rel.recvAcked, GenOf(s.root)))))
    else (s, Nothing)
  }

  // ----- a fresh session --------------------------------------------------------------------

  // establish: one side of a session just established with handshake root `root`.
  function Established(root: Term, initiator: bool, lossy: bool, eph: nat, kem: nat): State {
    var i := Ratchet(Derived(root, Initiator), 1, root, 0, []);
    var r := Ratchet(Derived(root, Responder), 1, root, 0, []);
    State(true, lossy, root, if initiator then i else r, if initiator then r else i,
          Rekeying(eph, true, kem, false, 0, SmallOrder(0), false, false, false, false, false, None),
          [], Recovery(0, false, false, Seed(0), 0, false, Seed(0), 0), [])
  }
}
