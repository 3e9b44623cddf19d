/**
 What refused packets cost the tunnel (src/tunnel.c:810-894, src/session.c:550-559,
 695-836): a payload that the transport refuses has used up a number of the chain, and
 the peer takes no frame that is 512 ahead. A due re-key bounds the loss, as its carrier
 is parked and blocks everything else; a side that waits for the peer's pair has no such
 bound.
 */
module RefusedSends {
  import opened Options
  import opened Limits
  import opened Symbolic
  import opened Ratchets
  import opened Sessions
  import opened Receiving
  import opened Carriers
  import opened Tunnel
  import opened TunnelSend

  // One call of tcp_send_ex: its text, and what it takes from its surroundings.
  datatype Try = Try(text: Text, first: Env, second: Env, third: Env)

  predicate Fair(y: Try) { |y.text| <= TCP_HEADER + ReadMax(true) }

  function SendTry(s: State, e: EtherState, y: Try): (State, EtherState, Answer) {
    SendTcp(s, e, y.text, [y.first, y.second, y.third])
  }

  // A transport that refuses everything.
  const Refusing := EtherState([], [])

  // Calls in a row that it refuses.
  function Refused(s: State, tries: seq<Try>): State {
    if tries == [] then s
    else SendTry(Refused(s, tries[..|tries| - 1]), Refusing, tries[|tries| - 1]).0
  }

  // How many refused payloads use up a number before a re-key carrier is due; None if a
  // re-key is under way and waits for the peer.
  function Room(s: State): Option<nat> {
    if RekeyPending(s) then Some(0)
    else if s.rekey.awaitingPeer then None
    else Some(if s.send.sinceFold < REKEY_EVERY then REKEY_EVERY - s.send.sinceFold else 0)
  }

  // The numbers that k refused calls use up.
  function Used(s: State, k: nat): nat {
    match Room(s)
    case None => k
    case Some(room) => if k <= room then k else room + 1
  }

  // ----- one call -----------------------------------------------------------------------------

  // The frame that a call offers first.
  function FirstFrame(s: State, y: Try): EmitResult {
    if s.rekey.carrier.Some? || RekeyPending(s) then Carrier(s, y.first).1
    else SendLossy(s, y.text, y.third).1
  }

  predicate Ready(s: State, f: Frame) {
    && f.Data? && !f.hdr.Malformed? && f.box.Sealed?
    && f == Seal(MsgKey(s.send.chain), s.send.seqNo, f.hdr, f.box.text)
  }

  lemma FrameReady(s: State, text: Text, carrierOnly: bool, env: Env)
    requires Discipline(s) && s.rekey.carrier.None?
    requires |text| <= TCP_HEADER + ReadMax(true) && (carrierOnly ==> text == "")
    ensures var (t, r) := EmitFrame(s, text, false, carrierOnly, env);
            r.Emitted? && Ready(s, r.frame) && t.send.seqNo == s.send.seqNo + 1
  {
    EmitShape(s, text, carrierOnly, env);
    hide HeaderFor, HeaderLen, Due;
  }

  // A refused payload: the chain has stepped, and no flag has moved.
  lemma PayloadStep(s: State, text: Text, env: Env)
    requires Discipline(s) && s.rekey.carrier.None? && !RekeyPending(s)
    requires |text| <= TCP_HEADER + ReadMax(true)
    ensures var t := EmitFrame(s, text, false, false, env).0;
            && t.rekey == s.rekey && t.active && t.send.chain == NextChain(s.send.chain)
            && t.send.sinceFold == s.send.sinceFold + 1 && t.send.seqNo == s.send.seqNo + 1
  {
  }

  lemma NoneAccepted(f: Frame, gcm: bool)
    ensures Offer(Refusing, gcm, f) == (Refusing, false)
  {
  }

  // A refused call with no carrier parked: either a carrier is built and parked, or the
  // payload is lost. With one parked, nothing changes.
  lemma OneRefused(s: State, y: Try)
    requires Discipline(s) && Fitting(s) && Fair(y)
    ensures var (t, e, rc) := SendTry(s, Refusing, y);
            && e == Refusing && rc == SendQ && Discipline(t) && Fitting(t)
            && (s.rekey.carrier.Some? ==> t == s)
            && (s.rekey.carrier.None? && RekeyPending(s) ==>
                  && t.rekey.carrier.Some? && Ready(s, t.rekey.carrier.value) && t.send.seqNo == s.send.seqNo + 1)
            && (s.rekey.carrier.None? && !RekeyPending(s) ==>
                  && t.rekey == s.rekey && t.send.chain == NextChain(s.send.chain)
                  && t.send.sinceFold == s.send.sinceFold + 1 && t.send.seqNo == s.send.seqNo + 1)
  {
    var envs := [y.first, y.second, y.third];
    assert envs[..2] == [y.first, y.second];
    hide Discipline, Fitting, EmitFrame, Carrier, RekeyPending, Ready, Offer;
    DisciplineMeans(s);
    SendContract(s, Refusing, y.text, envs);
    if s.rekey.carrier.Some? || RekeyPending(s) {
      CarrierShape(s, y.first);
      NoneAccepted(Carrier(s, y.first).1.frame, y.first.gcm);
      assert SendTry(s, Refusing, y) == (Carrier(s, y.first).0, Refusing, SendQ);
      if s.rekey.carrier.None? { FrameReady(s, "", true, y.first); }
      CarrierIs(s, y.first);
    } else {
      PayloadStep(s, y.text, y.third);
      FrameReady(s, y.text, false, y.third);
      NoneAccepted(EmitFrame(s, y.text, false, false, y.third).1.frame, y.third.gcm);
    }
  }

  lemma CarrierIs(s: State, env: Env)
    requires s.active
    ensures s.rekey.carrier.Some? ==> Carrier(s, env) == (s, Emitted(s.rekey.carrier.value))
    ensures s.rekey.carrier.None? && RekeyPending(s) ==> Carrier(s, env) == EmitFrame(s, "", false, true, env)
  {
    hide EmitFrame, RekeyPending;
  }

  // ----- a row of them --------------------------------------------------------------------------

  // Frame f is the one that s sends j numbers from now.
  ghost predicate Numbered(f: Frame, s: State, j: nat) {
    && f.Data? && !f.hdr.Malformed? && f.box.Sealed?
    && f == Seal(MsgKey(ChainAt(s.send.chain, j)), s.send.seqNo + j, f.hdr, f.box.text)
  }

  // The state t after k refused calls from s.
  ghost predicate Stalled(s: State, t: State, k: nat) {
    && Discipline(t) && Fitting(t) && t.send.seqNo == s.send.seqNo + Used(s, k)
    && if Room(s).None? || k <= Room(s).value then
         && t.rekey == s.rekey && t.rekey.carrier.None?
         && t.send.chain == ChainAt(s.send.chain, k) && t.send.sinceFold == s.send.sinceFold + k
       else t.rekey.carrier.Some? && Numbered(t.rekey.carrier.value, s, Room(s).value)
  }

  lemma PendingAt(s: State, t: State, k: nat)
    requires Discipline(s) && Stalled(s, t, k) && t.rekey.carrier.None?
    ensures RekeyPending(t) <==> Room(s) == Some(k)
    ensures Room(s).Some? ==> k <= Room(s).value
  {
  }

  lemma {:induction false} RowStalls(s: State, tries: seq<Try>)
    requires Discipline(s) && Fitting(s) && s.rekey.carrier.None?
    requires forall i | 0 <= i < |tries| :: Fair(tries[i])
    ensures Stalled(s, Refused(s, tries), |tries|)
  {
    hide Discipline, Fitting, RekeyPending, SendTry;
    if tries != [] {
      var k := |tries| - 1;
      var last := tries[k];
      RowStalls(s, tries[..k]);
      var t := Refused(s, tries[..k]);
      OneRefused(t, last);
      if t.rekey.carrier.None? { PendingAt(s, t, k); }
    }
  }

  // ----- what the peer makes of it --------------------------------------------------------------

  // The frame that follows a row of refused calls, and is accepted.
  lemma FirstAccepted(s: State, sent: seq<Frame>, y: Try)
    requires Discipline(s) && Fitting(s) && Fair(y)
    ensures var e := SendTry(s, EtherState([true, true, true], sent), y).1;
            FirstFrame(s, y).Emitted? && |e.sent| > |sent| && e.sent[|sent|] == FirstFrame(s, y).frame
  {
    var e, envs := EtherState([true, true, true], sent), [y.first, y.second, y.third];
    assert envs[..2] == [y.first, y.second] && envs[..2][1..] == [y.second];
    hide Discipline, Fitting, EmitFrame, Carrier, RekeyPending, FrameBytes;
    DisciplineMeans(s);
    if s.rekey.carrier.Some? || RekeyPending(s) {
      CarrierShape(s, y.first);
      var (t, r) := Carrier(s, y.first);
      var e1 := EtherState(e.accepts[1..], sent + [r.frame]);
      assert DrainCarriers(s, e, envs[..2]) == DrainCarriers(CarrierDone(t), e1, [y.second]);
      DrainContract(CarrierDone(t), e1, [y.second]);
      var (u, e2, drained) := DrainCarriers(CarrierDone(t), e1, [y.second]);
      DisciplineMeans(u);
      PayloadKeepsSent(u, e2, y);
      assert e1.sent[|sent|] == r.frame && e1.sent <= e2.sent;
    } else {
      FrameReady(s, y.text, false, y.third);
      PayloadFits(s, y.text, y.third);
    }
  }

  lemma PayloadFits(s: State, text: Text, env: Env)
    requires Discipline(s) && s.rekey.carrier.None? && |text| <= TCP_HEADER + ReadMax(true)
    ensures var r := EmitFrame(s, text, false, false, env).1; r.Emitted? && FrameBytes(env.gcm, r.frame) <= TUNNEL_FRAME_MAX
  {
  }

  lemma PayloadKeepsSent(s: State, e: EtherState, y: Try)
    ensures var r := SendLossy(s, y.text, y.third).1;
            r.Emitted? ==> e.sent <= Offer(e, y.third.gcm, r.frame).0.sent
  {
    hide SendLossy, FrameBytes;
  }

  lemma PeerTakes(peer: State, s: State, f: Frame, j: nat, env: Env)
    requires peer.active && peer.recv.chain == s.send.chain && peer.recv.seqNo == s.send.seqNo && Numbered(f, s, j)
    ensures Feed(peer, f, env).1 == if j < MAX_SKIP then Delivered(f.box.text) else Rejected(SeqTooOld)
  {
    hide Accept, Commit;
  }

  // Whatever row of calls the transport has refused, the first frame that it takes
  // afterwards opens at a peer that had kept up so far, unless the side was waiting for the
  // peer's pair with nothing left to publish and the row has reached 512. In every other
  // state a carrier is due after at most 64 refused payloads.
  lemma RefusedRow(s: State, peer: State, tries: seq<Try>, y: Try, env: Env)
    requires Discipline(s) && Fitting(s) && s.rekey.carrier.None? && Fair(y)
    requires forall i | 0 <= i < |tries| :: Fair(tries[i])
    requires peer.active && peer.recv.chain == s.send.chain && peer.recv.seqNo == s.send.seqNo
    ensures var t := Refused(s, tries); var e := SendTry(t, EtherState([true, true, true], []), y).1;
            && t.send.seqNo == s.send.seqNo + Used(s, |tries|)
            && (Room(s).Some? ==> Room(s).value <= REKEY_EVERY)
            && (Room(s).None? <==> s.rekey.awaitingPeer && !RekeyPending(s))
            && e.sent != []
            && (Feed(peer, e.sent[0], env).1.Delivered? <==> Room(s).Some? || |tries| < MAX_SKIP)
            && (Feed(peer, e.sent[0], env).1.Rejected? ==> Feed(peer, e.sent[0], env).1 == Rejected(SeqTooOld))
  {
    hide Discipline, Fitting, EmitFrame, Carrier, RekeyPending, SendTry, Feed, Refused;
    RowStalls(s, tries);
    var t := Refused(s, tries);
    FirstAccepted(t, [], y);
    var f, k := FirstFrame(t, y).frame, |tries|;
    DisciplineMeans(t);
    CarrierIs(t, y.first);
    if t.rekey.carrier.Some? {
      PeerTakes(peer, s, f, Room(s).value, env);
    } else {
      PendingAt(s, t, k);
      FrameReady(t, "", true, y.first);
      FrameReady(t, y.text, false, y.third);
      PeerTakes(peer, s, f, k, env);
    }
  }

  // ----- the unbounded case is reached ----------------------------------------------------------

  lemma {:induction false} Payloads(s: State, k: nat, env: Env)
    requires Discipline(s) && s.rekey.carrier.None? && !s.rekey.rekeyDue && !s.rekey.postFoldPublish && !s.rekey.publishBack
    requires s.send.sinceFold + k <= REKEY_EVERY
    ensures var t := Run(s, seq(k, _ => (DatagramCall(""), env)));
            Discipline(t) && t.rekey == s.rekey && t.send.sinceFold == s.send.sinceFold + k
  {
    hide Discipline, EmitFrame;
    if k > 0 {
      Payloads(s, k - 1, env);
      var script := seq(k, _ => (DatagramCall(""), env));
      assert script[..k - 1] == seq(k - 1, _ => (DatagramCall(""), env));
      var t := Run(s, script[..k - 1]);
      DisciplineMeans(t);
      CallKeeps(t, DatagramCall(""), env);
      PayloadStep(t, "", env);
    }
  }

  lemma PublishesFirst(s: State, env: Env)
    requires Discipline(s) && s.rekey.carrier.None? && !s.rekey.peerHave && !s.rekey.awaitingPeer
    requires !s.rekey.postFoldPublish && !s.rekey.publishBack && s.send.sinceFold == REKEY_EVERY
    ensures var t := CarrierDone(Carrier(s, env).0);
            Discipline(t) && t.rekey.carrier.None? && t.rekey.awaitingPeer && !RekeyPending(t)
  {
    assert RekeyPending(s);
    hide Discipline, RekeyPending, EmitFrame;
    DisciplineMeans(s);
    CallKeeps(s, CarrierCall, env);
    CallKeeps(Carrier(s, env).0, CarrierDoneCall, env);
    CarrierIs(s, env);
    PublishFlags(s, env);
  }

  lemma PublishFlags(s: State, env: Env)
    requires s.lossy && s.rekey.carrier.None? && !s.rekey.peerHave && !s.rekey.awaitingPeer
    requires !s.rekey.postFoldPublish && !s.rekey.publishBack && s.send.sinceFold == REKEY_EVERY
    ensures var t := CarrierDone(EmitFrame(s, "", false, true, env).0); t.rekey.awaitingPeer && !RekeyPending(t)
  {
    hide KeyAt;
  }

  // By the automatic trigger alone a fresh session comes to wait for the peer's pair: after
  // 64 payloads and the carrier that publishes its own.
  lemma WaitingIsReached(root: Term, initiator: bool, eph: nat, kem: nat, env: Env)
    ensures var script := seq(REKEY_EVERY, _ => (DatagramCall(""), env)) + [(CarrierCall, env), (CarrierDoneCall, env)];
            var s := Run(Established(root, initiator, true, eph, kem), script);
            Discipline(s) && Fitting(s) && s.rekey.carrier.None? && Room(s).None?
  {
    hide Discipline, RekeyPending, Carrier, Fitting;
    var start := Established(root, initiator, true, eph, kem);
    EstablishedDisciplined(root, initiator, eph, kem);
    Payloads(start, REKEY_EVERY, env);
    var payloads: Script := seq(REKEY_EVERY, _ => (DatagramCall(""), env));
    var script: Script := payloads + [(CarrierCall, env), (CarrierDoneCall, env)];
    var t := Run(start, payloads);
    PublishesFirst(t, env);
    assert script[..REKEY_EVERY + 1][..REKEY_EVERY] == payloads;
    assert Run(start, script[..REKEY_EVERY + 1]) == Carrier(t, env).0;
    assert script[..|script| - 1] == script[..REKEY_EVERY + 1];
    FittingNone(CarrierDone(Carrier(t, env).0));
  }
}
