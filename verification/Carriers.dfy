/**
 The carrier discipline of lossy sessions (src/session.c:650-671, 711-778, 823-918),
 over every run of every operation, whatever frames are fed: a payload frame never
 carries a re-key header; a parked carrier blocks every other emission and is offered
 again unchanged; and tt_session_rekey_pending foretells exactly whether the next
 carrier build attaches a header.
 */
module Carriers {
  import opened Options
  import opened Symbolic
  import opened Ratchets
  import opened SentRings
  import opened Sessions
  import opened Receiving

  // What a call hands to the transport.
  function EmittedBy(s: State, c: Call, env: Env): EmitResult {
    match c
    case SendCall(text) => SendText(s, text, env).1
    case DatagramCall(text) => SendLossy(s, text, env).1
    case CarrierCall => Carrier(s, env).1
    case FlushCall => Flush(s, env).1
    case PollCall => RelPoll(s, env).1
    case _ => Nothing
  }

  predicate IsCarrier(f: Frame) { f.Data? && !f.hdr.Plain? }

  ghost predicate Discipline(s: State) {
    && s.lossy && s.active
    && !s.rel.reqPending && !s.rel.repPending && !s.rel.ackDue
    && s.rekey.haveKem
    && (s.rekey.awaitingPeer ==> !s.rekey.peerHave)
    && (s.rekey.peerHave ==> Contributory(s.rekey.peerEph))
    && (s.rekey.carrier.Some? ==> IsCarrier(s.rekey.carrier.value))
  }

  lemma FeedKeeps(s: State, f: Frame, env: Env)
    requires Discipline(s)
    ensures Discipline(Feed(s, f, env).0)
    ensures Feed(s, f, env).0.rekey.carrier == s.rekey.carrier && Feed(s, f, env).0.send == s.send
  {
    hide FindSkipped, AddSkipped, RemoveAt, Commit, KeyAt, Open, AckSent, Accept;
    if s.active && f.Data? && !f.hdr.Malformed? {
      if s.recv.seqNo <= f.seqNo {
        AcceptKeeps(s.(recv := Commit(s.recv, f.seqNo)), f.hdr, env);
      } else if FindSkipped(s.recv.skipped, f.seqNo) < |s.recv.skipped| {
        AcceptKeeps(s.(recv := s.recv.(skipped := RemoveAt(s.recv.skipped, FindSkipped(s.recv.skipped, f.seqNo)))), f.hdr, env);
      }
    }
  }

  lemma AcceptKeeps(s: State, hdr: Header, env: Env)
    requires Discipline(s)
    ensures var t := Accept(s, hdr, env);
            Discipline(t) && t.rekey.carrier == s.rekey.carrier && t.send == s.send
  {
  }

  // A payload frame is plain and moves no flag but the automatic trigger; a carrier build
  // parks what it built, unless that is plain.
  lemma EmitKeeps(s: State, text: Text, carrierOnly: bool, env: Env)
    requires Discipline(s)
    ensures var (t, r) := EmitFrame(s, text, false, carrierOnly, env);
            && Discipline(t)
            && (s.rekey.carrier.Some? ==> t == s && r == Failed(CarrierParked))
            && (!carrierOnly && r.Emitted? ==> r.frame.Data? && r.frame.hdr == Plain && t.rekey == Due(s))
            && (s.rekey.carrier.None? && r.Emitted? ==>
                  t.rekey.carrier == if IsCarrier(r.frame) then Some(r.frame) else None)
  {
    hide StepChain, KeyAt, AddSent;
  }

  // Every call keeps the discipline; while a carrier is parked nothing else is emitted,
  // and the carrier and the send ratchet stay until the transport accepts it.
  lemma CallKeeps(s: State, c: Call, env: Env)
    requires Discipline(s)
    ensures Discipline(Step(s, c, env))
    ensures s.rekey.carrier.Some? ==>
              && (EmittedBy(s, c, env).Emitted? ==> c.CarrierCall? && EmittedBy(s, c, env).frame == s.rekey.carrier.value)
              && (c.CarrierCall? ==> EmittedBy(s, c, env).Emitted?)
              && (!c.CarrierDoneCall? ==> Step(s, c, env).rekey.carrier == s.rekey.carrier && Step(s, c, env).send == s.send)
    ensures EmittedBy(s, c, env).Emitted? && IsCarrier(EmittedBy(s, c, env).frame) ==>
              c.CarrierCall? && Step(s, c, env).rekey.carrier == Some(EmittedBy(s, c, env).frame)
  {
    hide EmitFrame, Feed;
    match c
    case FeedCall(f) => FeedKeeps(s, f, env);
    case SendCall(text) => EmitKeeps(s, text, false, env);
    case DatagramCall(text) => EmitKeeps(s, text, false, env);
    case CarrierCall => EmitKeeps(s, "", true, env);
    case FlushCall => if s.pending != [] { EmitKeeps(s, s.pending[0], false, env); }
    case _ =>
  }

  lemma EstablishedDisciplined(root: Term, initiator: bool, eph: nat, kem: nat)
    ensures Discipline(Established(root, initiator, true, eph, kem))
  {
  }

  lemma {:induction false} RunKeeps(s: State, script: Script)
    requires Discipline(s)
    ensures Discipline(Run(s, script))
  {
    hide Discipline, Step;
    if script != [] {
      var last := script[|script| - 1];
      RunKeeps(s, script[..|script| - 1]);
      CallKeeps(Run(s, script[..|script| - 1]), last.0, last.1);
    }
  }

  lemma {:induction false} RunParks(s: State, script: Script, c: Call, env: Env)
    requires Discipline(s) && s.rekey.carrier.Some?
    requires forall i | 0 <= i < |script| :: !script[i].0.CarrierDoneCall?
    ensures Run(s, script).rekey.carrier == s.rekey.carrier && Run(s, script).send == s.send
    ensures EmittedBy(Run(s, script), c, env).Emitted? <==> c.CarrierCall?
    ensures c.CarrierCall? ==> EmittedBy(Run(s, script), c, env) == Emitted(s.rekey.carrier.value)
  {
    hide Discipline, Step, EmittedBy;
    if script != [] {
      var last := script[|script| - 1];
      RunParks(s, script[..|script| - 1], last.0, last.1);
      RunKeeps(s, script[..|script| - 1]);
      CallKeeps(Run(s, script[..|script| - 1]), last.0, last.1);
    }
    RunKeeps(s, script);
    CallKeeps(Run(s, script), c, env);
  }

  // Whatever a lossy session has been through when it parks a carrier: until the transport
  // accepts that carrier, every run leaves it parked, and whatever is emitted after the run
  // is that very frame.
  lemma ParkedStays(start: State, before: Script, script: Script, c: Call, env: Env)
    requires FreshLossy(start)
    requires Run(start, before).rekey.carrier.Some?
    requires forall i | 0 <= i < |script| :: !script[i].0.CarrierDoneCall?
    ensures var s := Run(start, before); var t := Run(s, script);
            && t.rekey.carrier == s.rekey.carrier && t.send == s.send
            && (EmittedBy(t, c, env).Emitted? <==> c.CarrierCall?)
            && (c.CarrierCall? ==> EmittedBy(t, c, env) == Emitted(s.rekey.carrier.value))
  {
    hide Discipline, EmittedBy;
    FreshKeeps(start, before);
    RunParks(Run(start, before), script, c, env);
  }

  ghost predicate FreshLossy(s: State) {
    exists root, initiator, eph, kem :: s == Established(root, initiator, true, eph, kem)
  }

  lemma FreshKeeps(s: State, script: Script)
    requires FreshLossy(s)
    ensures Discipline(Run(s, script))
  {
    var root, initiator, eph, kem :| s == Established(root, initiator, true, eph, kem);
    EstablishedDisciplined(root, initiator, eph, kem);
    RunKeeps(s, script);
  }

  // In every state that a fresh lossy session reaches and in which no carrier is parked, a
  // re-key is pending exactly if the carrier build attaches a header (and so parks its
  // frame).
  lemma PendingIffAttached(s: State, script: Script, env: Env)
    requires FreshLossy(s) && Run(s, script).rekey.carrier.None?
    ensures var t := Run(s, script); var (u, r) := Carrier(t, env);
            && (RekeyPending(t) <==> r.Emitted? && IsCarrier(r.frame))
            && (RekeyPending(t) <==> u.rekey.carrier.Some?)
            && (!RekeyPending(t) ==> u == t && r == Nothing)
  {
    FreshKeeps(s, script);
    PendingAttaches(Run(s, script), env);
  }

  lemma PendingAttaches(t: State, env: Env)
    requires Discipline(t) && t.rekey.carrier.None?
    ensures var (u, r) := Carrier(t, env);
            && (RekeyPending(t) <==> r.Emitted? && IsCarrier(r.frame))
            && (RekeyPending(t) <==> u.rekey.carrier.Some?)
            && (!RekeyPending(t) ==> u == t && r == Nothing)
  {
    hide StepChain, KeyAt, AddSent;
  }
}
