/**
 struct TTSession and its methods (src/session.c:544-1032), updated in place. Every
 method is proved to do exactly what its function in module Sessions says.
 */
module SessionObjects {
  import opened Options
  import opened Limits
  import opened Symbolic
  import opened Ratchets
  import opened SentRings
  import opened Sessions

  class TTSession {
    var active: bool
    var lossy: bool
    var root: Term
    const send: TTRatchet
    const recv: TTRatchet
    var rekey: Rekeying
    const sent: SentBuf
    var rel: Recovery
    var pending: seq<Text>

    ghost const Repr: set<object> := {this, send, recv, send.skipped, recv.skipped, sent, sent.m}

    ghost predicate Valid()
      reads Repr
    {
      && send.Valid() && recv.Valid() && sent.Valid()
      && send != recv && send.skipped != recv.skipped
      && sent.m as object != send.skipped && sent.m as object != recv.skipped
    }

    ghost function View(): State
      requires Valid()
      reads Repr
    {
      State(active, lossy, root, send.View(), recv.View(), rekey, sent.Contents(), rel, pending)
    }

    // establish, on a session with nothing stashed
    constructor (handshake: Term, initiator: bool, lossy: bool, env: Env)
      ensures Valid() && fresh(Repr)
      ensures View() == Established(handshake, initiator, lossy, env.eph, env.kem)
    {
      active, root, pending := true, handshake, [];
      this.lossy := lossy;
      send := new TTRatchet(handshake, initiator);
      recv := new TTRatchet(handshake, !initiator);
      rekey := Rekeying(env.eph, true, env.kem, false, 0, SmallOrder(0), false, false, false, false, false, None);
      sent := new SentBuf();
      rel := Recovery(0, false, false, Seed(0), 0, false, Seed(0), 0);
    }

    // ----- receiving ----------------------------------------------------------------------

    method NoteDesync()
      requires Valid() && active
      modifies this`rel
      ensures Valid() && View() == Desync(old(View()))
    {
      if active && !lossy {
        rel := rel.(reqPending := true, reqGen := GenOf(root), reqFrom := recv.seqNo);
      }
    }

    method ApplyRekeyHeader(ct: Ciphertext, point: Point, env: Env)
      requires Valid()
      modifies this`rekey, recv
      ensures Valid() && View() == ApplyRekey(old(View()), ct, point, env)
    {
      var ss := KemDec(ct, rekey.kem);
      var dh := DhShared(rekey.eph, point);
      if dh.Some? {
        recv.FoldRoot(dh.value, ss);
        rekey := rekey.(peerEph := point);
        rekey := rekey.(eph := env.eph, kem := env.kem, haveKem := true);
        rekey := rekey.(published := false, postFoldPublish := true);
      }
    }

    method ApplyKemPubHeader(kem: nat, point: Point)
      requires Valid()
      modifies this`rekey
      ensures Valid() && View() == old(View()).(rekey := ApplyKemPub(old(rekey), kem, point))
    {
      var probe := DhShared(rekey.eph, point);
      if probe.Some? {
        rekey := rekey.(peerKem := kem, peerEph := point, peerHave := true);
        if rekey.awaitingPeer {
          rekey := rekey.(awaitingPeer := false, rekeyDue := true);
        } else if rekey.haveKem && !rekey.published {
          rekey := rekey.(publishBack := true);
        }
      }
    }

    // What follows a successful decrypt and the chain advance.
    method AcceptFrame(hdr: Header, env: Env)
      requires Valid()
      modifies this`rel, this`rekey, recv
      ensures Valid() && View() == Accept(old(View()), hdr, env)
    {
      if !lossy && recv.seqNo > rel.recvAcked + 1 {
        rel := rel.(recvAcked := recv.seqNo - 1, ackDue := true);
      }
      match hdr
      case Rekey(ct, point) => ApplyRekeyHeader(ct, point, env);
      case KemPub(kem, point) => ApplyKemPubHeader(kem, point);
      case _ =>
    }

    method FeedData(f: Frame, env: Env) returns (r: FeedResult)
      requires Valid() && active && f.Data?
      modifies this`rel, this`rekey, recv, recv.skipped
      ensures Valid() && (View(), r) == Feed(old(View()), f, env)
    {
      hide Accept, Desync, RemoveAt, AddSkipped, Commit, KeyAt, FindSkipped, Open;
      if f.hdr.Malformed? { return Rejected(DecodeFail); }
      var key;
      var fromRing := false;
      if f.seqNo == recv.seqNo {
        key := recv.MsgKeyAt(f.seqNo);
      } else if f.seqNo > recv.seqNo {
        if f.seqNo - recv.seqNo >= MAX_SKIP { return Rejected(SeqTooOld); }
        key := recv.MsgKeyAt(f.seqNo);
      } else {
        var taken := recv.SkippedTake(f.seqNo);
        if taken.None? { return Rejected(Replay); }
        key := taken.value;
        fromRing := true;
      }
      var text := Open(key, f);
      if text.None? {
        if fromRing { recv.SkippedAdd(f.seqNo, key); }
        NoteDesync();
        return Rejected(DecodeFail);
      }
      if !fromRing { recv.CommitTo(f.seqNo); }
      AcceptFrame(f.hdr, env);
      r := Delivered(text.value);
    }

    method FeedFrame(f: Frame, env: Env) returns (r: FeedResult)
      requires Valid()
      modifies Repr
      ensures Valid() && (View(), r) == Feed(old(View()), f, env)
    {
      if !active { return Rejected(NoSession); }
      match f
      case Control(key, note) =>
        if lossy || key != CtlKey(root) { return Rejected(DecodeFail); }
        match note {
          case AckNote(acked, gen) => sent.Ack(gen, acked);
          case ResendNote(gen, from) => rel := rel.(repPending := true, repGen := gen, repFrom := from);
        }
        r := Delivered("");
      case Data(_, _, _) =>
        r := FeedData(f, env);
    }

    // ----- emitting -----------------------------------------------------------------------

    method ChooseHeader(env: Env) returns (hdr: Header, fold: Option<Secrets>)
      requires Valid()
      modifies this`rekey
      ensures Valid() && (rekey, hdr, fold) == PickHeader(old(rekey), env)
    {
      hdr, fold := Plain, None;
      if rekey.postFoldPublish {
        hdr := KemPub(rekey.kem, Pub(rekey.eph));
        rekey := rekey.(published := true, postFoldPublish := false, publishBack := false);
      } else if rekey.rekeyDue && rekey.peerHave {
        var dh := DhShared(rekey.eph, rekey.peerEph);
        if dh.Some? {
          hdr := Rekey(Ct(rekey.peerKem, env.coin), Pub(rekey.eph));
          fold := Some(Secrets(dh.value, KemSecret(rekey.peerKem, env.coin)));
        }
      } else if rekey.rekeyDue && !rekey.awaitingPeer {
        if !rekey.haveKem {
          rekey := rekey.(kem := env.kem, haveKem := true);
        }
        hdr := KemPub(rekey.kem, Pub(rekey.eph));
        rekey := rekey.(published := true, awaitingPeer := true, rekeyDue := false);
      } else if rekey.publishBack {
        hdr := KemPub(rekey.kem, Pub(rekey.eph));
        rekey := rekey.(published := true, publishBack := false);
      }
    }

    method TriggerAndChoose(carrierOnly: bool, env: Env) returns (hdr: Header, fold: Option<Secrets>)
      requires Valid()
      modifies this`rekey
      ensures Valid() && (rekey, hdr, fold) == HeaderFor(old(View()), carrierOnly, env)
      ensures View() == old(View()).(rekey := rekey)
    {
      hide PickHeader;
      if !rekey.awaitingPeer && send.sinceFold >= REKEY_EVERY {
        rekey := rekey.(rekeyDue := true);
      }
      hdr, fold := Plain, None;
      if !lossy || carrierOnly {
        hdr, fold := ChooseHeader(env);
      }
    }

    method Emit(text: Text, fromOldest: bool, carrierOnly: bool, env: Env) returns (r: EmitResult)
      requires Valid()
      modifies Repr
      ensures Valid() && (View(), r) == EmitFrame(old(View()), text, fromOldest, carrierOnly, env)
    {
      hide StepChain, Sending, PickHeader, HeaderFor, KeyAt, Seal, FrameLen;
      if lossy && rekey.carrier.Some? { return Failed(CarrierParked); }
      var wiped := fromOldest && sent.count >= SENT_MAX;
      var hdr, fold := TriggerAndChoose(carrierOnly, env);
      var n, key := send.SendKey();
      if FrameLen(env.gcm, hdr, text) > FRAME_MAX { return Failed(BadState); }
      var f := Seal(key, n, hdr, text);
      Record(n, if wiped then Zeros(|text|) else text, f, fold);
      r := Emitted(f);
    }

    // What follows the encoding of frame f.
    method Record(n: nat, stored: Text, f: Frame, fold: Option<Secrets>)
      requires Valid() && f.Data?
      modifies Repr
      ensures Valid() && View() == Sending(old(View()), n, stored, f, fold)
    {
      hide AddSent, Fold;
      if !lossy { sent.Add(Sent(GenOf(root), n, stored)); }
      if fold.Some? {
        send.FoldRoot(fold.value.dh, fold.value.kem);
        rekey := rekey.(rekeyDue := false, peerHave := false);
      } else {
        send.CountFrame();
      }
      if lossy && !f.hdr.Plain? {
        rekey := rekey.(carrier := Some(f));
      }
    }

    method CarrierFrame(env: Env) returns (r: EmitResult)
      requires Valid()
      modifies Repr
      ensures Valid() && (View(), r) == Carrier(old(View()), env)
    {
      if !active { return Nothing; }
      if rekey.carrier.Some? { return Emitted(rekey.carrier.value); }
      var due := IsRekeyPending();
      if !due { return Nothing; }
      r := Emit("", false, true, env);
    }

    method IsRekeyPending() returns (due: bool)
      requires Valid()
      ensures due == RekeyPending(View())
    {
      if !active { return false; }
      if !rekey.awaitingPeer && send.sinceFold >= REKEY_EVERY { return true; }
      if rekey.rekeyDue && rekey.peerHave { return true; }
      if rekey.rekeyDue && !rekey.awaitingPeer { return true; }
      if rekey.postFoldPublish { return true; }
      if rekey.publishBack { return true; }
      return false;
    }

    method MarkCarrierDone()
      requires Valid()
      modifies this`rekey
      ensures Valid() && View() == CarrierDone(old(View()))
    {
      rekey := rekey.(carrier := None);
    }

    method MarkRekeyDue()
      requires Valid()
      modifies this`rekey
      ensures Valid() && View() == ForceRekey(old(View()))
    {
      if !active { return; }
      rekey := rekey.(rekeyDue := true);
    }

    method Send(text: Text, env: Env) returns (r: EmitResult)
      requires Valid()
      modifies Repr
      ensures Valid() && (View(), r) == SendText(old(View()), text, env)
    {
      if |text| > DATA_MAX { return Failed(BadState); }
      if !active {
        if |pending| >= PENDING_MAX { return Failed(Busy); }
        if |text| > 0 { pending := pending + [text]; }
        return Nothing;
      }
      r := Emit(text, false, false, env);
    }

    method SendDatagram(text: Text, env: Env) returns (r: EmitResult)
      requires Valid()
      modifies Repr
      ensures Valid() && (View(), r) == SendLossy(old(View()), text, env)
    {
      if |text| > DATA_MAX { return Failed(BadState); }
      if !active { return Nothing; }
      r := Emit(text, false, false, env);
    }

    method FlushOne(env: Env) returns (r: EmitResult)
      requires Valid()
      modifies Repr
      ensures Valid() && (View(), r) == Flush(old(View()), env)
    {
      if !active || |pending| == 0 { return Nothing; }
      r := Emit(pending[0], false, false, env);
      if !r.Emitted? { return r; }
      pending := pending[1..];
    }

    method Poll(env: Env) returns (r: EmitResult)
      requires Valid()
      modifies Repr
      ensures Valid() && (View(), r) == RelPoll(old(View()), env)
    {
      if !active { return Nothing; }
      if rel.reqPending {
        rel := rel.(reqPending := false);
        return Emitted(Control(CtlKey(root), ResendNote(rel.reqGen, rel.reqFrom)));
      }
      if rel.repPending {
        r := PollResend(env);
        return;
      }
      if rel.ackDue {
        rel := rel.(ackDue := false);
        return Emitted(Control(CtlKey(root), AckNote(rel.recvAcked, GenOf(root))));
      }
      r := Nothing;
    }

    method PollResend(env: Env) returns (r: EmitResult)
      requires Valid()
      modifies Repr
      ensures Valid() && (View(), r) == Resend(old(View()), 0, env)
    {
      hide EmitFrame, RemoveSent, Rotated;
      ghost var goal := Resend(View(), 0, env);
      var i := 0;
      while i < sent.count
        invariant Valid() && i <= sent.count
        invariant Resend(View(), i, env) == goal
      {
        var e := sent.Get(i);
        if e.gen == rel.repGen && e.seqNo >= rel.repFrom {
          r := Emit(e.text, i == 0, false, env);
          if r.Emitted? {
            sent.Remove(e.gen, e.seqNo);
            return;
          }
        }
        i := i + 1;
      }
      rel := rel.(repPending := false);
      r := Nothing;
    }
  }
}
