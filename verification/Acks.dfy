/**
 What an acknowledgement says (src/session.c:188-206, 603-611, 990-1013): the number that
 it carries is one below the next expected one, whether or not everything up to it was
 delivered, and the sender drops every text of that generation up to it.
 */
module Acks {
  import opened Symbolic
  import opened Ratchets
  import opened SentRings
  import opened Sessions
  import opened Receiving
  import opened Delivery
  import opened Completeness

  // ----- the number that is acknowledged ------------------------------------------------------

  predicate InMark(s: State) { !s.lossy && s.rel.recvAcked + 1 == s.recv.seqNo }

  lemma EmitKeepsMark(s: State, text: Text, fromOldest: bool, carrierOnly: bool, env: Env)
    requires InMark(s)
    ensures var t := EmitFrame(s, text, fromOldest, carrierOnly, env).0; InMark(t) && t.rel == s.rel
  {
    hide HeaderFor, AddSent;
  }

  lemma {:induction false} ResendKeepsMark(s: State, r: nat, env: Env)
    requires InMark(s)
    ensures InMark(Resend(s, r, env).0)
    decreases |s.sent| - r
  {
    hide EmitFrame, Filter;
    if r < |s.sent| {
      if Asked(s, s.sent[r]) {
        EmitKeepsMark(s, s.sent[r].text, r == 0, false, env);
        var (t, result) := EmitFrame(s, s.sent[r].text, r == 0, false, env);
        if !result.Emitted? { ResendKeepsMark(t, r + 1, env); }
      } else {
        ResendKeepsMark(s, r + 1, env);
      }
    }
  }

  lemma FeedKeepsMark(s: State, f: Frame, env: Env)
    requires InMark(s)
    ensures InMark(Feed(s, f, env).0)
  {
    hide SkipTo, AddSkipped, RemoveAt, KeyAt, AckSent, Open, FindSkipped;
    if s.active && f.Data? && !f.hdr.Malformed? {
      if s.recv.seqNo <= f.seqNo {
        AcceptMarks(s.(recv := Commit(s.recv, f.seqNo)), f.hdr, env);
      } else if FindSkipped(s.recv.skipped, f.seqNo) < |s.recv.skipped| {
        AcceptMarks(s.(recv := s.recv.(skipped := RemoveAt(s.recv.skipped, FindSkipped(s.recv.skipped, f.seqNo)))), f.hdr, env);
      }
    }
  }

  lemma AcceptMarks(s: State, hdr: Header, env: Env)
    requires !s.lossy && s.rel.recvAcked + 1 <= s.recv.seqNo
    ensures InMark(Accept(s, hdr, env))
  {
  }

  lemma StepKeepsMark(s: State, c: Call, env: Env)
    requires InMark(s)
    ensures InMark(Step(s, c, env))
  {
    hide EmitFrame, Feed;
    match c
    case FeedCall(f) => FeedKeepsMark(s, f, env);
    case SendCall(text) => EmitKeepsMark(s, text, false, false, env);
    case DatagramCall(text) => EmitKeepsMark(s, text, false, false, env);
    case CarrierCall => EmitKeepsMark(s, "", false, true, env);
    case FlushCall => if s.pending != [] { EmitKeepsMark(s, s.pending[0], false, false, env); }
    case PollCall => ResendKeepsMark(s, 0, env);
    case _ =>
  }

  lemma {:induction false} RunKeepsMark(s: State, script: Script)
    requires InMark(s)
    ensures InMark(Run(s, script))
  {
    hide Step, InMark;
    if script != [] {
      var last := script[|script| - 1];
      RunKeepsMark(s, script[..|script| - 1]);
      StepKeepsMark(Run(s, script[..|script| - 1]), last.0, last.1);
    }
  }

  // ----- what it promises ---------------------------------------------------------------------

  // What holds of the receiver after such a run.
  lemma AfterRun(start: State, sent: nat -> Message, script: Script)
    requires exists root, initiator, eph, kem :: start == Established(root, initiator, false, eph, kem)
    requires AllAuthentic(script, start.recv.chain, 1, sent) && RoomyRun(start, script)
    ensures var t := Run(start, script);
            && InMark(t) && Hygiene(t.recv, Log(start, script)) && Complete(t.recv, 1, Log(start, script))
            && Follows(t.recv, start.recv.chain, 1)
  {
    hide Authentic, RoomyRun, Step;
    RunDelivers(start, start.recv.chain, 1, sent, script);
    RunComplete(start, start.recv.chain, 1, sent, script);
    RunKeepsMark(start, script);
  }

  // Everything up to the acknowledged number was delivered exactly if no key is stored.
  lemma AckedIff(start: State, sent: nat -> Message, script: Script)
    requires exists root, initiator, eph, kem :: start == Established(root, initiator, false, eph, kem)
    requires AllAuthentic(script, start.recv.chain, 1, sent) && RoomyRun(start, script)
    ensures var t := Run(start, script);
            (forall n | 1 <= n <= t.rel.recvAcked :: n in Log(start, script)) <==> t.recv.skipped == []
  {
    hide Authentic, RoomyRun, Run, Log;
    AfterRun(start, sent, script);
    var t := Run(start, script);
    if t.recv.skipped != [] {
      var e := t.recv.skipped[0];
      assert e in t.recv.skipped;
      assert 1 <= e.seqNo <= t.rel.recvAcked && e.seqNo !in Log(start, script);
    }
  }

  // What the sender drops on such an acknowledgement: of the receiver's generation, the
  // texts up to that number. Those among them that were not delivered are the ones whose
  // keys are stored.
  lemma AckDrops(start: State, sent: nat -> Message, script: Script, x: State, e: Sent, env: Env)
    requires exists root, initiator, eph, kem :: start == Established(root, initiator, false, eph, kem)
    requires AllAuthentic(script, start.recv.chain, 1, sent) && RoomyRun(start, script)
    requires x.active && !x.lossy && x.root == start.root
    requires e in x.sent && e.gen == GenOf(x.root) && e.seqNo >= 1
    ensures var t := Run(start, script);
            var x' := Feed(x, Control(CtlKey(x.root), AckNote(t.rel.recvAcked, GenOf(x.root))), env).0;
            && (e !in x'.sent <==> e.seqNo <= t.rel.recvAcked)
            && (e !in x'.sent ==> (e.seqNo !in Log(start, script) <==> Stored(t.recv, e.seqNo).Some?))
  {
    hide Authentic, RoomyRun, Run, Log;
    AfterRun(start, sent, script);
    var t := Run(start, script);
    var acked := t.rel.recvAcked;
    FilterMembers(x.sent, z => !Acked(z, GenOf(x.root), acked), e);
    if Stored(t.recv, e.seqNo).Some? { StoredBelow(t.recv, Log(start, script), e.seqNo); }
  }

  // ----- the first case in which it promises too much -----------------------------------------

  // Two texts, of which the second arrives first: the receiver acknowledges number 2, and the
  // sender drops the first text too, which was never delivered.
  lemma AckDropsUndelivered(root: Term, a: Env, b: Env, env: Env)
    ensures var x, y := Established(root, true, false, a.eph, a.kem), Established(root, false, false, b.eph, b.kem);
            var (x1, first) := SendText(x, "a", env);
            var (x2, second) := SendText(x1, "b", env);
            && first.Emitted? && second.Emitted?
            && x2.sent == [Sent(GenOf(root), 1, "a"), Sent(GenOf(root), 2, "b")]
            && var (y1, heard) := Feed(y, second.frame, env);
               var (y2, ack) := RelPoll(y1, env);
               && heard == Delivered("b") && ack == Emitted(Control(CtlKey(root), AckNote(2, GenOf(root))))
               && Log(y, [(FeedCall(second.frame), env)]) == [2]
               && Feed(x2, ack.frame, env).0.sent == []
  {
    var x, y := Established(root, true, false, a.eph, a.kem), Established(root, false, false, b.eph, b.kem);
    var (x1, first) := SendText(x, "a", env);
    var (x2, second) := SendText(x1, "b", env);
    var c := Derived(root, Initiator);
    var e, f := Sent(GenOf(root), 1, "a"), Sent(GenOf(root), 2, "b");
    assert first == Emitted(Seal(MsgKey(c), 1, Plain, "a")) && x1.sent == [e];
    assert second == Emitted(Seal(MsgKey(NextChain(c)), 2, Plain, "b")) && x2.sent == [e, f];
    HearsSecond(y, root, c, env);
    DropsBoth(x2, e, f, env);
    assert [(FeedCall(second.frame), env)][..0] == [];
  }

  lemma HearsSecond(y: State, root: Term, c: Term, env: Env)
    requires y.active && !y.lossy && y.root == root && y.recv == Ratchet(c, 1, root, 0, [])
    requires y.rel == Recovery(0, false, false, Seed(0), 0, false, Seed(0), 0)
    ensures var (t, r) := Feed(y, Seal(MsgKey(NextChain(c)), 2, Plain, "b"), env);
            && r == Delivered("b")
            && RelPoll(t, env).1 == Emitted(Control(CtlKey(root), AckNote(2, GenOf(root))))
  {
    assert ChainAt(c, 1) == NextChain(ChainAt(c, 0));
  }

  lemma DropsBoth(x: State, e: Sent, f: Sent, env: Env)
    requires x.active && !x.lossy && x.sent == [e, f] && e.gen == f.gen == GenOf(x.root) && e.seqNo <= 2 && f.seqNo <= 2
    ensures Feed(x, Control(CtlKey(x.root), AckNote(2, GenOf(x.root))), env).0.sent == []
  {
    var keep := z => !Acked(z, GenOf(x.root), 2);
    assert [e, f][..1] == [e] && [e][..0] == [];
    assert Filter([e], keep) == [] && Filter([e, f], keep) == [];
  }
}
