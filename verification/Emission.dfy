/**
 Which texts a session can emit (src/session.c:711-787): a re-key header takes room in
 the frame, and when the text no longer fits, the emission fails after the flags and the
 chain have moved. What each branch leaves behind, and who notices.
 */
module Emissions {
  import opened Limits
  import opened Symbolic
  import opened Ratchets
  import opened SentRings
  import opened Sessions
  import opened Receiving
  import opened Carriers

  // ----- the header that is due -----------------------------------------------------------

  datatype Branch = PublishRotated | FoldNow | PublishFirst | PublishBack | NoHeader

  // What the choice depends on: the flags, whether the peer's point is contributory, and
  // the frames since the last fold.
  datatype Guards = Guards(rotated: bool, due: bool, peer: bool, sound: bool, waiting: bool, back: bool, count: nat)

  function GuardsOf(s: State): Guards {
    Guards(s.rekey.postFoldPublish, s.rekey.rekeyDue, s.rekey.peerHave, Contributory(s.rekey.peerEph),
           s.rekey.awaitingPeer, s.rekey.publishBack, s.send.sinceFold)
  }

  predicate DueBy(g: Guards) { g.due || (!g.waiting && g.count >= REKEY_EVERY) }

  function BranchBy(g: Guards): Branch {
    if g.rotated then PublishRotated
    else if DueBy(g) && g.peer then (if g.sound then FoldNow else NoHeader)
    else if DueBy(g) && !g.waiting then PublishFirst
    else if g.back then PublishBack
    else NoHeader
  }

  predicate IsDue(s: State) { DueBy(GuardsOf(s)) }

  function BranchOf(s: State): Branch { if s.lossy then NoHeader else BranchBy(GuardsOf(s)) }

  // The longest text that fits.
  function Capacity(b: Branch, gcm: bool): nat {
    match b
    case NoHeader => DATA_MAX
    case FoldNow => if gcm then 260 else 248
    case _ => if gcm then 141 else 129
  }

  // The flags that a failed emission leaves.
  function FlagsLeft(s: State, env: Env): Rekeying {
    var k := s.rekey.(rekeyDue := IsDue(s));
    match BranchOf(s)
    case PublishRotated => k.(published := true, postFoldPublish := false, publishBack := false)
    case PublishFirst =>
      k.(haveKem := true, kem := if k.haveKem then k.kem else env.kem, published := true, awaitingPeer := true, rekeyDue := false)
    case PublishBack => k.(published := true, publishBack := false)
    case _ => k
  }

  // A text is emitted exactly if it fits beside the header that is due. If it fits in a
  // frame but not beside the header, the pair counts as published (or awaited) and the
  // chain has moved on, with nothing on the wire and nothing buffered.
  lemma EmissionNeedsRoom(s: State, text: Text, env: Env)
    requires s.active && !(s.lossy && s.rekey.carrier.Some?)
    ensures var (t, r) := SendText(s, text, env);
            && (r.Emitted? <==> |text| <= Capacity(BranchOf(s), env.gcm))
            && (!r.Emitted? ==> r == Failed(BadState))
            && (!r.Emitted? ==> t == if |text| > DATA_MAX then s
                                     else s.(rekey := FlagsLeft(s, env), send := StepChain(s.send)))
            && (r.Emitted? ==>
                  && r.frame.Data?
                  && (r.frame.hdr.Rekey? <==> BranchOf(s) == FoldNow)
                  && (r.frame.hdr.Plain? <==> BranchOf(s) == NoHeader)
                  && (BranchOf(s) in {PublishRotated, PublishFirst, PublishBack} <==>
                        r.frame.hdr == KemPub(FlagsLeft(s, env).kem, Pub(s.rekey.eph))))
  {
    hide AddSent, StepChain, KeyAt;
  }

  // The guards that a failed emission leaves, and those that a frame leaves.
  function AfterFailure(g: Guards): Guards {
    var d := g.(due := DueBy(g));
    match BranchBy(g)
    case PublishRotated => d.(rotated := false, back := false)
    case PublishFirst => d.(waiting := true, due := false)
    case PublishBack => d.(back := false)
    case _ => d
  }

  function AfterFrame(g: Guards): Guards {
    if BranchBy(g) == FoldNow then g.(due := false, peer := false, count := 0)
    else AfterFailure(g).(count := g.count + 1)
  }

  lemma PickGuards(s: State, env: Env)
    requires !s.lossy
    ensures var (k, hdr, fold) := HeaderFor(s, false, env);
            && (fold.Some? <==> BranchBy(GuardsOf(s)) == FoldNow)
            && GuardsOf(s.(rekey := k)) == AfterFailure(GuardsOf(s))
  {
  }

  lemma FoldGuards(s: State, env: Env)
    requires BranchBy(GuardsOf(s)) == FoldNow
    ensures AfterFrame(GuardsOf(s)) == AfterFailure(GuardsOf(s)).(due := false, peer := false, count := 0)
  {
  }

  lemma EmissionGuards(s: State, text: Text, env: Env)
    requires s.active && !s.lossy && |text| <= DATA_MAX
    ensures var (t, r) := SendText(s, text, env);
            GuardsOf(t) == if r.Emitted? then AfterFrame(GuardsOf(s)) else AfterFailure(GuardsOf(s))
  {
    hide AddSent, KeyAt, HeaderFor, AfterFailure, BranchBy, FrameLen;
    PickGuards(s, env);
    if BranchBy(GuardsOf(s)) == FoldNow { FoldGuards(s, env); }
  }

  // So a text of that length never makes a frame too long.
  lemma DueHeaderFits(s: State, text: Text, carrierOnly: bool, env: Env)
    requires |text| <= Capacity(BranchOf(s), false) && (carrierOnly ==> text == "")
    ensures FrameLen(env.gcm, HeaderFor(s, carrierOnly, env).1, text) <= FRAME_MAX
  {
  }

  // ----- after a failure ------------------------------------------------------------------

  function Failing(s: State, text: Text, env: Env): State { SendText(s, text, env).0 }

  predicate TooLong(s: State, text: Text, env: Env) {
    s.active && !s.lossy && Capacity(BranchOf(s), env.gcm) < |text| <= DATA_MAX
  }

  // The next text, however short, carries the header that did not go out: always a REKEY;
  // a pair only if a second reason to publish it is left.
  lemma RetryPublishes(s: State, text: Text, env: Env, again: Env)
    requires TooLong(s, text, env)
    ensures var r := SendText(Failing(s, text, env), "", again).1;
            && r.Emitted? && r.frame.Data?
            && (BranchOf(s) == FoldNow ==> r.frame.hdr.Rekey?)
            && (BranchOf(s) != FoldNow ==>
                  (r.frame.hdr.KemPub? <==>
                     || (BranchOf(s) == PublishRotated && IsDue(s) && !s.rekey.peerHave && !s.rekey.awaitingPeer)
                     || (BranchOf(s) == PublishFirst && s.rekey.publishBack)))
            && (s.rekey.haveKem && r.frame.hdr.KemPub? ==> r.frame.hdr == KemPub(s.rekey.kem, Pub(s.rekey.eph)))
  {
    hide EmitFrame, Capacity;
    EmissionNeedsRoom(s, text, env);
    var t := Failing(s, text, env);
    EmissionNeedsRoom(t, "", again);
    assert 0 <= Capacity(BranchOf(t), again.gcm);
    assert t.send.sinceFold == s.send.sinceFold;
  }

  // A side that waits for the peer's pair, with nothing left to publish.
  predicate Stuck(s: State) {
    && s.active && !s.lossy && s.rekey.carrier.None?
    && s.rekey.awaitingPeer && !s.rekey.peerHave && !s.rekey.postFoldPublish && !s.rekey.publishBack
  }

  predicate PlainOnly(r: EmitResult) { r.Emitted? && r.frame.Data? ==> r.frame.hdr == Plain }

  lemma StuckEmits(s: State, text: Text, fromOldest: bool, carrierOnly: bool, env: Env)
    requires Stuck(s)
    ensures var (t, r) := EmitFrame(s, text, fromOldest, carrierOnly, env);
            Stuck(t) && t.rekey == s.rekey && t.rel == s.rel && PlainOnly(r)
  {
    hide AddSent;
  }

  lemma {:induction false} StuckResends(s: State, r: nat, env: Env)
    requires Stuck(s)
    ensures var (t, result) := Resend(s, r, env); Stuck(t) && PlainOnly(result)
    decreases |s.sent| - r
  {
    hide EmitFrame, Filter;
    if r < |s.sent| {
      if Asked(s, s.sent[r]) {
        StuckEmits(s, s.sent[r].text, r == 0, false, env);
        var (t, result) := EmitFrame(s, s.sent[r].text, r == 0, false, env);
        if !result.Emitted? { StuckResends(t, r + 1, env); }
      } else {
        StuckResends(s, r + 1, env);
      }
    }
  }

  lemma StuckStep(s: State, c: Call, env: Env)
    requires Stuck(s) && !c.FeedCall?
    ensures Stuck(Step(s, c, env)) && !RekeyPending(s) && PlainOnly(EmittedBy(s, c, env))
  {
    hide EmitFrame;
    match c
    case SendCall(text) => StuckEmits(s, text, false, false, env);
    case DatagramCall(text) => StuckEmits(s, text, false, false, env);
    case FlushCall => if s.pending != [] { StuckEmits(s, s.pending[0], false, false, env); }
    case PollCall => StuckResends(s, 0, env);
    case _ =>
  }

  // As long as nothing arrives from the peer, whatever is called, such a side publishes
  // nothing and has no re-key pending. A pair that the peer publishes ends the wait.
  lemma {:induction false} StuckRun(s: State, script: Script, c: Call, env: Env)
    requires Stuck(s) && !c.FeedCall? && forall i | 0 <= i < |script| :: !script[i].0.FeedCall?
    ensures var t := Run(s, script); Stuck(t) && !RekeyPending(t) && PlainOnly(EmittedBy(t, c, env))
  {
    hide Step, RekeyPending, Stuck, EmittedBy;
    if script != [] {
      var last := script[|script| - 1];
      StuckRun(s, script[..|script| - 1], last.0, last.1);
      StuckStep(Run(s, script[..|script| - 1]), last.0, last.1);
    }
    StuckStep(Run(s, script), c, env);
  }

  lemma PeerEndsWait(s: State, kem: nat, point: Point)
    requires Stuck(s)
    ensures var k := ApplyKemPub(s.rekey, kem, point);
            !k.awaitingPeer && k.rekeyDue && k.peerHave <==> Contributory(point)
  {
  }

  // A first publication that fails leaves the side stuck exactly if it owed the peer no
  // pair; so does a failed publication of a rotated pair exactly if it was waiting already.
  lemma FailureSticks(s: State, text: Text, env: Env)
    requires TooLong(s, text, env) && s.rekey.carrier.None?
    ensures BranchOf(s) == PublishFirst ==> (Stuck(Failing(s, text, env)) <==> !s.rekey.publishBack)
    ensures BranchOf(s) == PublishRotated ==> (Stuck(Failing(s, text, env)) <==> s.rekey.awaitingPeer && !s.rekey.peerHave)
    ensures BranchOf(s) == PublishBack ==>
              (Stuck(Failing(s, text, env)) <==> s.rekey.awaitingPeer && !s.rekey.peerHave)
  {
    hide EmitFrame, Capacity;
    EmissionNeedsRoom(s, text, env);
  }

  // ----- the failure is reached -----------------------------------------------------------

  lemma {:induction false} ShortTexts(start: State, k: nat, env: Env)
    requires exists root, initiator, eph, kem :: start == Established(root, initiator, false, eph, kem)
    requires k <= REKEY_EVERY
    ensures var t := Run(start, seq(k, _ => (SendCall(""), env)));
            && t.active && !t.lossy && t.rekey == start.rekey && t.send.sinceFold == k
  {
    if k > 0 {
      hide EmitFrame;
      ShortTexts(start, k - 1, env);
      var script := seq(k, _ => (SendCall(""), env));
      assert script[..k - 1] == seq(k - 1, _ => (SendCall(""), env));
      PlainStep(Run(start, script[..k - 1]), env);
    }
  }

  lemma PlainStep(s: State, env: Env)
    requires s.active && !s.lossy && s.rekey.carrier.None? && s.send.sinceFold < REKEY_EVERY
    requires !s.rekey.rekeyDue && !s.rekey.postFoldPublish && !s.rekey.publishBack
    ensures var t := EmitFrame(s, "", false, false, env).0;
            t.active && !t.lossy && t.rekey == s.rekey && t.send.sinceFold == s.send.sinceFold + 1
  {
    hide AddSent;
  }

  // A fresh session that has sent 64 short texts gets stuck by one of 142 bytes.
  lemma LongTextSticks(start: State, text: Text, env: Env)
    requires exists root, initiator, eph, kem :: start == Established(root, initiator, false, eph, kem)
    requires 141 < |text| <= DATA_MAX
    ensures Stuck(Run(start, seq(REKEY_EVERY, _ => (SendCall(""), env)) + [(SendCall(text), env)]))
  {
    hide EmitFrame, SendText;
    var short: Script := seq(REKEY_EVERY, _ => (SendCall(""), env));
    var script: Script := short + [(SendCall(text), env)];
    ShortTexts(start, REKEY_EVERY, env);
    assert script[..|script| - 1] == short;
    FailureSticks(Run(start, short), text, env);
  }
}
