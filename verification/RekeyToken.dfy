/**
 The direction of a sender that builds any number of frames toward a receiver that keeps
 to the bound (src/session.c:613-672, 723-819). Each pair of the receiver is in one place:
 not published yet, published and on its way, cached by the sender, or the target of a
 REKEY on its way. So a REKEY never meets a rotated pair, however often the sender re-keys.
 */
module RekeyToken {
  import opened Limits
  import opened Symbolic
  import opened Sessions
  import opened RekeyLink

  // ----- the invariant --------------------------------------------------------------------------

  function Pubs(frames: seq<Frame>): nat {
    if frames == [] then 0 else (if IsPub(frames[0]) then 1 else 0) + Pubs(frames[1..])
  }

  // The places in which y's pair may be.
  predicate OnePlace(x: Rekeying, y: Rekeying, out: seq<Frame>, back: seq<Frame>) {
    Pubs(back) + (if x.peerHave then 1 else 0) + Rekeys(out) + (if y.published then 0 else 1) == 1
  }

  // Why y, if it keeps to the bound, publishes a pair only once. `spent`: y has sent a
  // REKEY since the last quiescent state, and so is not due for another.
  predicate Sparing(y: Rekeying, spent: bool) {
    && (y.postFoldPublish ==> !y.published)
    && ((y.published || y.postFoldPublish) && !y.peerHave ==> y.awaitingPeer || spent)
    && (y.publishBack ==> !y.published && (y.peerHave || spent))
  }

  // A side that has the peer's pair has published its own, or is going to.
  predicate Answered(k: Rekeying) {
    k.peerHave && !k.published ==> k.publishBack || k.postFoldPublish
  }

  ghost predicate Loose(x: State, y: State, out: seq<Frame>, back: seq<Frame>, spent: bool, lost: nat) {
    && x.active && y.active
    && Flags(x.rekey) && Flags(y.rekey) && Answered(x.rekey) && Answered(y.rekey)
    && InStep(x, y, out, lost)
    && OnePlace(x.rekey, y.rekey, out, back)
    && Aimed(out, y.rekey)
    && (x.rekey.peerHave ==> UpToDate(x.rekey, y.rekey, back))
    && (HasPub(back) ==> EndsCurrent(back, y.rekey))
    && Sparing(y.rekey, spent)
  }

  lemma {:induction false} PubsAppend(frames: seq<Frame>, f: Frame)
    ensures Pubs(frames + [f]) == Pubs(frames) + if IsPub(f) then 1 else 0
    decreases |frames|
  {
    if frames == [] {
      assert [f][1..] == [] && frames + [f] == [f];
    } else {
      assert (frames + [f])[1..] == frames[1..] + [f];
      PubsAppend(frames[1..], f);
    }
  }

  lemma {:induction false} PubsSome(frames: seq<Frame>)
    ensures HasPub(frames) <==> Pubs(frames) > 0
    decreases |frames|
  {
    if frames != [] {
      PubTail(frames);
      PubsSome(frames[1..]);
    }
  }

  // ----- x builds frames --------------------------------------------------------------------------

  lemma EmitAnswered(x: State, t: State, f: Frame)
    requires Emits(x, t, f) && Answered(x.rekey)
    ensures Answered(t.rekey)
  {
  }

  lemma AimedAppend(frames: seq<Frame>, f: Frame, y: Rekeying)
    requires Aimed(frames, y) && (f.Data? && f.hdr.Rekey? ==> f.hdr.ct.Ct? && f.hdr.ct.pk == y.kem)
    ensures Aimed(frames + [f], y)
  {
  }

  lemma LooseForward(x: State, y: State, out: seq<Frame>, back: seq<Frame>, spent: bool, lost: nat, t: State, f: Frame)
    requires Loose(x, y, out, back, spent, lost) && Emits(x, t, f)
    ensures Loose(t, y, out + [f], back, spent, 0)
  {
    hide Replayed, Rekeys, Pubs, HasPub, AllCurrent, EndsCurrent, Aimed, Sparing, Answered;
    EmitFlags(x, t, f);
    EmitAnswered(x, t, f);
    AheadTake(x, t, f, Replayed(DirectionOf(y.recv), out, y.rekey.eph, y.rekey.kem).value, y.rekey, lost);
    ReplayAppend(DirectionOf(y.recv), out, f, y.rekey.eph, y.rekey.kem);
    AimedAppend(out, f, y.rekey);
  }

  // x builds a plain frame that the transport refuses.
  lemma LooseRefusedForward(x: State, y: State, out: seq<Frame>, back: seq<Frame>, spent: bool, lost: nat, t: State, f: Frame)
    requires Loose(x, y, out, back, spent, lost) && lost + 1 < MAX_SKIP
    requires Emits(x, t, f) && f.hdr.Plain?
    ensures Loose(t, y, out, back, spent, lost + 1)
  {
    hide Replayed, Rekeys, Pubs, HasPub, AllCurrent, EndsCurrent, Aimed, Sparing;
    EmitFlags(x, t, f);
  }

  // x sends a control frame.
  lemma LooseNoteForward(x: State, y: State, out: seq<Frame>, back: seq<Frame>, spent: bool, lost: nat, t: State, f: Frame)
    requires Loose(x, y, out, back, spent, lost) && f.Control?
    requires t.active && t.send == x.send && t.rekey == x.rekey
    ensures Loose(t, y, out + [f], back, spent, lost)
  {
    hide Replayed, Rekeys, Pubs, HasPub, AllCurrent, EndsCurrent, Aimed;
    ReplayAppend(DirectionOf(y.recv), out, f, y.rekey.eph, y.rekey.kem);
    AimedAppend(out, f, y.rekey);
  }

  // ----- y builds frames --------------------------------------------------------------------------

  // A side that keeps to the bound publishes a pair that was not published.
  lemma PublishesOnce(y: State, t: State, f: Frame, spent: bool, count: nat)
    requires Emits(y, t, f) && Sparing(y.rekey, spent) && Counting(y, spent, count) && count <= REKEY_EVERY
    ensures IsPub(f) ==> !y.rekey.published && t.rekey.published
    ensures !IsPub(f) ==> t.rekey.published == y.rekey.published
    ensures Sparing(t.rekey, spent || f.hdr.Rekey?)
  {
  }

  lemma EmitsCurrent(y: State, t: State, f: Frame)
    requires Emits(y, t, f)
    ensures Current(f, y.rekey) && t.rekey.eph == y.rekey.eph && t.rekey.kem == y.rekey.kem
  {
  }

  lemma LooseBackward(x: State, y: State, out: seq<Frame>, back: seq<Frame>, spent: bool, count: nat, lost: nat, t: State, f: Frame)
    requires Loose(x, y, out, back, spent, lost) && Counting(y, spent, count) && count <= REKEY_EVERY
    requires Emits(y, t, f)
    ensures Loose(x, t, out, back + [f], spent || f.hdr.Rekey?, lost)
  {
    hide Replayed, Rekeys, Pubs, HasPub, AllCurrent, EndsCurrent, FlagsAfter, Counting, Sparing, Answered, Aimed;
    EmitFlags(y, t, f);
    EmitAnswered(y, t, f);
    EmitsCurrent(y, t, f);
    PublishesOnce(y, t, f, spent, count);
    PubsAppend(back, f);
    PubAppend(back, f);
    PubsSome(back);
    CurrentAppend(back, f, y.rekey, t.rekey);
    AimedSamePair(out, y.rekey, t.rekey);
  }

  lemma AimedSamePair(frames: seq<Frame>, y: Rekeying, t: Rekeying)
    requires Aimed(frames, y) && t.kem == y.kem
    ensures Aimed(frames, t)
  {
  }

  // y builds a plain frame that the transport refuses.
  lemma LooseRefusedBackward(x: State, y: State, out: seq<Frame>, back: seq<Frame>, spent: bool, count: nat, lost: nat, t: State, f: Frame)
    requires Loose(x, y, out, back, spent, lost) && Counting(y, spent, count) && count <= REKEY_EVERY
    requires Emits(y, t, f) && f.hdr.Plain?
    ensures Loose(x, t, out, back, spent, lost)
  {
    hide Replayed, Rekeys, Pubs, HasPub, AllCurrent, EndsCurrent, FlagsAfter, Counting, Sparing, Answered, Aimed;
    EmitFlags(y, t, f);
    EmitAnswered(y, t, f);
    EmitsCurrent(y, t, f);
    PublishesOnce(y, t, f, spent, count);
    SamePair(back, y.rekey, t.rekey);
    AimedSamePair(out, y.rekey, t.rekey);
  }

  // y sends a control frame.
  lemma LooseNoteBackward(x: State, y: State, out: seq<Frame>, back: seq<Frame>, spent: bool, lost: nat, t: State, f: Frame)
    requires Loose(x, y, out, back, spent, lost) && f.Control?
    requires t.active && t.recv == y.recv && t.rekey == y.rekey
    ensures Loose(x, t, out, back + [f], spent, lost)
  {
    hide Replayed, Rekeys, Pubs, HasPub, AllCurrent, EndsCurrent, Aimed;
    PubsAppend(back, f);
    PubAppend(back, f);
    CurrentAppend(back, f, y.rekey, t.rekey);
  }

  // ----- deliveries -------------------------------------------------------------------------------

  // y takes the next frame of x.
  lemma LooseTake(x: State, y: State, out: seq<Frame>, back: seq<Frame>, spent: bool, lost: nat, t: State)
    requires Loose(x, y, out, back, spent, lost) && out != []
    requires Takes(y, t, out[0]) && Flags(t.rekey)
    ensures Loose(x, t, out[1..], back, spent, lost)
  {
    hide HasPub, AllCurrent, EndsCurrent, Aimed, Pubs;
    PubsSome(back);
    SamePair(back, y.rekey, t.rekey);
    AimedTail(out, y.rekey, t.rekey);
    if HeaderOf(out[0]).Rekey? {
      NoRekeyAimed(out[1..], t.rekey);
      ReplayAnyPair(DirectionOf(t.recv), out[1..], y.rekey.eph, y.rekey.kem, t.rekey.eph, t.rekey.kem);
    }
  }

  // x takes the next frame of y.
  lemma LooseHear(x: State, y: State, out: seq<Frame>, back: seq<Frame>, spent: bool, lost: nat, t: State)
    requires Loose(x, y, out, back, spent, lost) && back != []
    requires Takes(x, t, back[0]) && Flags(t.rekey)
    ensures Loose(t, y, out, back[1..], spent, lost)
  {
    hide Replayed, Rekeys, HasPub, AllCurrent, EndsCurrent, Aimed, Sparing;
    PubTail(back);
    PubsSome(back);
    PubsSome(back[1..]);
    CurrentTail(back, y.rekey);
    EndsWithPub(back[1..], y.rekey);
  }

  lemma EndsWithPub(frames: seq<Frame>, y: Rekeying)
    ensures EndsCurrent(frames, y) ==> HasPub(frames)
  {
  }

  // ----- quiescence -------------------------------------------------------------------------------

  // Nothing in flight and nothing left to publish on either side, and y has x's pair if x
  // has published it: then x has y's current pair if y has published it, the ends agree,
  // and x waits for nothing.
  lemma LooseSettled(x: State, y: State, spent: bool, lost: nat)
    requires Loose(x, y, [], [], spent, lost)
    requires !x.rekey.postFoldPublish && !y.rekey.postFoldPublish && !y.rekey.publishBack
    requires y.rekey.peerHave == x.rekey.published
    ensures DirectionOf(x.send) == Ahead(DirectionOf(y.recv), lost)
    ensures CachedCurrent(x.rekey, y.rekey)
    ensures x.rekey.peerHave == y.rekey.published && !x.rekey.awaitingPeer
  {
  }
}
