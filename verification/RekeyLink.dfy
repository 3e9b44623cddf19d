/**
 One direction of the two-party re-key protocol (src/session.c:613-672, 695-836):
 sender x, receiver y, the frames `out` on their way from x to y and the frames `back`
 on their way from y to x. Link is what every step of either party keeps.
 */
module RekeyLink {
  import opened Options
  import opened Limits
  import opened Symbolic
  import opened Ratchets
  import opened SentRings
  import opened Sessions
  import opened Emissions

  // ----- replaying the frames in flight -------------------------------------------------------

  // What two ends of a direction must agree on.
  datatype Direction = Direction(root: Term, chain: Term, seqNo: nat)

  function DirectionOf(r: Ratchet): Direction { Direction(r.root, r.chain, r.seqNo) }

  function FoldDirection(d: Direction, dh: Term, kem: Term): Direction {
    Direction(NewRoot(d.root, dh, kem), NewChain(d.root, dh, kem), d.seqNo)
  }

  // d, k messages later.
  function Ahead(d: Direction, k: nat): Direction {
    Direction(d.root, ChainAt(d.chain, k), d.seqNo + k)
  }

  // A receiver at d that owns the pair (eph, kem) takes the frame f: None if f is behind
  // d or 512 ahead of it, does not open, or carries a header that would be ignored. A
  // control frame moves nothing.
  function Take(d: Direction, f: Frame, eph: nat, kem: nat): Option<Direction> {
    if f.Control? then Some(d)
    else if f.seqNo < d.seqNo || f.seqNo - d.seqNo >= MAX_SKIP then None
    else if Open(MsgKey(ChainAt(d.chain, f.seqNo - d.seqNo)), f).None? then None else
      var next := Ahead(d, f.seqNo - d.seqNo + 1);
      match f.hdr
      case Plain => Some(next)
      case KemPub(_, point) => if Contributory(point) then Some(next) else None
      case Rekey(ct, point) =>
        var dh := DhShared(eph, point);
        if dh.None? then None else Some(FoldDirection(next, dh.value, KemDec(ct, kem)))
      case Malformed(_) => None
  }

  function Replayed(d: Direction, frames: seq<Frame>, eph: nat, kem: nat): Option<Direction>
    decreases |frames|
  {
    if frames == [] then Some(d) else
      match Take(d, frames[0], eph, kem)
      case None => None
      case Some(next) => Replayed(next, frames[1..], eph, kem)
  }

  function Rekeys(frames: seq<Frame>): nat {
    if frames == [] then 0 else (if frames[0].Data? && frames[0].hdr.Rekey? then 1 else 0) + Rekeys(frames[1..])
  }

  lemma {:induction false} ReplayAppend(d: Direction, frames: seq<Frame>, f: Frame, eph: nat, kem: nat)
    requires Replayed(d, frames, eph, kem).Some?
    ensures Replayed(d, frames + [f], eph, kem) == Take(Replayed(d, frames, eph, kem).value, f, eph, kem)
    ensures Rekeys(frames + [f]) == Rekeys(frames) + if f.Data? && f.hdr.Rekey? then 1 else 0
    decreases |frames|
  {
    hide Take;
    if frames != [] {
      assert (frames + [f])[1..] == frames[1..] + [f];
      ReplayAppend(Take(d, frames[0], eph, kem).value, frames[1..], f, eph, kem);
    } else {
      assert Rekeys([f]) == (if f.Data? && f.hdr.Rekey? then 1 else 0) + Rekeys([f][1..]);
    }
  }

  // Without a REKEY in flight the receiver's own pair does not matter.
  lemma {:induction false} ReplayAnyPair(d: Direction, frames: seq<Frame>, eph: nat, kem: nat, eph': nat, kem': nat)
    requires Rekeys(frames) == 0
    ensures Replayed(d, frames, eph, kem) == Replayed(d, frames, eph', kem')
    decreases |frames|
  {
    if frames != [] {
      var next := Take(d, frames[0], eph, kem);
      if next.Some? { ReplayAnyPair(next.value, frames[1..], eph, kem, eph', kem'); }
    }
  }

  // ----- what is published ----------------------------------------------------------------

  predicate IsPub(f: Frame) { f.Data? && f.hdr.KemPub? }

  ghost predicate HasPub(frames: seq<Frame>) {
    exists i :: 0 <= i < |frames| && IsPub(frames[i])
  }

  // The pair that frame f announces is y's current one.
  predicate Current(f: Frame, y: Rekeying) {
    f.Data? ==>
      match f.hdr
      case KemPub(kem, point) => kem == y.kem && point == Pub(y.eph)
      case Rekey(_, point) => point == Pub(y.eph)
      case _ => true
  }

  ghost predicate AllCurrent(frames: seq<Frame>, y: Rekeying) {
    forall i | 0 <= i < |frames| :: Current(frames[i], y)
  }

  // Some frame publishes y's current pair, and no later one announces another.
  ghost predicate EndsCurrent(frames: seq<Frame>, y: Rekeying) {
    exists j :: 0 <= j < |frames| && IsPub(frames[j]) && Current(frames[j], y) && AllCurrent(frames[j + 1..], y)
  }

  // x's copy of y's pair, if x has one, is y's current pair.
  predicate CachedCurrent(x: Rekeying, y: Rekeying) {
    x.peerHave ==> x.peerKem == y.kem && x.peerEph == Pub(y.eph)
  }

  ghost predicate UpToDate(x: Rekeying, y: Rekeying, back: seq<Frame>) {
    AllCurrent(back, y) && CachedCurrent(x, y)
  }

  // ----- the invariant of one direction -----------------------------------------------------

  // Every REKEY in flight is encapsulated to y's current pair.
  ghost predicate Aimed(frames: seq<Frame>, y: Rekeying) {
    forall i | 0 <= i < |frames| && frames[i].Data? && frames[i].hdr.Rekey? ::
      frames[i].hdr.ct.Ct? && frames[i].hdr.ct.pk == y.kem
  }

  lemma NoRekeyAimed(frames: seq<Frame>, y: Rekeying)
    requires Rekeys(frames) == 0
    ensures Aimed(frames, y)
  {
    forall i | 0 <= i < |frames| ensures !(frames[i].Data? && frames[i].hdr.Rekey?) { NoRekeyAt(frames, i); }
  }

  lemma {:induction false} NoRekeyAt(frames: seq<Frame>, i: nat)
    requires Rekeys(frames) == 0 && i < |frames|
    ensures !(frames[i].Data? && frames[i].hdr.Rekey?)
    decreases |frames|
  {
    if i > 0 { NoRekeyAt(frames[1..], i - 1); }
  }

  // `spent`: x has sent a REKEY since the last quiescent state.
  ghost predicate Targeting(x: Rekeying, y: Rekeying, out: seq<Frame>, back: seq<Frame>, spent: bool) {
    && Rekeys(out) <= (if spent then 1 else 0)
    && Aimed(out, y)
    && (!spent || Rekeys(out) == 1 ==> UpToDate(x, y, back))
    && (spent && Rekeys(out) == 0 ==> y.postFoldPublish || EndsCurrent(back, y) || UpToDate(x, y, back))
  }

  // Why x will learn a pair of y if it waits for one.
  ghost predicate Answering(x: Rekeying, y: Rekeying, out: seq<Frame>, back: seq<Frame>) {
    && (!x.peerHave ==>
          || HasPub(back) || y.postFoldPublish || Rekeys(out) > 0
          || (!y.published && (x.awaitingPeer ==> HasPub(out) || y.publishBack)))
    && (y.published || y.postFoldPublish || (!x.peerHave && !HasPub(back)))
  }

  predicate Flags(x: Rekeying) {
    && x.haveKem
    && (x.awaitingPeer ==> !x.peerHave)
    && (x.awaitingPeer && !x.published ==> x.postFoldPublish)
  }

  // `count`: the frames x has built since the last quiescent state.
  predicate Counting(x: State, spent: bool, count: nat) {
    spent ==> !x.rekey.rekeyDue && !x.rekey.awaitingPeer && x.send.sinceFold < count
  }

  // `lost`: the payloads that the transport has refused since it last took a frame of x.
  ghost predicate InStep(x: State, y: State, out: seq<Frame>, lost: nat) {
    var d := Replayed(DirectionOf(y.recv), out, y.rekey.eph, y.rekey.kem);
    lost < MAX_SKIP && d.Some? && DirectionOf(x.send) == Ahead(d.value, lost)
  }

  ghost predicate Link(x: State, y: State, out: seq<Frame>, back: seq<Frame>, spent: bool, count: nat, lost: nat) {
    && x.active && y.active
    && Flags(x.rekey) && Flags(y.rekey)
    && InStep(x, y, out, lost)
    && Targeting(x.rekey, y.rekey, out, back, spent)
    && Answering(x.rekey, y.rekey, out, back)
    && Counting(x, spent, count)
  }

  // ----- emitting -----------------------------------------------------------------------------

  // The text fits beside the header that is due.
  predicate Fits(s: State, text: Text) { |text| <= Capacity(BranchOf(s), false) }

  // The re-key flags of x after it has built a frame with header hdr.
  ghost predicate FlagsAfter(x: Rekeying, due: bool, t: Rekeying, hdr: Header) {
    && t.eph == x.eph && t.kem == x.kem && t.haveKem == x.haveKem && t.peerKem == x.peerKem && t.peerEph == x.peerEph
    && match hdr
       case Plain =>
         && t.rekeyDue == due && t.peerHave == x.peerHave && t.awaitingPeer == x.awaitingPeer
         && t.published == x.published && t.postFoldPublish == x.postFoldPublish && t.publishBack == x.publishBack
       case KemPub(kem, point) =>
         && kem == x.kem && point == Pub(x.eph)
         && t.published && !t.postFoldPublish && t.peerHave == x.peerHave
         && (t.rekeyDue ==> due)
         && (t.awaitingPeer == x.awaitingPeer || (t.awaitingPeer && due && !x.peerHave))
         && (var first := !x.postFoldPublish && due && !x.peerHave && !x.awaitingPeer;
             && (x.postFoldPublish || x.publishBack || first)
             && (first ==> t.awaitingPeer)
             && (t.publishBack ==> x.publishBack && first))
       case Rekey(ct, point) =>
         && due && x.peerHave && !x.postFoldPublish
         && ct.Ct? && ct.pk == x.peerKem && point == Pub(x.eph) && Contributory(x.peerEph)
         && !t.rekeyDue && !t.peerHave && t.awaitingPeer == x.awaitingPeer
         && t.published == x.published && t.postFoldPublish == x.postFoldPublish && t.publishBack == x.publishBack
       case Malformed(_) => false
  }

  // x becomes t by building frame f.
  ghost predicate Emits(x: State, t: State, f: Frame) {
    && t.active == x.active && t.lossy == x.lossy && t.recv == x.recv
    && f.Data? && f.box.Sealed? && f == Seal(MsgKey(x.send.chain), x.send.seqNo, f.hdr, f.box.text)
    && FlagsAfter(x.rekey, Due(x).rekeyDue, t.rekey, f.hdr)
    && (var next := Direction(x.send.root, NextChain(x.send.chain), x.send.seqNo + 1);
        if f.hdr.Rekey? then
          var dh := DhShared(x.rekey.eph, x.rekey.peerEph);
          && dh.Some? && DirectionOf(t.send) == FoldDirection(next, dh.value, KemSecret(f.hdr.ct.pk, f.hdr.ct.coin))
          && t.send.sinceFold == 0
        else DirectionOf(t.send) == next && t.send.sinceFold == x.send.sinceFold + 1)
  }

  ghost predicate Picked(x: Rekeying, due: bool, k: Rekeying, hdr: Header, fold: Option<Secrets>) {
    && k.carrier == x.carrier
    && FlagsAfter(x, due, if fold.Some? then k.(rekeyDue := false, peerHave := false) else k, hdr)
    && (fold.Some? <==> hdr.Rekey?)
    && (hdr.Rekey? ==> DhShared(x.eph, x.peerEph) == Some(fold.value.dh)
                       && fold.value.kem == KemSecret(hdr.ct.pk, hdr.ct.coin))
  }

  lemma PickedFlags(x: Rekeying, env: Env)
    requires x.haveKem
    ensures var (k, hdr, fold) := PickHeader(x, env); Picked(x, x.rekeyDue, k, hdr, fold)
  {
  }

  lemma HeaderFlags(x: State, carrierOnly: bool, env: Env)
    requires x.rekey.haveKem
    ensures var (k, hdr, fold) := HeaderFor(x, carrierOnly, env);
            (x.lossy && !carrierOnly ==> hdr.Plain?) && Picked(x.rekey, Due(x).rekeyDue, k, hdr, fold)
  {
    PickedFlags(Due(x), env);
    hide PickHeader;
  }

  lemma EmitsFrame(x: State, text: Text, fromOldest: bool, carrierOnly: bool, env: Env)
    requires x.rekey.haveKem && !(x.lossy && x.rekey.carrier.Some?)
    requires Fits(x, text) && (carrierOnly ==> text == "")
    ensures var (t, r) := EmitFrame(x, text, fromOldest, carrierOnly, env);
            && r.Emitted? && Emits(x, t, r.frame) && r.frame.box.text == text
            && t.rekey.carrier == if x.lossy && !r.frame.hdr.Plain? then Some(r.frame) else x.rekey.carrier
  {
    EmitsText(x, text, carrierOnly, env);
    EmitsAlike(x, text, fromOldest, carrierOnly, env);
    hide EmitFrame, FlagsAfter;
  }

  lemma EmitsAlike(x: State, text: Text, fromOldest: bool, carrierOnly: bool, env: Env)
    ensures var (t, r) := EmitFrame(x, text, false, carrierOnly, env);
            EmitFrame(x, text, fromOldest, carrierOnly, env) == (t.(sent := EmitFrame(x, text, fromOldest, carrierOnly, env).0.sent), r)
  {
    hide HeaderFor, AddSent, Buffered;
  }

  lemma EmitsText(x: State, text: Text, carrierOnly: bool, env: Env)
    requires x.rekey.haveKem && !(x.lossy && x.rekey.carrier.Some?)
    requires Fits(x, text) && (carrierOnly ==> text == "")
    ensures var (t, r) := EmitFrame(x, text, false, carrierOnly, env);
            r.Emitted? && Emits(x, t, r.frame) && r.frame.box.text == text
    ensures var (t, r) := EmitFrame(x, text, false, carrierOnly, env);
            t.rekey.carrier == if x.lossy && !r.frame.hdr.Plain? then Some(r.frame) else x.rekey.carrier
  {
    hide HeaderFor, FlagsAfter, Due, AddSent, Fits, FrameLen, DhShared, Buffered;
    HeaderFlags(x, carrierOnly, env);
    var (k, hdr, fold) := HeaderFor(x, carrierOnly, env);
    HeaderLeavesRoom(x, text, carrierOnly, env);
    FlagsIgnoreCarrier(x.rekey, Due(x).rekeyDue, if fold.Some? then k.(rekeyDue := false, peerHave := false) else k, hdr,
                       Some(Seal(KeyAt(x.send, x.send.seqNo), x.send.seqNo, hdr, text)));
  }

  lemma HeaderLeavesRoom(x: State, text: Text, carrierOnly: bool, env: Env)
    requires Fits(x, text) && (carrierOnly ==> text == "")
    ensures FrameLen(env.gcm, HeaderFor(x, carrierOnly, env).1, text) <= FRAME_MAX
  {
    DueHeaderFits(x, text, carrierOnly, env);
  }

  lemma FlagsIgnoreCarrier(x: Rekeying, due: bool, t: Rekeying, hdr: Header, carrier: Option<Frame>)
    requires FlagsAfter(x, due, t, hdr)
    ensures FlagsAfter(x, due, t.(carrier := carrier), hdr)
  {
  }

  lemma EmitFlags(x: State, t: State, f: Frame)
    requires Emits(x, t, f) && Flags(x.rekey)
    ensures Flags(t.rekey)
  {
  }

  // A REKEY is sent only when it is due and the peer's pair is cached, so a side that has
  // sent one does not send another within 65 frames.
  lemma OneRekeyPerBurst(x: State, t: State, f: Frame, spent: bool, count: nat)
    requires Counting(x, spent, count) && count <= REKEY_EVERY && Emits(x, t, f) && Flags(x.rekey)
    ensures spent ==> !f.hdr.Rekey?
    ensures Counting(t, spent || f.hdr.Rekey?, count + 1) && Flags(t.rekey)
  {
  }

  // A receiver `lost` messages behind x takes x's next frame and is where x is then, if a
  // REKEY in it is aimed at the receiver's pair.
  lemma AheadTake(x: State, t: State, f: Frame, d: Direction, y: Rekeying, lost: nat)
    requires Emits(x, t, f) && (f.hdr.Rekey? ==> CachedCurrent(x.rekey, y)) && lost < MAX_SKIP
    requires DirectionOf(x.send) == Ahead(d, lost)
    ensures Take(d, f, y.eph, y.kem) == Some(DirectionOf(t.send))
    ensures DirectionOf(t.send) == Ahead(DirectionOf(t.send), 0)
  {
    hide DhShared;
    DhCommutes(x.rekey.eph, y.eph);
  }

  // x emits: the direction x -> y.
  lemma EmitForward(x: State, y: State, out: seq<Frame>, back: seq<Frame>, spent: bool, count: nat, lost: nat, t: State, f: Frame)
    requires Link(x, y, out, back, spent, count, lost) && count <= REKEY_EVERY
    requires Emits(x, t, f)
    ensures Link(t, y, out + [f], back, spent || f.hdr.Rekey?, count + 1, 0)
  {
    hide Replayed, Rekeys, HasPub, AllCurrent, EndsCurrent, Counting;
    OneRekeyPerBurst(x, t, f, spent, count);
    AheadTake(x, t, f, Replayed(DirectionOf(y.recv), out, y.rekey.eph, y.rekey.kem).value, y.rekey, lost);
    ReplayAppend(DirectionOf(y.recv), out, f, y.rekey.eph, y.rekey.kem);
    PubAppend(out, f);
  }

  // x builds a plain frame that the transport refuses: the direction x -> y.
  lemma RefusedForward(x: State, y: State, out: seq<Frame>, back: seq<Frame>, spent: bool, count: nat, lost: nat, t: State, f: Frame)
    requires Link(x, y, out, back, spent, count, lost) && count <= REKEY_EVERY && lost + 1 < MAX_SKIP
    requires Emits(x, t, f) && f.hdr.Plain?
    ensures Link(t, y, out, back, spent, count + 1, lost + 1)
  {
    hide Replayed, Rekeys, HasPub, AllCurrent, EndsCurrent, Counting;
    OneRekeyPerBurst(x, t, f, spent, count);
  }

  // y builds a plain frame that the transport refuses: the direction x -> y.
  lemma RefusedBackward(x: State, y: State, out: seq<Frame>, back: seq<Frame>, spent: bool, count: nat, lost: nat, t: State, f: Frame)
    requires Link(x, y, out, back, spent, count, lost)
    requires Emits(y, t, f) && Flags(t.rekey) && f.hdr.Plain?
    ensures Link(x, t, out, back, spent, count, lost)
  {
    hide Replayed, Rekeys, HasPub, AllCurrent, EndsCurrent, Counting;
    SamePair(back, y.rekey, t.rekey);
  }

  // x sends a control frame: the direction x -> y.
  lemma NoteForward(x: State, y: State, out: seq<Frame>, back: seq<Frame>, spent: bool, count: nat, lost: nat, t: State, f: Frame)
    requires Link(x, y, out, back, spent, count, lost) && f.Control?
    requires t.active && t.send == x.send && t.rekey == x.rekey
    ensures Link(t, y, out + [f], back, spent, count, lost)
  {
    hide Replayed, Rekeys, HasPub, AllCurrent, EndsCurrent;
    ReplayAppend(DirectionOf(y.recv), out, f, y.rekey.eph, y.rekey.kem);
    PubAppend(out, f);
  }

  // y sends a control frame: the direction x -> y.
  lemma NoteBackward(x: State, y: State, out: seq<Frame>, back: seq<Frame>, spent: bool, count: nat, lost: nat, t: State, f: Frame)
    requires Link(x, y, out, back, spent, count, lost) && f.Control?
    requires t.active && t.recv == y.recv && t.rekey == y.rekey
    ensures Link(x, t, out, back + [f], spent, count, lost)
  {
    hide Replayed, Rekeys, HasPub, AllCurrent, EndsCurrent;
    PubAppend(back, f);
    CurrentAppend(back, f, y.rekey, t.rekey);
  }

  lemma PubAppend(frames: seq<Frame>, f: Frame)
    ensures HasPub(frames + [f]) <==> HasPub(frames) || IsPub(f)
  {
    if HasPub(frames) {
      var i :| 0 <= i < |frames| && IsPub(frames[i]);
      assert IsPub((frames + [f])[i]);
    }
    if IsPub(f) { assert IsPub((frames + [f])[|frames|]); }
    if HasPub(frames + [f]) {
      var i :| 0 <= i < |frames + [f]| && IsPub((frames + [f])[i]);
      if i < |frames| { assert IsPub(frames[i]); }
    }
  }

  // y emits: the direction x -> y.
  lemma EmitBackward(x: State, y: State, out: seq<Frame>, back: seq<Frame>, spent: bool, count: nat, lost: nat, t: State, f: Frame)
    requires Link(x, y, out, back, spent, count, lost)
    requires Emits(y, t, f) && Flags(t.rekey)
    ensures Link(x, t, out, back + [f], spent, count, lost)
  {
    hide Replayed, Rekeys, HasPub, AllCurrent, EndsCurrent, Counting;
    PubAppend(back, f);
    CurrentAppend(back, f, y.rekey, t.rekey);
  }

  lemma CurrentAppend(frames: seq<Frame>, f: Frame, y: Rekeying, t: Rekeying)
    requires Current(f, y) && t.eph == y.eph && t.kem == y.kem
    ensures AllCurrent(frames, y) ==> AllCurrent(frames + [f], t)
    ensures EndsCurrent(frames, y) || IsPub(f) ==> EndsCurrent(frames + [f], t)
  {
    if EndsCurrent(frames, y) {
      var j :| 0 <= j < |frames| && IsPub(frames[j]) && Current(frames[j], y) && AllCurrent(frames[j + 1..], y);
      assert (frames + [f])[j + 1..] == frames[j + 1..] + [f];
      assert IsPub((frames + [f])[j]);
    } else if IsPub(f) {
      assert (frames + [f])[|frames|] == f && (frames + [f])[|frames| + 1..] == [];
    }
  }

  // ----- delivering ---------------------------------------------------------------------------

  function HeaderOf(f: Frame): Header { if f.Data? then f.hdr else Plain }

  // y becomes t by taking f, the next frame of a direction.
  ghost predicate Takes(y: State, t: State, f: Frame) {
    && t.active == y.active && t.lossy == y.lossy && t.send == y.send
    && Take(DirectionOf(y.recv), f, y.rekey.eph, y.rekey.kem) == Some(DirectionOf(t.recv))
    && match HeaderOf(f)
       case Plain => t.rekey == y.rekey
       case KemPub(kem, point) => t.rekey == ApplyKemPub(y.rekey, kem, point)
       case Rekey(_, point) =>
         t.rekey == y.rekey.(peerEph := point, eph := t.rekey.eph, kem := t.rekey.kem, haveKem := true,
                             published := false, postFoldPublish := true)
       case Malformed(_) => false
  }

  // Accepting message n moves the receiver just past it.
  lemma {:induction false} SkipToMoves(r: Ratchet, n: nat)
    requires r.seqNo <= n
    ensures DirectionOf(SkipTo(r, n)) == Ahead(DirectionOf(r), n - r.seqNo)
    decreases n - r.seqNo
  {
    if r.seqNo < n {
      SkipToMoves(SkipOne(r), n);
      ChainNext(r.chain, n - r.seqNo - 1);
    }
  }

  // The next frame of a direction always decrypts, and a REKEY always folds.
  lemma FeedTakes(y: State, f: Frame, env: Env)
    requires y.active && Take(DirectionOf(y.recv), f, y.rekey.eph, y.rekey.kem).Some?
    ensures var (t, r) := Feed(y, f, env);
            && (f.Data? ==> r == Delivered(f.box.text)) && Takes(y, t, f) && t.rekey.carrier == y.rekey.carrier
  {
    if f.Data? { FeedTakesData(y, f, env); }
    hide FeedAhead, FeedBehind, AckSent;
  }

  lemma FeedTakesData(y: State, f: Frame, env: Env)
    requires y.active && f.Data? && Take(DirectionOf(y.recv), f, y.rekey.eph, y.rekey.kem).Some?
    ensures var (t, r) := Feed(y, f, env);
            && r == Delivered(f.box.text) && Takes(y, t, f) && t.rekey.carrier == y.rekey.carrier
  {
    hide FindSkipped, AddSkipped, AckSent, SkipTo;
    SkipToMoves(y.recv, f.seqNo);
  }

  lemma TakenFlags(y: State, t: State, f: Frame, spent: bool, count: nat)
    requires Takes(y, t, f) && Flags(y.rekey) && Counting(y, spent, count)
    ensures Flags(t.rekey) && Counting(t, spent, count)
  {
  }

  // y takes the next frame: the direction x -> y.
  lemma FeedForward(x: State, y: State, out: seq<Frame>, back: seq<Frame>, spent: bool, count: nat, lost: nat, t: State)
    requires Link(x, y, out, back, spent, count, lost) && out != []
    requires Takes(y, t, out[0]) && Flags(t.rekey)
    ensures Link(x, t, out[1..], back, spent, count, lost)
  {
    hide HasPub, AllCurrent, EndsCurrent, Counting, Aimed;
    PubTail(out);
    SamePair(back, y.rekey, t.rekey);
    AimedTail(out, y.rekey, t.rekey);
    if HeaderOf(out[0]).Rekey? {
      NoRekeyAimed(out[1..], t.rekey);
      ReplayAnyPair(DirectionOf(t.recv), out[1..], y.rekey.eph, y.rekey.kem, t.rekey.eph, t.rekey.kem);
    }
  }

  lemma PubTail(frames: seq<Frame>)
    requires frames != []
    ensures HasPub(frames) <==> IsPub(frames[0]) || HasPub(frames[1..])
  {
    if HasPub(frames[1..]) {
      var i :| 0 <= i < |frames[1..]| && IsPub(frames[1..][i]);
      assert IsPub(frames[i + 1]);
    }
    if HasPub(frames) {
      var i :| 0 <= i < |frames| && IsPub(frames[i]);
      if i > 0 { assert IsPub(frames[1..][i - 1]); }
    }
  }

  lemma AimedTail(frames: seq<Frame>, y: Rekeying, t: Rekeying)
    requires Aimed(frames, y) && frames != []
    ensures t.kem == y.kem ==> Aimed(frames[1..], t)
  {
  }

  lemma SamePair(frames: seq<Frame>, y: Rekeying, t: Rekeying)
    ensures t.eph == y.eph && t.kem == y.kem ==> (AllCurrent(frames, y) <==> AllCurrent(frames, t))
    ensures t.eph == y.eph && t.kem == y.kem ==> (EndsCurrent(frames, y) ==> EndsCurrent(frames, t))
  {
    if t.eph == y.eph && t.kem == y.kem && EndsCurrent(frames, y) {
      var j :| 0 <= j < |frames| && IsPub(frames[j]) && Current(frames[j], y) && AllCurrent(frames[j + 1..], y);
      assert Current(frames[j], t) && AllCurrent(frames[j + 1..], t);
    }
  }

  // x takes the next frame of y: the direction x -> y.
  lemma FeedBackward(x: State, y: State, out: seq<Frame>, back: seq<Frame>, spent: bool, count: nat, lost: nat, t: State)
    requires Link(x, y, out, back, spent, count, lost) && back != []
    requires Takes(x, t, back[0]) && Flags(t.rekey) && Counting(t, spent, count)
    ensures Link(t, y, out, back[1..], spent, count, lost)
  {
    hide Replayed, Rekeys, HasPub, AllCurrent, EndsCurrent, Counting;
    PubTail(back);
    CurrentTail(back, y.rekey);
  }

  lemma CurrentTail(frames: seq<Frame>, y: Rekeying)
    requires frames != []
    ensures AllCurrent(frames, y) <==> Current(frames[0], y) && AllCurrent(frames[1..], y)
    ensures EndsCurrent(frames, y) ==>
              EndsCurrent(frames[1..], y) || (IsPub(frames[0]) && Current(frames[0], y) && AllCurrent(frames[1..], y))
  {
    if AllCurrent(frames, y) { assert Current(frames[0], y); }
    forall i | 0 <= i < |frames| && Current(frames[0], y) && AllCurrent(frames[1..], y) ensures Current(frames[i], y) {
      if i > 0 { assert Current(frames[1..][i - 1], y); }
    }
    if EndsCurrent(frames, y) {
      var j :| 0 <= j < |frames| && IsPub(frames[j]) && Current(frames[j], y) && AllCurrent(frames[j + 1..], y);
      if j > 0 {
        assert frames[1..][j..] == frames[j + 1..];
        assert IsPub(frames[1..][j - 1]) && Current(frames[1..][j - 1], y);
      }
    }
  }

  // ----- quiescence ---------------------------------------------------------------------------

  // Nothing in flight and y has nothing left to publish: the two ends agree, x's copy
  // of y's pair is current, and x is not waiting for anything.
  lemma Settled(x: State, y: State, spent: bool, count: nat, lost: nat)
    requires Link(x, y, [], [], spent, count, lost)
    requires !y.rekey.postFoldPublish && !y.rekey.publishBack
    ensures DirectionOf(x.send) == Ahead(DirectionOf(y.recv), lost)
    ensures CachedCurrent(x.rekey, y.rekey)
    ensures x.rekey.peerHave == y.rekey.published && !x.rekey.awaitingPeer
    ensures Link(x, y, [], [], false, 0, lost)
  {
  }
}
