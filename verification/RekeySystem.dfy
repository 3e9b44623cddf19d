/**
 The two-party re-key system (src/session.c:613-672, 695-865, 934-1015): two sessions
 joined by two FIFO channels, the steps either side may take, and the invariant that every
 allowed step keeps.
 */
module RekeySystem {
  import opened Limits
  import opened Symbolic
  import opened SentRings
  import opened Sessions
  import opened RekeyLink
  import opened RekeyToken

  datatype Side = A | B

  // `said`/`heard`: the texts of the frames that were handed over for a side, and of those
  // it has decrypted. Since the last quiescent state: `spent`, whether it has sent a REKEY;
  // `count`, how many frames it has built; `forced`, whether it was forced to re-key again
  // after its REKEY. `lost`: the payloads that the transport has refused since the last
  // frame it did not.
  datatype Party = Party(s: State, said: seq<Text>, heard: seq<Text>, spent: bool, count: nat, forced: bool, lost: nat)

  // `ab`: frames accepted by the transport on their way from a to b.
  datatype Net = Net(a: Party, b: Party, ab: seq<Frame>, ba: seq<Frame>)

  datatype Move =
    | Say(side: Side, text: Text) | Refused(side: Side, text: Text) | BuildCarrier(side: Side) | CarrierAccepted(side: Side)
    | Poll(side: Side) | Deliver(side: Side) | Force(side: Side)

  function Flip(n: Net): Net { Net(n.b, n.a, n.ba, n.ab) }

  // ----- steps --------------------------------------------------------------------------------

  function Parked(s: State): seq<Frame> {
    if s.rekey.carrier.Some? then [s.rekey.carrier.value] else []
  }

  // The texts that frames carry.
  function TextsOf(frames: seq<Frame>): seq<Text> {
    if frames == [] then []
    else (if frames[0].Data? && frames[0].box.Sealed? then [frames[0].box.text] else []) + TextsOf(frames[1..])
  }

  function Built(p: Party, t: State, f: Frame): Party {
    p.(s := t, said := p.said + TextsOf([f]), spent := p.spent || HeaderOf(f).Rekey?,
       count := p.count + 1, lost := 0)
  }

  // a has built frame f; a parked frame waits for the transport. A control frame is no frame
  // of the ratchet.
  function AfterBuild(n: Net, t: State, r: EmitResult): Net {
    if !r.Emitted? then n.(a := n.a.(s := t))
    else if r.frame.Control? then n.(a := n.a.(s := t), ab := n.ab + [r.frame])
    else if t.rekey.carrier.Some? then n.(a := Built(n.a, t, r.frame))
    else n.(a := Built(n.a, t, r.frame), ab := n.ab + [r.frame])
  }

  function MoveOfA(n: Net, m: Move, env: Env): Net {
    var s := n.a.s;
    match m
    case Say(_, text) =>
      var (t, r) := if s.lossy then SendLossy(s, text, env) else SendText(s, text, env);
      AfterBuild(n, t, r)
    case Refused(_, text) =>
      var (t, r) := SendLossy(s, text, env);
      if r.Emitted? then n.(a := n.a.(s := t, count := n.a.count + 1, lost := n.a.lost + 1)) else n.(a := n.a.(s := t))
    case BuildCarrier(_) =>
      if !s.lossy || s.rekey.carrier.Some? then n else
        var (t, r) := Carrier(s, env);
        AfterBuild(n, t, r)
    case CarrierAccepted(_) =>
      n.(a := n.a.(s := CarrierDone(s)), ab := n.ab + Parked(s))
    case Poll(_) =>
      if s.lossy then n else
        var (t, r) := RelPoll(s, env);
        AfterBuild(n, t, r)
    case Deliver(_) =>
      if n.ba == [] then n else
        var (t, r) := Feed(s, n.ba[0], env);
        n.(a := n.a.(s := t, heard := if n.ba[0].Data? && r.Delivered? then n.a.heard + [r.text] else n.a.heard), ba := n.ba[1..])
    case Force(_) => n.(a := n.a.(s := ForceRekey(s), forced := n.a.forced || n.a.spent))
  }

  // Nothing in flight or parked, and nothing left to publish.
  predicate Quiescent(n: Net) {
    && n.ab == [] && n.ba == []
    && forall s | s in {n.a.s, n.b.s} :: s.rekey.carrier.None? && !s.rekey.postFoldPublish && !s.rekey.publishBack
  }

  function Rested(p: Party): Party { p.(spent := false, count := 0, forced := false) }

  function Settle(n: Net): Net {
    if Quiescent(n) then n.(a := Rested(n.a), b := Rested(n.b)) else n
  }

  function Next(n: Net, m: Move, env: Env): Net {
    Settle(if m.side == A then MoveOfA(n, m, env) else Flip(MoveOfA(Flip(n), m, env)))
  }

  // ----- the conditions of the theorem ------------------------------------------------------------

  // The position of the first buffered text that the peer asked for, or |s.sent|.
  function FirstAsked(s: State, r: nat): (i: nat)
    requires r <= |s.sent|
    ensures r <= i <= |s.sent|
    decreases |s.sent| - r
  {
    if r == |s.sent| || Asked(s, s.sent[r]) then r else FirstAsked(s, r + 1)
  }

  // A text that a poll would re-send first fits beside the header that is due.
  predicate PollFits(s: State) {
    var i := FirstAsked(s, 0);
    i < |s.sent| ==> Fits(s, s.sent[i].text)
  }

  // The side keeps to the bound: it builds at most `burst` frames between quiescent states,
  // and is not forced to re-key again after it has sent a REKEY.
  predicate Keeps(p: Party, burst: nat) { p.count <= burst && !p.forced }

  // p may build one frame more: it keeps to the bound, or the other side does.
  predicate MayBuild(p: Party, q: Party, burst: nat) { (p.count < burst && !p.forced) || Keeps(q, burst) }

  predicate AllowedUpTo(n: Net, m: Move, burst: nat) {
    var (p, q) := if m.side == A then (n.a, n.b) else (n.b, n.a);
    match m
    case Say(_, text) => MayBuild(p, q, burst) && Fits(p.s, text)
    case Refused(_, text) => MayBuild(p, q, burst) && p.s.lossy && p.lost + 1 < MAX_SKIP && Fits(p.s, text)
    case BuildCarrier(_) => MayBuild(p, q, burst)
    case Poll(_) => MayBuild(p, q, burst) && PollFits(p.s)
    case Force(_) => !p.spent || Keeps(q, burst)
    case _ => true
  }

  // With this many the theorem holds, with one more on both sides it does not.
  const BURST := REKEY_EVERY + 1

  predicate Allowed(n: Net, m: Move) { AllowedUpTo(n, m, BURST) }

  function Play(n: Net, moves: seq<(Move, Env)>): Net {
    if moves == [] then n else
      var last := moves[|moves| - 1];
      Next(Play(n, moves[..|moves| - 1]), last.0, last.1)
  }

  predicate AllUpTo(n: Net, moves: seq<(Move, Env)>, burst: nat) {
    moves == [] || (var before := moves[..|moves| - 1];
                    AllUpTo(n, before, burst) && AllowedUpTo(Play(n, before), moves[|moves| - 1].0, burst))
  }

  predicate AllAllowed(n: Net, moves: seq<(Move, Env)>) { AllUpTo(n, moves, BURST) }

  // ----- the invariant ------------------------------------------------------------------------

  function Out(n: Net): seq<Frame> { n.ab + Parked(n.a.s) }

  // What holds while a keeps to the bound.
  ghost predicate Bounded(n: Net) {
    && Link(n.a.s, n.b.s, Out(n), Out(Flip(n)), n.a.spent, n.a.count, n.a.lost)
    && Loose(n.b.s, n.a.s, Out(Flip(n)), Out(n), n.a.spent, n.b.lost)
  }

  ghost predicate Half(n: Net) {
    && n.a.s.active && Flags(n.a.s.rekey)
    && (n.a.s.rekey.carrier.Some? ==> n.a.s.lossy)
    && n.a.said == n.b.heard + TextsOf(Out(n))
    && (Keeps(n.a, BURST) ==> Bounded(n))
  }

  ghost predicate Inv(n: Net) {
    Half(n) && Half(Flip(n)) && (Keeps(n.a, BURST) || Keeps(n.b, BURST))
  }

  lemma {:induction false} TextsAppend(frames: seq<Frame>, f: Frame)
    ensures TextsOf(frames + [f]) == TextsOf(frames) + TextsOf([f])
    decreases |frames|
  {
    if frames == [] {
      assert frames + [f] == [f];
    } else {
      assert (frames + [f])[1..] == frames[1..] + [f];
      TextsAppend(frames[1..], f);
    }
  }

  lemma TextsPrepend(f: Frame, frames: seq<Frame>)
    ensures TextsOf([f] + frames) == TextsOf([f]) + TextsOf(frames)
  {
    assert ([f] + frames)[1..] == frames && [f][1..] == [];
  }

  // ----- a builds a frame -----------------------------------------------------------------------

  // The frame f is added to what a has on its way.
  ghost predicate Adds(n: Net, m: Net, f: Frame) {
    && m.b == n.b && m.ba == n.ba && Out(m) == Out(n) + [f] && Out(Flip(m)) == Out(Flip(n))
    && m.a == n.a.(s := m.a.s, said := n.a.said + TextsOf([f]), spent := m.a.spent, count := m.a.count, lost := m.a.lost)
    && (m.a.s.rekey.carrier.Some? ==> m.a.s.lossy)
  }

  lemma AddsKeeps(n: Net, m: Net, f: Frame)
    requires Inv(n) && Adds(n, m, f) && Emits(n.a.s, m.a.s, f)
    requires m.a.spent == (n.a.spent || f.hdr.Rekey?) && m.a.count == n.a.count + 1 && m.a.lost == 0
    requires MayBuild(n.a, n.b, BURST)
    ensures Inv(m)
  {
    hide Link, Loose, Emits, TextsOf;
    EmitsMeans(n.a.s, m.a.s, f);
    EmitFlags(n.a.s, m.a.s, f);
    TextsAppend(Out(n), f);
    if Keeps(m.a, BURST) {
      LinkMeans(n);
      EmitForward(n.a.s, n.b.s, Out(n), Out(Flip(n)), n.a.spent, n.a.count, n.a.lost, m.a.s, f);
      LooseBackward(n.b.s, n.a.s, Out(Flip(n)), Out(n), n.a.spent, n.a.count, n.b.lost, m.a.s, f);
    }
    if Keeps(n.b, BURST) {
      EmitBackward(n.b.s, n.a.s, Out(Flip(n)), Out(n), n.b.spent, n.b.count, n.b.lost, m.a.s, f);
      LooseForward(n.a.s, n.b.s, Out(n), Out(Flip(n)), n.b.spent, n.a.lost, m.a.s, f);
    }
  }

  lemma EmitsMeans(x: State, t: State, f: Frame)
    requires Emits(x, t, f)
    ensures f.Data? && f.box.Sealed? && t.lossy == x.lossy && t.active == x.active
  {
  }

  lemma LinkMeans(n: Net)
    requires Link(n.a.s, n.b.s, Out(n), Out(Flip(n)), n.a.spent, n.a.count, n.a.lost)
    ensures Counting(n.a.s, n.a.spent, n.a.count)
  {
  }

  // a builds a frame with its ratchet.
  lemma BuildKeeps(n: Net, text: Text, carrierOnly: bool, env: Env)
    requires Inv(n) && MayBuild(n.a, n.b, BURST) && Fits(n.a.s, text)
    requires n.a.s.rekey.carrier.None? && (carrierOnly ==> text == "" && n.a.s.lossy)
    ensures var (t, r) := EmitFrame(n.a.s, text, false, carrierOnly, env); Inv(AfterBuild(n, t, r))
  {
    hide EmitFrame, Link, Loose, Emits, Fits, TextsOf, Inv;
    assert n.a.s.rekey.haveKem by { InvMeans(n); }
    EmitsFrame(n.a.s, text, false, carrierOnly, env);
    var (t, r) := EmitFrame(n.a.s, text, false, carrierOnly, env);
    EmitsMeans(n.a.s, t, r.frame);
    var m := AfterBuild(n, t, r);
    assert Out(m) == Out(n) + [r.frame];
    AddsKeeps(n, m, r.frame);
  }

  // a builds a payload that the transport refuses.
  lemma RefusedKeeps(n: Net, text: Text, env: Env)
    requires Inv(n) && MayBuild(n.a, n.b, BURST) && n.a.s.lossy && n.a.lost + 1 < MAX_SKIP && Fits(n.a.s, text)
    requires n.a.s.rekey.carrier.None?
    ensures var (t, r) := EmitFrame(n.a.s, text, false, false, env);
            r.Emitted? && Inv(n.(a := n.a.(s := t, count := n.a.count + 1, lost := n.a.lost + 1)))
  {
    var (t, r) := EmitFrame(n.a.s, text, false, false, env);
    assert r.Emitted? ==> r.frame.Data? && r.frame.hdr == Plain by { PayloadPlain(n.a.s, text, env); }
    hide EmitFrame, Link, Loose, Emits, Fits, TextsOf;
    assert n.a.s.rekey.haveKem;
    EmitsFrame(n.a.s, text, false, false, env);
    var f := r.frame;
    EmitsMeans(n.a.s, t, f);
    EmitFlags(n.a.s, t, f);
    var m := n.(a := n.a.(s := t, count := n.a.count + 1, lost := n.a.lost + 1));
    assert Out(m) == Out(n) && Out(Flip(m)) == Out(Flip(n));
    if Keeps(m.a, BURST) {
      LinkMeans(n);
      RefusedForward(n.a.s, n.b.s, Out(n), Out(Flip(n)), n.a.spent, n.a.count, n.a.lost, t, f);
      LooseRefusedBackward(n.b.s, n.a.s, Out(Flip(n)), Out(n), n.a.spent, n.a.count, n.b.lost, t, f);
    }
    if Keeps(n.b, BURST) {
      RefusedBackward(n.b.s, n.a.s, Out(Flip(n)), Out(n), n.b.spent, n.b.count, n.b.lost, t, f);
      LooseRefusedForward(n.a.s, n.b.s, Out(n), Out(Flip(n)), n.b.spent, n.a.lost, t, f);
    }
  }

  lemma PayloadPlain(s: State, text: Text, env: Env)
    requires s.lossy
    ensures var r := EmitFrame(s, text, false, false, env).1; r.Emitted? ==> r.frame.Data? && r.frame.hdr == Plain
  {
  }

  lemma InvMeans(n: Net)
    requires Inv(n)
    ensures n.a.s.active && Flags(n.a.s.rekey) && (n.a.s.rekey.carrier.Some? ==> n.a.s.lossy)
  {
  }

  // ----- flags that no direction looks at -----------------------------------------------------

  // The transport accepts a's parked carrier.
  lemma AcceptedKeeps(n: Net)
    requires Inv(n)
    ensures Inv(n.(a := n.a.(s := CarrierDone(n.a.s)), ab := n.ab + Parked(n.a.s)))
  {
    hide Link, Loose, TextsOf;
    var m := n.(a := n.a.(s := CarrierDone(n.a.s)), ab := n.ab + Parked(n.a.s));
    assert Out(m) == Out(n) && Out(Flip(m)) == Out(Flip(n));
    if Keeps(n.a, BURST) {
      LinkSeesFlagsOnly(n.a.s, n.b.s, Out(n), Out(Flip(n)), n.a.spent, n.a.count, n.a.lost, m.a.s, n.b.s);
      LooseSeesFlagsOnly(n.b.s, n.a.s, Out(Flip(n)), Out(n), n.a.spent, n.b.lost, n.b.s, m.a.s);
    }
    if Keeps(n.b, BURST) {
      LinkSeesFlagsOnly(n.b.s, n.a.s, Out(Flip(n)), Out(n), n.b.spent, n.b.count, n.b.lost, n.b.s, m.a.s);
      LooseSeesFlagsOnly(n.a.s, n.b.s, Out(n), Out(Flip(n)), n.b.spent, n.a.lost, m.a.s, n.b.s);
    }
  }

  lemma LinkSeesFlagsOnly(x: State, y: State, out: seq<Frame>, back: seq<Frame>, spent: bool, count: nat, lost: nat, t: State, u: State)
    requires Link(x, y, out, back, spent, count, lost)
    requires t.active == x.active && t.send == x.send && t.rekey == x.rekey.(carrier := t.rekey.carrier)
    requires u.active == y.active && u.recv == y.recv && u.rekey == y.rekey.(carrier := u.rekey.carrier)
    ensures Link(t, u, out, back, spent, count, lost)
  {
    hide Replayed, Rekeys, HasPub, Aimed;
    SamePair(back, y.rekey, u.rekey);
    assert Aimed(out, y.rekey) ==> Aimed(out, u.rekey) by { AimedSame(out, y.rekey, u.rekey); }
  }

  lemma LooseSeesFlagsOnly(x: State, y: State, out: seq<Frame>, back: seq<Frame>, spent: bool, lost: nat, t: State, u: State)
    requires Loose(x, y, out, back, spent, lost)
    requires t.active == x.active && t.send == x.send && t.rekey == x.rekey.(carrier := t.rekey.carrier, rekeyDue := t.rekey.rekeyDue)
    requires u.active == y.active && u.recv == y.recv && u.rekey == y.rekey.(carrier := u.rekey.carrier, rekeyDue := u.rekey.rekeyDue)
    ensures Loose(t, u, out, back, spent, lost)
  {
    hide Replayed, Rekeys, HasPub, Aimed, Pubs;
    SamePair(back, y.rekey, u.rekey);
    AimedSame(out, y.rekey, u.rekey);
  }

  lemma AimedSame(frames: seq<Frame>, y: Rekeying, u: Rekeying)
    requires y.kem == u.kem
    ensures Aimed(frames, y) ==> Aimed(frames, u)
  {
  }

  lemma ForceKeeps(n: Net)
    requires Inv(n) && (!n.a.spent || Keeps(n.b, BURST))
    ensures Inv(n.(a := n.a.(s := ForceRekey(n.a.s), forced := n.a.forced || n.a.spent)))
  {
    hide Link, Loose, TextsOf;
    var t := ForceRekey(n.a.s);
    var m := n.(a := n.a.(s := t, forced := n.a.forced || n.a.spent));
    assert Out(m) == Out(n) && Out(Flip(m)) == Out(Flip(n));
    if Keeps(m.a, BURST) {
      ForcedForward(n.a.s, n.b.s, Out(n), Out(Flip(n)), n.a.count, n.a.lost, t);
      LooseSeesFlagsOnly(n.b.s, n.a.s, Out(Flip(n)), Out(n), n.a.spent, n.b.lost, n.b.s, t);
    }
    if Keeps(n.b, BURST) {
      ForcedBackward(n.b.s, n.a.s, Out(Flip(n)), Out(n), n.b.spent, n.b.count, n.b.lost, t);
      LooseSeesFlagsOnly(n.a.s, n.b.s, Out(n), Out(Flip(n)), n.b.spent, n.a.lost, t, n.b.s);
    }
  }

  // A re-key of x is marked due, before x has sent a REKEY.
  lemma ForcedForward(x: State, y: State, out: seq<Frame>, back: seq<Frame>, count: nat, lost: nat, t: State)
    requires Link(x, y, out, back, false, count, lost) && t == x.(rekey := x.rekey.(rekeyDue := true))
    ensures Link(t, y, out, back, false, count, lost)
  {
    hide Replayed, Rekeys, HasPub, AllCurrent, EndsCurrent, Aimed;
  }

  lemma ForcedBackward(x: State, y: State, out: seq<Frame>, back: seq<Frame>, spent: bool, count: nat, lost: nat, t: State)
    requires Link(x, y, out, back, spent, count, lost) && t == y.(rekey := y.rekey.(rekeyDue := true))
    ensures Link(x, t, out, back, spent, count, lost)
  {
    hide Replayed, Rekeys, HasPub, AllCurrent, EndsCurrent, Aimed;
    SamePair(back, y.rekey, t.rekey);
    AimedSame(out, y.rekey, t.rekey);
  }

  // ----- control frames and re-sends --------------------------------------------------------------

  lemma NoteKeeps(n: Net, t: State, f: Frame)
    requires Inv(n) && f.Control? && !n.a.s.lossy
    requires t.active == n.a.s.active && t.lossy == n.a.s.lossy && t.send == n.a.s.send && t.recv == n.a.s.recv && t.rekey == n.a.s.rekey
    ensures Inv(n.(a := n.a.(s := t), ab := n.ab + [f]))
  {
    hide Link, Loose, TextsOf;
    var m := n.(a := n.a.(s := t), ab := n.ab + [f]);
    assert Out(m) == Out(n) + [f] && Out(Flip(m)) == Out(Flip(n));
    TextsAppend(Out(n), f);
    assert TextsOf([f]) == [] by { NoText(f); }
    if Keeps(n.a, BURST) {
      NoteForward(n.a.s, n.b.s, Out(n), Out(Flip(n)), n.a.spent, n.a.count, n.a.lost, t, f);
      LooseNoteBackward(n.b.s, n.a.s, Out(Flip(n)), Out(n), n.a.spent, n.b.lost, t, f);
    }
    if Keeps(n.b, BURST) {
      NoteBackward(n.b.s, n.a.s, Out(Flip(n)), Out(n), n.b.spent, n.b.count, n.b.lost, t, f);
      LooseNoteForward(n.a.s, n.b.s, Out(n), Out(Flip(n)), n.b.spent, n.a.lost, t, f);
    }
  }

  lemma NoText(f: Frame)
    requires f.Control?
    ensures TextsOf([f]) == []
  {
  }

  // Other state than the ratchets and the flags does not matter.
  lemma OtherStateKeeps(n: Net, t: State)
    requires Inv(n)
    requires t.active == n.a.s.active && t.lossy == n.a.s.lossy && t.send == n.a.s.send && t.recv == n.a.s.recv && t.rekey == n.a.s.rekey
    ensures Inv(n.(a := n.a.(s := t)))
  {
    hide Link, Loose, TextsOf, Flags;
    var m, k := n.(a := n.a.(s := t)), n.a.s.rekey;
    assert k.(carrier := k.carrier) == k && k.(carrier := k.carrier, rekeyDue := k.rekeyDue) == k;
    var l := n.b.s.rekey;
    assert l.(carrier := l.carrier) == l && l.(carrier := l.carrier, rekeyDue := l.rekeyDue) == l;
    assert Out(m) == Out(n) && Out(Flip(m)) == Out(Flip(n));
    if Keeps(n.a, BURST) {
      LinkSeesFlagsOnly(n.a.s, n.b.s, Out(n), Out(Flip(n)), n.a.spent, n.a.count, n.a.lost, t, n.b.s);
      LooseSeesFlagsOnly(n.b.s, n.a.s, Out(Flip(n)), Out(n), n.a.spent, n.b.lost, n.b.s, t);
    }
    if Keeps(n.b, BURST) {
      LinkSeesFlagsOnly(n.b.s, n.a.s, Out(Flip(n)), Out(n), n.b.spent, n.b.count, n.b.lost, n.b.s, t);
      LooseSeesFlagsOnly(n.a.s, n.b.s, Out(n), Out(Flip(n)), n.b.spent, n.a.lost, t, n.b.s);
    }
  }

  lemma {:induction false} ResendFrom(s: State, r: nat, env: Env)
    requires r <= |s.sent|
    ensures Resend(s, r, env) == Resend(s, FirstAsked(s, r), env)
    ensures FirstAsked(s, r) < |s.sent| ==> Asked(s, s.sent[FirstAsked(s, r)])
    decreases |s.sent| - r
  {
    hide EmitFrame;
    if r < |s.sent| && !Asked(s, s.sent[r]) { ResendFrom(s, r + 1, env); }
  }

  // What a poll does to the ratchets: nothing, or what building one frame does.
  lemma PollEffect(s: State, env: Env)
    requires !s.lossy && s.active && s.rekey.haveKem && s.rekey.carrier.None? && PollFits(s)
    ensures var (t, r) := RelPoll(s, env);
            && t.active && !t.lossy && t.recv == s.recv && t.rekey.carrier.None?
            && (r.Emitted? && r.frame.Data? ==> Emits(s, t, r.frame))
            && (!(r.Emitted? && r.frame.Data?) ==> t.send == s.send && t.rekey == s.rekey)
  {
    hide EmitFrame, Emits, Fits;
    var i := FirstAsked(s, 0);
    ResendFrom(s, 0, env);
    if i < |s.sent| {
      EmitsFrame(s, s.sent[i].text, i == 0, false, env);
      var (t, r) := EmitFrame(s, s.sent[i].text, i == 0, false, env);
      EmitsMeans(s, t, r.frame);
      EmitKeepsRecv(s, t, r.frame);
      OtherSent(s, t, r.frame, RemoveSent(t.sent, s.sent[i].gen, s.sent[i].seqNo));
    }
  }

  lemma EmitKeepsRecv(x: State, t: State, f: Frame)
    requires Emits(x, t, f)
    ensures t.recv == x.recv
  {
  }

  lemma OtherSent(x: State, t: State, f: Frame, sent: seq<Sent>)
    requires Emits(x, t, f)
    ensures Emits(x, t.(sent := sent), f)
  {
  }

  lemma PollKeeps(n: Net, env: Env)
    requires Inv(n) && MayBuild(n.a, n.b, BURST) && PollFits(n.a.s) && !n.a.s.lossy
    ensures Inv(MoveOfA(n, Poll(A), env))
  {
    hide RelPoll, Emits, PollFits, TextsOf, Inv;
    InvMeans(n);
    PollEffect(n.a.s, env);
    var (t, r) := RelPoll(n.a.s, env);
    if !r.Emitted? {
      OtherStateKeeps(n, t);
    } else if r.frame.Control? {
      NoteKeeps(n, t, r.frame);
    } else {
      EmitsMeans(n.a.s, t, r.frame);
      var m := AfterBuild(n, t, r);
      assert Out(m) == Out(n) + [r.frame];
      AddsKeeps(n, m, r.frame);
    }
  }

  // ----- deliveries -------------------------------------------------------------------------------

  // The next frame for a opens to b's text; a REKEY is aimed at a's current pair.
  lemma NextOpens(n: Net, env: Env)
    requires Inv(n) && n.ba != []
    ensures var f, (t, r) := n.ba[0], Feed(n.a.s, n.ba[0], env);
            && (f.Data? ==>
                  && f.box.Sealed? && r == Delivered(f.box.text)
                  && (f.hdr.Rekey? ==> f.hdr.ct.Ct? && f.hdr.ct.pk == n.a.s.rekey.kem))
            && Takes(n.a.s, t, f) && t.rekey.carrier == n.a.s.rekey.carrier
  {
    assert Out(Flip(n))[0] == n.ba[0];
    hide Rekeys, HasPub, AllCurrent, EndsCurrent, Pubs, TextsOf, Feed, Takes;
    FeedTakes(n.a.s, n.ba[0], env);
  }

  lemma DeliverKeeps(n: Net, env: Env)
    requires Inv(n) && n.ba != []
    ensures Inv(MoveOfA(n, Deliver(A), env))
  {
    hide Link, Loose, Takes, TextsOf, Feed;
    NextOpens(n, env);
    var (t, r) := Feed(n.a.s, n.ba[0], env);
    var m := MoveOfA(n, Deliver(A), env);
    var f := n.ba[0];
    assert Out(Flip(n)) == [f] + Out(Flip(m)) && Out(m) == Out(n);
    assert Out(Flip(n))[0] == f && Out(Flip(n))[1..] == Out(Flip(m));
    TakesMeans(n.a.s, t, f);
    TextsPrepend(f, Out(Flip(m)));
    TextOfOne(f);
    if Keeps(n.a, BURST) {
      LinkMeans(n);
      TakenFlags(n.a.s, t, f, n.a.spent, n.a.count);
      FeedBackward(n.a.s, n.b.s, Out(n), Out(Flip(n)), n.a.spent, n.a.count, n.a.lost, t);
      LooseTake(n.b.s, n.a.s, Out(Flip(n)), Out(n), n.a.spent, n.b.lost, t);
    }
    if Keeps(n.b, BURST) {
      FeedForward(n.b.s, n.a.s, Out(Flip(n)), Out(n), n.b.spent, n.b.count, n.b.lost, t);
      LooseHear(n.a.s, n.b.s, Out(n), Out(Flip(n)), n.b.spent, n.a.lost, t);
    }
  }

  lemma TextOfOne(f: Frame)
    ensures TextsOf([f]) == if f.Data? && f.box.Sealed? then [f.box.text] else []
  {
  }

  lemma TakesMeans(y: State, t: State, f: Frame)
    requires Takes(y, t, f) && Flags(y.rekey)
    ensures t.lossy == y.lossy && t.active == y.active && Flags(t.rekey)
  {
  }

  // ----- every move -------------------------------------------------------------------------------

  lemma MoveOfAKeeps(n: Net, m: Move, env: Env)
    requires Inv(n) && m.side == A && Allowed(n, m)
    ensures Inv(MoveOfA(n, m, env))
  {
    hide Inv, EmitFrame, AfterBuild, RelPoll, PollFits, Fits;
    assert n.a.s.active && Flags(n.a.s.rekey) && (n.a.s.rekey.carrier.Some? ==> n.a.s.lossy) by { InvMeans(n); }
    match m
    case Say(_, text) =>
      assert |text| <= DATA_MAX by { FitsMeans(n.a.s, text); }
      if n.a.s.rekey.carrier.Some? {
        var r := EmitFrame(n.a.s, text, false, false, env);
        assert r == (n.a.s, Failed(CarrierParked)) by { ParkedBlocks(n.a.s, text, false, env); }
        assert AfterBuild(n, r.0, r.1) == n by { FailedBuild(n, r.1); }
      } else {
        BuildKeeps(n, text, false, env);
      }
    case Refused(_, text) =>
      assert |text| <= DATA_MAX by { FitsMeans(n.a.s, text); }
      if n.a.s.rekey.carrier.Some? {
        assert EmitFrame(n.a.s, text, false, false, env) == (n.a.s, Failed(CarrierParked)) by { ParkedBlocks(n.a.s, text, false, env); }
        assert n.(a := n.a.(s := n.a.s)) == n;
      } else {
        RefusedKeeps(n, text, env);
      }
    case BuildCarrier(_) =>
      if n.a.s.lossy && n.a.s.rekey.carrier.None? {
        assert Fits(n.a.s, "") by { NothingFits(n.a.s); }
        BuildKeeps(n, "", true, env);
        assert AfterBuild(n, n.a.s, Nothing) == n by { FailedBuild(n, Nothing); }
      }
    case CarrierAccepted(_) => AcceptedKeeps(n);
    case Poll(_) => if !n.a.s.lossy { PollKeeps(n, env); }
    case Deliver(_) => if n.ba != [] { DeliverKeeps(n, env); }
    case Force(_) => ForceKeeps(n);
  }

  lemma FitsMeans(s: State, text: Text)
    requires Fits(s, text)
    ensures |text| <= DATA_MAX
  {
  }

  lemma NothingFits(s: State)
    ensures Fits(s, "")
  {
  }

  lemma ParkedBlocks(s: State, text: Text, carrierOnly: bool, env: Env)
    requires s.lossy && s.rekey.carrier.Some?
    ensures EmitFrame(s, text, false, carrierOnly, env) == (s, Failed(CarrierParked))
  {
  }

  lemma FailedBuild(n: Net, r: EmitResult)
    requires !r.Emitted?
    ensures AfterBuild(n, n.a.s, r) == n
  {
  }

  // ----- quiescent states -----------------------------------------------------------------

  // What a quiescent state promises for the direction from a to b: the ends agree, but for
  // the payloads that the transport has just refused (none, if it took the last frame).
  predicate Agreed(n: Net) {
    && DirectionOf(n.a.s.send) == Ahead(DirectionOf(n.b.s.recv), n.a.lost)
    && CachedCurrent(n.a.s.rekey, n.b.s.rekey)
    && n.a.s.rekey.peerHave == n.b.s.rekey.published
    && !n.a.s.rekey.awaitingPeer
    && n.a.said == n.b.heard
  }

  lemma BoundedAgrees(n: Net)
    requires Half(n) && Half(Flip(n)) && Keeps(n.a, BURST) && Quiescent(n)
    ensures Agreed(n) && Agreed(Flip(n)) && n.a.s.rekey.published == n.b.s.rekey.published
    ensures n.a.lost < MAX_SKIP && n.b.lost < MAX_SKIP
  {
    hide DirectionOf;
    assert n.a.s in {n.a.s, n.b.s} && n.b.s in {n.a.s, n.b.s};
    assert Out(n) == [] && Out(Flip(n)) == [] && TextsOf([]) == [];
    Settled(n.a.s, n.b.s, n.a.spent, n.a.count, n.a.lost);
    LooseSettled(n.b.s, n.a.s, n.a.spent, n.b.lost);
    assert Answered(n.a.s.rekey) && Answered(n.b.s.rekey);
  }

  // The starting states: both directions agree, nothing is in flight, parked or left to
  // publish, each cached pair is the peer's current one, and both sides have published
  // theirs or neither has.
  predicate Quiet(n: Net) {
    && Quiescent(n) && Agreed(n) && Agreed(Flip(n)) && n.a.s.rekey.published == n.b.s.rekey.published
    && forall p | p in {n.a, n.b} ::
         p.s.active && p.s.rekey.haveKem && !p.spent && p.count == 0 && !p.forced && p.lost < MAX_SKIP
  }

  lemma QuietInv(n: Net)
    requires Quiet(n)
    ensures Inv(n)
  {
    assert n.a in {n.a, n.b} && n.b in {n.a, n.b} && n.a.s in {n.a.s, n.b.s} && n.b.s in {n.a.s, n.b.s};
    assert Out(n) == [] && Out(Flip(n)) == [] && TextsOf([]) == [];
    QuietHalf(n);
    QuietHalf(Flip(n));
  }

  lemma QuietHalf(n: Net)
    requires Quiet(n) && Out(n) == Out(Flip(n)) == [] && TextsOf([]) == []
    ensures Half(n)
  {
    assert n.a in {n.a, n.b} && n.b in {n.a, n.b} && n.a.s in {n.a.s, n.b.s} && n.b.s in {n.a.s, n.b.s};
    assert Pubs([]) == 0 && Rekeys([]) == 0 && !HasPub([]);
  }

  // A freshly established pair of sessions is such a state.
  lemma EstablishedQuiet(root: Term, lossy: bool, a: Env, b: Env)
    ensures Quiet(Net(Party(Established(root, true, lossy, a.eph, a.kem), [], [], false, 0, false, 0),
                      Party(Established(root, false, lossy, b.eph, b.kem), [], [], false, 0, false, 0), [], []))
  {
  }

  // A quiescent state that an allowed run reaches is a starting state again.
  lemma QuiescentAgrees(n: Net)
    requires Inv(n) && Quiescent(n)
    ensures Agreed(n) && Agreed(Flip(n)) && Quiet(Settle(n))
    ensures Inv(Settle(n))
  {
    QuiescentFlip(n);
    if Keeps(n.a, BURST) { BoundedAgrees(n); } else { BoundedAgrees(Flip(n)); }
    hide Link, Loose;
    assert n.a.s.active && n.b.s.active && n.a.s.rekey.haveKem && n.b.s.rekey.haveKem;
    QuietInv(Settle(n));
  }

  lemma QuiescentFlip(n: Net)
    ensures Quiescent(Flip(n)) <==> Quiescent(n)
  {
    assert {n.a.s, n.b.s} == {n.b.s, n.a.s};
  }

  lemma FlipInv(n: Net)
    ensures Inv(Flip(n)) <==> Inv(n)
    ensures Flip(Flip(n)) == n
  {
  }

  lemma NextKeeps(n: Net, m: Move, env: Env)
    requires Inv(n) && Allowed(n, m)
    ensures Inv(Next(n, m, env))
  {
    hide Inv, MoveOfA, Settle;
    if m.side == A {
      MoveOfAKeeps(n, m, env);
      SettleKeeps(MoveOfA(n, m, env));
    } else {
      FlipInv(n);
      MoveOfAKeepsB(Flip(n), m, env);
      FlipInv(MoveOfA(Flip(n), m, env));
      SettleKeeps(Flip(MoveOfA(Flip(n), m, env)));
    }
  }

  lemma MoveOfAKeepsB(n: Net, m: Move, env: Env)
    requires Inv(n) && Allowed(Flip(n), m) && m.side == B
    ensures Inv(MoveOfA(n, m, env))
  {
    hide Inv;
    MoveOfAKeeps(n, m.(side := A), env);
  }

  lemma SettleKeeps(n: Net)
    requires Inv(n)
    ensures Inv(Settle(n))
  {
    hide Inv;
    if Quiescent(n) { QuiescentAgrees(n); }
  }
}
