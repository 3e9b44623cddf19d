/**
 Why re-key agreement needs its condition on forced re-keys (src/session.c:659-662,
 755-768): a run of two freshly established sessions over FIFO channels in which each
 side is forced to re-key again after it has sent a REKEY. A KEMPUB that crosses a REKEY
 aimed at the same pair re-arms peerHave with the retired pair; the next REKEY goes to
 that pair, and the two ends of the direction no longer agree.
 */
module StaleRekey {
  import opened Options
  import opened Limits
  import opened Symbolic
  import opened Ratchets
  import opened SentRings
  import opened Sessions
  import opened RekeyLink
  import opened RekeySystem

  // ----- the run ----------------------------------------------------------------------------

  function Fresh(root: Term, a: Env, b: Env): Net {
    Net(Party(Established(root, true, false, a.eph, a.kem), [], [], false, 0, false, 0),
        Party(Established(root, false, false, b.eph, b.kem), [], [], false, 0, false, 0), [], [])
  }

  // Both sides publish, and each hears the other.
  function Published(n: Net, env: Env): Net {
    var n1 := Next(n, Force(A), env);
    var n2 := Next(n1, Say(A, ""), env);
    var n3 := Next(n2, Force(B), env);
    var n4 := Next(n3, Say(B, ""), env);
    var n5 := Next(n4, Deliver(A), env);
    Next(n5, Deliver(B), env)
  }

  // Both sides send a REKEY; then b, forced, publishes its old pair again.
  function Crossed(n: Net, env: Env): Net {
    var n1 := Next(n, Say(A, ""), env);
    var n2 := Next(n1, Say(B, ""), env);
    var n3 := Next(n2, Force(B), env);
    Next(n3, Say(B, ""), env)
  }

  // a hears both frames of b and publishes its new pair; then, forced, a sends a REKEY.
  function Armed(n: Net, env: Env): Net {
    var n1 := Next(n, Deliver(A), env);
    var n2 := Next(n1, Deliver(A), env);
    var n3 := Next(n2, Say(A, ""), env);
    var n4 := Next(n3, Force(A), env);
    Next(n4, Say(A, ""), env)
  }

  // b hears the three frames of a.
  function Heard(n: Net, env: Env): Net {
    var n1 := Next(n, Deliver(B), env);
    var n2 := Next(n1, Deliver(B), env);
    Next(n2, Deliver(B), env)
  }

  // ----- its steps --------------------------------------------------------------------------

  ghost predicate Simple(s: State) {
    s.active && !s.lossy && s.rekey.haveKem && s.rekey.carrier.None?
  }

  // What b would hold after the frames in flight is what a holds.
  ghost predicate SameEnds(n: Net) {
    Replayed(DirectionOf(n.b.s.recv), n.ab, n.b.s.rekey.eph, n.b.s.rekey.kem) == Some(DirectionOf(n.a.s.send))
  }

  ghost predicate InSync(n: Net) {
    Simple(n.a.s) && Simple(n.b.s) && SameEnds(n) && SameEnds(Flip(n))
  }

  ghost predicate Fine(n: Net, k: nat) {
    InSync(n) && n.a.s.send.sinceFold <= k && n.b.s.send.sinceFold <= k
  }

  // a says nothing in particular, with the header that is due.
  lemma Speaks(n: Net, m: Net, side: Side, env: Env)
    requires side == A && InSync(n) && m == Next(n, Say(side, ""), env) && CachedCurrent(n.a.s.rekey, n.b.s.rekey)
    ensures InSync(m) && m.ba == n.ba && m.b.s == n.b.s
    ensures var (x, hdr, fold) := PickHeader(Due(n.a.s), env);
            && |m.ab| == |n.ab| + 1 && m.ab[..|n.ab|] == n.ab && m.ab[|n.ab|].Data? && m.ab[|n.ab|].hdr == hdr
            && m.a.s.rekey == (if fold.Some? then x.(rekeyDue := false, peerHave := false) else x)
            && m.a.s.send.sinceFold == if fold.Some? then 0 else n.a.s.send.sinceFold + 1
  {
    hide Replayed, Take, PickHeader, Due;
    var (t, r) := EmitFrame(n.a.s, "", false, false, env);
    EmitsFrame(n.a.s, "", false, false, env);
    ReplayAppend(DirectionOf(n.b.s.recv), n.ab, r.frame, n.b.s.rekey.eph, n.b.s.rekey.kem);
    AgreedTake(n.a.s, t, r.frame, n.b.s.rekey);
  }

  lemma SpeakStep(n: Net, m: Net, side: Side, env: Env, k: nat)
    requires side == A && Fine(n, k) && k < REKEY_EVERY && m == Next(n, Say(side, ""), env)
    requires var x := n.a.s.rekey; x.peerHave ==> x.peerKem == n.b.s.rekey.kem && x.peerEph == Pub(n.b.s.rekey.eph)
    ensures Fine(m, k + 1) && m.ba == n.ba && m.b.s == n.b.s
    ensures var (x, hdr, fold) := PickHeader(n.a.s.rekey, env);
            && |m.ab| == |n.ab| + 1 && m.ab[..|n.ab|] == n.ab && m.ab[|n.ab|].Data? && m.ab[|n.ab|].hdr == hdr
            && m.a.s.rekey == if fold.Some? then x.(rekeyDue := false, peerHave := false) else x
  {
    hide InSync, Next, PickHeader;
    Speaks(n, m, side, env);
  }

  lemma AgreedTake(x: State, t: State, f: Frame, y: Rekeying)
    requires Emits(x, t, f) && CachedCurrent(x.rekey, y)
    ensures Take(DirectionOf(x.send), f, y.eph, y.kem) == Some(DirectionOf(t.send))
  {
    hide DhShared;
    DhCommutes(x.rekey.eph, y.eph);
  }

  // a's side after taking frame f.
  ghost predicate Took(x: Rekeying, t: Rekeying, f: Frame, env: Env) {
    f.Data? &&
    match f.hdr
    case Plain => t == x
    case KemPub(kem, point) => t == ApplyKemPub(x, kem, point)
    case Rekey(_, point) =>
      t == x.(peerEph := point, eph := env.eph, kem := env.kem, published := false, postFoldPublish := true)
    case Malformed(_) => false
  }

  // a takes the next frame. The rest is in step with a's old pair, and with its new one
  // if no REKEY is left.
  lemma Hears(n: Net, m: Net, side: Side, env: Env)
    requires side == A && InSync(n) && n.ba != [] && n.ba[0].Data? && m == Next(n, Deliver(side), env)
    ensures Simple(m.a.s) && m.b.s == n.b.s && m.ba == n.ba[1..] && m.ab == n.ab && m.a.s.send == n.a.s.send
    ensures Replayed(DirectionOf(m.a.s.recv), m.ba, n.a.s.rekey.eph, n.a.s.rekey.kem) == Some(DirectionOf(m.b.s.send))
    ensures Took(n.a.s.rekey, m.a.s.rekey, n.ba[0], env)
    ensures !n.ba[0].hdr.Rekey? || Rekeys(m.ba) == 0 ==> InSync(m)
  {
    HearsOne(n, m, side, env);
    hide Next, Took;
    if Rekeys(m.ba) == 0 {
      ReplayAnyPair(DirectionOf(m.a.s.recv), m.ba, n.a.s.rekey.eph, n.a.s.rekey.kem, m.a.s.rekey.eph, m.a.s.rekey.kem);
    }
    if !n.ba[0].hdr.Rekey? { TookKeepsPair(n.a.s.rekey, m.a.s.rekey, n.ba[0], env); }
  }

  lemma HearsOne(n: Net, m: Net, side: Side, env: Env)
    requires side == A && InSync(n) && n.ba != [] && n.ba[0].Data? && m == Next(n, Deliver(side), env)
    ensures Simple(m.a.s) && m.b.s == n.b.s && m.ba == n.ba[1..] && m.ab == n.ab && m.a.s.send == n.a.s.send
    ensures Replayed(DirectionOf(m.a.s.recv), m.ba, n.a.s.rekey.eph, n.a.s.rekey.kem) == Some(DirectionOf(m.b.s.send))
    ensures Took(n.a.s.rekey, m.a.s.rekey, n.ba[0], env)
  {
    hide Take, Rekeys, Commit, KeyAt, AckSent, FindSkipped, ApplyRekey, Feed;
    FeedTakes(n.a.s, n.ba[0], env);
    FeedDraws(n.a.s, n.ba[0], env);
  }

  lemma TookKeepsPair(x: Rekeying, t: Rekeying, f: Frame, env: Env)
    requires Took(x, t, f, env) && !f.hdr.Rekey?
    ensures t.eph == x.eph && t.kem == x.kem
  {
  }

  lemma HearStep(n: Net, m: Net, side: Side, env: Env, k: nat)
    requires side == A && Fine(n, k) && n.ba != [] && n.ba[0].Data? && m == Next(n, Deliver(side), env)
    ensures Simple(m.a.s) && m.b.s == n.b.s && m.ba == n.ba[1..] && m.ab == n.ab && m.a.s.send == n.a.s.send
    ensures Replayed(DirectionOf(m.a.s.recv), m.ba, n.a.s.rekey.eph, n.a.s.rekey.kem) == Some(DirectionOf(m.b.s.send))
    ensures !n.ba[0].hdr.Rekey? || Rekeys(m.ba) == 0 ==> Fine(m, k)
    ensures Took(n.a.s.rekey, m.a.s.rekey, n.ba[0], env)
  {
    hide InSync, Next, Took, Replayed;
    Hears(n, m, side, env);
  }

  // The pair that a consumed REKEY rotates to.
  lemma FeedDraws(y: State, f: Frame, env: Env)
    requires y.active && f.Data? && Take(DirectionOf(y.recv), f, y.rekey.eph, y.rekey.kem).Some?
    ensures f.hdr.Rekey? ==> Feed(y, f, env).0.rekey.kem == env.kem && Feed(y, f, env).0.rekey.eph == env.eph
  {
    hide FindSkipped, AddSkipped, AckSent, Commit;
    assert ChainAt(y.recv.chain, 0) == y.recv.chain;
  }

  lemma ForceStep(n: Net, m: Net, side: Side, env: Env, k: nat)
    requires side == A && Fine(n, k) && m == Next(n, Force(side), env)
    ensures Fine(m, k) && m.ab == n.ab && m.ba == n.ba && m.b.s == n.b.s
    ensures m.a.s == n.a.s.(rekey := n.a.s.rekey.(rekeyDue := true))
  {
  }

  // A move of b is a move of a in the net seen from the other end.
  lemma FlipNext(n: Net, m: Move, env: Env)
    requires m.side == B
    ensures Next(n, m, env) == Flip(Next(Flip(n), m.(side := A), env))
  {
    hide EmitFrame, Feed, Carrier, RelPoll;
    assert MoveOfA(Flip(n), m, env) == MoveOfA(Flip(n), m.(side := A), env);
    assert Quiescent(MoveOfA(Flip(n), m, env)) <==> Quiescent(Flip(MoveOfA(Flip(n), m, env)));
  }

  // ----- the run, stage by stage ------------------------------------------------------------

  // The moves of b, as seen from b's end.
  lemma FlipSync(n: Net)
    ensures InSync(Flip(n)) <==> InSync(n)
  {
  }

  lemma SpeaksB(n: Net, m: Net, env: Env)
    requires InSync(n) && m == Next(n, Say(B, ""), env) && CachedCurrent(n.b.s.rekey, n.a.s.rekey)
    ensures InSync(m) && m.ab == n.ab && m.a.s == n.a.s
    ensures var (x, hdr, fold) := PickHeader(Due(n.b.s), env);
            && |m.ba| == |n.ba| + 1 && m.ba[..|n.ba|] == n.ba && m.ba[|n.ba|].Data? && m.ba[|n.ba|].hdr == hdr
            && m.b.s.rekey == (if fold.Some? then x.(rekeyDue := false, peerHave := false) else x)
            && m.b.s.send.sinceFold == if fold.Some? then 0 else n.b.s.send.sinceFold + 1
  {
    hide Next, PickHeader, InSync, Due;
    FlipSync(n);
    FlipNext(n, Say(B, ""), env);
    Speaks(Flip(n), Flip(m), A, env);
    FlipSync(m);
  }

  lemma HearsB(n: Net, m: Net, env: Env)
    requires InSync(n) && n.ab != [] && n.ab[0].Data? && m == Next(n, Deliver(B), env)
    ensures Simple(m.b.s) && m.a.s == n.a.s && m.ab == n.ab[1..] && m.ba == n.ba && m.b.s.send == n.b.s.send
    ensures Replayed(DirectionOf(m.b.s.recv), m.ab, n.b.s.rekey.eph, n.b.s.rekey.kem) == Some(DirectionOf(m.a.s.send))
    ensures Took(n.b.s.rekey, m.b.s.rekey, n.ab[0], env)
    ensures !n.ab[0].hdr.Rekey? || Rekeys(m.ab) == 0 ==> InSync(m)
  {
    hide Next, InSync, Took, Replayed, Rekeys;
    FlipSync(n);
    FlipNext(n, Deliver(B), env);
    Hears(Flip(n), Flip(m), A, env);
    FlipSync(m);
  }

  lemma SpeakStepB(n: Net, m: Net, env: Env, k: nat)
    requires Fine(n, k) && k < REKEY_EVERY && m == Next(n, Say(B, ""), env)
    requires CachedCurrent(n.b.s.rekey, n.a.s.rekey)
    ensures Fine(m, k + 1) && m.ab == n.ab && m.a.s == n.a.s
    ensures var (x, hdr, fold) := PickHeader(n.b.s.rekey, env);
            && |m.ba| == |n.ba| + 1 && m.ba[..|n.ba|] == n.ba && m.ba[|n.ba|].Data? && m.ba[|n.ba|].hdr == hdr
            && m.b.s.rekey == if fold.Some? then x.(rekeyDue := false, peerHave := false) else x
  {
    hide InSync, Next, PickHeader;
    SpeaksB(n, m, env);
  }

  lemma HearStepB(n: Net, m: Net, env: Env, k: nat)
    requires Fine(n, k) && n.ab != [] && n.ab[0].Data? && m == Next(n, Deliver(B), env)
    ensures Simple(m.b.s) && m.a.s == n.a.s && m.ab == n.ab[1..] && m.ba == n.ba && m.b.s.send == n.b.s.send
    ensures Replayed(DirectionOf(m.b.s.recv), m.ab, n.b.s.rekey.eph, n.b.s.rekey.kem) == Some(DirectionOf(m.a.s.send))
    ensures !n.ab[0].hdr.Rekey? || Rekeys(m.ab) == 0 ==> Fine(m, k)
    ensures Took(n.b.s.rekey, m.b.s.rekey, n.ab[0], env)
  {
    hide InSync, Next, Took, Replayed;
    HearsB(n, m, env);
  }

  lemma ForceStepB(n: Net, m: Net, env: Env, k: nat)
    requires Fine(n, k) && m == Next(n, Force(B), env)
    ensures Fine(m, k) && m.ab == n.ab && m.ba == n.ba && m.a.s == n.a.s
    ensures m.b.s == n.b.s.(rekey := n.b.s.rekey.(rekeyDue := true))
  {
    hide Next;
    FlipNext(n, Force(B), env);
    ForceStep(Flip(n), Flip(m), A, env, k);
  }

  lemma FreshFacts(root: Term, a: Env, b: Env)
    ensures var n := Fresh(root, a, b);
            && Fine(n, 0) && n.ab == n.ba == []
            && n.a.s.rekey == Rekeying(a.eph, true, a.kem, false, 0, SmallOrder(0), false, false, false, false, false, None)
            && n.b.s.rekey == Rekeying(b.eph, true, b.kem, false, 0, SmallOrder(0), false, false, false, false, false, None)
  {
  }

  lemma PublishedFacts(root: Term, a: Env, b: Env, env: Env)
    ensures var n := Published(Fresh(root, a, b), env);
            && Fine(n, 2) && n.ab == [] && n.ba == []
            && n.a.s.rekey == Rekeying(a.eph, true, a.kem, true, b.kem, Pub(b.eph), true, false, true, false, false, None)
            && n.b.s.rekey == Rekeying(b.eph, true, b.kem, true, a.kem, Pub(a.eph), true, false, true, false, false, None)
  {
    var n0 := Fresh(root, a, b);
    FreshFacts(root, a, b);
    hide Next, Fine, Fresh;
    var n1 := Next(n0, Force(A), env); ForceStep(n0, n1, A, env, 0);
    var n2 := Next(n1, Say(A, ""), env); SpeakStep(n1, n2, A, env, 0);
    var n3 := Next(n2, Force(B), env); ForceStepB(n2, n3, env, 1);
    var n4 := Next(n3, Say(B, ""), env); SpeakStepB(n3, n4, env, 1);
    var n5 := Next(n4, Deliver(A), env); HearStep(n4, n5, A, env, 2);
    var n6 := Next(n5, Deliver(B), env); HearStepB(n5, n6, env, 2);
  }

  lemma CrossedFacts(n: Net, env: Env)
    requires Fine(n, 2) && n.ab == [] && n.ba == []
    requires var x, y := n.a.s.rekey, n.b.s.rekey;
             && x == Rekeying(x.eph, true, x.kem, true, y.kem, Pub(y.eph), true, false, true, false, false, None)
             && y == Rekeying(y.eph, true, y.kem, true, x.kem, Pub(x.eph), true, false, true, false, false, None)
    ensures var m := Crossed(n, env); var x, y := n.a.s.rekey, n.b.s.rekey;
            && Fine(m, 5) && |m.ab| == 1 && |m.ba| == 2
            && m.ab[0].Data? && m.ab[0].hdr == Rekey(Ct(y.kem, env.coin), Pub(x.eph))
            && m.ba[0].Data? && m.ba[0].hdr == Rekey(Ct(x.kem, env.coin), Pub(y.eph))
            && m.ba[1].Data? && m.ba[1].hdr == KemPub(y.kem, Pub(y.eph))
            && m.a.s.rekey == x.(rekeyDue := false, peerHave := false)
            && m.b.s.rekey == y.(rekeyDue := false, peerHave := false, awaitingPeer := true)
  {
    hide Next, Fine;
    var n1 := Next(n, Say(A, ""), env); SpeakStep(n, n1, A, env, 2);
    var n2 := Next(n1, Say(B, ""), env); SpeakStepB(n1, n2, env, 3);
    var n3 := Next(n2, Force(B), env); ForceStepB(n2, n3, env, 4);
    var n4 := Next(n3, Say(B, ""), env); SpeakStepB(n3, n4, env, 4);
    assert n4.ba[0] == n4.ba[..|n3.ba|][0];
  }

  lemma ArmedFacts(n: Net, x: Rekeying, y: Rekeying, env: Env)
    requires && Fine(n, 5) && |n.ab| == 1 && |n.ba| == 2
             && n.ab[0].Data? && n.ab[0].hdr == Rekey(Ct(y.kem, env.coin), Pub(x.eph))
             && n.ba[0].Data? && n.ba[0].hdr == Rekey(Ct(x.kem, env.coin), Pub(y.eph))
             && n.ba[1].Data? && n.ba[1].hdr == KemPub(y.kem, Pub(y.eph))
             && x == Rekeying(x.eph, true, x.kem, true, y.kem, Pub(y.eph), true, false, true, false, false, None)
             && n.a.s.rekey == x.(rekeyDue := false, peerHave := false)
             && n.b.s.rekey == y.(rekeyDue := false, peerHave := false, awaitingPeer := true)
    ensures var m := Armed(n, env);
            && Fine(m, 7) && |m.ab| == 3 && m.ab[0] == n.ab[0] && m.b.s == n.b.s
            && m.ab[1].Data? && m.ab[1].hdr == KemPub(env.kem, Pub(env.eph))
            && m.ab[2].Data? && m.ab[2].hdr == Rekey(Ct(y.kem, env.coin), Pub(env.eph))
  {
    hide Next, Fine;
    var n1 := Next(n, Deliver(A), env);
    assert Rekeys(n.ba[1..]) == 0;
    HearStep(n, n1, A, env, 5);
    var n2 := Next(n1, Deliver(A), env); HearStep(n1, n2, A, env, 5);
    var n3 := Next(n2, Say(A, ""), env); SpeakStep(n2, n3, A, env, 5);
    var n4 := Next(n3, Force(A), env); ForceStep(n3, n4, A, env, 6);
    var n5 := Next(n4, Say(A, ""), env); SpeakStep(n4, n5, A, env, 6);
    assert n3.ab[0] == n3.ab[..1][0] && n5.ab[0] == n5.ab[..2][0] && n5.ab[1] == n5.ab[..2][1];
  }

  // What b would hold after the frames in flight, had it kept the pair (eph, kem), is what
  // a holds.
  ghost predicate Behind(n: Net, eph: nat, kem: nat) {
    Simple(n.b.s) && Replayed(DirectionOf(n.b.s.recv), n.ab, eph, kem) == Some(DirectionOf(n.a.s.send))
  }

  // That stays so while b hears frames without a REKEY, whatever pair it has now.
  lemma HearBehind(n: Net, m: Net, eph: nat, kem: nat, env: Env)
    requires Behind(n, eph, kem) && n.ab != [] && n.ab[0].Data? && !n.ab[0].hdr.Rekey?
    requires m == Next(n, Deliver(B), env)
    ensures Behind(m, eph, kem) && m.ab == n.ab[1..] && m.ba == n.ba && m.a.s == n.a.s && m.b.s.rekey.kem == n.b.s.rekey.kem
  {
    hide Next, Feed, KeyAt, Commit;
    HearNext(n, m, env);
    FeedTakes(n.b.s, n.ab[0], env);
  }

  // A REKEY to that pair then separates the two ends.
  lemma HearLast(n: Net, m: Net, eph: nat, kem: nat, env: Env)
    requires Behind(n, eph, kem) && |n.ab| == 1 && n.b.s.rekey.kem != kem
    requires n.ab[0].Data? && n.ab[0].hdr.Rekey? && n.ab[0].hdr.ct.Ct? && n.ab[0].hdr.ct.pk == kem
    requires m == Next(n, Deliver(B), env)
    ensures m.ab == [] && m.b.s.recv.root != m.a.s.send.root && m.ba == n.ba
  {
    hide Next, Feed, KeyAt, Commit;
    var g, d := n.ab[0], DirectionOf(n.b.s.recv);
    HearNext(n, m, env);
    assert n.ab[1..] == [];
    assert Take(d, g, eph, kem) == Replayed(d, n.ab, eph, kem);
    FeedTakes(n.b.s, g, env);
    assert KemDec(g.hdr.ct, n.b.s.rekey.kem) != KemDec(g.hdr.ct, kem);
  }

  lemma HeardFacts(n: Net, env: Env)
    requires Fine(n, 7) && |n.ab| == 3
    requires n.ab[0].Data? && n.ab[0].hdr.Rekey?
    requires n.ab[1].Data? && n.ab[1].hdr.KemPub?
    requires n.ab[2].Data? && n.ab[2].hdr.Rekey? && n.ab[2].hdr.ct.Ct? && n.ab[2].hdr.ct.pk == n.b.s.rekey.kem
    requires env.kem != n.b.s.rekey.kem
    ensures var m := Heard(n, env); m.ab == [] && m.b.s.recv.root != m.a.s.send.root
  {
    hide Next, Rekeys, Replayed;
    var k := n.b.s.rekey;
    var n1 := Next(n, Deliver(B), env); HearStepB(n, n1, env, 7);
    assert n1.ab[0] == n.ab[1] && n1.ab[1] == n.ab[2];
    var n2 := Next(n1, Deliver(B), env); HearBehind(n1, n2, k.eph, k.kem, env);
    HearLast(n2, Next(n2, Deliver(B), env), k.eph, k.kem, env);
  }

  lemma HearNext(n: Net, m: Net, env: Env)
    requires n.ab != [] && m == Next(n, Deliver(B), env)
    ensures m.b.s == Feed(n.b.s, n.ab[0], env).0 && m.a.s == n.a.s && m.ab == n.ab[1..] && m.ba == n.ba
  {
    hide Feed;
  }

  // Whatever the keys, as long as b's second pair differs from its first.
  lemma SecondRekeyDiverges(root: Term, a: Env, b: Env, env: Env, draw: Env)
    requires draw.kem != b.kem
    ensures var n := Heard(Armed(Crossed(Published(Fresh(root, a, b), env), env), env), draw);
            n.ab == [] && n.a.s.send.root != n.b.s.recv.root && !Agreed(n)
  {
    hide Published, Crossed, Armed, Heard, Fresh, Fine;
    var n1 := Published(Fresh(root, a, b), env);
    PublishedFacts(root, a, b, env);
    CrossedFacts(n1, env);
    ArmedFacts(Crossed(n1, env), n1.a.s.rekey, n1.b.s.rekey, env);
    HeardFacts(Armed(Crossed(n1, env), env), draw);
  }
}