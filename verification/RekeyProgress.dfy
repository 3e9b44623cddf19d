/**
 A re-key that is due comes about (src/session.c:613-672, 713-819): from every quiescent
 state of a reliable pair in which one side is due, by force or after 64 frames, a handful of
 frames takes its direction to a chain made with the peer's pair and a coin drawn on the way,
 at both ends; also if the peer has published nothing yet, and if it is due itself and the
 two re-keys cross.
 */
module RekeyProgress {
  import opened Options
  import opened Symbolic
  import opened Ratchets
  import opened SentRings
  import opened Sessions
  import opened Emissions
  import opened RekeyLink
  import opened RekeySystem
  import opened StaleRekey

  // ----- the runs ---------------------------------------------------------------------------

  // What every step of the run draws.
  type Draws = nat -> Env

  // a has b's pair: it sends its REKEY.
  function Folding(n: Net, env: Draws): Net {
    Next(Next(n, Say(A, ""), env(0)), Deliver(B), env(1))
  }

  // a publishes, and b hears it.
  function Asking(n: Net, env: Draws): Net {
    Next(Next(n, Say(A, ""), env(2)), Deliver(B), env(3))
  }

  // b publishes back, and a hears it.
  function Answering(n: Net, env: Draws): Net {
    Next(Next(n, Say(B, ""), env(4)), Deliver(A), env(5))
  }

  // b, due itself, sends a REKEY first; a hears both, and publishes its new pair.
  function Crossing(n: Net, env: Draws): Net {
    var n1 := Next(Next(n, Say(B, ""), env(6)), Say(B, ""), env(7));
    var n2 := Next(Next(n1, Deliver(A), env(8)), Deliver(A), env(9));
    Next(Next(n2, Say(A, ""), env(10)), Deliver(B), env(11))
  }

  function Rekeyed(n: Net, env: Draws): Net {
    if n.a.s.rekey.peerHave then Folding(n, env)
    else if !IsDue(n.b.s) then Folding(Answering(Asking(n, env), env), env)
    else Folding(Crossing(Asking(n, env), env), env)
  }

  // ----- the phases -----------------------------------------------------------------------------

  // A state between the phases: both ends of both directions agree.
  ghost predicate Level(n: Net) {
    && InSync(n) && n.ab == [] && n.ba == []
    && CachedCurrent(n.a.s.rekey, n.b.s.rekey) && CachedCurrent(n.b.s.rekey, n.a.s.rekey)
  }

  lemma QuietIsLevel(n: Net)
    requires Quiet(n) && !n.a.s.lossy && !n.b.s.lossy && n.a.lost == 0 && n.b.lost == 0
    ensures Level(n)
    ensures forall k | k in {n.a.s.rekey, n.b.s.rekey} :: !k.awaitingPeer && !k.postFoldPublish && !k.publishBack
    ensures n.a.s.rekey.peerHave == n.b.s.rekey.published == n.a.s.rekey.published == n.b.s.rekey.peerHave
  {
    assert n.a in {n.a, n.b} && n.b in {n.a, n.b} && n.a.s in {n.a.s, n.b.s} && n.b.s in {n.a.s, n.b.s};
  }

  lemma DueIs(s: State)
    ensures Due(s) == s.rekey.(rekeyDue := IsDue(s)) || (IsDue(s) == s.rekey.rekeyDue && Due(s) == s.rekey)
  {
  }

  // The root that a says its REKEY leads to.
  ghost predicate FoldedTo(root: Term, was: Term, pair: nat, coin: nat) {
    exists dh :: root == NewRoot(was, dh, KemSecret(pair, coin))
  }

  lemma SaysRekey(n: Net, env: Env)
    requires InSync(n) && CachedCurrent(n.a.s.rekey, n.b.s.rekey)
    requires var k := n.a.s.rekey; IsDue(n.a.s) && k.peerHave && !k.postFoldPublish
    ensures var m := Next(n, Say(A, ""), env);
            FoldedTo(m.a.s.send.root, n.a.s.send.root, n.b.s.rekey.kem, env.coin)
  {
    hide StepChain, AddSent;
    var (t, r) := EmitFrame(n.a.s, "", false, false, env);
    assert Contributory(n.a.s.rekey.peerEph);
    var dh := DhShared(n.a.s.rekey.eph, n.a.s.rekey.peerEph).value;
    assert Next(n, Say(A, ""), env).a.s == t;
    assert t.send.root == NewRoot(n.a.s.send.root, dh, KemSecret(n.b.s.rekey.kem, env.coin)) by { StepKeepsRoot(n.a.s.send); }
  }

  lemma StepKeepsRoot(r: Ratchet)
    ensures StepChain(r).root == r.root
  {
  }

  // a, which has b's pair and is due, sends its REKEY, and b follows.
  lemma Folds(n: Net, env: Draws)
    requires Level(n)
    requires var k := n.a.s.rekey; IsDue(n.a.s) && k.peerHave && !k.postFoldPublish
    ensures var m := Folding(n, env);
            && FoldedTo(m.a.s.send.root, n.a.s.send.root, n.b.s.rekey.kem, env(0).coin)
            && m.ab == [] && DirectionOf(m.b.s.recv) == DirectionOf(m.a.s.send)
  {
    hide Next, InSync, PickHeader, Due, IsDue, FoldedTo;
    SaysRekey(n, env(0));
    var n1 := Next(n, Say(A, ""), env(0));
    Speaks(n, n1, A, env(0));
    var m := Next(n1, Deliver(B), env(1));
    HearsB(n1, m, env(1));
    assert m.ab == [];
  }

  // a, which has not, publishes its own pair, and b caches it.
  lemma Asks(n: Net, env: Draws)
    requires Level(n) && IsDue(n.a.s)
    requires forall k | k in {n.a.s.rekey, n.b.s.rekey} ::
               !k.awaitingPeer && !k.postFoldPublish && !k.publishBack && !k.published && !k.peerHave
    ensures var m := Asking(n, env);
            && Level(m) && m.a.s.send.root == n.a.s.send.root && m.b.s.send == n.b.s.send
            && m.a.s.rekey == n.a.s.rekey.(published := true, awaitingPeer := true, rekeyDue := false)
            && m.b.s.rekey == n.b.s.rekey.(peerHave := true, peerKem := n.a.s.rekey.kem, peerEph := Pub(n.a.s.rekey.eph), publishBack := true)
  {
    hide Next, InSync;
    assert n.a.s.rekey in {n.a.s.rekey, n.b.s.rekey} && n.b.s.rekey in {n.a.s.rekey, n.b.s.rekey};
    var n1 := Next(n, Say(A, ""), env(2));
    assert n.a.s.rekey.haveKem && n.b.s.rekey.haveKem by { SyncMeans(n); }
    DueIs(n.a.s);
    Speaks(n, n1, A, env(2));
    SpeaksRoot(n, env(2));
    HearsB(n1, Next(n1, Deliver(B), env(3)), env(3));
  }

  lemma SyncMeans(n: Net)
    requires InSync(n)
    ensures n.a.s.rekey.haveKem && n.b.s.rekey.haveKem && !n.a.s.lossy && !n.b.s.lossy
  {
  }

  // Only a REKEY changes the root.
  lemma SpeaksRoot(n: Net, env: Env)
    requires InSync(n) && PickHeader(Due(n.a.s), env).2.None?
    ensures Next(n, Say(A, ""), env).a.s.send.root == n.a.s.send.root
  {
    hide AddSent, PickHeader, Due;
    var (t, r) := EmitFrame(n.a.s, "", false, false, env);
    assert Next(n, Say(A, ""), env).a.s == t || Next(n, Say(A, ""), env).a.s == n.a.s;
  }

  // b, not due, publishes its pair, which ends a's wait.
  lemma Answers(n: Net, env: Draws)
    requires Level(n) && !IsDue(n.b.s) && n.b.s.rekey.publishBack && !n.b.s.rekey.postFoldPublish
    requires n.a.s.rekey.awaitingPeer && n.a.s.rekey.published && !n.a.s.rekey.postFoldPublish
    ensures var m := Answering(n, env);
            && Level(m) && m.a.s.send == n.a.s.send && m.b.s.rekey.kem == n.b.s.rekey.kem
            && m.a.s.rekey.rekeyDue && m.a.s.rekey.peerHave && !m.a.s.rekey.postFoldPublish
  {
    hide Next, InSync;
    DueIs(n.b.s);
    var n1 := Next(n, Say(B, ""), env(4));
    SpeaksB(n, n1, env(4));
    Hears(n1, Next(n1, Deliver(A), env(5)), A, env(5));
  }

  // b, due itself, sends its REKEY and then its pair.
  lemma CrossesTo(n: Net, env: Draws)
    requires Level(n) && IsDue(n.b.s) && n.b.s.rekey.peerHave && n.b.s.rekey.publishBack
    requires !n.b.s.rekey.postFoldPublish && !n.b.s.rekey.awaitingPeer
    ensures var m := Next(Next(n, Say(B, ""), env(6)), Say(B, ""), env(7));
            && InSync(m) && m.ab == [] && m.a.s == n.a.s && |m.ba| == 2
            && m.ba[0].Data? && m.ba[0].hdr.Rekey? && m.ba[0].hdr.ephPk == Pub(n.b.s.rekey.eph)
            && m.ba[1].Data? && m.ba[1].hdr == KemPub(n.b.s.rekey.kem, Pub(n.b.s.rekey.eph))
            && m.b.s.rekey == n.b.s.rekey.(rekeyDue := false, peerHave := false, published := true, publishBack := false)
  {
    hide Next, InSync;
    DueIs(n.b.s);
    var n1 := Next(n, Say(B, ""), env(6));
    SpeaksB(n, n1, env(6));
    assert !IsDue(n1.b.s);
    DueIs(n1.b.s);
    var m := Next(n1, Say(B, ""), env(7));
    SpeaksB(n1, m, env(7));
    assert m.ba[0] == m.ba[..1][0];
  }

  lemma OnePub(f: Frame)
    requires f.Data? && f.hdr.KemPub?
    ensures Rekeys([f]) == 0
  {
  }

  // ... and a, which hears both, publishes the pair that it has now.
  lemma Crosses(n: Net, env: Draws)
    requires Level(n) && IsDue(n.b.s) && n.b.s.rekey.peerHave && n.b.s.rekey.publishBack
    requires !n.b.s.rekey.postFoldPublish && !n.b.s.rekey.awaitingPeer
    requires n.a.s.rekey.awaitingPeer && !n.a.s.rekey.postFoldPublish
    ensures var m := Crossing(n, env);
            && Level(m) && m.a.s.send.root == n.a.s.send.root && m.b.s.rekey.kem == n.b.s.rekey.kem
            && m.a.s.rekey.rekeyDue && m.a.s.rekey.peerHave && !m.a.s.rekey.postFoldPublish
  {
    hide Next, InSync, Due, Rekeys;
    CrossesTo(n, env);
    var n1 := Next(Next(n, Say(B, ""), env(6)), Say(B, ""), env(7));
    var n2 := Next(n1, Deliver(A), env(8));
    OnePub(n1.ba[1]);
    assert n1.ba[1..] == [n1.ba[1]];
    Hears(n1, n2, A, env(8));
    var n3 := Next(n2, Deliver(A), env(9));
    Hears(n2, n3, A, env(9));
    var n4 := Next(n3, Say(A, ""), env(10));
    DueIs(n3.a.s);
    Speaks(n3, n4, A, env(10));
    SpeaksRoot(n3, env(10));
    HearsB(n4, Next(n4, Deliver(B), env(11)), env(11));
  }

  // ----- the theorem ----------------------------------------------------------------------------

  // The root of a direction folds with a secret for the peer's pair and a coin drawn in the
  // run, and both ends are at the same point of the new chain.
  lemma DueRekeyCompletes(n: Net, env: Draws)
    requires Quiet(n) && !n.a.s.lossy && !n.b.s.lossy && n.a.lost == 0 && n.b.lost == 0
    requires IsDue(n.a.s)
    ensures var m := Rekeyed(n, env);
            && FoldedTo(m.a.s.send.root, n.a.s.send.root, n.b.s.rekey.kem, env(0).coin)
            && m.ab == [] && DirectionOf(m.b.s.recv) == DirectionOf(m.a.s.send)
  {
    hide Folding, Asking, Answering, Crossing, Level, IsDue, FoldedTo, Quiet;
    QuietIsLevel(n);
    if n.a.s.rekey.peerHave {
      Folds(n, env);
    } else {
      Asks(n, env);
      var asked := Asking(n, env);
      assert n.b.s.rekey in {n.a.s.rekey, n.b.s.rekey} && n.a.s.rekey in {n.a.s.rekey, n.b.s.rekey};
      StillDue(n.b.s, asked.b.s);
      if IsDue(n.b.s) {
        Crosses(asked, env);
        DueFlag(Crossing(asked, env).a.s);
        Folds(Crossing(asked, env), env);
      } else {
        Answers(asked, env);
        DueFlag(Answering(asked, env).a.s);
        Folds(Answering(asked, env), env);
      }
    }
  }

  lemma StillDue(s: State, t: State)
    requires t.send == s.send && t.rekey.rekeyDue == s.rekey.rekeyDue && t.rekey.awaitingPeer == s.rekey.awaitingPeer
    ensures IsDue(t) == IsDue(s)
  {
  }

  lemma DueFlag(s: State)
    requires s.rekey.rekeyDue
    ensures IsDue(s)
  {
  }
}
