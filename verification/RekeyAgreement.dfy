/**
 Re-key agreement (src/session.c:613-672, 695-865, 934-1015): two sessions joined by two
 FIFO channels. Under every interleaving of sends, refused payloads, carrier builds,
 transport acceptances, polls, deliveries and forced re-keys, crossing REKEYs included: if
 in every stretch between quiescent states at least one side builds at most 65 frames and
 is not forced to re-key again after it has sent a REKEY, and fewer than 512 payloads are
 refused in a row, then every frame decrypts to what was sent, every REKEY is aimed at the
 pair that its receiver still owns, and at every quiescent state the two ends of each
 direction agree, refused payloads aside, and each cached pair is current.
 */
module RekeyAgreement {
  import opened Symbolic
  import opened Sessions
  import opened RekeyLink
  import opened RekeySystem

  // ----- the theorem ------------------------------------------------------------------------

  lemma {:induction false} PlayKeeps(n: Net, moves: seq<(Move, Env)>)
    requires Quiet(n) && AllAllowed(n, moves)
    ensures Inv(Play(n, moves))
  {
    hide Inv, Next, Quiet;
    if moves == [] {
      QuietInv(n);
    } else {
      PlayKeeps(n, moves[..|moves| - 1]);
      NextKeeps(Play(n, moves[..|moves| - 1]), moves[|moves| - 1].0, moves[|moves| - 1].1);
    }
  }

  // At every quiescent state both directions agree again.
  lemma RekeyAgreement(n: Net, moves: seq<(Move, Env)>)
    requires Quiet(n) && AllAllowed(n, moves) && Quiescent(Play(n, moves))
    ensures var p := Play(n, moves);
            && Agreed(p) && Agreed(Flip(p)) && Quiet(Settle(p))
            && (p.a.lost == 0 ==> DirectionOf(p.a.s.send) == DirectionOf(p.b.s.recv))
            && (p.b.lost == 0 ==> DirectionOf(p.b.s.send) == DirectionOf(p.a.s.recv))
  {
    PlayKeeps(n, moves);
    QuiescentAgrees(Play(n, moves));
  }

  // In every state of such a run a direction with nothing in flight or parked agrees.
  lemma EmptyChannelAgrees(n: Net, moves: seq<(Move, Env)>)
    requires Quiet(n) && AllAllowed(n, moves)
    ensures forall p | p in {Play(n, moves), Flip(Play(n, moves))} && Out(p) == [] ::
              DirectionOf(p.a.s.send) == Ahead(DirectionOf(p.b.s.recv), p.a.lost)
  {
    hide Play, Quiet, AllUpTo;
    PlayKeeps(n, moves);
    var p := Play(n, moves);
    FlipInv(p);
    if Out(p) == [] { EmptyAgrees(p); }
    if Out(Flip(p)) == [] { EmptyAgrees(Flip(p)); }
  }

  lemma EmptyAgrees(p: Net)
    requires Inv(p) && Out(p) == []
    ensures DirectionOf(p.a.s.send) == Ahead(DirectionOf(p.b.s.recv), p.a.lost)
  {
    assert InStep(p.a.s, p.b.s, Out(p), p.a.lost);
  }

  // Every frame that is delivered in such a run decrypts to the text it was built from,
  // and a REKEY is aimed at the pair that its receiver still owns.
  lemma EveryFrameOpens(n: Net, moves: seq<(Move, Env)>, env: Env)
    requires Quiet(n) && AllAllowed(n, moves)
    ensures forall p | p in {Play(n, moves), Flip(Play(n, moves))} && p.ba != [] ::
              var f := p.ba[0];
              f.Data? ==>
                && f.box.Sealed? && Feed(p.a.s, f, env).1 == Delivered(f.box.text)
                && (f.hdr.Rekey? ==> f.hdr.ct.Ct? && f.hdr.ct.pk == p.a.s.rekey.kem)
  {
    hide Inv, Feed, Takes;
    var p := Play(n, moves);
    PlayKeeps(n, moves);
    FlipInv(p);
    if p.ba != [] { NextOpens(p, env); }
    if p.ab != [] { NextOpens(Flip(p), env); }
  }

  // Texts, re-sent ones included, arrive complete and in order: what was heard is a prefix
  // of what was said.
  lemma HeardInOrder(n: Net, moves: seq<(Move, Env)>)
    requires Quiet(n) && AllAllowed(n, moves)
    ensures var p := Play(n, moves); p.b.heard <= p.a.said && p.a.heard <= p.b.said
  {
    PlayKeeps(n, moves);
  }

  // ----- when a REKEY agrees, and a run in which it does not --------------------------------

  // For ends that agreed before, a REKEY leaves them in agreement exactly if the sender's
  // copy of the receiver's pair was the current one.
  lemma RekeyAgreesIff(x: State, y: State, t: State, f: Frame, env: Env)
    requires y.active && DirectionOf(x.send) == DirectionOf(y.recv)
    requires Emits(x, t, f) && f.hdr.Rekey?
    ensures DirectionOf(t.send) == DirectionOf(Feed(y, f, env).0.recv)
            <==> x.rekey.peerKem == y.rekey.kem && x.rekey.peerEph == Pub(y.rekey.eph)
  {
    hide Feed;
    FeedTakes(y, f, env);
  }
}
