/**
 Why re-key agreement bounds a burst at 65 frames (src/session.c:659-662, 713-768): a run
 of two freshly established sessions over FIFO channels, with no re-key but the automatic
 ones, in which both sides build 66 frames before they are quiescent again. The 66th
 frame of one side publishes its pair again while a REKEY to that pair is on its way; the
 66th frame of the other is a REKEY to it, and the two ends of the direction diverge.
 */
module LongBurst {
  import opened Options
  import opened Limits
  import opened Symbolic
  import opened Sessions
  import opened RekeyLink
  import opened RekeySystem
  import opened StaleRekey

  // ----- runs of equal moves ----------------------------------------------------------------

  type Moves = seq<(Move, Env)>

  function Times(k: nat, m: Move, env: Env): (s: Moves)
    ensures |s| == k
  {
    seq(k, _ => (m, env))
  }

  lemma TimesMore(n: Net, k: nat, m: Move, env: Env)
    requires k > 0
    ensures Play(n, Times(k, m, env)) == Next(Play(n, Times(k - 1, m, env)), m, env)
  {
    assert Times(k, m, env)[..k - 1] == Times(k - 1, m, env);
  }

  lemma {:induction false} PlayThen(n: Net, s: Moves, t: Moves)
    ensures Play(n, s + t) == Play(Play(n, s), t)
    decreases |t|
  {
    hide Next;
    if t == [] {
      assert s + t == s;
    } else {
      assert (s + t)[..|s + t| - 1] == s + t[..|t| - 1];
      PlayThen(n, s, t[..|t| - 1]);
    }
  }

  function AsMove(m: Move, side: Side): Move { m.(side := side) }

  // What b does is what a does in the net seen from the other end.
  lemma {:induction false} PlayFlipped(n: Net, k: nat, m: Move, env: Env)
    requires m.side == B
    ensures Play(n, Times(k, m, env)) == Flip(Play(Flip(n), Times(k, AsMove(m, A), env)))
  {
    hide Next;
    if k > 0 {
      PlayFlipped(n, k - 1, m, env);
      TimesMore(n, k, m, env);
      TimesMore(Flip(n), k, AsMove(m, A), env);
      FlipNext(Play(n, Times(k - 1, m, env)), m, env);
    }
  }

  // ----- the moves that are allowed ---------------------------------------------------------

  function Says(moves: Moves, side: Side): nat {
    if moves == [] then 0
    else Says(moves[..|moves| - 1], side) + if moves[|moves| - 1].0 == Say(side, "") then 1 else 0
  }

  predicate Simply(m: Move) { m.Deliver? || (m.Say? && m.text == "") }

  lemma CountsOne(n: Net, m: Move, env: Env)
    requires Simply(m)
    ensures Next(n, m, env).a.count <= n.a.count + if m == Say(A, "") then 1 else 0
    ensures Next(n, m, env).b.count <= n.b.count + if m == Say(B, "") then 1 else 0
    ensures (Next(n, m, env).a.forced ==> n.a.forced) && (Next(n, m, env).b.forced ==> n.b.forced)
  {
    hide EmitFrame, Feed, Quiescent;
  }

  // A side that says at most so many texts in a stretch builds at most so many frames.
  lemma {:induction false} Bursts(n: Net, moves: Moves, burst: nat)
    requires forall i | 0 <= i < |moves| :: Simply(moves[i].0)
    requires n.a.count + Says(moves, A) <= burst && n.b.count + Says(moves, B) <= burst
    requires !n.a.forced && !n.b.forced
    ensures AllUpTo(n, moves, burst) && !Play(n, moves).a.forced && !Play(n, moves).b.forced
    ensures Play(n, moves).a.count <= n.a.count + Says(moves, A)
    ensures Play(n, moves).b.count <= n.b.count + Says(moves, B)
  {
    hide Next;
    if moves != [] {
      var before, last := moves[..|moves| - 1], moves[|moves| - 1];
      Bursts(n, before, burst);
      CountsOne(Play(n, before), last.0, last.1);
    }
  }

  lemma {:induction false} AllThen(n: Net, s: Moves, t: Moves, burst: nat)
    requires AllUpTo(n, s, burst) && AllUpTo(Play(n, s), t, burst)
    ensures AllUpTo(n, s + t, burst)
    decreases |t|
  {
    hide Next, AllowedUpTo;
    if t == [] {
      assert s + t == s;
    } else {
      assert (s + t)[..|s + t| - 1] == s + t[..|t| - 1];
      AllThen(n, s, t[..|t| - 1], burst);
      PlayThen(n, s, t[..|t| - 1]);
    }
  }

  lemma {:induction false} SaysThen(s: Moves, t: Moves, side: Side)
    ensures Says(s + t, side) == Says(s, side) + Says(t, side)
    decreases |t|
  {
    if t == [] {
      assert s + t == s;
    } else {
      assert (s + t)[..|s + t| - 1] == s + t[..|t| - 1];
      SaysThen(s, t[..|t| - 1], side);
    }
  }

  lemma {:induction false} SaysTimes(k: nat, m: Move, env: Env, side: Side)
    ensures Says(Times(k, m, env), side) == if m == Say(side, "") then k else 0
  {
    if k > 0 {
      assert Times(k, m, env)[..k - 1] == Times(k - 1, m, env);
      SaysTimes(k - 1, m, env, side);
    }
  }

  // ----- plain frames -----------------------------------------------------------------------

  // Frames lo to hi of a channel are plain.
  ghost predicate PlainIn(frames: seq<Frame>, lo: nat, hi: nat) {
    hi <= |frames| && forall i | lo <= i < hi :: frames[i].Data? && frames[i].hdr == Plain
  }

  predicate Idle(s: State) { !s.rekey.rekeyDue && !s.rekey.postFoldPublish && !s.rekey.publishBack }

  // a says k texts, and no header is due.
  lemma {:induction false} SpeakPlain(n: Net, k: nat, env: Env)
    requires InSync(n) && CachedCurrent(n.a.s.rekey, n.b.s.rekey)
    requires Idle(n.a.s) && n.a.s.send.sinceFold + k <= REKEY_EVERY
    ensures var m := Play(n, Times(k, Say(A, ""), env));
            && InSync(m) && m.ba == n.ba && m.b.s == n.b.s && m.a.s.rekey == n.a.s.rekey
            && m.a.s.send.sinceFold == n.a.s.send.sinceFold + k
            && |m.ab| == |n.ab| + k && m.ab[..|n.ab|] == n.ab && PlainIn(m.ab, |n.ab|, |m.ab|)
  {
    hide Next, InSync;
    if k > 0 {
      SpeakPlain(n, k - 1, env);
      var t := Play(n, Times(k - 1, Say(A, ""), env));
      TimesMore(n, k, Say(A, ""), env);
      var m := Next(t, Say(A, ""), env);
      Speaks(t, m, A, env);
      assert forall i | 0 <= i < |t.ab| :: m.ab[i] == m.ab[..|t.ab|][i];
      assert m.ab[..|n.ab|] == m.ab[..|t.ab|][..|n.ab|];
    }
  }

  // a hears k plain frames.
  lemma {:induction false} HearPlain(n: Net, k: nat, env: Env)
    requires InSync(n) && PlainIn(n.ba, 0, k)
    ensures var m := Play(n, Times(k, Deliver(A), env));
            && InSync(m) && m.ba == n.ba[k..] && m.ab == n.ab && m.b.s == n.b.s
            && m.a.s.rekey == n.a.s.rekey && m.a.s.send == n.a.s.send
  {
    hide Next, InSync;
    if k > 0 {
      HearPlain(n, k - 1, env);
      var t := Play(n, Times(k - 1, Deliver(A), env));
      TimesMore(n, k, Deliver(A), env);
      var m := Next(t, Deliver(A), env);
      assert t.ba[0] == n.ba[k - 1];
      Hears(t, m, A, env);
      assert t.ba[1..] == n.ba[k..];
    }
  }

  lemma SpeakPlainB(n: Net, k: nat, env: Env)
    requires InSync(n) && CachedCurrent(n.b.s.rekey, n.a.s.rekey)
    requires Idle(n.b.s) && n.b.s.send.sinceFold + k <= REKEY_EVERY
    ensures var m := Play(n, Times(k, Say(B, ""), env));
            && InSync(m) && m.ab == n.ab && m.a.s == n.a.s && m.b.s.rekey == n.b.s.rekey
            && m.b.s.send.sinceFold == n.b.s.send.sinceFold + k
            && |m.ba| == |n.ba| + k && m.ba[..|n.ba|] == n.ba && PlainIn(m.ba, |n.ba|, |m.ba|)
  {
    hide Play, InSync;
    FlipSync(n);
    PlayFlipped(n, k, Say(B, ""), env);
    SpeakPlain(Flip(n), k, env);
    FlipSync(Play(n, Times(k, Say(B, ""), env)));
  }

  lemma HearPlainB(n: Net, k: nat, env: Env)
    requires InSync(n) && PlainIn(n.ab, 0, k)
    ensures var m := Play(n, Times(k, Deliver(B), env));
            && InSync(m) && m.ab == n.ab[k..] && m.ba == n.ba && m.a.s == n.a.s
            && m.b.s.rekey == n.b.s.rekey && m.b.s.send == n.b.s.send
  {
    hide Play, InSync;
    FlipSync(n);
    PlayFlipped(n, k, Deliver(B), env);
    HearPlain(Flip(n), k, env);
    FlipSync(Play(n, Times(k, Deliver(B), env)));
  }

  lemma One(n: Net, m: Move, env: Env)
    ensures Play(n, Times(1, m, env)) == Next(n, m, env)
  {
    TimesMore(n, 1, m, env);
  }

  // ----- the run ------------------------------------------------------------------------------

  // Either side says 64 texts, and the other hears them.
  function Warm(env: Env): Moves {
    Times(REKEY_EVERY, Say(A, ""), env) + Times(REKEY_EVERY, Deliver(B), env)
    + Times(REKEY_EVERY, Say(B, ""), env) + Times(REKEY_EVERY, Deliver(A), env)
  }

  // The 65th text of either side publishes its pair.
  function Publishing(env: Env): Moves {
    Times(1, Say(A, ""), env) + Times(1, Say(B, ""), env) + Times(1, Deliver(A), env) + Times(1, Deliver(B), env)
  }

  // Both sides send a REKEY; a says 63 more texts, b 64; and b publishes its pair again.
  function Crossing(env: Env): Moves {
    Times(1, Say(A, ""), env) + Times(63, Say(A, ""), env)
    + Times(1, Say(B, ""), env) + Times(REKEY_EVERY, Say(B, ""), env) + Times(1, Say(B, ""), env)
  }

  // a hears all that, publishes its new pair, and sends a REKEY.
  function Arming(env: Env): Moves {
    Times(1, Deliver(A), env) + Times(REKEY_EVERY, Deliver(A), env) + Times(1, Deliver(A), env)
    + Times(1, Say(A, ""), env) + Times(1, Say(A, ""), env)
  }

  // b hears the 66 frames of a; `draw` is where its new pair comes from.
  function Hearing(env: Env, draw: Env): Moves {
    Times(1, Deliver(B), draw) + Times(63, Deliver(B), env) + Times(1, Deliver(B), env) + Times(1, Deliver(B), env)
  }

  lemma Two(n: Net, s: Moves, t: Moves, u: Moves)
    ensures Play(n, s + t + u) == Play(Play(Play(n, s), t), u)
  {
    hide Play;
    PlayThen(n, s + t, u);
    PlayThen(n, s, t);
  }

  lemma WarmFacts(n: Net, env: Env)
    requires InSync(n) && Idle(n.a.s) && Idle(n.b.s) && !n.a.s.rekey.peerHave && !n.b.s.rekey.peerHave
    requires n.a.s.send.sinceFold == n.b.s.send.sinceFold == 0 && n.ab == n.ba == []
    ensures var m := Play(n, Warm(env));
            && InSync(m) && m.ab == m.ba == [] && m.a.s.rekey == n.a.s.rekey && m.b.s.rekey == n.b.s.rekey
            && m.a.s.send.sinceFold == m.b.s.send.sinceFold == REKEY_EVERY
  {
    hide Play, InSync, Times;
    var s1, s2 := Times(REKEY_EVERY, Say(A, ""), env), Times(REKEY_EVERY, Deliver(B), env);
    var s3, s4 := Times(REKEY_EVERY, Say(B, ""), env), Times(REKEY_EVERY, Deliver(A), env);
    var n1 := Play(n, s1); SpeakPlain(n, REKEY_EVERY, env);
    var n2 := Play(n1, s2); HearPlainB(n1, REKEY_EVERY, env);
    var n3 := Play(n2, s3); SpeakPlainB(n2, REKEY_EVERY, env);
    var n4 := Play(n3, s4); HearPlain(n3, REKEY_EVERY, env);
    Two(n, s1, s2, s3);
    PlayThen(n, s1 + s2 + s3, s4);
  }

  // Both sides know each other's pair, and a re-key is due.
  ghost predicate Ready(n: Net) {
    var x, y := n.a.s.rekey, n.b.s.rekey;
    && InSync(n)
    && x == Rekeying(x.eph, true, x.kem, true, y.kem, Pub(y.eph), true, false, true, false, false, None)
    && y == Rekeying(y.eph, true, y.kem, true, x.kem, Pub(x.eph), true, false, true, false, false, None)
  }

  lemma PublishingFacts(n: Net, env: Env)
    requires InSync(n) && n.ab == n.ba == [] && n.a.s.send.sinceFold == n.b.s.send.sinceFold == REKEY_EVERY
    requires var x, y := n.a.s.rekey, n.b.s.rekey;
             && x == Rekeying(x.eph, true, x.kem, false, 0, SmallOrder(0), false, false, false, false, false, None)
             && y == Rekeying(y.eph, true, y.kem, false, 0, SmallOrder(0), false, false, false, false, false, None)
    ensures var m := Play(n, Publishing(env));
            && Ready(m) && m.ab == m.ba == [] && m.a.count == m.b.count == 0
            && m.a.s.rekey.kem == n.a.s.rekey.kem && m.b.s.rekey.kem == n.b.s.rekey.kem
  {
    hide Play, Next, InSync, Times;
    var n1 := Next(n, Say(A, ""), env); One(n, Say(A, ""), env); Speaks(n, n1, A, env);
    var n2 := Next(n1, Say(B, ""), env); One(n1, Say(B, ""), env); SpeaksB(n1, n2, env);
    var n3 := Next(n2, Deliver(A), env); One(n2, Deliver(A), env); Hears(n2, n3, A, env);
    var n4 := Next(n3, Deliver(B), env); One(n3, Deliver(B), env); HearsB(n3, n4, env);
    Two(n, Times(1, Say(A, ""), env), Times(1, Say(B, ""), env), Times(1, Deliver(A), env));
    PlayThen(n, Times(1, Say(A, ""), env) + Times(1, Say(B, ""), env) + Times(1, Deliver(A), env), Times(1, Deliver(B), env));
    Recounted(n3, Deliver(B), env);
  }

  lemma Recounted(n: Net, m: Move, env: Env)
    requires Quiescent(Next(n, m, env))
    ensures Next(n, m, env).a.count == Next(n, m, env).b.count == 0
  {
    hide MoveOfA;
  }

  lemma CrossingFacts(n: Net, env: Env)
    requires Ready(n) && n.ab == n.ba == []
    ensures var m := Play(n, Crossing(env)); var x, y := n.a.s.rekey, n.b.s.rekey;
            && InSync(m) && |m.ab| == 64 && |m.ba| == 66 && PlainIn(m.ab, 1, 64) && PlainIn(m.ba, 1, 65)
            && m.ab[0].Data? && m.ab[0].hdr.Rekey? && m.ba[0].Data? && m.ba[0].hdr == Rekey(Ct(x.kem, env.coin), Pub(y.eph))
            && m.ba[65].Data? && m.ba[65].hdr == KemPub(y.kem, Pub(y.eph))
            && m.a.s.rekey == x.(rekeyDue := false, peerHave := false) && m.a.s.send.sinceFold == 63
            && m.b.s.rekey == y.(rekeyDue := false, peerHave := false, awaitingPeer := true)
  {
    hide Play, Next, InSync, Times;
    var n1 := Next(n, Say(A, ""), env); One(n, Say(A, ""), env); Speaks(n, n1, A, env);
    var n2 := Play(n1, Times(63, Say(A, ""), env)); SpeakPlain(n1, 63, env);
    assert n2.ab[0] == n2.ab[..1][0];
    var n3 := Next(n2, Say(B, ""), env); One(n2, Say(B, ""), env); SpeaksB(n2, n3, env);
    var n4 := Play(n3, Times(REKEY_EVERY, Say(B, ""), env)); SpeakPlainB(n3, REKEY_EVERY, env);
    assert n4.ba[0] == n4.ba[..1][0];
    var n5 := Next(n4, Say(B, ""), env); One(n4, Say(B, ""), env); SpeaksB(n4, n5, env);
    assert forall i | 0 <= i < 65 :: n5.ba[i] == n5.ba[..65][i];
    var s1, s2, s3 := Times(1, Say(A, ""), env), Times(63, Say(A, ""), env), Times(1, Say(B, ""), env);
    Two(n, s1, s2, s3);
    Two(n, s1 + s2 + s3, Times(REKEY_EVERY, Say(B, ""), env), s3);
  }

  lemma {:induction false} NoRekeys(frames: seq<Frame>)
    requires forall i | 0 <= i < |frames| :: !(frames[i].Data? && frames[i].hdr.Rekey?)
    ensures Rekeys(frames) == 0
    decreases |frames|
  {
    if frames != [] { NoRekeys(frames[1..]); }
  }

  lemma ArmingFacts(n: Net, x: Rekeying, env: Env)
    requires var y := n.b.s.rekey;
             && InSync(n) && |n.ab| == 64 && |n.ba| == 66 && PlainIn(n.ab, 1, 64) && PlainIn(n.ba, 1, 65)
             && n.ab[0].Data? && n.ab[0].hdr.Rekey? && n.ba[0].Data? && n.ba[0].hdr == Rekey(Ct(x.kem, env.coin), Pub(y.eph))
             && n.ba[65].Data? && n.ba[65].hdr == KemPub(y.kem, Pub(y.eph))
             && n.a.s.rekey == x && n.a.s.send.sinceFold == 63
             && x.haveKem && !x.rekeyDue && !x.peerHave && !x.awaitingPeer
    ensures var m := Play(n, Arming(env));
            && InSync(m) && m.ba == [] && |m.ab| == 66 && PlainIn(m.ab, 1, 64) && m.b.s == n.b.s
            && m.ab[0].Data? && m.ab[0].hdr.Rekey? && m.ab[64].Data? && m.ab[64].hdr.KemPub?
            && m.ab[65].Data? && m.ab[65].hdr.Rekey? && m.ab[65].hdr.ct == Ct(n.b.s.rekey.kem, env.coin)
  {
    hide Play, Next, InSync, Times;
    assert Rekeys(n.ba[1..]) == 0 by { NoRekeys(n.ba[1..]); }
    var n1 := Next(n, Deliver(A), env); One(n, Deliver(A), env); Hears(n, n1, A, env);
    var n2 := Play(n1, Times(REKEY_EVERY, Deliver(A), env)); HearPlain(n1, REKEY_EVERY, env);
    assert n2.ba == [n.ba[65]];
    var n3 := Next(n2, Deliver(A), env); One(n2, Deliver(A), env); Hears(n2, n3, A, env);
    var n4 := Next(n3, Say(A, ""), env); One(n3, Say(A, ""), env); Speaks(n3, n4, A, env);
    var n5 := Next(n4, Say(A, ""), env); One(n4, Say(A, ""), env); Speaks(n4, n5, A, env);
    assert forall i | 0 <= i < 64 :: n5.ab[i] == n5.ab[..65][i] == n4.ab[..64][i];
    assert n5.ab[64] == n5.ab[..65][64];
    var s1, s2 := Times(1, Deliver(A), env), Times(REKEY_EVERY, Deliver(A), env);
    Two(n, s1, s2, s1);
    Two(n, s1 + s2 + s1, Times(1, Say(A, ""), env), Times(1, Say(A, ""), env));
  }

  // b hears k plain frames, while it is behind.
  lemma {:induction false} HearPlainBehind(n: Net, k: nat, eph: nat, kem: nat, env: Env)
    requires Behind(n, eph, kem) && PlainIn(n.ab, 0, k)
    ensures var m := Play(n, Times(k, Deliver(B), env));
            Behind(m, eph, kem) && m.ab == n.ab[k..] && m.ba == n.ba && m.a.s == n.a.s && m.b.s.rekey.kem == n.b.s.rekey.kem
  {
    hide Next, Behind;
    if k > 0 {
      HearPlainBehind(n, k - 1, eph, kem, env);
      var t := Play(n, Times(k - 1, Deliver(B), env));
      TimesMore(n, k, Deliver(B), env);
      assert t.ab[0] == n.ab[k - 1];
      HearBehind(t, Next(t, Deliver(B), env), eph, kem, env);
      assert t.ab[1..] == n.ab[k..];
    }
  }

  lemma HearingFacts(n: Net, env: Env, draw: Env)
    requires InSync(n) && n.ba == [] && |n.ab| == 66 && PlainIn(n.ab, 1, 64)
    requires n.ab[0].Data? && n.ab[0].hdr.Rekey? && n.ab[64].Data? && n.ab[64].hdr.KemPub?
    requires n.ab[65].Data? && n.ab[65].hdr.Rekey? && n.ab[65].hdr.ct == Ct(n.b.s.rekey.kem, env.coin)
    requires draw.kem != n.b.s.rekey.kem
    ensures var m := Play(n, Hearing(env, draw)); m.ab == m.ba == [] && m.a.s.send.root != m.b.s.recv.root
  {
    hide Play, Next, InSync, Times, Replayed;
    var k := n.b.s.rekey;
    var n1 := Next(n, Deliver(B), draw); One(n, Deliver(B), draw); HearsB(n, n1, draw);
    var n2 := Play(n1, Times(63, Deliver(B), env)); HearPlainBehind(n1, 63, k.eph, k.kem, env);
    assert n2.ab == [n.ab[64], n.ab[65]];
    var n3 := Next(n2, Deliver(B), env); One(n2, Deliver(B), env); HearBehind(n2, n3, k.eph, k.kem, env);
    var n4 := Next(n3, Deliver(B), env); One(n3, Deliver(B), env); HearLast(n3, n4, k.eph, k.kem, env);
    Two(n, Times(1, Deliver(B), draw), Times(63, Deliver(B), env), Times(1, Deliver(B), env));
    PlayThen(n, Times(1, Deliver(B), draw) + Times(63, Deliver(B), env) + Times(1, Deliver(B), env), Times(1, Deliver(B), env));
  }

  // ----- the theorem --------------------------------------------------------------------------

  function FirstBurst(env: Env): Moves { Warm(env) + Publishing(env) }

  function SecondBurst(env: Env, draw: Env): Moves { Crossing(env) + Arming(env) + Hearing(env, draw) }

  ghost predicate AllSimply(s: Moves) { forall i | 0 <= i < |s| :: Simply(s[i].0) }

  lemma SaysBlocks(s: Moves, t: Moves, u: Moves, side: Side)
    ensures Says(s + t + u, side) == Says(s, side) + Says(t, side) + Says(u, side)
  {
    hide Says;
    SaysThen(s + t, u, side);
    SaysThen(s, t, side);
  }

  lemma FirstSays(env: Env, side: Side)
    ensures Says(FirstBurst(env), side) == BURST
  {
    hide Says, Times;
    SaysTimes(REKEY_EVERY, Say(A, ""), env, side);
    SaysTimes(REKEY_EVERY, Say(B, ""), env, side);
    SaysTimes(REKEY_EVERY, Deliver(A), env, side);
    SaysTimes(REKEY_EVERY, Deliver(B), env, side);
    SaysTimes(1, Say(A, ""), env, side);
    SaysTimes(1, Say(B, ""), env, side);
    SaysTimes(1, Deliver(A), env, side);
    SaysTimes(1, Deliver(B), env, side);
    var s1, s2 := Times(REKEY_EVERY, Say(A, ""), env), Times(REKEY_EVERY, Deliver(B), env);
    var s3, s4 := Times(REKEY_EVERY, Say(B, ""), env), Times(REKEY_EVERY, Deliver(A), env);
    SaysBlocks(s1, s2, s3, side);
    SaysThen(s1 + s2 + s3, s4, side);
    var t1, t2, t3 := Times(1, Say(A, ""), env), Times(1, Say(B, ""), env), Times(1, Deliver(A), env);
    SaysBlocks(t1, t2, t3, side);
    SaysThen(t1 + t2 + t3, Times(1, Deliver(B), env), side);
    SaysThen(Warm(env), Publishing(env), side);
  }

  lemma SecondSays(env: Env, draw: Env, side: Side)
    ensures Says(SecondBurst(env, draw), side) == BURST + 1
  {
    hide Says, Times;
    SaysTimes(1, Say(A, ""), env, side);
    SaysTimes(63, Say(A, ""), env, side);
    SaysTimes(1, Say(B, ""), env, side);
    SaysTimes(REKEY_EVERY, Say(B, ""), env, side);
    SaysTimes(1, Deliver(A), env, side);
    SaysTimes(REKEY_EVERY, Deliver(A), env, side);
    SaysTimes(1, Deliver(B), draw, side);
    SaysTimes(63, Deliver(B), env, side);
    SaysTimes(1, Deliver(B), env, side);
    var a, b, hearA, hearB := Times(1, Say(A, ""), env), Times(1, Say(B, ""), env), Times(1, Deliver(A), env), Times(1, Deliver(B), env);
    var a63, b64, hear64, hear63 := Times(63, Say(A, ""), env), Times(REKEY_EVERY, Say(B, ""), env), Times(REKEY_EVERY, Deliver(A), env), Times(63, Deliver(B), env);
    SaysBlocks(a, a63, b, side);
    SaysBlocks(a + a63 + b, b64, b, side);
    SaysBlocks(hearA, hear64, hearA, side);
    SaysBlocks(hearA + hear64 + hearA, a, a, side);
    SaysBlocks(Times(1, Deliver(B), draw), hear63, hearB, side);
    SaysThen(Times(1, Deliver(B), draw) + hear63 + hearB, hearB, side);
    SaysBlocks(Crossing(env), Arming(env), Hearing(env, draw), side);
  }

  lemma BurstsSimply(env: Env, draw: Env)
    ensures AllSimply(FirstBurst(env)) && AllSimply(SecondBurst(env, draw))
  {
    assert AllSimply(Warm(env)) && AllSimply(Publishing(env));
    assert AllSimply(Crossing(env)) && AllSimply(Arming(env)) && AllSimply(Hearing(env, draw));
    hide Warm, Publishing, Crossing, Arming, Hearing;
  }

  // Two fresh sessions, texts and deliveries only, and at most 66 frames a side between
  // quiescent states: with nothing left in flight the two ends of a direction disagree,
  // as long as b's second pair differs from its first.
  lemma LongBurstDiverges(root: Term, a: Env, b: Env, env: Env, draw: Env)
    requires draw.kem != b.kem
    ensures var n, moves := Fresh(root, a, b), FirstBurst(env) + SecondBurst(env, draw);
            && Quiet(n) && AllSimply(moves) && AllUpTo(n, moves, BURST + 1)
            && var m := Play(n, moves); m.ab == m.ba == [] && m.a.s.send.root != m.b.s.recv.root
  {
    hide Play, Next, InSync, Says, Warm, Publishing, Crossing, Arming, Hearing;
    var n, first, second := Fresh(root, a, b), FirstBurst(env), SecondBurst(env, draw);
    FreshSync(root, a, b);
    FreshFacts(root, a, b);
    BurstsSimply(env, draw);
    FirstSays(env, A);
    FirstSays(env, B);
    Bursts(n, first, BURST + 1);
    PlayThen(n, Warm(env), Publishing(env));
    WarmFacts(n, env);
    PublishingFacts(Play(n, Warm(env)), env);
    var n1 := Play(n, first);
    SecondSays(env, draw, A);
    SecondSays(env, draw, B);
    Bursts(n1, second, BURST + 1);
    AllThen(n, first, second, BURST + 1);
    Two(n1, Crossing(env), Arming(env), Hearing(env, draw));
    CrossingFacts(n1, env);
    var n2 := Play(n1, Crossing(env));
    ArmingFacts(n2, n2.a.s.rekey, env);
    HearingFacts(Play(n2, Arming(env)), env, draw);
    PlayThen(n, first, second);
  }

  lemma FreshSync(root: Term, a: Env, b: Env)
    ensures var n := Fresh(root, a, b);
            && Quiet(n) && InSync(n) && Idle(n.a.s) && Idle(n.b.s)
            && n.a.s.send.sinceFold == n.b.s.send.sinceFold == 0 && n.ab == n.ba == [] && n.a.count == n.b.count == 0
            && !n.a.forced && !n.b.forced
  {
    FreshFacts(root, a, b);
    EstablishedQuiet(root, false, a, b);
  }
}
