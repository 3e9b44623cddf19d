/**
 No key twice (src/session.c:59-75, 295-302, 695-836): whatever frames reach two sessions
 that share a handshake root, and whatever either of them is asked to send, re-send or
 publish, no two DATA frames that they build are sealed under the same key. What that takes
 is that the two sides do not draw the same coin for an encapsulation.
 */
module KeyUse {
  import opened Options
  import opened Symbolic
  import opened Ratchets
  import opened SentRings
  import opened Sessions
  import opened Receiving
  import opened Carriers
  import RekeySystem

  // ----- chains ---------------------------------------------------------------------------

  // The key that a chain was started with, and how many messages ago.
  function Strand(c: Term): (t: Term)
    ensures !t.NextChain?
  {
    if c.NextChain? then Strand(c.chain) else c
  }

  function Steps(c: Term): nat { if c.NextChain? then Steps(c.chain) + 1 else 0 }

  // How many folds led to a root, and to a chain.
  function Depth(root: Term): nat { if root.NewRoot? then Depth(root.root) + 1 else 0 }

  function Age(c: Term): nat {
    match Strand(c)
    case Derived(root, _) => Depth(root)
    case NewChain(root, _, _) => Depth(root) + 1
    case _ => 0
  }

  predicate Behind(c: Term, d: Term) { Age(c) < Age(d) || (Age(c) == Age(d) && Steps(c) < Steps(d)) }

  // A chain of the direction `tag`: its first, or one folded with a coin of its sender.
  predicate Owned(c: Term, root: Term, tag: Label, coins: set<nat>) {
    var s := Strand(c);
    s == Derived(root, tag) || (s.NewChain? && s.kem.KemSecret? && s.kem.coin in coins)
  }

  lemma OwnersDiffer(c: Term, d: Term, root: Term, tag: Label, other: Label, coins: set<nat>, others: set<nat>)
    requires Owned(c, root, tag, coins) && Owned(d, root, other, others) && tag != other && coins !! others
    ensures c != d
  {
  }

  lemma {:induction false} ChainParts(c: Term, k: nat)
    ensures Strand(ChainAt(c, k)) == Strand(c) && Steps(ChainAt(c, k)) == Steps(c) + k
  {
    if k > 0 { ChainParts(c, k - 1); }
  }

  // ----- two fresh sessions ---------------------------------------------------------------------

  // Of two sessions just established over one root, each receives what the other sends, and
  // the two directions share no key.
  lemma TwoDirections(root: Term, lossy: bool, eph: nat, kem: nat, lossy': bool, eph': nat, kem': nat, n: nat, m: nat)
    requires n >= 1 && m >= 1
    ensures var a, b := Established(root, true, lossy, eph, kem), Established(root, false, lossy', eph', kem');
            && a.send == b.recv && b.send == a.recv
            && KeyAt(a.send, n) != KeyAt(b.send, m)
  {
    ChainParts(Derived(root, Initiator), n - 1);
    ChainParts(Derived(root, Responder), m - 1);
  }

  // ----- what a session seals ----------------------------------------------------------------------

  // The DATA frame that a call builds, if it builds one. A parked carrier is offered again,
  // not built again.
  function BuiltBy(s: State, c: Call, env: Env): seq<Frame> {
    if c.CarrierCall? && s.rekey.carrier.Some? then [] else
      var r := EmittedBy(s, c, env);
      if r.Emitted? && r.frame.Data? then [r.frame] else []
  }

  function AllBuilt(s: State, script: Script): seq<Frame> {
    if script == [] then [] else
      var before, last := script[..|script| - 1], script[|script| - 1];
      AllBuilt(s, before) + BuiltBy(Run(s, before), last.0, last.1)
  }

  // Every frame is sealed, under a key of this direction that the ratchet has left behind,
  // and no two under the same.
  ghost predicate Spent(r: Ratchet, frames: seq<Frame>, root: Term, tag: Label, coins: set<nat>) {
    && Age(r.chain) == Depth(r.root) && Owned(r.chain, root, tag, coins)
    && (forall i | 0 <= i < |frames| :: UsedUp(r, frames[i], root, tag, coins))
    && (forall i, j | 0 <= i < j < |frames| :: Behind(KeyChain(frames[i]), KeyChain(frames[j])))
  }

  // The chain whose message key seals the frame.
  function KeyChain(f: Frame): Term {
    if f.Data? && f.box.Sealed? && f.box.key.MsgKey? then f.box.key.chain else Seed(0)
  }

  predicate UsedUp(r: Ratchet, f: Frame, root: Term, tag: Label, coins: set<nat>) {
    && f.Data? && f.box.Sealed? && f.box.key.MsgKey?
    && Behind(f.box.key.chain, r.chain) && Owned(f.box.key.chain, root, tag, coins)
  }

  // What an emission does to the ratchet: nothing, a step, or a step and a fold with the
  // coin drawn.
  ghost predicate Moves(r: Ratchet, t: Ratchet, coin: nat) {
    || t == r
    || (t.root == r.root && t.chain == NextChain(r.chain))
    || (exists dh, pk :: t.root == NewRoot(r.root, dh, KemSecret(pk, coin)) && t.chain == NewChain(r.root, dh, KemSecret(pk, coin)))
  }

  lemma EmitMoves(s: State, text: Text, fromOldest: bool, carrierOnly: bool, env: Env)
    ensures var (t, r) := EmitFrame(s, text, fromOldest, carrierOnly, env);
            && Moves(s.send, t.send, env.coin)
            && (r.Emitted? ==> t.send != s.send && r.frame.Data? && r.frame.box.Sealed? && r.frame.box.key == MsgKey(s.send.chain))
            && t.active == s.active
  {
    hide AddSent, Buffered;
  }

  lemma MovesAhead(r: Ratchet, t: Ratchet, coin: nat, root: Term, tag: Label, coins: set<nat>)
    requires Age(r.chain) == Depth(r.root) && Owned(r.chain, root, tag, coins) && Moves(r, t, coin) && coin in coins
    ensures Age(t.chain) == Depth(t.root) && Owned(t.chain, root, tag, coins)
    ensures t == r || Behind(r.chain, t.chain)
  {
  }

  // The ratchet moves on, with the frame that it has sealed before.
  lemma MoveSpends(r: Ratchet, t: Ratchet, coin: nat, built: seq<Frame>, frames: seq<Frame>, root: Term, tag: Label, coins: set<nat>)
    requires Spent(r, frames, root, tag, coins) && Moves(r, t, coin) && coin in coins
    requires built == [] || (t != r && |built| == 1 && built[0].Data? && built[0].box.Sealed? && built[0].box.key == MsgKey(r.chain))
    ensures Spent(t, frames + built, root, tag, coins)
  {
    hide Moves, Owned, Age, Steps, Depth;
    MovesAhead(r, t, coin, root, tag, coins);
    var all := frames + built;
    forall i | 0 <= i < |all| ensures UsedUp(t, all[i], root, tag, coins) {
      assert i < |frames| ==> UsedUp(r, frames[i], root, tag, coins);
    }
    forall i, j | 0 <= i < j < |all| ensures Behind(KeyChain(all[i]), KeyChain(all[j])) {
      assert UsedUp(r, frames[i], root, tag, coins);
    }
  }

  lemma EmitSpends(s: State, text: Text, fromOldest: bool, carrierOnly: bool, env: Env, frames: seq<Frame>, root: Term, tag: Label, coins: set<nat>)
    requires Spent(s.send, frames, root, tag, coins) && env.coin in coins
    ensures var (t, r) := EmitFrame(s, text, fromOldest, carrierOnly, env);
            && Spent(t.send, frames + (if r.Emitted? then [r.frame] else []), root, tag, coins)
            && (r.Emitted? ==> r.frame.Data?)
  {
    hide EmitFrame, Spent, Moves;
    EmitMoves(s, text, fromOldest, carrierOnly, env);
    var (t, r) := EmitFrame(s, text, fromOldest, carrierOnly, env);
    MoveSpends(s.send, t.send, env.coin, if r.Emitted? then [r.frame] else [], frames, root, tag, coins);
  }

  lemma {:induction false} ResendSpends(s: State, i: nat, env: Env, frames: seq<Frame>, root: Term, tag: Label, coins: set<nat>)
    requires Spent(s.send, frames, root, tag, coins) && env.coin in coins
    ensures var (t, r) := Resend(s, i, env);
            && Spent(t.send, frames + (if r.Emitted? then [r.frame] else []), root, tag, coins)
            && (r.Emitted? ==> r.frame.Data?)
    decreases |s.sent| - i
  {
    hide EmitFrame, Spent, RemoveSent;
    assert frames + [] == frames;
    if i < |s.sent| {
      if Asked(s, s.sent[i]) {
        EmitSpends(s, s.sent[i].text, i == 0, false, env, frames, root, tag, coins);
        var (t, r) := EmitFrame(s, s.sent[i].text, i == 0, false, env);
        if !r.Emitted? { ResendSpends(t, i + 1, env, frames, root, tag, coins); }
      } else {
        ResendSpends(s, i + 1, env, frames, root, tag, coins);
      }
    }
  }

  // Whatever a frame says, receiving it leaves the own direction alone.
  lemma FeedKeepsSend(s: State, f: Frame, env: Env)
    ensures Feed(s, f, env).0.send == s.send
  {
    hide FindSkipped, AddSkipped, RemoveAt, Commit, KeyAt, Open, AckSent;
  }

  lemma CallSpends(s: State, c: Call, env: Env, frames: seq<Frame>, root: Term, tag: Label, coins: set<nat>)
    requires Spent(s.send, frames, root, tag, coins) && env.coin in coins
    ensures Spent(Step(s, c, env).send, frames + BuiltBy(s, c, env), root, tag, coins)
  {
    hide EmitFrame, Spent, Resend, Feed;
    assert frames + [] == frames;
    match c
    case FeedCall(f) => FeedKeepsSend(s, f, env);
    case SendCall(text) => EmitSpends(s, text, false, false, env, frames, root, tag, coins);
    case DatagramCall(text) => EmitSpends(s, text, false, false, env, frames, root, tag, coins);
    case CarrierCall => EmitSpends(s, "", false, true, env, frames, root, tag, coins);
    case FlushCall => if s.pending != [] { EmitSpends(s, s.pending[0], false, false, env, frames, root, tag, coins); }
    case PollCall => ResendSpends(s, 0, env, frames, root, tag, coins);
    case _ =>
  }

  lemma {:induction false} RunSpends(s: State, script: Script, root: Term, tag: Label, coins: set<nat>)
    requires Spent(s.send, [], root, tag, coins)
    requires forall i | 0 <= i < |script| :: script[i].1.coin in coins
    ensures Spent(Run(s, script).send, AllBuilt(s, script), root, tag, coins)
  {
    hide Spent, Step, BuiltBy;
    if script != [] {
      var before, last := script[..|script| - 1], script[|script| - 1];
      RunSpends(s, before, root, tag, coins);
      CallSpends(Run(s, before), last.0, last.1, AllBuilt(s, before), root, tag, coins);
    }
  }

  function Coins(script: Script): set<nat> { set i | 0 <= i < |script| :: script[i].1.coin }

  lemma EstablishedSpends(root: Term, initiator: bool, lossy: bool, eph: nat, kem: nat, script: Script)
    ensures var s := Established(root, initiator, lossy, eph, kem);
            Spent(Run(s, script).send, AllBuilt(s, script), root, if initiator then Initiator else Responder, Coins(script))
  {
    var s := Established(root, initiator, lossy, eph, kem);
    RunSpends(s, script, root, if initiator then Initiator else Responder, Coins(script));
  }

  // ----- the theorem ----------------------------------------------------------------------------

  predicate Apart(f: Frame, g: Frame) {
    f.Data? && g.Data? && f.box.Sealed? && g.box.Sealed? && f.box.key != g.box.key
  }

  ghost predicate NoneShared(a: seq<Frame>, b: seq<Frame>) {
    && (forall i, j | 0 <= i < j < |a| :: Apart(a[i], a[j]))
    && (forall i, j | 0 <= i < j < |b| :: Apart(b[i], b[j]))
    && (forall i, j | 0 <= i < |a| && 0 <= j < |b| :: Apart(a[i], b[j]))
  }

  // No two DATA frames that the two sides ever build are sealed under the same key: neither
  // two of one side nor two of different sides.
  lemma NoKeyTwice(root: Term, lossy: bool, eph: nat, kem: nat, mine: Script, lossy': bool, eph': nat, kem': nat, theirs: Script)
    requires Coins(mine) !! Coins(theirs)
    ensures var a, b := AllBuilt(Established(root, true, lossy, eph, kem), mine), AllBuilt(Established(root, false, lossy', eph', kem'), theirs);
            NoneShared(a, b)
  {
    hide Run, AllBuilt, Established, Owned, Coins;
    var s, t := Established(root, true, lossy, eph, kem), Established(root, false, lossy', eph', kem');
    EstablishedSpends(root, true, lossy, eph, kem, mine);
    EstablishedSpends(root, false, lossy', eph', kem', theirs);
    var a, b := AllBuilt(s, mine), AllBuilt(t, theirs);
    SpentDistinct(Run(s, mine).send, a, root, Initiator, Coins(mine));
    SpentDistinct(Run(t, theirs).send, b, root, Responder, Coins(theirs));
    forall i, j | 0 <= i < |a| && 0 <= j < |b| ensures Apart(a[i], b[j]) {
      assert UsedUp(Run(s, mine).send, a[i], root, Initiator, Coins(mine));
      assert UsedUp(Run(t, theirs).send, b[j], root, Responder, Coins(theirs));
      OwnersDiffer(a[i].box.key.chain, b[j].box.key.chain, root, Initiator, Responder, Coins(mine), Coins(theirs));
    }
  }

  lemma SpentDistinct(r: Ratchet, frames: seq<Frame>, root: Term, tag: Label, coins: set<nat>)
    requires Spent(r, frames, root, tag, coins)
    ensures forall i, j | 0 <= i < j < |frames| :: Apart(frames[i], frames[j])
  {
    forall i, j | 0 <= i < j < |frames| ensures Apart(frames[i], frames[j]) {
      assert UsedUp(r, frames[i], root, tag, coins) && UsedUp(r, frames[j], root, tag, coins);
      assert Behind(KeyChain(frames[i]), KeyChain(frames[j]));
    }
  }

  // ----- in the two-party system --------------------------------------------------------------

  // The call that a move makes on its own side's session, if it makes one. (`n` is the system
  // seen from that side.)
  function CallOf(n: RekeySystem.Net, m: RekeySystem.Move): Option<Call> {
    var s := n.a.s;
    match m
    case Say(_, text) => Some(if s.lossy then DatagramCall(text) else SendCall(text))
    case Refused(_, text) => Some(DatagramCall(text))
    case BuildCarrier(_) => if !s.lossy || s.rekey.carrier.Some? then None else Some(CarrierCall)
    case CarrierAccepted(_) => Some(CarrierDoneCall)
    case Poll(_) => if s.lossy then None else Some(PollCall)
    case Deliver(_) => if n.ba == [] then None else Some(FeedCall(n.ba[0]))
    case Force(_) => Some(ForceCall)
  }

  function SeenFrom(n: RekeySystem.Net, side: RekeySystem.Side): RekeySystem.Net {
    if side == RekeySystem.A then n else RekeySystem.Flip(n)
  }

  // What a run of the system is to one side's session.
  function ScriptOf(n: RekeySystem.Net, moves: seq<(RekeySystem.Move, Env)>, side: RekeySystem.Side): Script {
    if moves == [] then [] else
      var before, last := moves[..|moves| - 1], moves[|moves| - 1];
      ScriptOf(n, before, side)
      + if last.0.side != side then [] else
          match CallOf(SeenFrom(RekeySystem.Play(n, before), side), last.0)
          case None => []
          case Some(c) => [(c, last.1)]
  }

  lemma OneCall(s: State, script: Script, c: Call, env: Env)
    ensures Run(s, script + [(c, env)]) == Step(Run(s, script), c, env)
  {
    assert (script + [(c, env)])[..|script|] == script;
  }

  lemma MoveIsCall(n: RekeySystem.Net, m: RekeySystem.Move, env: Env)
    ensures RekeySystem.MoveOfA(n, m, env).a.s == match CallOf(n, m) { case None => n.a.s case Some(c) => Step(n.a.s, c, env) }
    ensures RekeySystem.MoveOfA(n, m, env).b.s == n.b.s
  {
    hide Feed, EmitFrame, RelPoll;
  }

  lemma {:induction false} SideRuns(n: RekeySystem.Net, moves: seq<(RekeySystem.Move, Env)>, side: RekeySystem.Side)
    ensures SeenFrom(RekeySystem.Play(n, moves), side).a.s == Run(SeenFrom(n, side).a.s, ScriptOf(n, moves, side))
  {
    hide RekeySystem.MoveOfA, Step, CallOf;
    if moves != [] {
      var before, last := moves[..|moves| - 1], moves[|moves| - 1];
      var now := RekeySystem.Play(n, before);
      SideRuns(n, before, side);
      MoveIsCall(SeenFrom(now, last.0.side), last.0, last.1);
      if last.0.side == side && CallOf(SeenFrom(now, side), last.0).Some? {
        OneCall(SeenFrom(n, side).a.s, ScriptOf(n, before, side), CallOf(SeenFrom(now, side), last.0).value, last.1);
      } else {
        assert ScriptOf(n, moves, side) == ScriptOf(n, before, side);
      }
    }
  }

  // The coins that the moves of one side draw.
  function Drawn(moves: seq<(RekeySystem.Move, Env)>, side: RekeySystem.Side): set<nat> {
    set i | 0 <= i < |moves| && moves[i].0.side == side :: moves[i].1.coin
  }

  lemma {:induction false} ScriptDraws(n: RekeySystem.Net, moves: seq<(RekeySystem.Move, Env)>, side: RekeySystem.Side)
    ensures Coins(ScriptOf(n, moves, side)) <= Drawn(moves, side)
  {
    if moves != [] {
      var before, last := moves[..|moves| - 1], moves[|moves| - 1];
      ScriptDraws(n, before, side);
      var script, earlier := ScriptOf(n, moves, side), ScriptOf(n, before, side);
      forall i | 0 <= i < |script| ensures script[i].1.coin in Drawn(moves, side) {
        if i < |earlier| {
          assert earlier[i].1.coin in Coins(earlier);
          assert earlier[i].1.coin in Drawn(before, side);
          var j :| 0 <= j < |before| && before[j].0.side == side && before[j].1.coin == earlier[i].1.coin;
          assert moves[j] == before[j];
        }
      }
    }
  }

  // What a side has built in a run of the system, refused payloads and re-sends included.
  function BuiltIn(n: RekeySystem.Net, moves: seq<(RekeySystem.Move, Env)>, side: RekeySystem.Side): seq<Frame> {
    AllBuilt(SeenFrom(n, side).a.s, ScriptOf(n, moves, side))
  }

  // Over every run of two sessions just established, allowed or not.
  lemma SystemUsesNoKeyTwice(n: RekeySystem.Net, root: Term, lossy: bool, a: Env, b: Env, moves: seq<(RekeySystem.Move, Env)>)
    requires n.a.s == Established(root, true, lossy, a.eph, a.kem) && n.b.s == Established(root, false, lossy, b.eph, b.kem)
    requires Drawn(moves, RekeySystem.A) !! Drawn(moves, RekeySystem.B)
    ensures var f, g := BuiltIn(n, moves, RekeySystem.A), BuiltIn(n, moves, RekeySystem.B);
            NoneShared(f, g)
  {
    hide ScriptOf, AllBuilt, Coins, Drawn, NoneShared, Established;
    var f, g := ScriptOf(n, moves, RekeySystem.A), ScriptOf(n, moves, RekeySystem.B);
    assert BuiltIn(n, moves, RekeySystem.A) == AllBuilt(Established(root, true, lossy, a.eph, a.kem), f);
    assert BuiltIn(n, moves, RekeySystem.B) == AllBuilt(Established(root, false, lossy, b.eph, b.kem), g);
    ScriptDraws(n, moves, RekeySystem.A);
    ScriptDraws(n, moves, RekeySystem.B);
    NoKeyTwice(root, lossy, a.eph, a.kem, f, lossy, b.eph, b.kem, g);
  }
}
