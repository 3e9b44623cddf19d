/**
 The receive side over whole runs (src/session.c:76-142, 544-677): which numbers are
 delivered, which keys are stored, and what a rejected frame leaves behind. Frames are
 arbitrary unless a lemma says otherwise: forged, corrupted, replayed or folding.
 */
module Receiving {
  import opened Options
  import opened Limits
  import opened Symbolic
  import opened Ratchets
  import opened SentRings
  import opened Sessions

  // ----- runs of one session ----------------------------------------------------------------

  datatype Call =
    | FeedCall(f: Frame) | SendCall(text: Text) | DatagramCall(text: Text) | CarrierCall | CarrierDoneCall
    | ForceCall | FlushCall | PollCall

  function Step(s: State, c: Call, env: Env): State {
    match c
    case FeedCall(f) => Feed(s, f, env).0
    case SendCall(text) => SendText(s, text, env).0
    case DatagramCall(text) => SendLossy(s, text, env).0
    case CarrierCall => Carrier(s, env).0
    case CarrierDoneCall => CarrierDone(s)
    case ForceCall => ForceRekey(s)
    case FlushCall => Flush(s, env).0
    case PollCall => RelPoll(s, env).0
  }

  // The number of the DATA frame that this call delivers, if it delivers one.
  function DeliveredBy(s: State, c: Call, env: Env): seq<nat> {
    if c.FeedCall? && c.f.Data? && Feed(s, c.f, env).1.Delivered? then [c.f.seqNo] else []
  }

  type Script = seq<(Call, Env)>

  function Run(s: State, script: Script): State {
    if script == [] then s else
      var last := script[|script| - 1];
      Step(Run(s, script[..|script| - 1]), last.0, last.1)
  }

  function Log(s: State, script: Script): seq<nat> {
    if script == [] then [] else
      var before, last := script[..|script| - 1], script[|script| - 1];
      Log(s, before) + DeliveredBy(Run(s, before), last.0, last.1)
  }

  // ----- at most once -------------------------------------------------------------------------

  ghost predicate Distinct(s: seq<nat>) {
    forall i, j | 0 <= i < j < |s| :: s[i] != s[j]
  }

  ghost predicate DistinctSkipped(s: seq<Skipped>) {
    forall i, j | 0 <= i < j < |s| :: s[i].seqNo != s[j].seqNo
  }

  // Nothing is delivered twice, and a stored key is for an undelivered number below the
  // next expected one.
  ghost predicate Hygiene(r: Ratchet, log: seq<nat>) {
    && |r.skipped| <= SKIPPED_MAX
    && DistinctSkipped(r.skipped)
    && (forall e | e in r.skipped :: e.seqNo < r.seqNo && e.seqNo !in log)
    && Distinct(log)
    && (forall n | n in log :: n < r.seqNo)
  }

  lemma SkipOneHygiene(r: Ratchet, log: seq<nat>)
    requires Hygiene(r, log)
    ensures Hygiene(SkipOne(r), log)
  {
    var t := SkipOne(r).skipped;
    forall e | e in t ensures e.seqNo < r.seqNo + 1 && e.seqNo !in log {
      assert e in r.skipped || e == Skipped(r.seqNo, MsgKey(r.chain));
    }
    forall i | 0 <= i < |t| - 1 ensures t[i] in r.skipped && t[i].seqNo != r.seqNo {
    }
  }

  lemma {:induction false} SkipToHygiene(r: Ratchet, n: nat, log: seq<nat>)
    requires Hygiene(r, log)
    ensures Hygiene(SkipTo(r, n), log)
    decreases n - r.seqNo
  {
    if r.seqNo < n {
      SkipOneHygiene(r, log);
      SkipToHygiene(SkipOne(r), n, log);
    }
  }

  lemma CommitHygiene(r: Ratchet, n: nat, log: seq<nat>)
    requires Hygiene(r, log) && r.seqNo <= n
    ensures Hygiene(Commit(r, n), log + [n])
  {
    SkipToHygiene(r, n, log);
    AppendHygiene(StepChain(SkipTo(r, n)), n, log);
  }

  lemma AppendHygiene(r: Ratchet, n: nat, log: seq<nat>)
    requires Hygiene(r, log) && n < r.seqNo && n !in log && forall e | e in r.skipped :: e.seqNo != n
    ensures Hygiene(r, log + [n])
  {
    forall m | m in log + [n] ensures m in log || m == n {}
  }

  lemma TakeHygiene(r: Ratchet, i: nat, log: seq<nat>)
    requires Hygiene(r, log) && i < |r.skipped|
    ensures Hygiene(r.(skipped := RemoveAt(r.skipped, i)), log + [r.skipped[i].seqNo])
  {
    RemoveAtMembers(r.skipped, i);
    var n, rest := r.skipped[i].seqNo, RemoveAt(r.skipped, i);
    forall e | e in rest ensures e.seqNo != n { 
      var k :| 0 <= k < |r.skipped| && k != i && r.skipped[k] == e;
    }
  }

  lemma RemoveAtMembers(s: seq<Skipped>, i: nat)
    requires i < |s|
    ensures forall e | e in RemoveAt(s, i) :: exists k :: 0 <= k < |s| && k != i && s[k] == e
    ensures forall k | 0 <= k < |s| && k != i :: s[k] in RemoveAt(s, i)
    ensures DistinctSkipped(s) ==> DistinctSkipped(RemoveAt(s, i))
  {
    var t := RemoveAt(s, i);
    forall k | 0 <= k < |t| ensures t[k] == if k < i then s[k] else s[k + 1] {}
    forall k | 0 <= k < |s| && k != i ensures s[k] in t {
      assert t[if k < i then k else k - 1] == s[k];
    }
  }

  // A failed hit moves its entry to the newest slot.
  lemma PutBackHygiene(r: Ratchet, i: nat, log: seq<nat>)
    requires Hygiene(r, log) && i < |r.skipped|
    ensures var t := AddSkipped(RemoveAt(r.skipped, i), r.skipped[i]);
            Hygiene(r.(skipped := t), log) && multiset(t) == multiset(r.skipped)
  {
    RemoveAtMembers(r.skipped, i);
    MovedToEnd(r.skipped, i);
  }

  lemma MovedToEnd(s: seq<Skipped>, i: nat)
    requires i < |s| <= SKIPPED_MAX
    ensures var t := AddSkipped(RemoveAt(s, i), s[i]); multiset(t) == multiset(s) && forall e | e in t :: e in s
  {
    var t := AddSkipped(RemoveAt(s, i), s[i]);
    assert s == s[..i] + [s[i]] + s[i + 1..];
    assert multiset(t) == multiset(s);
    forall e | e in t ensures e in s { assert e in multiset(t); }
  }

  lemma AcceptKeepsHygiene(s: State, hdr: Header, env: Env, log: seq<nat>)
    requires Hygiene(s.recv, log)
    ensures Hygiene(Accept(s, hdr, env).recv, log)
  {
  }

  lemma FeedHygiene(s: State, f: Frame, env: Env, log: seq<nat>)
    requires Hygiene(s.recv, log)
    ensures Hygiene(Feed(s, f, env).0.recv, log + DeliveredBy(s, FeedCall(f), env))
  {
    hide Hygiene, Accept, Commit, AddSkipped, RemoveAt, KeyAt, AckSent;
    assert log + [] == log;
    if s.active && f.Data? && !f.hdr.Malformed? {
      if s.recv.seqNo <= f.seqNo {
        CommitHygiene(s.recv, f.seqNo, log);
        AcceptKeepsHygiene(s.(recv := Commit(s.recv, f.seqNo)), f.hdr, env, log + [f.seqNo]);
      } else {
        var i := FindSkipped(s.recv.skipped, f.seqNo);
        if i < |s.recv.skipped| {
          TakeHygiene(s.recv, i, log);
          PutBackHygiene(s.recv, i, log);
          AcceptKeepsHygiene(s.(recv := s.recv.(skipped := RemoveAt(s.recv.skipped, i))), f.hdr, env, log + [f.seqNo]);
        }
      }
    }
  }

  // Emission never touches the receive ratchet.
  lemma EmitKeepsRecv(s: State, text: Text, fromOldest: bool, carrierOnly: bool, env: Env)
    ensures EmitFrame(s, text, fromOldest, carrierOnly, env).0.recv == s.recv
  {
  }

  lemma {:induction false} ResendKeepsRecv(s: State, r: nat, env: Env)
    ensures Resend(s, r, env).0.recv == s.recv
    decreases |s.sent| - r
  {
    hide EmitFrame;
    if r < |s.sent| {
      if Asked(s, s.sent[r]) {
        EmitKeepsRecv(s, s.sent[r].text, r == 0, false, env);
        var (t, result) := EmitFrame(s, s.sent[r].text, r == 0, false, env);
        if !result.Emitted? { ResendKeepsRecv(t, r + 1, env); }
      } else {
        ResendKeepsRecv(s, r + 1, env);
      }
    }
  }

  lemma OthersKeepRecv(s: State, c: Call, env: Env)
    requires !c.FeedCall?
    ensures Step(s, c, env).recv == s.recv
  {
    hide EmitFrame;
    match c
    case SendCall(text) => EmitKeepsRecv(s, text, false, false, env);
    case DatagramCall(text) => EmitKeepsRecv(s, text, false, false, env);
    case CarrierCall => EmitKeepsRecv(s, "", false, true, env);
    case FlushCall => if s.pending != [] { EmitKeepsRecv(s, s.pending[0], false, false, env); }
    case PollCall => ResendKeepsRecv(s, 0, env);
    case _ =>
  }

  // Whatever frames arrive and whatever else happens, nothing is delivered twice.
  lemma {:induction false} AtMostOnce(s: State, script: Script)
    requires Hygiene(s.recv, [])
    ensures Hygiene(Run(s, script).recv, Log(s, script))
  {
    hide Hygiene, Step, DeliveredBy;
    if script != [] {
      var before, last := script[..|script| - 1], script[|script| - 1];
      AtMostOnce(s, before);
      StepHygiene(Run(s, before), last.0, last.1, Log(s, before));
    }
  }

  lemma StepHygiene(s: State, c: Call, env: Env, log: seq<nat>)
    requires Hygiene(s.recv, log)
    ensures Hygiene(Step(s, c, env).recv, log + DeliveredBy(s, c, env))
  {
    hide Hygiene, Feed;
    if c.FeedCall? {
      FeedHygiene(s, c.f, env, log);
    } else {
      OthersKeepRecv(s, c, env);
      assert log + [] == log;
    }
  }

  // A control frame is taken exactly by an active session that is not lossy and has the root
  // whose control key sealed it, and it never moves a ratchet or a re-key flag.
  lemma ControlOpensIff(s: State, f: Frame, env: Env)
    requires f.Control?
    ensures var (t, r) := Feed(s, f, env);
            && (r.Delivered? <==> s.active && !s.lossy && f.key == Derived(s.root, ControlKey))
            && (r.Rejected? ==> t == s)
            && t.send == s.send && t.recv == s.recv && t.rekey == s.rekey && t.root == s.root
  {
    hide AckSent;
  }

  lemma EstablishedHygiene(root: Term, initiator: bool, lossy: bool, eph: nat, kem: nat)
    ensures Hygiene(Established(root, initiator, lossy, eph, kem).recv, [])
  {
  }

  // The key stored for number n.
  function Stored(r: Ratchet, n: nat): Option<Term> {
    var i := FindSkipped(r.skipped, n);
    if i < |r.skipped| then Some(r.skipped[i].key) else None
  }

  lemma StoredIff(r: Ratchet, n: nat, key: Term)
    requires DistinctSkipped(r.skipped)
    ensures Stored(r, n) == Some(key) <==> Skipped(n, key) in r.skipped
  {
    if Skipped(n, key) in r.skipped {
      var i :| 0 <= i < |r.skipped| && r.skipped[i] == Skipped(n, key);
      FindUnique(r.skipped, n, i);
    }
  }

  // A rejected frame consumes nothing: chain, root, next number and the map from
  // numbers to stored keys stay, and so does everything but the re-send request.
  lemma RejectedFeedKeeps(s: State, f: Frame, env: Env, log: seq<nat>)
    requires Hygiene(s.recv, log) && Feed(s, f, env).1.Rejected?
    ensures var t := Feed(s, f, env).0;
            && t.recv == s.recv.(skipped := t.recv.skipped)
            && multiset(t.recv.skipped) == multiset(s.recv.skipped)
            && (forall n :: Stored(t.recv, n) == Stored(s.recv, n))
            && t == s.(recv := t.recv, rel := s.rel.(reqPending := t.rel.reqPending, reqGen := t.rel.reqGen, reqFrom := t.rel.reqFrom))
  {
    hide Feed, Stored;
    var t := Feed(s, f, env).0;
    assert Hygiene(t.recv, log) by { FeedHygiene(s, f, env, log); assert log + [] == log; }
    RejectedFeedParts(s, f, env, log);
    forall n ensures Stored(t.recv, n) == Stored(s.recv, n) { SameStored(s.recv, t.recv, n); }
  }

  lemma RejectedFeedParts(s: State, f: Frame, env: Env, log: seq<nat>)
    requires Hygiene(s.recv, log) && Feed(s, f, env).1.Rejected?
    ensures var t := Feed(s, f, env).0;
            && t.recv == s.recv.(skipped := t.recv.skipped)
            && multiset(t.recv.skipped) == multiset(s.recv.skipped)
            && t == s.(recv := t.recv, rel := s.rel.(reqPending := t.rel.reqPending, reqGen := t.rel.reqGen, reqFrom := t.rel.reqFrom))
  {
    hide Accept, Commit, AddSkipped, RemoveAt, KeyAt, AckSent, Open;
    if s.active && f.Data? {
      var i := FindSkipped(s.recv.skipped, f.seqNo);
      if i < |s.recv.skipped| { MovedToEnd(s.recv.skipped, i); }
    }
  }

  lemma SameStored(r: Ratchet, t: Ratchet, n: nat)
    requires DistinctSkipped(r.skipped) && DistinctSkipped(t.skipped)
    requires multiset(t.skipped) == multiset(r.skipped)
    ensures Stored(t, n) == Stored(r, n)
  {
    forall e: Skipped ensures e in r.skipped <==> e in t.skipped {
      assert e in multiset(r.skipped) <==> e in multiset(t.skipped);
    }
    if Stored(r, n).Some? {
      StoredIff(r, n, Stored(r, n).value);
      StoredIff(t, n, Stored(r, n).value);
    } else if Stored(t, n).Some? {
      StoredIff(t, n, Stored(t, n).value);
      StoredIff(r, n, Stored(t, n).value);
    }
  }
}
