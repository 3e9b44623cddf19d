/**
 Completeness of delivery (src/session.c:550-601, 780-783): while at most 96 frames are
 missing at a time nothing is lost for good, and the sender's side of it: every payload
 emission uses up a number, whether or not the transport takes the frame.
 */
module Completeness {
  import opened Limits
  import opened Symbolic
  import opened Ratchets
  import opened SentRings
  import opened Sessions
  import opened Receiving
  import opened Delivery

  // ----- nothing is lost for good ---------------------------------------------------------

  // Every number below the next expected one was delivered or has its key stored.
  ghost predicate Complete(r: Ratchet, base: nat, log: seq<nat>) {
    forall n | base <= n < r.seqNo :: n in log || Stored(r, n).Some?
  }

  lemma StoredAfterSkip(r: Ratchet, log: seq<nat>, n: nat)
    requires Hygiene(r, log) && |r.skipped| < SKIPPED_MAX
    requires n == r.seqNo || Stored(r, n).Some?
    ensures Stored(SkipOne(r), n).Some?
  {
    SkipOneHygiene(r, log);
    var e := if n == r.seqNo then Skipped(n, MsgKey(r.chain)) else r.skipped[FindSkipped(r.skipped, n)];
    assert SkipOne(r).skipped == r.skipped + [Skipped(r.seqNo, MsgKey(r.chain))];
    assert e in SkipOne(r).skipped;
    StoredIff(SkipOne(r), n, e.key);
  }

  lemma {:induction false} SkipToComplete(r: Ratchet, base: nat, log: seq<nat>, n: nat)
    requires Hygiene(r, log) && Complete(r, base, log) && r.seqNo <= n
    requires |r.skipped| + (n - r.seqNo) <= SKIPPED_MAX
    ensures Complete(SkipTo(r, n), base, log)
    decreases n - r.seqNo
  {
    hide Stored, Hygiene;
    if r.seqNo < n {
      SkipOneHygiene(r, log);
      forall m | base <= m < r.seqNo + 1 ensures m in log || Stored(SkipOne(r), m).Some? {
        if m !in log { StoredAfterSkip(r, log, m); }
      }
      SkipToComplete(SkipOne(r), base, log, n);
    }
  }

  // The keys of the numbers from r's next one up to n.
  function KeysUpTo(r: Ratchet, n: nat): (keys: seq<Skipped>)
    requires r.seqNo <= n
    ensures |keys| == n - r.seqNo
  {
    seq(n - r.seqNo, k requires 0 <= k < n - r.seqNo => Skipped(r.seqNo + k, KeyAt(r, r.seqNo + k)))
  }

  function Newest(keys: seq<Skipped>): (s: seq<Skipped>)
    ensures |s| <= SKIPPED_MAX
  {
    if |keys| <= SKIPPED_MAX then keys else keys[|keys| - SKIPPED_MAX..]
  }

  lemma NewestThen(s: seq<Skipped>, e: Skipped, keys: seq<Skipped>)
    requires |s| <= SKIPPED_MAX
    ensures Newest(AddSkipped(s, e) + keys) == Newest(s + ([e] + keys))
  {
    if |s| == SKIPPED_MAX {
      assert s + ([e] + keys) == [s[0]] + (s[1..] + [e] + keys);
    } else {
      assert s + ([e] + keys) == s + [e] + keys;
    }
  }

  lemma SkippedKeyAt(r: Ratchet, m: nat)
    requires r.seqNo < m
    ensures KeyAt(SkipOne(r), m) == KeyAt(r, m)
  {
    var j := m - r.seqNo - 1;
    ChainNext(r.chain, j);
    assert ChainAt(r.chain, j + 1) == NextChain(ChainAt(r.chain, j));
  }

  lemma KeysNext(r: Ratchet, n: nat)
    requires r.seqNo < n
    ensures KeysUpTo(r, n) == [Skipped(r.seqNo, MsgKey(r.chain))] + KeysUpTo(SkipOne(r), n)
  {
    hide KeyAt;
    var keys := [Skipped(r.seqNo, MsgKey(r.chain))] + KeysUpTo(SkipOne(r), n);
    forall k | 0 <= k < n - r.seqNo ensures KeysUpTo(r, n)[k] == keys[k] {
      if k == 0 { FirstKey(r); } else { SkippedKeyAt(r, r.seqNo + k); }
    }
  }

  lemma FirstKey(r: Ratchet)
    ensures KeyAt(r, r.seqNo) == MsgKey(r.chain)
  {
  }

  // When a gap opens, the store holds the 96 newest of the keys it had and those of the gap.
  lemma {:induction false} SkipToKeepsNewest(r: Ratchet, n: nat)
    requires r.seqNo <= n && |r.skipped| <= SKIPPED_MAX
    ensures SkipTo(r, n).skipped == Newest(r.skipped + KeysUpTo(r, n))
    decreases n - r.seqNo
  {
    hide KeysUpTo, Newest, AddSkipped;
    if r.seqNo < n {
      var e := Skipped(r.seqNo, MsgKey(r.chain));
      SkipToKeepsNewest(SkipOne(r), n);
      KeysNext(r, n);
      NewestThen(r.skipped, e, KeysUpTo(SkipOne(r), n));
    } else {
      NothingNewer(r);
    }
  }

  lemma NothingNewer(r: Ratchet)
    requires |r.skipped| <= SKIPPED_MAX
    ensures Newest(r.skipped + KeysUpTo(r, r.seqNo)) == r.skipped
  {
    assert r.skipped + KeysUpTo(r, r.seqNo) == r.skipped;
  }

  // A frame that is delivered leaves room for the keys of the gap it opens.
  predicate Roomy(s: State, f: Frame, env: Env) {
    f.Data? && s.recv.seqNo <= f.seqNo && Feed(s, f, env).1.Delivered? ==>
      |s.recv.skipped| + (f.seqNo - s.recv.seqNo) <= SKIPPED_MAX
  }

  lemma FeedComplete(s: State, chain: Term, base: nat, sent: nat -> Message, log: seq<nat>, f: Frame, env: Env)
    requires Hygiene(s.recv, log) && Complete(s.recv, base, log) && Roomy(s, f, env)
    requires Follows(s.recv, chain, base) && Authentic(f, chain, base, sent)
    ensures Complete(Feed(s, f, env).0.recv, base, log + DeliveredBy(s, FeedCall(f), env))
  {
    hide Stored, Hygiene, Follows, Authentic, FindSkipped, Commit, RemoveAt, AddSkipped, Open, KeyAt, AckSent;
    var (t, r) := Feed(s, f, env);
    FeedFollows(s, chain, base, sent, f, env);
    if r.Rejected? {
      RejectedFeedKeeps(s, f, env, log);
      assert log + [] == log;
    } else if f.Data? && s.recv.seqNo <= f.seqNo {
      assert t.recv == Commit(s.recv, f.seqNo);
      CommitComplete(s.recv, base, log, f.seqNo);
    } else if f.Data? {
      var i := FindSkipped(s.recv.skipped, f.seqNo);
      assert t.recv == s.recv.(skipped := RemoveAt(s.recv.skipped, i));
      TakeComplete(s.recv, base, log, i);
    }
  }

  lemma CommitComplete(r: Ratchet, base: nat, log: seq<nat>, n: nat)
    requires Hygiene(r, log) && Complete(r, base, log) && r.seqNo <= n
    requires |r.skipped| + (n - r.seqNo) <= SKIPPED_MAX
    ensures Complete(Commit(r, n), base, log + [n])
  {
    SkipToComplete(r, base, log, n);
    assert forall m :: Stored(Commit(r, n), m) == Stored(SkipTo(r, n), m);
  }

  lemma TakeComplete(r: Ratchet, base: nat, log: seq<nat>, i: nat)
    requires Hygiene(r, log) && Complete(r, base, log) && i < |r.skipped|
    ensures Complete(r.(skipped := RemoveAt(r.skipped, i)), base, log + [r.skipped[i].seqNo])
  {
    var t := r.(skipped := RemoveAt(r.skipped, i));
    RemoveAtMembers(r.skipped, i);
    forall m | base <= m < r.seqNo && m !in log + [r.skipped[i].seqNo] ensures Stored(t, m).Some? {
      var k := FindSkipped(r.skipped, m);
      assert k != i && r.skipped[k] in t.skipped;
      StoredIff(t, m, r.skipped[k].key);
    }
  }

  predicate RoomyRun(s: State, script: Script) {
    script == [] || (var before, last := script[..|script| - 1], script[|script| - 1];
                     RoomyRun(s, before) && (last.0.FeedCall? ==> Roomy(Run(s, before), last.0.f, last.1)))
  }

  lemma {:induction false} RunComplete(s: State, chain: Term, base: nat, sent: nat -> Message, script: Script)
    requires Follows(s.recv, chain, base) && Hygiene(s.recv, []) && Complete(s.recv, base, [])
    requires AllAuthentic(script, chain, base, sent) && RoomyRun(s, script)
    ensures Complete(Run(s, script).recv, base, Log(s, script))
  {
    hide Follows, Hygiene, Authentic, Complete, Roomy, Step, Feed;
    if script != [] {
      var before, last := script[..|script| - 1], script[|script| - 1];
      RunComplete(s, chain, base, sent, before);
      RunDelivers(s, chain, base, sent, before);
      assert script[|script| - 1] == last;
      var t := Run(s, before);
      if last.0.FeedCall? {
        FeedComplete(t, chain, base, sent, Log(s, before), last.0.f, last.1);
        assert Step(t, last.0, last.1) == Feed(t, last.0.f, last.1).0 by { StepFeeds(t, last.0, last.1); }
      } else {
        OthersKeepRecv(t, last.0, last.1);
        assert Log(s, before) + [] == Log(s, before);
      }
    }
  }

  lemma StepFeeds(s: State, c: Call, env: Env)
    requires c.FeedCall?
    ensures Step(s, c, env) == Feed(s, c.f, env).0
  {
  }

  lemma UndeliveredOpens(s: State, chain: Term, base: nat, log: seq<nat>, n: nat, m: Message, env: Env)
    requires s.active && Follows(s.recv, chain, base) && Hygiene(s.recv, log) && Complete(s.recv, base, log)
    requires base <= n < s.recv.seqNo + MAX_SKIP
    ensures Feed(s, Genuine(chain, base, n, m), env).1 == Delivered(m.text) <==> n !in log
  {
    GenuineDelivered(s, chain, base, log, n, m, env);
    if Stored(s.recv, n).Some? { StoredBelow(s.recv, log, n); }
  }

  // Nothing is lost for good: if at most 96 frames are missing at a time, then after any
  // run of loss, reordering, duplication and forgery, a frame of the sender that is less
  // than 512 ahead opens when it arrives, exactly if it was not delivered before.
  lemma NothingIsLost(start: State, sent: nat -> Message, script: Script, n: nat, env: Env)
    requires exists root, initiator, lossy, eph, kem :: start == Established(root, initiator, lossy, eph, kem)
    requires AllAuthentic(script, start.recv.chain, 1, sent) && RoomyRun(start, script)
    requires 1 <= n < Run(start, script).recv.seqNo + MAX_SKIP
    ensures var r := Feed(Run(start, script), Genuine(start.recv.chain, 1, n, sent(n)), env).1;
            r == Delivered(sent(n).text) <==> n !in Log(start, script)
  {
    hide Feed, Authentic, RoomyRun, Step, Genuine;
    var chain := start.recv.chain;
    RunDelivers(start, chain, 1, sent, script);
    RunComplete(start, chain, 1, sent, script);
    RunActive(start, script);
    UndeliveredOpens(Run(start, script), chain, 1, Log(start, script), n, sent(n), env);
  }

  // ----- a session stays active -----------------------------------------------------------

  lemma EmitActive(s: State, text: Text, fromOldest: bool, carrierOnly: bool, env: Env)
    ensures EmitFrame(s, text, fromOldest, carrierOnly, env).0.active == s.active
  {
    hide HeaderFor, AddSent;
  }

  lemma {:induction false} ResendActive(s: State, r: nat, env: Env)
    ensures Resend(s, r, env).0.active == s.active
    decreases |s.sent| - r
  {
    hide EmitFrame;
    if r < |s.sent| {
      if Asked(s, s.sent[r]) {
        EmitActive(s, s.sent[r].text, r == 0, false, env);
        var (t, result) := EmitFrame(s, s.sent[r].text, r == 0, false, env);
        if !result.Emitted? { ResendActive(t, r + 1, env); }
      } else {
        ResendActive(s, r + 1, env);
      }
    }
  }

  lemma FeedActive(s: State, f: Frame, env: Env)
    ensures Feed(s, f, env).0.active == s.active
  {
    hide Commit, AddSkipped, RemoveAt, KeyAt, AckSent, Open, FindSkipped, DhShared;
  }

  lemma StepActive(s: State, c: Call, env: Env)
    ensures Step(s, c, env).active == s.active
  {
    hide EmitFrame, Feed;
    match c
    case FeedCall(f) => FeedActive(s, f, env);
    case SendCall(text) => EmitActive(s, text, false, false, env);
    case DatagramCall(text) => EmitActive(s, text, false, false, env);
    case CarrierCall => EmitActive(s, "", false, true, env);
    case FlushCall => if s.pending != [] { EmitActive(s, s.pending[0], false, false, env); }
    case PollCall => ResendActive(s, 0, env);
    case _ =>
  }

  lemma {:induction false} RunActive(s: State, script: Script)
    ensures Run(s, script).active == s.active
  {
    hide Step;
    if script != [] {
      var last := script[|script| - 1];
      RunActive(s, script[..|script| - 1]);
      StepActive(Run(s, script[..|script| - 1]), last.0, last.1);
    }
  }

  // ----- the sender's side ----------------------------------------------------------------

  // A payload emission of a lossy session whose text fits builds the genuine frame of
  // the next number. Lost or refused by the transport, it has used that number up.
  lemma PayloadIsGenuine(s: State, chain: Term, base: nat, text: Text, env: Env)
    requires s.lossy && s.rekey.carrier.None? && FrameLen(env.gcm, Plain, text) <= FRAME_MAX
    requires base <= s.send.seqNo && s.send.chain == ChainAt(chain, s.send.seqNo - base)
    ensures var (t, r) := EmitFrame(s, text, false, false, env);
            && r == Emitted(Genuine(chain, base, s.send.seqNo, Content(Plain, text)))
            && t.send.seqNo == s.send.seqNo + 1 && t.send.chain == ChainAt(chain, t.send.seqNo - base)
            && t.rekey == Due(s) && t.lossy
  {
  }
}
