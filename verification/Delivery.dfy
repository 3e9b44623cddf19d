/**
 Out-of-order delivery (src/session.c:88-142, 550-601): between two folds the sender
 seals frame n under the n-th key of one chain. However those frames are lost,
 duplicated, reordered and mixed with forgeries, the receiver's scratch walk, its
 committed walk and its stored keys all give the sender's key, so each frame that it
 still has a key for opens to the sender's text, and no other text is ever delivered.
 */
module Delivery {
  import opened Options
  import opened Limits
  import opened Symbolic
  import opened Ratchets
  import opened SentRings
  import opened Sessions
  import opened Receiving

  // The keys of one stretch between folds: `chain` is the chain at number `base`.
  function KeyOf(chain: Term, base: nat, n: nat): Term
    requires base <= n
  {
    MsgKey(ChainAt(chain, n - base))
  }

  // What a sender puts into a frame of the stretch: a text, plain or beside its pair.
  datatype Content = Content(hdr: Header, text: Text)

  type Message = m: Content | m.hdr.Plain? || m.hdr.KemPub? witness Content(Plain, "")

  // The sender's frame number n.
  function Genuine(chain: Term, base: nat, n: nat, m: Message): (f: Frame)
    requires base <= n
    ensures f.Data?
  {
    Seal(KeyOf(chain, base, n), n, m.hdr, m.text)
  }

  ghost predicate Follows(r: Ratchet, chain: Term, base: nat) {
    && base <= r.seqNo
    && r.chain == ChainAt(chain, r.seqNo - base)
    && (forall e | e in r.skipped :: base <= e.seqNo && e.key == KeyOf(chain, base, e.seqNo))
  }

  // ----- the walks agree --------------------------------------------------------------------

  lemma {:induction false} ChainAdds(c: Term, i: nat, j: nat)
    ensures ChainAt(ChainAt(c, i), j) == ChainAt(c, i + j)
  {
    if j > 0 { ChainAdds(c, i, j - 1); }
  }

  function Height(t: Term): nat {
    if t.NextChain? then 1 + Height(t.chain) else 0
  }

  lemma {:induction false} ChainHeight(c: Term, k: nat)
    ensures Height(ChainAt(c, k)) == Height(c) + k
  {
    if k > 0 { ChainHeight(c, k - 1); }
  }

  // Different numbers have different keys.
  lemma KeysDiffer(chain: Term, base: nat, n: nat, m: nat)
    requires base <= n && base <= m && KeyOf(chain, base, n) == KeyOf(chain, base, m)
    ensures n == m
  {
    ChainHeight(chain, n - base);
    ChainHeight(chain, m - base);
  }

  // The scratch walk ends at the sender's key.
  lemma WalkFollows(r: Ratchet, chain: Term, base: nat, n: nat)
    requires Follows(r, chain, base) && r.seqNo <= n
    ensures KeyAt(r, n) == KeyOf(chain, base, n)
  {
    ChainAdds(chain, r.seqNo - base, n - r.seqNo);
  }

  // So does the committed walk, and the keys it stores are the sender's.
  lemma {:induction false} SkipToFollows(r: Ratchet, chain: Term, base: nat, n: nat)
    requires Follows(r, chain, base)
    ensures Follows(SkipTo(r, n), chain, base)
    decreases n - r.seqNo
  {
    if r.seqNo < n {
      forall e | e in SkipOne(r).skipped
        ensures base <= e.seqNo && e.key == KeyOf(chain, base, e.seqNo)
      {
        assert e in r.skipped || e == Skipped(r.seqNo, MsgKey(r.chain));
      }
      SkipToFollows(SkipOne(r), chain, base, n);
    }
  }

  // ----- one frame --------------------------------------------------------------------------

  // A forgery opens under no key of this stretch, unless its box is one the sender sealed.
  ghost predicate Authentic(f: Frame, chain: Term, base: nat, sent: nat -> Message) {
    f.Data? && f.box.Sealed? ==>
      forall n | base <= n && f.box.key == KeyOf(chain, base, n) :: f.box == Genuine(chain, base, n, sent(n)).box
  }

  predicate HasKey(r: Ratchet, n: nat) {
    (r.seqNo <= n < r.seqNo + MAX_SKIP) || Stored(r, n).Some?
  }

  // What the receiver holds for number n is the sender's key.
  lemma HeldKey(r: Ratchet, chain: Term, base: nat, n: nat)
    requires Follows(r, chain, base) && n < r.seqNo && Stored(r, n).Some?
    ensures base <= n && Stored(r, n) == Some(KeyOf(chain, base, n))
  {
    assert r.skipped[FindSkipped(r.skipped, n)] in r.skipped;
  }

  // A genuine frame is delivered exactly if its number is at most 511 ahead or its key
  // is stored, and then with the sender's text.
  lemma GenuineDelivered(s: State, chain: Term, base: nat, log: seq<nat>, n: nat, m: Message, env: Env)
    requires s.active && Follows(s.recv, chain, base) && Hygiene(s.recv, log) && base <= n
    ensures var r := Feed(s, Genuine(chain, base, n, m), env).1;
            && (r == Delivered(m.text) <==> HasKey(s.recv, n))
            && (!HasKey(s.recv, n) ==> r == Rejected(if s.recv.seqNo <= n then SeqTooOld else Replay))
  {
    hide Accept, Commit, AddSkipped, RemoveAt, ChainAt;
    if s.recv.seqNo <= n {
      WalkFollows(s.recv, chain, base, n);
      if Stored(s.recv, n).Some? { StoredBelow(s.recv, log, n); }
    } else if Stored(s.recv, n).Some? {
      HeldKey(s.recv, chain, base, n);
    }
  }

  lemma StoredBelow(r: Ratchet, log: seq<nat>, n: nat)
    requires Hygiene(r, log) && Stored(r, n).Some?
    ensures n < r.seqNo && n !in log
  {
    assert r.skipped[FindSkipped(r.skipped, n)] in r.skipped;
  }

  // Whatever is delivered is the sender's frame of that number, and the receiver goes on
  // following the sender's chain.
  lemma FeedFollows(s: State, chain: Term, base: nat, sent: nat -> Message, f: Frame, env: Env)
    requires Follows(s.recv, chain, base) && Authentic(f, chain, base, sent)
    ensures var (t, r) := Feed(s, f, env);
            && Follows(t.recv, chain, base)
            && (f.Data? && r.Delivered? ==> base <= f.seqNo && f == Genuine(chain, base, f.seqNo, sent(f.seqNo))
                                            && r.text == sent(f.seqNo).text)
  {
    hide Commit, ChainAt, KeyAt, AckSent, AddSkipped, RemoveAt;
    if s.active && f.Data? && !f.hdr.Malformed? {
      if s.recv.seqNo <= f.seqNo {
        WalkFollows(s.recv, chain, base, f.seqNo);
        CommitFollows(s.recv, chain, base, f.seqNo);
      } else {
        var i := FindSkipped(s.recv.skipped, f.seqNo);
        if i < |s.recv.skipped| {
          HeldKey(s.recv, chain, base, f.seqNo);
          TakeFollows(s.recv, chain, base, i);
        }
      }
    }
  }

  lemma CommitFollows(r: Ratchet, chain: Term, base: nat, n: nat)
    requires Follows(r, chain, base) && r.seqNo <= n
    ensures Follows(Commit(r, n), chain, base)
  {
    SkipToFollows(r, chain, base, n);
  }

  lemma TakeFollows(r: Ratchet, chain: Term, base: nat, i: nat)
    requires Follows(r, chain, base) && i < |r.skipped|
    ensures Follows(r.(skipped := RemoveAt(r.skipped, i)), chain, base)
    ensures Follows(r.(skipped := AddSkipped(RemoveAt(r.skipped, i), r.skipped[i])), chain, base)
  {
    hide KeyOf, ChainAt, RemoveAt, AddSkipped;
    TakenMembers(r.skipped, i);
  }

  lemma TakenMembers(s: seq<Skipped>, i: nat)
    requires i < |s|
    ensures forall e | e in RemoveAt(s, i) :: e in s
    ensures forall e | e in AddSkipped(RemoveAt(s, i), s[i]) :: e in s
  {
    var rest := RemoveAt(s, i);
    RemoveAtMembers(s, i);
    forall e | e in AddSkipped(rest, s[i]) ensures e in s { assert e in rest || e == s[i]; }
  }

  // ----- runs ---------------------------------------------------------------------------------

  ghost predicate AllAuthentic(script: Script, chain: Term, base: nat, sent: nat -> Message) {
    forall i | 0 <= i < |script| && script[i].0.FeedCall? :: Authentic(script[i].0.f, chain, base, sent)
  }

  // The texts a run delivers, with their numbers.
  function Texts(s: State, script: Script): seq<(nat, Text)> {
    if script == [] then [] else
      var before, last := script[..|script| - 1], script[|script| - 1];
      var earlier, now := Texts(s, before), Run(s, before);
      match last.0
      case FeedCall(f) =>
        if f.Data? && Feed(now, f, last.1).1.Delivered? then earlier + [(f.seqNo, Feed(now, f, last.1).1.text)]
        else earlier
      case _ => earlier
  }

  // Under any loss, duplication, reordering and forgery, the receiver delivers only the
  // sender's sent, each at most once, and keeps following the sender.
  lemma {:induction false} RunDelivers(s: State, chain: Term, base: nat, sent: nat -> Message, script: Script)
    requires Follows(s.recv, chain, base) && Hygiene(s.recv, [])
    requires AllAuthentic(script, chain, base, sent)
    ensures Follows(Run(s, script).recv, chain, base) && Hygiene(Run(s, script).recv, Log(s, script))
    ensures |Texts(s, script)| == |Log(s, script)|
    ensures forall i | 0 <= i < |Log(s, script)| :: Texts(s, script)[i] == (Log(s, script)[i], sent(Log(s, script)[i]).text)
  {
    hide Follows, Hygiene, Authentic, Feed;
    AtMostOnce(s, script);
    if script != [] {
      var before, last := script[..|script| - 1], script[|script| - 1];
      RunDelivers(s, chain, base, sent, before);
      assert script[|script| - 1] == last;
      if last.0.FeedCall? {
        FeedFollows(Run(s, before), chain, base, sent, last.0.f, last.1);
      } else {
        OthersKeepRecv(Run(s, before), last.0, last.1);
      }
    }
  }
}
