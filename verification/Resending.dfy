/**
 Recovery of lost texts (src/session.c:168-226, 964-988): how repeated polls serve a
 RESEND request. One that names an older generation is served by the plan of module
 ResendPlans, which says for every mix of lengths which texts are re-emitted, and in what
 order. One that names the current generation is served for ever, as each re-sent text is
 asked for again under its new tag.
 */
module Resending {
  import opened Limits
  import opened Symbolic
  import opened Ratchets
  import opened SentRings
  import opened Sessions
  import opened Emissions
  import opened ResendPlans

  // The buffered texts that the peer asked for, and the others.
  function Asks(rel: Recovery): Sent -> bool { (e: Sent) => e.gen == rel.repGen && e.seqNo >= rel.repFrom }

  function Spares(rel: Recovery): Sent -> bool { e => !Asks(rel)(e) }

  function Wanted(s: State): seq<Sent> { Filter(s.sent, Asks(s.rel)) }

  function Unwanted(s: State): seq<Sent> { Filter(s.sent, Spares(s.rel)) }

  // No two buffered texts have the same tag.
  ghost predicate DistinctTags(s: seq<Sent>) {
    forall i, j | 0 <= i < j < |s| && s[i].gen == s[j].gen :: s[i].seqNo != s[j].seqNo
  }

  // Those of the current generation were sent before the next number.
  ghost predicate Tags(s: State) {
    && DistinctTags(s.sent)
    && (forall e | e in s.sent && e.gen == GenOf(s.root) :: e.seqNo < s.send.seqNo)
  }

  // A request of the peer is being served.
  ghost predicate Serving(s: State) {
    && s.active && !s.lossy && !s.rel.reqPending && s.rel.repPending
    && |s.sent| <= SENT_MAX && InFrame(s.sent) && Tags(s)
  }

  predicate Older(s: State) { s.rel.repGen != GenOf(s.root) }

  // ----- filters ------------------------------------------------------------------------------

  lemma {:induction false} FilterConcat(s: seq<Sent>, t: seq<Sent>, keep: Sent -> bool)
    ensures Filter(s + t, keep) == Filter(s, keep) + Filter(t, keep)
    decreases |t|
  {
    if t == [] {
      assert s + t == s;
    } else {
      assert (s + t)[..|s + t| - 1] == s + t[..|t| - 1];
      FilterConcat(s, t[..|t| - 1], keep);
    }
  }

  lemma {:induction false} FilterNone(s: seq<Sent>, keep: Sent -> bool)
    requires forall e | e in s :: !keep(e)
    ensures Filter(s, keep) == []
  {
    if s != [] { FilterNone(s[..|s| - 1], keep); }
  }

  lemma {:induction false} FilterAll(s: seq<Sent>, keep: Sent -> bool)
    requires forall e | e in s :: keep(e)
    ensures Filter(s, keep) == s
  {
    if s != [] {
      FilterAll(s[..|s| - 1], keep);
      assert s == s[..|s| - 1] + [s[|s| - 1]];
    }
  }

  lemma FilterThree(before: seq<Sent>, e: Sent, after: seq<Sent>, keep: Sent -> bool)
    ensures Filter(before + [e] + after, keep)
         == Filter(before, keep) + (if keep(e) then [e] else []) + Filter(after, keep)
  {
    hide Filter;
    FilterConcat(before + [e], after, keep);
    FilterConcat(before, [e], keep);
    if keep(e) { FilterAll([e], keep); } else { FilterNone([e], keep); }
  }

  // Entry i, between the entries before and after it.
  lemma FilterAround(s: seq<Sent>, i: nat, keep: Sent -> bool)
    requires i < |s|
    ensures Filter(s, keep) == Filter(s[..i], keep) + (if keep(s[i]) then [s[i]] else []) + Filter(s[i + 1..], keep)
  {
    hide Filter;
    Split(s, i);
    FilterThree(s[..i], s[i], s[i + 1..], keep);
  }

  lemma Split(s: seq<Sent>, i: nat)
    requires i < |s|
    ensures s == s[..i] + [s[i]] + s[i + 1..]
  {
  }

  // Removing the tag of entry i removes entry i only.
  lemma RemoveOne(s: seq<Sent>, i: nat)
    requires i < |s|
    requires forall k | 0 <= k < |s| && k != i :: !Tagged(s[k], s[i].gen, s[i].seqNo)
    ensures RemoveSent(s, s[i].gen, s[i].seqNo) == s[..i] + s[i + 1..]
  {
    hide Filter;
    var e := s[i];
    var keep := x => !Tagged(x, e.gen, e.seqNo);
    FilterAround(s, i, keep);
    FilterAll(s[..i], keep);
    FilterAll(s[i + 1..], keep);
  }

  // Entry i is the first but k that `keep` keeps.
  lemma FilterAt(s: seq<Sent>, i: nat, keep: Sent -> bool)
    requires i < |s| && keep(s[i])
    ensures var t, k := Filter(s, keep), |Filter(s[..i], keep)|;
            && k < |t| && t[k] == s[i] && t[..k] == Filter(s[..i], keep) && t[k + 1..] == Filter(s[i + 1..], keep)
  {
    hide Filter;
    FilterAround(s, i, keep);
  }

  lemma FilterTail(s: seq<Sent>, keep: Sent -> bool)
    requires s != []
    ensures Filter(s, keep) == (if keep(s[0]) then [s[0]] else []) + Filter(s[1..], keep)
  {
    FilterAround(s, 0, keep);
    assert Filter(s[..0], keep) == [];
  }

  // ----- the tries of one poll ----------------------------------------------------------------

  // The text fits beside the header that is due.
  predicate FitsNow(s: State, text: Text, env: Env) { |text| <= Capacity(BranchOf(s), env.gcm) }

  lemma FittingEmits(s: State, text: Text, fromOldest: bool, env: Env)
    requires s.active && !s.lossy && FitsNow(s, text, env)
    ensures var (t, r) := EmitFrame(s, text, fromOldest, false, env);
            && r.Emitted? && r.frame.Data? && r.frame.seqNo == s.send.seqNo
            && r.frame.box == Sealed(MsgKey(s.send.chain), s.send.seqNo, r.frame.hdr, text)
            && (BranchOf(s) == NoHeader ==> r.frame.hdr == Plain && t.send.chain == NextChain(s.send.chain))
            && t.sent == AddSent(s.sent, Sent(GenOf(s.root), s.send.seqNo, Buffered(s, text, fromOldest)))
            && t.send.seqNo == s.send.seqNo + 1
            && t.active == s.active && t.lossy == s.lossy && t.root == s.root && t.rel == s.rel
  {
    EmissionNeedsRoom(s, text, env);
    hide HeaderFor, AddSent, Capacity, BranchOf;
  }

  // The state after k tries that failed.
  function AfterTries(s: State, k: nat, env: Env): State
    decreases k
  {
    if k == 0 then s else AfterTries(s.(rekey := FlagsLeft(s, env), send := StepChain(s.send)), k - 1, env)
  }

  lemma FailingTry(s: State, text: Text, fromOldest: bool, env: Env)
    requires s.active && !s.lossy && Capacity(BranchBy(GuardsOf(s)), env.gcm) < |text| <= DATA_MAX
    ensures var (t, r) := EmitFrame(s, text, fromOldest, false, env);
            && !r.Emitted? && t == s.(rekey := FlagsLeft(s, env), send := StepChain(s.send))
            && GuardsOf(t) == AfterFailure(GuardsOf(s))
  {
    EmissionNeedsRoom(s, text, env);
    EmissionGuards(s, text, env);
    SameFailure(s, text, fromOldest, env);
    hide EmitFrame, Capacity, BranchBy, FlagsLeft, AfterFailure;
  }

  lemma SameFailure(s: State, text: Text, fromOldest: bool, env: Env)
    ensures var (t, r) := EmitFrame(s, text, false, false, env);
            !r.Emitted? ==> EmitFrame(s, text, fromOldest, false, env) == (t, r)
  {
    hide HeaderFor, AddSent;
  }

  lemma {:induction false} TriesFacts(s: State, k: nat, env: Env)
    requires !s.lossy
    ensures var u := AfterTries(s, k, env);
            && u == s.(rekey := u.rekey, send := u.send)
            && u.send.seqNo == s.send.seqNo + k && u.send.chain == ChainAt(s.send.chain, k)
            && GuardsOf(u) == Tried(GuardsOf(s), k)
    decreases k
  {
    if k > 0 {
      var t := s.(rekey := FlagsLeft(s, env), send := StepChain(s.send));
      FailureLeaves(s, env);
      TriesFacts(t, k - 1, env);
      ChainNext(s.send.chain, k - 1);
    }
  }

  lemma FailureLeaves(s: State, env: Env)
    requires !s.lossy
    ensures GuardsOf(s.(rekey := FlagsLeft(s, env), send := StepChain(s.send))) == AfterFailure(GuardsOf(s))
  {
    assert BranchOf(s) == BranchBy(GuardsOf(s)) && IsDue(s) == DueBy(GuardsOf(s));
    hide BranchOf, BranchBy, DueBy, IsDue;
  }

  function AskedFrom(s: State, r: nat): seq<Sent>
    requires r <= |s.sent|
  {
    Filter(s.sent[r..], Asks(s.rel))
  }

  // A poll that has come to position r tries the texts asked for in turn; the first that
  // fits is at position i.
  ghost predicate Reaches(s: State, r: nat, env: Env, i: nat)
    requires r <= |s.sent|
  {
    var ws := AskedFrom(s, r);
    var k := FirstFit(GuardsOf(s), ws, env.gcm);
    && r <= i <= |s.sent|
    && Resend(s, r, env) == Resend(AfterTries(s, k, env), i, env)
    && |Filter(s.sent[r..i], Asks(s.rel))| == k
    && (i < |s.sent| <==> k < |ws|)
    && (k < |ws| ==> Asked(s, s.sent[i]) && s.sent[i] == ws[k])
  }

  lemma {:induction false} Tries(s: State, r: nat, env: Env) returns (i: nat)
    requires s.active && !s.lossy && r <= |s.sent| && InFrame(s.sent)
    ensures Reaches(s, r, env, i)
    decreases |s.sent| - r
  {
    hide Reaches, AskedFrom, FirstFit, FlagsLeft, FitsBy, GuardsOf;
    if r == |s.sent| {
      i := r;
      ReachesEnd(s, env);
    } else if !Asked(s, s.sent[r]) {
      i := Tries(s, r + 1, env);
      ReachesPast(s, r, env, i);
    } else if FitsBy(GuardsOf(s), s.sent[r], env.gcm) {
      i := r;
      ReachesHere(s, r, env);
    } else {
      i := Tries(s.(rekey := FlagsLeft(s, env), send := StepChain(s.send)), r + 1, env);
      ReachesLater(s, r, env, i);
    }
  }

  lemma ReachesEnd(s: State, env: Env)
    ensures Reaches(s, |s.sent|, env, |s.sent|)
  {
    hide FirstFit, Resend;
    NoneFrom(s);
    TryNone(s, env);
  }

  lemma ReachesPast(s: State, r: nat, env: Env, i: nat)
    requires r < |s.sent| && !Asked(s, s.sent[r]) && Reaches(s, r + 1, env, i)
    ensures Reaches(s, r, env, i)
  {
    hide FirstFit, Resend, AfterTries, Filter, AskedFrom;
    AskedNext(s, r);
    PassesOver(s, r, env);
    Between(s.sent, r, i, Asks(s.rel));
  }

  lemma ReachesHere(s: State, r: nat, env: Env)
    requires r < |s.sent| && Asked(s, s.sent[r]) && FitsBy(GuardsOf(s), s.sent[r], env.gcm)
    ensures Reaches(s, r, env, r)
  {
    hide FirstFit, Resend, Filter, AskedFrom, FitsBy;
    AskedNext(s, r);
    FirstStep(GuardsOf(s), AskedFrom(s, r), env.gcm);
    TryNone(s, env);
    assert s.sent[r..r] == [];
    FilterNone([], Asks(s.rel));
  }

  lemma ReachesLater(s: State, r: nat, env: Env, i: nat)
    requires s.active && !s.lossy && r < |s.sent| && InFrame(s.sent) && Asked(s, s.sent[r])
    requires !FitsBy(GuardsOf(s), s.sent[r], env.gcm)
    requires Reaches(s.(rekey := FlagsLeft(s, env), send := StepChain(s.send)), r + 1, env, i)
    ensures Reaches(s, r, env, i)
  {
    hide FirstFit, Resend, AfterTries, Filter, AskedFrom, FitsBy, FlagsLeft, AfterFailure, GuardsOf;
    var t := s.(rekey := FlagsLeft(s, env), send := StepChain(s.send));
    AskedNext(s, r);
    SameAsked(s, t, r + 1);
    FirstStep(GuardsOf(s), AskedFrom(s, r), env.gcm);
    FailsAt(s, r, env);
    TryMore(s, FirstFit(GuardsOf(t), AskedFrom(t, r + 1), env.gcm), env);
    Between(s.sent, r, i, Asks(s.rel));
  }

  lemma TryNone(s: State, env: Env)
    ensures AfterTries(s, 0, env) == s
  {
  }

  lemma TryMore(s: State, k: nat, env: Env)
    ensures AfterTries(s, k + 1, env) == AfterTries(s.(rekey := FlagsLeft(s, env), send := StepChain(s.send)), k, env)
  {
  }

  lemma NoneFrom(s: State)
    ensures AskedFrom(s, |s.sent|) == [] && |Filter(s.sent[|s.sent|..|s.sent|], Asks(s.rel))| == 0
  {
  }

  lemma AskedNext(s: State, r: nat)
    requires r < |s.sent|
    ensures AskedFrom(s, r) == (if Asked(s, s.sent[r]) then [s.sent[r]] else []) + AskedFrom(s, r + 1)
    ensures AskedFrom(s, r) != [] ==> AskedFrom(s, r)[1..] == if Asked(s, s.sent[r]) then AskedFrom(s, r + 1) else AskedFrom(s, r)[1..]
  {
    hide Filter;
    FilterTail(s.sent[r..], Asks(s.rel));
    assert s.sent[r..][1..] == s.sent[r + 1..];
  }

  lemma SameAsked(s: State, t: State, r: nat)
    requires t.sent == s.sent && t.rel == s.rel && r <= |s.sent|
    ensures AskedFrom(t, r) == AskedFrom(s, r)
  {
  }

  lemma PassesOver(s: State, r: nat, env: Env)
    requires r < |s.sent| && !Asked(s, s.sent[r])
    ensures Resend(s, r, env) == Resend(s, r + 1, env)
  {
  }

  lemma FailsAt(s: State, r: nat, env: Env)
    requires s.active && !s.lossy && r < |s.sent| && InFrame(s.sent) && Asked(s, s.sent[r])
    requires !FitsBy(GuardsOf(s), s.sent[r], env.gcm)
    ensures var t := s.(rekey := FlagsLeft(s, env), send := StepChain(s.send));
            Resend(s, r, env) == Resend(t, r + 1, env) && GuardsOf(t) == AfterFailure(GuardsOf(s))
  {
    hide EmitFrame, FlagsLeft, AfterFailure;
    var e := s.sent[r];
    TooLongMeans(GuardsOf(s), e, env.gcm);
    assert e in s.sent;
    FailingTry(s, e.text, r == 0, env);
  }

  lemma TooLongMeans(g: Guards, e: Sent, gcm: bool)
    requires !FitsBy(g, e, gcm)
    ensures Capacity(BranchBy(g), gcm) < |e.text|
  {
  }

  lemma Between(s: seq<Sent>, r: nat, i: nat, keep: Sent -> bool)
    requires r < i <= |s|
    ensures |Filter(s[r..i], keep)| == |Filter(s[r + 1..i], keep)| + if keep(s[r]) then 1 else 0
  {
    FilterTail(s[r..i], keep);
    assert s[r..i][1..] == s[r + 1..i];
  }

  // ----- one poll -----------------------------------------------------------------------------

  // The re-sent text under its new tag, as it is buffered.
  function Again(s: State, i: nat): Sent
    requires i < |s.sent|
  {
    Sent(GenOf(s.root), s.send.seqNo, Buffered(s, s.sent[i].text, i == 0))
  }

  // The buffer after text i was re-sent. A full buffer has lost its oldest entry.
  function AfterResend(s: State, i: nat): seq<Sent>
    requires i < |s.sent|
  {
    (if |s.sent| >= SENT_MAX && i > 0 then s.sent[1..i] else s.sent[..i]) + s.sent[i + 1..] + [Again(s, i)]
  }

  lemma OneTag(s: State, i: nat, sent: seq<Sent>)
    requires Tags(s) && i < |s.sent| && sent == AddSent(s.sent, Again(s, i))
    ensures forall k | 0 <= k < |sent| && sent[k] != s.sent[i] :: !Tagged(sent[k], s.sent[i].gen, s.sent[i].seqNo)
    ensures forall k | 0 <= k < |s.sent| && k != i :: s.sent[k] != s.sent[i]
    ensures Again(s, i) != s.sent[i]
  {
    var e := s.sent[i];
    assert e in s.sent;
    forall k | 0 <= k < |sent| && sent[k] != e ensures !Tagged(sent[k], e.gen, e.seqNo) {
      if k < |sent| - 1 {
        var j := if |s.sent| >= SENT_MAX then k + 1 else k;
        assert sent[k] == s.sent[j];
      }
    }
  }

  lemma Replaces(s: State, i: nat, sent: seq<Sent>)
    requires Tags(s) && i < |s.sent| <= SENT_MAX && sent == AddSent(s.sent, Again(s, i))
    ensures RemoveSent(sent, s.sent[i].gen, s.sent[i].seqNo) == AfterResend(s, i)
  {
    hide RemoveSent, Tags;
    OneTag(s, i, sent);
    if |s.sent| < SENT_MAX {
      assert forall k | 0 <= k < |s.sent| :: sent[k] == s.sent[k];
      RemoveOne(sent, i);
      assert sent[..i] == s.sent[..i] && sent[i + 1..] == s.sent[i + 1..] + [Again(s, i)];
    } else if i > 0 {
      assert forall k | 0 <= k < |s.sent| - 1 :: sent[k] == s.sent[k + 1];
      RemoveOne(sent, i - 1);
      assert sent[..i - 1] == s.sent[1..i] && sent[i..] == s.sent[i + 1..] + [Again(s, i)];
    } else {
      assert forall k | 0 <= k < |s.sent| - 1 :: sent[k] == s.sent[k + 1];
      RemoveNone(sent, s.sent[0]);
    }
  }

  lemma RemoveNone(sent: seq<Sent>, e: Sent)
    requires forall k | 0 <= k < |sent| :: !Tagged(sent[k], e.gen, e.seqNo)
    ensures RemoveSent(sent, e.gen, e.seqNo) == sent
  {
    hide Filter;
    FilterAll(sent, x => !Tagged(x, e.gen, e.seqNo));
  }

  lemma PollServes(u: State, i: nat, env: Env)
    requires Serving(u) && i < |u.sent| && Asked(u, u.sent[i]) && FitsNow(u, u.sent[i].text, env)
    ensures var (t, r) := Resend(u, i, env);
            && r.Emitted? && r.frame.Data? && r.frame.seqNo == u.send.seqNo
            && r.frame.box == Sealed(MsgKey(u.send.chain), u.send.seqNo, r.frame.hdr, u.sent[i].text)
            && (BranchOf(u) == NoHeader ==> r.frame.hdr == Plain && t.send.chain == NextChain(u.send.chain))
            && t.sent == AfterResend(u, i)
            && t.send.seqNo == u.send.seqNo + 1 && t.root == u.root && t.rel == u.rel
            && t.active == u.active && t.lossy == u.lossy && GuardsOf(t) == AfterFrame(GuardsOf(u))
  {
    hide EmitFrame, RemoveSent, Tags, AddSent, Buffered, FitsNow, AfterResend, AfterFrame;
    var e := u.sent[i];
    FittingEmits(u, e.text, i == 0, env);
    FittingGuards(u, e.text, i == 0, env);
    Replaces(u, i, EmitFrame(u, e.text, i == 0, false, env).0.sent);
  }

  lemma FittingGuards(s: State, text: Text, fromOldest: bool, env: Env)
    requires s.active && !s.lossy && FitsNow(s, text, env) && |text| <= DATA_MAX
    ensures GuardsOf(EmitFrame(s, text, fromOldest, false, env).0) == AfterFrame(GuardsOf(s))
  {
    EmissionNeedsRoom(s, text, env);
    EmissionGuards(s, text, env);
    SameFlags(s, text, fromOldest, env);
    hide EmitFrame, AfterFrame, BranchOf, Capacity;
  }

  lemma SameFlags(s: State, text: Text, fromOldest: bool, env: Env)
    ensures GuardsOf(EmitFrame(s, text, fromOldest, false, env).0) == GuardsOf(EmitFrame(s, text, false, false, env).0)
  {
    hide HeaderFor, AddSent, Buffered;
  }

  // How many texts asked for lie at the head of a full buffer.
  function Leading(s: State): nat { if |s.sent| >= SENT_MAX then Ahead(s.sent, Asks(s.rel)) else 0 }

  function Ahead(s: seq<Sent>, keep: Sent -> bool): nat {
    if s == [] || !keep(s[0]) then 0 else 1 + Ahead(s[1..], keep)
  }

  // One poll: the first text asked for that fits when it is tried is re-emitted and tagged
  // anew; with that tag it is asked for again exactly if the request names the current
  // generation. If none fits, the service ends.
  lemma PollStep(s: State, env: Env)
    requires Serving(s)
    ensures var (t, r) := RelPoll(s, env); var ws := Wanted(s); var k := FirstFit(GuardsOf(s), ws, env.gcm);
            && t.root == s.root && t.active
            && if k == |ws| then
                 && r == Nothing && t.sent == s.sent && t.rel == s.rel.(repPending := false)
                 && t.send.seqNo == s.send.seqNo + k && GuardsOf(t) == Tried(GuardsOf(s), k)
               else
                 && r.Emitted? && r.frame.Data? && r.frame.seqNo == s.send.seqNo + k
                 && r.frame.box == Sealed(MsgKey(ChainAt(s.send.chain, k)), s.send.seqNo + k, r.frame.hdr, ws[k].text)
                 && (BranchAfter(GuardsOf(s), k) == NoHeader ==> r.frame.hdr == Plain && t.send.chain == ChainAt(s.send.chain, k + 1))
                 && Serving(t) && t.rel == s.rel
                 && t.send.seqNo == s.send.seqNo + k + 1 && GuardsOf(t) == NextGuards(GuardsOf(s), k)
                 && var again := Retagged(s, k);
                    && Wanted(t) == Remaining(ws, k, Leading(s)) + (if Older(s) then [] else [again])
                    && (Older(s) ==> Leading(t) == NextLead(Leading(s), k))
                    && (|s.sent| < SENT_MAX ==>
                          |t.sent| < SENT_MAX && Unwanted(t) == Unwanted(s) + (if Older(s) then [again] else []))
  {
    hide EmitFrame, FirstFit, Tags, Filter, FitsNow, FitsBy, AfterTries, AfterResend, Resend, Leading, Tried, AfterFrame;
    assert s.sent[0..] == s.sent;
    var i := Tries(s, 0, env);
    assert s.sent[0..i] == s.sent[..i];
    var k := FirstFit(GuardsOf(s), Wanted(s), env.gcm);
    var u := AfterTries(s, k, env);
    TriesFacts(s, k, env);
    assert Serving(u) by { LaterServes(s, u); }
    assert RelPoll(s, env) == Resend(u, i, env);
    if k == |Wanted(s)| {
      EndsHere(u, env);
    } else {
      FirstFitFits(GuardsOf(s), Wanted(s), env.gcm);
      FitsMeans(u, Wanted(s)[k], env);
      PollServes(u, i, env);
      FailedBranch(GuardsOf(s), k);
      var t := RelPoll(s, env).0;
      PollTags(u, t, i);
      PollFilters(s, u, t, i, k);
    }
  }

  // So a poll emits exactly if one of the texts asked for fits beside the header that is due
  // when its turn comes.
  lemma PollEmitsIff(s: State, env: Env)
    requires Serving(s)
    ensures var g, ws := GuardsOf(s), Wanted(s);
            RelPoll(s, env).1.Emitted? <==>
              exists k :: 0 <= k < |ws| && |ws[k].text| <= Capacity(BranchAfter(g, k), env.gcm)
  {
    hide RelPoll, Serving, GuardsOf, FirstFit;
    PollStep(s, env);
    FitsIff(GuardsOf(s), Wanted(s), env.gcm);
  }

  // The text re-sent after k tries, as it is buffered.
  function Retagged(s: State, k: nat): Sent
    requires k < |Wanted(s)|
  {
    Sent(GenOf(s.root), s.send.seqNo + k, Buffered(s, Wanted(s)[k].text, k == 0 && s.sent != [] && Asked(s, s.sent[0])))
  }

  lemma LaterServes(s: State, u: State)
    requires Serving(s) && u == s.(rekey := u.rekey, send := u.send) && u.send.seqNo >= s.send.seqNo
    ensures Serving(u)
  {
  }

  lemma EndsHere(u: State, env: Env)
    ensures Resend(u, |u.sent|, env) == (u.(rel := u.rel.(repPending := false)), Nothing)
  {
  }

  lemma FirstFitFits(g: Guards, ws: seq<Sent>, gcm: bool)
    ensures var k := FirstFit(g, ws, gcm); k < |ws| ==> FitsBy(Tried(g, k), ws[k], gcm)
  {
  }

  lemma FitsMeans(u: State, e: Sent, env: Env)
    requires !u.lossy
    ensures FitsBy(GuardsOf(u), e, env.gcm) ==> FitsNow(u, e.text, env)
  {
  }

  lemma BufferedLength(s: State, text: Text, fromOldest: bool)
    ensures |Buffered(s, text, fromOldest)| == |text|
  {
  }

  lemma PollTags(s: State, t: State, i: nat)
    requires Serving(s) && i < |s.sent| && Asked(s, s.sent[i])
    requires t.active == s.active && t.lossy == s.lossy && t.rel == s.rel && t.root == s.root && t.send.seqNo == s.send.seqNo + 1
    requires t.sent == AfterResend(s, i)
    ensures Serving(t) && (|s.sent| < SENT_MAX ==> |t.sent| == |s.sent|)
  {
    hide Buffered;
    BufferedLength(s, s.sent[i].text, i == 0);
    assert s.sent[i] in s.sent;
    var n, d := |t.sent| - 1, if |s.sent| >= SENT_MAX && i > 0 then 1 else 0;
    forall k | 0 <= k < n ensures t.sent[k] == s.sent[if k + d < i then k + d else k + d + 1] && t.sent[k] in s.sent {}
    forall j, k | 0 <= j < k < |t.sent| && t.sent[j].gen == t.sent[k].gen ensures t.sent[j].seqNo != t.sent[k].seqNo {
      if k == n { assert t.sent[j] in s.sent; }
    }
    forall e | e in t.sent ensures e in s.sent || e == t.sent[n] {}
  }

  lemma PollFilters(s: State, u: State, t: State, i: nat, k: nat)
    requires Serving(s) && Tags(u) && u == s.(rekey := u.rekey, send := u.send) && u.send.seqNo == s.send.seqNo + k
    requires i < |s.sent| && Asked(s, s.sent[i]) && |Filter(s.sent[..i], Asks(s.rel))| == k
    requires t.rel == s.rel && t.sent == AfterResend(u, i)
    ensures k < |Wanted(s)|
    ensures var again := Retagged(s, k);
            && Wanted(t) == Remaining(Wanted(s), k, Leading(s)) + (if Older(s) then [] else [again])
            && (Older(s) ==> Leading(t) == NextLead(Leading(s), k))
            && (|s.sent| < SENT_MAX ==>
                  |t.sent| < SENT_MAX && Unwanted(t) == Unwanted(s) + (if Older(s) then [again] else []))
  {
    hide Filter, Tags, Buffered;
    FilterAt(s.sent, i, Asks(s.rel));
    var again := Again(u, i);
    FirstOrNot(s, i, k);
    SameBuffered(s, u, s.sent[i].text, i == 0);
    assert again == Retagged(s, k);
    AskedAgain(u, i);
    var before := if |s.sent| >= SENT_MAX && i > 0 then s.sent[1..i] else s.sent[..i];
    WantedBefore(s, i, k, before);
    FilterThrice(before, s.sent[i + 1..], again, Asks(s.rel));
    if |s.sent| < SENT_MAX {
      FilterThrice(before, s.sent[i + 1..], again, Spares(s.rel));
      FilterAround(s.sent, i, Spares(s.rel));
    }
    if Older(s) { LeadingAfter(s, t, i, k, again); }
  }

  lemma SameBuffered(s: State, u: State, text: Text, fromOldest: bool)
    requires u.sent == s.sent
    ensures Buffered(u, text, fromOldest) == Buffered(s, text, fromOldest)
  {
  }

  lemma FirstOrNot(s: State, i: nat, k: nat)
    requires i < |s.sent| && Asked(s, s.sent[i]) && |Filter(s.sent[..i], Asks(s.rel))| == k
    ensures i == 0 <==> k == 0 && Asked(s, s.sent[0])
    ensures Leading(s) > 0 && k > 0 <==> |s.sent| >= SENT_MAX && i > 0 && Asked(s, s.sent[0])
  {
    if i > 0 { FilterTail(s.sent[..i], Asks(s.rel)); }
  }

  lemma WantedBefore(s: State, i: nat, k: nat, before: seq<Sent>)
    requires i < |s.sent| && Asked(s, s.sent[i]) && |Filter(s.sent[..i], Asks(s.rel))| == k < |Wanted(s)|
    requires before == if |s.sent| >= SENT_MAX && i > 0 then s.sent[1..i] else s.sent[..i]
    requires Wanted(s)[..k] == Filter(s.sent[..i], Asks(s.rel))
    ensures Filter(before, Asks(s.rel)) == if Leading(s) > 0 && k > 0 then Wanted(s)[1..k] else Wanted(s)[..k]
  {
    hide Filter, Leading;
    FirstOrNot(s, i, k);
    if |s.sent| >= SENT_MAX && i > 0 {
      FilterTail(s.sent[..i], Asks(s.rel));
      assert s.sent[..i][1..] == s.sent[1..i];
      if Asked(s, s.sent[0]) { assert Wanted(s)[..k][1..] == Wanted(s)[1..k]; }
    }
  }

  lemma FilterThrice(before: seq<Sent>, after: seq<Sent>, again: Sent, keep: Sent -> bool)
    ensures Filter(before + after + [again], keep) == Filter(before, keep) + Filter(after, keep) + (if keep(again) then [again] else [])
  {
    hide Filter;
    FilterConcat(before + after, [again], keep);
    FilterConcat(before, after, keep);
    if keep(again) { FilterAll([again], keep); } else { FilterNone([again], keep); }
  }

  lemma LeadingAfter(s: State, t: State, i: nat, k: nat, again: Sent)
    requires Serving(s) && i < |s.sent| && Asked(s, s.sent[i]) && |Filter(s.sent[..i], Asks(s.rel))| == k
    requires t.rel == s.rel && !Asked(s, again)
    requires t.sent == (if |s.sent| >= SENT_MAX && i > 0 then s.sent[1..i] else s.sent[..i]) + s.sent[i + 1..] + [again]
    ensures Leading(t) == NextLead(Leading(s), k)
  {
    FirstOrNot(s, i, k);
    hide Filter;
    if |s.sent| >= SENT_MAX && i == 0 {
      assert t.sent == s.sent[1..] + [again];
      AheadAppend(s.sent[1..], again, Asks(s.rel));
    }
  }

  lemma {:induction false} AheadAppend(s: seq<Sent>, e: Sent, keep: Sent -> bool)
    requires !keep(e)
    ensures Ahead(s + [e], keep) == Ahead(s, keep)
    decreases |s|
  {
    if s != [] && keep(s[0]) {
      assert (s + [e])[1..] == s[1..] + [e];
      AheadAppend(s[1..], e, keep);
    }
  }

  lemma AskedAgain(s: State, i: nat)
    requires Tags(s) && i < |s.sent| && Asked(s, s.sent[i])
    ensures Asked(s, Again(s, i)) <==> !Older(s)
  {
    assert s.sent[i] in s.sent;
  }

  // ----- all polls ----------------------------------------------------------------------------

  function Polls(s: State, envs: seq<Env>): (State, seq<EmitResult>)
    decreases |envs|
  {
    if envs == [] then (s, []) else
      var (t, r) := RelPoll(s, envs[0]);
      var (u, rs) := Polls(t, envs[1..]);
      (u, [r] + rs)
  }

  function PlanOf(s: State, gcm: bool): seq<(nat, Text)> {
    Plan(GuardsOf(s), Wanted(s), Leading(s), gcm, s.send.seqNo)
  }

  function PlanTags(root: Term, p: seq<(nat, Text)>): seq<Sent> {
    seq(|p|, i requires 0 <= i < |p| => Sent(GenOf(root), p[i].0, p[i].1))
  }

  predicate Carries(r: EmitResult, e: (nat, Text)) {
    r.Emitted? && r.frame.Data? && r.frame.box.Sealed? && r.frame.seqNo == e.0 && r.frame.box.text == e.1
  }

  // A request for an older generation: polls emit what is planned, and one more poll ends
  // the service. With a free slot the other texts stay, followed by the re-sent ones under
  // their new tags.
  lemma {:induction false} ServiceFollowsPlan(s: State, envs: seq<Env>, gcm: bool, last: Env)
    requires Serving(s) && Older(s) && |envs| == |PlanOf(s, gcm)|
    requires last.gcm == gcm && forall e | e in envs :: e.gcm == gcm
    ensures var (t, rs) := Polls(s, envs); var p := PlanOf(s, gcm);
            && |rs| == |p| && (forall i | 0 <= i < |p| :: Carries(rs[i], p[i]))
            && (var (u, r) := RelPoll(t, last); r == Nothing && u.sent == t.sent && u.rel == t.rel.(repPending := false))
            && (|s.sent| < SENT_MAX ==> Unwanted(t) == Unwanted(s) + PlanTags(s.root, p))
    decreases |envs|
  {
    hide RelPoll, Serving, Wanted, Unwanted, FirstFit, Remaining, NextLead, NextGuards, Leading, GuardsOf, PlanTags;
    var p := PlanOf(s, gcm);
    if envs == [] {
      PollStep(s, last);
      NoTags(s.root);
      assert Unwanted(s) + [] == Unwanted(s);
    } else {
      PollStep(s, envs[0]);
      assert envs[0] in envs;
      var t := RelPoll(s, envs[0]).0;
      assert PlanOf(t, gcm) == p[1..] by { OlderWanted(s, envs[0]); }
      ServiceFollowsPlan(t, envs[1..], gcm, last);
      assert Polls(s, envs).1[1..] == Polls(t, envs[1..]).1;
      if |s.sent| < SENT_MAX { FirstTag(s, FirstFit(GuardsOf(s), Wanted(s), gcm), p, Unwanted(s)); }
    }
  }

  lemma OlderWanted(s: State, env: Env)
    requires Serving(s) && Older(s)
    ensures var k := FirstFit(GuardsOf(s), Wanted(s), env.gcm);
            k < |Wanted(s)| ==> Wanted(RelPoll(s, env).0) == Remaining(Wanted(s), k, Leading(s))
  {
    hide RelPoll, Serving, Wanted, Unwanted, FirstFit, Remaining, NextLead, NextGuards, Leading, GuardsOf;
    PollStep(s, env);
  }

  lemma NoTags(root: Term)
    ensures PlanTags(root, []) == []
  {
  }

  lemma FirstTag(s: State, k: nat, p: seq<(nat, Text)>, kept: seq<Sent>)
    requires |s.sent| < SENT_MAX && k < |Wanted(s)| && p != [] && p[0] == (s.send.seqNo + k, Wanted(s)[k].text)
    ensures kept + PlanTags(s.root, p) == kept + [Retagged(s, k)] + PlanTags(s.root, p[1..])
  {
    assert PlanTags(s.root, p) == [Retagged(s, k)] + PlanTags(s.root, p[1..]);
  }

  // A request for an older generation gets every text it asks for, each once, exactly if
  // the plan leaves none out. While the automatic trigger does not fire and no text asked
  // for lies in the oldest slot of a full buffer, the condition has the form of Suffices.
  lemma AllResentIff(s: State, envs: seq<Env>, gcm: bool)
    requires Serving(s) && Older(s) && |envs| == |PlanOf(s, gcm)| && forall e | e in envs :: e.gcm == gcm
    ensures var g, ws, resent := GuardsOf(s), Wanted(s), TextsEmitted(Polls(s, envs).1);
            && (multiset(resent) == multiset(TextsOf(ws)) <==> AllFit(g, ws, Leading(s), gcm))
            && (Leading(s) == 0 && (NoTrigger(g, |ws|) || DueBy(g)) ==>
                  (multiset(resent) == multiset(TextsOf(ws)) <==> Suffices(g, ws, gcm)))
  {
    var g, ws, p := GuardsOf(s), Wanted(s), PlanOf(s, gcm);
    WantedInFrame(s);
    hide GuardsOf, Wanted, AllFit, Suffices, FirstFit, Serving, Polls;
    ServiceFollowsPlan(s, envs, gcm, Env(gcm, 0, 0, 0));
    AllSentIff(g, ws, Leading(s), gcm, s.send.seqNo);
    var resent := TextsEmitted(Polls(s, envs).1);
    assert resent == PlannedTexts(p);
    if multiset(resent) == multiset(TextsOf(ws)) {
      assert |multiset(resent)| == |multiset(TextsOf(ws))|;
    }
    if Leading(s) == 0 && (NoTrigger(g, |ws|) || DueBy(g)) { AllFitIff(g, ws, gcm); }
  }

  function TextsEmitted(rs: seq<EmitResult>): seq<Text> {
    seq(|rs|, i requires 0 <= i < |rs| =>
      if rs[i].Emitted? && rs[i].frame.Data? && rs[i].frame.box.Sealed? then rs[i].frame.box.text else "")
  }

  lemma WantedInFrame(s: State)
    requires Serving(s)
    ensures InFrame(Wanted(s)) && |Wanted(s)| <= SENT_MAX
  {
    forall e | e in Wanted(s) ensures e in s.sent { FilterMembers(s.sent, Asks(s.rel), e); }
  }

  // ----- when the service ends ----------------------------------------------------------------

  // The state before poll number k.
  function Polled(s: State, draws: nat -> Env, k: nat): State {
    if k == 0 then s else RelPoll(Polled(s, draws, k - 1), draws(k - 1)).0
  }

  // A request for the current generation: every poll re-emits, for ever.
  lemma {:induction false} NeverEnds(s: State, draws: nat -> Env, k: nat)
    requires Serving(s) && Brief(Wanted(s)) && Wanted(s) != [] && !Older(s)
    ensures var t := Polled(s, draws, k);
            && Serving(t) && Brief(Wanted(t)) && Wanted(t) != [] && !Older(t)
            && RelPoll(t, draws(k)).1.Emitted?
  {
    hide RelPoll, Serving, Wanted, Brief;
    if k > 0 {
      NeverEnds(s, draws, k - 1);
      PollBrief(Polled(s, draws, k - 1), draws(k - 1));
    }
    PollBrief(Polled(s, draws, k), draws(k));
  }

  lemma PollBrief(s: State, env: Env)
    requires Serving(s) && Brief(Wanted(s)) && Wanted(s) != [] && !Older(s)
    ensures var (t, r) := RelPoll(s, env); r.Emitted? && Serving(t) && Brief(Wanted(t)) && Wanted(t) != [] && !Older(t)
  {
    hide RelPoll, Serving, Wanted, GuardsOf, FirstFit, Leading;
    PollStep(s, env);
    BriefFits(GuardsOf(s), Wanted(s), env.gcm);
    var ws, t := Wanted(s), RelPoll(s, env).0;
    assert Remaining(ws, 0, Leading(s)) == ws[1..];
    assert ws[0] in ws;
    BufferedLength(s, ws[0].text, s.sent != [] && Asked(s, s.sent[0]));
    forall e | e in Wanted(t) ensures |e.text| <= 129 { assert e in ws || e == Retagged(s, 0); }
  }

  // A request for an older generation: each poll that emits leaves fewer texts to send.
  lemma {:induction false} OlderEnds(s: State, draws: nat -> Env, j: nat) returns (k: nat)
    requires Serving(Polled(s, draws, j)) && Older(Polled(s, draws, j))
    ensures !RelPoll(Polled(s, draws, k), draws(k)).1.Emitted?
    decreases |Wanted(Polled(s, draws, j))|
  {
    hide RelPoll, Serving, Wanted, GuardsOf, FirstFit, Leading, Remaining;
    k := j;
    if RelPoll(Polled(s, draws, j), draws(j)).1.Emitted? {
      PollStep(Polled(s, draws, j), draws(j));
      k := OlderEnds(s, draws, j + 1);
    }
  }

  // The service of a request for an older generation always ends. One for the current
  // generation, of texts that fit beside any header, ends exactly if none of them is
  // buffered.
  lemma ServiceEndsIff(s: State, draws: nat -> Env)
    requires Serving(s) && (Older(s) || Brief(Wanted(s)))
    ensures (exists k: nat :: !RelPoll(Polled(s, draws, k), draws(k)).1.Emitted?) <==> Older(s) || Wanted(s) == []
  {
    hide RelPoll, Serving, Wanted, Brief, GuardsOf;
    if Older(s) {
      var k := OlderEnds(s, draws, 0);
    } else if Wanted(s) == [] {
      PollStep(s, draws(0));
      assert !RelPoll(Polled(s, draws, 0), draws(0)).1.Emitted?;
    } else {
      forall k: nat ensures RelPoll(Polled(s, draws, k), draws(k)).1.Emitted? { NeverEnds(s, draws, k); }
    }
  }

  // ----- a full buffer --------------------------------------------------------------------------

  // Without a free slot, a re-sent text that lay in the oldest slot is buffered again as
  // zeros: that slot is wiped to make room before the text is copied out of it. Exactly
  // then would a second re-send deliver something else.
  lemma ResentTextKept(s: State, i: nat, env: Env)
    requires s.active && !s.lossy && |s.sent| <= SENT_MAX && i < |s.sent| && FitsNow(s, s.sent[i].text, env)
    ensures var e := s.sent[i]; var (t, r) := EmitFrame(s, e.text, i == 0, false, env);
            && r.Emitted? && r.frame.box.Sealed? && r.frame.box.text == e.text
            && t.sent[|t.sent| - 1].seqNo == s.send.seqNo
            && (t.sent[|t.sent| - 1].text == e.text <==>
                  i > 0 || |s.sent| < SENT_MAX || e.text == Zeros(|e.text|))
  {
    FittingEmits(s, s.sent[i].text, i == 0, env);
    hide EmitFrame;
  }
}
