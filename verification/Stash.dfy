/**
 Texts sent before the session is up (src/session.c:868-884, 920-930): over every life of a
 session, re-establishments included, the texts that were taken for later are exactly those
 that flushes have sealed, in the order in which they were sent, and those that still wait.
 */
module Stashes {
  import opened Limits
  import opened Options
  import opened Symbolic
  import opened Ratchets
  import opened SentRings
  import opened Sessions
  import opened Receiving
  import opened Recoveries
  import opened Emissions

  // The text that a call of tt_session_send takes without sealing it: it returns no frame
  // and no failure.
  function Taken(s: State, e: Event): seq<Text> {
    match e
    case Within(SendCall(text), env) =>
      if text != "" && SendText(s, text, env).1 == Nothing then [text] else []
    case _ => []
  }

  // The text that a flush seals.
  function Sealed(s: State, e: Event): seq<Text> {
    match e
    case Within(FlushCall, env) =>
      var r := Flush(s, env).1;
      if r.Emitted? && r.frame.Data? && r.frame.box.Sealed? then [r.frame.box.text] else []
    case _ => []
  }

  function AllTaken(s: State, events: seq<Event>): seq<Text> {
    if events == [] then [] else
      var before, last := events[..|events| - 1], events[|events| - 1];
      AllTaken(s, before) + Taken(Life(s, before), last)
  }

  function AllSealed(s: State, events: seq<Event>): seq<Text> {
    if events == [] then [] else
      var before, last := events[..|events| - 1], events[|events| - 1];
      AllSealed(s, before) + Sealed(Life(s, before), last)
  }

  lemma EmitKeepsStash(s: State, text: Text, fromOldest: bool, carrierOnly: bool, env: Env)
    ensures var (t, r) := EmitFrame(s, text, fromOldest, carrierOnly, env);
            && t.pending == s.pending && r != Nothing
            && (r.Emitted? ==> r.frame.Data? && r.frame.box.Sealed? && r.frame.box.text == text)
  {
    hide HeaderFor, AddSent, Buffered, KeyAt, StepChain, Fold;
  }

  lemma {:induction false} ResendKeepsStash(s: State, r: nat, env: Env)
    ensures Resend(s, r, env).0.pending == s.pending
    decreases |s.sent| - r
  {
    hide EmitFrame, RemoveSent;
    if r < |s.sent| {
      if Asked(s, s.sent[r]) {
        EmitKeepsStash(s, s.sent[r].text, r == 0, false, env);
        var (t, result) := EmitFrame(s, s.sent[r].text, r == 0, false, env);
        if !result.Emitted? { ResendKeepsStash(t, r + 1, env); }
      } else {
        ResendKeepsStash(s, r + 1, env);
      }
    }
  }

  lemma FeedKeepsStash(s: State, f: Frame, env: Env)
    ensures Feed(s, f, env).0.pending == s.pending
  {
    hide FindSkipped, AddSkipped, RemoveAt, Commit, KeyAt, Open, AckSent;
  }

  // What waits and what is taken now is what is sealed now and what waits then.
  lemma EventKeepsStash(s: State, e: Event)
    ensures s.pending + Taken(s, e) == Sealed(s, e) + After(s, e).pending
  {
    hide EmitFrame, Resend, Feed;
    match e
    case Within(c, env) =>
      match c {
        case FeedCall(f) => FeedKeepsStash(s, f, env);
        case SendCall(text) => EmitKeepsStash(s, text, false, false, env);
        case DatagramCall(text) => EmitKeepsStash(s, text, false, false, env);
        case CarrierCall => EmitKeepsStash(s, "", false, true, env);
        case FlushCall => if s.pending != [] { EmitKeepsStash(s, s.pending[0], false, false, env); }
        case PollCall => ResendKeepsStash(s, 0, env);
        case _ =>
      }
    case _ =>
  }

  lemma {:induction false} LifeKeepsStash(s: State, events: seq<Event>)
    ensures s.pending + AllTaken(s, events) == AllSealed(s, events) + Life(s, events).pending
  {
    hide Taken, Sealed, After;
    if events != [] {
      var before, last := events[..|events| - 1], events[|events| - 1];
      LifeKeepsStash(s, before);
      EventKeepsStash(Life(s, before), last);
      Regroup(s.pending, AllTaken(s, before), Taken(Life(s, before), last),
              AllSealed(s, before), Life(s, before).pending, Sealed(Life(s, before), last), Life(s, events).pending);
    }
  }

  lemma Regroup(p: seq<Text>, a: seq<Text>, b: seq<Text>, c: seq<Text>, q: seq<Text>, d: seq<Text>, r: seq<Text>)
    requires p + a == c + q && q + b == d + r
    ensures p + (a + b) == (c + d) + r
  {
    assert p + (a + b) == (p + a) + b;
    assert (c + q) + b == c + (q + b);
    assert c + (d + r) == (c + d) + r;
  }

  // Nothing is taken twice, lost or overtaken.
  lemma StashedInOrder(lossy: bool, events: seq<Event>)
    ensures var s := Initial(lossy);
            AllTaken(s, events) == AllSealed(s, events) + Life(s, events).pending
  {
    hide AllTaken, AllSealed, Life;
    LifeKeepsStash(Initial(lossy), events);
    assert Initial(lossy).pending == [];
    assert [] + AllTaken(Initial(lossy), events) == AllTaken(Initial(lossy), events);
  }

  // ----- a flush gets them out ------------------------------------------------------------------

  // A flush seals the oldest text exactly if it fits beside the header that is due.
  lemma FlushEmitsIff(s: State, env: Env)
    requires s.active && s.rekey.carrier.None? && s.pending != [] && |s.pending[0]| <= DATA_MAX
    ensures var (t, r) := Flush(s, env);
            && (r.Emitted? <==> |s.pending[0]| <= Capacity(BranchOf(s), env.gcm))
            && (if r.Emitted? then
                  r.frame.Data? && r.frame.box.Sealed? && r.frame.box.text == s.pending[0] && t.pending == s.pending[1..]
                else r == Failed(BadState) && t.pending == s.pending)
  {
    EmissionNeedsRoom(s, s.pending[0], env);
    EmitKeepsStash(s, s.pending[0], false, false, env);
    hide EmitFrame;
  }

  // A payload is not parked.
  lemma FlushPlain(s: State, env: Env)
    requires s.active
    ensures var t := Flush(s, env).0;
            t.active && t.lossy == s.lossy && (s.rekey.carrier.None? ==> t.rekey.carrier.None?)
  {
    hide AddSent, Buffered, KeyAt, StepChain, Fold, PickHeader;
    PickKeepsCarrier(Due(s), env);
  }

  lemma PickKeepsCarrier(k: Rekeying, env: Env)
    ensures PickHeader(k, env).0.carrier == k.carrier
  {
  }

  function FlushAll(s: State, envs: seq<Env>): seq<Text>
    decreases |envs|
  {
    if envs == [] then [] else Sealed(s, Within(FlushCall, envs[0])) + FlushAll(Flush(s, envs[0]).0, envs[1..])
  }

  // As many flushes as texts that fit beside any header seal them all, in order.
  lemma {:induction false} FlushesDrain(s: State, envs: seq<Env>)
    requires s.active && s.rekey.carrier.None? && |envs| == |s.pending|
    requires forall text | text in s.pending :: |text| <= 129
    ensures FlushAll(s, envs) == s.pending
    decreases |envs|
  {
    hide Flush;
    if envs != [] {
      assert s.pending[0] in s.pending;
      assert Capacity(BranchOf(s), envs[0].gcm) >= 129;
      FlushEmitsIff(s, envs[0]);
      FlushPlain(s, envs[0]);
      var t := Flush(s, envs[0]).0;
      assert forall text | text in t.pending :: text in s.pending;
      FlushesDrain(t, envs[1..]);
      assert s.pending == [s.pending[0]] + s.pending[1..];
    }
  }
}
