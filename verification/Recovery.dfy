/**
 Re-establishment and recovery (src/session.c:151-166, 278-307, 520-542, 570-582,
 924-1018): the buffer of sent texts and the recovery state outlive the session they
 belong to. Over every life of a session, re-establishments under fresh roots included,
 the tags of buffered texts stay distinct; and after a re-establishment a failed decrypt
 is made good, as the peer re-sends exactly the texts from the failed number on.
 */
module Recoveries {
  import opened Limits
  import opened Options
  import opened Symbolic
  import opened Ratchets
  import opened SentRings
  import opened Sessions
  import opened Receiving
  import opened Emissions
  import opened ResendPlans
  import opened Resending

  // ----- the life of a session ----------------------------------------------------------------

  datatype Event =
    | Within(c: Call, env: Env) | Restart | Establish(root: Term, initiator: bool, eph: nat, kem: nat)

  const NoRatchet := Ratchet(Seed(0), 0, Seed(0), 0, [])
  const NoKeys := Rekeying(0, false, 0, false, 0, SmallOrder(0), false, false, false, false, false, None)

  // reestablish_preserve: everything is cleared but the stash, the recovery state and the
  // kind of session.
  function Cleared(s: State): State {
    State(false, s.lossy, Seed(0), NoRatchet, NoRatchet, NoKeys, s.sent, s.rel, s.pending)
  }

  // establish, on a session that was cleared before
  function Establishes(s: State, root: Term, initiator: bool, eph: nat, kem: nat): State {
    Established(root, initiator, s.lossy, eph, kem).(sent := s.sent, rel := s.rel, pending := s.pending)
  }

  function After(s: State, e: Event): State {
    match e
    case Within(c, env) => Step(s, c, env)
    case Restart => Cleared(s)
    case Establish(root, initiator, eph, kem) => if s.active then s else Establishes(s, root, initiator, eph, kem)
  }

  // tt_session_init, with the kind of session set
  function Initial(lossy: bool): State {
    Cleared(Established(Seed(0), false, lossy, 0, 0))
  }

  function Life(s: State, events: seq<Event>): State {
    if events == [] then s else After(Life(s, events[..|events| - 1]), events[|events| - 1])
  }

  function Used(events: seq<Event>): set<Term> { set e | e in events && e.Establish? :: e.root }

  // Every handshake yields another root.
  predicate FreshRoots(events: seq<Event>) {
    events == [] || (var before, last := events[..|events| - 1], events[|events| - 1];
                     FreshRoots(before) && (last.Establish? ==> last.root !in Used(before)))
  }

  // ----- the buffer over a life ---------------------------------------------------------------

  predicate Entry(e: Sent, used: set<Term>) {
    |e.text| <= DATA_MAX && e.gen.Derived? && e.gen.tag == Generation && e.gen.root in used
  }

  predicate Stash(texts: seq<Text>) { forall text | text in texts :: |text| <= DATA_MAX }

  // An established session, and what it has buffered.
  ghost predicate Sound(s: State, used: set<Term>) {
    && |s.sent| <= SENT_MAX && Tags(s) && s.root in used && Stash(s.pending)
    && (forall e | e in s.sent :: Entry(e, used))
  }

  // A session that may be waiting for its handshake.
  ghost predicate Preserved(s: State, used: set<Term>) {
    && |s.sent| <= SENT_MAX && DistinctTags(s.sent) && Stash(s.pending)
    && (forall e | e in s.sent :: Entry(e, used))
    && (s.active ==> Sound(s, used))
  }

  lemma {:induction false} FilterDistinct(s: seq<Sent>, keep: Sent -> bool)
    requires DistinctTags(s)
    ensures DistinctTags(Filter(s, keep))
  {
    if s != [] {
      var before, last := s[..|s| - 1], s[|s| - 1];
      FilterDistinct(before, keep);
      var t := Filter(before, keep);
      forall i | 0 <= i < |t| && keep(last) && t[i].gen == last.gen ensures t[i].seqNo != last.seqNo {
        FilterMembers(before, keep, t[i]);
        var k :| 0 <= k < |before| && before[k] == t[i];
        assert s[k] == t[i];
      }
    }
  }

  lemma FilterSound(s: State, t: State, keep: Sent -> bool, used: set<Term>)
    requires Sound(s, used) && t.root == s.root && t.send.seqNo >= s.send.seqNo && t.pending == s.pending
    requires t.sent == Filter(s.sent, keep)
    ensures Sound(t, used)
  {
    FilterDistinct(s.sent, keep);
    forall e | e in t.sent ensures e in s.sent { FilterMembers(s.sent, keep, e); }
  }

  lemma AddSound(s: State, t: State, text: Text, used: set<Term>)
    requires Sound(s, used) && t.root == s.root && t.send.seqNo == s.send.seqNo + 1 && t.pending == s.pending
    requires |text| <= DATA_MAX && t.sent == AddSent(s.sent, Sent(GenOf(s.root), s.send.seqNo, text))
    ensures Sound(t, used)
  {
    var n := |t.sent| - 1;
    forall k | 0 <= k < n ensures t.sent[k] in s.sent && t.sent[k] == s.sent[if |s.sent| >= SENT_MAX then k + 1 else k] {}
    forall e | e in t.sent ensures e in s.sent || e == t.sent[n] {}
  }

  lemma SameSound(s: State, t: State, used: set<Term>)
    requires Sound(s, used) && t.root == s.root && t.sent == s.sent && t.send.seqNo >= s.send.seqNo
    requires t.pending == s.pending || (s.pending != [] && t.pending == s.pending[1..])
    ensures Sound(t, used)
  {
  }

  lemma EmitSound(s: State, text: Text, fromOldest: bool, carrierOnly: bool, env: Env, used: set<Term>)
    requires Sound(s, used) && |text| <= DATA_MAX
    ensures var t := EmitFrame(s, text, fromOldest, carrierOnly, env).0;
            Sound(t, used) && t.root == s.root && t.pending == s.pending && t.active == s.active
  {
    hide HeaderFor, AddSent, Sound;
    var (t, r) := EmitFrame(s, text, fromOldest, carrierOnly, env);
    if r.Emitted? && !s.lossy {
      BufferedLength(s, text, fromOldest);
      AddSound(s, t, Buffered(s, text, fromOldest), used);
    } else {
      SameSound(s, t, used);
    }
  }

  lemma {:induction false} ResendSound(s: State, r: nat, env: Env, used: set<Term>)
    requires Sound(s, used)
    ensures var t := Resend(s, r, env).0; Sound(t, used) && t.active == s.active
    decreases |s.sent| - r
  {
    hide EmitFrame, Sound, Filter, Entry;
    if r < |s.sent| {
      if Asked(s, s.sent[r]) {
        var e := s.sent[r];
        assert |e.text| <= DATA_MAX by { assert e in s.sent; SoundEntry(s, e, used); }
        EmitSound(s, e.text, r == 0, false, env, used);
        var (t, result) := EmitFrame(s, e.text, r == 0, false, env);
        if result.Emitted? {
          FilterSound(t, t.(sent := RemoveSent(t.sent, e.gen, e.seqNo)), x => !Tagged(x, e.gen, e.seqNo), used);
        } else {
          ResendSound(t, r + 1, env, used);
        }
      } else {
        ResendSound(s, r + 1, env, used);
      }
    } else {
      SameSound(s, Resend(s, r, env).0, used);
    }
  }

  lemma SoundEntry(s: State, e: Sent, used: set<Term>)
    requires Sound(s, used) && e in s.sent
    ensures Entry(e, used)
  {
  }

  lemma FeedSound(s: State, f: Frame, env: Env, used: set<Term>)
    requires Sound(s, used)
    ensures var t := Feed(s, f, env).0; Sound(t, used) && t.active == s.active
  {
    hide Sound, Filter, FindSkipped, AddSkipped, RemoveAt, Commit, KeyAt, Open;
    var t := Feed(s, f, env).0;
    if s.active && f.Control? && !s.lossy && f.key == CtlKey(s.root) && f.note.AckNote? {
      FilterSound(s, t, e => !Acked(e, f.note.gen, f.note.acked), used);
    } else {
      SameSound(s, t, used);
    }
  }

  lemma SoundStash(s: State, used: set<Term>)
    requires Sound(s, used)
    ensures Stash(s.pending)
  {
  }

  lemma StepSound(s: State, c: Call, env: Env, used: set<Term>)
    requires Sound(s, used) && s.active
    ensures Sound(Step(s, c, env), used) && Step(s, c, env).active
  {
    hide Sound, EmitFrame, Feed;
    match c
    case FeedCall(f) => FeedSound(s, f, env, used);
    case SendCall(text) => if |text| <= DATA_MAX { EmitSound(s, text, false, false, env, used); }
    case DatagramCall(text) => if |text| <= DATA_MAX { EmitSound(s, text, false, false, env, used); }
    case CarrierCall => EmitSound(s, "", false, true, env, used);
    case CarrierDoneCall => SameSound(s, CarrierDone(s), used);
    case ForceCall => SameSound(s, ForceRekey(s), used);
    case FlushCall =>
      if s.pending != [] {
        SoundStash(s, used);
        EmitSound(s, s.pending[0], false, false, env, used);
        var t := EmitFrame(s, s.pending[0], false, false, env).0;
        SameSound(t, t.(pending := t.pending[1..]), used);
      }
    case PollCall =>
      ResendSound(s, 0, env, used);
      SameSound(s, s.(rel := s.rel.(reqPending := false)), used);
      SameSound(s, s.(rel := s.rel.(ackDue := false)), used);
  }

  // While the handshake runs, the buffer rests and texts are stashed.
  lemma StepWaits(s: State, c: Call, env: Env)
    requires !s.active && Stash(s.pending)
    ensures var t := Step(s, c, env); !t.active && t.sent == s.sent && Stash(t.pending)
  {
  }

  lemma UsedMore(events: seq<Event>)
    requires events != []
    ensures var before, last := events[..|events| - 1], events[|events| - 1];
            Used(events) == Used(before) + if last.Establish? then {last.root} else {}
  {
    var before, last := events[..|events| - 1], events[|events| - 1];
    assert events == before + [last];
  }

  lemma AfterPreserves(s: State, e: Event, used: set<Term>)
    requires Preserved(s, used) && (e.Establish? ==> e.root !in used)
    ensures Preserved(After(s, e), used + if e.Establish? then {e.root} else {})
  {
    match e
    case Within(c, env) =>
      if s.active {
        StepSound(s, c, env, used);
      } else {
        StepWaits(s, c, env);
      }
      assert used + {} == used;
      hide Step;
    case Restart =>
      assert used + {} == used;
    case Establish(root, initiator, eph, kem) =>
  }

  // Whatever a session has been through, re-establishments included, no two of its buffered
  // texts have the same tag, and those of its own generation are behind its next number.
  lemma {:induction false} LifeKeepsTags(lossy: bool, events: seq<Event>)
    requires FreshRoots(events)
    ensures var s := Life(Initial(lossy), events);
            Preserved(s, Used(events)) && (s.active ==> Tags(s))
  {
    hide After, Sound, Preserved;
    if events == [] {
      assert Preserved(Initial(lossy), {}) by { InitialPreserved(lossy); }
      assert Used(events) == {};
    } else {
      var before, last := events[..|events| - 1], events[|events| - 1];
      LifeKeepsTags(lossy, before);
      UsedMore(events);
      AfterPreserves(Life(Initial(lossy), before), last, Used(before));
    }
    PreservedTags(Life(Initial(lossy), events), Used(events));
  }

  lemma InitialPreserved(lossy: bool)
    ensures Preserved(Initial(lossy), {})
  {
  }

  lemma PreservedTags(s: State, used: set<Term>)
    requires Preserved(s, used)
    ensures s.active ==> Tags(s)
  {
  }

  // ----- a request for the current generation -------------------------------------------------

  // What a failed decrypt asks for, if it is polled before anything else happens: the
  // current generation, from the next expected number on.
  lemma FailureAsks(s: State, f: Frame, env: Env, later: Env)
    requires s.active && !s.lossy && f.Data? && !f.hdr.Malformed? && Feed(s, f, env).1 == Rejected(DecodeFail)
    ensures var t := Feed(s, f, env).0;
            && t.rel == s.rel.(reqPending := true, reqGen := GenOf(s.root), reqFrom := s.recv.seqNo)
            && t.root == s.root && t.active && !t.lossy
            && RelPoll(t, later).1 == Emitted(Control(CtlKey(s.root), ResendNote(GenOf(s.root), s.recv.seqNo)))
  {
    hide Accept, Commit, AddSkipped, RemoveAt, KeyAt, AckSent, Open;
  }

  // One text whose frame is corrupted on the way, the request of the receiver, and the
  // sender re-sends that text for ever.
  lemma CorruptedFrameLoops(root: Term, a: Env, b: Env, env: Env, draws: nat -> Env, k: nat)
    ensures var x, y := Established(root, true, false, a.eph, a.kem), Established(root, false, false, b.eph, b.kem);
            var (x1, sent) := SendText(x, "a", env);
            && sent.Emitted? && sent.frame.Data?
            && var y1 := Feed(y, sent.frame.(box := Garbage(0)), env).0;
               var ask := RelPoll(y1, env).1;
               && ask.Emitted?
               && var x2 := Feed(x1, ask.frame, env).0;
                  Serving(x2) && !Older(x2) && RelPoll(Polled(x2, draws, k), draws(k)).1.Emitted?
  {
    var x, y := Established(root, true, false, a.eph, a.kem), Established(root, false, false, b.eph, b.kem);
    var (x1, sent) := SendText(x, "a", env);
    var e := Sent(GenOf(root), 1, "a");
    assert sent.Emitted? && sent.frame.Data? && !sent.frame.hdr.Malformed? && sent.frame.seqNo == 1 && x1.sent == [e] by { FirstText(root, a, "a", env); }
    var bad := sent.frame.(box := Garbage(0));
    FailureAsks(y, bad, env, env);
    var x2 := Feed(x1, RelPoll(Feed(y, bad, env).0, env).1.frame, env).0;
    OnlyOne(x2, e);
    assert Serving(x2) && !Older(x2);
    NeverEnds(x2, draws, k);
  }

  lemma FirstText(root: Term, a: Env, text: Text, env: Env)
    requires |text| <= DATA_MAX
    ensures var x := Established(root, true, false, a.eph, a.kem);
            var (t, r) := SendText(x, text, env);
            && r.Emitted? && r.frame.Data? && r.frame.hdr == Plain && r.frame.seqNo == 1
            && t.sent == [Sent(GenOf(root), 1, text)] && t.root == root && t.send.seqNo == 2
            && t.active && !t.lossy && t.rel == x.rel && t.pending == []
  {
  }

  // ----- a request for an older generation ----------------------------------------------------

  // The shortest life in which such a request asks for something.
  function OlderLife(first: Term, second: Term, env: Env): seq<Event> {
    [Establish(first, true, 0, 0), Within(SendCall("a"), env), Restart, Establish(second, true, 0, 0),
     Within(FeedCall(Control(CtlKey(second), ResendNote(GenOf(first), 1))), env)]
  }

  lemma OlderReached(first: Term, second: Term, env: Env)
    requires first != second
    ensures var events := OlderLife(first, second, env); var s := Life(Initial(false), events);
            FreshRoots(events) && Serving(s) && Older(s) && Wanted(s) == [Sent(GenOf(first), 1, "a")]
  {
    hide SendText, Feed, Life, FreshRoots;
    var e, s := OlderLife(first, second, env), Initial(false);
    OlderFresh(first, second, env);
    LifeFive(s, e[0], e[1], e[2], e[3], e[4]);
    var s1 := Establishes(s, first, true, 0, 0);
    FirstText(first, Env(false, 0, 0, 0), "a", env);
    assert s1 == Established(first, true, false, 0, 0);
    var s3 := Establishes(Cleared(SendText(s1, "a", env).0), second, true, 0, 0);
    Hears(s3, e[4].c.f, env);
    OnlyOne(Feed(s3, e[4].c.f, env).0, Sent(GenOf(first), 1, "a"));
  }

  lemma OlderFresh(first: Term, second: Term, env: Env)
    requires first != second
    ensures FreshRoots(OlderLife(first, second, env))
  {
    var e := OlderLife(first, second, env);
    var none: seq<Event> := [];
    assert FreshRoots(none) && first !in Used(none);
    assert e[..1][..0] == none && e[..1][0] == e[0];
    assert FreshRoots(e[..1]);
    assert e[..2][..1] == e[..1] && FreshRoots(e[..2]);
    assert e[..3][..2] == e[..2] && FreshRoots(e[..3]);
    forall x | x in e[..3] && x.Establish? ensures x.root == first { assert x in [e[0], e[1], e[2]]; }
    assert e[..4][..3] == e[..3] && FreshRoots(e[..4]);
  }

  lemma LifeFive(s: State, a: Event, b: Event, c: Event, d: Event, e: Event)
    ensures Life(s, [a, b, c, d, e]) == After(After(After(After(After(s, a), b), c), d), e)
  {
    hide After;
    assert [a, b, c, d, e][..4] == [a, b, c, d] && [a, b, c, d][..3] == [a, b, c];
    assert [a, b, c][..2] == [a, b] && [a, b][..1] == [a] && [a][..0] == [];
    assert Life(s, [a]) == After(Life(s, []), a);
    assert Life(s, [a, b]) == After(Life(s, [a]), b);
    assert Life(s, [a, b, c]) == After(Life(s, [a, b]), c);
  }

  lemma OnlyOne(s: State, e: Sent)
    requires s.sent == [e] && Asked(s, e)
    ensures Wanted(s) == [e]
  {
    assert [e][..0] == [];
  }

  // The frame that is next in its direction.
  lemma FeedNext(y: State, text: Text, env: Env)
    requires y.active
    ensures var (t, r) := Feed(y, Seal(MsgKey(y.recv.chain), y.recv.seqNo, Plain, text), env);
            && r == Delivered(text) && t.active
            && t.recv.chain == NextChain(y.recv.chain) && t.recv.seqNo == y.recv.seqNo + 1
  {
    assert ChainAt(y.recv.chain, 0) == y.recv.chain;
  }

  // What the peer makes of the frames that polls emit.
  function FeedAll(y: State, emitted: seq<EmitResult>, env: Env): seq<FeedResult>
    decreases |emitted|
  {
    if emitted == [] || !emitted[0].Emitted? then [] else
      var (t, r) := Feed(y, emitted[0].frame, env);
      [r] + FeedAll(t, emitted[1..], env)
  }

  function Heard(s: seq<Sent>): seq<FeedResult> { seq(|s|, i requires 0 <= i < |s| => Delivered(s[i].text)) }

  // While no header is due, polls emit the texts asked for in order, and a peer that is in
  // step hears them.
  lemma {:induction false} Catches(s: State, y: State, envs: seq<Env>, env: Env)
    requires Serving(s) && (Wanted(s) != [] ==> Older(s)) && |envs| == |Wanted(s)| && Silent(GuardsOf(s), |envs|)
    requires y.active && y.recv.chain == s.send.chain && y.recv.seqNo == s.send.seqNo
    ensures FeedAll(y, Polls(s, envs).1, env) == Heard(Wanted(s))
    ensures RelPoll(Polls(s, envs).0, env).1 == Nothing
    decreases |envs|
  {
    hide RelPoll, Feed, Serving, Wanted, GuardsOf, Silent;
    if envs == [] {
      PollStep(s, env);
    } else {
      var first := Wanted(s)[0];
      SilentPoll(s, envs[0], |envs|);
      FeedNext(y, first.text, env);
      var t := RelPoll(s, envs[0]).0;
      Catches(t, Feed(y, Seal(MsgKey(s.send.chain), s.send.seqNo, Plain, first.text), env).0, envs[1..], env);
      assert Heard(Wanted(s)) == [Delivered(first.text)] + Heard(Wanted(t));
      assert Polls(s, envs).1[1..] == Polls(t, envs[1..]).1;
    }
  }

  lemma SilentPoll(s: State, env: Env, n: nat)
    requires Serving(s) && Wanted(s) != [] && Older(s) && n > 0 && Silent(GuardsOf(s), n)
    ensures var (t, r) := RelPoll(s, env);
            && r == Emitted(Seal(MsgKey(s.send.chain), s.send.seqNo, Plain, Wanted(s)[0].text))
            && Serving(t) && Older(t) && Wanted(t) == Wanted(s)[1..] && Silent(GuardsOf(t), n - 1)
            && t.send.chain == NextChain(s.send.chain) && t.send.seqNo == s.send.seqNo + 1
  {
    hide RelPoll, Serving, Wanted, GuardsOf, FirstFit, Silent, AfterFrame, Leading, ChainAt;
    SilentStays(GuardsOf(s), n);
    SilentFirst(s, env);
    PollStep(s, env);
    ChainEnds(s.send.chain);
    assert Remaining(Wanted(s), 0, Leading(s)) == Wanted(s)[1..];
  }

  lemma ChainEnds(c: Term)
    ensures ChainAt(c, 0) == c && ChainAt(c, 1) == NextChain(c)
  {
  }

  lemma SilentFirst(s: State, env: Env)
    requires Serving(s) && Wanted(s) != [] && BranchBy(GuardsOf(s)) == NoHeader
    ensures FirstFit(GuardsOf(s), Wanted(s), env.gcm) == 0 && BranchAfter(GuardsOf(s), 0) == NoHeader
    ensures Tried(GuardsOf(s), 0) == GuardsOf(s)
  {
    WantedInFrame(s);
    assert Wanted(s)[0] in Wanted(s);
  }

  // What a session has buffered under generation gen from number n on.
  function From(sent: seq<Sent>, gen: Term, n: nat): seq<Sent> {
    Filter(sent, Asks(NoRecovery.(repGen := gen, repFrom := n)))
  }

  const NoRecovery := Recovery(0, false, false, Seed(0), 0, false, Seed(0), 0)

  // A session y, any frame that it fails to decrypt, and its peer x in any state that a life
  // can reach. Both re-establish under a fresh root; y polls its request, x hears it and is
  // polled; if x has a request of its own pending, that goes out first. Then y hears, in
  // order and each once, exactly the texts that x had buffered under y's old generation from
  // y's next number on, and the service ends.
  lemma RecoveryDelivers(x: State, y: State, f: Frame, used: set<Term>, root: Term, initiator: bool, a: Env, b: Env, envs: seq<Env>, env: Env)
    requires Preserved(x, used) && root !in used && !x.lossy
    requires y.active && !y.lossy && f.Data? && !f.hdr.Malformed? && Feed(y, f, env).1 == Rejected(DecodeFail)
    requires |envs| == |From(x.sent, GenOf(y.root), y.recv.seqNo)| + if x.rel.reqPending then 1 else 0
    ensures var x1 := Establishes(Cleared(x), root, initiator, a.eph, a.kem);
            var y1 := Establishes(Cleared(Feed(y, f, env).0), root, !initiator, b.eph, b.kem);
            var (y2, ask) := RelPoll(y1, env);
            && ask.Emitted?
            && var x2 := Feed(x1, ask.frame, env).0;
               var (x3, emitted) := Polls(x2, envs);
               && FeedAll(y2, emitted, env)
                  == (if x.rel.reqPending then [Delivered("")] else []) + Heard(From(x.sent, GenOf(y.root), y.recv.seqNo))
               && RelPoll(x3, env).1 == Nothing
  {
    hide Feed, FeedAll, Filter, Tags, Silent, GuardsOf;
    FailureAsks(y, f, env, env);
    var x1 := Establishes(Cleared(x), root, initiator, a.eph, a.kem);
    var y1 := Establishes(Cleared(Feed(y, f, env).0), root, !initiator, b.eph, b.kem);
    var y2 := RelPoll(y1, env).0;
    var note := ResendNote(GenOf(y.root), y.recv.seqNo);
    Hears(x1, Control(CtlKey(root), note), env);
    var x2 := Feed(x1, Control(CtlKey(root), note), env).0;
    var x2' := x2.(rel := x2.rel.(reqPending := false));
    FreshServes(x, x1, x2', used, root);
    assert Wanted(x2') == From(x.sent, GenOf(y.root), y.recv.seqNo) by { SameAsks(x2'.rel, NoRecovery.(repGen := GenOf(y.root), repFrom := y.recv.seqNo), x.sent); }
    if x.rel.reqPending {
      OwnRequest(x2, y2, envs, env);
      var own := Control(CtlKey(root), ResendNote(x.rel.reqGen, x.rel.reqFrom));
      Hears(y2, own, env);
      Catches(x2', Feed(y2, own, env).0, envs[1..], env);
    } else {
      assert x2' == x2;
      Catches(x2, y2, envs, env);
      assert [] + Heard(Wanted(x2)) == Heard(Wanted(x2));
    }
  }

  lemma SameAsks(r: Recovery, q: Recovery, sent: seq<Sent>)
    requires r.repGen == q.repGen && r.repFrom == q.repFrom
    ensures Filter(sent, Asks(r)) == Filter(sent, Asks(q))
  {
    FilterAgrees(sent, Asks(r), Asks(q));
  }

  lemma {:induction false} FilterAgrees(s: seq<Sent>, keep: Sent -> bool, other: Sent -> bool)
    requires forall e :: keep(e) == other(e)
    ensures Filter(s, keep) == Filter(s, other)
  {
    if s != [] { FilterAgrees(s[..|s| - 1], keep, other); }
  }

  // The first poll of a session that has a request pending emits that request.
  lemma OwnRequest(x: State, y: State, envs: seq<Env>, env: Env)
    requires x.active && x.rel.reqPending && envs != [] && y.active && !y.lossy && y.root == x.root
    ensures var own := Control(CtlKey(x.root), ResendNote(x.rel.reqGen, x.rel.reqFrom));
            var x' := x.(rel := x.rel.(reqPending := false));
            && Polls(x, envs).0 == Polls(x', envs[1..]).0
            && FeedAll(y, Polls(x, envs).1, env) == [Delivered("")] + FeedAll(Feed(y, own, env).0, Polls(x', envs[1..]).1, env)
  {
    var x' := x.(rel := x.rel.(reqPending := false));
    var own := Emitted(Control(CtlKey(x.root), ResendNote(x.rel.reqGen, x.rel.reqFrom)));
    assert Polls(x, envs).1 == [own] + Polls(x', envs[1..]).1;
    assert ([own] + Polls(x', envs[1..]).1)[1..] == Polls(x', envs[1..]).1;
    hide Polls, Resend;
  }

  lemma Hears(x: State, f: Frame, env: Env)
    requires x.active && !x.lossy && f.Control? && f.key == CtlKey(x.root) && f.note.ResendNote?
    ensures Feed(x, f, env) == (x.(rel := x.rel.(repPending := true, repGen := f.note.gen, repFrom := f.note.from)), Delivered(""))
  {
  }

  // A fresh session has nothing buffered under its own generation.
  lemma FreshServes(x: State, x1: State, x2: State, used: set<Term>, root: Term)
    requires Preserved(x, used) && root !in used && !x.lossy
    requires exists initiator, eph, kem :: x1 == Establishes(Cleared(x), root, initiator, eph, kem)
    requires x2 == x1.(rel := x2.rel) && !x2.rel.reqPending && x2.rel.repPending
    ensures Serving(x2) && (Wanted(x2) != [] ==> Older(x2)) && Silent(GuardsOf(x2), |Wanted(x2)|)
  {
    forall e | e in Wanted(x2) ensures e in x.sent && Entry(e, used) && Older(x2) {
      FilterMembers(x2.sent, Asks(x2.rel), e);
    }
    if Wanted(x2) != [] { assert Wanted(x2)[0] in Wanted(x2); }
  }

  // ----- a text that does not fit beside a pair -----------------------------------------------

  // Re-established after a text of more than 141 bytes, a session hears a pair of the peer,
  // which it has to answer with its own, and then a request for that text.
  function PairLife(first: Term, second: Term, text: Text, kem: nat, eph: nat, env: Env): seq<Event> {
    [Establish(first, true, 0, 0), Within(SendCall(text), env), Restart, Establish(second, true, 0, 0),
     Within(FeedCall(Seal(MsgKey(Derived(second, Responder)), 1, KemPub(kem, Pub(eph)), "")), env),
     Within(FeedCall(Control(CtlKey(second), ResendNote(GenOf(first), 1))), env)]
  }

  // The service ends with the text unsent, though no REKEY is due.
  lemma PairBlocks(first: Term, second: Term, text: Text, kem: nat, eph: nat, env: Env)
    requires first != second && 141 < |text| <= DATA_MAX
    ensures var s := Life(Initial(false), PairLife(first, second, text, kem, eph, env));
            && Serving(s) && Older(s) && Wanted(s) == [Sent(GenOf(first), 1, text)] && BranchOf(s) == PublishBack
            && RelPoll(s, env).1 == Nothing && !RelPoll(s, env).0.rel.repPending && RelPoll(s, env).0.sent == s.sent
  {
    hide SendText, Feed, Life, RelPoll;
    var e, s := PairLife(first, second, text, kem, eph, env), Initial(false);
    assert e[..5] == [e[0], e[1], e[2], e[3], e[4]];
    LifeFive(s, e[0], e[1], e[2], e[3], e[4]);
    assert Life(s, e) == After(Life(s, e[..5]), e[5]) by { assert e[..|e| - 1] == e[..5]; LifeLast(s, e); }
    var s1 := Establishes(s, first, true, 0, 0);
    FirstText(first, Env(false, 0, 0, 0), text, env);
    assert s1 == Established(first, true, false, 0, 0);
    var s3 := Establishes(Cleared(SendText(s1, text, env).0), second, true, 0, 0);
    HearsPair(s3, kem, eph, env);
    var s4 := Feed(s3, e[4].c.f, env).0;
    Hears(s4, e[5].c.f, env);
    var s5 := Feed(s4, e[5].c.f, env).0;
    OnlyOne(s5, Sent(GenOf(first), 1, text));
    assert Serving(s5);
    PollStep(s5, env);
    assert FirstFit(GuardsOf(s5), Wanted(s5), env.gcm) == 1;
  }

  lemma LifeLast(s: State, events: seq<Event>)
    requires events != []
    ensures Life(s, events) == After(Life(s, events[..|events| - 1]), events[|events| - 1])
  {
  }

  lemma HearsPair(s: State, kem: nat, eph: nat, env: Env)
    requires s.active && s.recv.seqNo == 1 && s.rekey.haveKem && !s.rekey.published && !s.rekey.awaitingPeer
    ensures var t := Feed(s, Seal(MsgKey(s.recv.chain), 1, KemPub(kem, Pub(eph)), ""), env).0;
            && t.rekey == s.rekey.(peerKem := kem, peerEph := Pub(eph), peerHave := true, publishBack := true)
            && t.active && t.lossy == s.lossy && t.root == s.root && t.send == s.send && t.sent == s.sent
            && t.rel == s.rel.(recvAcked := t.rel.recvAcked, ackDue := t.rel.ackDue)
  {
    assert ChainAt(s.recv.chain, 0) == s.recv.chain;
  }

  // ----- an acknowledgement that outlives its session -----------------------------------------

  // An acknowledgement that is due when a session is re-established names the new generation
  // with the old number: the peer drops what it has sent since, though nothing of it has
  // arrived. It is harmless exactly if nothing had been acknowledged before.
  lemma StaleAck(x: State, y: State, root: Term, initiator: bool, b: Env, e: Sent, env: Env)
    requires y.rel.ackDue && !y.rel.reqPending && !y.rel.repPending && !y.lossy
    requires x.active && !x.lossy && x.root == root && e in x.sent && e.gen == GenOf(root) && e.seqNo >= 1
    ensures var y1 := Establishes(Cleared(y), root, initiator, b.eph, b.kem);
            var ack := RelPoll(y1, env).1;
            && ack == Emitted(Control(CtlKey(root), AckNote(y.rel.recvAcked, GenOf(root))))
            && (y.rel.recvAcked < y1.recv.seqNo <==> y.rel.recvAcked == 0)
            && (e !in Feed(x, ack.frame, env).0.sent <==> e.seqNo <= y.rel.recvAcked)
  {
    FilterMembers(x.sent, z => !Acked(z, GenOf(root), y.rel.recvAcked), e);
    hide Filter, Resend;
  }
}
