/**
 Which texts a RESEND request gets (src/session.c:723-787, 969-987), from the flags, the
 frame count and the lengths of the texts alone. A poll passes over a text that does not
 fit beside the header that is due; a KEMPUB that was passed over is gone for the next
 text, a REKEY stays due. A text that is passed over in the oldest slot of a full buffer
 is evicted by the one that is sent instead.
 */
module ResendPlans {
  import opened Limits
  import opened Symbolic
  import opened SentRings
  import opened Emissions

  // ----- one poll -----------------------------------------------------------------------------

  predicate FitsBy(g: Guards, e: Sent, gcm: bool) { |e.text| <= Capacity(BranchBy(g), gcm) }

  // The guards after k failed tries.
  function Tried(g: Guards, k: nat): Guards
    decreases k
  {
    if k == 0 then g else Tried(AfterFailure(g), k - 1)
  }

  // The first text that fits when it is tried, or |ws|.
  function FirstFit(g: Guards, ws: seq<Sent>, gcm: bool): (k: nat)
    ensures k <= |ws|
    ensures k < |ws| ==> FitsBy(Tried(g, k), ws[k], gcm)
    ensures forall i | 0 <= i < k :: !FitsBy(Tried(g, i), ws[i], gcm)
    decreases |ws|
  {
    if ws == [] || FitsBy(g, ws[0], gcm) then 0
    else
      var k := FirstFit(AfterFailure(g), ws[1..], gcm);
      assert forall i | 1 <= i <= k :: Tried(g, i) == Tried(AfterFailure(g), i - 1);
      1 + k
  }

  // The branch after k failed tries: at most two pairs can be due, a REKEY stays due.
  function BranchAfter(g: Guards, k: nat): Branch {
    if k == 0 then BranchBy(g) else
      match BranchBy(g)
      case PublishRotated =>
        if DueBy(g) && g.peer then (if g.sound then FoldNow else NoHeader)
        else if DueBy(g) && !g.waiting && k == 1 then PublishFirst
        else NoHeader
      case PublishFirst => if k == 1 && g.back then PublishBack else NoHeader
      case FoldNow => FoldNow
      case _ => NoHeader
  }

  lemma {:induction false} FailedBranch(g: Guards, k: nat)
    ensures BranchBy(Tried(g, k)) == BranchAfter(g, k)
    decreases k
  {
    if k > 0 { FailedBranch(AfterFailure(g), k - 1); }
  }

  // A poll finds a text to send exactly if one of them fits when its turn comes.
  lemma FitsIff(g: Guards, ws: seq<Sent>, gcm: bool)
    ensures FirstFit(g, ws, gcm) < |ws| <==> exists k :: 0 <= k < |ws| && |ws[k].text| <= Capacity(BranchAfter(g, k), gcm)
  {
    var k := FirstFit(g, ws, gcm);
    if k < |ws| { FailedBranch(g, k); }
    forall i | 0 <= i < |ws| && |ws[i].text| <= Capacity(BranchAfter(g, i), gcm) ensures k < |ws| {
      FailedBranch(g, i);
    }
  }

  // ----- all polls ----------------------------------------------------------------------------

  // What is left to send after text k of ws was sent; `lead`: how many of them lie at the
  // head of a full buffer.
  function Remaining(ws: seq<Sent>, k: nat, lead: nat): (rest: seq<Sent>)
    requires k < |ws|
    ensures |rest| < |ws|
  {
    (if lead > 0 && k > 0 then ws[1..k] else ws[..k]) + ws[k + 1..]
  }

  function NextLead(lead: nat, k: nat): nat { if lead > 0 && k == 0 then lead - 1 else 0 }

  function NextGuards(g: Guards, k: nat): Guards { AfterFrame(Tried(g, k)) }

  // The numbers and texts of the frames that are emitted before a poll finds none.
  function Plan(g: Guards, ws: seq<Sent>, lead: nat, gcm: bool, n: nat): (p: seq<(nat, Text)>)
    ensures |p| <= |ws|
    decreases |ws|
  {
    var k := FirstFit(g, ws, gcm);
    if k == |ws| then []
    else [(n + k, ws[k].text)] + Plan(NextGuards(g, k), Remaining(ws, k, lead), NextLead(lead, k), gcm, n + k + 1)
  }

  // No text is given up or evicted.
  predicate AllFit(g: Guards, ws: seq<Sent>, lead: nat, gcm: bool)
    decreases |ws|
  {
    ws == [] ||
    var k := FirstFit(g, ws, gcm);
    k < |ws| && (lead > 0 ==> k == 0) && AllFit(NextGuards(g, k), Remaining(ws, k, lead), NextLead(lead, k), gcm)
  }

  function TextsOf(ws: seq<Sent>): (t: seq<Text>)
    ensures |t| == |ws|
  {
    seq(|ws|, i requires 0 <= i < |ws| => ws[i].text)
  }

  function PlannedTexts(p: seq<(nat, Text)>): (t: seq<Text>)
    ensures |t| == |p|
  {
    seq(|p|, i requires 0 <= i < |p| => p[i].1)
  }

  lemma TextsSplit(ws: seq<Sent>, k: nat)
    requires k < |ws|
    ensures multiset(TextsOf(ws)) == multiset{ws[k].text} + multiset(TextsOf(ws[..k] + ws[k + 1..]))
  {
    assert TextsOf(ws) == TextsOf(ws[..k]) + [ws[k].text] + TextsOf(ws[k + 1..]);
    assert TextsOf(ws[..k] + ws[k + 1..]) == TextsOf(ws[..k]) + TextsOf(ws[k + 1..]);
  }

  // Every text asked for is sent, each once, exactly in that case.
  lemma {:induction false} AllSentIff(g: Guards, ws: seq<Sent>, lead: nat, gcm: bool, n: nat)
    ensures AllFit(g, ws, lead, gcm) <==> |Plan(g, ws, lead, gcm, n)| == |ws|
    ensures AllFit(g, ws, lead, gcm) ==> multiset(PlannedTexts(Plan(g, ws, lead, gcm, n))) == multiset(TextsOf(ws))
    decreases |ws|
  {
    hide FirstFit, NextGuards, Remaining, NextLead, TextsOf, PlannedTexts;
    var k := FirstFit(g, ws, gcm);
    if k < |ws| {
      var rest := Remaining(ws, k, lead);
      RemainingIs(ws, k, lead);
      AllSentIff(NextGuards(g, k), rest, NextLead(lead, k), gcm, n + k + 1);
      var p := Plan(NextGuards(g, k), rest, NextLead(lead, k), gcm, n + k + 1);
      PlannedFirst((n + k, ws[k].text), p);
      TextsSplit(ws, k);
    } else if ws == [] {
      NoTexts();
    }
  }

  lemma NoTexts()
    ensures TextsOf([]) == [] && PlannedTexts([]) == []
  {
  }

  lemma PlannedFirst(e: (nat, Text), p: seq<(nat, Text)>)
    ensures PlannedTexts([e] + p) == [e.1] + PlannedTexts(p)
  {
  }

  lemma RemainingIs(ws: seq<Sent>, k: nat, lead: nat)
    requires k < |ws|
    ensures |Remaining(ws, k, lead)| == |ws| - (if lead > 0 && k > 0 then 2 else 1)
    ensures lead == 0 || k == 0 ==> Remaining(ws, k, lead) == ws[..k] + ws[k + 1..]
  {
  }

  // Texts that fit beside any header are all sent, in order and under consecutive numbers.
  predicate Brief(ws: seq<Sent>) { forall e | e in ws :: |e.text| <= 129 }

  lemma BriefFits(g: Guards, ws: seq<Sent>, gcm: bool)
    requires Brief(ws)
    ensures FirstFit(g, ws, gcm) == 0
  {
    if ws != [] { assert ws[0] in ws; }
  }

  function InOrder(ws: seq<Sent>, n: nat): seq<(nat, Text)> {
    seq(|ws|, i requires 0 <= i < |ws| => (n + i, ws[i].text))
  }

  lemma InOrderFirst(ws: seq<Sent>, n: nat)
    requires ws != []
    ensures InOrder(ws, n) == [(n, ws[0].text)] + InOrder(ws[1..], n + 1)
  {
  }

  lemma {:induction false} PlanInOrder(g: Guards, ws: seq<Sent>, lead: nat, gcm: bool, n: nat)
    requires Brief(ws)
    ensures Plan(g, ws, lead, gcm, n) == InOrder(ws, n) && AllFit(g, ws, lead, gcm)
    decreases |ws|
  {
    hide Plan, AllFit, FirstFit, NextGuards, NextLead, InOrder, Remaining;
    BriefFits(g, ws, gcm);
    if ws != [] {
      PlanFirst(g, ws, lead, gcm, n);
      InOrderFirst(ws, n);
      PlanInOrder(NextGuards(g, 0), ws[1..], NextLead(lead, 0), gcm, n + 1);
    } else {
      NothingInOrder(n);
      NoPlan(g, lead, gcm, n);
    }
  }

  lemma PlanFirst(g: Guards, ws: seq<Sent>, lead: nat, gcm: bool, n: nat)
    requires ws != [] && FirstFit(g, ws, gcm) == 0
    ensures Plan(g, ws, lead, gcm, n) == [(n, ws[0].text)] + Plan(NextGuards(g, 0), ws[1..], NextLead(lead, 0), gcm, n + 1)
    ensures AllFit(g, ws, lead, gcm) <==> AllFit(NextGuards(g, 0), ws[1..], NextLead(lead, 0), gcm)
  {
    hide FirstFit, NextGuards, NextLead;
    assert Remaining(ws, 0, lead) == ws[1..];
  }

  lemma NoPlan(g: Guards, lead: nat, gcm: bool, n: nat)
    ensures Plan(g, [], lead, gcm, n) == [] && AllFit(g, [], lead, gcm)
  {
  }

  lemma NothingInOrder(n: nat)
    ensures InOrder([], n) == []
  {
  }

  // ----- the condition in closed form -----------------------------------------------------------

  predicate Short(e: Sent, gcm: bool) { |e.text| <= Capacity(PublishBack, gcm) }

  // The first text that fits beside a REKEY, or |ws|.
  function FirstMiddle(ws: seq<Sent>, gcm: bool): (k: nat)
    ensures k <= |ws|
    ensures k < |ws| ==> |ws[k].text| <= Capacity(FoldNow, gcm)
    ensures forall i | 0 <= i < k :: |ws[i].text| > Capacity(FoldNow, gcm)
    decreases |ws|
  {
    if ws == [] || |ws[0].text| <= Capacity(FoldNow, gcm) then 0 else 1 + FirstMiddle(ws[1..], gcm)
  }

  // What it takes to send them all: after the pairs that are due one more text, or a short
  // last one; for a REKEY, a text that fits beside it.
  predicate Suffices(g: Guards, ws: seq<Sent>, gcm: bool) {
    var n := |ws|;
    n == 0 ||
    match BranchBy(g)
    case NoHeader => true
    case PublishBack => n > 1 || Short(ws[n - 1], gcm)
    case PublishFirst => n > (if g.back then 2 else 1) || Short(ws[n - 1], gcm)
    case PublishRotated =>
      (match BranchAfter(g, 1)
       case FoldNow => (n == 1 && Short(ws[0], gcm)) || FirstMiddle(ws[1..], gcm) < n - 1
       case PublishFirst => n > 2 || Short(ws[n - 1], gcm)
       case _ => n > 1 || Short(ws[n - 1], gcm))
    case FoldNow =>
      var k := FirstMiddle(ws, gcm);
      k < n && (g.back && n == 2 ==> Short(ws[1 - k], gcm))
  }

  // The automatic trigger does not fire within n frames.
  predicate NoTrigger(g: Guards, n: nat) { g.waiting || g.count + n <= REKEY_EVERY }

  // No header for n frames.
  predicate Silent(g: Guards, n: nat) {
    n == 0 || (BranchBy(g) == NoHeader && (NoTrigger(g, n) || (DueBy(g) && g.peer)))
  }

  lemma SilentStays(g: Guards, n: nat)
    requires Silent(g, n) && n > 0
    ensures BranchBy(g) == NoHeader && Silent(AfterFrame(g), n - 1)
  {
  }

  predicate InFrame(ws: seq<Sent>) { forall e | e in ws :: |e.text| <= DATA_MAX }

  lemma {:induction false} SilentFits(g: Guards, ws: seq<Sent>, gcm: bool)
    requires Silent(g, |ws|) && InFrame(ws)
    ensures AllFit(g, ws, 0, gcm)
    decreases |ws|
  {
    hide Silent, AfterFrame;
    if ws != [] {
      SilentStays(g, |ws|);
      assert ws[0] in ws && FirstFit(g, ws, gcm) == 0;
      assert Remaining(ws, 0, 0) == ws[1..];
      SilentFits(AfterFrame(g), ws[1..], gcm);
    }
  }

  // One more text after k that were passed over.
  lemma SentAt(g: Guards, ws: seq<Sent>, k: nat, gcm: bool)
    requires k < |ws| && FirstFit(g, ws, gcm) == k
    ensures AllFit(g, ws, 0, gcm) <==> AllFit(NextGuards(g, k), ws[..k] + ws[k + 1..], 0, gcm)
  {
  }

  lemma RestInFrame(ws: seq<Sent>, k: nat)
    requires k < |ws| && InFrame(ws)
    ensures InFrame(ws[..k] + ws[k + 1..])
  {
  }

  predicate IsPub(b: Branch) { b == PublishBack || b == PublishFirst || b == PublishRotated }

  // One pair is due, and then nothing.
  lemma OnePub(g: Guards, ws: seq<Sent>, gcm: bool)
    requires ws != [] && InFrame(ws) && IsPub(BranchBy(g))
    requires Silent(AfterFrame(g), |ws| - 1)
    requires Silent(AfterFailure(g), |ws|)
    ensures AllFit(g, ws, 0, gcm) <==> |ws| > 1 || Short(ws[|ws| - 1], gcm)
  {
    hide Silent, AfterFrame, AfterFailure, BranchBy;
    if Short(ws[0], gcm) {
      assert FirstFit(g, ws, gcm) == 0;
      SentAt(g, ws, 0, gcm);
      RestInFrame(ws, 0);
      SilentFits(AfterFrame(g), ws[..0] + ws[1..], gcm);
    } else if |ws| > 1 {
      SilentStays(AfterFailure(g), |ws|);
      assert Tried(g, 1) == AfterFailure(g) by { assert Tried(AfterFailure(g), 0) == AfterFailure(g); }
      assert ws[1] in ws && ws[1..][0] == ws[1];
      assert FirstFit(AfterFailure(g), ws[1..], gcm) == 0 && FirstFit(g, ws, gcm) == 1;
      SentAt(g, ws, 1, gcm);
      RestInFrame(ws, 1);
      SilentFits(AfterFrame(AfterFailure(g)), ws[..1] + ws[2..], gcm);
    } else {
      assert ws[1..] == [];
      assert FirstFit(g, ws, gcm) == 1;
    }
  }

  // Two pairs are due, one after the other.
  lemma TwoPubs(g: Guards, ws: seq<Sent>, gcm: bool)
    requires ws != [] && InFrame(ws) && IsPub(BranchBy(g)) && IsPub(BranchBy(AfterFailure(g))) && IsPub(BranchBy(AfterFrame(g)))
    requires Silent(AfterFrame(AfterFrame(g)), |ws|) && Silent(AfterFailure(AfterFrame(g)), |ws|)
    requires Silent(AfterFrame(AfterFailure(g)), |ws|) && Silent(AfterFailure(AfterFailure(g)), |ws|)
    ensures AllFit(g, ws, 0, gcm) <==> |ws| > 2 || Short(ws[|ws| - 1], gcm)
  {
    hide AfterFrame, AfterFailure, BranchBy;
    if Short(ws[0], gcm) {
      assert FirstFit(g, ws, gcm) == 0;
      SentAt(g, ws, 0, gcm);
      RestInFrame(ws, 0);
      assert ws[..0] + ws[1..] == ws[1..];
      if |ws| > 1 { OnePub(AfterFrame(g), ws[1..], gcm); }
    } else if |ws| > 1 && Short(ws[1], gcm) {
      assert Tried(g, 1) == AfterFailure(g) by { assert Tried(AfterFailure(g), 0) == AfterFailure(g); }
      assert ws[1..][0] == ws[1];
      assert FirstFit(AfterFailure(g), ws[1..], gcm) == 0 && FirstFit(g, ws, gcm) == 1;
      SentAt(g, ws, 1, gcm);
      RestInFrame(ws, 1);
      SilentFits(AfterFrame(AfterFailure(g)), ws[..1] + ws[2..], gcm);
    } else {
      Third(g, ws, gcm);
    }
  }

  lemma Third(g: Guards, ws: seq<Sent>, gcm: bool)
    requires ws != [] && InFrame(ws) && IsPub(BranchBy(g)) && IsPub(BranchBy(AfterFailure(g)))
    requires Silent(AfterFailure(AfterFailure(g)), |ws|)
    requires !Short(ws[0], gcm) && (|ws| > 1 ==> !Short(ws[1], gcm))
    ensures AllFit(g, ws, 0, gcm) <==> |ws| > 2
  {
    hide AfterFrame, AfterFailure, BranchBy;
    var h := AfterFailure(AfterFailure(g));
    assert FirstFit(g, ws, gcm) == 1 + FirstFit(AfterFailure(g), ws[1..], gcm);
    if |ws| > 1 {
      assert ws[1..][0] == ws[1] && ws[1..][1..] == ws[2..];
      assert FirstFit(AfterFailure(g), ws[1..], gcm) == 1 + FirstFit(h, ws[2..], gcm);
      if |ws| > 2 {
        SilentStays(h, |ws|);
        assert ws[2] in ws && ws[2..][0] == ws[2];
        assert FirstFit(h, ws[2..], gcm) == 0;
        assert Tried(g, 2) == h by { assert Tried(g, 2) == Tried(AfterFailure(g), 1) == Tried(h, 0); }
        SentAt(g, ws, 2, gcm);
        RestInFrame(ws, 2);
        SilentFits(AfterFrame(h), ws[..2] + ws[3..], gcm);
      }
    }
  }

  // A REKEY that is due goes out with the first text that fits beside it.
  lemma {:induction false} FoldFirst(g: Guards, ws: seq<Sent>, gcm: bool)
    requires BranchBy(g) == FoldNow
    ensures FirstFit(g, ws, gcm) == FirstMiddle(ws, gcm)
    decreases |ws|
  {
    if ws != [] && |ws[0].text| > Capacity(FoldNow, gcm) { FoldFirst(AfterFailure(g), ws[1..], gcm); }
  }

  lemma {:induction false} FoldFailed(g: Guards, k: nat)
    requires BranchBy(g) == FoldNow
    ensures Tried(g, k) == if k == 0 then g else g.(due := true)
    decreases k
  {
    if k > 0 { FoldFailed(AfterFailure(g), k - 1); }
  }

  lemma FoldThen(g: Guards, ws: seq<Sent>, gcm: bool)
    requires ws != [] && InFrame(ws) && BranchBy(g) == FoldNow && |ws| <= SENT_MAX
    ensures AllFit(g, ws, 0, gcm) <==>
              var k := FirstMiddle(ws, gcm); k < |ws| && (g.back && |ws| == 2 ==> Short(ws[1 - k], gcm))
  {
    FoldFirst(g, ws, gcm);
    hide FirstFit, FirstMiddle;
    var k := FirstMiddle(ws, gcm);
    if k < |ws| {
      FoldFailed(g, k);
      SentAt(g, ws, k, gcm);
      RestInFrame(ws, k);
      hide AllFit;
      var rest := ws[..k] + ws[k + 1..];
      if |ws| == 2 { assert rest == [ws[1 - k]]; }
      AfterFold(NextGuards(g, k), g, rest, gcm);
    }
  }

  lemma AfterFold(h: Guards, g: Guards, rest: seq<Sent>, gcm: bool)
    requires h == g.(due := false, peer := false, count := 0) && !g.rotated && InFrame(rest) && |rest| <= SENT_MAX
    ensures AllFit(h, rest, 0, gcm) <==> !g.back || |rest| != 1 || Short(rest[0], gcm)
  {
    hide FirstFit, AllFit;
    if rest == [] {
      NoneFit(h, rest, gcm);
    } else if g.back {
      OnePub(h, rest, gcm);
    } else {
      SilentFits(h, rest, gcm);
    }
  }

  lemma NoneFit(g: Guards, ws: seq<Sent>, gcm: bool)
    requires ws == []
    ensures AllFit(g, ws, 0, gcm)
  {
  }

  // A rotated pair, then a REKEY.
  lemma RotatedThenFold(g: Guards, ws: seq<Sent>, gcm: bool)
    requires ws != [] && InFrame(ws) && |ws| <= SENT_MAX && BranchBy(g) == PublishRotated && BranchAfter(g, 1) == FoldNow
    ensures AllFit(g, ws, 0, gcm) <==> (|ws| == 1 && Short(ws[0], gcm)) || FirstMiddle(ws[1..], gcm) < |ws| - 1
  {
    hide FirstFit, AllFit, FirstMiddle;
    FirstStep(g, ws, gcm);
    if Short(ws[0], gcm) {
      SentAt(g, ws, 0, gcm);
      RestInFrame(ws, 0);
      assert ws[..0] + ws[1..] == ws[1..];
      if |ws| > 1 { FoldThen(AfterFrame(g), ws[1..], gcm); } else { NoneFit(AfterFrame(g), ws[1..], gcm); }
    } else {
      RotatedPassed(g, ws, gcm);
    }
  }

  lemma FirstStep(g: Guards, ws: seq<Sent>, gcm: bool)
    requires ws != []
    ensures FirstFit(g, ws, gcm) == if FitsBy(g, ws[0], gcm) then 0 else 1 + FirstFit(AfterFailure(g), ws[1..], gcm)
  {
  }

  lemma RotatedPassed(g: Guards, ws: seq<Sent>, gcm: bool)
    requires ws != [] && InFrame(ws) && |ws| <= SENT_MAX && BranchBy(g) == PublishRotated && BranchAfter(g, 1) == FoldNow
    requires !Short(ws[0], gcm)
    ensures AllFit(g, ws, 0, gcm) <==> FirstMiddle(ws[1..], gcm) < |ws| - 1
  {
    hide FirstFit, AllFit, FirstMiddle;
    var h, k := AfterFailure(g), FirstMiddle(ws[1..], gcm);
    FirstStep(g, ws, gcm);
    FoldFirst(h, ws[1..], gcm);
    if k < |ws| - 1 {
      SentAt(g, ws, k + 1, gcm);
      RestInFrame(ws, k + 1);
      FoldFailed(h, k);
      assert Tried(g, k + 1) == Tried(h, k);
      AfterFold(NextGuards(g, k + 1), h, ws[..k + 1] + ws[k + 2..], gcm);
    } else {
      NothingFits(g, ws, gcm);
    }
  }

  lemma NothingFits(g: Guards, ws: seq<Sent>, gcm: bool)
    requires ws != [] && FirstFit(g, ws, gcm) == |ws|
    ensures !AllFit(g, ws, 0, gcm)
  {
  }

  // As long as the automatic trigger does not fire in between and no text asked for lies in
  // the oldest slot of a full buffer, every text is sent exactly in these cases.
  lemma AllFitIff(g: Guards, ws: seq<Sent>, gcm: bool)
    requires NoTrigger(g, |ws|) || DueBy(g)
    requires InFrame(ws) && |ws| <= SENT_MAX
    ensures AllFit(g, ws, 0, gcm) <==> Suffices(g, ws, gcm)
  {
    if ws != [] {
      match BranchBy(g)
      case NoHeader => hide FirstFit, AllFit; SilentFits(g, ws, gcm);
      case PublishBack => hide FirstFit, AllFit; OnePub(g, ws, gcm);
      case PublishFirst => hide FirstFit, AllFit; if g.back { TwoPubs(g, ws, gcm); } else { OnePub(g, ws, gcm); }
      case FoldNow => hide FirstFit, AllFit; FoldThen(g, ws, gcm);
      case PublishRotated =>
        hide FirstFit, AllFit;
        if BranchAfter(g, 1) == FoldNow { RotatedThenFold(g, ws, gcm); }
        else if BranchAfter(g, 1) == PublishFirst { TwoPubs(g, ws, gcm); }
        else { OnePub(g, ws, gcm); }
    }
  }
}
