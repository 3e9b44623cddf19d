/**
 Sending one TCP frame over the encrypted tunnel (src/tunnel.c:15-41, 807-895,
 src/tox_thread.c:304-340): due re-key carriers go first, then the frame itself as a
 plain payload. The transport may refuse any packet.
 */
module TunnelSend {
  import opened Options
  import opened Limits
  import opened Symbolic
  import opened Ratchets
  import opened SentRings
  import opened Sessions
  import opened SessionObjects
  import opened Receiving
  import opened Carriers
  import opened Tunnel

  const TUNNEL_FRAME_MAX := 1371
  const TCP_HEADER := 6

  // ----- the transport ------------------------------------------------------------------------

  // The transport's answers to the next packets (true: accepted), and the frames it has
  // accepted. When the script is used up it refuses.
  datatype EtherState = EtherState(accepts: seq<bool>, sent: seq<Frame>)

  function FrameBytes(gcm: bool, f: Frame): nat {
    if f.Data? && f.box.Sealed? then FrameLen(gcm, f.hdr, f.box.text) else 0
  }

  // tt_tunnel_e2ee_send
  function Offer(e: EtherState, gcm: bool, f: Frame): (EtherState, bool) {
    if FrameBytes(gcm, f) > TUNNEL_FRAME_MAX || e.accepts == [] then (e, false)
    else if e.accepts[0] then (EtherState(e.accepts[1..], e.sent + [f]), true)
    else (EtherState(e.accepts[1..], e.sent), false)
  }

  class Ether {
    var accepts: seq<bool>
    var sent: seq<Frame>

    ghost function View(): EtherState reads this { EtherState(accepts, sent) }

    method Send(gcm: bool, f: Frame) returns (ok: bool)
      modifies this
      ensures (View(), ok) == Offer(old(View()), gcm, f)
    {
      if FrameBytes(gcm, f) > TUNNEL_FRAME_MAX || |accepts| == 0 { return false; }
      ok := accepts[0];
      accepts := accepts[1..];
      if ok { sent := sent + [f]; }
    }
  }

  // ----- the specification --------------------------------------------------------------------

  // Offer up to |envs| carriers; false when the transport refused one.
  function DrainCarriers(s: State, e: EtherState, envs: seq<Env>): (State, EtherState, bool)
    decreases |envs|
  {
    if envs == [] || !((s.lossy && s.rekey.carrier.Some?) || RekeyPending(s)) then (s, e, true) else
      var (t, r) := Carrier(s, envs[0]);
      if !r.Emitted? then (t, e, true) else
        var (e', ok) := Offer(e, envs[0].gcm, r.frame);
        if ok then DrainCarriers(CarrierDone(t), e', envs[1..]) else (t, e', false)
  }

  // tcp_send_ex with the encrypted channel on; `text` is the TCP header and the payload
  function SendTcp(s: State, e: EtherState, text: Text, envs: seq<Env>): (State, EtherState, Answer)
    requires |envs| == 3
  {
    if |text| > TCP_HEADER + ReadMax(true) then (s, e, SendFatal)
    else if !s.active then (s, e, SendOk)
    else
      var (t, e', drained) := DrainCarriers(s, e, envs[..2]);
      if !drained || (t.lossy && t.rekey.carrier.Some?) then (t, e', SendQ) else
        var (u, r) := SendLossy(t, text, envs[2]);
        match r
        case Nothing => (u, e', SendOk)
        case Failed(why) => (u, e', if why == CarrierParked then SendQ else SendFatal)
        case Emitted(f) => var (e'', ok) := Offer(e', envs[2].gcm, f); (u, e'', if ok then SendOk else SendQ)
  }

  method TcpSendEx(s: TTSession, e: Ether, text: Text, envs: seq<Env>) returns (rc: Answer)
    requires s.Valid() && |envs| == 3 && e !in s.Repr
    modifies s.Repr, e
    ensures s.Valid() && (s.View(), e.View(), rc) == SendTcp(old(s.View()), old(e.View()), text, envs)
  {
    hide EmitFrame, Carrier, SendLossy, RekeyPending;
    if |text| > TCP_HEADER + ReadMax(true) { return SendFatal; }
    if !s.active { return SendOk; }
    var drained := DrainInto(s, e, envs[..2]);
    if !drained || (s.lossy && s.rekey.carrier.Some?) { return SendQ; }
    var r := s.SendDatagram(text, envs[2]);
    match r
    case Nothing => return SendOk;
    case Failed(why) => return if why == CarrierParked then SendQ else SendFatal;
    case Emitted(f) =>
      var ok := e.Send(envs[2].gcm, f);
      return if ok then SendOk else SendQ;
  }

  // The loop of tcp_send_ex and tunnel_carrier_retry.
  method DrainInto(s: TTSession, e: Ether, envs: seq<Env>) returns (drained: bool)
    requires s.Valid() && e !in s.Repr
    modifies s.Repr, e
    ensures s.Valid() && (s.View(), e.View(), drained) == DrainCarriers(old(s.View()), old(e.View()), envs)
  {
    hide EmitFrame, Carrier, RekeyPending;
    ghost var goal := DrainCarriers(s.View(), e.View(), envs);
    assert envs[0..] == envs;
    for i := 0 to |envs|
      invariant s.Valid()
      invariant DrainCarriers(s.View(), e.View(), envs[i..]) == goal
    {
      assert envs[i..][0] == envs[i] && envs[i..][1..] == envs[i + 1..];
      var pending := s.IsRekeyPending();
      if !((s.lossy && s.rekey.carrier.Some?) || pending) { return true; }
      var r := s.CarrierFrame(envs[i]);
      if !r.Emitted? { return true; }
      var ok := e.Send(envs[i].gcm, r.frame);
      if !ok { return false; }
      s.MarkCarrierDone();
    }
    return true;
  }

  // ----- the contract ---------------------------------------------------------------------

  // A parked carrier is an empty text beside one of the two re-key headers.
  ghost predicate Fitting(s: State) {
    s.rekey.carrier.Some? ==>
      var f := s.rekey.carrier.value;
      f.Data? && f.box.Sealed? && f.box.text == "" && HeaderLen(f.hdr) <= 1190
  }

  // The frames added to the transport are carriers, at most n of them.
  ghost predicate OnlyCarriers(e: EtherState, e': EtherState, n: nat) {
    && e.sent <= e'.sent && |e'.sent| <= |e.sent| + n
    && forall i | |e.sent| <= i < |e'.sent| :: IsCarrier(e'.sent[i])
  }

  lemma EmitShape(s: State, text: Text, carrierOnly: bool, env: Env)
    requires !(s.lossy && s.rekey.carrier.Some?) && 37 + |text| + 16 + (if s.lossy && !carrierOnly then 0 else 1190) <= FRAME_MAX
    ensures var r := EmitFrame(s, text, false, carrierOnly, env).1;
            && r.Emitted? && r.frame.Data? && r.frame.box.Sealed? && r.frame.box.text == text
            && HeaderLen(r.frame.hdr) <= 1190 && !r.frame.hdr.Malformed?
  {
    HeaderFits(Due(s), env);
    hide PickHeader;
  }

  // One carrier: it is offered, it fits, and it stays parked until it is accepted.
  lemma CarrierShape(s: State, env: Env)
    requires Discipline(s) && Fitting(s) && (s.rekey.carrier.Some? || RekeyPending(s))
    ensures var (t, r) := Carrier(s, env);
            && r.Emitted? && IsCarrier(r.frame) && FrameBytes(env.gcm, r.frame) <= TUNNEL_FRAME_MAX
            && t.rekey.carrier == Some(r.frame)
            && Discipline(t) && Fitting(t) && Discipline(CarrierDone(t)) && Fitting(CarrierDone(t))
  {
    hide EmitFrame, RekeyPending;
    assert s.active by { hide RekeyPending; }
    CallKeeps(s, CarrierCall, env);
    if s.rekey.carrier.None? {
      PendingAttaches(s, env);
      EmitShape(s, "", true, env);
    }
    CallKeeps(Carrier(s, env).0, CarrierDoneCall, env);
  }

  lemma {:induction false} DrainContract(s: State, e: EtherState, envs: seq<Env>)
    requires Discipline(s) && Fitting(s)
    ensures var (t, e', drained) := DrainCarriers(s, e, envs);
            && Discipline(t) && Fitting(t) && OnlyCarriers(e, e', |envs|)
            && (t.rekey.carrier.Some? ==> !drained || (envs == [] && t == s))
            && (!drained ==> t.rekey.carrier.Some?)
    decreases |envs|
  {
    hide Discipline, Fitting, Carrier, RekeyPending;
    assert s.lossy by { DisciplineMeans(s); }
    if envs != [] && (s.rekey.carrier.Some? || RekeyPending(s)) {
      CarrierShape(s, envs[0]);
      var (t, r) := Carrier(s, envs[0]);
      var (e1, ok) := Offer(e, envs[0].gcm, r.frame);
      if ok {
        DrainContract(CarrierDone(t), e1, envs[1..]);
      }
    }
  }

  lemma DisciplineMeans(s: State)
    requires Discipline(s)
    ensures s.lossy && s.active
  {
  }

  // tcp_send_ex never gives up on a frame that conn_read_max allows. It reports success
  // exactly when the frame itself was accepted, after at most two carriers; otherwise
  // nothing but carriers was, and the caller may retry without duplicating a byte.
  lemma SendContract(s: State, e: EtherState, text: Text, envs: seq<Env>)
    requires |envs| == 3 && Discipline(s) && Fitting(s) && |text| <= TCP_HEADER + ReadMax(true)
    ensures var (t, e', rc) := SendTcp(s, e, text, envs);
            && Discipline(t) && Fitting(t) && rc != SendFatal
            && (rc == SendQ ==> OnlyCarriers(e, e', 2))
            && (rc == SendOk ==>
                  && t.rekey.carrier.None?
                  && var last := |e'.sent| - 1;
                  && last >= |e.sent| && OnlyCarriers(e, EtherState(e'.accepts, e'.sent[..last]), 2)
                  && e'.sent[last].Data? && e'.sent[last].hdr == Plain
                  && e'.sent[last].box.Sealed? && e'.sent[last].box.text == text)
  {
    hide Discipline, Fitting, EmitFrame, DrainCarriers;
    DisciplineMeans(s);
    DrainContract(s, e, envs[..2]);
    var (t, e1, drained) := DrainCarriers(s, e, envs[..2]);
    DisciplineMeans(t);
    if drained && t.rekey.carrier.None? {
      EmitKeeps(t, text, false, envs[2]);
      EmitShape(t, text, false, envs[2]);
      var (u, r) := EmitFrame(t, text, false, false, envs[2]);
      assert Fitting(u) by { assert u.rekey.carrier.None?; FittingNone(u); }
      var (e2, ok) := Offer(e1, envs[2].gcm, r.frame);
      assert FrameBytes(envs[2].gcm, r.frame) <= TUNNEL_FRAME_MAX;
      if ok { assert e2.sent[..|e2.sent| - 1] == e1.sent; }
    }
  }

  lemma FittingNone(s: State)
    requires s.rekey.carrier.None?
    ensures Fitting(s)
  {
  }

  // The answers to n more packets are yes.
  ghost predicate Accepts(e: EtherState, n: nat) {
    |e.accepts| >= n && forall i | 0 <= i < n :: e.accepts[i]
  }

  lemma AcceptsTail(e: EtherState, n: nat, sent: seq<Frame>)
    requires n > 0 && Accepts(e, n)
    ensures e.accepts != [] && e.accepts[0] && Accepts(EtherState(e.accepts[1..], sent), n - 1)
  {
  }

  lemma {:induction false} DrainAccepted(s: State, e: EtherState, envs: seq<Env>, more: nat)
    requires Discipline(s) && Fitting(s) && Accepts(e, |envs| + more)
    ensures var (t, e', drained) := DrainCarriers(s, e, envs); drained && Accepts(e', more)
    decreases |envs|
  {
    hide Discipline, Fitting, Carrier, RekeyPending, Accepts;
    AcceptsFewer(e, |envs| + more, more);
    DisciplineMeans(s);
    if envs != [] && (s.rekey.carrier.Some? || RekeyPending(s)) {
      CarrierShape(s, envs[0]);
      var (t, r) := Carrier(s, envs[0]);
      AcceptsTail(e, |envs| + more, e.sent + [r.frame]);
      DrainAccepted(CarrierDone(t), EtherState(e.accepts[1..], e.sent + [r.frame]), envs[1..], more);
    }
  }

  lemma AcceptsFewer(e: EtherState, n: nat, m: nat)
    requires Accepts(e, n) && m <= n
    ensures Accepts(e, m)
  {
  }

  // A transport that takes the next three packets takes the frame.
  lemma AcceptedSucceeds(s: State, e: EtherState, text: Text, envs: seq<Env>)
    requires |envs| == 3 && Discipline(s) && Fitting(s) && |text| <= TCP_HEADER + ReadMax(true) && Accepts(e, 3)
    ensures SendTcp(s, e, text, envs).2 == SendOk
  {
    hide Discipline, Fitting, EmitFrame, DrainCarriers;
    DisciplineMeans(s);
    DrainContract(s, e, envs[..2]);
    DrainAccepted(s, e, envs[..2], 1);
    var (t, e1, drained) := DrainCarriers(s, e, envs[..2]);
    DisciplineMeans(t);
    EmitKeeps(t, text, false, envs[2]);
    EmitShape(t, text, false, envs[2]);
  }

  // ----- two carriers are enough --------------------------------------------------------------

  // With no carrier parked, two accepted carriers leave no re-key pending: the bound of
  // the loop never cuts a re-key short.
  lemma TwoCarriersSuffice(s: State, e: EtherState, first: Env, second: Env)
    requires Discipline(s) && Fitting(s) && s.rekey.carrier.None?
    requires |e.accepts| >= 2 && e.accepts[0] && e.accepts[1]
    ensures var (t, e', drained) := DrainCarriers(s, e, [first, second]);
            drained && t.rekey.carrier.None? && !RekeyPending(t)
  {
    hide Discipline, Fitting, Carrier, RekeyPending, FrameBytes;
    DisciplineMeans(s);
    if RekeyPending(s) {
      CarrierShape(s, first);
      BuiltFlags(s, first);
      var (t1, r1) := Carrier(s, first);
      var t := CarrierDone(t1);
      var e1 := EtherState(e.accepts[1..], e.sent + [r1.frame]);
      OneMore(s, e, [first, second]);
      assert [first, second][1..] == [second] && e1.accepts[0] == e.accepts[1];
      DisciplineMeans(t);
      if RekeyPending(t) {
        CarrierShape(t, second);
        BuiltFlags(t, second);
        OneMore(t, e1, [second]);
        SecondSettles(s, t, CarrierDone(Carrier(t, second).0), first, second);
      }
    }
  }

  // One accepted turn of the loop.
  lemma OneMore(s: State, e: EtherState, envs: seq<Env>)
    requires envs != [] && e.accepts != [] && e.accepts[0] && RekeyPending(s)
    requires Carrier(s, envs[0]).1.Emitted? && FrameBytes(envs[0].gcm, Carrier(s, envs[0]).1.frame) <= TUNNEL_FRAME_MAX
    ensures var (t, r) := Carrier(s, envs[0]);
            DrainCarriers(s, e, envs) == DrainCarriers(CarrierDone(t), EtherState(e.accepts[1..], e.sent + [r.frame]), envs[1..])
  {
    hide Carrier, RekeyPending, FrameBytes;
  }

  // The flags after a carrier was built and accepted.
  function FlagsDone(k: Rekeying, env: Env): Rekeying {
    var (k', hdr, fold) := PickHeader(k, env);
    (if fold.Some? then k'.(rekeyDue := false, peerHave := false) else k').(carrier := None)
  }

  lemma BuiltFlags(s: State, env: Env)
    requires Discipline(s) && s.rekey.carrier.None? && RekeyPending(s)
    ensures var t := CarrierDone(Carrier(s, env).0);
            && t.active && t.rekey == FlagsDone(Due(s), env)
            && t.send.sinceFold == if PickHeader(Due(s), env).2.Some? then 0 else s.send.sinceFold + 1
  {
    EmitShape(s, "", true, env);
    hide PickHeader, Due, RekeyPending, StepChain, KeyAt, AddSent;
    assert StepChain(s.send).sinceFold == s.send.sinceFold by { StepKeepsCount(s.send); }
  }

  lemma StepKeepsCount(r: Ratchet)
    ensures StepChain(r).sinceFold == r.sinceFold
  {
  }

  lemma SecondSettles(s: State, t: State, u: State, first: Env, second: Env)
    requires Discipline(s) && s.rekey.carrier.None? && RekeyPending(s) && RekeyPending(t)
    requires t.rekey == FlagsDone(Due(s), first) && u.rekey == FlagsDone(Due(t), second)
    requires t.send.sinceFold == if PickHeader(Due(s), first).2.Some? then 0 else s.send.sinceFold + 1
    requires u.send.sinceFold == if PickHeader(Due(t), second).2.Some? then 0 else t.send.sinceFold + 1
    ensures !RekeyPending(u)
  {
  }
}
