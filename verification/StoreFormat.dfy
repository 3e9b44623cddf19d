/**
 The sidecar format of the session store (src/session_store.c:16-33): a printer and a
 parser for the state of every active session, and the proof that parsing what was
 printed gives it back.
 */
module StoreFormat {
  import opened Limits
  import opened ByteStrings

  const KEM_PK := 1158
  const KEM_SK := 1763

  // ----- what is stored -----------------------------------------------------------------------

  datatype SkippedKey = SkippedKey(seqNo: nat, key: Bytes)

  datatype RatchetRecord = RatchetRecord(chain: Bytes, seqNo: nat, root: Bytes, sinceFold: nat, skipped: seq<SkippedKey>)

  datatype RekeyRecord = RekeyRecord(
    ephSk: Bytes, ephPk: Bytes, haveKem: bool, kemPk: Bytes, kemSk: Bytes,
    peerHave: bool, peerKemPk: Bytes, peerEphPk: Bytes,
    rekeyDue: bool, awaitingPeer: bool, published: bool, postFoldPublish: bool, publishBack: bool)

  datatype SentMsg = SentMsg(gen: nat, seqNo: nat, data: Bytes)

  datatype RelRecord = RelRecord(
    recvAcked: nat, ackDue: bool, reqPending: bool, reqGen: nat, reqFrom: nat,
    repPending: bool, repGen: nat, repFrom: nat, repPos: nat)

  datatype SessionRecord = SessionRecord(
    initiator: bool, root: Bytes, send: RatchetRecord, recv: RatchetRecord, rekey: RekeyRecord,
    sent: seq<SentMsg>, rel: RelRecord)

  // The field widths of the C structs.
  predicate IsU16(x: nat) { x < 0x1_0000 }
  predicate IsU32(x: nat) { x < 0x1_0000_0000 }

  predicate ValidSkipped(e: SkippedKey) { IsU32(e.seqNo) && |e.key| == 32 }

  predicate AllSkipped(s: seq<SkippedKey>) { s == [] || (ValidSkipped(s[0]) && AllSkipped(s[1..])) }

  predicate ValidRatchet(r: RatchetRecord) {
    && |r.chain| == 32 && IsU32(r.seqNo) && |r.root| == 32 && IsU16(r.sinceFold)
    && |r.skipped| <= SKIPPED_MAX && AllSkipped(r.skipped)
  }

  predicate ValidRekey(k: RekeyRecord) {
    && |k.ephSk| == 32 && |k.ephPk| == 32 && |k.kemPk| == KEM_PK && |k.kemSk| == KEM_SK
    && |k.peerKemPk| == KEM_PK && |k.peerEphPk| == 32
  }

  predicate ValidSent(m: SentMsg) { IsU32(m.gen) && IsU32(m.seqNo) && |m.data| <= DATA_MAX }

  predicate AllSent(s: seq<SentMsg>) { s == [] || (ValidSent(s[0]) && AllSent(s[1..])) }

  predicate ValidRel(r: RelRecord) {
    IsU32(r.recvAcked) && IsU32(r.reqGen) && IsU32(r.reqFrom) && IsU32(r.repGen) && IsU32(r.repFrom) && IsU16(r.repPos)
  }

  predicate ValidSession(s: SessionRecord) {
    && |s.root| == 32 && ValidRatchet(s.send) && ValidRatchet(s.recv) && ValidRekey(s.rekey)
    && |s.sent| <= SENT_MAX && AllSent(s.sent)
    && ValidRel(s.rel)
  }

  // ----- printing -----------------------------------------------------------------------------

  function Put8(x: bool): Bytes { [if x then 1 else 0] }

  function Put16(x: nat): Bytes
    requires IsU16(x)
  {
    [(x / 0x100) as Byte, (x % 0x100) as Byte]
  }

  function Put32(x: nat): Bytes
    requires IsU32(x)
  {
    [(x / 0x100_0000) as Byte, (x / 0x1_0000 % 0x100) as Byte, (x / 0x100 % 0x100) as Byte, (x % 0x100) as Byte]
  }

  // Each printer prints its record in front of `tail`.
  function PutSkipped(s: seq<SkippedKey>, tail: Bytes): Bytes
    requires AllSkipped(s)
  {
    if s == [] then tail else Put32(s[0].seqNo) + (s[0].key + PutSkipped(s[1..], tail))
  }

  function PutRatchet(r: RatchetRecord, tail: Bytes): Bytes
    requires ValidRatchet(r)
  {
    r.chain + (Put32(r.seqNo) + (r.root + (Put16(r.sinceFold) + (Put16(|r.skipped|) + PutSkipped(r.skipped, tail)))))
  }

  function PutRekeyFlags(k: RekeyRecord, tail: Bytes): Bytes {
    Put8(k.rekeyDue) + (Put8(k.awaitingPeer) + (Put8(k.published) + (Put8(k.postFoldPublish) + (Put8(k.publishBack) + tail))))
  }

  function PutRekeyPeer(k: RekeyRecord, tail: Bytes): Bytes {
    Put8(k.peerHave) + (k.peerKemPk + (k.peerEphPk + PutRekeyFlags(k, tail)))
  }

  function PutRekey(k: RekeyRecord, tail: Bytes): Bytes {
    k.ephSk + (k.ephPk + (Put8(k.haveKem) + (k.kemPk + (k.kemSk + PutRekeyPeer(k, tail)))))
  }

  function PutSent(s: seq<SentMsg>, tail: Bytes): Bytes
    requires AllSent(s)
  {
    if s == [] then tail
    else Put32(s[0].gen) + (Put32(s[0].seqNo) + (Put16(|s[0].data|) + (s[0].data + PutSent(s[1..], tail))))
  }

  function PutRel(r: RelRecord, tail: Bytes): Bytes
    requires ValidRel(r)
  {
    Put32(r.recvAcked) + (Put8(r.ackDue) + (Put8(r.reqPending) + (Put32(r.reqGen) + (Put32(r.reqFrom) + PutReply(r, tail)))))
  }

  function PutReply(r: RelRecord, tail: Bytes): Bytes
    requires ValidRel(r)
  {
    Put8(r.repPending) + (Put32(r.repGen) + (Put32(r.repFrom) + (Put16(r.repPos) + tail)))
  }

  function PutBody(s: SessionRecord, tail: Bytes): Bytes
    requires ValidSession(s)
  {
    Put8(s.initiator) + (s.root + PutRatchet(s.send, PutRatchet(s.recv, PutRekey(s.rekey,
      Put16(|s.sent|) + PutSent(s.sent, PutRel(s.rel, tail))))))
  }

  // ----- parsing ------------------------------------------------------------------------------

  datatype Got<+T> = Got(value: T, rest: Bytes) | Bad {
    predicate IsFailure() { Bad? }
    function PropagateFailure<U>(): Got<U> requires Bad? { Bad }
    function Extract(): (T, Bytes) requires Got? { (value, rest) }
  }

  function Take(b: Bytes, n: nat): Got<Bytes> {
    if |b| < n then Bad else Got(b[..n], b[n..])
  }

  function Take8(b: Bytes): Got<bool> {
    if |b| < 1 then Bad else Got(b[0] != 0, b[1..])
  }

  function Take16(b: Bytes): (g: Got<nat>)
    ensures g.Got? ==> IsU16(g.value)
  {
    if |b| < 2 then Bad else Got(0x100 * b[0] as int + b[1] as int, b[2..])
  }

  function Take32(b: Bytes): (g: Got<nat>)
    ensures g.Got? ==> IsU32(g.value)
  {
    if |b| < 4 then Bad
    else Got(0x100_0000 * b[0] as int + 0x1_0000 * b[1] as int + 0x100 * b[2] as int + b[3] as int, b[4..])
  }

  function TakeSkipped(b: Bytes, n: nat): Got<seq<SkippedKey>> {
    if n == 0 then Got([], b) else
      var (seqNo, b1) :- Take32(b);
      var (key, b2) :- Take(b1, 32);
      var (more, b3) :- TakeSkipped(b2, n - 1);
      Got([SkippedKey(seqNo, key)] + more, b3)
  }

  function TakeRatchet(b: Bytes): Got<RatchetRecord> {
    var (chain, b1) :- Take(b, 32);
    var (seqNo, b2) :- Take32(b1);
    var (root, b3) :- Take(b2, 32);
    var (sinceFold, b4) :- Take16(b3);
    var (n, b5) :- Take16(b4);
    if n > SKIPPED_MAX then Bad else
      var (skipped, b6) :- TakeSkipped(b5, n);
      Got(RatchetRecord(chain, seqNo, root, sinceFold, skipped), b6)
  }

  function TakeRekey(b: Bytes): Got<RekeyRecord> {
    var (ephSk, b1) :- Take(b, 32);
    var (ephPk, b2) :- Take(b1, 32);
    var (haveKem, b3) :- Take8(b2);
    var (kemPk, b4) :- Take(b3, KEM_PK);
    var (kemSk, b5) :- Take(b4, KEM_SK);
    var (peerHave, b6) :- Take8(b5);
    var (peerKemPk, b7) :- Take(b6, KEM_PK);
    var (peerEphPk, b8) :- Take(b7, 32);
    var (rekeyDue, b9) :- Take8(b8);
    var (awaitingPeer, b10) :- Take8(b9);
    var (published, b11) :- Take8(b10);
    var (postFoldPublish, b12) :- Take8(b11);
    var (publishBack, b13) :- Take8(b12);
    Got(RekeyRecord(ephSk, ephPk, haveKem, kemPk, kemSk, peerHave, peerKemPk, peerEphPk,
                    rekeyDue, awaitingPeer, published, postFoldPublish, publishBack), b13)
  }

  function TakeOneSent(b: Bytes): Got<SentMsg> {
    var (gen, b1) :- Take32(b);
    var (seqNo, b2) :- Take32(b1);
    var (n, b3) :- Take16(b2);
    if n > DATA_MAX then Bad else
      var (data, b4) :- Take(b3, n);
      Got(SentMsg(gen, seqNo, data), b4)
  }

  function TakeSent(b: Bytes, n: nat): (g: Got<seq<SentMsg>>)
    ensures g.Got? ==> |g.value| == n
  {
    if n == 0 then Got([], b) else
      var (m, b1) :- TakeOneSent(b);
      var (more, b2) :- TakeSent(b1, n - 1);
      Got([m] + more, b2)
  }

  function TakeRel(b: Bytes): Got<RelRecord> {
    var (recvAcked, b1) :- Take32(b);
    var (ackDue, b2) :- Take8(b1);
    var (reqPending, b3) :- Take8(b2);
    var (reqGen, b4) :- Take32(b3);
    var (reqFrom, b5) :- Take32(b4);
    var (repPending, b6) :- Take8(b5);
    var (repGen, b7) :- Take32(b6);
    var (repFrom, b8) :- Take32(b7);
    var (repPos, b9) :- Take16(b8);
    Got(RelRecord(recvAcked, ackDue, reqPending, reqGen, reqFrom, repPending, repGen, repFrom, repPos), b9)
  }

  function TakeBody(b: Bytes): (g: Got<SessionRecord>)
    ensures g.Got? ==> |g.value.sent| <= SENT_MAX
  {
    var (initiator, b1) :- Take8(b);
    var (root, b2) :- Take(b1, 32);
    var (send, b3) :- TakeRatchet(b2);
    var (recv, b4) :- TakeRatchet(b3);
    var (rekey, b5) :- TakeRekey(b4);
    var (n, b6) :- Take16(b5);
    if n > SENT_MAX then Bad else
      var (sent, b7) :- TakeSent(b6, n);
      var (rel, b8) :- TakeRel(b7);
      Got(SessionRecord(initiator, root, send, recv, rekey, sent, rel), b8)
  }

  // ----- round trips --------------------------------------------------------------------------

  lemma TakePut(data: Bytes, tail: Bytes)
    ensures Take(data + tail, |data|) == Got(data, tail)
  {
  }

  lemma TakePut8(x: bool, tail: Bytes)
    ensures Take8(Put8(x) + tail) == Got(x, tail)
  {
  }

  lemma TakePut16(x: nat, tail: Bytes)
    requires IsU16(x)
    ensures Take16(Put16(x) + tail) == Got(x, tail)
  {
  }

  lemma TakePut32(x: nat, tail: Bytes)
    requires IsU32(x)
    ensures Take32(Put32(x) + tail) == Got(x, tail)
  {
    var b := Put32(x) + tail;
    assert b[0] == Put32(x)[0] && b[1] == Put32(x)[1] && b[2] == Put32(x)[2] && b[3] == Put32(x)[3];
    assert (Put32(x) + tail)[4..] == tail;
    Digits(x);
  }

  lemma Digits(x: nat)
    ensures 0x100_0000 * (x / 0x100_0000) + 0x1_0000 * (x / 0x1_0000 % 0x100) + 0x100 * (x / 0x100 % 0x100) + x % 0x100 == x
  {
    assert x / 0x1_0000 == x / 0x100 / 0x100 && x / 0x100_0000 == x / 0x1_0000 / 0x100;
  }

  lemma {:induction false} SkippedRoundTrip(s: seq<SkippedKey>, tail: Bytes)
    requires AllSkipped(s)
    ensures TakeSkipped(PutSkipped(s, tail), |s|) == Got(s, tail)
  {
    hide Take, Take32, Put32;
    if s != [] {
      var rest := PutSkipped(s[1..], tail);
      TakePut32(s[0].seqNo, s[0].key + rest);
      TakePut(s[0].key, rest);
      SkippedRoundTrip(s[1..], tail);
      assert s == [s[0]] + s[1..];
    }
  }

  lemma RatchetRoundTrip(r: RatchetRecord, tail: Bytes)
    requires ValidRatchet(r)
    ensures TakeRatchet(PutRatchet(r, tail)) == Got(r, tail)
  {
    hide Take, Take16, Take32, Put16, Put32, TakeSkipped, PutSkipped;
    var t5 := PutSkipped(r.skipped, tail);
    var t4 := Put16(|r.skipped|) + t5;
    var t3 := Put16(r.sinceFold) + t4;
    var t2 := r.root + t3;
    TakePut(r.chain, Put32(r.seqNo) + t2);
    TakePut32(r.seqNo, t2);
    TakePut(r.root, t3);
    TakePut16(r.sinceFold, t4);
    TakePut16(|r.skipped|, t5);
    SkippedRoundTrip(r.skipped, tail);
  }

  lemma RekeyRoundTrip(k: RekeyRecord, tail: Bytes)
    requires ValidRekey(k)
    ensures TakeRekey(PutRekey(k, tail)) == Got(k, tail)
  {
    hide Take, Take8, Put8;
    var t12 := Put8(k.publishBack) + tail;
    var t11 := Put8(k.postFoldPublish) + t12;
    var t10 := Put8(k.published) + t11;
    var t9 := Put8(k.awaitingPeer) + t10;
    var t8 := Put8(k.rekeyDue) + t9;
    var t7 := k.peerEphPk + t8;
    var t6 := k.peerKemPk + t7;
    var t5 := Put8(k.peerHave) + t6;
    var t4 := k.kemSk + t5;
    var t3 := k.kemPk + t4;
    var t2 := Put8(k.haveKem) + t3;
    var t1 := k.ephPk + t2;
    TakePut(k.ephSk, t1);
    TakePut(k.ephPk, t2);
    TakePut8(k.haveKem, t3);
    TakePut(k.kemPk, t4);
    TakePut(k.kemSk, t5);
    TakePut8(k.peerHave, t6);
    TakePut(k.peerKemPk, t7);
    TakePut(k.peerEphPk, t8);
    TakePut8(k.rekeyDue, t9);
    TakePut8(k.awaitingPeer, t10);
    TakePut8(k.published, t11);
    TakePut8(k.postFoldPublish, t12);
    TakePut8(k.publishBack, tail);
  }

  lemma {:induction false} SentRoundTrip(s: seq<SentMsg>, tail: Bytes)
    requires AllSent(s)
    ensures TakeSent(PutSent(s, tail), |s|) == Got(s, tail)
  {
    hide Take, Take16, Take32, Put16, Put32;
    if s != [] {
      var m, t3 := s[0], PutSent(s[1..], tail);
      var t2 := m.data + t3;
      var t1 := Put16(|m.data|) + t2;
      TakePut32(m.gen, Put32(m.seqNo) + t1);
      TakePut32(m.seqNo, t1);
      TakePut16(|m.data|, t2);
      TakePut(m.data, t3);
      SentRoundTrip(s[1..], tail);
      assert s == [s[0]] + s[1..];
    }
  }

  lemma RelRoundTrip(r: RelRecord, tail: Bytes)
    requires ValidRel(r)
    ensures TakeRel(PutRel(r, tail)) == Got(r, tail)
  {
    hide Take8, Take16, Take32, Put8, Put16, Put32;
    var t8 := Put16(r.repPos) + tail;
    var t7 := Put32(r.repFrom) + t8;
    var t6 := Put32(r.repGen) + t7;
    var t5 := Put8(r.repPending) + t6;
    var t4 := Put32(r.reqFrom) + t5;
    var t3 := Put32(r.reqGen) + t4;
    var t2 := Put8(r.reqPending) + t3;
    var t1 := Put8(r.ackDue) + t2;
    TakePut32(r.recvAcked, t1);
    TakePut8(r.ackDue, t2);
    TakePut8(r.reqPending, t3);
    TakePut32(r.reqGen, t4);
    TakePut32(r.reqFrom, t5);
    TakePut8(r.repPending, t6);
    TakePut32(r.repGen, t7);
    TakePut32(r.repFrom, t8);
    TakePut16(r.repPos, tail);
  }

  // Parsing a printed session gives it back and stops exactly behind it.
  lemma BodyRoundTrip(s: SessionRecord, tail: Bytes)
    requires ValidSession(s)
    ensures TakeBody(PutBody(s, tail)) == Got(s, tail)
  {
    hide Take, Take8, Take16, Put8, Put16, TakeRatchet, PutRatchet, TakeRekey, PutRekey, TakeSent, PutSent, TakeRel, PutRel;
    var t6 := PutRel(s.rel, tail);
    var t5 := PutSent(s.sent, t6);
    var t4 := Put16(|s.sent|) + t5;
    var t3 := PutRekey(s.rekey, t4);
    var t2 := PutRatchet(s.recv, t3);
    var t1 := PutRatchet(s.send, t2);
    TakePut8(s.initiator, s.root + t1);
    TakePut(s.root, t1);
    RatchetRoundTrip(s.send, t2);
    RatchetRoundTrip(s.recv, t3);
    RekeyRoundTrip(s.rekey, t4);
    TakePut16(|s.sent|, t5);
    SentRoundTrip(s.sent, t6);
    RelRoundTrip(s.rel, tail);
  }
}
