/**
 The sidecar file byte by byte (src/session_store.c:14-33, 62-131, 143-153): where each
 field lies and which byte of a number comes first. A round trip alone would hold of any
 order that the printer and the parser share.
 */
module StoreLayout {
  import opened Limits
  import opened ByteStrings
  import opened StoreFormat
  import opened SessionStore

  // The number in the n bytes from `at` on, most significant byte first.
  function BigEndian(b: Bytes, at: nat, n: nat): (x: nat)
    requires at + n <= |b|
  {
    if n == 0 then 0 else 0x100 * BigEndian(b, at, n - 1) + b[at + n - 1] as nat
  }

  function Flag(x: bool): Byte { if x then 1 else 0 }

  lemma Peel(b: Bytes, at: nat, part: Bytes, rest: Bytes)
    requires at <= |b| && b[at..] == part + rest
    ensures at + |part| + |rest| == |b| && b[at..at + |part|] == part && b[at + |part|..] == rest
  {
    assert b[at..][..|part|] == part && b[at..][|part|..] == rest;
  }

  lemma PeelFlag(b: Bytes, at: nat, x: bool, rest: Bytes)
    requires at <= |b| && b[at..] == Put8(x) + rest
    ensures at + 1 + |rest| == |b| && b[at] == Flag(x) && b[at + 1..] == rest
  {
    Peel(b, at, Put8(x), rest);
    assert b[at] == b[at..][0];
  }

  lemma Peel16(b: Bytes, at: nat, x: nat, rest: Bytes)
    requires IsU16(x) && at <= |b| && b[at..] == Put16(x) + rest
    ensures at + 2 + |rest| == |b| && BigEndian(b, at, 2) == x && b[at + 2..] == rest
  {
    Peel(b, at, Put16(x), rest);
    assert b[at] == b[at..][0] && b[at + 1] == b[at..][1];
    assert BigEndian(b, at, 1) == 0x100 * BigEndian(b, at, 0) + b[at] as nat;
  }

  lemma Peel32(b: Bytes, at: nat, x: nat, rest: Bytes)
    requires IsU32(x) && at <= |b| && b[at..] == Put32(x) + rest
    ensures at + 4 + |rest| == |b| && BigEndian(b, at, 4) == x && b[at + 4..] == rest
  {
    Peel(b, at, Put32(x), rest);
    var p := Put32(x);
    assert b[at..][..4] == p;
    assert b[at] == p[0] && b[at + 1] == p[1] && b[at + 2] == p[2] && b[at + 3] == p[3];
    assert BigEndian(b, at, 1) == 0x100 * BigEndian(b, at, 0) + b[at] as nat;
    assert BigEndian(b, at, 2) == 0x100 * BigEndian(b, at, 1) + b[at + 1] as nat;
    assert BigEndian(b, at, 3) == 0x100 * BigEndian(b, at, 2) + b[at + 2] as nat;
    Digits(x);
  }

  // ----- one direction --------------------------------------------------------------------

  ghost predicate SkippedAt(b: Bytes, at: nat, s: seq<SkippedKey>) {
    && at + 36 * |s| <= |b|
    && forall i | 0 <= i < |s| ::
         BigEndian(b, at + 36 * i, 4) == s[i].seqNo && b[at + 36 * i + 4..at + 36 * i + 36] == s[i].key
  }

  lemma {:induction false} SkippedLayout(b: Bytes, at: nat, s: seq<SkippedKey>, tail: Bytes)
    requires AllSkipped(s) && at <= |b| && b[at..] == PutSkipped(s, tail)
    ensures SkippedAt(b, at, s) && at + 36 * |s| + |tail| == |b| && b[at + 36 * |s|..] == tail
    decreases |s|
  {
    hide Put32, BigEndian;
    if s != [] {
      var rest := PutSkipped(s[1..], tail);
      Peel32(b, at, s[0].seqNo, s[0].key + rest);
      Peel(b, at + 4, s[0].key, rest);
      SkippedLayout(b, at + 36, s[1..], tail);
      forall i | 0 <= i < |s|
        ensures BigEndian(b, at + 36 * i, 4) == s[i].seqNo && b[at + 36 * i + 4..at + 36 * i + 36] == s[i].key
      {
        if i > 0 {
          var j := i - 1;
          assert s[1..][j] == s[i] && at + 36 + 36 * j == at + 36 * i;
        }
      }
    }
  }

  function RatchetSize(r: RatchetRecord): nat { 72 + 36 * |r.skipped| }

  ghost predicate RatchetAt(b: Bytes, at: nat, r: RatchetRecord) {
    && at + RatchetSize(r) <= |b|
    && b[at..at + 32] == r.chain && BigEndian(b, at + 32, 4) == r.seqNo && b[at + 36..at + 68] == r.root
    && BigEndian(b, at + 68, 2) == r.sinceFold && BigEndian(b, at + 70, 2) == |r.skipped|
    && SkippedAt(b, at + 72, r.skipped)
  }

  lemma RatchetLayout(b: Bytes, at: nat, r: RatchetRecord, tail: Bytes)
    requires ValidRatchet(r) && at <= |b| && b[at..] == PutRatchet(r, tail)
    ensures RatchetAt(b, at, r) && at + RatchetSize(r) <= |b| && b[at + RatchetSize(r)..] == tail
  {
    hide Put16, Put32, PutSkipped, BigEndian, SkippedAt;
    var t4 := PutSkipped(r.skipped, tail);
    var t3 := Put16(|r.skipped|) + t4;
    var t2 := Put16(r.sinceFold) + t3;
    var t1 := r.root + t2;
    Peel(b, at, r.chain, Put32(r.seqNo) + t1);
    Peel32(b, at + 32, r.seqNo, t1);
    Peel(b, at + 36, r.root, t2);
    Peel16(b, at + 68, r.sinceFold, t3);
    Peel16(b, at + 70, |r.skipped|, t4);
    SkippedLayout(b, at + 72, r.skipped, tail);
  }

  // ----- the re-key state ------------------------------------------------------------------

  const REKEY_SIZE := 4182

  ghost predicate OwnPairAt(b: Bytes, at: nat, k: RekeyRecord) {
    && at + 2986 <= |b|
    && b[at..at + 32] == k.ephSk && b[at + 32..at + 64] == k.ephPk && b[at + 64] == Flag(k.haveKem)
    && b[at + 65..at + 1223] == k.kemPk && b[at + 1223..at + 2986] == k.kemSk
  }

  ghost predicate PeerPairAt(b: Bytes, at: nat, k: RekeyRecord) {
    && at + 1191 <= |b|
    && b[at] == Flag(k.peerHave) && b[at + 1..at + 1159] == k.peerKemPk && b[at + 1159..at + 1191] == k.peerEphPk
  }

  ghost predicate FlagsAt(b: Bytes, at: nat, k: RekeyRecord) {
    && at + 5 <= |b|
    && b[at] == Flag(k.rekeyDue) && b[at + 1] == Flag(k.awaitingPeer) && b[at + 2] == Flag(k.published)
    && b[at + 3] == Flag(k.postFoldPublish) && b[at + 4] == Flag(k.publishBack)
  }

  ghost predicate RekeyAt(b: Bytes, at: nat, k: RekeyRecord) {
    OwnPairAt(b, at, k) && PeerPairAt(b, at + 2986, k) && FlagsAt(b, at + 4177, k)
  }

  lemma RekeyLayout(b: Bytes, at: nat, k: RekeyRecord, tail: Bytes)
    requires ValidRekey(k) && at <= |b| && b[at..] == PutRekey(k, tail)
    ensures RekeyAt(b, at, k) && at + REKEY_SIZE <= |b| && b[at + REKEY_SIZE..] == tail
  {
    hide OwnPairAt, PeerPairAt, FlagsAt, PutRekeyPeer, PutRekeyFlags, PutRekey;
    OwnPairLayout(b, at, k, tail);
    PeerPairLayout(b, at + 2986, k, tail);
    FlagsLayout(b, at + 4177, k, tail);
  }

  lemma OwnPairLayout(b: Bytes, at: nat, k: RekeyRecord, tail: Bytes)
    requires ValidRekey(k) && at <= |b| && b[at..] == PutRekey(k, tail)
    ensures OwnPairAt(b, at, k) && at + 2986 <= |b| && b[at + 2986..] == PutRekeyPeer(k, tail)
  {
    hide Put8, PutRekeyPeer;
    var t4 := k.kemSk + PutRekeyPeer(k, tail);
    var t3 := k.kemPk + t4;
    var t2 := Put8(k.haveKem) + t3;
    Peel(b, at, k.ephSk, k.ephPk + t2);
    Peel(b, at + 32, k.ephPk, t2);
    PeelFlag(b, at + 64, k.haveKem, t3);
    Peel(b, at + 65, k.kemPk, t4);
    Peel(b, at + 1223, k.kemSk, PutRekeyPeer(k, tail));
  }

  lemma PeerPairLayout(b: Bytes, at: nat, k: RekeyRecord, tail: Bytes)
    requires ValidRekey(k) && at <= |b| && b[at..] == PutRekeyPeer(k, tail)
    ensures PeerPairAt(b, at, k) && at + 1191 <= |b| && b[at + 1191..] == PutRekeyFlags(k, tail)
  {
    hide Put8, PutRekeyFlags;
    var t2 := k.peerEphPk + PutRekeyFlags(k, tail);
    PeelFlag(b, at, k.peerHave, k.peerKemPk + t2);
    Peel(b, at + 1, k.peerKemPk, t2);
    Peel(b, at + 1159, k.peerEphPk, PutRekeyFlags(k, tail));
  }

  lemma FlagsLayout(b: Bytes, at: nat, k: RekeyRecord, tail: Bytes)
    requires at <= |b| && b[at..] == PutRekeyFlags(k, tail)
    ensures FlagsAt(b, at, k) && at + 5 <= |b| && b[at + 5..] == tail
  {
    hide Put8;
    var t4 := Put8(k.publishBack) + tail;
    var t3 := Put8(k.postFoldPublish) + t4;
    var t2 := Put8(k.published) + t3;
    PeelFlag(b, at, k.rekeyDue, Put8(k.awaitingPeer) + t2);
    PeelFlag(b, at + 1, k.awaitingPeer, t2);
    PeelFlag(b, at + 2, k.published, t3);
    PeelFlag(b, at + 3, k.postFoldPublish, t4);
    PeelFlag(b, at + 4, k.publishBack, tail);
  }

  // ----- the buffer of sent texts and the recovery state --------------------------------------

  function SentSize(s: seq<SentMsg>): nat { if s == [] then 0 else 10 + |s[0].data| + SentSize(s[1..]) }

  ghost predicate SentAt(b: Bytes, at: nat, s: seq<SentMsg>)
    decreases |s|
  {
    s == []
    || (at + 10 + |s[0].data| <= |b|
        && BigEndian(b, at, 4) == s[0].gen && BigEndian(b, at + 4, 4) == s[0].seqNo
        && BigEndian(b, at + 8, 2) == |s[0].data| && b[at + 10..at + 10 + |s[0].data|] == s[0].data
        && SentAt(b, at + 10 + |s[0].data|, s[1..]))
  }

  lemma {:induction false} SentLayout(b: Bytes, at: nat, s: seq<SentMsg>, tail: Bytes)
    requires AllSent(s) && at <= |b| && b[at..] == PutSent(s, tail)
    ensures SentAt(b, at, s) && at + SentSize(s) + |tail| == |b| && b[at + SentSize(s)..] == tail
    decreases |s|
  {
    hide Put16, Put32, BigEndian;
    if s != [] {
      var m, t3 := s[0], PutSent(s[1..], tail);
      var t2 := m.data + t3;
      var t1 := Put16(|m.data|) + t2;
      Peel32(b, at, m.gen, Put32(m.seqNo) + t1);
      Peel32(b, at + 4, m.seqNo, t1);
      Peel16(b, at + 8, |m.data|, t2);
      Peel(b, at + 10, m.data, t3);
      SentLayout(b, at + 10 + |m.data|, s[1..], tail);
    }
  }

  const REL_SIZE := 25

  ghost predicate RelAt(b: Bytes, at: nat, r: RelRecord) {
    && at + REL_SIZE <= |b|
    && BigEndian(b, at, 4) == r.recvAcked && b[at + 4] == Flag(r.ackDue) && b[at + 5] == Flag(r.reqPending)
    && BigEndian(b, at + 6, 4) == r.reqGen && BigEndian(b, at + 10, 4) == r.reqFrom && b[at + 14] == Flag(r.repPending)
    && BigEndian(b, at + 15, 4) == r.repGen && BigEndian(b, at + 19, 4) == r.repFrom && BigEndian(b, at + 23, 2) == r.repPos
  }

  lemma RelLayout(b: Bytes, at: nat, r: RelRecord, tail: Bytes)
    requires ValidRel(r) && at <= |b| && b[at..] == PutRel(r, tail)
    ensures RelAt(b, at, r) && b[at + REL_SIZE..] == tail
  {
    hide Put8, Put16, Put32, BigEndian, PutReply;
    var t4 := PutReply(r, tail);
    var t3 := Put32(r.reqFrom) + t4;
    var t2 := Put8(r.reqPending) + (Put32(r.reqGen) + t3);
    Peel32(b, at, r.recvAcked, Put8(r.ackDue) + t2);
    PeelFlag(b, at + 4, r.ackDue, t2);
    PeelFlag(b, at + 5, r.reqPending, Put32(r.reqGen) + t3);
    Peel32(b, at + 6, r.reqGen, t3);
    Peel32(b, at + 10, r.reqFrom, t4);
    ReplyLayout(b, at + 14, r, tail);
  }

  lemma ReplyLayout(b: Bytes, at: nat, r: RelRecord, tail: Bytes)
    requires ValidRel(r) && at <= |b| && b[at..] == PutReply(r, tail)
    ensures at + 11 + |tail| == |b| && b[at + 11..] == tail
    ensures b[at] == Flag(r.repPending) && BigEndian(b, at + 1, 4) == r.repGen
    ensures BigEndian(b, at + 5, 4) == r.repFrom && BigEndian(b, at + 9, 2) == r.repPos
  {
    hide Put8, Put16, Put32, BigEndian;
    var t3 := Put16(r.repPos) + tail;
    var t2 := Put32(r.repFrom) + t3;
    PeelFlag(b, at, r.repPending, Put32(r.repGen) + t2);
    Peel32(b, at + 1, r.repGen, t2);
    Peel32(b, at + 5, r.repFrom, t3);
    Peel16(b, at + 9, r.repPos, tail);
  }

  // ----- a session, and the file ----------------------------------------------------------------

  function BodySize(s: SessionRecord): nat {
    33 + RatchetSize(s.send) + RatchetSize(s.recv) + REKEY_SIZE + 2 + SentSize(s.sent) + REL_SIZE
  }

  ghost predicate BodyAt(b: Bytes, at: nat, s: SessionRecord) {
    var recv := at + 33 + RatchetSize(s.send);
    var rekey := recv + RatchetSize(s.recv);
    var sent := rekey + REKEY_SIZE;
    && at + BodySize(s) <= |b|
    && b[at] == Flag(s.initiator) && b[at + 1..at + 33] == s.root
    && RatchetAt(b, at + 33, s.send) && RatchetAt(b, recv, s.recv) && RekeyAt(b, rekey, s.rekey)
    && BigEndian(b, sent, 2) == |s.sent| && SentAt(b, sent + 2, s.sent)
    && RelAt(b, sent + 2 + SentSize(s.sent), s.rel)
  }

  lemma BodyLayout(b: Bytes, at: nat, s: SessionRecord, tail: Bytes)
    requires ValidSession(s) && at <= |b| && b[at..] == PutBody(s, tail)
    ensures BodyAt(b, at, s) && b[at + BodySize(s)..] == tail
  {
    hide Put8, Put16, PutRatchet, PutRekey, PutSent, PutRel, BigEndian, RatchetAt, RekeyAt, SentAt, RelAt,
         RatchetSize, SentSize;
    var t6 := PutRel(s.rel, tail);
    var t5 := PutSent(s.sent, t6);
    var t4 := Put16(|s.sent|) + t5;
    var t3 := PutRekey(s.rekey, t4);
    var t2 := PutRatchet(s.recv, t3);
    var t1 := PutRatchet(s.send, t2);
    PeelFlag(b, at, s.initiator, s.root + t1);
    Peel(b, at + 1, s.root, t1);
    var recv := at + 33 + RatchetSize(s.send);
    RatchetLayout(b, at + 33, s.send, t2);
    RatchetLayout(b, recv, s.recv, t3);
    var rekey := recv + RatchetSize(s.recv);
    RekeyLayout(b, rekey, s.rekey, t4);
    var sent := rekey + REKEY_SIZE;
    Peel16(b, sent, |s.sent|, t5);
    SentLayout(b, sent + 2, s.sent, t6);
    RelLayout(b, sent + 2 + SentSize(s.sent), s.rel, tail);
    RelFits(b, sent + 2 + SentSize(s.sent), s.rel);
  }

  lemma RelFits(b: Bytes, at: nat, r: RelRecord)
    requires RelAt(b, at, r)
    ensures at + REL_SIZE <= |b|
  {
  }

  // The entries of the active sessions from number i on: the friend number, then the session.
  ghost predicate EntriesAt(b: Bytes, at: nat, t: Table, i: nat)
    requires i <= |t|
    decreases |t| - i
  {
    if i == |t| then at == |b|
    else if !t[i].active then EntriesAt(b, at, t, i + 1)
    else
      && at < |b| && b[at] as nat == i && BodyAt(b, at + 1, RecordOf(t[i]))
      && EntriesAt(b, at + 1 + BodySize(RecordOf(t[i])), t, i + 1)
  }

  lemma {:induction false} EntriesLayout(b: Bytes, at: nat, t: Table, i: nat)
    requires i <= |t| && Storable(t) && at <= |b| && b[at..] == PutEntries(t, i, [])
    ensures EntriesAt(b, at, t, i)
    decreases |t| - i
  {
    hide PutBody, BodyAt, BodySize, RecordOf, ValidSession;
    if i < |t| {
      if t[i].active {
        var r, rest := RecordOf(t[i]), PutEntries(t, i + 1, []);
        assert ValidSlot(t[i]);
        Peel(b, at, [i as Byte], PutBody(r, rest));
        assert b[at] == b[at..][0];
        BodyLayout(b, at + 1, r, rest);
        BodyFits(b, at + 1, r);
        EntriesLayout(b, at + 1 + BodySize(r), t, i + 1);
      } else {
        EntriesLayout(b, at, t, i + 1);
      }
    }
  }

  lemma BodyFits(b: Bytes, at: nat, s: SessionRecord)
    requires BodyAt(b, at, s)
    ensures at + BodySize(s) <= |b|
  {
  }

  // The file: the magic "TTSES1", the number of sessions, and the sessions in the order of
  // their friend numbers, with nothing behind the last.
  lemma FileLayout(t: Table)
    requires Storable(t)
    ensures var b := Plain(t);
            && |b| >= 7 && b[..6] == [0x54, 0x54, 0x53, 0x45, 0x53, 0x31]
            && b[6] as nat == ActiveFrom(t, 0) % 256 && EntriesAt(b, 7, t, 0)
  {
    hide PutEntries, EntriesAt, ActiveFrom;
    var b := Plain(t);
    assert b[7..] == PutEntries(t, 0, []);
    EntriesLayout(b, 7, t, 0);
  }
}
