/**
 The printer and the parser of the session store in place (src/session_store.c:39-155,
 208-350): a buffer that doubles as it grows, and a cursor over the loaded bytes. Both
 are proved against the printers and parsers of StoreFormat.
 */
module SessionFiles {
  import opened Options
  import opened Limits
  import opened ByteStrings
  import opened StoreFormat
  import opened SessionStore

  // ----- writing --------------------------------------------------------------------------------

  class Buf {
    var p: array<Byte>
    var len: nat

    ghost predicate Valid()
      reads this
    {
      len <= p.Length
    }

    ghost function Contents(): Bytes
      requires Valid()
      reads this, p
    {
      p[..len]
    }

    constructor ()
      ensures Valid() && fresh(p) && Contents() == []
    {
      p, len := new Byte[0], 0;
    }

    // buf_put: append, doubling the capacity as needed. `tail` is what is still to come.
    method Put(data: Bytes, ghost tail: Bytes)
      requires Valid()
      modifies this, p
      ensures Valid() && (p == old(p) || fresh(p))
      ensures |Contents()| == |old(Contents())| + |data|
      ensures Contents() + tail == old(Contents()) + (data + tail)
    {
      ghost var was := Contents();
      Reserve(len + |data|);
      forall i | 0 <= i < |data| { p[len + i] := data[i]; }
      len := len + |data|;
      assert Contents() == was + data;
      Assoc(was, data, tail);
    }

    method Reserve(n: nat)
      requires Valid()
      modifies this`p
      ensures Valid() && n <= p.Length && Contents() == old(Contents()) && (p == old(p) || fresh(p))
    {
      if n > p.Length {
        var cap := if p.Length > 0 then p.Length * 2 else 4096;
        while cap < n
          invariant cap >= p.Length && cap > 0
          decreases n - cap
        {
          cap := cap * 2;
        }
        var grown := new Byte[cap](i => 0);
        forall i | 0 <= i < len { grown[i] := p[i]; }
        assert grown[..len] == p[..len];
        p := grown;
      }
    }
  }

  // ratchet_put
  method RatchetPut(b: Buf, r: RatchetRecord, ghost tail: Bytes)
    requires b.Valid() && ValidRatchet(r)
    modifies b, b.p
    ensures b.Valid() && (b.p == old(b.p) || fresh(b.p)) && |b.Contents()| >= |old(b.Contents())|
    ensures b.Contents() + tail == old(b.Contents()) + PutRatchet(r, tail)
  {
    hide Buf.Contents, Put16, Put32;
    ghost var t5 := PutSkipped(r.skipped, tail);
    ghost var t4 := Put16(|r.skipped|) + t5;
    ghost var t3 := Put16(r.sinceFold) + t4;
    ghost var t2 := r.root + t3;
    b.Put(r.chain, Put32(r.seqNo) + t2);
    b.Put(Put32(r.seqNo), t2);
    b.Put(r.root, t3);
    b.Put(Put16(r.sinceFold), t4);
    b.Put(Put16(|r.skipped|), t5);
    SkippedPut(b, r.skipped, tail);
  }

  method SkippedPut(b: Buf, s: seq<SkippedKey>, ghost tail: Bytes)
    requires b.Valid() && AllSkipped(s)
    modifies b, b.p
    ensures b.Valid() && (b.p == old(b.p) || fresh(b.p)) && |b.Contents()| >= |old(b.Contents())|
    ensures b.Contents() + tail == old(b.Contents()) + PutSkipped(s, tail)
  {
    hide Buf.Contents, Put32;
    ghost var goal := b.Contents() + PutSkipped(s, tail);
    assert s[0..] == s;
    for i := 0 to |s|
      invariant b.Valid() && (b.p == old(b.p) || fresh(b.p)) && |b.Contents()| >= |old(b.Contents())|
      invariant AllSkipped(s[i..])
      invariant b.Contents() + PutSkipped(s[i..], tail) == goal
    {
      assert s[i..][1..] == s[i + 1..];
      ghost var more := PutSkipped(s[i + 1..], tail);
      b.Put(Put32(s[i].seqNo), s[i].key + more);
      b.Put(s[i].key, more);
    }
  }

  method RekeyPut(b: Buf, k: RekeyRecord, ghost tail: Bytes)
    requires b.Valid()
    modifies b, b.p
    ensures b.Valid() && (b.p == old(b.p) || fresh(b.p)) && |b.Contents()| >= |old(b.Contents())|
    ensures b.Contents() + tail == old(b.Contents()) + PutRekey(k, tail)
  {
    hide Buf.Contents, Put8;
    ghost var t5 := PutRekeyPeer(k, tail);
    ghost var t4 := k.kemSk + t5;
    ghost var t3 := k.kemPk + t4;
    ghost var t2 := Put8(k.haveKem) + t3;
    b.Put(k.ephSk, k.ephPk + t2);
    b.Put(k.ephPk, t2);
    b.Put(Put8(k.haveKem), t3);
    b.Put(k.kemPk, t4);
    b.Put(k.kemSk, t5);
    RekeyPeerPut(b, k, tail);
  }

  method RekeyPeerPut(b: Buf, k: RekeyRecord, ghost tail: Bytes)
    requires b.Valid()
    modifies b, b.p
    ensures b.Valid() && (b.p == old(b.p) || fresh(b.p)) && |b.Contents()| >= |old(b.Contents())|
    ensures b.Contents() + tail == old(b.Contents()) + PutRekeyPeer(k, tail)
  {
    hide Buf.Contents, Put8;
    ghost var t8 := PutRekeyFlags(k, tail);
    ghost var t7 := k.peerEphPk + t8;
    b.Put(Put8(k.peerHave), k.peerKemPk + t7);
    b.Put(k.peerKemPk, t7);
    b.Put(k.peerEphPk, t8);
    RekeyFlagsPut(b, k, tail);
  }

  method RekeyFlagsPut(b: Buf, k: RekeyRecord, ghost tail: Bytes)
    requires b.Valid()
    modifies b, b.p
    ensures b.Valid() && (b.p == old(b.p) || fresh(b.p)) && |b.Contents()| >= |old(b.Contents())|
    ensures b.Contents() + tail == old(b.Contents()) + PutRekeyFlags(k, tail)
  {
    hide Buf.Contents, Put8;
    ghost var t4 := Put8(k.publishBack) + tail;
    ghost var t3 := Put8(k.postFoldPublish) + t4;
    ghost var t2 := Put8(k.published) + t3;
    b.Put(Put8(k.rekeyDue), Put8(k.awaitingPeer) + t2);
    b.Put(Put8(k.awaitingPeer), t2);
    b.Put(Put8(k.published), t3);
    b.Put(Put8(k.postFoldPublish), t4);
    b.Put(Put8(k.publishBack), tail);
  }

  // The unacknowledged texts, oldest first, wherever the ring's head is.
  method SentPut(b: Buf, r: Ring, ghost tail: Bytes)
    requires b.Valid() && AllSent(Live(r))
    modifies b, b.p
    ensures b.Valid() && (b.p == old(b.p) || fresh(b.p)) && |b.Contents()| >= |old(b.Contents())|
    ensures b.Contents() + tail == old(b.Contents()) + PutSent(Live(r), tail)
  {
    hide Buf.Contents, Put16, Put32;
    ghost var s := Live(r);
    ghost var goal := b.Contents() + PutSent(s, tail);
    assert s[0..] == s;
    for i := 0 to r.count
      invariant b.Valid() && (b.p == old(b.p) || fresh(b.p)) && |b.Contents()| >= |old(b.Contents())|
      invariant AllSent(s[i..])
      invariant b.Contents() + PutSent(s[i..], tail) == goal
    {
      assert s[i..][1..] == s[i + 1..];
      OneSentPut(b, r.m[(r.head + i) % SENT_MAX], PutSent(s[i + 1..], tail));
    }
  }

  method OneSentPut(b: Buf, m: SentMsg, ghost tail: Bytes)
    requires b.Valid() && ValidSent(m)
    modifies b, b.p
    ensures b.Valid() && (b.p == old(b.p) || fresh(b.p)) && |b.Contents()| >= |old(b.Contents())|
    ensures b.Contents() + tail
         == old(b.Contents()) + (Put32(m.gen) + (Put32(m.seqNo) + (Put16(|m.data|) + (m.data + tail))))
  {
    hide Buf.Contents, Put16, Put32;
    ghost var t1 := Put16(|m.data|) + (m.data + tail);
    b.Put(Put32(m.gen), Put32(m.seqNo) + t1);
    b.Put(Put32(m.seqNo), t1);
    b.Put(Put16(|m.data|), m.data + tail);
    b.Put(m.data, tail);
  }

  method RelPut(b: Buf, r: RelRecord, ghost tail: Bytes)
    requires b.Valid() && ValidRel(r)
    modifies b, b.p
    ensures b.Valid() && (b.p == old(b.p) || fresh(b.p)) && |b.Contents()| >= |old(b.Contents())|
    ensures b.Contents() + tail == old(b.Contents()) + PutRel(r, tail)
  {
    hide Buf.Contents, Put8, Put16, Put32, PutReply;
    ghost var t5 := PutReply(r, tail);
    ghost var t4 := Put32(r.reqFrom) + t5;
    ghost var t3 := Put32(r.reqGen) + t4;
    ghost var t2 := Put8(r.reqPending) + t3;
    b.Put(Put32(r.recvAcked), Put8(r.ackDue) + t2);
    b.Put(Put8(r.ackDue), t2);
    b.Put(Put8(r.reqPending), t3);
    b.Put(Put32(r.reqGen), t4);
    b.Put(Put32(r.reqFrom), t5);
    ReplyPut(b, r, tail);
  }

  method ReplyPut(b: Buf, r: RelRecord, ghost tail: Bytes)
    requires b.Valid() && ValidRel(r)
    modifies b, b.p
    ensures b.Valid() && (b.p == old(b.p) || fresh(b.p)) && |b.Contents()| >= |old(b.Contents())|
    ensures b.Contents() + tail == old(b.Contents()) + PutReply(r, tail)
  {
    hide Buf.Contents, Put8, Put16, Put32;
    ghost var t8 := Put16(r.repPos) + tail;
    ghost var t7 := Put32(r.repFrom) + t8;
    ghost var t6 := Put32(r.repGen) + t7;
    b.Put(Put8(r.repPending), t6);
    b.Put(Put32(r.repGen), t7);
    b.Put(Put32(r.repFrom), t8);
    b.Put(Put16(r.repPos), tail);
  }

  // session_put: the first byte is a placeholder for the friend number
  method SessionPut(b: Buf, s: Slot, ghost tail: Bytes)
    requires b.Valid() && ValidSlot(s)
    modifies b, b.p
    ensures b.Valid() && (b.p == old(b.p) || fresh(b.p)) && |b.Contents()| > |old(b.Contents())|
    ensures b.Contents() + tail == old(b.Contents()) + ([0] + PutBody(RecordOf(s), tail))
  {
    hide Buf.Contents, Put8, Put16, PutRatchet, PutRekey, PutSent, PutRel;
    ghost var t6 := PutRel(s.rel, tail);
    ghost var t5 := PutSent(Live(s.ring), t6);
    ghost var t4 := Put16(s.ring.count) + t5;
    ghost var t3 := PutRekey(s.rekey, t4);
    ghost var t2 := PutRatchet(s.recv, t3);
    ghost var t1 := PutRatchet(s.send, t2);
    b.Put([0], Put8(s.initiator) + (s.root + t1));
    b.Put(Put8(s.initiator), s.root + t1);
    b.Put(s.root, t1);
    RatchetPut(b, s.send, t2);
    RatchetPut(b, s.recv, t3);
    RekeyPut(b, s.rekey, t4);
    b.Put(Put16(s.ring.count), t5);
    SentPut(b, s.ring, t6);
    RelPut(b, s.rel, tail);
  }

  // Overwriting the placeholder.
  lemma Patched(start: Bytes, now: Bytes, body: Bytes, fn: Byte, tail: Bytes)
    requires |start| < |now| && now + tail == start + ([0] + body)
    ensures now[|start| := fn] + tail == start + ([fn] + body)
  {
    assert now[|start| := fn] + tail == (now + tail)[|start| := fn];
  }

  // One turn of the loop of tt_session_store_save.
  method EntryPut(b: Buf, s: Slot, fn: nat, ghost tail: Bytes)
    requires b.Valid() && ValidSlot(s) && fn < 256
    modifies b, b.p
    ensures b.Valid() && (b.p == old(b.p) || fresh(b.p))
    ensures b.Contents() + tail == old(b.Contents()) + ([fn as Byte] + PutBody(RecordOf(s), tail))
  {
    hide PutBody;
    ghost var start := b.Contents();
    var off := b.len;
    SessionPut(b, s, tail);
    ghost var now := b.Contents();
    b.p[off] := fn as Byte;
    assert b.Contents() == now[off := fn as Byte];
    Patched(start, now, PutBody(RecordOf(s), tail), fn as Byte, tail);
  }

  // tt_session_store_save
  method SaveTable(table: array<Slot>, keyed: bool) returns (file: Saved)
    requires table.Length <= MAX_FRIENDS && Storable(table[..])
    ensures file == Save(table[..], keyed)
  {
    hide PutBody, ValidSlot;
    ghost var t: Table := table[..];
    var count := 0;
    for fn := 0 to table.Length
      invariant count < 256 && count == (ActiveFrom(t, 0) - ActiveFrom(t, fn)) % 256
    {
      if table[fn].active { count := (count + 1) % 256; }
    }
    if count == 0 { return Removed; }
    var bytes := EntriesPut(table, count);
    if keyed && |bytes| > FILE_MAX { return Untouched; }
    file := Written(bytes);
  }

  method EntriesPut(table: array<Slot>, count: nat) returns (file: Bytes)
    requires table.Length <= MAX_FRIENDS && Storable(table[..]) && count < 256
    ensures file == Magic + ([count as Byte] + PutEntries(table[..], 0, []))
  {
    hide PutBody, ValidSlot;
    ghost var t: Table := table[..];
    var b := new Buf();
    ghost var entries := PutEntries(t, 0, []);
    ghost var goal := Magic + ([count as Byte] + entries);
    assert [] + goal == goal;
    b.Put(Magic, [count as Byte] + entries);
    b.Put([count as Byte], entries);
    for fn := 0 to table.Length
      invariant b.Valid() && fresh(b) && fresh(b.p)
      invariant b.Contents() + PutEntries(t, fn, []) == goal
    {
      if table[fn].active { EntryPut(b, table[fn], fn, PutEntries(t, fn + 1, [])); }
    }
    assert b.Contents() + [] == b.Contents();
    file := b.p[..b.len];
  }

  // ----- reading --------------------------------------------------------------------------------

  class Reader {
    const data: array<Byte>
    var pos: nat

    ghost predicate Valid()
      reads this
    {
      pos <= data.Length
    }

    // The bytes ahead of the cursor.
    ghost function Rest(): Bytes
      requires Valid()
      reads this, data
    {
      data[pos..]
    }

    constructor (data: array<Byte>)
      ensures Valid() && this.data == data && pos == 0
    {
      this.data, pos := data, 0;
    }

    predicate Has(n: nat)
      requires Valid()
      reads this, data
      ensures Has(n) <==> n <= |Rest()|
    {
      n <= data.Length - pos
    }

    method Get(n: nat) returns (v: Bytes)
      requires Valid() && n <= |Rest()|
      modifies this
      ensures Valid() && Take(old(Rest()), n) == Got(v, Rest()) && |Rest()| == |old(Rest())| - n
    {
      v := data[pos..pos + n];
      assert data[pos..][..n] == v && data[pos..][n..] == data[pos + n..];
      pos := pos + n;
    }

    method Get8() returns (v: bool)
      requires Valid() && 1 <= |Rest()|
      modifies this
      ensures Valid() && Take8(old(Rest())) == Got(v, Rest()) && |Rest()| == |old(Rest())| - 1
    {
      assert data[pos..][1..] == data[pos + 1..];
      v := data[pos] != 0;
      pos := pos + 1;
    }

    method Get16() returns (v: nat)
      requires Valid() && 2 <= |Rest()|
      modifies this
      ensures Valid() && Take16(old(Rest())) == Got(v, Rest()) && |Rest()| == |old(Rest())| - 2
    {
      assert data[pos..][2..] == data[pos + 2..];
      v := 0x100 * data[pos] as int + data[pos + 1] as int;
      pos := pos + 2;
    }

    method Get32() returns (v: nat)
      requires Valid() && 4 <= |Rest()|
      modifies this
      ensures Valid() && Take32(old(Rest())) == Got(v, Rest()) && |Rest()| == |old(Rest())| - 4
    {
      assert data[pos..][4..] == data[pos + 4..];
      v := 0x100_0000 * data[pos] as int + 0x1_0000 * data[pos + 1] as int + 0x100 * data[pos + 2] as int + data[pos + 3] as int;
      pos := pos + 4;
    }
  }

  // A read that succeeded or failed as the parser does.
  ghost predicate Reads<T>(g: Got<T>, ok: bool, v: T, rest: Bytes) {
    if g.Bad? then !ok else ok && v == g.value && rest == g.rest
  }

  function Before<T>(first: seq<T>, g: Got<seq<T>>): Got<seq<T>> {
    if g.Bad? then Bad else Got(first + g.value, g.rest)
  }

  lemma BeforeNothing<T>(g: Got<seq<T>>)
    ensures Before([], g) == g
  {
    if g.Got? { assert [] + g.value == g.value; }
  }

  lemma BeforeNext<T>(first: seq<T>, e: T, more: seq<T>, rest: Bytes)
    ensures Before(first, Got([e] + more, rest)) == Before(first + [e], Got(more, rest))
  {
    assert first + ([e] + more) == first + [e] + more;
  }

  lemma BeforeEnd<T>(first: seq<T>, rest: Bytes)
    ensures Before(first, Got([], rest)) == Got(first, rest)
  {
    assert first + [] == first;
  }

  lemma RatchetShort(b: Bytes)
    requires |b| < 72
    ensures TakeRatchet(b).Bad?
  {
    hide TakeSkipped;
  }

  lemma SkippedShort(b: Bytes, n: nat)
    requires |b| < 36 && n > 0
    ensures TakeSkipped(b, n).Bad?
  {
  }

  // ratchet_get
  method RatchetGet(r: Reader) returns (ok: bool, v: RatchetRecord)
    requires r.Valid()
    modifies r
    ensures r.Valid() && Reads(TakeRatchet(old(r.Rest())), ok, v, r.Rest())
  {
    hide Take, Take16, Take32, TakeSkipped, Reader.Rest;
    v := RatchetRecord([], 0, [], 0, []);
    if !r.Has(72) {
      RatchetShort(r.Rest());
      return false, v;
    }
    var chain := r.Get(32);
    var seqNo := r.Get32();
    var root := r.Get(32);
    var sinceFold := r.Get16();
    var n := r.Get16();
    if n > SKIPPED_MAX { return false, v; }
    var got, skipped := SkippedGet(r, n);
    if !got { return false, v; }
    return true, RatchetRecord(chain, seqNo, root, sinceFold, skipped);
  }

  method SkippedGet(r: Reader, n: nat) returns (ok: bool, v: seq<SkippedKey>)
    requires r.Valid()
    modifies r
    ensures r.Valid() && Reads(TakeSkipped(old(r.Rest()), n), ok, v, r.Rest())
  {
    hide Take, Take32, Reader.Rest;
    v := [];
    ghost var goal := TakeSkipped(r.Rest(), n);
    BeforeNothing(goal);
    for i := 0 to n
      invariant r.Valid() && goal == Before(v, TakeSkipped(r.Rest(), n - i))
    {
      if !r.Has(36) {
        SkippedShort(r.Rest(), n - i);
        return false, v;
      }
      var seqNo := r.Get32();
      var key := r.Get(32);
      ghost var g := TakeSkipped(r.Rest(), n - i - 1);
      if g.Got? { BeforeNext(v, SkippedKey(seqNo, key), g.value, g.rest); }
      v := v + [SkippedKey(seqNo, key)];
    }
    BeforeEnd(v, r.Rest());
    return true, v;
  }

  method RekeyGet(r: Reader) returns (ok: bool, v: RekeyRecord)
    requires r.Valid()
    modifies r
    ensures r.Valid() && Reads(TakeRekey(old(r.Rest())), ok, v, r.Rest())
  {
    hide Take, Take8, Reader.Rest;
    v := RekeyRecord([], [], false, [], [], false, [], [], false, false, false, false, false);
    if !r.Has(4182) {
      RekeyShort(r.Rest());
      return false, v;
    }
    var ephSk := r.Get(32);
    var ephPk := r.Get(32);
    var haveKem := r.Get8();
    var kemPk := r.Get(KEM_PK);
    var kemSk := r.Get(KEM_SK);
    var peerHave := r.Get8();
    var peerKemPk := r.Get(KEM_PK);
    var peerEphPk := r.Get(32);
    var rekeyDue := r.Get8();
    var awaitingPeer := r.Get8();
    var published := r.Get8();
    var postFoldPublish := r.Get8();
    var publishBack := r.Get8();
    return true, RekeyRecord(ephSk, ephPk, haveKem, kemPk, kemSk, peerHave, peerKemPk, peerEphPk,
                             rekeyDue, awaitingPeer, published, postFoldPublish, publishBack);
  }

  lemma RekeyShort(b: Bytes)
    requires |b| < 4182
    ensures TakeRekey(b).Bad?
  {
  }

  method OneSentGet(r: Reader) returns (ok: bool, m: SentMsg)
    requires r.Valid()
    modifies r
    ensures r.Valid() && Reads(TakeOneSent(old(r.Rest())), ok, m, r.Rest())
  {
    hide Take32, Take16, Reader.Rest;
    m := SentMsg(0, 0, []);
    if !r.Has(10) {
      OneSentShort(r.Rest());
      return false, m;
    }
    var gen := r.Get32();
    var seqNo := r.Get32();
    var n := r.Get16();
    if n > DATA_MAX || !r.Has(n) { return false, m; }
    var data := r.Get(n);
    return true, SentMsg(gen, seqNo, data);
  }

  lemma OneSentShort(b: Bytes)
    requires |b| < 10
    ensures TakeOneSent(b).Bad?
  {
    hide Take;
  }

  method SentGet(r: Reader, n: nat) returns (ok: bool, v: seq<SentMsg>)
    requires r.Valid()
    modifies r
    ensures r.Valid() && Reads(TakeSent(old(r.Rest()), n), ok, v, r.Rest())
  {
    hide TakeOneSent, Reader.Rest;
    v := [];
    ghost var goal := TakeSent(r.Rest(), n);
    BeforeNothing(goal);
    for i := 0 to n
      invariant r.Valid() && goal == Before(v, TakeSent(r.Rest(), n - i))
    {
      var got, m := OneSentGet(r);
      if !got { return false, v; }
      ghost var g := TakeSent(r.Rest(), n - i - 1);
      if g.Got? { BeforeNext(v, m, g.value, g.rest); }
      v := v + [m];
    }
    BeforeEnd(v, r.Rest());
    return true, v;
  }

  method RelGet(r: Reader) returns (ok: bool, v: RelRecord)
    requires r.Valid()
    modifies r
    ensures r.Valid() && Reads(TakeRel(old(r.Rest())), ok, v, r.Rest())
  {
    hide Take8, Take16, Take32, Reader.Rest;
    v := RelRecord(0, false, false, 0, 0, false, 0, 0, 0);
    if !r.Has(25) {
      RelShort(r.Rest());
      return false, v;
    }
    var recvAcked := r.Get32();
    var ackDue := r.Get8();
    var reqPending := r.Get8();
    var reqGen := r.Get32();
    var reqFrom := r.Get32();
    var repPending := r.Get8();
    var repGen := r.Get32();
    var repFrom := r.Get32();
    var repPos := r.Get16();
    return true, RelRecord(recvAcked, ackDue, reqPending, reqGen, reqFrom, repPending, repGen, repFrom, repPos);
  }

  lemma RelShort(b: Bytes)
    requires |b| < 25
    ensures TakeRel(b).Bad?
  {
  }

  // session_get, behind the friend number: the filled entry, or the old one
  method SessionGet(r: Reader, s: Slot) returns (ok: bool, t: Slot)
    requires r.Valid()
    modifies r
    ensures r.Valid()
    ensures var g := TakeBody(old(r.Rest()));
            if g.Bad? then !ok && t.active == s.active else ok && t == Restored(s, g.value) && r.Rest() == g.rest
  {
    hide Take, Take8, Take16, TakeRatchet, TakeRekey, TakeSent, TakeRel, Reader.Rest;
    ok, t := false, s;
    if !r.Has(33) {
      BodyShort(r.Rest());
      return;
    }
    var initiator := r.Get8();
    var root := r.Get(32);
    var got, send := RatchetGet(r);
    if !got { return; }
    var recv, rekey, sent, rel;
    got, recv := RatchetGet(r);
    if !got { return; }
    got, rekey := RekeyGet(r);
    if !got { return; }
    if !r.Has(2) {
      Short16(r.Rest());
      return;
    }
    var n := r.Get16();
    if n > SENT_MAX { return; }
    got, sent := SentGet(r, n);
    if !got { return; }
    got, rel := RelGet(r);
    if !got { return; }
    return true, Restored(s, SessionRecord(initiator, root, send, recv, rekey, sent, rel));
  }

  lemma BodyShort(b: Bytes)
    requires |b| < 33
    ensures TakeBody(b).Bad?
  {
    hide TakeRatchet;
  }

  lemma Short16(b: Bytes)
    requires |b| < 2
    ensures Take16(b).Bad?
  {
  }

  // One turn of the loop of tt_session_store_load.
  method EntryGet(table: array<Slot>, r: Reader, ghost n: nat) returns (ok: bool)
    requires table.Length == MAX_FRIENDS && r.Valid() && r.Rest() != [] && n > 0
    modifies table, r
    ensures r.Valid()
    ensures var fn, g, l := old(r.Rest())[0] as nat, TakeBody(old(r.Rest())[1..]), TakeEntries(old(r.Rest()), n);
            if g.Bad? then
              && !ok && l.entries == [] && l.failed == Some(fn)
              && table[fn].active == old(table[fn].active)
              && forall k | 0 <= k < MAX_FRIENDS && k != fn :: table[k] == old(table[k])
            else
              && ok && r.Rest() == g.rest
              && l.entries == [(fn, g.value)] + TakeEntries(r.Rest(), n - 1).entries
              && l.failed == TakeEntries(r.Rest(), n - 1).failed
              && table[..] == WithEntry(old(table[..]), fn, g.value)
  {
    hide TakeBody, Restored;
    ghost var b := r.Rest();
    var fn := r.data[r.pos] as nat;
    r.pos := r.pos + 1;
    assert r.Rest() == b[1..];
    var t;
    ok, t := SessionGet(r, table[fn]);
    table[fn] := t;
  }

  // tt_session_store_load, from the decrypted file on
  method LoadTable(table: array<Slot>, data: array<Byte>, overhead: nat)
    requires table.Length == MAX_FRIENDS
    modifies table
    ensures forall e | e in Read(data[..], overhead).entries :: e.0 < MAX_FRIENDS && |e.1.sent| <= SENT_MAX
    ensures forall k | 0 <= k < MAX_FRIENDS :: Matches(table[k], Fill(old(table[..]), Read(data[..], overhead).entries)[k], Read(data[..], overhead).failed, k)
  {
    hide TakeBody, WithEntry;
    ReadFits(data[..], overhead);
    if data.Length + overhead > FILE_MAX || data.Length < 7 || data[..6] != Magic { return; }
    var r := new Reader(data);
    r.pos := 7;
    ghost var l := Read(data[..], overhead);
    var count := data[6] as nat;
    assert l == TakeEntries(r.Rest(), count);
    ghost var goal := Fill(table[..], l.entries);
    for i := 0 to count
      invariant r.Valid() && l.failed == TakeEntries(r.Rest(), count - i).failed
      invariant forall e | e in TakeEntries(r.Rest(), count - i).entries :: e.0 < MAX_FRIENDS && |e.1.sent| <= SENT_MAX
      invariant Fill(table[..], TakeEntries(r.Rest(), count - i).entries) == goal
    {
      if r.pos >= r.data.Length { break; }
      EntriesFit(r.Rest(), count - i);
      ghost var b, was := r.Rest(), table[..];
      var ok := EntryGet(table, r, count - i);
      if !ok { break; }
      EntriesFit(r.Rest(), count - i - 1);
      FillStep(was, table[..], b[0] as nat, TakeEntries(b, count - i).entries, TakeEntries(r.Rest(), count - i - 1).entries);
    }
  }

  lemma FillStep(t: Table, u: Table, fn: nat, entries: seq<(nat, SessionRecord)>, more: seq<(nat, SessionRecord)>)
    requires |t| == |u| == MAX_FRIENDS && entries != [] && entries[1..] == more && entries[0].0 == fn < MAX_FRIENDS
    requires forall e | e in entries :: e.0 < MAX_FRIENDS && |e.1.sent| <= SENT_MAX
    requires entries[0] in entries && u == WithEntry(t, fn, entries[0].1)
    ensures forall e | e in more :: e.0 < MAX_FRIENDS && |e.1.sent| <= SENT_MAX
    ensures Fill(t, entries) == Fill(u, more)
  {
    hide WithEntry;
  }

  // A loaded entry is what the file says, except that of the entry at which reading
  // stopped only the active flag is known.
  predicate Matches(s: Slot, want: Slot, failed: Option<nat>, k: nat) {
    if failed == Some(k) then s.active == want.active else s == want
  }

  lemma ReadFits(b: Bytes, overhead: nat)
    ensures forall e | e in Read(b, overhead).entries :: e.0 < MAX_FRIENDS && |e.1.sent| <= SENT_MAX
  {
    if |b| >= 7 { EntriesFit(b[7..], b[6] as nat); }
  }
}
