/**
 Saving and loading every active session (src/session_store.c:39-155, 208-350): a
 growing byte buffer that is appended to field by field, and a cursor that fills the
 session table. Failing file access and the cipher are outside this model.
 */
module SessionStore {
  import opened Options
  import opened Limits
  import opened ByteStrings
  import opened StoreFormat

  const MAX_FRIENDS := 256
  const FILE_MAX := 4 * 1024 * 1024
  const Magic: Bytes := [84, 84, 83, 69, 83, 49]

  // ----- the session table --------------------------------------------------------------------

  // The ring of sent texts, as it lies in memory.
  datatype RingFields = RingFields(m: seq<SentMsg>, head: nat, count: nat)

  type Ring = r: RingFields | |r.m| == SENT_MAX && r.head < SENT_MAX && r.count <= SENT_MAX
    witness RingFields(seq(SENT_MAX, _ => SentMsg(0, 0, [])), 0, 0)

  // One entry of the table. `lossy` and `pending` stand for what is not stored.
  datatype Slot = Slot(
    active: bool, initiator: bool, root: Bytes, send: RatchetRecord, recv: RatchetRecord, rekey: RekeyRecord,
    ring: Ring, rel: RelRecord, lossy: bool, pending: seq<Bytes>)

  // The live entries of the ring, oldest first.
  function Live(r: Ring): (t: seq<SentMsg>)
    ensures |t| == r.count
  {
    seq(r.count, i requires 0 <= i < r.count => r.m[(r.head + i) % SENT_MAX])
  }

  function RecordOf(s: Slot): (r: SessionRecord)
    ensures |r.sent| <= SENT_MAX
  {
    SessionRecord(s.initiator, s.root, s.send, s.recv, s.rekey, Live(s.ring), s.rel)
  }

  predicate ValidSlot(s: Slot) { ValidSession(RecordOf(s)) }

  // The table entry after record r was read into it.
  function Restored(s: Slot, r: SessionRecord): Slot
    requires |r.sent| <= SENT_MAX
  {
    s.(active := true, initiator := r.initiator, root := r.root, send := r.send, recv := r.recv, rekey := r.rekey,
       ring := RingFields(r.sent + s.ring.m[|r.sent|..], 0, |r.sent|), rel := r.rel)
  }

  // Restoring gives the record back, with the ring's head at 0.
  lemma RestoredHolds(s: Slot, r: SessionRecord)
    requires |r.sent| <= SENT_MAX
    ensures var t := Restored(s, r); t.active && RecordOf(t) == r && t.ring.head == 0 && t.lossy == s.lossy && t.pending == s.pending
  {
    assert Live(Restored(s, r).ring) == r.sent;
  }

  type Table = t: seq<Slot> | |t| <= MAX_FRIENDS witness []

  predicate Storable(t: Table) { forall i | 0 <= i < |t| && t[i].active :: ValidSlot(t[i]) }

  // ----- the file -----------------------------------------------------------------------------

  function ActiveFrom(t: Table, i: nat): (n: nat)
    requires i <= |t|
    ensures n <= |t| - i
    decreases |t| - i
  {
    if i == |t| then 0 else (if t[i].active then 1 else 0) + ActiveFrom(t, i + 1)
  }

  function PutEntries(t: Table, i: nat, tail: Bytes): Bytes
    requires i <= |t| && Storable(t)
    decreases |t| - i
  {
    if i == |t| then tail
    else if !t[i].active then PutEntries(t, i + 1, tail)
    else [i as Byte] + PutBody(RecordOf(t[i]), PutEntries(t, i + 1, tail))
  }

  // What becomes of the file: it is removed, it stays as it was, or it now holds these
  // bytes (encrypted, if there is a key).
  datatype Saved = Removed | Untouched | Written(bytes: Bytes)

  // The counter is one byte.
  function Plain(t: Table): Bytes
    requires Storable(t)
  {
    Magic + ([(ActiveFrom(t, 0) % 256) as Byte] + PutEntries(t, 0, []))
  }

  // tt_session_store_save. With a key, more than 4 MiB are not encrypted.
  function Save(t: Table, keyed: bool): Saved
    requires Storable(t)
  {
    if ActiveFrom(t, 0) % 256 == 0 then Removed
    else if keyed && |Plain(t)| > FILE_MAX then Untouched
    else Written(Plain(t))
  }

  // The records of the file in order, what is left of it, and the entry at which
  // reading stopped early (None: it did not).
  datatype Loaded = Loaded(entries: seq<(nat, SessionRecord)>, rest: Bytes, failed: Option<nat>)

  function TakeEntries(b: Bytes, n: nat): Loaded
    decreases n
  {
    hide TakeBody;
    if n == 0 || b == [] then Loaded([], b, None) else
      match TakeBody(b[1..])
      case Bad => Loaded([], b, Some(b[0] as nat))
      case Got(r, rest) =>
        var more := TakeEntries(rest, n - 1);
        more.(entries := [(b[0] as nat, r)] + more.entries)
  }

  // tt_session_store_load, from the decrypted bytes on. `overhead`: the bytes by which
  // the file was longer than these. A file over 4 MiB is not read at all.
  function Read(b: Bytes, overhead: nat): Loaded {
    if |b| + overhead > FILE_MAX || |b| < 7 || b[..6] != Magic then Loaded([], b, None)
    else TakeEntries(b[7..], b[6] as nat)
  }

  function WithEntry(t: Table, fn: nat, r: SessionRecord): (u: Table)
    requires fn < |t| && |r.sent| <= SENT_MAX
    ensures |u| == |t|
  {
    t[fn := Restored(t[fn], r)]
  }

  function Fill(t: Table, entries: seq<(nat, SessionRecord)>): (u: Table)
    requires |t| == MAX_FRIENDS && forall e | e in entries :: e.0 < MAX_FRIENDS && |e.1.sent| <= SENT_MAX
    ensures |u| == |t|
    decreases |entries|
  {
    if entries == [] then t else
      var (fn, r) := entries[0];
      assert entries[0] in entries;
      Fill(WithEntry(t, fn, r), entries[1..])
  }

  lemma {:induction false} EntriesFit(b: Bytes, n: nat)
    ensures forall e | e in TakeEntries(b, n).entries :: e.0 < MAX_FRIENDS && |e.1.sent| <= SENT_MAX
    decreases n
  {
    hide TakeBody;
    if n > 0 && b != [] {
      var g := TakeBody(b[1..]);
      if g.Got? { EntriesFit(g.rest, n - 1); }
    }
  }

  // ----- round trip ---------------------------------------------------------------------------

  function ActiveEntries(t: Table, i: nat): seq<(nat, SessionRecord)>
    requires i <= |t|
    decreases |t| - i
  {
    if i == |t| then []
    else (if t[i].active then [(i, RecordOf(t[i]))] else []) + ActiveEntries(t, i + 1)
  }

  lemma {:induction false} EntriesRoundTrip(t: Table, i: nat, tail: Bytes)
    requires i <= |t| && Storable(t)
    ensures TakeEntries(PutEntries(t, i, tail), ActiveFrom(t, i)) == Loaded(ActiveEntries(t, i), tail, None)
    decreases |t| - i
  {
    hide TakeBody, PutBody;
    if i < |t| {
      EntriesRoundTrip(t, i + 1, tail);
      if t[i].active {
        var rest := PutEntries(t, i + 1, tail);
        BodyRoundTrip(RecordOf(t[i]), rest);
        var b := [i as Byte] + PutBody(RecordOf(t[i]), rest);
        assert b[0] == i as Byte && b[1..] == PutBody(RecordOf(t[i]), rest);
      }
    }
  }

  lemma {:induction false} ActiveEntriesFit(t: Table, i: nat)
    requires i <= |t| && Storable(t)
    ensures forall e | e in ActiveEntries(t, i) :: i <= e.0 < |t| && |e.1.sent| <= SENT_MAX
    decreases |t| - i
  {
    if i < |t| { ActiveEntriesFit(t, i + 1); }
  }

  lemma {:induction false} FillRestores(t: Table, blank: Table, i: nat)
    requires i <= |t| == |blank| == MAX_FRIENDS && Storable(t)
    requires forall e | e in ActiveEntries(t, i) :: i <= e.0 < MAX_FRIENDS && |e.1.sent| <= SENT_MAX
    ensures forall k | 0 <= k < MAX_FRIENDS ::
              Fill(blank, ActiveEntries(t, i))[k] == if k >= i && t[k].active then Restored(blank[k], RecordOf(t[k])) else blank[k]
    decreases MAX_FRIENDS - i
  {
    hide RecordOf, Restored, ValidSession, Fill, ActiveEntries;
    FillNext(t, blank, i);
    if i < MAX_FRIENDS {
      ActiveEntriesFit(t, i + 1);
      FillRestores(t, if t[i].active then WithEntry(blank, i, RecordOf(t[i])) else blank, i + 1);
    }
  }

  // Filling in what is active from entry i on.
  lemma FillNext(t: Table, blank: Table, i: nat)
    requires i <= |t| == |blank| == MAX_FRIENDS && Storable(t)
    requires forall e | e in ActiveEntries(t, i) :: e.0 < MAX_FRIENDS && |e.1.sent| <= SENT_MAX
    ensures if i == MAX_FRIENDS then Fill(blank, ActiveEntries(t, i)) == blank else
              && (forall e | e in ActiveEntries(t, i + 1) :: e.0 < MAX_FRIENDS && |e.1.sent| <= SENT_MAX)
              && Fill(blank, ActiveEntries(t, i))
                 == Fill(if t[i].active then WithEntry(blank, i, RecordOf(t[i])) else blank, ActiveEntries(t, i + 1))
  {
    hide RecordOf, Restored, ValidSession, WithEntry;
    if i < MAX_FRIENDS {
      ActiveEntriesFit(t, i + 1);
      if t[i].active {
        assert ActiveEntries(t, i)[0] == (i, RecordOf(t[i])) && ActiveEntries(t, i)[1..] == ActiveEntries(t, i + 1);
      } else {
        assert ActiveEntries(t, i) == ActiveEntries(t, i + 1);
      }
    }
  }

  // The file is written exactly if 1 to 255 sessions are active and, with a key, they take
  // at most 4 MiB; it is removed exactly with 0 or 256 active sessions, as 256 wrap the
  // counter to 0. Unless the written file is over 4 MiB (with the `overhead` of its
  // encryption), which loading ignores, loading it into any table gives each active session
  // back at its friend number, with the ring's head at 0, leaves the other entries alone
  // and consumes every byte.
  lemma StoreRoundTrip(t: Table, blank: Table, keyed: bool, overhead: nat)
    requires |t| == |blank| == MAX_FRIENDS && Storable(t)
    ensures Save(t, keyed).Written? <==> 1 <= ActiveFrom(t, 0) <= 255 && (keyed ==> |Plain(t)| <= FILE_MAX)
    ensures Save(t, keyed).Removed? <==> ActiveFrom(t, 0) in {0, 256}
    ensures var s := Save(t, keyed);
            s.Written? && |s.bytes| + overhead > FILE_MAX ==> Read(s.bytes, overhead).entries == []
    ensures var s := Save(t, keyed);
            s.Written? && |s.bytes| + overhead <= FILE_MAX ==>
              var l := Read(s.bytes, overhead);
              && l == Loaded(ActiveEntries(t, 0), [], None)
              && (forall e | e in l.entries :: e.0 < MAX_FRIENDS && |e.1.sent| <= SENT_MAX)
              && (forall k | 0 <= k < MAX_FRIENDS ::
                    && (t[k].active ==> Fill(blank, l.entries)[k].active && RecordOf(Fill(blank, l.entries)[k]) == RecordOf(t[k])
                                        && Fill(blank, l.entries)[k].ring.head == 0)
                    && (!t[k].active ==> Fill(blank, l.entries)[k] == blank[k]))
  {
    hide PutEntries, TakeEntries, RecordOf, Restored, Fill, ActiveEntries, ValidSession;
    if Save(t, keyed).Written? {
      EntriesRoundTrip(t, 0, []);
      var file := Plain(t);
      assert file[..6] == Magic && file[7..] == PutEntries(t, 0, []);
      ActiveEntriesFit(t, 0);
      FillRestores(t, blank, 0);
      forall k | 0 <= k < MAX_FRIENDS && t[k].active
        ensures var r := Restored(blank[k], RecordOf(t[k])); RecordOf(r) == RecordOf(t[k]) && r.active && r.ring.head == 0
      {
        RestoredHolds(blank[k], RecordOf(t[k]));
      }
    }
  }
}
