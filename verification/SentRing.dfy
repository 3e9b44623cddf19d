/**
 The buffer of sent, unacknowledged texts (src/session.c:168-226): a ring of 32
 entries that is compacted in place. Whatever the head offset, it behaves as a
 sequence with append-dropping-oldest and stable filters.
 */
module SentRings {
  import opened Limits
  import opened Symbolic

  // A text, tagged with the session generation and the number it was sent under.
  datatype Sent = Sent(gen: Term, seqNo: nat, text: Text)

  const NoSent := Sent(Seed(0), 0, "")

  // ----- the specification --------------------------------------------------------------

  function AddSent(s: seq<Sent>, e: Sent): (t: seq<Sent>)
    ensures |s| <= SENT_MAX ==> |t| <= SENT_MAX
    ensures t != [] && t[|t| - 1] == e
  {
    (if |s| >= SENT_MAX then s[1..] else s) + [e]
  }

  // The entries of s that satisfy `keep`, in their order.
  function Filter(s: seq<Sent>, keep: Sent -> bool): (t: seq<Sent>)
    ensures |t| <= |s|
  {
    if s == [] then [] else
      var t := Filter(s[..|s| - 1], keep);
      if keep(s[|s| - 1]) then t + [s[|s| - 1]] else t
  }

  lemma {:induction false} FilterMembers(s: seq<Sent>, keep: Sent -> bool, e: Sent)
    ensures e in Filter(s, keep) <==> e in s && keep(e)
  {
    if s != [] { FilterMembers(s[..|s| - 1], keep, e); }
  }

  predicate Acked(e: Sent, gen: Term, acked: nat) { e.gen == gen && e.seqNo <= acked }

  predicate Tagged(e: Sent, gen: Term, n: nat) { e.gen == gen && e.seqNo == n }

  function AckSent(s: seq<Sent>, gen: Term, acked: nat): seq<Sent> {
    Filter(s, e => !Acked(e, gen, acked))
  }

  function RemoveSent(s: seq<Sent>, gen: Term, n: nat): seq<Sent> {
    Filter(s, e => !Tagged(e, gen, n))
  }

  // ----- the struct -----------------------------------------------------------------------

  // The array read from the head round to the head again.
  function Rotated(a: seq<Sent>, head: nat): (s: seq<Sent>)
    requires head < |a| == SENT_MAX
    ensures |s| == SENT_MAX
  {
    a[head..] + a[..head]
  }

  function Slot(head: nat, r: nat): (i: nat)
    ensures i < SENT_MAX
  {
    (head + r) % SENT_MAX
  }

  lemma RotatedAt(a: seq<Sent>, head: nat, r: nat)
    requires head < |a| == SENT_MAX && r < SENT_MAX
    ensures Rotated(a, head)[r] == a[Slot(head, r)]
  {
  }

  lemma RotatedUpdate(a: seq<Sent>, head: nat, r: nat, e: Sent)
    requires head < |a| == SENT_MAX && r < SENT_MAX
    ensures Rotated(a[Slot(head, r) := e], head) == Rotated(a, head)[r := e]
  {
    if head + r < SENT_MAX {
      assert a[head + r := e][head..] == a[head..][r := e];
    } else {
      assert a[head + r - SENT_MAX := e][..head] == a[..head][head + r - SENT_MAX := e];
    }
  }

  lemma RotatedNext(a: seq<Sent>, head: nat)
    requires head < |a| == SENT_MAX
    ensures Rotated(a, (head + 1) % SENT_MAX) == Rotated(a, head)[1..] + [a[head]]
  {
  }

  class SentBuf {
    const m: array<Sent>
    var head: nat
    var count: nat

    ghost predicate Valid()
      reads this
    {
      m.Length == SENT_MAX && head < SENT_MAX && count <= SENT_MAX
    }

    ghost function Ring(): (s: seq<Sent>)
      requires Valid()
      reads this, m
      ensures |s| == SENT_MAX
    {
      Rotated(m[..], head)
    }

    // The live entries, oldest first.
    ghost function Contents(): (s: seq<Sent>)
      requires Valid()
      reads this, m
    {
      Ring()[..count]
    }

    constructor ()
      ensures Valid() && fresh(m) && Contents() == []
    {
      m := new Sent[SENT_MAX](i => NoSent);
      head, count := 0, 0;
    }

    method Get(r: nat) returns (e: Sent)
      requires Valid() && r < count
      ensures e == Contents()[r]
    {
      RotatedAt(m[..], head, r);
      e := m[(head + r) % SENT_MAX];
    }

    method Put(r: nat, e: Sent)
      requires Valid() && r < SENT_MAX
      modifies m
      ensures Ring() == old(Ring())[r := e]
    {
      RotatedUpdate(m[..], head, r, e);
      ghost var a := m[..];
      m[(head + r) % SENT_MAX] := e;
      assert m[..] == a[Slot(head, r) := e];
    }

    // rel_sent_add
    method Add(e: Sent)
      requires Valid()
      modifies this, m
      ensures Valid() && Contents() == AddSent(old(Contents()), e)
    {
      ghost var s := Contents();
      if count >= SENT_MAX {
        Put(0, NoSent);
        RotatedNext(m[..], head);
        head := (head + 1) % SENT_MAX;
        count := count - 1;
        assert Contents() == s[1..];
      }
      ghost var t := Contents();
      Put(count, e);
      count := count + 1;
      assert Contents() == t + [e];
    }

    // The loop of rel_sent_ack and rel_sent_remove.
    method Compact(keep: Sent -> bool)
      requires Valid()
      modifies this`count, m
      ensures Valid() && Contents() == Filter(old(Contents()), keep)
    {
      hide Rotated, Filter, Compacted, Slot;
      ghost var s, n := Contents(), count;
      CompactedStart(Ring(), s, keep);
      var w := 0;
      for r := 0 to count
        invariant w <= r && count == n
        invariant Compacted(Ring(), s, keep, w, r)
      {
        CompactedMeans(Ring(), s, keep, w, r);
        var e := Get(r);
        ghost var before := Ring();
        if !keep(e) {
          Put(r, NoSent);
          CompactedStep(before, Ring(), s, keep, w, r);
        } else {
          if w != r {
            Put(w, e);
            Put(r, NoSent);
          }
          CompactedStep(before, Ring(), s, keep, w, r);
          w := w + 1;
        }
      }
      CompactedMeans(Ring(), s, keep, w, n);
      count := w;
    }

    // rel_sent_ack: drop what the peer has delivered
    method Ack(gen: Term, acked: nat)
      requires Valid()
      modifies this`count, m
      ensures Valid() && Contents() == AckSent(old(Contents()), gen, acked)
    {
      Compact(e => !Acked(e, gen, acked));
    }

    // rel_sent_remove
    method Remove(gen: Term, n: nat)
      requires Valid()
      modifies this`count, m
      ensures Valid() && Contents() == RemoveSent(old(Contents()), gen, n)
    {
      Compact(e => !Tagged(e, gen, n));
    }
  }

  // Entries up to r are filtered into the first w slots, the others are in place.
  ghost predicate Compacted(ring: seq<Sent>, s: seq<Sent>, keep: Sent -> bool, w: nat, r: nat) {
    && w <= r <= |s| <= |ring|
    && ring[..w] == Filter(s[..r], keep)
    && ring[r..|s|] == s[r..]
  }

  lemma CompactedStart(ring: seq<Sent>, s: seq<Sent>, keep: Sent -> bool)
    requires |s| <= |ring| && ring[..|s|] == s
    ensures Compacted(ring, s, keep, 0, 0)
  {
    assert ring[0..|s|] == ring[..|s|];
  }

  lemma CompactedMeans(ring: seq<Sent>, s: seq<Sent>, keep: Sent -> bool, w: nat, r: nat)
    requires Compacted(ring, s, keep, w, r)
    ensures w <= r <= |s| <= |ring|
    ensures r < |s| ==> ring[r] == s[r]
    ensures r == |s| ==> ring[..w] == Filter(s, keep)
  {
    assert s[..|s|] == s;
    if r < |s| { assert ring[r] == ring[r..|s|][0]; }
  }

  lemma CompactedStep(ring: seq<Sent>, next: seq<Sent>, s: seq<Sent>, keep: Sent -> bool, w: nat, r: nat)
    requires Compacted(ring, s, keep, w, r) && r < |s|
    requires next == if !keep(ring[r]) then ring[r := NoSent]
                     else if w != r then ring[w := ring[r]][r := NoSent] else ring
    ensures ring[r] == s[r]
    ensures Compacted(next, s, keep, if keep(s[r]) then w + 1 else w, r + 1)
  {
    assert ring[r] == ring[r..|s|][0];
    assert s[..r + 1][..r] == s[..r];
    assert next[r + 1..|s|] == ring[r..|s|][1..];
    if keep(s[r]) {
      assert next[..w + 1] == ring[..w] + [s[r]];
    } else {
      assert next[..w] == ring[..w];
    }
  }
}
