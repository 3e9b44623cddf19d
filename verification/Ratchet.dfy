/**
 One direction of the ratchet (src/session.c:59-142): a symmetric hash chain, its
 root, and a bounded store of the keys of skipped messages.
 */
module Ratchets {
  import opened Options
  import opened Limits
  import opened Symbolic

  datatype Skipped = Skipped(seqNo: nat, key: Term)

  datatype Ratchet = Ratchet(chain: Term, seqNo: nat, root: Term, sinceFold: nat, skipped: seq<Skipped>)

  // ----- the specification --------------------------------------------------------------

  function ChainAt(chain: Term, k: nat): Term {
    if k == 0 then chain else NextChain(ChainAt(chain, k - 1))
  }

  lemma {:induction false} ChainNext(c: Term, k: nat)
    ensures ChainAt(NextChain(c), k) == NextChain(ChainAt(c, k))
  {
    if k > 0 { ChainNext(c, k - 1); }
  }

  // The key of message n, for a ratchet that has not passed it.
  function KeyAt(r: Ratchet, n: nat): Term
    requires r.seqNo <= n
  {
    MsgKey(ChainAt(r.chain, n - r.seqNo))
  }

  function AddSkipped(s: seq<Skipped>, e: Skipped): (t: seq<Skipped>)
    ensures |s| <= SKIPPED_MAX ==> |t| <= SKIPPED_MAX
  {
    (if |s| >= SKIPPED_MAX then s[1..] else s) + [e]
  }

  // The position of the first key stored for message n, or |s|.
  function FindSkipped(s: seq<Skipped>, n: nat): (i: nat)
    ensures i <= |s|
    ensures i < |s| ==> s[i].seqNo == n
    ensures forall k | 0 <= k < i :: s[k].seqNo != n
  {
    if s == [] then 0 else if s[0].seqNo == n then 0 else 1 + FindSkipped(s[1..], n)
  }

  function RemoveAt<T>(s: seq<T>, i: nat): (t: seq<T>)
    requires i < |s|
    ensures |t| == |s| - 1
  {
    s[..i] + s[i + 1..]
  }

  // Step over one message, storing its key.
  function SkipOne(r: Ratchet): Ratchet {
    r.(chain := NextChain(r.chain), seqNo := r.seqNo + 1,
       skipped := AddSkipped(r.skipped, Skipped(r.seqNo, MsgKey(r.chain))))
  }

  function SkipTo(r: Ratchet, n: nat): (t: Ratchet)
    ensures r.seqNo <= n ==> t.seqNo == n
    ensures t.root == r.root && t.sinceFold == r.sinceFold
    decreases n - r.seqNo
  {
    if r.seqNo < n then SkipTo(SkipOne(r), n) else r
  }

  function StepChain(r: Ratchet): Ratchet {
    r.(chain := NextChain(r.chain), seqNo := r.seqNo + 1)
  }

  // Accept message n: store the keys of the gap, then move past n.
  function Commit(r: Ratchet, n: nat): Ratchet {
    StepChain(SkipTo(r, n))
  }

  function Fold(r: Ratchet, dh: Term, kem: Term): Ratchet {
    Ratchet(NewChain(r.root, dh, kem), r.seqNo, NewRoot(r.root, dh, kem), 0, [])
  }

  // ----- the struct -----------------------------------------------------------------------

  class TTRatchet {
    var chain: Term
    var seqNo: nat
    var root: Term
    var sinceFold: nat
    var nSkipped: nat
    const skipped: array<Skipped>

    ghost predicate Valid()
      reads this
    {
      skipped.Length == SKIPPED_MAX && nSkipped <= SKIPPED_MAX
    }

    ghost function View(): Ratchet
      requires Valid()
      reads this, skipped
    {
      Ratchet(chain, seqNo, root, sinceFold, skipped[..nSkipped])
    }

    // ratchet_reset
    constructor (handshake: Term, initiatorDirection: bool)
      ensures Valid() && fresh(this) && fresh(skipped)
      ensures View() == Ratchet(Derived(handshake, if initiatorDirection then Initiator else Responder),
                                1, handshake, 0, [])
    {
      root := handshake;
      chain := Derived(handshake, if initiatorDirection then Initiator else Responder);
      seqNo := 1;
      sinceFold := 0;
      nSkipped := 0;
      skipped := new Skipped[SKIPPED_MAX](i => Skipped(0, Seed(0)));
    }

    // ratchet_fold
    method FoldRoot(dh: Term, kem: Term)
      requires Valid()
      modifies this
      ensures Valid() && View() == Fold(old(View()), dh, kem)
    {
      var newRoot, newChain := NewRoot(root, dh, kem), NewChain(root, dh, kem);
      root := newRoot;
      chain := newChain;
      sinceFold := 0;
      nSkipped := 0;
    }

    // send_key: the next message's number and key; consumes one chain step
    method SendKey() returns (n: nat, key: Term)
      requires Valid()
      modifies this`chain, this`seqNo
      ensures Valid() && View() == StepChain(old(View()))
      ensures n == old(seqNo) && key == KeyAt(old(View()), n)
    {
      var nc, mk := NextChain(chain), MsgKey(chain);
      chain := nc;
      key := mk;
      n := seqNo;
      seqNo := seqNo + 1;
    }

    // One more frame since the last fold.
    method CountFrame()
      requires Valid()
      modifies this`sinceFold
      ensures Valid() && View() == old(View()).(sinceFold := old(sinceFold) + 1)
    {
      sinceFold := sinceFold + 1;
    }

    // msg_key_at: walks a scratch copy of the chain, commits nothing
    method MsgKeyAt(n: nat) returns (key: Term)
      requires Valid() && seqNo <= n
      ensures key == KeyAt(View(), n)
    {
      var c := chain;
      for k := seqNo to n
        invariant c == ChainAt(chain, k - seqNo)
      {
        c := NextChain(c);
      }
      key := MsgKey(c);
    }

    method SkippedAdd(n: nat, key: Term)
      requires Valid()
      modifies this`nSkipped, skipped
      ensures Valid() && View() == old(View()).(skipped := AddSkipped(old(View()).skipped, Skipped(n, key)))
    {
      if nSkipped >= SKIPPED_MAX {
        CloseGap(skipped, 0, SKIPPED_MAX);
        nSkipped := nSkipped - 1;
      }
      ghost var s := skipped[..nSkipped];
      skipped[nSkipped] := Skipped(n, key);
      nSkipped := nSkipped + 1;
      assert skipped[..nSkipped] == s + [Skipped(n, key)];
    }

    method SkippedTake(n: nat) returns (key: Option<Term>)
      requires Valid()
      modifies this`nSkipped, skipped
      ensures Valid()
      ensures var s, i := old(View()).skipped, FindSkipped(old(View()).skipped, n);
              if i < |s| then key == Some(s[i].key) && View() == old(View()).(skipped := RemoveAt(s, i))
              else key == None && View() == old(View())
    {
      ghost var s := skipped[..nSkipped];
      for i := 0 to nSkipped
        invariant skipped[..nSkipped] == s
        invariant forall k | 0 <= k < i :: s[k].seqNo != n
      {
        if skipped[i].seqNo == n {
          FindUnique(s, n, i);
          key := Some(skipped[i].key);
          CloseGap(skipped, i, nSkipped);
          nSkipped := nSkipped - 1;
          return;
        }
      }
      key := None;
    }

    // The commit loop of an accepted message (in order or ahead of the chain).
    method CommitTo(n: nat)
      requires Valid() && seqNo <= n
      modifies this, skipped
      ensures Valid() && View() == Commit(old(View()), n)
    {
      while seqNo < n
        invariant Valid() && seqNo <= n
        invariant SkipTo(View(), n) == SkipTo(old(View()), n)
      {
        var nc, mk := NextChain(chain), MsgKey(chain);
        chain := nc;
        SkippedAdd(seqNo, mk);
        seqNo := seqNo + 1;
      }
      chain := NextChain(chain);
      seqNo := seqNo + 1;
    }
  }

  // Move the entries above position i of the first n down by one.
  method CloseGap(a: array<Skipped>, i: nat, n: nat)
    requires i < n <= a.Length
    modifies a
    ensures a[..n - 1] == RemoveAt(old(a[..n]), i)
  {
    for k := i + 1 to n
      invariant forall m | 0 <= m < i :: a[m] == old(a[m])
      invariant forall m | i <= m < k - 1 :: a[m] == old(a[m + 1])
      invariant forall m | k - 1 <= m < n :: a[m] == old(a[m])
    {
      a[k - 1] := a[k];
    }
  }

  lemma FindUnique(s: seq<Skipped>, n: nat, i: nat)
    requires i < |s| && s[i].seqNo == n && forall k | 0 <= k < i :: s[k].seqNo != n
    ensures FindSkipped(s, n) == i
  {
  }
}
