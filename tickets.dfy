/** The active ticket: the requirement list of its question, the slots
    collected so far and its absolute expiry. */
module Tickets {
  import opened Catalog

  /** `collected` mirrors the source's `collectedBlocks`: it starts empty and
      grows as slots are marked; an index past its end is a hole that reads as
      "not collected". */
  datatype Ticket = Ticket(question: Question, startTime: int, expiresAt: int, collected: seq<bool>)

  /** Slot `i` reads as collected. */
  predicate Filled(c: seq<bool>, i: int)
  {
    0 <= i < |c| && c[i]
  }

  /** Slot `i` of `t` requires kind `k` and is still open. */
  predicate OpenSlot(t: Ticket, k: Kind, i: int)
  {
    0 <= i < |t.question.blocks| && t.question.blocks[i] == k && !Filled(t.collected, i)
  }

  /** A held block of kind `k` would be taken by the ticket. */
  predicate Insertable(t: Ticket, k: Kind)
  {
    exists i :: 0 <= i < |t.question.blocks| && OpenSlot(t, k, i)
  }

  /** Every requirement has been collected. */
  predicate Ready(t: Ticket)
  {
    forall i :: 0 <= i < |t.question.blocks| ==> Filled(t.collected, i)
  }

  /** The collected-slot array never runs past the requirement list. */
  predicate WellSized(t: Ticket)
  {
    |t.collected| <= |t.question.blocks|
  }

  /** The ticket made from question `q` at time `now`. */
  function Spawn(q: Question, now: int): (t: Ticket)
    ensures t.question == q && t.expiresAt == now + q.time * 1000 && WellSized(t)
    ensures forall i :: !Filled(t.collected, i)
    ensures forall k :: Insertable(t, k) <==> k in q.blocks
  {
    var t := Ticket(q, now, now + q.time * 1000, []);
    assert forall k :: k in q.blocks ==> OpenSlot(t, k, IndexOf(q.blocks, k));
    t
  }

  function IndexOf(s: seq<Kind>, k: Kind): (i: nat)
    requires k in s
    ensures i < |s| && s[i] == k
  {
    if s[0] == k then 0 else 1 + IndexOf(s[1..], k)
  }

  /** The lowest open slot for `k` at or after `from`, or -1 (the source's `findIndex`). */
  function FirstOpenFrom(t: Ticket, k: Kind, from: nat): (i: int)
    decreases |t.question.blocks| - from
    ensures i == -1 || (from <= i && OpenSlot(t, k, i))
    ensures i == -1 ==> forall j :: from <= j ==> !OpenSlot(t, k, j)
    ensures i != -1 ==> forall j :: from <= j < i ==> !OpenSlot(t, k, j)
  {
    if from >= |t.question.blocks| then -1
    else if OpenSlot(t, k, from) then from
    else FirstOpenFrom(t, k, from + 1)
  }

  /** The slot an insertion of kind `k` fills: the lowest open one, or -1 when there is none. */
  function FirstOpen(t: Ticket, k: Kind): (i: int)
    ensures i == -1 <==> !Insertable(t, k)
    ensures i != -1 ==> OpenSlot(t, k, i) && forall j :: 0 <= j < i ==> !OpenSlot(t, k, j)
  {
    FirstOpenFrom(t, k, 0)
  }

  /** `collected[i] = true`, extending the array with holes when `i` is past its end. */
  function Mark(c: seq<bool>, i: nat): (r: seq<bool>)
    ensures forall j :: Filled(r, j) <==> j == i || Filled(c, j)
    ensures |r| == if i < |c| then |c| else i + 1
  {
    if i < |c| then c[i := true] else c + seq(i - |c|, _ => false) + [true]
  }

  /** The ticket after a block of kind `k` is offered at the desk. */
  function Collect(t: Ticket, k: Kind): (r: Ticket)
    ensures r.question == t.question && r.startTime == t.startTime && r.expiresAt == t.expiresAt
    ensures !Insertable(t, k) ==> r == t
    ensures Insertable(t, k) ==> forall j :: Filled(r.collected, j) <==> j == FirstOpen(t, k) || Filled(t.collected, j)
    ensures forall j :: Filled(t.collected, j) ==> Filled(r.collected, j)
    ensures WellSized(t) ==> WellSized(r)
  {
    var i := FirstOpen(t, k);
    if i < 0 then t else t.(collected := Mark(t.collected, i))
  }

  /** A ready ticket takes no further block. */
  lemma ReadyTakesNothing(t: Ticket, k: Kind)
    requires Ready(t)
    ensures !Insertable(t, k) && Collect(t, k) == t
  {
  }

  /** Offering the kinds `ks` at the desk one after another. */
  function CollectAll(t: Ticket, ks: seq<Kind>): (r: Ticket)
    ensures r.question == t.question && r.expiresAt == t.expiresAt
  {
    if ks == [] then t else Collect(CollectAll(t, ks[..|ks| - 1]), ks[|ks| - 1])
  }

  /** Offering the first `n` requirements of a fresh ticket in slot order fills
      exactly slots 0 to n-1: each offer lands in its own slot. */
  lemma {:induction false} CollectPrefixFillsPrefix(q: Question, now: int, n: nat)
    requires n <= |q.blocks|
    ensures forall j :: Filled(CollectAll(Spawn(q, now), q.blocks[..n]).collected, j) <==> 0 <= j < n
  {
    if n > 0 {
      CollectPrefixFillsPrefix(q, now, n - 1);
      var before := CollectAll(Spawn(q, now), q.blocks[..n - 1]);
      assert q.blocks[..n][..n - 1] == q.blocks[..n - 1];
      assert q.blocks[..n][n - 1] == q.blocks[n - 1];
      assert OpenSlot(before, q.blocks[n - 1], n - 1);
      assert FirstOpen(before, q.blocks[n - 1]) == n - 1;
    }
  }

  /** Offering exactly the requirement list, in order, makes a fresh ticket ready. */
  lemma CollectRequirementsIsReady(q: Question, now: int)
    ensures Ready(CollectAll(Spawn(q, now), q.blocks))
  {
    CollectPrefixFillsPrefix(q, now, |q.blocks|);
    assert q.blocks[..|q.blocks|] == q.blocks;
  }
}
