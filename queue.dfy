/**
 * The per-guild play queue as a sequence, and the positional edits the bot
 * makes to it: placement of new tracks, removal by index, moving an entry to
 * the front or back, and the Fisher–Yates shuffle of `random.shuffle`.
 */
module Queue {

  /** The `when` choice of the play and search commands. */
  datatype Position = Now | Next | Last

  /**
   * The queue after a block of entries is placed: `'last'` appends (`append`,
   * `extend`), `'next'` and `'now'` insert at the head (`insert(0, …)`, `[0:0] =`).
   */
  function Place<T>(q: seq<T>, block: seq<T>, pos: Position): (r: seq<T>)
    ensures |r| == |q| + |block|
    ensures multiset(r) == multiset(q) + multiset(block)
    ensures pos == Last ==> r[..|q|] == q && r[|q|..] == block
    ensures pos != Last ==> r[..|block|] == block && r[|block|..] == q
  {
    if pos == Last then q + block else block + q
  }

  /** Two appended tracks come out in arrival order. */
  lemma PlaceLastTwice<T>(q: seq<T>, a: T, b: T)
    ensures Place(Place(q, [a], Last), [b], Last) == q + [a, b]
  {
  }

  /** Two single tracks inserted at the head come out in reverse arrival order. */
  lemma PlaceNextTwice<T>(q: seq<T>, a: T, b: T, pa: Position, pb: Position)
    requires pa != Last && pb != Last
    ensures Place(Place(q, [a], pa), [b], pb) == [b, a] + q
  {
  }

  /** `list.pop(i)` seen from what is left: the entry at `i` is gone, the rest keep their order. */
  function RemoveAt<T>(q: seq<T>, i: nat): (r: seq<T>)
    requires i < |q|
    ensures |r| == |q| - 1
    ensures forall k :: 0 <= k < i ==> r[k] == q[k]
    ensures forall k :: i <= k < |r| ==> r[k] == q[k + 1]
  {
    q[..i] + q[i + 1..]
  }

  /** Removal takes out exactly one occurrence of the removed entry and nothing else. */
  lemma RemoveAtMultiset<T>(q: seq<T>, i: nat)
    requires i < |q|
    ensures multiset(RemoveAt(q, i)) + multiset{q[i]} == multiset(q)
  {
    assert q == q[..i] + [q[i]] + q[i + 1..];
  }

  /** `item = q.pop(i); q.insert(0, item)`: promote and playnow. */
  function MoveToFront<T>(q: seq<T>, i: nat): (r: seq<T>)
    requires i < |q|
    ensures |r| == |q| && r[0] == q[i]
    ensures r[1..] == RemoveAt(q, i)
    ensures multiset(r) == multiset(q)
  {
    RemoveAtMultiset(q, i);
    [q[i]] + RemoveAt(q, i)
  }

  /** `item = q.pop(i); q.append(item)`: demote. */
  function MoveToBack<T>(q: seq<T>, i: nat): (r: seq<T>)
    requires i < |q|
    ensures |r| == |q| && r[|r| - 1] == q[i]
    ensures r[..|r| - 1] == RemoveAt(q, i)
    ensures multiset(r) == multiset(q)
  {
    RemoveAtMultiset(q, i);
    RemoveAt(q, i) + [q[i]]
  }

  /** Where every entry lands after a promotion: the ones ahead of it shift back by one, the others stay. */
  lemma MoveToFrontAt<T>(q: seq<T>, i: nat, k: nat)
    requires i < |q| && k < |q|
    ensures MoveToFront(q, i)[k] == if k == 0 then q[i] else if k <= i then q[k - 1] else q[k]
  {
  }

  /** Where every entry lands after a demotion: the ones behind it shift forward by one, the others stay. */
  lemma MoveToBackAt<T>(q: seq<T>, i: nat, k: nat)
    requires i < |q| && k < |q|
    ensures MoveToBack(q, i)[k] == if k == |q| - 1 then q[i] else if k < i then q[k] else q[k + 1]
  {
  }

  /** Promoting the head leaves the queue as it was. */
  lemma PromoteHead<T>(q: seq<T>)
    requires q != []
    ensures MoveToFront(q, 0) == q
  {
  }

  /** Demoting the tail leaves the queue as it was. */
  lemma DemoteTail<T>(q: seq<T>)
    requires q != []
    ensures MoveToBack(q, |q| - 1) == q
  {
  }

  /** Demoting a promoted entry is the same as demoting it directly. */
  lemma DemoteAfterPromote<T>(q: seq<T>, i: nat)
    requires i < |q|
    ensures MoveToBack(MoveToFront(q, i), 0) == MoveToBack(q, i)
  {
  }

  /** promote(3) on a four-entry queue, 1-based. */
  lemma PromoteExample<T>(a: T, b: T, c: T, d: T)
    ensures MoveToFront([a, b, c, d], 2) == [c, a, b, d]
  {
  }

  /** demote(2) on a four-entry queue, 1-based. */
  lemma DemoteExample<T>(a: T, b: T, c: T, d: T)
    ensures MoveToBack([a, b, c, d], 1) == [a, c, d, b]
  {
    assert RemoveAt([a, b, c, d], 1) == [a, c, d];
  }

  /**
   * `random.shuffle`: Fisher–Yates from the last position down, swapping
   * position `i` with a position drawn below or at it. The random draws are
   * the parameter `draw`; only the draw for step `i`, reduced below `i + 1`, is used.
   */
  method Shuffle<T>(q: seq<T>, draw: nat -> nat) returns (r: seq<T>)
    ensures |r| == |q|
    ensures multiset(r) == multiset(q)
  {
    if |q| == 0 {
      return q;
    }
    var a := new T[|q|](k requires 0 <= k < |q| => q[k]);
    assert a[..] == q;
    var i := a.Length - 1;
    while i > 0
      invariant 0 <= i < a.Length
      invariant multiset(a[..]) == multiset(q)
    {
      var j := draw(i) % (i + 1);
      a[i], a[j] := a[j], a[i];
      i := i - 1;
    }
    r := a[..];
  }
}
