/** The indexed timer heap: exactly one heap node and one position per expiring key. */
module Expiry {
  import opened Bytes

  datatype Timer = Timer(key: Bytes, deadline: int)

  function Parent(i: nat): (p: nat)
    requires i > 0
    ensures p < i
  {
    (i - 1) / 2
  }

  /** Every node is no earlier than its parent. */
  predicate Ordered(heap: seq<Timer>) {
    forall i :: 0 < i < |heap| ==> heap[Parent(i)].deadline <= heap[i].deadline
  }

  /** Ordered everywhere except around one node, which may be too early or too late. */
  predicate OrderedAround(heap: seq<Timer>, hole: nat) {
    && (forall i :: 0 < i < |heap| && i != hole && Parent(i) != hole ==>
          heap[Parent(i)].deadline <= heap[i].deadline)
    && (forall i :: 0 < i < |heap| && Parent(i) == hole && hole > 0 && hole < |heap| ==>
          heap[Parent(hole)].deadline <= heap[i].deadline)
  }

  predicate AboveParent(heap: seq<Timer>, i: nat) {
    0 < i < |heap| ==> heap[Parent(i)].deadline <= heap[i].deadline
  }

  lemma {:induction false} RootIsEarliest(heap: seq<Timer>, i: nat)
    requires Ordered(heap) && i < |heap|
    ensures heap[0].deadline <= heap[i].deadline
  {
    if i > 0 {
      RootIsEarliest(heap, Parent(i));
    }
  }

  /** The position map is the exact inverse of the heap. */
  predicate Indexed(heap: seq<Timer>, positions: map<Bytes, nat>) {
    && (forall i :: 0 <= i < |heap| ==> heap[i].key in positions && positions[heap[i].key] == i)
    && (forall k :: k in positions ==> positions[k] < |heap| && heap[positions[k]].key == k)
  }

  function Contents(heap: seq<Timer>, positions: map<Bytes, nat>): map<Bytes, int>
    requires Indexed(heap, positions)
  {
    map k | k in positions :: heap[positions[k]].deadline
  }

  /** Exchanging two nodes together with their positions keeps the index and its contents. */
  function Swapped(heap: seq<Timer>, left: nat, right: nat): (s: seq<Timer>)
    requires left < |heap| && right < |heap|
    ensures |s| == |heap|
  {
    heap[left := heap[right]][right := heap[left]]
  }

  lemma SwapKeepsIndex(heap: seq<Timer>, positions: map<Bytes, nat>, left: nat, right: nat)
    requires Indexed(heap, positions) && left < |heap| && right < |heap|
    ensures var positions' := positions[heap[right].key := left][heap[left].key := right];
            && Indexed(Swapped(heap, left, right), positions')
            && Contents(Swapped(heap, left, right), positions') == Contents(heap, positions)
  {
  }

  lemma {:induction false} DistinctSize(keys: seq<Bytes>)
    requires forall i, j :: 0 <= i < j < |keys| ==> keys[i] != keys[j]
    ensures |set k | k in keys| == |keys|
  {
    if keys != [] {
      var front, last := keys[..|keys| - 1], keys[|keys| - 1];
      DistinctSize(front);
      assert (set k | k in keys) == (set k | k in front) + {last};
    }
  }

  lemma HeapSize(heap: seq<Timer>, positions: map<Bytes, nat>)
    requires Indexed(heap, positions)
    ensures |positions.Keys| == |heap|
  {
    var keys := seq(|heap|, i requires 0 <= i < |heap| => heap[i].key);
    DistinctSize(keys);
    forall k | k in positions
      ensures k in keys
    {
      assert keys[positions[k]] == k;
    }
    assert positions.Keys == set k | k in keys;
  }

  class ExpiryIndex {
    var heap: seq<Timer>
    var positions: map<Bytes, nat>

    ghost predicate Valid()
      reads this
    {
      Indexed(heap, positions) && Ordered(heap)
    }

    /** The plain key-to-deadline map this index stands for. */
    ghost function Deadlines(): map<Bytes, int>
      requires Valid()
      reads this
    {
      Contents(heap, positions)
    }

    constructor ()
      ensures Valid() && Deadlines() == map[]
    {
      heap := [];
      positions := map[];
    }

    method Len() returns (n: nat)
      requires Valid()
      ensures n == |Deadlines()|
    {
      n := |heap|;
      HeapSize(heap, positions);
      assert Deadlines().Keys == positions.Keys;
      KeysSize(Deadlines());
      KeysSize(positions);
    }

    /** Adds a timer or moves the key's timer to another deadline. */
    method Set(key: Bytes, deadline: int)
      requires Valid()
      modifies this
      ensures Valid()
      ensures Deadlines() == old(Deadlines())[key := deadline]
    {
      hide Indexed;
      hide OrderedAround;
      hide Contents;
      if key in positions {
        RescheduledIsIndexed(heap, positions, key, deadline);
        var index := positions[key];
        heap := heap[index := heap[index].(deadline := deadline)];
        index := Up(index);
        Down(index);
      } else {
        AppendedIsIndexed(heap, positions, key, deadline);
        var index := |heap|;
        positions := positions[key := index];
        heap := heap + [Timer(key, deadline)];
        index := Up(index);
        AppendedIsOrdered(heap, index);
      }
    }

    /** Forgets the key's timer, if it has one. */
    method Remove(key: Bytes)
      requires Valid()
      modifies this
      ensures Valid()
      ensures Deadlines() == old(Deadlines()) - {key}
    {
      if key !in positions {
        assert Deadlines() - {key} == Deadlines();
        return;
      }
      var index := positions[key];
      Removal(heap, positions, key);
      hide Indexed;
      hide OrderedAround;
      hide Contents;
      hide Ordered;
      hide Removed;
      positions := positions - {key};
      heap := Removed(heap, index);
      if index < |heap| {
        positions := positions[heap[index].key := index];
        index := Up(index);
        Down(index);
      }
    }

    /** A key whose deadline has passed, earliest first; `None` exactly when there is none. */
    method Expired(now: int) returns (due: Option<Bytes>)
      requires Valid()
      ensures due == None <==> forall k :: k in Deadlines() ==> now < Deadlines()[k]
      ensures due.Some? ==>
                && due.value in Deadlines() && Deadlines()[due.value] <= now
                && forall k :: k in Deadlines() ==> Deadlines()[due.value] <= Deadlines()[k]
    {
      forall k | k in positions
        ensures heap[0].deadline <= Deadlines()[k]
      {
        RootIsEarliest(heap, positions[k]);
      }
      if |heap| > 0 && heap[0].deadline <= now {
        assert heap[0].key in Deadlines();
        return Some(heap[0].key);
      }
      return None;
    }

    method Swap(left: nat, right: nat)
      requires left < |heap| && right < |heap| && Indexed(heap, positions)
      modifies this
      ensures heap == Swapped(old(heap), left, right)
      ensures Indexed(heap, positions) && Contents(heap, positions) == old(Contents(heap, positions))
    {
      SwapKeepsIndex(heap, positions, left, right);
      heap := heap[left := heap[right]][right := heap[left]];
      positions := positions[heap[left].key := left];
      positions := positions[heap[right].key := right];
    }

    /** Moves a node towards the root until its parent is no later. */
    method Up(start: nat) returns (index: nat)
      requires Indexed(heap, positions) && start < |heap| && OrderedAround(heap, start)
      modifies this
      ensures Indexed(heap, positions) && Contents(heap, positions) == old(Contents(heap, positions))
      ensures |heap| == |old(heap)|
      ensures index <= start
      ensures OrderedAround(heap, index) && AboveParent(heap, index)
      ensures index < start ==> Ordered(heap)
      ensures index == start ==> heap == old(heap)
    {
      index := start;
      while index > 0
        invariant index <= start < |heap| && |heap| == |old(heap)|
        invariant Indexed(heap, positions) && Contents(heap, positions) == old(Contents(heap, positions))
        invariant OrderedAround(heap, index)
        invariant index < start ==> ChildrenLater(heap, index)
        invariant index == start ==> heap == old(heap)
      {
        var parent := (index - 1) / 2;
        if heap[parent].deadline <= heap[index].deadline {
          break;
        }
        MoveUp(heap, index);
        Swap(parent, index);
        index := parent;
      }
      if index < start {
        FilledIsOrdered(heap, index);
      }
    }

    /** Moves a node away from the root until both its children are no earlier. */
    method Down(start: nat)
      requires Indexed(heap, positions) && start < |heap|
      requires OrderedAround(heap, start) && AboveParent(heap, start)
      modifies this
      ensures Indexed(heap, positions) && Contents(heap, positions) == old(Contents(heap, positions))
      ensures Ordered(heap)
    {
      hide Indexed;
      hide OrderedAround;
      hide Contents;
      hide AboveParent;
      hide ChildrenLater;
      hide EarliestChild;
      hide Ordered;
      var index: nat := start;
      while true
        invariant index < |heap|
        invariant Indexed(heap, positions) && Contents(heap, positions) == old(Contents(heap, positions))
        invariant OrderedAround(heap, index) && AboveParent(heap, index)
        decreases |heap| - index
      {
        var left: nat := index * 2 + 1;
        if left >= |heap| {
          Childless(heap, index);
          FilledIsOrdered(heap, index);
          break;
        }
        var right := left + 1;
        var child := if right < |heap| && heap[right].deadline < heap[left].deadline then right else left;
        ChooseChild(heap, index, child);
        if heap[index].deadline <= heap[child].deadline {
          FilledIsOrdered(heap, index);
          break;
        }
        MoveDown(heap, index, child);
        Swap(index, child);
        index := child;
      }
    }
  }

  lemma KeysSize<K, V>(m: map<K, V>)
    ensures |m.Keys| == |m|
  {
  }

  predicate ChildrenLater(heap: seq<Timer>, i: nat)
    requires i < |heap|
  {
    forall c :: 0 < c < |heap| && Parent(c) == i ==> heap[i].deadline <= heap[c].deadline
  }

  predicate EarliestChild(heap: seq<Timer>, index: nat, child: nat) {
    && 0 < child < |heap| && Parent(child) == index
    && forall c :: 0 < c < |heap| && Parent(c) == index ==> heap[child].deadline <= heap[c].deadline
  }

  lemma Childless(heap: seq<Timer>, index: nat)
    requires index < |heap| <= index * 2 + 1
    ensures ChildrenLater(heap, index)
  {
  }

  lemma ChooseChild(heap: seq<Timer>, index: nat, child: nat)
    requires var left := index * 2 + 1;
             left < |heap| &&
             child == if left + 1 < |heap| && heap[left + 1].deadline < heap[left].deadline then left + 1 else left
    ensures index < child && EarliestChild(heap, index, child)
    ensures heap[index].deadline <= heap[child].deadline ==> ChildrenLater(heap, index)
  {
    assert forall c :: 0 < c < |heap| && Parent(c) == index ==> c == index * 2 + 1 || c == index * 2 + 2;
  }

  lemma FilledIsOrdered(heap: seq<Timer>, index: nat)
    requires index < |heap| && OrderedAround(heap, index) && AboveParent(heap, index)
    requires ChildrenLater(heap, index)
    ensures Ordered(heap)
  {
  }

  lemma AppendedIsOrdered(heap: seq<Timer>, index: nat)
    requires index < |heap| && OrderedAround(heap, index) && AboveParent(heap, index)
    requires index == |heap| - 1 || Ordered(heap)
    ensures Ordered(heap)
  {
  }

  lemma MoveUp(heap: seq<Timer>, index: nat)
    requires 0 < index < |heap| && OrderedAround(heap, index)
    requires heap[index].deadline < heap[Parent(index)].deadline
    ensures OrderedAround(Swapped(heap, Parent(index), index), Parent(index))
    ensures ChildrenLater(Swapped(heap, Parent(index), index), Parent(index))
  {
  }

  lemma MoveDown(heap: seq<Timer>, index: nat, child: nat)
    requires index < |heap| && OrderedAround(heap, index) && AboveParent(heap, index)
    requires EarliestChild(heap, index, child) && heap[child].deadline < heap[index].deadline
    ensures OrderedAround(Swapped(heap, index, child), child)
    ensures AboveParent(Swapped(heap, index, child), child)
  {
  }

  lemma IndexedKey(heap: seq<Timer>, positions: map<Bytes, nat>, key: Bytes)
    requires Indexed(heap, positions) && key in positions
    ensures positions[key] < |heap|
  {
  }

  lemma RescheduledIsIndexed(heap: seq<Timer>, positions: map<Bytes, nat>, key: Bytes, deadline: int)
    requires Indexed(heap, positions) && Ordered(heap) && key in positions
    ensures var index := positions[key];
            index < |heap| &&
            var heap' := heap[index := heap[index].(deadline := deadline)];
            && Indexed(heap', positions)
            && Contents(heap', positions) == Contents(heap, positions)[key := deadline]
            && OrderedAround(heap', index)
  {
    var index := positions[key];
    var heap' := heap[index := heap[index].(deadline := deadline)];
    forall i | 0 < i < |heap'| && Parent(i) == index && index > 0
      ensures heap'[Parent(index)].deadline <= heap'[i].deadline
    {
      assert heap[Parent(index)].deadline <= heap[index].deadline <= heap[i].deadline;
    }
  }

  lemma AppendedIsIndexed(heap: seq<Timer>, positions: map<Bytes, nat>, key: Bytes, deadline: int)
    requires Indexed(heap, positions) && Ordered(heap) && key !in positions
    ensures var heap' := heap + [Timer(key, deadline)];
            var positions' := positions[key := |heap|];
            && Indexed(heap', positions')
            && Contents(heap', positions') == Contents(heap, positions)[key := deadline]
            && OrderedAround(heap', |heap|)
  {
  }

  /** Removal by swapping: the last node moves into the removed node's place. */
  function Removed(heap: seq<Timer>, index: nat): (r: seq<Timer>)
    requires index < |heap|
    ensures |r| == |heap| - 1
  {
    heap[index := heap[|heap| - 1]][..|heap| - 1]
  }

  lemma RemovedLast(heap: seq<Timer>, positions: map<Bytes, nat>, key: Bytes)
    requires Indexed(heap, positions) && Ordered(heap)
    requires key in positions && positions[key] == |heap| - 1
    ensures Indexed(Removed(heap, positions[key]), positions - {key})
    ensures Contents(Removed(heap, positions[key]), positions - {key}) == Contents(heap, positions) - {key}
    ensures Ordered(Removed(heap, positions[key]))
  {
  }

  lemma RemovedInner(heap: seq<Timer>, positions: map<Bytes, nat>, key: Bytes)
    requires Indexed(heap, positions) && key in positions && positions[key] < |heap| - 1
    ensures var index := positions[key];
            var heap' := Removed(heap, index);
            var positions' := (positions - {key})[heap'[index].key := index];
            && Indexed(heap', positions')
            && Contents(heap', positions') == Contents(heap, positions) - {key}
  {
    var index := positions[key];
    var heap' := Removed(heap, index);
    var positions' := (positions - {key})[heap'[index].key := index];
    assert forall i :: 0 <= i < |heap'| ==> heap'[i].key in positions' && positions'[heap'[i].key] == i;
    assert forall k :: k in positions' ==> positions'[k] < |heap'| && heap'[positions'[k]].key == k;
  }

  /** Filling a removed node's place with the last node leaves at most that one node out of order. */
  lemma RemovedOrder(heap: seq<Timer>, index: nat)
    requires Ordered(heap) && index < |heap| - 1
    ensures OrderedAround(Removed(heap, index), index)
  {
    var heap' := Removed(heap, index);
    forall i | 0 < i < |heap'| && Parent(i) == index && index > 0
      ensures heap'[Parent(index)].deadline <= heap'[i].deadline
    {
      assert heap[Parent(index)].deadline <= heap[index].deadline <= heap[i].deadline;
    }
  }

  lemma Removal(heap: seq<Timer>, positions: map<Bytes, nat>, key: Bytes)
    requires Indexed(heap, positions) && Ordered(heap) && key in positions
    ensures var index := positions[key];
            index < |heap| &&
            var heap' := Removed(heap, index);
            if index == |heap'| then
              && Indexed(heap', positions - {key}) && Ordered(heap')
              && Contents(heap', positions - {key}) == Contents(heap, positions) - {key}
            else
              var positions' := (positions - {key})[heap'[index].key := index];
              && Indexed(heap', positions') && OrderedAround(heap', index)
              && Contents(heap', positions') == Contents(heap, positions) - {key}
  {
    var index := positions[key];
    IndexedKey(heap, positions, key);
    if index == |heap| - 1 {
      RemovedLast(heap, positions, key);
    } else {
      RemovedInner(heap, positions, key);
      RemovedOrder(heap, index);
    }
  }
}
