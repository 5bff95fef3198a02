/** The intrusive circular doubly linked list of inc/list.h.  A node is an index into the two
    link arrays, so `next[i]` is the C expression `node_i->next`.  The buffer cache links its
    buffers by hand in the same shape. */
module CircularList {

  /** The i-th member of the list; the head stands before the first and after the last one. */
  function Node(head: nat, items: seq<nat>, i: int): nat {
    if 0 <= i < |items| then items[i] else head
  }

  ghost predicate Members(count: nat, head: nat, items: seq<nat>) {
    && head < count
    && (forall i, j | 0 <= i < j < |items| :: items[i] != items[j])
    && (forall i | 0 <= i < |items| :: items[i] < count && items[i] != head)
  }

  ghost predicate LinkedAt(next: seq<nat>, prev: seq<nat>, head: nat, items: seq<nat>, i: int)
    requires |next| == |prev| && Members(|next|, head, items)
  {
    && next[Node(head, items, i)] == Node(head, items, i + 1)
    && prev[Node(head, items, i + 1)] == Node(head, items, i)
  }

  /** `items` are the members of the list at `head`, in `next` order. */
  ghost predicate Linked(next: seq<nat>, prev: seq<nat>, head: nat, items: seq<nat>) {
    && |next| == |prev| && Members(|next|, head, items)
    && (forall i | -1 <= i < |items| :: LinkedAt(next, prev, head, items, i))
  }

  /** items' is items with b inserted at index k. */
  ghost predicate Inserted(items: seq<nat>, k: nat, b: nat, items': seq<nat>) {
    && k <= |items| && |items'| == |items| + 1 && items'[k] == b
    && (forall i | 0 <= i < k :: items'[i] == items[i])
    && (forall i | k < i < |items'| :: items'[i] == items[i - 1])
  }

  lemma InsertMembers(count: nat, head: nat, items: seq<nat>, k: nat, b: nat, items': seq<nat>)
    requires Members(count, head, items) && Inserted(items, k, b, items')
    requires b < count && b != head && b !in items
    ensures Members(count, head, items')
  {
  }

  lemma InsertAt(next: seq<nat>, prev: seq<nat>, next': seq<nat>, prev': seq<nat>,
                 head: nat, items: seq<nat>, k: nat, b: nat, items': seq<nat>, i: int)
    requires Linked(next, prev, head, items) && Inserted(items, k, b, items')
    requires b < |next| && b != head && b !in items
    requires next' == next[b := Node(head, items, k)][Node(head, items, k - 1) := b]
    requires prev' == prev[b := Node(head, items, k - 1)][Node(head, items, k) := b]
    requires -1 <= i < |items'| && Members(|next|, head, items')
    ensures LinkedAt(next', prev', head, items', i)
  {
    if i < k - 1 {
      assert LinkedAt(next, prev, head, items, i);
    } else if i > k {
      assert LinkedAt(next, prev, head, items, i - 1);
    }
  }

  /** Linking a new node between the members k-1 and k inserts it at index k. */
  lemma LinkBetween(next: seq<nat>, prev: seq<nat>, next': seq<nat>, prev': seq<nat>,
                    head: nat, items: seq<nat>, k: nat, b: nat, items': seq<nat>)
    requires Linked(next, prev, head, items) && Inserted(items, k, b, items')
    requires b < |next| && b != head && b !in items
    requires next' == next[b := Node(head, items, k)][Node(head, items, k - 1) := b]
    requires prev' == prev[b := Node(head, items, k - 1)][Node(head, items, k) := b]
    ensures Linked(next', prev', head, items')
  {
    InsertMembers(|next|, head, items, k, b, items');
    forall i | -1 <= i < |items'| ensures LinkedAt(next', prev', head, items', i) {
      InsertAt(next, prev, next', prev', head, items, k, b, items', i);
    }
  }

  lemma RemoveAt(next: seq<nat>, prev: seq<nat>, next': seq<nat>, prev': seq<nat>,
                 head: nat, items: seq<nat>, k: nat, items': seq<nat>, i: int)
    requires Linked(next, prev, head, items) && k < |items| && Inserted(items', k, items[k], items)
    requires next' == next[Node(head, items, k - 1) := Node(head, items, k + 1)]
    requires prev' == prev[Node(head, items, k + 1) := Node(head, items, k - 1)]
    requires -1 <= i < |items'| && Members(|next|, head, items')
    ensures LinkedAt(next', prev', head, items', i)
  {
    if i < k - 1 {
      assert LinkedAt(next, prev, head, items, i);
    } else if i >= k {
      assert LinkedAt(next, prev, head, items, i + 1);
    }
  }

  lemma RemoveMembers(count: nat, head: nat, items: seq<nat>, k: nat, items': seq<nat>)
    requires Members(count, head, items) && k < |items| && Inserted(items', k, items[k], items)
    ensures Members(count, head, items') && items[k] !in items'
  {
    forall i | 0 <= i < |items'| ensures items'[i] == items[if i < k then i else i + 1] {
      if i >= k {
        assert items[i + 1] == items'[i + 1 - 1];
      }
    }
  }

  /** Making the two neighbours of a member point at each other removes exactly that member. */
  lemma Unlink(next: seq<nat>, prev: seq<nat>, next': seq<nat>, prev': seq<nat>,
               head: nat, items: seq<nat>, k: nat, items': seq<nat>)
    requires Linked(next, prev, head, items) && k < |items| && Inserted(items', k, items[k], items)
    requires next' == next[Node(head, items, k - 1) := Node(head, items, k + 1)]
    requires prev' == prev[Node(head, items, k + 1) := Node(head, items, k - 1)]
    ensures Linked(next', prev', head, items') && items[k] !in items'
  {
    RemoveMembers(|next|, head, items, k, items');
    forall i | -1 <= i < |items'| ensures LinkedAt(next', prev', head, items', i) {
      RemoveAt(next, prev, next', prev', head, items, k, items', i);
    }
  }
}
