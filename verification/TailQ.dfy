/**
 The intrusive tail queue of LRUCache.h: a singly linked list whose nodes also record the
 address of the pointer that points at them, so that removal needs no list walk.
 */
module TailQ {
  import opened LruModel
  import opened Options

  /** The address of a node pointer: a queue's `first_`, a node's `next_`, or nullptr. */
  datatype Slot = Unlinked | FirstOf(q: TailQHead) | NextOf(n: CacheNode)

  class CacheNode {
    const key: Key
    const id: nat
    var next: CacheNode?
    var addressOfPreviousNext: Slot
    var result: Try
    var waiters: Option<seq<nat>>
    var deadline: Time

    constructor (key: Key, id: nat, result: Try, waiters: Option<seq<nat>>)
      ensures this.key == key && this.id == id && this.result == result && this.waiters == waiters
      ensures deadline == 0 && next == null && addressOfPreviousNext == Unlinked
    {
      this.key, this.id, this.result, this.waiters := key, id, result, waiters;
      deadline, next, addressOfPreviousNext := 0, null, Unlinked;
    }
  }

  lemma RemovalKeepsDistinct(q: seq<CacheNode>, i: nat)
    requires NoDup(q) && i < |q|
    ensures NoDup(q[..i] + q[i + 1..])
    ensures forall j, k {:trigger q[j], q[k]} :: 0 <= j < |q| && 0 <= k < |q| && q[j] == q[k] ==> j == k
  {}

  class TailQHead {
    var first: CacheNode?
    var addressOfLastNext: Slot
    ghost var contents: seq<CacheNode>

    /** The links spell `contents`: forward by `next`, backward by the slot addresses. */
    ghost predicate Valid()
      reads this, contents`next, contents`addressOfPreviousNext
    {
      && NoDup(contents)
      && first == NodeAt(0)
      && addressOfLastNext == SlotAt(|contents|)
      && (forall i {:trigger contents[i].next} :: 0 <= i < |contents| ==> contents[i].next == NodeAt(i + 1))
      && (forall i {:trigger contents[i].addressOfPreviousNext} :: 0 <= i < |contents| ==>
            contents[i].addressOfPreviousNext == SlotAt(i))
    }

    ghost function NodeAt(i: nat): CacheNode?
      reads this
    {
      if i < |contents| then contents[i] else null
    }

    /** The address of the pointer to the i-th node, or, past the end, of the final null pointer. */
    ghost function SlotAt(i: nat): Slot
      requires i <= |contents|
      reads this
    {
      if i == 0 then FirstOf(this) else NextOf(contents[i - 1])
    }

    /** A queue none of whose nodes was relinked is as sound as before. */
    twostate lemma Untouched()
      requires old(Valid()) && unchanged(this)
      requires forall n :: n in contents ==>
                 n.next == old(n.next) && n.addressOfPreviousNext == old(n.addressOfPreviousNext)
      ensures Valid()
    {}

    lemma MembersAreLinked(i: nat)
      requires Valid() && i < |contents|
      ensures contents[i].addressOfPreviousNext != Unlinked
    {}

    constructor ()
      ensures Valid() && contents == []
    {
      first := null;
      addressOfLastNext := FirstOf(this);
      contents := [];
    }

    method InsertTail(node: CacheNode)
      requires Valid() && node !in contents
      modifies this, contents`next, contents`addressOfPreviousNext, node`next, node`addressOfPreviousNext
      ensures Valid() && contents == old(contents) + [node]
    {
      node.next := null;
      node.addressOfPreviousNext := addressOfLastNext;
      match addressOfLastNext {
        case FirstOf(q) => q.first := node;
        case NextOf(n) => n.next := node;
      }
      addressOfLastNext := NextOf(node);
      contents := contents + [node];
    }

    /** The node through which a slot address points, if it is a node's. */
    ghost function Through(slot: Slot): set<CacheNode> { if slot.NextOf? then {slot.n} else {} }

    ghost function AsSet(n: CacheNode?): set<CacheNode> { if n == null then {} else {n} }

    /** The statements of `remove` on a node whose address is set, whether or not it is still linked here. */
    method Unhook(node: CacheNode)
      requires node.addressOfPreviousNext != Unlinked
      requires node.addressOfPreviousNext.FirstOf? ==> node.addressOfPreviousNext.q == this
      requires node.next != node && node.addressOfPreviousNext != NextOf(node)
      modifies this`first, this`addressOfLastNext
      modifies AsSet(node.next)`addressOfPreviousNext, Through(node.addressOfPreviousNext)`next
      ensures var slot, after := old(node.addressOfPreviousNext), old(node.next);
              && (after != null ==> after.addressOfPreviousNext == slot)
              && addressOfLastNext == (if after == null then slot else old(addressOfLastNext))
              && first == (if slot.FirstOf? then after else old(first))
              && (slot.NextOf? ==> slot.n.next == after)
      ensures node.next == old(node.next) && node.addressOfPreviousNext == old(node.addressOfPreviousNext)
    {
      if node.next != null {
        node.next.addressOfPreviousNext := node.addressOfPreviousNext;
      } else {
        addressOfLastNext := node.addressOfPreviousNext;
      }
      match node.addressOfPreviousNext {
        case FirstOf(q) => q.first := node.next;
        case NextOf(n) => n.next := node.next;
      }
    }

    /** The links of a node that was removed from between positions i - 1 and i, where nothing was put since. */
    ghost predicate Gap(node: CacheNode, i: nat)
      reads this, node`next, node`addressOfPreviousNext
    {
      i <= |contents| && node !in contents && node.next == NodeAt(i) && node.addressOfPreviousNext == SlotAt(i)
    }

    /** Unlinks the node, found at position i; does nothing to a node that was never linked. The node keeps its own
        links. */
    method Remove(node: CacheNode, ghost i: nat)
      requires Valid()
      requires node.addressOfPreviousNext != Unlinked ==> i < |contents| && contents[i] == node
      modifies this, contents`next, contents`addressOfPreviousNext
      ensures Valid()
      ensures contents == if old(node.addressOfPreviousNext) == Unlinked then old(contents)
                          else old(contents)[..i] + old(contents)[i + 1..]
      ensures old(node.addressOfPreviousNext) != Unlinked ==> Gap(node, i)
    {
      if node.addressOfPreviousNext == Unlinked {
        return;
      }
      hide NoDup;
      ghost var c := contents;
      RemovalKeepsDistinct(c, i);
      Detach(node, i);
      contents := contents[..i] + contents[i + 1..];
      Relinked(c, i);
      GapIsOpen(c, i);
    }

    /** The pointer work of `remove` at position i: the neighbours point past the node. */
    method Detach(node: CacheNode, ghost i: nat)
      requires Valid() && i < |contents| && contents[i] == node
      modifies this`first, this`addressOfLastNext, contents`next, contents`addressOfPreviousNext
      ensures first == (if i == 0 then At(contents, 1) else At(contents, 0))
      ensures addressOfLastNext == (if i + 1 == |contents| then Before(contents, i) else Before(contents, |contents|))
      ensures forall o {:trigger contents[o].next} :: 0 <= o < |contents| && o != i ==>
                contents[o].next == At(contents, if o + 1 == i then i + 1 else o + 1)
      ensures forall o {:trigger contents[o].addressOfPreviousNext} :: 0 <= o < |contents| && o != i ==>
                contents[o].addressOfPreviousNext == Before(contents, if o == i + 1 then i else o)
      ensures node.next == At(contents, i + 1) && node.addressOfPreviousNext == Before(contents, i)
    {
      hide NoDup;
      ghost var c := contents;
      RemovalKeepsDistinct(c, i);
      assert node.next == NodeAt(i + 1) && node.addressOfPreviousNext == SlotAt(i);
      assert i + 1 < |c| ==> c[i + 1] != c[i];
      assert i > 0 ==> c[i - 1] != c[i];
      Unhook(node);
      forall o | 0 <= o < |c| && o != i
        ensures c[o].next == At(c, if o + 1 == i then i + 1 else o + 1)
        ensures c[o].addressOfPreviousNext == Before(c, if o == i + 1 then i else o)
      {
        assert old(c[o].next) == old(NodeAt(o + 1)) && old(c[o].addressOfPreviousNext) == old(SlotAt(o));
        assert i > 0 && o + 1 != i ==> c[o] != c[i - 1];
        assert i + 1 < |c| && o != i + 1 ==> c[o] != c[i + 1];
      }
    }

    lemma GapIsOpen(c: seq<CacheNode>, i: nat)
      requires NoDup(c) && i < |c| && contents == c[..i] + c[i + 1..]
      requires c[i].next == At(c, i + 1) && c[i].addressOfPreviousNext == Before(c, i)
      ensures Gap(c[i], i)
    {}

    ghost function At(c: seq<CacheNode>, i: nat): CacheNode? { if i < |c| then c[i] else null }

    ghost function Before(c: seq<CacheNode>, i: nat): Slot
      requires i <= |c|
    {
      if i == 0 then FirstOf(this) else NextOf(c[i - 1])
    }

    /** The links around a node that was taken out. */
    lemma Relinked(c: seq<CacheNode>, i: nat)
      requires i < |c| && contents == c[..i] + c[i + 1..] && NoDup(contents)
      requires first == (if i == 0 then At(c, 1) else At(c, 0))
      requires addressOfLastNext == (if i + 1 == |c| then Before(c, i) else Before(c, |c|))
      requires forall o {:trigger c[o].next} :: 0 <= o < |c| && o != i ==>
                 c[o].next == At(c, if o + 1 == i then i + 1 else o + 1)
      requires forall o {:trigger c[o].addressOfPreviousNext} :: 0 <= o < |c| && o != i ==>
                 c[o].addressOfPreviousNext == Before(c, if o == i + 1 then i else o)
      ensures Valid()
    {
      hide NoDup;
      forall j | 0 <= j < |contents|
        ensures contents[j].next == NodeAt(j + 1) && contents[j].addressOfPreviousNext == SlotAt(j)
      {
        var o := if j < i then j else j + 1;
        assert contents[j] == c[o];
        Shifted(c, i, j, c[o].next, c[o].addressOfPreviousNext);
      }
    }

    /** The place of a node in the shorter list, given its links in the longer one. */
    lemma Shifted(c: seq<CacheNode>, i: nat, j: nat, next: CacheNode?, slot: Slot)
      requires i < |c| && contents == c[..i] + c[i + 1..] && j < |contents|
      requires var o := if j < i then j else j + 1;
               && next == At(c, if o + 1 == i then i + 1 else o + 1) && slot == Before(c, if o == i + 1 then i else o)
      ensures next == NodeAt(j + 1) && slot == SlotAt(j)
    {}

    /** Removing it again changes nothing while the gap is open. */
    method RemoveAgain(node: CacheNode, ghost i: nat)
      requires Valid() && Gap(node, i)
      modifies this, contents`next, contents`addressOfPreviousNext
      ensures Valid() && contents == old(contents) && Gap(node, i)
      ensures forall n :: n in contents ==>
                n.next == old(n.next) && n.addressOfPreviousNext == old(n.addressOfPreviousNext)
    {
      Unhook(node);
    }

    /** Removing it again after another node was appended in the gap loses that node: the queue points past it,
        while it still takes itself for the last. */
    method RemoveStale(node: CacheNode)
      requires Valid() && contents != [] && node !in contents
      requires node.next == null && node.addressOfPreviousNext == SlotAt(|contents| - 1)
      modifies this, contents`next
      ensures contents == old(contents) && !Valid()
      ensures |contents| == 1 ==> first == null
    {
      ghost var last := |contents| - 1;
      Unhook(node);
      assert last == 0 ==> first != NodeAt(0);
      assert last > 0 ==> contents[last - 1].next != NodeAt(last);
    }

    /** Removing a node after the queue was cleared, when it held `was`: the queue stays sound exactly if the node was
        alone, or neither its first nor its last. */
    method RemoveCleared(node: CacheNode, ghost i: nat, ghost was: seq<CacheNode>)
      requires Valid() && contents == [] && NoDup(was) && i < |was| && was[i] == node
      requires node.next == At(was, i + 1) && node.addressOfPreviousNext == Before(was, i)
      modifies this, was`next, was`addressOfPreviousNext
      ensures contents == []
      ensures Valid() <==> |was| == 1 || 0 < i < |was| - 1
    {
      Unhook(node);
    }

    /** Moves the node at position i to the tail. */
    method Touch(node: CacheNode, ghost i: nat)
      requires Valid() && i < |contents| && contents[i] == node
      modifies this, contents`next, contents`addressOfPreviousNext
      ensures Valid() && contents == old(contents)[..i] + old(contents)[i + 1..] + [node]
    {
      Remove(node, i);
      InsertTail(node);
    }

    method Clear()
      modifies this
      ensures Valid() && contents == []
    {
      first := null;
      addressOfLastNext := FirstOf(this);
      contents := [];
    }
  }
}
