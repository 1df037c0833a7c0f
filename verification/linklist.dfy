/** The intrusive doubly linked list that the wheel's slots are made of. */
module LinkList {
  import opened Sequences

  class DoubLinkNode {
    var owner: DoubLink?
    var next: DoubLinkNode?
    var prev: DoubLinkNode?
    /** The list that this node is a sentinel of, if it is one. */
    ghost var sentinelOf: DoubLink?

    constructor ()
      ensures Free() && sentinelOf == null
    {
      owner, next, prev, sentinelOf := null, null, null, null;
    }

    predicate Free()
      reads this
    {
      owner == null && next == null && prev == null
    }
  }

  class DoubLink {
    const head: DoubLinkNode
    const tail: DoubLinkNode
    var count: nat
    /** Head, nodes and tail, in the order of the links. */
    ghost var chain: seq<DoubLinkNode>

    ghost predicate Valid()
      reads this, head, tail, chain
    {
      && 2 <= |chain| == count + 2 && chain[0] == head && chain[count + 1] == tail
      && head.sentinelOf == this && tail.sentinelOf == this && head.owner == null && tail.owner == null
      && head.prev == null && tail.next == null && NoDup(chain)
      && (forall i :: 1 <= i <= count ==> chain[i].owner == this)
      && (forall i {:trigger chain[i].next} :: 0 <= i <= count ==> chain[i].next == chain[i + 1])
      && (forall i {:trigger chain[i].prev} :: 1 <= i <= count + 1 ==> chain[i].prev == chain[i - 1])
    }

    /** The nodes of the list, first to last. */
    ghost function Nodes(): (s: seq<DoubLinkNode>)
      requires Valid()
      reads this, head, tail, chain
      ensures |s| == count && head !in s && tail !in s && NoDup(s)
      ensures forall i :: 0 <= i < count ==> s[i] == chain[i + 1]
    {
      chain[1..count + 1]
    }

    lemma ChainParts()
      requires Valid()
      ensures |chain| == |Nodes()| + 2 && Nodes() == chain[1..|chain| - 1] && chain == [head] + Nodes() + [tail]
    {
    }

    constructor ()
      ensures Valid() && Nodes() == [] && fresh(head) && fresh(tail)
    {
      head := new DoubLinkNode();
      tail := new DoubLinkNode();
      count, chain := 0, [];
      new;
      head.next := tail;
      tail.prev := head;
      head.sentinelOf, tail.sentinelOf := this, this;
      chain := [head, tail];
    }

    method Size() returns (n: nat)
      requires Valid()
      ensures n == |Nodes()|
    {
      n := count;
    }

    method Empty() returns (isEmpty: bool)
      requires Valid()
      ensures isEmpty <==> Nodes() == []
    {
      assert chain[0].next == chain[1];
      isEmpty := head.next == tail;
    }

    /** Appends a node that is in no list; any other node is refused. */
    method Push(n: DoubLinkNode)
      requires Valid()
      modifies this, n, tail, tail.prev
      ensures Valid()
      ensures old(n.Free()) ==> Nodes() == old(Nodes()) + [n] && n.owner == this
      ensures !old(n.Free()) ==> Nodes() == old(Nodes()) && unchanged(n) && unchanged(this)
      ensures forall m: DoubLink :: m != this && old(allocated(m)) && old(m.Valid()) ==>
        m.Valid() && m.Nodes() == old(m.Nodes())
    {
      if n.next != null || n.prev != null || n.owner != null {
        return;
      }
      InsertBefore(n, tail, count + 1);
    }

    method PushFront(n: DoubLinkNode)
      requires Valid()
      modifies this, n, head, head.next
      ensures Valid()
      ensures old(n.Free()) ==> Nodes() == [n] + old(Nodes()) && n.owner == this
      ensures !old(n.Free()) ==> Nodes() == old(Nodes()) && unchanged(n) && unchanged(this)
      ensures forall m: DoubLink :: m != this && old(allocated(m)) && old(m.Valid()) ==>
        m.Valid() && m.Nodes() == old(m.Nodes())
    {
      if n.next != null || n.prev != null || n.owner != null {
        return;
      }
      assert chain[0].next == chain[1];
      InsertBefore(n, head.next, 1);
    }

    lemma LinkedNotFree()
      requires Valid()
      ensures forall x :: x in chain ==> !x.Free()
    {
      forall x | x in chain ensures !x.Free() {
        var i :| 0 <= i < |chain| && chain[i] == x;
        assert i <= count ==> chain[i].next == chain[i + 1];
        assert i > 0 ==> chain[i].prev == chain[i - 1];
      }
    }

    /** No node is in two lists, and a free one is in none. */
    lemma Apart(m: DoubLink, x: DoubLinkNode)
      requires m.Valid() && m != this
      requires x.Free() || (Valid() && x in chain)
      ensures x !in m.chain
    {
      m.Belongs(x);
      if !x.Free() {
        Belongs(x);
      }
    }

    lemma Belongs(x: DoubLinkNode)
      requires Valid()
      ensures x in chain ==> !x.Free() && (x.owner == this || (x.owner == null && x.sentinelOf == this))
    {
      LinkedNotFree();
      if x in chain {
        var i :| 0 <= i < |chain| && chain[i] == x;
      }
    }

    /** The pointer surgery of both: links `n` in before `after`, which stands at position `k`. */
    method InsertBefore(n: DoubLinkNode, after: DoubLinkNode, ghost k: nat)
      requires Valid() && n.Free() && 1 <= k <= count + 1 && after == chain[k]
      modifies this, n, after, after.prev
      ensures Valid() && chain == old(chain)[..k] + [n] + old(chain)[k..] && n.owner == this
      ensures forall m: DoubLink :: m != this && old(allocated(m)) && old(m.Valid()) ==>
        m.Valid() && m.Nodes() == old(m.Nodes())
    {
      hide NoDup;
      ghost var was := chain;
      var before := after.prev;
      LinkedNotFree();
      InsertKeepsNoDup(was, k, n);
      Distinct(was, k - 1);
      Distinct(was, k);
      assert before == chain[k - 1] && before.next == after;
      forall m: DoubLink | m != this && m.Valid() ensures n !in m.chain && before !in m.chain && after !in m.chain {
        Apart(m, n);
        Apart(m, before);
        Apart(m, after);
      }
      before.next := n;
      n.prev := before;
      after.prev := n;
      n.next := after;
      n.owner := this;
      count := count + 1;
      chain := was[..k] + [n] + was[k..];
    }

    /** Takes a node out of the list that owns it; a node without owner, a sentinel say, is left alone. */
    static method Remove(n: DoubLinkNode)
      requires n.owner != null ==> n.owner.Valid() && n in n.owner.Nodes()
      modifies n, n.owner, n.prev, n.next
      ensures old(n.owner) != null ==>
        && old(n.owner).Valid() && old(n.owner).Nodes() == Without(old(n.owner.Nodes()), n)
        && n.Free()
        && (forall m: DoubLink :: m != old(n.owner) && old(allocated(m)) && old(m.Valid()) ==>
             m.Valid() && m.Nodes() == old(m.Nodes()))
      ensures old(n.owner) == null ==> unchanged(n)
    {
      if n.prev == null || n.next == null || n.owner == null {
        return;
      }
      hide NoDup, DoubLink.Valid;
      var list := n.owner;
      ghost var k := list.At(n);
      list.Unlink(n, k);
      list.ChainParts();
    }

    /** Where a node stands, and what the nodes are without it. */
    lemma At(n: DoubLinkNode) returns (k: nat)
      requires Valid() && n in Nodes()
      ensures 1 <= k <= count && |chain| == count + 2 && chain[k] == n && n.prev == chain[k - 1] && n.next == chain[k + 1]
      ensures (chain[..k] + chain[k + 1..])[1..|chain| - 2] == Without(Nodes(), n)
    {
      hide NoDup;
      var j :| 0 <= j < |Nodes()| && Nodes()[j] == n;
      k := j + 1;
      assert chain[k].prev == chain[k - 1] && chain[k].next == chain[k + 1];
      LeftWithout(j);
    }

    lemma LeftWithout(j: nat)
      requires Valid() && j < count
      ensures (chain[..j + 1] + chain[j + 2..])[1..|chain| - 2] == Without(Nodes(), Nodes()[j])
    {
      hide NoDup;
      WithoutAt(Nodes(), j);
      SliceOut(chain, j + 1);
    }

    method Unlink(n: DoubLinkNode, ghost k: nat)
      requires Valid() && 1 <= k <= count && chain[k] == n
      modifies this, n, chain[k - 1], chain[k + 1]
      ensures Valid() && chain == old(chain)[..k] + old(chain)[k + 1..] && n.Free()
      ensures forall m: DoubLink :: m != this && old(allocated(m)) && old(m.Valid()) ==>
        m.Valid() && m.Nodes() == old(m.Nodes())
    {
      hide NoDup;
      ghost var was := chain;
      OmitKeepsNoDup(was, k);
      Distinct(was, k - 1);
      Distinct(was, k);
      Distinct(was, k + 1);
      var before, after := n.prev, n.next;
      assert before == chain[k - 1] && after == chain[k + 1];
      forall m: DoubLink | m != this && m.Valid() ensures n !in m.chain && before !in m.chain && after !in m.chain {
        Apart(m, n);
        Apart(m, before);
        Apart(m, after);
      }
      before.next := after;
      after.prev := before;
      n.prev := null;
      n.next := null;
      count := count - 1;
      n.owner := null;
      chain := was[..k] + was[k + 1..];
      assert forall i :: 0 <= i <= count + 1 ==> chain[i] == was[if i < k then i else i + 1];
      forall i | 1 <= i <= count ensures chain[i].owner == this {
        assert old(was[if i < k then i else i + 1].owner) == this;
      }
      forall i | 0 <= i <= count ensures chain[i].next == chain[i + 1] {
        assert old(was[if i < k then i else i + 1].next) == was[(if i < k then i else i + 1) + 1];
      }
      forall i | 1 <= i <= count + 1 ensures chain[i].prev == chain[i - 1] {
        assert old(was[if i < k then i else i + 1].prev) == was[(if i < k then i else i + 1) - 1];
      }
    }

    method Pop() returns (r: DoubLinkNode?)
      requires Valid()
      modifies this, chain
      ensures Valid()
      ensures old(Nodes()) == [] ==> r == null && Nodes() == []
      ensures old(Nodes()) != [] ==> r == old(Nodes())[0] && Nodes() == old(Nodes())[1..] && r.Free()
      ensures forall m: DoubLink :: m != this && old(allocated(m)) && old(m.Valid()) ==>
        m.Valid() && m.Nodes() == old(m.Nodes())
    {
      assert chain[0].next == chain[1];
      if head.next == tail {
        return null;
      }
      r := head.next;
      Remove(r);
    }

    method Clear()
      requires Valid()
      modifies this, chain
      ensures Valid() && Nodes() == []
      ensures forall m: DoubLink :: m != this && old(allocated(m)) && old(m.Valid()) ==>
        m.Valid() && m.Nodes() == old(m.Nodes())
      ensures forall n :: n in old(Nodes()) ==> n.Free()
    {
      hide DoubLink.Valid, DoubLink.Nodes;
      ghost var was := Nodes();
      var n := PopTracked(was);
      while n != null
        invariant Valid() && (n == null ==> Nodes() == [])
        invariant forall i :: 0 <= i < |chain| ==> chain[i] in old(chain)
        invariant forall x :: x in was ==> x in Nodes() || x.Free()
        invariant forall m: DoubLink :: m != this && old(allocated(m)) && old(m.Valid()) ==>
        m.Valid() && m.Nodes() == old(m.Nodes())
        decreases |Nodes()|, n != null
      {
        n := PopTracked(was);
      }
    }

    /** `Pop`, seen by a caller that wants every node of `was` to be in the list or free. */
    method PopTracked(ghost was: seq<DoubLinkNode>) returns (r: DoubLinkNode?)
      requires Valid() && forall x :: x in was ==> x in Nodes() || x.Free()
      modifies this, chain
      ensures Valid() && forall x :: x in was ==> x in Nodes() || x.Free()
      ensures forall i :: 0 <= i < |chain| ==> chain[i] in old(chain)
      ensures if old(Nodes()) == [] then r == null && Nodes() == [] else r != null && |Nodes()| < |old(Nodes())|
      ensures forall m: DoubLink :: m != this && old(allocated(m)) && old(m.Valid()) ==>
        m.Valid() && m.Nodes() == old(m.Nodes())
    {
      LinkedNotFree();
      r := Pop();
      ChainParts();
      assert forall i :: 0 <= i < |chain| ==> chain[i] == head || chain[i] == tail || chain[i] in Nodes();
    }
  }

  /** Leaving out an inner element leaves it out of what stands between the ends. */
  lemma SliceOut<T>(c: seq<T>, k: nat)
    requires 1 <= k < |c| - 1
    ensures (c[..k] + c[k + 1..])[1..|c| - 2] == c[1..|c| - 1][..k - 1] + c[1..|c| - 1][k..]
  {
  }

  lemma Distinct<T>(c: seq<T>, k: nat)
    requires NoDup(c) && k < |c|
    ensures forall i :: 0 <= i < |c| && i != k ==> c[i] != c[k]
  {
  }

  lemma InsertKeepsNoDup<T>(c: seq<T>, k: nat, x: T)
    requires NoDup(c) && k <= |c| && x !in c
    ensures NoDup(c[..k] + [x] + c[k..])
  {
    var d := c[..k] + [x] + c[k..];
    assert forall i :: 0 <= i < |d| ==> d[i] == if i < k then c[i] else if i == k then x else c[i - 1];
  }

  lemma OmitKeepsNoDup<T>(c: seq<T>, k: nat)
    requires NoDup(c) && k < |c|
    ensures NoDup(c[..k] + c[k + 1..]) && c[k] !in c[..k] + c[k + 1..]
  {
    var d := c[..k] + c[k + 1..];
    assert forall i :: 0 <= i < |d| ==> d[i] == if i < k then c[i] else c[i + 1];
  }

  lemma {:induction false} WithoutAt<T>(l: seq<T>, k: nat)
    requires k < |l| && NoDup(l)
    ensures Without(l, l[k]) == l[..k] + l[k + 1..]
  {
    if k > 0 {
      var rest := l[1..];
      assert l[0] != l[k] && rest[k - 1] == l[k];
      assert forall i :: 0 <= i < |rest| ==> rest[i] == l[i + 1];
      WithoutAt(rest, k - 1);
      assert Without(l, l[k]) == [l[0]] + Without(rest, l[k]);
      assert [l[0]] + (rest[..k - 1] + rest[k..]) == l[..k] + l[k + 1..];
    }
  }
}
