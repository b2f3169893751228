/** The doubly linked ring of buffers of bio.c, as a sequence of slots with the list head at both ends. */
module BufferRing {
  import opened Blocks
  import LogProtocol
  import opened Results

  /** struct buf. `lock` is its sleeplock: who holds it, and whether they changed the data and did not log it yet. */
  datatype Buf = Buf(dev: nat, blockno: nat, valid: bool, dirty: bool, refcnt: nat, lock: LogProtocol.Holder,
                     data: Block, prev: nat, next: nat)

  predicate Linked(s: seq<Buf>, a: nat, b: nat) {
    a < |s| && b < |s| && s[a].next == b && s[b].prev == a
  }

  /** From the head through every buffer back to the head. */
  function Chain(head: nat, order: seq<nat>): seq<nat> {
    [head] + order + [head]
  }

  /** Following `next` from the head visits the slots of `order`, each once, and `prev` goes the same way back. */
  ghost predicate Ring(s: seq<Buf>, head: nat, order: seq<nat>) {
    && Distinct([head] + order)
    && (forall k | 0 <= k <= |order| :: Linked(s, Chain(head, order)[k], Chain(head, order)[k + 1]))
  }

  /** `order` without its `k`th slot. */
  function Without(order: seq<nat>, k: nat): seq<nat>
    requires k < |order|
  {
    order[..k] + order[k + 1..]
  }

  /** `b->next->prev = b->prev; b->prev->next = b->next;` */
  function Unlink(s: seq<Buf>, b: nat): (r: seq<Buf>)
    requires b < |s| && s[b].next < |s| && s[b].prev < |s|
    ensures |r| == |s|
  {
    var n, p := s[b].next, s[b].prev;
    var s1 := s[n := s[n].(prev := p)];
    s1[p := s1[p].(next := n)]
  }

  /** `b->next = head.next; b->prev = &head; head.next->prev = b; head.next = b;` */
  function PushFront(s: seq<Buf>, head: nat, b: nat): (r: seq<Buf>)
    requires b < |s| && head < |s| && s[head].next < |s|
    ensures |r| == |s|
  {
    var first := s[head].next;
    var s1 := s[b := s[b].(next := first, prev := head)];
    var s2 := s1[first := s1[first].(prev := b)];
    s2[head := s2[head].(next := b)]
  }

  /** Nothing but links changed. */
  ghost predicate SameButLinks(s: seq<Buf>, t: seq<Buf>) {
    |t| == |s| && forall i | 0 <= i < |s| :: t[i] == s[i].(prev := t[i].prev, next := t[i].next)
  }

  lemma UnlinkRing(s: seq<Buf>, head: nat, order: seq<nat>, k: nat)
    requires Ring(s, head, order) && k < |order|
    ensures order[k] < |s| && s[order[k]].next < |s| && s[order[k]].prev < |s|
    ensures Ring(Unlink(s, order[k]), head, Without(order, k)) && SameButLinks(s, Unlink(s, order[k]))
  {
    var b := order[k];
    var c, c' := Chain(head, order), Chain(head, Without(order, k));
    assert c[k + 1] == b && Linked(s, c[k], b) && Linked(s, b, c[k + 2]);
    var t := Unlink(s, b);
    var all := [head] + order;
    forall j | 0 <= j <= |order| - 1 ensures Linked(t, c'[j], c'[j + 1]) {
      if j == k {
        assert c'[j] == c[k] && c'[j + 1] == c[k + 2];
      } else {
        var i := if j < k then j else j + 1;
        assert c'[j] == c[i] && c'[j + 1] == c[i + 1] && Linked(s, c[i], c[i + 1]);
        assert c[i] == all[i] && c[k] == all[k];
      }
    }
    assert Distinct([head] + Without(order, k)) by {
      var r := [head] + Without(order, k);
      forall i, j | 0 <= i < j < |r| ensures r[i] != r[j] {
        assert r[i] == all[if i <= k then i else i + 1] && r[j] == all[if j <= k then j else j + 1];
      }
    }
  }

  lemma PushFrontRing(s: seq<Buf>, head: nat, order: seq<nat>, b: nat)
    requires Ring(s, head, order) && b < |s| && b != head && b !in order
    ensures head < |s| && s[head].next < |s| && Ring(PushFront(s, head, b), head, [b] + order)
      && SameButLinks(s, PushFront(s, head, b))
  {
    var c, c' := Chain(head, order), Chain(head, [b] + order);
    assert Linked(s, c[0], c[1]);
    var t := PushFront(s, head, b);
    var all := [head] + order;
    forall j | 0 <= j <= |order| + 1 ensures Linked(t, c'[j], c'[j + 1]) {
      if j >= 2 {
        assert c'[j] == c[j - 1] && c'[j + 1] == c[j] && Linked(s, c[j - 1], c[j]);
        assert c[j - 1] == all[j - 1];
      } else {
        assert c'[0] == head && c'[1] == b && c'[2] == c[1];
      }
    }
    assert Distinct([head] + ([b] + order)) by {
      var r := [head] + ([b] + order);
      forall i, j | 0 <= i < j < |r| ensures r[i] != r[j] {
        assert j >= 2 ==> r[j] == all[j - 1];
        assert i >= 2 ==> r[i] == all[i - 1];
      }
    }
  }

  /** brelse's move to the head of the list. */
  lemma MoveToFront(s: seq<Buf>, head: nat, order: seq<nat>, k: nat)
    requires Ring(s, head, order) && k < |order|
    ensures order[k] < |s| && s[order[k]].next < |s| && s[order[k]].prev < |s|
    ensures
      var t := Unlink(s, order[k]);
      && head < |t| && t[head].next < |t|
      && Ring(PushFront(t, head, order[k]), head, [order[k]] + Without(order, k))
      && SameButLinks(s, PushFront(t, head, order[k]))
  {
    UnlinkRing(s, head, order, k);
    var all := [head] + order;
    assert all[k + 1] == order[k] && all[0] == head;
    forall i | 0 <= i < |Without(order, k)| ensures Without(order, k)[i] != order[k] {
      assert Without(order, k)[i] == all[if i < k then i + 1 else i + 2];
    }
    PushFrontRing(Unlink(s, order[k]), head, Without(order, k), order[k]);
  }
}
