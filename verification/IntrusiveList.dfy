/** Linux-style circular doubly linked lists through nodes embedded in a fixed array of slots.
    Node n < slots is slot n's `entry`; node slots + h is the head of list h. */
module IntrusiveList {
  import opened Memory

  // ---- Rings: one list, from its head back to its head ----

  function Ring(head: nat, items: seq<nat>): seq<nat> {
    [head] + items + [head]
  }

  /** next and prev agree along the ring. */
  ghost predicate Linked(nx: seq<nat>, pv: seq<nat>, ring: seq<nat>) {
    forall i :: 0 <= i < |ring| - 1 ==> LinkAt(nx, pv, ring, i)
  }

  ghost predicate LinkAt(nx: seq<nat>, pv: seq<nat>, ring: seq<nat>, i: nat)
    requires i < |ring| - 1
  {
    && ring[i] < |nx| && ring[i + 1] < |pv|
    && nx[ring[i]] == ring[i + 1]
    && pv[ring[i + 1]] == ring[i]
  }

  lemma LinkTail(nx: seq<nat>, pv: seq<nat>, head: nat, items: seq<nat>, t: nat, last: nat)
    requires |nx| == |pv| && head < |nx| && t < |nx| && t != head
    requires Linked(nx, pv, Ring(head, items)) && Distinct(items) && head !in items && t !in items
    requires last == pv[head] < |nx|
    ensures Linked(nx[last := t][t := head], pv[head := t][t := last], Ring(head, items + [t]))
  {
    var ring, ring' := Ring(head, items), Ring(head, items + [t]);
    var nx', pv' := nx[last := t][t := head], pv[head := t][t := last];
    var n := |items|;
    assert LinkAt(nx, pv, ring, n);
    assert last == ring[n];
    forall i | 0 <= i < |ring'| - 1 ensures LinkAt(nx', pv', ring', i) {
      if i < n {
        assert LinkAt(nx, pv, ring, i);
        RingDistinct(head, items, i, n);
      }
    }
  }

  function RemoveAt(items: seq<nat>, k: nat): seq<nat>
    requires k < |items|
  {
    items[..k] + items[k + 1..]
  }

  lemma Unlink(nx: seq<nat>, pv: seq<nat>, head: nat, items: seq<nat>, k: nat, before: nat, after: nat)
    requires |nx| == |pv| && k < |items|
    requires Linked(nx, pv, Ring(head, items)) && Distinct(items) && head !in items
    requires items[k] < |nx| && before == pv[items[k]] < |nx| && after == nx[items[k]] < |nx|
    ensures Linked(nx[before := after], pv[after := before], Ring(head, RemoveAt(items, k)))
  {
    var ring, ring' := Ring(head, items), Ring(head, RemoveAt(items, k));
    var nx', pv' := nx[before := after], pv[after := before];
    assert LinkAt(nx, pv, ring, k) && LinkAt(nx, pv, ring, k + 1);
    assert before == ring[k] && after == ring[k + 2];
    forall i | 0 <= i < |ring'| - 1 ensures LinkAt(nx', pv', ring', i) {
      if i < k {
        assert LinkAt(nx, pv, ring, i);
        RingDistinct(head, items, i, k);
        RingDistinctTail(head, items, i + 1, k + 2);
      } else if i > k {
        assert LinkAt(nx, pv, ring, i + 1);
        RingDistinct(head, items, i + 1, k);
        RingDistinctTail(head, items, i + 2, k + 2);
      }
    }
  }

  lemma RingDistinct(head: nat, items: seq<nat>, i: nat, j: nat)
    requires Distinct(items) && head !in items && i != j && i <= |items| && j <= |items|
    ensures Ring(head, items)[i] != Ring(head, items)[j]
  {
  }

  lemma RingDistinctTail(head: nat, items: seq<nat>, i: nat, j: nat)
    requires Distinct(items) && head !in items && i != j && 1 <= i <= |items| + 1 && 1 <= j <= |items| + 1
    ensures Ring(head, items)[i] != Ring(head, items)[j]
  {
  }

  /** A ring that the changed nodes are not on stays linked. */
  lemma RingKept(nx: seq<nat>, pv: seq<nat>, nx': seq<nat>, pv': seq<nat>, ring: seq<nat>)
    requires Linked(nx, pv, ring) && |nx'| == |nx| && |pv'| == |pv|
    requires forall i :: 0 <= i < |ring| && ring[i] < |nx| ==> nx'[ring[i]] == nx[ring[i]]
    requires forall i :: 0 <= i < |ring| && ring[i] < |pv| ==> pv'[ring[i]] == pv[ring[i]]
    ensures Linked(nx', pv', ring)
  {
    forall i | 0 <= i < |ring| - 1 ensures LinkAt(nx', pv', ring, i) {
      assert LinkAt(nx, pv, ring, i);
    }
  }

  // ---- Many lists over one set of nodes ----

  /** Every item is a slot, and no slot is on two lists or twice on one. */
  ghost predicate Disjoint(lists: seq<seq<nat>>, slots: nat) {
    && (forall h :: 0 <= h < |lists| ==> Distinct(lists[h]))
    && (forall h, i :: 0 <= h < |lists| && 0 <= i < |lists[h]| ==> lists[h][i] < slots)
    && (forall h, g :: 0 <= h < g < |lists| ==> forall x :: x in lists[h] ==> x !in lists[g])
  }

  ghost predicate Off(lists: seq<seq<nat>>, t: nat) {
    forall h :: 0 <= h < |lists| ==> t !in lists[h]
  }

  /** A node of one list, or of none, is not on another list's ring. */
  lemma NotOnOtherRing(lists: seq<seq<nat>>, slots: nat, h: nat, g: nat, x: nat)
    requires Disjoint(lists, slots) && h < |lists| && g < |lists| && h != g
    requires x == slots + h || x in lists[h] || (x < slots && Off(lists, x))
    ensures x !in Ring(slots + g, lists[g])
  {
  }

  lemma AddDisjoint(lists: seq<seq<nat>>, slots: nat, h: nat, t: nat)
    requires Disjoint(lists, slots) && h < |lists| && t < slots && Off(lists, t)
    ensures Disjoint(lists[h := lists[h] + [t]], slots)
  {
    var lists' := lists[h := lists[h] + [t]];
    assert Distinct(lists[h]);
    forall g | 0 <= g < |lists'| ensures Distinct(lists'[g]) {
      assert Distinct(lists[g]);
    }
  }

  lemma RemoveDisjoint(lists: seq<seq<nat>>, slots: nat, h: nat, k: nat)
    requires Disjoint(lists, slots) && h < |lists| && k < |lists[h]|
    ensures Disjoint(lists[h := RemoveAt(lists[h], k)], slots)
    ensures Off(lists[h := RemoveAt(lists[h], k)], lists[h][k])
  {
    var lists' := lists[h := RemoveAt(lists[h], k)];
    forall g | 0 <= g < |lists'| ensures Distinct(lists'[g]) {
      assert Distinct(lists[g]);
    }
    forall x | x in lists'[h] ensures x in lists[h] {
    }
    assert lists[h][k] !in lists'[h] by {
      assert Distinct(lists[h]);
    }
  }

  class Arena {
    const slots: nat
    const heads: nat
    const next: array<nat>
    const prev: array<nat>
    ghost var lists: seq<seq<nat>>

    ghost predicate Valid()
      reads this, next, prev
    {
      && next != prev
      && next.Length == prev.Length == slots + heads
      && |lists| == heads
      && Disjoint(lists, slots)
      && forall h :: 0 <= h < heads ==> Linked(next[..], prev[..], Ring(slots + h, lists[h]))
    }

    /** All heads initialised, all slot nodes detached. */
    constructor (slots: nat, heads: nat)
      ensures Valid() && fresh(next) && fresh(prev)
      ensures this.slots == slots && this.heads == heads
      ensures lists == seq(heads, h => [])
    {
      this.slots, this.heads := slots, heads;
      next := new nat[slots + heads](i => i);
      prev := new nat[slots + heads](i => i);
      lists := seq(heads, h => []);
    }

    method IsEmpty(h: nat) returns (empty: bool)
      requires Valid() && h < heads
      ensures empty <==> lists[h] == []
    {
      ghost var ring := Ring(slots + h, lists[h]);
      assert Linked(next[..], prev[..], ring);
      assert LinkAt(next[..], prev[..], ring, 0);
      empty := next[slots + h] == slots + h;
    }

    /** list_first_entry */
    method First(h: nat) returns (t: nat)
      requires Valid() && h < heads && lists[h] != []
      ensures t == lists[h][0] < slots
    {
      ghost var ring := Ring(slots + h, lists[h]);
      assert Linked(next[..], prev[..], ring);
      assert LinkAt(next[..], prev[..], ring, 0);
      t := next[slots + h];
    }

    /** list_add_tail: the node must be on no list. */
    method AddTail(h: nat, t: nat)
      requires Valid() && h < heads && t < slots && Off(lists, t)
      modifies this`lists, next, prev
      ensures Valid()
      ensures lists == old(lists)[h := old(lists[h]) + [t]]
    {
      ghost var nx: seq<nat>, pv: seq<nat> := next[..], prev[..];
      var head: nat := slots + h;
      assert Linked(nx, pv, Ring(head, lists[h]));
      assert Distinct(lists[h]);
      LastOfRing(nx, pv, head, lists[h]);
      var last: nat := prev[head];
      LinkTail(nx, pv, head, lists[h], t, last);
      next[last] := t;
      next[t] := head;
      prev[head] := t;
      prev[t] := last;
      assert next[..] == nx[last := t][t := head] && prev[..] == pv[head := t][t := last];
      forall g | 0 <= g < heads && g != h ensures Linked(next[..], prev[..], Ring(slots + g, lists[g])) {
        NotOnOtherRing(lists, slots, h, g, last);
        NotOnOtherRing(lists, slots, h, g, t);
        NotOnOtherRing(lists, slots, h, g, head);
        RingKept(nx, pv, next[..], prev[..], Ring(slots + g, lists[g]));
      }
      AddDisjoint(lists, slots, h, t);
      lists := lists[h := lists[h] + [t]];
    }

    /** list_del, given (as a ghost) where the node is: it must be on a list. */
    method Del(t: nat, ghost h: nat, ghost k: nat)
      requires Valid() && h < heads && k < |lists[h]| && lists[h][k] == t
      modifies this`lists, next, prev
      ensures Valid()
      ensures lists == old(lists)[h := RemoveAt(old(lists[h]), k)]
      ensures Off(lists, t)
    {
      ghost var nx: seq<nat>, pv: seq<nat> := next[..], prev[..];
      ghost var head: nat := slots + h;
      assert Linked(nx, pv, Ring(head, lists[h]));
      assert Distinct(lists[h]);
      NeighboursOnRing(nx, pv, head, lists[h], k);
      var before: nat, after: nat := prev[t], next[t];
      Unlink(nx, pv, head, lists[h], k, before, after);
      prev[after] := before;
      next[before] := after;
      assert next[..] == nx[before := after] && prev[..] == pv[after := before];
      forall g | 0 <= g < heads && g != h ensures Linked(next[..], prev[..], Ring(slots + g, lists[g])) {
        NotOnOtherRing(lists, slots, h, g, before);
        NotOnOtherRing(lists, slots, h, g, after);
        RingKept(nx, pv, next[..], prev[..], Ring(slots + g, lists[g]));
      }
      RemoveDisjoint(lists, slots, h, k);
      lists := lists[h := RemoveAt(lists[h], k)];
    }
  }

  lemma LastOfRing(nx: seq<nat>, pv: seq<nat>, head: nat, items: seq<nat>)
    requires Linked(nx, pv, Ring(head, items)) && head < |pv|
    ensures pv[head] == if items == [] then head else items[|items| - 1]
  {
    var ring := Ring(head, items);
    assert LinkAt(nx, pv, ring, |items|);
  }

  lemma NeighboursOnRing(nx: seq<nat>, pv: seq<nat>, head: nat, items: seq<nat>, k: nat)
    requires Linked(nx, pv, Ring(head, items)) && k < |items|
    ensures items[k] < |nx| && items[k] < |pv|
    ensures pv[items[k]] == if k == 0 then head else items[k - 1]
    ensures nx[items[k]] == if k + 1 == |items| then head else items[k + 1]
  {
    var ring := Ring(head, items);
    assert LinkAt(nx, pv, ring, k) && LinkAt(nx, pv, ring, k + 1);
  }
}
