/**
 The doubly linked ring with a list head that the kernel uses everywhere (rtservice.h), on
 explicit link maps, and its meaning as a sequence.
 */
module Ring {

  /** next and prev links of the nodes that exist. */
  datatype Links<T(==)> = Links(next: map<T, T>, prev: map<T, T>)

  ghost predicate Distinct<T>(s: seq<T>) {
    forall i, j :: 0 <= i < j < |s| ==> s[i] != s[j]
  }

  /** The ring headed by `h` holds exactly the nodes of `s`, in that order. */
  ghost predicate IsRing<T>(k: Links<T>, h: T, s: seq<T>) {
    && Distinct(s) && h !in s
    && h in k.next && h in k.prev
    && (forall i :: 0 <= i < |s| ==> s[i] in k.next && s[i] in k.prev)
    && (s == [] ==> k.next[h] == h && k.prev[h] == h)
    && (s != [] ==>
      && k.next[h] == s[0] && k.prev[s[0]] == h
      && k.prev[h] == s[|s| - 1] && k.next[s[|s| - 1]] == h)
    && (forall i, j :: 0 <= i && j == i + 1 && j < |s| ==> k.next[s[i]] == s[j] && k.prev[s[j]] == s[i])
  }

  /** rt_list_insert_after */
  function InsertAfter<T>(k: Links<T>, l: T, n: T): Links<T>
    requires l in k.next && k.next[l] in k.prev
  {
    var after := k.next[l];
    Links(k.next[n := after][l := n], k.prev[after := n][n := l])
  }

  /** rt_list_insert_before */
  function InsertBefore<T>(k: Links<T>, l: T, n: T): Links<T>
    requires l in k.prev && k.prev[l] in k.next
  {
    var before := k.prev[l];
    Links(k.next[before := n][n := l], k.prev[n := before][l := n])
  }

  /** rt_list_remove, up to the links of the removed node itself. */
  function Unlink<T>(k: Links<T>, n: T): Links<T>
    requires n in k.next && n in k.prev && k.next[n] in k.prev && k.prev[n] in k.next
  {
    var after, before := k.next[n], k.prev[n];
    Links(k.next[before := after], k.prev[after := before])
  }

  /** The node before position `i` of the ring, which is the head for i == 0. */
  function NodeBefore<T>(h: T, s: seq<T>, i: nat): T
    requires i <= |s|
  {
    if i == 0 then h else s[i - 1]
  }

  function NodeAt<T>(h: T, s: seq<T>, i: nat): T
    requires i <= |s|
  {
    if i == |s| then h else s[i]
  }

  /** Every position of the ring is linked both ways to its neighbours. */
  lemma Around<T>(k: Links<T>, h: T, s: seq<T>, i: nat)
    requires IsRing(k, h, s) && i <= |s|
    ensures NodeBefore(h, s, i) in k.next && NodeAt(h, s, i) in k.prev
    ensures k.next[NodeBefore(h, s, i)] == NodeAt(h, s, i)
    ensures k.prev[NodeAt(h, s, i)] == NodeBefore(h, s, i)
  {}

  function Inserted<T>(s: seq<T>, i: nat, n: T): seq<T>
    requires i <= |s|
  {
    s[..i] + [n] + s[i..]
  }

  function Removed<T>(s: seq<T>, i: nat): seq<T>
    requires i < |s|
  {
    s[..i] + s[i + 1..]
  }

  /** Inserting behind the node before position `i` inserts at position `i`. */
  lemma InsertAfterIsInsert<T>(k: Links<T>, h: T, s: seq<T>, i: nat, n: T)
    requires IsRing(k, h, s) && i <= |s| && n !in s && n != h
    ensures NodeBefore(h, s, i) in k.next && k.next[NodeBefore(h, s, i)] in k.prev
    ensures IsRing(InsertAfter(k, NodeBefore(h, s, i), n), h, Inserted(s, i, n))
  {
    Around(k, h, s, i);
    var r := Inserted(s, i, n);
    var before, after := NodeBefore(h, s, i), NodeAt(h, s, i);
    var k' := InsertAfter(k, before, n);
    assert forall a :: 0 <= a < i ==> r[a] == s[a];
    assert r[i] == n;
    assert forall a :: i < a < |r| ==> r[a] == s[a - 1];
    forall a, b | 0 <= a && b == a + 1 && b < |r|
      ensures k'.next[r[a]] == r[b] && k'.prev[r[b]] == r[a]
    {
      if b < i {
        assert r[a] == s[a] && r[b] == s[b];
      } else if b == i {
        assert r[a] == before;
      } else if a == i {
        assert r[b] == after;
      } else {
        assert r[a] == s[a - 1] && r[b] == s[b - 1];
      }
    }
  }

  /** Unlinking the node at position `i` removes it. */
  lemma UnlinkIsRemove<T>(k: Links<T>, h: T, s: seq<T>, i: nat)
    requires IsRing(k, h, s) && i < |s|
    ensures s[i] in k.next && s[i] in k.prev && k.next[s[i]] in k.prev && k.prev[s[i]] in k.next
    ensures IsRing(Unlink(k, s[i]), h, Removed(s, i))
  {
    Around(k, h, s, i);
    Around(k, h, s, i + 1);
    var r := Removed(s, i);
    var before, after := NodeBefore(h, s, i), NodeAt(h, s, i + 1);
    var k' := Unlink(k, s[i]);
    assert forall a :: 0 <= a < i ==> r[a] == s[a];
    assert forall a :: i <= a < |r| ==> r[a] == s[a + 1];
    forall a, b | 0 <= a && b == a + 1 && b < |r|
      ensures k'.next[r[a]] == r[b] && k'.prev[r[b]] == r[a]
    {
      if b < i {
        assert r[a] == s[a] && r[b] == s[b];
      } else if b == i {
        assert r[a] == before && r[b] == after;
      } else {
        assert r[a] == s[a + 1] && r[b] == s[b + 1];
      }
    }
  }

  /** rt_list_insert_before of a node is rt_list_insert_after of the node in front of it. */
  lemma BeforeIsAfterPrevious<T>(k: Links<T>, h: T, s: seq<T>, i: nat, n: T)
    requires IsRing(k, h, s) && i <= |s| && n !in s && n != h
    ensures NodeAt(h, s, i) in k.prev && k.prev[NodeAt(h, s, i)] in k.next
    ensures NodeBefore(h, s, i) in k.next && k.next[NodeBefore(h, s, i)] in k.prev
    ensures InsertBefore(k, NodeAt(h, s, i), n) == InsertAfter(k, NodeBefore(h, s, i), n)
  {
    Around(k, h, s, i);
  }
}
