/**
 * The singly linked lists of the game (enemies, explosions) as sequences of nodes, head
 * first. A node's `id` stands for its address: two nodes are the same node iff their ids are
 * equal.
 */
module Nodes {

  datatype Node<T> = Node(id: nat, item: T)

  /** No address occurs twice in the list. */
  predicate UniqueIds<T>(s: seq<Node<T>>)
  {
    forall i, j :: 0 <= i < j < |s| ==> s[i].id != s[j].id
  }

  /** Every address in the list is below `bound`. */
  predicate IdsBelow<T>(s: seq<Node<T>>, bound: nat)
  {
    forall i :: 0 <= i < |s| ==> s[i].id < bound
  }

  /** The list holds a node at address `id`. */
  predicate Holds<T>(s: seq<Node<T>>, id: nat)
  {
    exists i :: 0 <= i < |s| && s[i].id == id
  }

  /**
   * The list after the pointer-to-pointer walk of `destroy_enemy`/`destroy_explosion`: the
   * first node at address `id` is unlinked; a list without such a node is left as it is.
   */
  function Unlink<T>(s: seq<Node<T>>, id: nat): (r: seq<Node<T>>)
    ensures !Holds(s, id) ==> r == s
    ensures Holds(s, id) ==> |r| == |s| - 1
  {
    if s == [] then []
    else if s[0].id == id then s[1..]
    else
      assert Holds(s, id) ==> Holds(s[1..], id);
      [s[0]] + Unlink(s[1..], id)
  }

  /**
   * Unlinking the first node at address `id`, found at position `k`, keeps the nodes before
   * and after it, in their order.
   */
  lemma {:induction false} UnlinkFirst<T>(s: seq<Node<T>>, id: nat, k: nat)
    requires k < |s| && s[k].id == id
    requires forall j :: 0 <= j < k ==> s[j].id != id
    ensures Unlink(s, id) == s[..k] + s[k + 1..]
  {
    if k > 0 {
      UnlinkFirst(s[1..], id, k - 1);
      assert s[1..][..k - 1] == s[1..k];
      assert s[1..][k..] == s[k + 1..];
      assert [s[0]] + s[1..k] == s[..k];
    }
  }

  /** In a list with unique addresses, `Unlink` removes exactly the node at `id`, wherever it is. */
  lemma UnlinkAt<T>(s: seq<Node<T>>, k: nat)
    requires UniqueIds(s) && k < |s|
    ensures Unlink(s, s[k].id) == s[..k] + s[k + 1..]
  {
    UnlinkFirst(s, s[k].id, k);
  }

  /** Position `j` of the list with position `k` removed. */
  lemma RemoveAtIndex<T>(s: seq<Node<T>>, k: nat, j: nat)
    requires k < |s| && j < |s| - 1
    ensures (s[..k] + s[k + 1..])[j] == if j < k then s[j] else s[j + 1]
  {
  }

  /** Removing the node at position `k` keeps the addresses unique and below the same bound. */
  lemma RemoveAtKeepsUnique<T>(s: seq<Node<T>>, k: nat, bound: nat)
    requires UniqueIds(s) && IdsBelow(s, bound) && k < |s|
    ensures UniqueIds(s[..k] + s[k + 1..]) && IdsBelow(s[..k] + s[k + 1..], bound)
  {
    var r := s[..k] + s[k + 1..];
    forall i, j | 0 <= i < j < |r|
      ensures r[i].id != r[j].id
    {
      RemoveAtIndex(s, k, i);
      RemoveAtIndex(s, k, j);
    }
    forall i | 0 <= i < |r|
      ensures r[i].id < bound
    {
      RemoveAtIndex(s, k, i);
    }
  }

  /** Removing the node at position `k` loses its address and no other. */
  lemma RemoveAtKeepsOthers<T>(s: seq<Node<T>>, k: nat, other: nat)
    requires UniqueIds(s) && k < |s|
    ensures !Holds(s[..k] + s[k + 1..], s[k].id)
    ensures other != s[k].id ==> (Holds(s[..k] + s[k + 1..], other) <==> Holds(s, other))
  {
    var r := s[..k] + s[k + 1..];
    if Holds(r, s[k].id) {
      var j :| 0 <= j < |r| && r[j].id == s[k].id;
      RemoveAtIndex(s, k, j);
    }
    if other != s[k].id {
      if Holds(s, other) {
        var m :| 0 <= m < |s| && s[m].id == other;
        RemoveAtIndex(s, k, if m < k then m else m - 1);
      }
      if Holds(r, other) {
        var j :| 0 <= j < |r| && r[j].id == other;
        RemoveAtIndex(s, k, j);
      }
    }
  }

  /** Removing a node keeps the addresses unique and below the same bound, and drops `id` only. */
  lemma UnlinkKeepsIds<T>(s: seq<Node<T>>, id: nat, bound: nat, other: nat)
    requires UniqueIds(s) && IdsBelow(s, bound)
    ensures UniqueIds(Unlink(s, id)) && IdsBelow(Unlink(s, id), bound)
    ensures !Holds(Unlink(s, id), id)
    ensures other != id ==> (Holds(Unlink(s, id), other) <==> Holds(s, other))
  {
    if Holds(s, id) {
      var k :| 0 <= k < |s| && s[k].id == id;
      UnlinkAt(s, k);
      RemoveAtKeepsUnique(s, k, bound);
      RemoveAtKeepsOthers(s, k, other);
    }
  }

  /** Replacing the payload of a node keeps the addresses as they are. */
  lemma ReplaceKeepsIds<T>(s: seq<Node<T>>, k: nat, item: T)
    requires k < |s|
    ensures UniqueIds(s) ==> UniqueIds(s[k := Node(s[k].id, item)])
    ensures forall bound :: IdsBelow(s, bound) ==> IdsBelow(s[k := Node(s[k].id, item)], bound)
  {
    var r := s[k := Node(s[k].id, item)];
    assert forall j :: 0 <= j < |r| ==> r[j].id == s[j].id;
  }

  /** Prepending a node at a fresh address keeps the addresses unique. */
  lemma PrependKeepsIds<T>(n: Node<T>, s: seq<Node<T>>, bound: nat)
    requires UniqueIds(s) && IdsBelow(s, bound) && n.id == bound
    ensures UniqueIds([n] + s) && IdsBelow([n] + s, bound + 1)
  {
    var r := [n] + s;
    forall i, j | 0 <= i < j < |r|
      ensures r[i].id != r[j].id
    {
      if i > 0 {
        assert r[i] == s[i - 1] && r[j] == s[j - 1];
      }
    }
  }

  /** Prepending a node whose address is in range and not in the list keeps the addresses unique. */
  lemma ConsKeepsIds<T>(n: Node<T>, s: seq<Node<T>>, bound: nat)
    requires UniqueIds(s) && IdsBelow(s, bound) && n.id < bound
    requires forall j :: 0 <= j < |s| ==> s[j].id != n.id
    ensures UniqueIds([n] + s) && IdsBelow([n] + s, bound)
  {
    var r := [n] + s;
    forall i, j | 0 <= i < j < |r|
      ensures r[i].id != r[j].id
    {
      assert r[j] == s[j - 1];
      if i > 0 {
        assert r[i] == s[i - 1];
      }
    }
  }

  /** The tail of a list keeps its addresses unique and below the same bound. */
  lemma TailKeepsIds<T>(s: seq<Node<T>>, bound: nat)
    requires s != [] && UniqueIds(s) && IdsBelow(s, bound)
    ensures UniqueIds(s[1..]) && IdsBelow(s[1..], bound)
    ensures forall j :: 0 <= j < |s| - 1 ==> s[1..][j].id != s[0].id
  {
    forall j | 0 <= j < |s| - 1
      ensures s[1..][j].id != s[0].id
    {
      assert s[1..][j] == s[j + 1];
    }
  }
}
