/** The collector's rotation-order editor (`pages/collector/Schedule.tsx`):
    the clients already in the rotation, in order, and the active clients
    not yet placed; moves, additions and removals that reshape the two
    lists; and the numbering that is sent to `set_rotation_order`.

    The client listing the page loads is a parameter (`clients`).  The
    name collation of `localeCompare` is a parameter too (`rank`, a
    number per name that orders names as the collation does). */
module ScheduleEditor {
  import opened Wrappers
  import opened Ledger
  import opened Sorting
  import opened Schedule

  // ---------------------------------------------------------------------
  // The two lists

  predicate IsActive(c: Client) { c.isActive }

  predicate HasPosition(c: Client) { c.payoutPosition.Some? }

  predicate HasNoPosition(c: Client) { c.payoutPosition.None? }

  /** The rotation as first shown: the active clients that have a position,
      in ascending position (the browser's sort is stable, so equal
      positions keep the listing's order). */
  function InitialOrder(clients: seq<Client>): (ordered: seq<Client>)
    ensures SortedBy(ordered, PositionOf)
    ensures forall k :: 0 <= k < |ordered| ==> ordered[k].isActive && ordered[k].payoutPosition.Some?
    ensures multiset(ordered) == multiset(Select(Select(clients, IsActive), HasPosition))
  {
    var positioned := Select(Select(clients, IsActive), HasPosition);
    SortBySorted(positioned, PositionOf);
    forall k | 0 <= k < |SortBy(positioned, PositionOf)|
      ensures SortBy(positioned, PositionOf)[k] in positioned
    {
      assert SortBy(positioned, PositionOf)[k] in multiset(positioned);
    }
    SortBy(positioned, PositionOf)
  }

  /** The active clients with no position, in the listing's order. */
  function InitialUnplaced(clients: seq<Client>): (unplaced: seq<Client>)
    ensures forall k :: 0 <= k < |unplaced| ==> unplaced[k].isActive && unplaced[k].payoutPosition.None?
  {
    Select(Select(clients, IsActive), HasNoPosition)
  }

  /** Every client of the listing appears in the two lists exactly as often
      as it is active: the two lists split the active clients. */
  predicate Partition(clients: seq<Client>, ordered: seq<Client>, unplaced: seq<Client>) {
    multiset(ordered + unplaced) == multiset(Select(clients, IsActive))
  }

  /** The lists as first shown split the active clients, and an inactive
      client is in neither. */
  lemma InitialPartition(clients: seq<Client>)
    ensures Partition(clients, InitialOrder(clients), InitialUnplaced(clients))
    ensures forall c :: c in clients && !c.isActive ==> c !in InitialOrder(clients) && c !in InitialUnplaced(clients)
  {
    var active := Select(clients, IsActive);
    SelectComplement(active, HasPosition, HasNoPosition);
    assert multiset(InitialOrder(clients) + InitialUnplaced(clients))
        == multiset(InitialOrder(clients)) + multiset(InitialUnplaced(clients));
  }

  /** Client ids name clients: no client is listed twice and no two listed
      clients share an id. */
  ghost predicate IdsUnique(s: seq<Client>) {
    (forall c :: multiset(s)[c] <= 1) && (forall x, y :: x in s && y in s && x.id == y.id ==> x == y)
  }

  // ---------------------------------------------------------------------
  // Moving a client up or down

  /** `s` with the entries at `i` and `j` exchanged. */
  function Swapped(s: seq<Client>, i: nat, j: nat): (r: seq<Client>)
    requires i < |s| && j < |s|
    ensures |r| == |s| && r[i] == s[j] && r[j] == s[i]
    ensures forall k :: 0 <= k < |s| && k != i && k != j ==> r[k] == s[k]
    ensures multiset(r) == multiset(s)
  {
    s[i := s[j]][j := s[i]]
  }

  /** Exchanging the same two entries twice restores the list. */
  lemma SwapTwice(s: seq<Client>, i: nat, j: nat)
    requires i < |s| && j < |s|
    ensures Swapped(Swapped(s, i, j), i, j) == s
  {
  }

  /** `moveUp`: copies the list and exchanges the entry at `index` with the
      one before it; nothing happens at the top. */
  method MoveUp(ordered: seq<Client>, index: nat) returns (r: seq<Client>)
    requires index < |ordered|
    ensures index == 0 ==> r == ordered
    ensures index > 0 ==> r == Swapped(ordered, index - 1, index)
    ensures multiset(r) == multiset(ordered)
  {
    if index == 0 {
      return ordered;
    }
    var arr := new Client[|ordered|](k requires 0 <= k < |ordered| => ordered[k]);
    arr[index - 1], arr[index] := arr[index], arr[index - 1];
    r := arr[..];
  }

  /** `moveDown`: copies the list and exchanges the entry at `index` with
      the one after it; nothing happens at the bottom. */
  method MoveDown(ordered: seq<Client>, index: nat) returns (r: seq<Client>)
    requires index < |ordered|
    ensures index == |ordered| - 1 ==> r == ordered
    ensures index < |ordered| - 1 ==> r == Swapped(ordered, index, index + 1)
    ensures multiset(r) == multiset(ordered)
  {
    if index == |ordered| - 1 {
      return ordered;
    }
    var arr := new Client[|ordered|](k requires 0 <= k < |ordered| => ordered[k]);
    arr[index], arr[index + 1] := arr[index + 1], arr[index];
    r := arr[..];
  }

  /** Moving an entry down and then moving it back up restores the list. */
  lemma DownThenUp(ordered: seq<Client>, index: nat)
    requires index + 1 < |ordered|
    ensures Swapped(Swapped(ordered, index, index + 1), index, index + 1) == ordered
  {
    SwapTwice(ordered, index, index + 1);
  }

  // ---------------------------------------------------------------------
  // Adding and removing

  function IdIs(id: nat): Client -> bool { (c: Client) => c.id == id }

  function IdIsNot(id: nat): Client -> bool { (c: Client) => c.id != id }

  /** `addClient`: the client goes to the end of the rotation and every
      entry with its id leaves the unplaced list. */
  function AddClient(ordered: seq<Client>, unplaced: seq<Client>, client: Client): (r: (seq<Client>, seq<Client>))
    ensures r.0 == ordered + [client]
    ensures forall c :: c in r.1 <==> c in unplaced && c.id != client.id
  {
    var rest := Select(unplaced, IdIsNot(client.id));
    forall c | c in unplaced && c.id != client.id ensures c in rest {
      SelectKeeps(unplaced, IdIsNot(client.id), c);
    }
    (ordered + [client], rest)
  }

  /** `prev.filter((_, i) => i !== index)`. */
  function RemoveAt(s: seq<Client>, index: nat): (r: seq<Client>)
    requires index < |s|
    ensures |r| == |s| - 1
    ensures forall k :: 0 <= k < index ==> r[k] == s[k]
    ensures forall k :: index <= k < |r| ==> r[k] == s[k + 1]
    ensures multiset(r) + multiset{s[index]} == multiset(s)
  {
    assert s == s[..index] + [s[index]] + s[index + 1..];
    s[..index] + s[index + 1..]
  }

  /** The sort key of a client under the name collation `rank`. */
  function ByName(rank: string -> int): Client -> int { (c: Client) => rank(c.fullName) }

  /** `removeClient`: the entry at `index` leaves the rotation and joins
      the unplaced list, which is then sorted by name. */
  function RemoveClient(ordered: seq<Client>, unplaced: seq<Client>, index: nat, rank: string -> int)
    : (r: (seq<Client>, seq<Client>))
    requires index < |ordered|
    ensures r.0 == RemoveAt(ordered, index)
    ensures SortedBy(r.1, ByName(rank))
    ensures multiset(r.1) == multiset(unplaced) + multiset{ordered[index]}
  {
    SortBySorted(unplaced + [ordered[index]], ByName(rank));
    (RemoveAt(ordered, index), SortBy(unplaced + [ordered[index]], ByName(rank)))
  }

  /** The unplaced list holds exactly one entry with the id of a client it
      holds, when ids name clients. */
  lemma OnlyEntryWithId(clients: seq<Client>, unplaced: seq<Client>, client: Client)
    requires multiset(unplaced) <= multiset(clients) && IdsUnique(clients)
    requires client in unplaced
    ensures multiset(Select(unplaced, IdIs(client.id))) == multiset{client}
  {
    var same := Select(unplaced, IdIs(client.id));
    SelectSubMultiset(unplaced, IdIs(client.id));
    SelectKeeps(unplaced, IdIs(client.id), client);
    assert multiset(clients)[client] <= 1;
    forall c | c in same ensures c == client {
      var k :| 0 <= k < |same| && same[k] == c;
      assert c in unplaced && IdIs(client.id)(c);
      assert multiset(clients)[c] >= multiset(unplaced)[c] > 0;
      assert c in clients && client in clients;
    }
    forall x ensures multiset(same)[x] == multiset{client}[x] {
      if x != client {
        assert x !in same;
      }
    }
    assert multiset(same) == multiset{client};
  }

  /** Adding a client the unplaced list offers keeps the two lists a split
      of the active clients. */
  lemma AddKeepsPartition(clients: seq<Client>, ordered: seq<Client>, unplaced: seq<Client>, client: Client)
    requires IdsUnique(clients) && Partition(clients, ordered, unplaced)
    requires client in unplaced
    ensures Partition(clients, AddClient(ordered, unplaced, client).0, AddClient(ordered, unplaced, client).1)
  {
    var active := Select(clients, IsActive);
    SelectSubMultiset(clients, IsActive);
    assert multiset(ordered + unplaced) == multiset(ordered) + multiset(unplaced);
    OnlyEntryWithId(clients, unplaced, client);
    SelectComplement(unplaced, IdIs(client.id), IdIsNot(client.id));
    var r := AddClient(ordered, unplaced, client);
    assert multiset(r.0 + r.1) == multiset(ordered) + multiset{client} + multiset(r.1);
  }

  /** Removing a client keeps the two lists a split of the active clients. */
  lemma RemoveKeepsPartition(clients: seq<Client>, ordered: seq<Client>, unplaced: seq<Client>, index: nat,
                             rank: string -> int)
    requires Partition(clients, ordered, unplaced)
    requires index < |ordered|
    ensures Partition(clients, RemoveClient(ordered, unplaced, index, rank).0,
                      RemoveClient(ordered, unplaced, index, rank).1)
  {
    var r := RemoveClient(ordered, unplaced, index, rank);
    assert multiset(ordered + unplaced) == multiset(ordered) + multiset(unplaced);
    assert multiset(r.0 + r.1) == multiset(r.0) + multiset(r.1);
  }

  /** Adding a client and removing it again (it is last in the rotation)
      restores the rotation and gives back the unplaced clients, now in
      name order. */
  lemma AddThenRemove(clients: seq<Client>, ordered: seq<Client>, unplaced: seq<Client>, client: Client,
                      rank: string -> int)
    requires IdsUnique(clients) && multiset(unplaced) <= multiset(clients)
    requires client in unplaced
    ensures var added := AddClient(ordered, unplaced, client);
      var removed := RemoveClient(added.0, added.1, |ordered|, rank);
      removed.0 == ordered && multiset(removed.1) == multiset(unplaced) && SortedBy(removed.1, ByName(rank))
  {
    var added := AddClient(ordered, unplaced, client);
    assert added.0[..|ordered|] == ordered;
    OnlyEntryWithId(clients, unplaced, client);
    SelectComplement(unplaced, IdIs(client.id), IdIsNot(client.id));
  }

  // ---------------------------------------------------------------------
  // Saving

  /** `saveOrder`: each client in the rotation gets its place in the list,
      counting from 1. */
  function NumberInOrder(ordered: seq<Client>): (ps: seq<PositionAssignment>)
    ensures |ps| == |ordered|
    ensures forall k :: 0 <= k < |ps| ==> ps[k] == PositionAssignment(ordered[k].id, k + 1)
  {
    seq(|ordered|, k requires 0 <= k < |ordered| => PositionAssignment(ordered[k].id, k + 1))
  }

  /** The numbering always has the positions 1..N. */
  lemma NumberingIsContiguous(ordered: seq<Client>)
    ensures Contiguous(NumberInOrder(ordered))
  {
    var ps := NumberInOrder(ordered);
    assert Positions(ps) == OneTo(|ps|);
    SortByOfSorted(OneTo(|ps|), IntKey);
  }

  /** The numbering of a rotation made of the collector's own clients
      passes the validation of `set_rotation_order`. */
  lemma SavedOrderAccepted(clients: seq<Client>, collectorId: nat, ordered: seq<Client>)
    requires ClientsIndexed(clients)
    requires forall k :: 0 <= k < |ordered| ==> ordered[k] in clients && ordered[k].collectorId == collectorId
    ensures RotationCheck(clients, collectorId, NumberInOrder(ordered)) == None
  {
    NumberingIsContiguous(ordered);
    var ps := NumberInOrder(ordered);
    forall k | 0 <= k < |ps| ensures ps[k].clientId < |clients| && clients[ps[k].clientId].collectorId == collectorId {
      var j :| 0 <= j < |clients| && clients[j] == ordered[k];
    }
  }
}
