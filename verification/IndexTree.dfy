/** One level of the server's object tree, and the global map that indexes it: owner objects
    each list their children, and the index must list the children of the live owners. */
module IndexTree {

  type Id = nat

  /** A stream or a session: its identifier, the object that owns it, and its own object
      number, all fixed at creation. Streams own nothing and carry the number 0. */
  datatype Child = Child(id: Id, owner: nat, number: nat)

  /** What one owner lists. */
  ghost predicate Listed(listed: map<Id, Child>, o: nat, announced: set<Id>) {
    forall k | k in listed :: listed[k].id == k && listed[k].owner == o && k in announced
  }

  /** The index holds exactly the children of the live owners; no identifier is listed twice,
      not even by an owner that is no longer live; and all were announced. */
  ghost predicate Tree(live: set<nat>, kids: seq<map<Id, Child>>, index: map<Id, Child>, announced: set<Id>) {
    && (forall o | o in live :: o < |kids|)
    && Forest(kids, announced)
    && (forall k | k in index :: var o := index[k].owner; o in live && k in kids[o] && kids[o][k] == index[k])
    && (forall o, k | o in live && k in kids[o] :: k in index && index[k] == kids[o][k])
  }

  /** What all owners list, live or not. */
  ghost predicate Forest(kids: seq<map<Id, Child>>, announced: set<Id>) {
    && (forall o | 0 <= o < |kids| :: Listed(kids[o], o, announced))
    && (forall a, b, k | 0 <= a < |kids| && 0 <= b < |kids| && k in kids[a] && k in kids[b] :: a == b)
  }

  /** The identifiers of the children the given owners list. */
  function ChildIds(kids: seq<map<Id, Child>>, owners: set<nat>): set<Id> {
    set o, k | o in owners && o < |kids| && k in kids[o] :: kids[o][k].id
  }

  function Put(listed: map<Id, Child>, c: Child): map<Id, Child> {
    listed[c.id := c]
  }

  function Replace(kids: seq<map<Id, Child>>, o: nat, listed: map<Id, Child>): seq<map<Id, Child>> {
    if o < |kids| then kids[o := listed] else kids
  }

  lemma {:induction false} Announcing(live: set<nat>, kids: seq<map<Id, Child>>, index: map<Id, Child>,
                                      announced: set<Id>, more: set<Id>)
    requires Tree(live, kids, index, announced)
    ensures Tree(live, kids, index, announced + more)
  {
  }

  lemma {:induction false} AddOwner(live: set<nat>, kids: seq<map<Id, Child>>, index: map<Id, Child>,
                                    announced: set<Id>)
    requires Tree(live, kids, index, announced)
    ensures Tree(live + {|kids|}, kids + [map[]], index, announced)
  {
  }

  lemma {:induction false} AddChild(live: set<nat>, kids: seq<map<Id, Child>>, index: map<Id, Child>,
                                    announced: set<Id>, c: Child)
    requires Tree(live, kids, index, announced) && c.owner in live && c.id !in announced
    ensures Tree(live, kids[c.owner := Put(kids[c.owner], c)], Put(index, c), announced + {c.id})
  {
    ForestGrows(kids, announced, c);
    KeysAreAnnounced(live, kids, index, announced);
    hide Forest;
  }

  lemma {:induction false} ForestGrows(kids: seq<map<Id, Child>>, announced: set<Id>, c: Child)
    requires Forest(kids, announced) && c.owner < |kids| && c.id !in announced
    ensures Forest(kids[c.owner := Put(kids[c.owner], c)], announced + {c.id})
  {
  }

  lemma {:induction false} RemoveChild(live: set<nat>, kids: seq<map<Id, Child>>, index: map<Id, Child>,
                                       announced: set<Id>, o: nat, k: Id)
    requires Tree(live, kids, index, announced) && o < |kids|
    requires k in kids[o] || k !in index
    ensures Tree(live, kids[o := kids[o] - {k}], index - {k}, announced)
  {
  }

  lemma {:induction false} DropOwners(live: set<nat>, kids: seq<map<Id, Child>>, index: map<Id, Child>,
                                      announced: set<Id>, owners: set<nat>)
    requires Tree(live, kids, index, announced)
    ensures Tree(live - owners, kids, index - ChildIds(kids, owners), announced)
  {
  }

  lemma {:induction false} Clear(live: set<nat>, kids: seq<map<Id, Child>>, index: map<Id, Child>, announced: set<Id>,
                                 kept: seq<map<Id, Child>>)
    requires Tree(live, kids, index, announced) && |kept| == |kids|
    requires forall o | 0 <= o < |kids| :: kept[o] == kids[o] || kept[o] == map[]
    ensures Tree({}, kept, map[], announced)
  {
  }

  /** A tree's index is the disjoint union of its live owners' lists. */
  lemma {:induction false} IndexIsUnion(live: set<nat>, kids: seq<map<Id, Child>>, index: map<Id, Child>,
                                        announced: set<Id>)
    requires Tree(live, kids, index, announced)
    ensures index.Keys == ChildIds(kids, live)
    ensures forall a, b | a in live && b in live && a != b :: ChildIds(kids, {a}) !! ChildIds(kids, {b})
  {
    forall k | k in ChildIds(kids, live) ensures k in index {
      var o, j :| o in live && o < |kids| && j in kids[o] && kids[o][j].id == k;
      assert Listed(kids[o], o, announced);
    }
    forall a, b | a in live && b in live && a != b ensures ChildIds(kids, {a}) !! ChildIds(kids, {b}) {
      assert Listed(kids[a], a, announced) && Listed(kids[b], b, announced);
      forall k | k in ChildIds(kids, {a}) ensures k !in ChildIds(kids, {b}) {
      }
    }
  }

  lemma {:induction false} KeysAreAnnounced(live: set<nat>, kids: seq<map<Id, Child>>, index: map<Id, Child>,
                                            announced: set<Id>)
    requires Tree(live, kids, index, announced)
    ensures forall k | k in index :: k in announced && index[k].id == k
  {
    forall k | k in index ensures k in announced && index[k].id == k {
      assert Listed(kids[index[k].owner], index[k].owner, announced);
    }
  }

  /** Removing what some live owners list removes the entries under those owners. */
  lemma {:induction false} OwnersTakeTheirOwn(live: set<nat>, kids: seq<map<Id, Child>>, index: map<Id, Child>,
                                              announced: set<Id>, owners: set<nat>)
    requires Tree(live, kids, index, announced)
    ensures forall k | k in index :: k in ChildIds(kids, owners) <==> index[k].owner in owners
  {
    forall k | k in index ensures k in ChildIds(kids, owners) <==> index[k].owner in owners {
      assert Listed(kids[index[k].owner], index[k].owner, announced);
      if k in ChildIds(kids, owners) {
        var o, j :| o in owners && o < |kids| && j in kids[o] && kids[o][j].id == k;
        assert Listed(kids[o], o, announced);
      }
    }
  }
}
