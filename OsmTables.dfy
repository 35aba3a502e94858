/** The tables `get_map_data` keeps after reading an OpenStreetMap extract
    (osm_interpreter.py): every node and way is read, then only the nodes
    and ways that the selected bus-route relations use are kept. */
module OsmTables {

  type Tags = map<string, string>

  /** A node read from the map: its id and coordinates. */
  datatype OsmNode = OsmNode(id: int, lat: real, lng: real)

  /** A way: its id, its node ids in order, and its tags. */
  datatype OsmWay = OsmWay(id: int, nodes: seq<int>, tags: Tags)

  /** A route relation: its id, its member ids (ways and stop nodes) in
      order, and its tags. */
  datatype OsmRelation = OsmRelation(id: int, members: seq<int>, tags: Tags)

  /** The value a relation id maps to in the final relation table. */
  datatype RouteInfo = RouteInfo(members: seq<int>, tags: Tags)

  // ---------------------------------------------------------------------
  // Tables filled with `dict.update`, a later entry overwriting an earlier

  /** The dictionary left by updating with each (key, value) in turn. */
  function TableOf<V>(entries: seq<(int, V)>): (t: map<int, V>)
    ensures forall k :: 0 <= k < |entries| ==> entries[k].0 in t
    ensures forall key :: key in t ==> exists k :: 0 <= k < |entries| && entries[k].0 == key
  {
    if entries == [] then map[]
    else
      var last := entries[|entries| - 1];
      TableOf(entries[..|entries| - 1])[last.0 := last.1]
  }

  /** The value kept for a key is the one of its last entry. */
  lemma {:induction false} TableOfLastWins<V>(entries: seq<(int, V)>, k: int)
    requires 0 <= k < |entries|
    requires forall j :: k < j < |entries| ==> entries[j].0 != entries[k].0
    ensures TableOf(entries)[entries[k].0] == entries[k].1
  {
    if k < |entries| - 1 {
      TableOfLastWins(entries[..|entries| - 1], k);
    }
  }

  /** Builds a table by updating an empty dictionary entry by entry. */
  method BuildTable<V>(entries: seq<(int, V)>) returns (t: map<int, V>)
    ensures t == TableOf(entries)
  {
    t := map[];
    var i := 0;
    while i < |entries|
      invariant 0 <= i <= |entries|
      invariant t == TableOf(entries[..i])
    {
      assert entries[..i + 1][..i] == entries[..i];
      t := t[entries[i].0 := entries[i].1];
      i := i + 1;
    }
    assert entries[..i] == entries;
  }

  /** The keys of the dictionary in iteration order: a key stays where it
      was first inserted. */
  function KeyOrder<V>(entries: seq<(int, V)>): (keys: seq<int>)
    ensures forall key :: key in keys <==> key in TableOf(entries)
    ensures forall i, j :: 0 <= i < j < |keys| ==> keys[i] != keys[j]
  {
    if entries == [] then []
    else
      var prefix := KeyOrder(entries[..|entries| - 1]);
      var key := entries[|entries| - 1].0;
      if key in prefix then prefix else prefix + [key]
  }

  function NodeEntries(nodes: seq<OsmNode>): (e: seq<(int, (real, real))>)
    ensures |e| == |nodes|
    ensures forall k :: 0 <= k < |nodes| ==> e[k] == (nodes[k].id, (nodes[k].lat, nodes[k].lng))
  {
    seq(|nodes|, k requires 0 <= k < |nodes| => (nodes[k].id, (nodes[k].lat, nodes[k].lng)))
  }

  function WayEntries(ways: seq<OsmWay>): (e: seq<(int, seq<int>)>)
    ensures |e| == |ways|
    ensures forall k :: 0 <= k < |ways| ==> e[k] == (ways[k].id, ways[k].nodes)
  {
    seq(|ways|, k requires 0 <= k < |ways| => (ways[k].id, ways[k].nodes))
  }

  function RelationEntries(relations: seq<OsmRelation>): (e: seq<(int, RouteInfo)>)
    ensures |e| == |relations|
    ensures forall k :: 0 <= k < |relations| ==>
      e[k] == (relations[k].id, RouteInfo(relations[k].members, relations[k].tags))
  {
    seq(|relations|, k requires 0 <= k < |relations| =>
      (relations[k].id, RouteInfo(relations[k].members, relations[k].tags)))
  }

  // ---------------------------------------------------------------------
  // The nodes and ways the routes use

  /** The members of every relation, relation after relation. */
  function AllMembers(relations: seq<OsmRelation>): seq<int>
  {
    if relations == [] then []
    else AllMembers(relations[..|relations| - 1]) + relations[|relations| - 1].members
  }

  /** The members that are ways of the way table. */
  function UsedWaysOf(members: seq<int>, wayTable: map<int, seq<int>>): set<int>
  {
    if members == [] then {}
    else
      var m := members[|members| - 1];
      UsedWaysOf(members[..|members| - 1], wayTable) + (if m in wayTable then {m} else {})
  }

  /** The used ways are exactly the members that are way ids. */
  lemma {:induction false} UsedWaysOfMeaning(members: seq<int>, wayTable: map<int, seq<int>>, w: int)
    ensures w in UsedWaysOf(members, wayTable) <==> w in members && w in wayTable
  {
    if members != [] {
      var prefix := members[..|members| - 1];
      UsedWaysOfMeaning(prefix, wayTable, w);
      assert members == prefix + [members[|members| - 1]];
    }
  }

  /** Appending members to the member list adds their contribution. */
  lemma UsedStep(done: seq<int>, members: seq<int>, i: int, wayTable: map<int, seq<int>>, nodeTable: map<int, (real, real)>)
    requires 0 <= i < |members|
    ensures var before, after := done + members[..i], done + members[..i + 1];
      && UsedWaysOf(after, wayTable) == UsedWaysOf(before, wayTable) + (if members[i] in wayTable then {members[i]} else {})
      && UsedNodesOf(after, wayTable, nodeTable) == UsedNodesOf(before, wayTable, nodeTable) + MemberNodes(members[i], wayTable, nodeTable)
  {
    assert (done + members[..i + 1])[..|done| + i] == done + members[..i];
  }

  /** What one member adds to the used nodes: a way's nodes when it is a
      way, otherwise the member itself when it is a node. */
  function MemberNodes(m: int, wayTable: map<int, seq<int>>, nodeTable: map<int, (real, real)>): (added: set<int>)
    ensures m in wayTable ==> forall n :: n in added <==> n in wayTable[m]
    ensures m !in wayTable && m in nodeTable ==> added == {m}
    ensures m !in wayTable && m !in nodeTable ==> added == {}
  {
    if m in wayTable then set n | n in wayTable[m]
    else if m in nodeTable then {m}
    else {}
  }

  function UsedNodesOf(members: seq<int>, wayTable: map<int, seq<int>>, nodeTable: map<int, (real, real)>): set<int>
  {
    if members == [] then {}
    else
      UsedNodesOf(members[..|members| - 1], wayTable, nodeTable)
        + MemberNodes(members[|members| - 1], wayTable, nodeTable)
  }

  /** A node is used exactly when it lies on a member way or is itself a
      member that is not a way id: a member that is both a way id and a node
      id is read as a way. */
  lemma {:induction false} UsedNodesOfMeaning(members: seq<int>, wayTable: map<int, seq<int>>,
                                              nodeTable: map<int, (real, real)>, n: int)
    ensures n in UsedNodesOf(members, wayTable, nodeTable) <==>
      (exists m :: m in members && m in wayTable && n in wayTable[m])
      || (n in members && n !in wayTable && n in nodeTable)
  {
    if members != [] {
      var prefix := members[..|members| - 1];
      var m := members[|members| - 1];
      UsedNodesOfMeaning(prefix, wayTable, nodeTable, n);
      assert members == prefix + [m];
      if exists m' :: m' in members && m' in wayTable && n in wayTable[m'] {
        var m' :| m' in members && m' in wayTable && n in wayTable[m'];
        if m' != m {
          assert m' in prefix;
        }
      }
    }
  }

  /** Records one relation member: a way id adds itself to the used ways
      and its nodes to the used nodes; otherwise a node id adds itself to
      the used nodes. */
  method AddMember(index: int, wayTable: map<int, seq<int>>, nodeTable: map<int, (real, real)>,
                   usedNodes: set<int>, usedWays: set<int>)
    returns (usedNodes': set<int>, usedWays': set<int>)
    ensures usedWays' == usedWays + (if index in wayTable then {index} else {})
    ensures usedNodes' == usedNodes + MemberNodes(index, wayTable, nodeTable)
  {
    usedNodes', usedWays' := usedNodes, usedWays;
    if index in wayTable {
      usedWays' := usedWays' + {index};
      var waypoints := wayTable[index];
      var k := 0;
      assert (set n | n in waypoints[..k]) == {};
      while k < |waypoints|
        invariant 0 <= k <= |waypoints|
        invariant usedNodes' == usedNodes + set n | n in waypoints[..k]
      {
        assert waypoints[..k + 1] == waypoints[..k] + [waypoints[k]];
        usedNodes' := usedNodes' + {waypoints[k]};
        k := k + 1;
      }
      assert waypoints[..k] == waypoints;
    } else if index in nodeTable {
      usedNodes' := usedNodes' + {index};
    }
  }

  /** The used nodes and ways, collected member by member (the nested loop
      over the relations and their members). */
  method CollectUsed(relations: seq<OsmRelation>, wayTable: map<int, seq<int>>, nodeTable: map<int, (real, real)>)
    returns (usedNodes: set<int>, usedWays: set<int>)
    ensures usedWays == UsedWaysOf(AllMembers(relations), wayTable)
    ensures usedNodes == UsedNodesOf(AllMembers(relations), wayTable, nodeTable)
  {
    usedNodes, usedWays := {}, {};
    var r := 0;
    while r < |relations|
      invariant 0 <= r <= |relations|
      invariant usedWays == UsedWaysOf(AllMembers(relations[..r]), wayTable)
      invariant usedNodes == UsedNodesOf(AllMembers(relations[..r]), wayTable, nodeTable)
    {
      ghost var done := AllMembers(relations[..r]);
      var members := relations[r].members;
      var i := 0;
      assert done + members[..i] == done;
      while i < |members|
        invariant 0 <= i <= |members|
        invariant usedWays == UsedWaysOf(done + members[..i], wayTable)
        invariant usedNodes == UsedNodesOf(done + members[..i], wayTable, nodeTable)
      {
        UsedStep(done, members, i, wayTable, nodeTable);
        usedNodes, usedWays := AddMember(members[i], wayTable, nodeTable, usedNodes, usedWays);
        i := i + 1;
      }
      assert members[..i] == members;
      assert relations[..r + 1][..r] == relations[..r];
      r := r + 1;
    }
    assert relations[..r] == relations;
  }

  // ---------------------------------------------------------------------
  // Restriction to the used keys

  /** The entries of table whose key is in keep. */
  function Restrict<V>(table: map<int, V>, keep: set<int>): map<int, V>
  {
    map k | k in table && k in keep :: table[k]
  }

  /** Copies the entries whose key is in `keep`, values unchanged, visiting
      the keys in the dictionary's order. */
  method RestrictTable<V>(table: map<int, V>, order: seq<int>, keep: set<int>) returns (final: map<int, V>)
    requires forall key :: key in order <==> key in table
    ensures forall k :: k in final <==> k in table && k in keep
    ensures forall k :: k in final ==> final[k] == table[k]
    ensures final == Restrict(table, keep)
  {
    final := map[];
    var i := 0;
    while i < |order|
      invariant 0 <= i <= |order|
      invariant forall k :: k in final <==> k in order[..i] && k in keep
      invariant forall k :: k in final ==> final[k] == table[k]
    {
      var key := order[i];
      assert order[..i + 1] == order[..i] + [key];
      if key in keep {
        final := final[key := table[key]];
      }
      i := i + 1;
    }
    assert order[..i] == order;
  }

  /** The tables `get_map_data` returns. */
  datatype MapData = MapData(
    nodeTable: map<int, (real, real)>,
    wayTable: map<int, seq<int>>,
    relationTable: map<int, RouteInfo>)

  /** The tables kept for the given nodes, ways and route relations. */
  function MapDataOf(nodes: seq<OsmNode>, ways: seq<OsmWay>, relations: seq<OsmRelation>): MapData
  {
    var nodeTable := TableOf(NodeEntries(nodes));
    var wayTable := TableOf(WayEntries(ways));
    var members := AllMembers(relations);
    MapData(
      Restrict(nodeTable, UsedNodesOf(members, wayTable, nodeTable)),
      Restrict(wayTable, UsedWaysOf(members, wayTable)),
      TableOf(RelationEntries(relations)))
  }

  /** The table-building and filtering part of `get_map_data`. */
  method GetMapData(nodes: seq<OsmNode>, ways: seq<OsmWay>, relations: seq<OsmRelation>) returns (data: MapData)
    ensures data == MapDataOf(nodes, ways, relations)
  {
    var nodeTable := BuildTable(NodeEntries(nodes));
    var wayTable := BuildTable(WayEntries(ways));
    var usedNodes, usedWays := CollectUsed(relations, wayTable, nodeTable);
    var finalNodeTable := RestrictTable(nodeTable, KeyOrder(NodeEntries(nodes)), usedNodes);
    var finalWayTable := RestrictTable(wayTable, KeyOrder(WayEntries(ways)), usedWays);
    var finalRelationTable := BuildTable(RelationEntries(relations));
    data := MapData(finalNodeTable, finalWayTable, finalRelationTable);
  }

  /** A way is kept exactly when some route lists it and the map has it,
      and it keeps the node list of its last reading. */
  lemma KeptWays(nodes: seq<OsmNode>, ways: seq<OsmWay>, relations: seq<OsmRelation>, w: int)
    ensures var kept := MapDataOf(nodes, ways, relations).wayTable;
      && (w in kept <==> w in AllMembers(relations) && exists k :: 0 <= k < |ways| && ways[k].id == w)
      && (w in kept ==> kept[w] == TableOf(WayEntries(ways))[w])
  {
    var entries := WayEntries(ways);
    UsedWaysOfMeaning(AllMembers(relations), TableOf(entries), w);
    if w in TableOf(entries) {
      var k :| 0 <= k < |entries| && entries[k].0 == w;
      assert ways[k].id == w;
    }
  }

  /** A node is kept exactly when the map has it and it lies on a way some
      route lists, or it is itself listed by a route and is not a way id;
      its coordinates are unchanged. */
  lemma KeptNodes(nodes: seq<OsmNode>, ways: seq<OsmWay>, relations: seq<OsmRelation>, n: int)
    ensures var kept := MapDataOf(nodes, ways, relations).nodeTable;
      var nodeTable := TableOf(NodeEntries(nodes));
      var wayTable := TableOf(WayEntries(ways));
      var members := AllMembers(relations);
      && (n in kept <==>
            n in nodeTable
            && ((exists m :: m in members && m in wayTable && n in wayTable[m])
                || (n in members && n !in wayTable)))
      && (n in kept ==> kept[n] == nodeTable[n])
  {
    UsedNodesOfMeaning(AllMembers(relations), TableOf(WayEntries(ways)), TableOf(NodeEntries(nodes)), n);
  }
}
