/**
 The forest `buildGroupTree` returns, the filter one group chip applies, and the
 numbers `groupCounts` prints on the chips.
 */
module GroupCounts {
  import opened Records
  import opened GroupTree

  datatype Node = Node(id: Id, children: seq<Node>)

  /** Pointers over exactly the listed groups that stay inside the list and never
      cycle: what effective parents are. */
  ghost predicate Forest(ids: seq<Id>, e: Parents) {
    && Acyclic(e) && (set x | x in ids) == e.Keys
    && (forall x | x in e && e[x].Some? :: e[x].value in e)
    && (forall i, j | 0 <= i < j < |ids| :: ids[i] != ids[j])
  }

  /** A group and all it stands above. */
  ghost function Below(ids: seq<Id>, e: Parents, g: Id): set<Id> {
    set x | x in ids && AtOrAbove(e, x, g)
  }

  // ------------------------------------------------------------------- the build

  /** The listed groups directly under one parent, in list order. */
  function Children(ids: seq<Id>, e: Parents, parent: Option<Id>): (r: seq<Id>)
    ensures forall x :: x in r <==> x in ids && Up(e, x) == parent
    ensures (forall i, j | 0 <= i < j < |ids| :: ids[i] != ids[j]) ==> forall i, j | 0 <= i < j < |r| :: r[i] != r[j]
  {
    if ids == [] then []
    else
      var rest := Children(ids[1..], e, parent);
      assert ids == [ids[0]] + ids[1..];
      if Up(e, ids[0]) == parent then [ids[0]] + rest else rest
  }

  /** The groups on the way down to the ones being built. */
  ghost predicate Path(e: Parents, parent: Option<Id>, above: set<Id>) {
    && (parent.None? ==> above == {})
    && (parent.Some? ==> forall a | a in above :: AtOrAbove(e, parent.value, a))
  }

  lemma PathGrows(e: Parents, parent: Option<Id>, above: set<Id>, kid: Id)
    requires Path(e, parent, above) && Up(e, kid) == parent && Acyclic(e)
    ensures kid !in above && Path(e, Some(kid), above + {kid})
  {
    assert Climb(e, kid, 0) == Some(kid);
    forall a | a in above ensures AtOrAbove(e, kid, a) && a != kid {
      UpFrom(e, kid, a);
    }
  }

  /** What stands at or above a group's parent stands strictly above the group. */
  lemma UpFrom(e: Parents, kid: Id, a: Id)
    requires Up(e, kid).Some? && AtOrAbove(e, Up(e, kid).value, a) && Acyclic(e)
    ensures AtOrAbove(e, kid, a) && a != kid
  {
    AboveParent(e, kid, Up(e, kid).value, a);
    if a == kid {
      CycleUp(e, kid, Up(e, kid).value);
    }
  }

  /** `build`: the subtrees under one parent. `above` only bounds the recursion. */
  function Build(ids: seq<Id>, e: Parents, parent: Option<Id>, above: set<Id>): seq<Node>
    requires Forest(ids, e) && Path(e, parent, above)
    decreases |e.Keys - above|, 1, 0
  {
    BuildEach(ids, e, parent, above, Children(ids, e, parent))
  }

  function BuildEach(ids: seq<Id>, e: Parents, parent: Option<Id>, above: set<Id>, kids: seq<Id>): seq<Node>
    requires Forest(ids, e) && Path(e, parent, above)
    requires forall k | k in kids :: k in ids && Up(e, k) == parent
    decreases |e.Keys - above|, 0, |kids|
  {
    if kids == [] then []
    else
      var k := kids[0];
      PathGrows(e, parent, above, k);
      Spent(e.Keys, above, k);
      [Node(k, Build(ids, e, Some(k), above + {k}))] + BuildEach(ids, e, parent, above, kids[1..])
  }

  // ------------------------------------------------------------ what a node holds

  /** `collectIds`. */
  function NodeIds(n: Node): set<Id> {
    {n.id} + ForestIds(n.children)
  }

  function ForestIds(ns: seq<Node>): set<Id> {
    if ns == [] then {} else NodeIds(ns[0]) + ForestIds(ns[1..])
  }

  /** Every node of the forest collects exactly the groups below it. */
  ghost predicate AllTrue(ids: seq<Id>, e: Parents, ns: seq<Node>) {
    ns == [] || (NodeTrue(ids, e, ns[0]) && AllTrue(ids, e, ns[1..]))
  }

  ghost predicate NodeTrue(ids: seq<Id>, e: Parents, n: Node) {
    NodeIds(n) == Below(ids, e, n.id) && AllTrue(ids, e, n.children)
  }

  /** No group appears twice. */
  ghost predicate AllApart(ns: seq<Node>) {
    ns == [] || (NodeApart(ns[0]) && NodeIds(ns[0]) !! ForestIds(ns[1..]) && AllApart(ns[1..]))
  }

  ghost predicate NodeApart(n: Node) {
    n.id !in ForestIds(n.children) && AllApart(n.children)
  }

  ghost predicate BelowAny(ids: seq<Id>, e: Parents, kids: seq<Id>, x: Id) {
    exists k :: k in kids && x in Below(ids, e, k)
  }

  lemma BelowAnySplits(ids: seq<Id>, e: Parents, kids: seq<Id>, x: Id)
    requires kids != []
    ensures BelowAny(ids, e, kids, x) <==> x in Below(ids, e, kids[0]) || BelowAny(ids, e, kids[1..], x)
  {
    assert kids == [kids[0]] + kids[1..];
  }

  /** A group is at or above another exactly when it is that one, or one of its own
      children is. */
  lemma BelowSplits(ids: seq<Id>, e: Parents, k: Id, x: Id)
    requires Forest(ids, e) && k in ids
    ensures x in Below(ids, e, k) <==>
              x == k || BelowAny(ids, e, Children(ids, e, Some(k)), x)
  {
    assert Climb(e, k, 0) == Some(k);
    if x in Below(ids, e, k) && x != k {
      var n: nat :| Climb(e, x, n) == Some(k);
      assert Climb(e, x, 0) == Some(x);
      var c := Climb(e, x, n - 1).value;
      assert c in Children(ids, e, Some(k)) && x in Below(ids, e, c);
    } else if BelowAny(ids, e, Children(ids, e, Some(k)), x) {
      var c :| c in Children(ids, e, Some(k)) && x in Below(ids, e, c);
      var n: nat :| Climb(e, x, n) == Some(c);
      assert Climb(e, x, n + 1) == Some(k);
    }
  }

  /** Two siblings have nothing below both. */
  lemma SiblingsApart(e: Parents, a: Id, b: Id, x: Id)
    requires Acyclic(e) && Up(e, a) == Up(e, b) && a != b
    requires AtOrAbove(e, x, a)
    ensures !AtOrAbove(e, x, b)
  {
    if AtOrAbove(e, x, b) {
      var m: nat :| Climb(e, x, m) == Some(a);
      var n: nat :| Climb(e, x, n) == Some(b);
      if m < n {
        SiblingAbove(e, x, m, n);
      } else if n < m {
        SiblingAbove(e, x, n, m);
      }
    }
  }

  lemma SiblingAbove(e: Parents, x: Id, m: nat, n: nat)
    requires Acyclic(e) && m < n && Climb(e, x, m).Some? && Climb(e, x, n).Some?
    ensures Climb(e, x, n).Some? && Up(e, Climb(e, x, m).value) != Up(e, Climb(e, x, n).value)
  {
    ClimbStays(e, x, m + 1, n);
    if Climb(e, x, m + 1) == Climb(e, x, n + 1) {
      RepeatIsCycle(e, x, m + 1, n + 1);
    }
  }

  ghost predicate Siblings(ids: seq<Id>, e: Parents, parent: Option<Id>, kids: seq<Id>) {
    && (forall k | k in kids :: k in ids && Up(e, k) == parent)
    && (forall i, j | 0 <= i < j < |kids| :: kids[i] != kids[j])
  }

  /** One unfolding of the build. */
  lemma BuildHead(ids: seq<Id>, e: Parents, parent: Option<Id>, above: set<Id>, kids: seq<Id>)
    requires Forest(ids, e) && Path(e, parent, above) && Siblings(ids, e, parent, kids) && kids != []
    ensures Path(e, Some(kids[0]), above + {kids[0]}) && |e.Keys - (above + {kids[0]})| < |e.Keys - above|
    ensures Siblings(ids, e, parent, kids[1..])
    ensures Siblings(ids, e, Some(kids[0]), Children(ids, e, Some(kids[0])))
    ensures var built := BuildEach(ids, e, parent, above, kids);
            && |built| > 0 && built[1..] == BuildEach(ids, e, parent, above, kids[1..])
            && built[0].id == kids[0]
            && built[0].children == BuildEach(ids, e, Some(kids[0]), above + {kids[0]}, Children(ids, e, Some(kids[0])))
  {
    PathGrows(e, parent, above, kids[0]);
    Spent(e.Keys, above, kids[0]);
    assert kids[0] in ids;
  }

  /** The subtrees of a list of siblings collect what is below any of them. */
  lemma {:induction false} BuildIds(ids: seq<Id>, e: Parents, parent: Option<Id>, above: set<Id>, kids: seq<Id>, x: Id)
    requires Forest(ids, e) && Path(e, parent, above) && Siblings(ids, e, parent, kids)
    ensures x in ForestIds(BuildEach(ids, e, parent, above, kids)) <==> BelowAny(ids, e, kids, x)
    decreases |e.Keys - above|, |kids|
  {
    if kids != [] {
      var k := kids[0];
      BuildHead(ids, e, parent, above, kids);
      BuildIds(ids, e, Some(k), above + {k}, Children(ids, e, Some(k)), x);
      BuildIds(ids, e, parent, above, kids[1..], x);
      BelowSplits(ids, e, k, x);
      BelowAnySplits(ids, e, kids, x);
    }
  }

  /** One subtree collects exactly what is below its root. */
  lemma HeadIds(ids: seq<Id>, e: Parents, parent: Option<Id>, above: set<Id>, kids: seq<Id>)
    requires Forest(ids, e) && Path(e, parent, above) && Siblings(ids, e, parent, kids) && kids != []
    ensures var built := BuildEach(ids, e, parent, above, kids);
            |built| > 0 && NodeIds(built[0]) == Below(ids, e, kids[0])
  {
    BuildHead(ids, e, parent, above, kids);
    forall x ensures x in NodeIds(BuildEach(ids, e, parent, above, kids)[0]) <==> x in Below(ids, e, kids[0]) {
      HeadId(ids, e, parent, above, kids, x);
    }
  }

  lemma HeadId(ids: seq<Id>, e: Parents, parent: Option<Id>, above: set<Id>, kids: seq<Id>, x: Id)
    requires Forest(ids, e) && Path(e, parent, above) && Siblings(ids, e, parent, kids) && kids != []
    ensures var built := BuildEach(ids, e, parent, above, kids);
            |built| > 0 && (x in NodeIds(built[0]) <==> x in Below(ids, e, kids[0]))
  {
    var k := kids[0];
    BuildHead(ids, e, parent, above, kids);
    BuildIds(ids, e, Some(k), above + {k}, Children(ids, e, Some(k)), x);
    BelowSplits(ids, e, k, x);
  }

  lemma {:induction false} BuildTrue(ids: seq<Id>, e: Parents, parent: Option<Id>, above: set<Id>, kids: seq<Id>)
    requires Forest(ids, e) && Path(e, parent, above) && Siblings(ids, e, parent, kids)
    ensures AllTrue(ids, e, BuildEach(ids, e, parent, above, kids))
    decreases |e.Keys - above|, |kids|
  {
    if kids != [] {
      var k := kids[0];
      BuildHead(ids, e, parent, above, kids);
      BuildTrue(ids, e, Some(k), above + {k}, Children(ids, e, Some(k)));
      BuildTrue(ids, e, parent, above, kids[1..]);
      HeadIds(ids, e, parent, above, kids);
    }
  }

  /** Nothing below the first sibling is below another, nor is the sibling itself below
      its own children. */
  lemma HeadApart(ids: seq<Id>, e: Parents, parent: Option<Id>, above: set<Id>, kids: seq<Id>)
    requires Forest(ids, e) && Path(e, parent, above) && Siblings(ids, e, parent, kids) && kids != []
    ensures var built := BuildEach(ids, e, parent, above, kids);
            && |built| > 0 && NodeIds(built[0]) !! ForestIds(built[1..])
            && built[0].id !in ForestIds(built[0].children)
  {
    var k := kids[0];
    var built := BuildEach(ids, e, parent, above, kids);
    BuildHead(ids, e, parent, above, kids);
    HeadIds(ids, e, parent, above, kids);
    forall x | x in NodeIds(built[0]) ensures x !in ForestIds(built[1..]) {
      BuildIds(ids, e, parent, above, kids[1..], x);
      NotBelowRest(ids, e, parent, kids, x);
    }
    BuildIds(ids, e, Some(k), above + {k}, Children(ids, e, Some(k)), k);
    NotBelowOwn(ids, e, k);
  }

  lemma NotBelowRest(ids: seq<Id>, e: Parents, parent: Option<Id>, kids: seq<Id>, x: Id)
    requires Acyclic(e) && Siblings(ids, e, parent, kids) && kids != [] && x in Below(ids, e, kids[0])
    ensures !BelowAny(ids, e, kids[1..], x)
  {
    forall b | b in kids[1..] ensures x !in Below(ids, e, b) {
      assert b in kids;
      SiblingsApart(e, kids[0], b, x);
    }
  }

  lemma NotBelowOwn(ids: seq<Id>, e: Parents, k: Id)
    requires Acyclic(e)
    ensures !BelowAny(ids, e, Children(ids, e, Some(k)), k)
  {
    forall c | c in Children(ids, e, Some(k)) ensures k !in Below(ids, e, c) {
      if AtOrAbove(e, k, c) {
        UpFrom(e, c, c);
      }
    }
  }

  lemma {:induction false} BuildApart(ids: seq<Id>, e: Parents, parent: Option<Id>, above: set<Id>, kids: seq<Id>)
    requires Forest(ids, e) && Path(e, parent, above) && Siblings(ids, e, parent, kids)
    ensures AllApart(BuildEach(ids, e, parent, above, kids))
    decreases |e.Keys - above|, |kids|
  {
    if kids != [] {
      var k := kids[0];
      BuildHead(ids, e, parent, above, kids);
      BuildApart(ids, e, Some(k), above + {k}, Children(ids, e, Some(k)));
      BuildApart(ids, e, parent, above, kids[1..]);
      HeadApart(ids, e, parent, above, kids);
    }
  }

  // --------------------------------------------------------- reading the forest

  /** Climbing from any group ends at a root. */
  lemma {:induction false} ReachesRoot(ids: seq<Id>, e: Parents, x: Id, below: set<Id>)
    requires Forest(ids, e) && x in e && x !in below
    requires forall b | b in below :: AtOrAbove(e, b, x)
    ensures exists r :: r in Children(ids, e, None) && AtOrAbove(e, x, r)
    decreases |e.Keys - below|
  {
    assert Climb(e, x, 0) == Some(x);
    if e[x].None? {
      assert x in Children(ids, e, None);
    } else {
      var y := e[x].value;
      forall b | b in below + {x} ensures AtOrAbove(e, b, y) && b != y {
        OneUp(e, b, x);
        if b == y {
          UpFrom(e, x, x);
        }
      }
      Spent(e.Keys, below, x);
      ReachesRoot(ids, e, y, below + {x});
      var r :| r in Children(ids, e, None) && AtOrAbove(e, y, r);
      UpFrom(e, x, r);
    }
  }

  function GroupIds(groups: seq<Group>): (r: seq<Id>)
    ensures |r| == |groups| && forall i | 0 <= i < |r| :: r[i] == groups[i].id
  {
    if groups == [] then [] else GroupIds(groups[..|groups| - 1]) + [groups[|groups| - 1].id]
  }

  lemma {:induction false} RawKeys(groups: seq<Group>)
    ensures Raw(groups).Keys == set x | x in GroupIds(groups)
  {
    if groups != [] {
      var n := |groups| - 1;
      RawKeys(groups[..n]);
    }
  }

  lemma EffectiveForest(groups: seq<Group>)
    requires DistinctGroups(groups)
    ensures Forest(GroupIds(groups), EffectiveAll(Raw(groups)))
  {
    RawKeys(groups);
    EffectiveIsForest(Raw(groups));
  }

  /** The tree `buildGroupTree` returns over one resolution of the pointers. */
  ghost predicate IsTree(ids: seq<Id>, e: Parents, ns: seq<Node>) {
    AllTrue(ids, e, ns) && AllApart(ns) && ForestIds(ns) == set x | x in ids
  }

  /** `buildGroupTree`: every group appears, once, over exactly the groups below it. */
  method BuildGroupTree(groups: seq<Group>) returns (ns: seq<Node>)
    requires DistinctGroups(groups)
    ensures IsTree(GroupIds(groups), EffectiveAll(Raw(groups)), ns)
  {
    var e := EffectiveParents(groups);
    EffectiveForest(groups);
    ns := Build(GroupIds(groups), e, None, {});
    TreeIs(GroupIds(groups), e);
  }

  lemma TreeIs(ids: seq<Id>, e: Parents)
    requires Forest(ids, e)
    ensures IsTree(ids, e, Build(ids, e, None, {}))
  {
    var kids := Children(ids, e, None);
    BuildTrue(ids, e, None, {}, kids);
    BuildApart(ids, e, None, {}, kids);
    forall x ensures x in ForestIds(Build(ids, e, None, {})) <==> x in ids {
      BuildIds(ids, e, None, {}, kids, x);
      if x in ids {
        ReachesRoot(ids, e, x, {});
        var r :| r in kids && AtOrAbove(e, x, r);
        assert x in Below(ids, e, r);
      }
    }
  }

  /** `findNode`. */
  function FindNode(ns: seq<Node>, id: Id): Option<Node> {
    if ns == [] then None
    else if ns[0].id == id then Some(ns[0])
    else
      var inside := FindNode(ns[0].children, id);
      if inside.Some? then inside else FindNode(ns[1..], id)
  }

  lemma {:induction false} FindNodeIs(ids: seq<Id>, e: Parents, ns: seq<Node>, id: Id)
    requires AllTrue(ids, e, ns)
    ensures FindNode(ns, id).None? <==> id !in ForestIds(ns)
    ensures FindNode(ns, id).Some? ==> NodeIds(FindNode(ns, id).value) == Below(ids, e, id)
  {
    if ns != [] {
      FindNodeIs(ids, e, ns[0].children, id);
      FindNodeIs(ids, e, ns[1..], id);
    }
  }

  /** `descendantIds`: a group and everything below it; nothing for an unknown id. */
  method DescendantIds(groupId: Id, groups: seq<Group>) returns (r: set<Id>)
    requires DistinctGroups(groups)
    ensures r == if groupId in GroupIds(groups)
                 then Below(GroupIds(groups), EffectiveAll(Raw(groups)), groupId) else {}
  {
    var ns := BuildGroupTree(groups);
    FindNodeIs(GroupIds(groups), EffectiveAll(Raw(groups)), ns, groupId);
    var node := FindNode(ns, groupId);
    r := if node.Some? then NodeIds(node.value) else {};
  }

  // -------------------------------------------------------------------- the chips

  datatype GroupFilter = All | Ungrouped | InGroup(id: Id)

  /** What selecting a chip keeps, against the pointers' own reading. */
  ghost predicate Keeps(filter: GroupFilter, groups: seq<Group>, h: Host) {
    match filter
    case All => true
    case Ungrouped => h.group.None? || h.group.value !in GroupIds(groups)
    case InGroup(g) => h.group.Some? && g in GroupIds(groups)
                       && h.group.value in Below(GroupIds(groups), EffectiveAll(Raw(groups)), g)
  }

  /** `matchesGroupFilter`, applied to every host of a list. */
  method FilterHosts(filter: GroupFilter, groups: seq<Group>, hosts: seq<Host>) returns (kept: seq<Host>)
    requires DistinctGroups(groups)
    ensures forall h :: h in kept <==> h in hosts && Keeps(filter, groups, h)
    ensures kept == KeptHosts(filter, groups, hosts)
  {
    var below: set<Id> := {};
    if filter.InGroup? {
      below := DescendantIds(filter.id, groups);
    }
    var known := set x | x in GroupIds(groups);
    kept := [];
    for i := 0 to |hosts|
      invariant forall h :: h in kept <==> h in hosts[..i] && Keeps(filter, groups, h)
      invariant kept == KeptHosts(filter, groups, hosts[..i])
    {
      var g := hosts[i].group;
      var keep := match filter
        case All => true
        case Ungrouped => g.None? || g.value !in known
        case InGroup(_) => g.Some? && g.value in below;
      assert hosts[..i + 1] == hosts[..i] + [hosts[i]] && hosts[..i + 1][..i] == hosts[..i];
      if keep {
        kept := kept + [hosts[i]];
      }
    }
    assert hosts[..|hosts|] == hosts;
  }

  /** The hosts one filter keeps, in list order, and how many they are. */
  ghost function KeptHosts(filter: GroupFilter, groups: seq<Group>, hosts: seq<Host>): seq<Host> {
    if hosts == [] then []
    else
      var h := hosts[|hosts| - 1];
      KeptHosts(filter, groups, hosts[..|hosts| - 1]) + if Keeps(filter, groups, h) then [h] else []
  }

  ghost function Kept(filter: GroupFilter, groups: seq<Group>, hosts: seq<Host>): nat {
    |KeptHosts(filter, groups, hosts)|
  }

  /** How many hosts are filed under one of these groups. */
  function Members(hosts: seq<Host>, s: set<Id>): nat {
    if hosts == [] then 0
    else
      var g := hosts[|hosts| - 1].group;
      Members(hosts[..|hosts| - 1], s) + if g.Some? && g.value in s then 1 else 0
  }

  lemma {:induction false} MembersAdd(hosts: seq<Host>, s: set<Id>, t: set<Id>)
    requires s !! t
    ensures Members(hosts, s + t) == Members(hosts, s) + Members(hosts, t)
  {
    if hosts != [] {
      MembersAdd(hosts[..|hosts| - 1], s, t);
    }
  }

  lemma {:induction false} MembersNone(hosts: seq<Host>)
    ensures Members(hosts, {}) == 0
  {
    if hosts != [] {
      MembersNone(hosts[..|hosts| - 1]);
    }
  }

  lemma {:induction false} KeptIsMembers(groups: seq<Group>, hosts: seq<Host>, g: Id)
    requires g in GroupIds(groups)
    ensures Kept(InGroup(g), groups, hosts)
         == Members(hosts, Below(GroupIds(groups), EffectiveAll(Raw(groups)), g))
  {
    if hosts != [] {
      KeptIsMembers(groups, hosts[..|hosts| - 1], g);
    }
  }

  /** The tallies of the hosts filed directly under each group. */
  ghost predicate Tallied(ids: seq<Id>, hosts: seq<Host>, direct: map<Id, nat>) {
    direct.Keys == (set x | x in ids) && forall x | x in direct :: direct[x] == Members(hosts, {x})
  }

  /** `sum` on one node: its total goes into `byGroup`, after its children's. */
  method SumNode(n: Node, direct: map<Id, nat>, byGroup: map<Id, nat>, ghost ids: seq<Id>, ghost e: Parents,
                 ghost hosts: seq<Host>)
    returns (total: nat, out: map<Id, nat>)
    requires NodeTrue(ids, e, n) && NodeApart(n) && Tallied(ids, hosts, direct)
    requires NodeIds(n) <= set x | x in ids
    ensures total == Members(hosts, NodeIds(n))
    ensures Extends(byGroup, out, NodeIds(n), ids, e, hosts)
    decreases n
  {
    var rest, mid := SumAll(n.children, direct, byGroup, ids, e, hosts);
    MembersAdd(hosts, {n.id}, ForestIds(n.children));
    total := direct[n.id] + rest;
    out := mid[n.id := total];
  }

  /** The recursion over a list of siblings. */
  method SumAll(ns: seq<Node>, direct: map<Id, nat>, byGroup: map<Id, nat>, ghost ids: seq<Id>, ghost e: Parents,
                ghost hosts: seq<Host>)
    returns (total: nat, out: map<Id, nat>)
    requires AllTrue(ids, e, ns) && AllApart(ns) && Tallied(ids, hosts, direct)
    requires ForestIds(ns) <= set x | x in ids
    ensures total == Members(hosts, ForestIds(ns))
    ensures Extends(byGroup, out, ForestIds(ns), ids, e, hosts)
    decreases ns
  {
    if ns == [] {
      MembersNone(hosts);
      return 0, byGroup;
    }
    var first, mid := SumNode(ns[0], direct, byGroup, ids, e, hosts);
    var rest, last := SumAll(ns[1..], direct, mid, ids, e, hosts);
    MembersAdd(hosts, NodeIds(ns[0]), ForestIds(ns[1..]));
    total, out := first + rest, last;
  }

  /** `out` is `byGroup` with every id of `s` set to the number of hosts below it. */
  ghost predicate Extends(byGroup: map<Id, nat>, out: map<Id, nat>, s: set<Id>, ids: seq<Id>, e: Parents,
                          hosts: seq<Host>) {
    && out.Keys == byGroup.Keys + s
    && (forall x | x in s :: out[x] == Members(hosts, Below(ids, e, x)))
    && (forall x | x in byGroup && x !in s :: out[x] == byGroup[x])
  }

  /** The sum of the direct counts, group by group. */
  function SumOf(ids: seq<Id>, direct: map<Id, nat>): nat
    requires forall x | x in ids :: x in direct
  {
    if ids == [] then 0 else SumOf(ids[..|ids| - 1], direct) + direct[ids[|ids| - 1]]
  }

  lemma {:induction false} SumIsMembers(ids: seq<Id>, direct: map<Id, nat>, hosts: seq<Host>)
    requires forall x | x in ids :: x in direct && direct[x] == Members(hosts, {x})
    requires forall i, j | 0 <= i < j < |ids| :: ids[i] != ids[j]
    ensures SumOf(ids, direct) == Members(hosts, set x | x in ids)
  {
    if ids == [] {
      MembersNone(hosts);
      assert (set x | x in ids) == {};
    } else {
      var n := |ids| - 1;
      SumIsMembers(ids[..n], direct, hosts);
      assert ids == ids[..n] + [ids[n]];
      MembersAdd(hosts, set x | x in ids[..n], {ids[n]});
      assert (set x | x in ids) == (set x | x in ids[..n]) + {ids[n]};
    }
  }

  /** `groupCounts`. Each chip's number is the number of hosts its filter keeps, and the
      total is the ungrouped plus the direct counts. */
  method GroupCounts(hosts: seq<Host>, groups: seq<Group>)
    returns (total: nat, ungrouped: nat, direct: map<Id, nat>, byGroup: map<Id, nat>)
    requires DistinctGroups(groups)
    ensures total == Kept(All, groups, hosts) && ungrouped == Kept(Ungrouped, groups, hosts)
    ensures byGroup.Keys == direct.Keys == set x | x in GroupIds(groups)
    ensures forall g | g in byGroup :: byGroup[g] == Kept(InGroup(g), groups, hosts)
    ensures forall g | g in direct :: direct[g] == Members(hosts, {g})
    ensures total == ungrouped + SumOf(GroupIds(groups), direct)
  {
    ghost var ids, e := GroupIds(groups), EffectiveAll(Raw(groups));
    direct, ungrouped := Tally(hosts, groups);
    var ns := BuildGroupTree(groups);
    var _, sums := SumAll(ns, direct, map[], ids, e, hosts);
    byGroup, total := sums, |hosts|;
    ChipsCount(groups, hosts, sums);
    TotalIs(groups, hosts, direct);
  }

  lemma ChipsCount(groups: seq<Group>, hosts: seq<Host>, sums: map<Id, nat>)
    requires Extends(map[], sums, (set x | x in GroupIds(groups)), GroupIds(groups), EffectiveAll(Raw(groups)), hosts)
    ensures sums.Keys == (set x | x in GroupIds(groups))
    ensures forall g | g in sums :: sums[g] == Kept(InGroup(g), groups, hosts)
  {
    forall g | g in sums ensures sums[g] == Kept(InGroup(g), groups, hosts) {
      KeptIsMembers(groups, hosts, g);
    }
  }

  lemma TotalIs(groups: seq<Group>, hosts: seq<Host>, direct: map<Id, nat>)
    requires DistinctGroups(groups) && Tallied(GroupIds(groups), hosts, direct)
    ensures |hosts| == Kept(All, groups, hosts)
    ensures |hosts| == Kept(Ungrouped, groups, hosts) + SumOf(GroupIds(groups), direct)
  {
    KeptAll(groups, hosts);
    SumIsMembers(GroupIds(groups), direct, hosts);
    TotalSplits(groups, hosts);
  }

  lemma {:induction false} KeptAll(groups: seq<Group>, hosts: seq<Host>)
    ensures Kept(All, groups, hosts) == |hosts|
  {
    if hosts != [] {
      KeptAll(groups, hosts[..|hosts| - 1]);
    }
  }

  lemma {:induction false} TotalSplits(groups: seq<Group>, hosts: seq<Host>)
    ensures |hosts| == Kept(Ungrouped, groups, hosts) + Members(hosts, set x | x in GroupIds(groups))
  {
    if hosts != [] {
      TotalSplits(groups, hosts[..|hosts| - 1]);
    }
  }

  lemma TallyNext(ids: seq<Id>, hosts: seq<Host>, direct: map<Id, nat>, i: nat)
    requires i < |hosts| && Tallied(ids, hosts[..i], direct)
    ensures var g := hosts[i].group;
            Tallied(ids, hosts[..i + 1],
                    if g.Some? && g.value in direct then direct[g.value := direct[g.value] + 1] else direct)
  {
    assert hosts[..i + 1][..i] == hosts[..i];
  }

  lemma UngroupedNext(groups: seq<Group>, hosts: seq<Host>, i: nat)
    requires i < |hosts|
    ensures Kept(Ungrouped, groups, hosts[..i + 1]) == Kept(Ungrouped, groups, hosts[..i]) +
              if hosts[i].group.None? || hosts[i].group.value !in GroupIds(groups) then 1 else 0
  {
    assert hosts[..i + 1][..i] == hosts[..i];
  }

  /** The first pass: a host whose group is unknown is ungrouped. */
  method Tally(hosts: seq<Host>, groups: seq<Group>) returns (direct: map<Id, nat>, ungrouped: nat)
    ensures Tallied(GroupIds(groups), hosts, direct)
    ensures ungrouped == Kept(Ungrouped, groups, hosts)
  {
    var known := set x | x in GroupIds(groups);
    direct := map x | x in known :: 0;
    ungrouped := 0;
    for i := 0 to |hosts|
      invariant Tallied(GroupIds(groups), hosts[..i], direct)
      invariant ungrouped == Kept(Ungrouped, groups, hosts[..i])
    {
      TallyNext(GroupIds(groups), hosts, direct, i);
      UngroupedNext(groups, hosts, i);
      var g := hosts[i].group;
      if g.Some? && g.value in known {
        direct := direct[g.value := direct[g.value] + 1];
      } else {
        ungrouped := ungrouped + 1;
      }
    }
    assert hosts[..|hosts|] == hosts;
  }
}
