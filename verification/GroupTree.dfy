/**
 The group list read as a forest (`hosts/groupTree.ts`): stored parent pointers may
 dangle, name their own group or close a cycle, and the effective parent is what
 every reader of the list resolves them to.
 */
module GroupTree {
  import opened Records

  /** Parent pointers by group id; the value may name a group that is not a key. */
  type Parents = map<Id, Option<Id>>

  function Raw(groups: seq<Group>): Parents {
    if groups == [] then map[]
    else Raw(groups[..|groups| - 1])[groups[|groups| - 1].id := groups[|groups| - 1].parent]
  }

  function Up(p: Parents, x: Id): Option<Id> {
    if x in p then p[x] else None
  }

  /** The group `n` pointers above `x`, while there is one. */
  function Climb(p: Parents, x: Id, n: nat): Option<Id> {
    if n == 0 then Some(x)
    else
      var below := Climb(p, x, n - 1);
      if below.None? then None else Up(p, below.value)
  }

  ghost predicate OnCycle(p: Parents, x: Id) {
    exists n: nat :: n > 0 && Climb(p, x, n) == Some(x)
  }

  ghost predicate Acyclic(p: Parents) {
    forall x :: !OnCycle(p, x)
  }

  /** `a` is `x` or some pointers above it. */
  ghost predicate AtOrAbove(p: Parents, x: Id, a: Id) {
    exists n: nat :: Climb(p, x, n) == Some(a)
  }

  /** What a stored pointer is read as: the raw parent, or root exactly when the edge is
      absent, dangling, or part of a cycle through this very group. */
  ghost function Effective(p: Parents, x: Id): Option<Id> {
    var raw := Up(p, x);
    if raw.None? || raw.value !in p || OnCycle(p, x) then None else raw
  }

  ghost function EffectiveAll(p: Parents): Parents {
    map x | x in p :: Effective(p, x)
  }

  // -------------------------------------------------------------------- climbing

  lemma {:induction false} ClimbAdds(p: Parents, x: Id, m: nat, n: nat)
    requires Climb(p, x, m).Some?
    ensures Climb(p, x, m + n) == Climb(p, Climb(p, x, m).value, n)
  {
    if n > 0 {
      ClimbAdds(p, x, m, n - 1);
      assert m + n - 1 == m + (n - 1);
    }
  }

  lemma {:induction false} ClimbStays(p: Parents, x: Id, m: nat, n: nat)
    requires Climb(p, x, n).Some? && m <= n
    ensures Climb(p, x, m).Some?
  {
    if m < n {
      ClimbStays(p, x, m, n - 1);
    }
  }

  /** Two pointer maps that agree along a climb climb alike. */
  lemma {:induction false} ClimbAgrees(p: Parents, q: Parents, x: Id, n: nat)
    requires forall m: nat | m < n && Climb(p, x, m).Some? :: Up(p, Climb(p, x, m).value) == Up(q, Climb(p, x, m).value)
    ensures Climb(q, x, n) == Climb(p, x, n)
  {
    if n > 0 {
      ClimbAgrees(p, q, x, n - 1);
    }
  }

  /** A climb that meets one group twice has gone round a cycle through it. */
  lemma RepeatIsCycle(p: Parents, x: Id, m: nat, n: nat)
    requires m < n && Climb(p, x, m).Some? && Climb(p, x, m) == Climb(p, x, n)
    ensures OnCycle(p, Climb(p, x, m).value)
  {
    ClimbAdds(p, x, m, n - m);
  }

  /** One pointer further. */
  lemma OneUp(p: Parents, b: Id, x: Id)
    requires AtOrAbove(p, b, x) && Up(p, x).Some?
    ensures AtOrAbove(p, b, Up(p, x).value)
  {
    var n: nat :| Climb(p, b, n) == Some(x);
    assert Climb(p, b, n + 1) == Up(p, x);
  }

  /** What stands at or above a parent stands above its child. */
  lemma AboveParent(p: Parents, x: Id, y: Id, a: Id)
    requires Up(p, x) == Some(y) && AtOrAbove(p, y, a)
    ensures AtOrAbove(p, x, a)
  {
    var n: nat :| Climb(p, y, n) == Some(a);
    assert Climb(p, x, 0) == Some(x);
    assert Climb(p, x, 1) == Some(y);
    ClimbAdds(p, x, 1, n);
    assert Climb(p, x, 1 + n) == Some(a);
  }

  /** And a parent with its own child above it is on a cycle. */
  lemma CycleUp(p: Parents, x: Id, y: Id)
    requires Up(p, x) == Some(y) && AtOrAbove(p, y, x)
    ensures OnCycle(p, x)
  {
    var n: nat :| Climb(p, y, n) == Some(x);
    assert Climb(p, x, 0) == Some(x);
    assert Climb(p, x, 1) == Some(y);
    ClimbAdds(p, x, 1, n);
    assert Climb(p, x, 1 + n) == Some(x);
  }

  /** The effective parents never close a cycle, whatever was stored. */
  lemma EffectiveIsForest(p: Parents)
    ensures Acyclic(EffectiveAll(p))
  {
    var e := EffectiveAll(p);
    forall x ensures !OnCycle(e, x) {
      if OnCycle(e, x) {
        var n: nat :| n > 0 && Climb(e, x, n) == Some(x);
        EffectiveClimb(p, x, n);
        ClimbStays(e, x, 1, n);
      }
    }
  }

  /** Where the effective pointers lead, the raw ones led. */
  lemma {:induction false} EffectiveClimb(p: Parents, x: Id, n: nat)
    requires Climb(EffectiveAll(p), x, n).Some?
    ensures Climb(p, x, n) == Climb(EffectiveAll(p), x, n)
  {
    if n > 0 {
      EffectiveClimb(p, x, n - 1);
    }
  }

  // ------------------------------------------------------------- the source's walk

  /** `s` is one of the first `k` groups above `id`. */
  ghost predicate Passed(p: Parents, id: Id, k: nat, s: Id) {
    exists j: nat :: 1 <= j <= k && Climb(p, id, j) == Some(s)
  }

  ghost predicate Trail(p: Parents, id: Id, k: nat, seen: set<Id>) {
    && (k > 0 ==> Climb(p, id, k).Some?)
    && forall s :: s in seen <==> Passed(p, id, k, s)
  }

  lemma TrailGrows(p: Parents, id: Id, k: nat, seen: set<Id>)
    requires Trail(p, id, k, seen) && Climb(p, id, k + 1).Some?
    ensures Trail(p, id, k + 1, seen + {Climb(p, id, k + 1).value})
  {
    var next := Climb(p, id, k + 1).value;
    var more := seen + {next};
    assert Passed(p, id, k + 1, next);
    forall s | Passed(p, id, k + 1, s) ensures s in more {
      var j: nat :| 1 <= j <= k + 1 && Climb(p, id, j) == Some(s);
      assert j <= k ==> Passed(p, id, k, s);
    }
    forall s | s in seen ensures Passed(p, id, k + 1, s) {
      assert Passed(p, id, k, s);
    }
  }

  /** `effectiveParentId`: walk up from the raw parent until the walk ends, repeats, or
      comes back to `id`. */
  method EffectiveParentId(id: Id, p: Parents) returns (r: Option<Id>)
    ensures r == Effective(p, id)
  {
    var raw := Up(p, id);
    if raw.None? || raw.value !in p {
      return None;
    }
    var seen: set<Id> := {};
    var cursor := raw;
    ghost var k: nat := 0;
    while cursor.Some? && cursor.value !in seen
      invariant cursor == Climb(p, id, k + 1)
      invariant Trail(p, id, k, seen)
      invariant id !in seen
      decreases |p.Keys - seen|, cursor.Some?
    {
      if cursor.value == id {
        return None;
      }
      TrailGrows(p, id, k, seen);
      Spent(p.Keys, seen, cursor.value);
      seen := seen + {cursor.value};
      cursor := Up(p, cursor.value);
      k := k + 1;
    }
    NeverBack(p, id, k, seen);
    return raw;
  }

  lemma Spent(keys: set<Id>, seen: set<Id>, x: Id)
    requires x !in seen
    ensures |keys - (seen + {x})| <= |keys - seen|
    ensures x in keys ==> |keys - (seen + {x})| < |keys - seen|
  {
    Smaller(keys - (seen + {x}), keys - seen);
    if x in keys {
      Shrinks(keys - (seen + {x}), keys - seen);
    }
  }

  lemma Shrinks(a: set<Id>, b: set<Id>)
    requires a < b
    ensures |a| < |b|
  {
    var x :| x in b && x !in a;
    assert a <= b - {x};
    Smaller(a, b - {x});
  }

  lemma {:induction false} Smaller(a: set<Id>, b: set<Id>)
    requires a <= b
    ensures |a| <= |b|
  {
    if a != {} {
      var x :| x in a;
      Smaller(a - {x}, b - {x});
    }
  }

  /** A walk that ended, or that stepped into what it had seen, never returns to `id`. */
  lemma NeverBack(p: Parents, id: Id, k: nat, seen: set<Id>)
    requires Trail(p, id, k, seen) && id !in seen
    requires Climb(p, id, k + 1).Some? ==> Climb(p, id, k + 1).value in seen
    ensures !OnCycle(p, id)
  {
    forall n: nat | n > 0 ensures Climb(p, id, n) != Some(id) {
      StaysSeen(p, id, k, seen, n);
    }
  }

  lemma {:induction false} StaysSeen(p: Parents, id: Id, k: nat, seen: set<Id>, n: nat)
    requires Trail(p, id, k, seen) && n > 0
    requires Climb(p, id, k + 1).Some? ==> Climb(p, id, k + 1).value in seen
    ensures Climb(p, id, n).Some? ==> Climb(p, id, n).value in seen
  {
    if n <= k && Climb(p, id, n).Some? {
      assert Passed(p, id, k, Climb(p, id, n).value);
    } else if n > k + 1 && Climb(p, id, n).Some? {
      StaysSeen(p, id, k, seen, n - 1);
      var s := Climb(p, id, n - 1).value;
      assert Passed(p, id, k, s);
      var j: nat :| 1 <= j <= k && Climb(p, id, j) == Some(s);
      assert Climb(p, id, j + 1) == Up(p, s) == Climb(p, id, n);
      if j < k {
        assert Passed(p, id, k, Climb(p, id, n).value);
      }
    }
  }

  /** The pointers of a list are those its groups store. */
  lemma {:induction false} RawIs(groups: seq<Group>, i: nat)
    requires DistinctGroups(groups) && i < |groups|
    ensures groups[i].id in Raw(groups) && Raw(groups)[groups[i].id] == groups[i].parent
  {
    var n := |groups| - 1;
    if i < n {
      RawIs(groups[..n], i);
      assert groups[..n][i] == groups[i];
    }
  }

  /** `effectiveParents`: each group's own stored parent, if that is a listed group and the
      group is on no cycle. */
  method EffectiveParents(groups: seq<Group>) returns (e: Parents)
    ensures e == EffectiveAll(Raw(groups))
    ensures DistinctGroups(groups) ==> forall i | 0 <= i < |groups| ::
              && groups[i].id in e
              && e[groups[i].id] == if groups[i].parent.Some? && groups[i].parent.value in Raw(groups)
                                       && !OnCycle(Raw(groups), groups[i].id)
                                    then groups[i].parent else None
  {
    var p := Raw(groups);
    e := map[];
    for i := 0 to |groups|
      invariant e == map x | x in Raw(groups[..i]) :: Effective(p, x)
    {
      assert groups[..i + 1] == groups[..i] + [groups[i]];
      var parent := EffectiveParentId(groups[i].id, p);
      e := e[groups[i].id := parent];
    }
    assert groups[..|groups|] == groups;
    if DistinctGroups(groups) {
      forall i | 0 <= i < |groups|
        ensures groups[i].id in Raw(groups) && Raw(groups)[groups[i].id] == groups[i].parent
      {
        RawIs(groups, i);
      }
    }
  }
}
