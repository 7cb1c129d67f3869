/** The validation of a snapshot's assets, with the parent-link walk that decides whether they form a forest. */
module AssetHierarchy {

  datatype Finding = Rooted | Cycle | ParentMissing

  datatype Asset = Asset(id: string, parentId: string)

  /** `parent` maps every asset to its parent, or to "" if it has none. */
  predicate WellFormed(parent: map<string, string>) {
    "" !in parent
  }

  /** The asset `k` parent links above `id`; "" above a parentless one and above a missing one. */
  function Ancestor(parent: map<string, string>, id: string, k: nat): string {
    if k == 0 then id
    else
      var below := Ancestor(parent, id, k - 1);
      if below in parent then parent[below] else ""
  }

  /** The first `k` assets of the walk exist. */
  predicate Climbs(parent: map<string, string>, id: string, k: nat) {
    forall j :: 0 <= j < k ==> Ancestor(parent, id, j) in parent
  }

  /** A parentless asset is reached within `n` assets. */
  predicate RootWithin(parent: map<string, string>, id: string, n: nat) {
    exists k :: 1 <= k <= n && Climbs(parent, id, k) && Ancestor(parent, id, k) == ""
  }

  ghost predicate ReachesMissing(parent: map<string, string>, id: string) {
    exists k: nat :: Climbs(parent, id, k) && Ancestor(parent, id, k) != "" && Ancestor(parent, id, k) !in parent
  }

  ghost predicate ReachesCycle(parent: map<string, string>, id: string) {
    exists i: nat, j: nat :: i < j && Climbs(parent, id, j + 1) && Ancestor(parent, id, i) == Ancestor(parent, id, j)
  }

  // -------------------------------------------------- the three outcomes exclude each other

  /** From a repetition on the walk goes round for ever. */
  lemma {:induction false} CycleClimbsForever(parent: map<string, string>, id: string, i: nat, j: nat, k: nat)
    requires WellFormed(parent) && i < j && Climbs(parent, id, j + 1)
    requires Ancestor(parent, id, i) == Ancestor(parent, id, j)
    ensures Ancestor(parent, id, k) in parent
    ensures k >= j ==> Ancestor(parent, id, k) == Ancestor(parent, id, k - (j - i))
    decreases k
  {
    if k > j {
      CycleClimbsForever(parent, id, i, j, k - 1);
      CycleClimbsForever(parent, id, i, j, k - (j - i));
    }
  }

  lemma CycleExcludes(parent: map<string, string>, id: string, n: nat)
    requires WellFormed(parent) && ReachesCycle(parent, id)
    ensures !RootWithin(parent, id, n) && !ReachesMissing(parent, id)
  {
    var i: nat, j: nat :| i < j && Climbs(parent, id, j + 1) && Ancestor(parent, id, i) == Ancestor(parent, id, j);
    forall k: nat ensures Ancestor(parent, id, k) in parent { CycleClimbsForever(parent, id, i, j, k); }
  }

  lemma RootExcludesMissing(parent: map<string, string>, id: string, n: nat)
    requires WellFormed(parent) && RootWithin(parent, id, n)
    ensures !ReachesMissing(parent, id)
  {
    var k :| 1 <= k <= n && Climbs(parent, id, k) && Ancestor(parent, id, k) == "";
    assert forall m: nat :: k < m ==> !Climbs(parent, id, m);
  }

  lemma OutcomesExclusive(parent: map<string, string>, id: string, n: nat)
    requires WellFormed(parent)
    ensures !(ReachesCycle(parent, id) && (RootWithin(parent, id, n) || ReachesMissing(parent, id)))
    ensures !(RootWithin(parent, id, n) && ReachesMissing(parent, id))
  {
    if ReachesCycle(parent, id) { CycleExcludes(parent, id, n); }
    if RootWithin(parent, id, n) { RootExcludesMissing(parent, id, n); }
  }

  // ------------------------------------------------------------------ the walk

  /** The walk stands `k` links above `id`, everything below exists, and `seen` is what it passed. */
  predicate At(parent: map<string, string>, id: string, k: nat, cur: string, seen: set<string>) {
    && cur == Ancestor(parent, id, k) && Climbs(parent, id, k) && (cur != "" ==> cur in parent)
    && seen <= parent.Keys && |seen| == k
    && forall x :: x in seen ==> Passed(parent, id, k, x)
  }

  predicate Passed(parent: map<string, string>, id: string, k: nat, x: string) {
    exists j :: 0 <= j < k && Ancestor(parent, id, j) == x
  }

  lemma ClimbsOn(parent: map<string, string>, id: string, k: nat)
    requires Climbs(parent, id, k) && Ancestor(parent, id, k) in parent
    ensures Climbs(parent, id, k + 1) && Ancestor(parent, id, k + 1) == parent[Ancestor(parent, id, k)]
  {
  }

  lemma OneLinkUp(parent: map<string, string>, id: string, k: nat, cur: string, seen: set<string>)
    requires At(parent, id, k, cur, seen) && cur != "" && cur !in seen
    ensures Climbs(parent, id, k + 1) && Ancestor(parent, id, k + 1) == parent[cur]
    ensures parent[cur] == "" || parent[cur] in parent ==> At(parent, id, k + 1, parent[cur], seen + {cur})
    ensures |seen| < |parent|
  {
    ClimbsOn(parent, id, k);
    Subset(seen + {cur}, parent.Keys);
    forall x | x in seen + {cur} ensures Passed(parent, id, k + 1, x) {
      if x in seen {
        var j :| 0 <= j < k && Ancestor(parent, id, j) == x;
      }
    }
  }

  lemma RepeatIsCycle(parent: map<string, string>, id: string, k: nat, cur: string, seen: set<string>)
    requires At(parent, id, k, cur, seen) && cur in seen
    ensures ReachesCycle(parent, id)
  {
    var j: nat :| 0 <= j < k && Ancestor(parent, id, j) == cur;
    ClimbsOn(parent, id, k);
  }

  /** The walk from one asset: it terminates, and its answer is exact in all three directions. */
  method Walk(parent: map<string, string>, id: string) returns (f: Finding)
    requires WellFormed(parent) && id in parent
    ensures f == Rooted <==> RootWithin(parent, id, |parent|)
    ensures f == Cycle <==> ReachesCycle(parent, id)
    ensures f == ParentMissing <==> ReachesMissing(parent, id)
  {
    var seen: set<string> := {};
    var cur := id;
    ghost var k: nat := 0;
    while cur != ""
      invariant At(parent, id, k, cur, seen) && (k == 0 ==> cur != "")
      decreases |parent| - |seen|
    {
      if cur in seen {
        RepeatIsCycle(parent, id, k, cur, seen);
        OutcomesExclusive(parent, id, |parent|);
        return Cycle;
      }
      OneLinkUp(parent, id, k, cur, seen);
      seen := seen + {cur};
      cur := parent[cur];
      k := k + 1;
      if cur != "" && cur !in parent {
        assert ReachesMissing(parent, id);
        OutcomesExclusive(parent, id, |parent|);
        return ParentMissing;
      }
    }
    Subset(seen, parent.Keys);
    assert RootWithin(parent, id, |parent|);
    OutcomesExclusive(parent, id, |parent|);
    f := Rooted;
  }

  lemma Subset(a: set<string>, b: set<string>)
    requires a <= b
    ensures |a| <= |b|
  {
    assert |b| == |a| + |b - a|;
  }

  /** All assets: the findings other than rooted, by asset. None is found exactly when every asset reaches a
      parentless one within as many assets as there are. */
  method CheckForest(parent: map<string, string>) returns (errors: map<string, Finding>)
    requires WellFormed(parent)
    ensures forall id :: id in errors <==> id in parent && !RootWithin(parent, id, |parent|)
    ensures forall id :: id in errors ==>
      (errors[id] == Cycle <==> ReachesCycle(parent, id))
        && (errors[id] == ParentMissing <==> ReachesMissing(parent, id))
    ensures errors == map[] <==> forall id :: id in parent ==> RootWithin(parent, id, |parent|)
  {
    errors := map[];
    var left := parent.Keys;
    while left != {}
      invariant left <= parent.Keys
      invariant forall id :: id in errors <==> id in parent.Keys - left && !RootWithin(parent, id, |parent|)
      invariant forall id :: id in errors ==>
        (errors[id] == Cycle <==> ReachesCycle(parent, id))
          && (errors[id] == ParentMissing <==> ReachesMissing(parent, id))
      decreases left
    {
      var id :| id in left;
      left := left - {id};
      var f := Walk(parent, id);
      if f != Rooted {
        errors := errors[id := f];
      }
    }
    assert errors != map[] ==> exists id :: id in errors.Keys;
  }

  // ------------------------------------------------------------- the asset list

  /** The parent links of a list of assets; of two with one id the later counts. */
  function ParentsOf(assets: seq<Asset>): (parent: map<string, string>)
    ensures forall id :: id in parent <==> id != "" && exists i :: 0 <= i < |assets| && assets[i].id == id
  {
    if assets == [] then map[]
    else
      var last := assets[|assets| - 1];
      var parent := ParentsOf(assets[..|assets| - 1]);
      if last.id == "" then parent else parent[last.id := last.parentId]
  }

  /** Every asset has a name of its own. */
  predicate Named(assets: seq<Asset>) {
    && (forall i :: 0 <= i < |assets| ==> assets[i].id != "")
    && forall i, j :: 0 <= i < j < |assets| ==> assets[i].id != assets[j].id
  }

  /** Every asset has a name of its own and reaches a parentless one within as many assets as there are. */
  predicate Forest(assets: seq<Asset>) {
    Named(assets) && forall i :: 0 <= i < |assets| ==> RootWithin(ParentsOf(assets), assets[i].id, |ParentsOf(assets)|)
  }

  /** In a forest no parent is missing and no walk comes back. */
  lemma ForestHasRoots(assets: seq<Asset>, i: nat)
    requires Forest(assets) && i < |assets|
    ensures !ReachesCycle(ParentsOf(assets), assets[i].id) && !ReachesMissing(ParentsOf(assets), assets[i].id)
    ensures assets[i].parentId == "" || exists j :: 0 <= j < |assets| && assets[j].id == assets[i].parentId
  {
    var parent := ParentsOf(assets);
    OutcomesExclusive(parent, assets[i].id, |parent|);
    LinkOf(assets, i);
    assert Climbs(parent, assets[i].id, 1);
    assert Ancestor(parent, assets[i].id, 1) == assets[i].parentId;
  }

  lemma {:induction false} LinkOf(assets: seq<Asset>, i: nat)
    requires Named(assets) && i < |assets|
    ensures assets[i].id in ParentsOf(assets) && ParentsOf(assets)[assets[i].id] == assets[i].parentId
  {
    if i < |assets| - 1 { LinkOf(assets[..|assets| - 1], i); }
  }

  lemma NamedOneMore(init: seq<Asset>, last: Asset)
    ensures Named(init + [last]) <==>
      Named(init) && last.id != "" && forall k :: 0 <= k < |init| ==> init[k].id != last.id
  {
    var assets := init + [last];
    if Named(assets) {
      assert assets[|init|] == last;
      forall k | 0 <= k < |init| ensures init[k].id != last.id && init[k].id != "" { assert assets[k] == init[k]; }
      forall i, j | 0 <= i < j < |init| ensures init[i].id != init[j].id {
        assert assets[i] == init[i] && assets[j] == init[j];
      }
    }
  }

  lemma OneMoreAsset(init: seq<Asset>, last: Asset)
    ensures var parent := ParentsOf(init);
      && ParentsOf(init + [last]) == (if last.id == "" then parent else parent[last.id := last.parentId])
      && (Named(init + [last]) <==> Named(init) && last.id != "" && last.id !in parent)
  {
    assert (init + [last])[..|init|] == init;
    NamedOneMore(init, last);
  }

  lemma NamedForest(assets: seq<Asset>)
    requires Named(assets)
    ensures Forest(assets) <==>
      forall id :: id in ParentsOf(assets) ==> RootWithin(ParentsOf(assets), id, |ParentsOf(assets)|)
  {
    assert forall i :: 0 <= i < |assets| ==> assets[i].id in ParentsOf(assets);
  }

  /** The asset part of a snapshot's validation: it finds no error exactly when the assets form a forest. */
  method CheckAssets(assets: seq<Asset>) returns (ok: bool)
    ensures ok <==> Forest(assets)
  {
    ok := true;
    var parent: map<string, string> := map[];
    for i := 0 to |assets|
      invariant parent == ParentsOf(assets[..i]) && (ok <==> Named(assets[..i]))
    {
      var a := assets[i];
      OneMoreAsset(assets[..i], a);
      assert assets[..i + 1] == assets[..i] + [a];
      if a.id == "" {
        ok := false;
      } else {
        ok := ok && a.id !in parent;
        parent := parent[a.id := a.parentId];
      }
    }
    assert assets[..|assets|] == assets;
    var errors := CheckForest(parent);
    if ok { NamedForest(assets); }
    ok := ok && errors == map[];
  }
}
