/** Which assets of the fixed release to delete: group by version, sort newest first, keep the
    first ones.  Recognising a versioned asset name is a parameter. */
module PrunePlan {
  import opened Wrappers
  import opened SemVer

  datatype Asset = Asset(id: int, name: string)

  datatype Plan = Plan(keep: nat, retained: seq<Version>, pruned: seq<Version>, deletions: seq<Asset>, untouched: seq<Asset>)

  // ---- Array.prototype.sort: stable ----

  function Insert<T>(s: seq<T>, x: T, cmp: (T, T) -> int): seq<T> {
    if s == [] || cmp(s[|s| - 1], x) <= 0 then s + [x] else Insert(s[..|s| - 1], x, cmp) + [s[|s| - 1]]
  }

  function Sort<T>(s: seq<T>, cmp: (T, T) -> int): seq<T> {
    if s == [] then [] else Insert(Sort(s[..|s| - 1], cmp), s[|s| - 1], cmp)
  }

  ghost predicate TotalPreorder<T(!new)>(cmp: (T, T) -> int) {
    && (forall x, y :: cmp(x, y) == -cmp(y, x))
    && (forall x, y, z :: cmp(x, y) <= 0 && cmp(y, z) <= 0 ==> cmp(x, z) <= 0)
  }

  ghost predicate Ordered<T>(s: seq<T>, cmp: (T, T) -> int) {
    forall i, j | 0 <= i < j < |s| :: cmp(s[i], s[j]) <= 0
  }

  lemma {:induction false} InsertKeeps<T>(s: seq<T>, x: T, cmp: (T, T) -> int)
    ensures multiset(Insert(s, x, cmp)) == multiset(s) + multiset{x}
    decreases |s|
  {
    if s != [] && cmp(s[|s| - 1], x) > 0 {
      InsertKeeps(s[..|s| - 1], x, cmp);
      assert s == s[..|s| - 1] + [s[|s| - 1]];
    }
  }

  lemma {:induction false} SortKeeps<T>(s: seq<T>, cmp: (T, T) -> int)
    ensures multiset(Sort(s, cmp)) == multiset(s)
    decreases |s|
  {
    if s != [] {
      SortKeeps(s[..|s| - 1], cmp);
      InsertKeeps(Sort(s[..|s| - 1], cmp), s[|s| - 1], cmp);
      assert s == s[..|s| - 1] + [s[|s| - 1]];
    }
  }

  lemma AppendOrders<T>(s: seq<T>, x: T, cmp: (T, T) -> int)
    requires Ordered(s, cmp) && forall y | y in s :: cmp(y, x) <= 0
    ensures Ordered(s + [x], cmp)
  {}

  lemma LastIsGreatest<T>(init: seq<T>, last: T, cmp: (T, T) -> int)
    requires Ordered(init + [last], cmp)
    ensures Ordered(init, cmp) && forall y | y in init :: cmp(y, last) <= 0
  {
    var s := init + [last];
    assert s[|init|] == last && forall i | 0 <= i < |init| :: init[i] == s[i];
    forall y | y in init ensures cmp(y, last) <= 0 {
      var i :| 0 <= i < |init| && init[i] == y;
      assert cmp(s[i], s[|init|]) <= 0;
    }
  }

  lemma {:induction false} InsertOrders<T(!new)>(s: seq<T>, x: T, cmp: (T, T) -> int)
    requires TotalPreorder(cmp) && Ordered(s, cmp)
    ensures Ordered(Insert(s, x, cmp), cmp)
    decreases |s|
  {
    if s == [] {
      AppendOrders(s, x, cmp);
    } else {
      var init, last := s[..|s| - 1], s[|s| - 1];
      assert s == init + [last];
      LastIsGreatest(init, last, cmp);
      hide Ordered;
      if cmp(last, x) <= 0 {
        assert cmp(last, last) == -cmp(last, last);
        AppendOrders(s, x, cmp);
      } else {
        InsertOrders(init, x, cmp);
        InsertKeeps(init, x, cmp);
        assert cmp(x, last) == -cmp(last, x);
        forall y | y in Insert(init, x, cmp) ensures cmp(y, last) <= 0 {
          assert y in multiset(Insert(init, x, cmp));
          assert y in multiset(init) || y == x;
        }
        AppendOrders(Insert(init, x, cmp), last, cmp);
      }
    }
  }

  lemma {:induction false} SortOrders<T(!new)>(s: seq<T>, cmp: (T, T) -> int)
    requires TotalPreorder(cmp)
    ensures Ordered(Sort(s, cmp), cmp)
    decreases |s|
  {
    if s != [] {
      SortOrders(s[..|s| - 1], cmp);
      InsertOrders(Sort(s[..|s| - 1], cmp), s[|s| - 1], cmp);
    }
  }

  // ---- The plan ----

  /** The assets of one version, in the order given. */
  function Group(assets: seq<Asset>, versionOf: string -> Option<Version>, v: Version): seq<Asset> {
    if assets == [] then []
    else
      var last := assets[|assets| - 1];
      Group(assets[..|assets| - 1], versionOf, v) + (if versionOf(last.name) == Some(v) then [last] else [])
  }

  function Untouched(assets: seq<Asset>, versionOf: string -> Option<Version>): seq<Asset> {
    if assets == [] then []
    else
      var last := assets[|assets| - 1];
      Untouched(assets[..|assets| - 1], versionOf) + (if versionOf(last.name).None? then [last] else [])
  }

  /** Assets by name, in code unit order. */
  function NameOrder(a: Asset, b: Asset): int {
    Sign(Text(a.name, b.name))
  }

  function Deletions(pruned: seq<Version>, assets: seq<Asset>, versionOf: string -> Option<Version>): seq<Asset> {
    if pruned == [] then []
    else
      var last := pruned[|pruned| - 1];
      Deletions(pruned[..|pruned| - 1], assets, versionOf) + Sort(Group(assets, versionOf, last), NameOrder)
  }

  /** Newest first. */
  function Newest(a: Version, b: Version): int {
    Prune(b, a)
  }

  predicate NoDup<T(==)>(s: seq<T>) {
    forall i, j | 0 <= i < j < |s| :: s[i] != s[j]
  }

  predicate Listed(assets: seq<Asset>, versionOf: string -> Option<Version>, v: Version) {
    exists i | 0 <= i < |assets| :: versionOf(assets[i].name) == Some(v)
  }

  lemma ListedSnoc(assets: seq<Asset>, versionOf: string -> Option<Version>, k: nat)
    requires k < |assets|
    ensures forall v :: Listed(assets[..k + 1], versionOf, v) <==> Listed(assets[..k], versionOf, v) || versionOf(assets[k].name) == Some(v)
  {}

  lemma NewestIsTotalPreorder()
    ensures TotalPreorder(Newest)
  {
    forall x, y, z
      ensures Newest(x, y) == -Newest(y, x) && (Newest(x, y) <= 0 && Newest(y, z) <= 0 ==> Newest(x, z) <= 0)
    {
      PruneIsTotalPreorder(y, x, x);
      PruneIsTotalPreorder(z, y, x);
    }
  }

  lemma {:induction false} NoDupCounts<T>(s: seq<T>)
    ensures NoDup(s) <==> forall x :: multiset(s)[x] <= 1
    decreases |s|
  {
    if s != [] {
      var init, last := s[..|s| - 1], s[|s| - 1];
      NoDupCounts(init);
      assert s == init + [last];
      if NoDup(s) {
        assert NoDup(init);
        assert last !in init;
      } else if NoDup(init) {
        var i :| 0 <= i < |init| && s[i] == last;
        assert init[i] == last && last in multiset(init);
        assert multiset(s)[last] == multiset(init)[last] + 1;
      } else {
        var x :| multiset(init)[x] > 1;
        assert multiset(s)[x] > 1;
      }
    }
  }

  lemma {:induction false} GroupCount(assets: seq<Asset>, versionOf: string -> Option<Version>, v: Version, a: Asset)
    ensures multiset(Group(assets, versionOf, v))[a] == if versionOf(a.name) == Some(v) then multiset(assets)[a] else 0
    decreases |assets|
  {
    if assets != [] {
      GroupCount(assets[..|assets| - 1], versionOf, v, a);
      assert assets == assets[..|assets| - 1] + [assets[|assets| - 1]];
    }
  }

  lemma {:induction false} UntouchedCount(assets: seq<Asset>, versionOf: string -> Option<Version>, a: Asset)
    ensures multiset(Untouched(assets, versionOf))[a] == if versionOf(a.name).None? then multiset(assets)[a] else 0
    decreases |assets|
  {
    if assets != [] {
      UntouchedCount(assets[..|assets| - 1], versionOf, a);
      assert assets == assets[..|assets| - 1] + [assets[|assets| - 1]];
    }
  }

  lemma SortedGroupCount(assets: seq<Asset>, versionOf: string -> Option<Version>, v: Version, a: Asset)
    ensures multiset(Sort(Group(assets, versionOf, v), NameOrder))[a] == if versionOf(a.name) == Some(v) then multiset(assets)[a] else 0
  {
    hide *;
    GroupCount(assets, versionOf, v, a);
    SortKeeps(Group(assets, versionOf, v), NameOrder);
  }

  /** Every asset of a pruned version is deleted, as often as it is listed, and nothing else. */
  lemma {:induction false} DeletionsCount(pruned: seq<Version>, assets: seq<Asset>, versionOf: string -> Option<Version>, a: Asset)
    requires NoDup(pruned)
    ensures multiset(Deletions(pruned, assets, versionOf))[a] ==
              if versionOf(a.name).Some? && versionOf(a.name).value in pruned then multiset(assets)[a] else 0
    decreases |pruned|
  {
    if pruned != [] {
      var init, last := pruned[..|pruned| - 1], pruned[|pruned| - 1];
      assert pruned == init + [last] && last !in init && NoDup(init);
      hide Group, Sort, NoDup;
      DeletionsCount(init, assets, versionOf, a);
      SortedGroupCount(assets, versionOf, last, a);
    }
  }

  /** What a plan promises: the versions on the release and the incoming one, each once, newest
      first, are cut after `keep`; no pruned version lies above a retained one; deleted are
      exactly the assets of pruned versions, untouched exactly the unversioned ones. */
  ghost predicate IsPlan(assets: seq<Asset>, versionOf: string -> Option<Version>, keep: nat, incoming: Option<Version>, plan: Plan) {
    var versions := plan.retained + plan.pruned;
    && plan.keep == keep && |plan.retained| == (if keep < |versions| then keep else |versions|)
    && NoDup(versions) && (forall v :: v in versions <==> Listed(assets, versionOf, v) || incoming == Some(v))
    && Ordered(versions, Newest)
    && (forall r, p | r in plan.retained && p in plan.pruned :: Prune(p, r) <= 0)
    && (forall a :: multiset(plan.deletions)[a] ==
                    if versionOf(a.name).Some? && versionOf(a.name).value in plan.pruned then multiset(assets)[a] else 0)
    && (forall a :: multiset(plan.untouched)[a] == if versionOf(a.name).None? then multiset(assets)[a] else 0)
  }

  lemma {:induction false} SortedKeys(keys: seq<Version>)
    requires NoDup(keys)
    ensures var versions := Sort(keys, Newest);
            && |versions| == |keys| && NoDup(versions) && Ordered(versions, Newest)
            && forall v :: v in versions <==> v in keys
  {
    var versions := Sort(keys, Newest);
    SortKeeps(keys, Newest);
    NewestIsTotalPreorder();
    SortOrders(keys, Newest);
    hide Sort, Newest, Ordered;
    NoDupCounts(keys);
    NoDupCounts(versions);
    hide NoDup;
    assert |multiset(versions)| == |multiset(keys)|;
    assert forall v :: v in versions <==> v in multiset(versions);
    assert forall v :: v in keys <==> v in multiset(keys);
  }

  lemma CutOrders(retained: seq<Version>, pruned: seq<Version>)
    requires Ordered(retained + pruned, Newest) && NoDup(retained + pruned)
    ensures NoDup(pruned) && forall r, p | r in retained && p in pruned :: Prune(p, r) <= 0
  {
    hide Prune;
    var versions := retained + pruned;
    assert forall i | 0 <= i < |pruned| :: pruned[i] == versions[|retained| + i];
    forall r, p | r in retained && p in pruned ensures Prune(p, r) <= 0 {
      var i :| 0 <= i < |retained| && retained[i] == r;
      var j :| 0 <= j < |pruned| && pruned[j] == p;
      assert Newest(versions[i], versions[|retained| + j]) <= 0;
    }
  }

  lemma PlanHolds(assets: seq<Asset>, versionOf: string -> Option<Version>, keep: nat, incoming: Option<Version>, keys: seq<Version>, plan: Plan)
    requires NoDup(keys) && forall v :: v in keys <==> Listed(assets, versionOf, v) || incoming == Some(v)
    requires plan.retained + plan.pruned == Sort(keys, Newest) && plan.keep == keep
    requires |plan.retained| == if keep < |keys| then keep else |keys|
    requires plan.deletions == Deletions(plan.pruned, assets, versionOf) && plan.untouched == Untouched(assets, versionOf)
    ensures IsPlan(assets, versionOf, keep, incoming, plan)
  {
    hide Listed, Sort, Prune, Newest, Deletions, Untouched, Ordered, NoDup;
    SortedKeys(keys);
    CutOrders(plan.retained, plan.pruned);
    forall a
      ensures multiset(plan.deletions)[a] ==
              if versionOf(a.name).Some? && versionOf(a.name).value in plan.pruned then multiset(assets)[a] else 0
      ensures multiset(plan.untouched)[a] == if versionOf(a.name).None? then multiset(assets)[a] else 0
    {
      DeletionsCount(plan.pruned, assets, versionOf, a);
      UntouchedCount(assets, versionOf, a);
    }
  }

  /** The map of groups, its keys in insertion order, and the unversioned assets. */
  datatype Groups = Groups(byVersion: map<Version, seq<Asset>>, keys: seq<Version>, untouched: seq<Asset>)

  function GroupIn(byVersion: map<Version, seq<Asset>>, v: Version): seq<Asset> {
    if v in byVersion then byVersion[v] else []
  }

  ghost predicate Grouped(assets: seq<Asset>, versionOf: string -> Option<Version>, g: Groups) {
    && g.untouched == Untouched(assets, versionOf)
    && NoDup(g.keys) && (forall v :: v in g.byVersion <==> v in g.keys)
    && (forall v :: GroupIn(g.byVersion, v) == Group(assets, versionOf, v))
    && (forall v :: v in g.keys <==> Listed(assets, versionOf, v))
  }

  lemma GroupedNone(assets: seq<Asset>, versionOf: string -> Option<Version>, k: nat, g: Groups)
    requires k < |assets| && Grouped(assets[..k], versionOf, g) && versionOf(assets[k].name).None?
    ensures Grouped(assets[..k + 1], versionOf, g.(untouched := g.untouched + [assets[k]]))
  {
    assert assets[..k + 1][..k] == assets[..k];
    ListedSnoc(assets, versionOf, k);
    hide Listed;
  }

  lemma GroupedSome(assets: seq<Asset>, versionOf: string -> Option<Version>, k: nat, g: Groups, v: Version)
    requires k < |assets| && Grouped(assets[..k], versionOf, g) && versionOf(assets[k].name) == Some(v)
    ensures Grouped(assets[..k + 1], versionOf,
                    Groups(g.byVersion[v := GroupIn(g.byVersion, v) + [assets[k]]], if v in g.byVersion then g.keys else g.keys + [v], g.untouched))
  {
    assert assets[..k + 1][..k] == assets[..k];
    ListedSnoc(assets, versionOf, k);
    hide Listed;
    var after := g.byVersion[v := GroupIn(g.byVersion, v) + [assets[k]]];
    forall w ensures GroupIn(after, w) == Group(assets[..k + 1], versionOf, w) {
      assert GroupIn(g.byVersion, w) == Group(assets[..k], versionOf, w);
      assert w == v || GroupIn(after, w) == GroupIn(g.byVersion, w);
    }
  }

  method GroupByVersion(assets: seq<Asset>, versionOf: string -> Option<Version>) returns (g: Groups)
    ensures Grouped(assets, versionOf, g)
  {
    g := Groups(map[], [], []);
    for i := 0 to |assets|
      invariant Grouped(assets[..i], versionOf, g)
    {
      hide Grouped;
      var asset := assets[i];
      var version := versionOf(asset.name);
      if version.None? {
        GroupedNone(assets, versionOf, i, g);
        g := g.(untouched := g.untouched + [asset]);
      } else {
        var v := version.value;
        GroupedSome(assets, versionOf, i, g, v);
        g := Groups(g.byVersion[v := GroupIn(g.byVersion, v) + [asset]], if v in g.byVersion then g.keys else g.keys + [v], g.untouched);
      }
    }
    assert assets[..|assets|] == assets;
  }

  /** The incoming version takes a place even when the release has no asset of it. */
  method ReserveIncoming(assets: seq<Asset>, versionOf: string -> Option<Version>, g: Groups, incoming: Option<Version>) returns (r: Groups)
    requires Grouped(assets, versionOf, g)
    ensures NoDup(r.keys) && r.untouched == g.untouched
    ensures forall v :: v in r.keys <==> Listed(assets, versionOf, v) || incoming == Some(v)
    ensures forall v :: GroupIn(r.byVersion, v) == Group(assets, versionOf, v)
  {
    hide Listed, Group, Untouched;
    if incoming.None? || incoming.value in g.byVersion {
      return g;
    }
    r := Groups(g.byVersion[incoming.value := []], g.keys + [incoming.value], g.untouched);
    forall v ensures GroupIn(r.byVersion, v) == Group(assets, versionOf, v) {
      assert GroupIn(g.byVersion, v) == Group(assets, versionOf, v);
    }
  }

  method DeletePruned(pruned: seq<Version>, assets: seq<Asset>, versionOf: string -> Option<Version>, byVersion: map<Version, seq<Asset>>)
    returns (deletions: seq<Asset>)
    requires forall v :: GroupIn(byVersion, v) == Group(assets, versionOf, v)
    ensures deletions == Deletions(pruned, assets, versionOf)
  {
    hide Group, Sort;
    deletions := [];
    for i := 0 to |pruned|
      invariant deletions == Deletions(pruned[..i], assets, versionOf)
    {
      assert pruned[..i + 1][..i] == pruned[..i];
      deletions := deletions + Sort(GroupIn(byVersion, pruned[i]), NameOrder);
    }
    assert pruned[..|pruned|] == pruned;
  }

  /** planDesktopUiAssetPrune; None where the keep count is refused. */
  method PlanPrune(assets: seq<Asset>, versionOf: string -> Option<Version>, keep: int, incoming: Option<Version>) returns (plan: Option<Plan>)
    ensures plan.Some? <==> keep >= 1
    ensures plan.Some? ==>
              && IsPlan(assets, versionOf, keep, incoming, plan.value)
              && plan.value.deletions == Deletions(plan.value.pruned, assets, versionOf)
              && plan.value.untouched == Untouched(assets, versionOf)
  {
    if keep < 1 {
      return None;
    }
    hide Listed, Sort, Prune, Newest, IsPlan, Group, Deletions, NoDup, Ordered;
    var grouped := GroupByVersion(assets, versionOf);
    var g := ReserveIncoming(assets, versionOf, grouped, incoming);
    SortedKeys(g.keys);
    var retained, pruned := CutAt(Sort(g.keys, Newest), keep);
    var deletions := DeletePruned(pruned, assets, versionOf, g.byVersion);
    var made := Plan(keep, retained, pruned, deletions, g.untouched);
    PlanHolds(assets, versionOf, keep, incoming, g.keys, made);
    plan := Some(made);
  }

  /** The first versions, as many as are kept, and the others. */
  method CutAt(versions: seq<Version>, keep: nat) returns (retained: seq<Version>, pruned: seq<Version>)
    ensures retained + pruned == versions && |retained| == if keep < |versions| then keep else |versions|
  {
    var cut := if keep < |versions| then keep else |versions|;
    retained, pruned := versions[..cut], versions[cut..];
  }
}
