/** The scene: `Entity`, the base of every game object, and `Stage`, the
    list of entities that one update pass runs in descending `Priority`
    (removing the entities killed before their turn) and one draw pass
    draws in descending `ZOrder`.

    Entities are objects the stage and the entities themselves change in
    place; the value-level functions below say what each operation does to
    the sequence of their states, and the classes at the end are proved to
    do exactly that. An entity's `Update` hook is modelled by the entities
    it kills; its `Draw` hook by the list of entities drawn. */
module Scene {
  import opened Wrappers
  import opened Xna
  import opened Sorting

  /** The fields of an entity. `creationTime` stands for `DateTime.Now` when
      the entity was built, as a logical timestamp (larger is later). */
  datatype EntityState = EntityState(
    name: string,
    creationTime: int,
    enabled: bool,
    priority: int,
    location: Vec,
    zOrder: int,
    visible: bool,
    bounds: Rect,
    tag: string,
    isInitialized: bool,
    killed: bool)

  /** What the constructor leaves. */
  function NewEntity(creationTime: int): EntityState {
    EntityState("", creationTime, true, 0, Zero, 0, true, Empty, "", false, false)
  }

  /** What `Terminate` leaves: everything reset and disabled; the name, the
      creation time and the `Killed` mark are kept. */
  function Terminated(s: EntityState): EntityState {
    s.(bounds := Empty, enabled := false, location := Zero, priority := 0,
       tag := "", visible := false, zOrder := 0, isInitialized := false)
  }

  /** What `Kill` leaves. */
  function KilledState(s: EntityState): EntityState {
    s.(killed := true, enabled := false, visible := false)
  }

  /** Killed and no longer enabled: the state `Stage.Update` removes. */
  predicate Dies(s: EntityState) {
    !s.enabled && s.killed
  }

  /** Terminating or killing an entity twice changes nothing more, and both
      keep a dead entity dead. */
  lemma {:induction false} LifecycleSettles(s: EntityState)
    ensures Terminated(Terminated(s)) == Terminated(s)
    ensures KilledState(KilledState(s)) == KilledState(s)
    ensures Dies(KilledState(s))
    ensures Dies(s) ==> Dies(Terminated(s)) && Dies(KilledState(s))
    ensures !Terminated(s).visible && !Terminated(s).enabled && !KilledState(s).visible
  {
  }

  // ---------------------------------------------------------------------
  // Comparators

  /** The engine's descending three-way comparison of two keys. */
  function CompareDesc(a: int, b: int): (r: int)
    ensures r == -1 <==> a > b
    ensures r == 0 <==> a == b
    ensures r == 1 <==> a < b
  {
    if a > b then -1 else if a == b then 0 else 1
  }

  lemma CompareDescOrder(a: int, b: int, c: int)
    ensures CompareDesc(a, b) == -CompareDesc(b, a)
    ensures CompareDesc(a, b) <= 0 && CompareDesc(b, c) <= 0 ==> CompareDesc(a, c) <= 0
  {
  }

  /** `CompareTo`: by descending `Priority`. */
  function CompareTo(a: EntityState, b: EntityState): (r: int)
    ensures r < 0 <==> a.priority > b.priority
    ensures r == 0 <==> a.priority == b.priority
    ensures r > 0 <==> a.priority < b.priority
  {
    CompareDesc(a.priority, b.priority)
  }

  /** `SortByZOrder`. */
  function ByZOrder(a: EntityState, b: EntityState): (r: int)
    ensures r < 0 <==> a.zOrder > b.zOrder
    ensures r == 0 <==> a.zOrder == b.zOrder
    ensures r > 0 <==> a.zOrder < b.zOrder
  {
    CompareDesc(a.zOrder, b.zOrder)
  }

  /** `SortByPriority`. */
  function ByPriority(a: EntityState, b: EntityState): (r: int)
    ensures r < 0 <==> a.priority > b.priority
    ensures r == 0 <==> a.priority == b.priority
    ensures r > 0 <==> a.priority < b.priority
  {
    CompareDesc(a.priority, b.priority)
  }

  /** `SortByCreationTime`. */
  function ByCreationTime(a: EntityState, b: EntityState): (r: int)
    ensures r < 0 <==> a.creationTime > b.creationTime
    ensures r == 0 <==> a.creationTime == b.creationTime
    ensures r > 0 <==> a.creationTime < b.creationTime
  {
    CompareDesc(a.creationTime, b.creationTime)
  }

  /** Each comparator is antisymmetric, and `CompareTo` agrees with
      `SortByPriority`. */
  lemma ComparatorsAntisymmetric(a: EntityState, b: EntityState)
    ensures CompareTo(a, b) == -CompareTo(b, a)
    ensures ByZOrder(a, b) == -ByZOrder(b, a)
    ensures ByPriority(a, b) == -ByPriority(b, a)
    ensures ByCreationTime(a, b) == -ByCreationTime(b, a)
    ensures CompareTo(a, b) == ByPriority(a, b)
  {
  }

  // ---------------------------------------------------------------------
  // Selections over the node list, by position

  function CreationKey(st: seq<EntityState>): nat -> int {
    (p: nat) => if p < |st| then st[p].creationTime else 0
  }

  function PriorityKey(st: seq<EntityState>): nat -> int {
    (p: nat) => if p < |st| then st[p].priority else 0
  }

  function ZOrderKey(st: seq<EntityState>): nat -> int {
    (p: nat) => if p < |st| then st[p].zOrder else 0
  }

  function NameIs(st: seq<EntityState>, name: string): nat -> bool {
    (p: nat) => p < |st| && st[p].name == name
  }

  /** The positions among the first `n` that satisfy `p`, in stable
      descending `key` order: `Where(p).OrderByDescending(key)`. */
  function Ordered(n: nat, p: nat -> bool, key: nat -> int): seq<nat> {
    SortDesc<nat>(Filter<nat>(Positions(n), p), key)
  }

  /** `Ordered` holds each position that satisfies `p` exactly once, sorted
      by descending key, and positions with the same key in list order. */
  lemma OrderedSpec(n: nat, p: nat -> bool, key: nat -> int)
    ensures IndexList(Ordered(n, p, key), n) && Distinct(Ordered(n, p, key))
    ensures forall q: nat :: q in Ordered(n, p, key) <==> q < n && p(q)
    ensures SortedDesc(Ordered(n, p, key), key)
    ensures forall k :: Increasing(Filter(Ordered(n, p, key), KeyIs<nat>(key, k)))
  {
    OrderedFits(n, p, key);
    OrderedMembers(n, p, key);
    SortDescSorted(Filter<nat>(Positions(n), p), key);
    OrderedStable(n, p, key);
  }

  lemma OrderedFits(n: nat, p: nat -> bool, key: nat -> int)
    ensures IndexList(Ordered(n, p, key), n) && Distinct(Ordered(n, p, key))
  {
    var ps := Positions(n);
    var f := Filter<nat>(ps, p);
    FilterIndexList(ps, p, n);
    SortDescIndexList(f, key, n);
    FilterIncreasing(ps, p);
    DistinctPermutation(f, Ordered(n, p, key));
  }

  lemma OrderedMembers(n: nat, p: nat -> bool, key: nat -> int)
    ensures forall q: nat :: q in Ordered(n, p, key) <==> q < n && p(q)
  {
    var ps := Positions(n);
    var f := Filter<nat>(ps, p);
    var o := Ordered(n, p, key);
    FilterIn(ps, p);
    forall q: nat ensures q in o <==> q < n && p(q) {
      assert q in o <==> q in multiset(f);
      if q < n { assert ps[q] == q; }
    }
  }

  lemma OrderedStable(n: nat, p: nat -> bool, key: nat -> int)
    ensures forall k :: Increasing(Filter(Ordered(n, p, key), KeyIs<nat>(key, k)))
  {
    forall k ensures Increasing(Filter(Ordered(n, p, key), KeyIs<nat>(key, k))) {
      OrderedStableAt(n, p, key, k);
    }
  }

  lemma OrderedStableAt(n: nat, p: nat -> bool, key: nat -> int, k: int)
    ensures Increasing(Filter(Ordered(n, p, key), KeyIs<nat>(key, k)))
  {
    var ps := Positions(n);
    var f := Filter<nat>(ps, p);
    FilterIncreasing(ps, p);
    SortDescStable(f, key, k);
    assert Filter(Ordered(n, p, key), KeyIs<nat>(key, k)) == Filter(f, KeyIs<nat>(key, k));
    FilterIncreasing(f, KeyIs<nat>(key, k));
  }

  /** `FindByName`'s selection: of the entities named `name`, the last of a
      stable descending sort on the creation time. */
  function FoundAt(st: seq<EntityState>, name: string): (r: Option<nat>)
    ensures r.Some? ==> r.value < |st| && st[r.value].name == name
  {
    var hits := Filter<nat>(SortDesc<nat>(Positions(|st|), CreationKey(st)), NameIs(st, name));
    if hits == [] then None
    else
      FilterIn<nat>(SortDesc<nat>(Positions(|st|), CreationKey(st)), NameIs(st, name));
      assert hits[|hits| - 1] in hits;
      Some(Last(hits))
  }

  /** The positions of the entities named `name`, in list order. */
  function Named(st: seq<EntityState>, name: string): seq<nat> {
    Filter<nat>(Positions(|st|), NameIs(st, name))
  }

  lemma NamedSpec(st: seq<EntityState>, name: string)
    ensures forall q: nat :: q in Named(st, name) <==> q < |st| && st[q].name == name
    ensures Increasing(Named(st, name))
  {
    var ps := Positions(|st|);
    FilterIn(ps, NameIs(st, name));
    FilterIncreasing(ps, NameIs(st, name));
    forall q: nat ensures q in Named(st, name) <==> q < |st| && st[q].name == name {
      if q < |st| { assert ps[q] == q; }
      assert q in Named(st, name) ==> NameIs(st, name)(q);
    }
  }

  /** Of the positions in `f` whose key is the smallest, the last one: what
      `OrderByDescending(key).Last()` selects. */
  function LastOfMin(f: seq<nat>, key: nat -> int): (p: nat)
    requires f != []
    ensures p in f
  {
    var g := Filter(f, KeyIs<nat>(key, MinKey<nat>(f, key)));
    LastOfSortDesc(f, key);
    FilterIn(f, KeyIs<nat>(key, MinKey<nat>(f, key)));
    assert g[|g| - 1] in g;
    Last(g)
  }

  /** On positions in list order, `LastOfMin` has the smallest key, and no
      later position has that key. */
  lemma LastOfMinSpec(f: seq<nat>, key: nat -> int)
    requires f != [] && Increasing(f)
    ensures forall i :: 0 <= i < |f| ==> key(LastOfMin(f, key)) <= key(f[i])
    ensures forall i :: 0 <= i < |f| && f[i] > LastOfMin(f, key) ==> key(f[i]) != key(LastOfMin(f, key))
  {
    var lo := MinKey<nat>(f, key);
    var g := Filter(f, KeyIs<nat>(key, lo));
    var p := LastOfMin(f, key);
    FilterIn(f, KeyIs<nat>(key, lo));
    FilterIncreasing(f, KeyIs<nat>(key, lo));
    assert g[|g| - 1] == p;
    assert key(p) == lo;
    forall i | 0 <= i < |f| && f[i] > p ensures key(f[i]) != lo {
      assert f[i] !in g;
    }
  }

  /** Filtering the sorted positions by name is sorting the named ones. */
  lemma FoundAmongNamed(st: seq<EntityState>, name: string)
    ensures FoundAt(st, name) == None <==> Named(st, name) == []
    ensures Named(st, name) != [] ==> FoundAt(st, name) == Some(LastOfMin(Named(st, name), CreationKey(st)))
  {
    var key := CreationKey(st);
    var f := Named(st, name);
    SortDescFilter(Positions(|st|), key, NameIs(st, name));
    assert |SortDesc(f, key)| == |f|;
    if f != [] {
      LastOfSortDesc(f, key);
    }
  }

  /** `FindByName` finds nothing exactly when no entity has the name;
      otherwise it finds the named entity created EARLIEST, and of several
      created at that time the one LATEST in the list. */
  lemma FoundAtSpec(st: seq<EntityState>, name: string)
    ensures FoundAt(st, name) == None <==> forall q :: 0 <= q < |st| ==> st[q].name != name
    ensures FoundAt(st, name).Some? ==>
      (forall q :: 0 <= q < |st| && st[q].name == name ==>
         st[FoundAt(st, name).value].creationTime <= st[q].creationTime) &&
      (forall q :: FoundAt(st, name).value < q < |st| && st[q].name == name ==>
         st[q].creationTime != st[FoundAt(st, name).value].creationTime)
  {
    FoundNone(st, name);
    if FoundAt(st, name).Some? {
      FoundEarliest(st, name);
    }
  }

  lemma FoundNone(st: seq<EntityState>, name: string)
    ensures FoundAt(st, name) == None <==> forall q :: 0 <= q < |st| ==> st[q].name != name
  {
    NamedSpec(st, name);
    FoundAmongNamed(st, name);
    var f := Named(st, name);
    if f == [] {
      forall q | 0 <= q < |st| ensures st[q].name != name {
        assert q !in f;
      }
    } else {
      assert f[0] in f;
    }
  }

  lemma FoundEarliest(st: seq<EntityState>, name: string)
    requires FoundAt(st, name).Some?
    ensures forall q :: 0 <= q < |st| && st[q].name == name ==>
      st[FoundAt(st, name).value].creationTime <= st[q].creationTime
    ensures forall q :: FoundAt(st, name).value < q < |st| && st[q].name == name ==>
      st[q].creationTime != st[FoundAt(st, name).value].creationTime
  {
    var key := CreationKey(st);
    var f := Named(st, name);
    NamedSpec(st, name);
    FoundAmongNamed(st, name);
    var p := LastOfMin(f, key);
    assert FoundAt(st, name).value == p;
    LastOfMinSpec(f, key);
    forall q | 0 <= q < |st| && st[q].name == name
      ensures key(p) <= key(q) && (q > p ==> key(q) != key(p))
    {
      assert q in f;
      var k :| 0 <= k < |f| && f[k] == q;
    }
  }

  /** The `GetVisibles` filter: visible, with empty bounds or bounds that
      intersect the screen (`Manager.Graphics.ScreenBounds`, a parameter). */
  predicate OnScreen(s: EntityState, screen: Rect) {
    s.visible && (s.bounds == Empty || Intersects(s.bounds, screen))
  }

  /** The `GetEnabledAndDead` filter: the entities an update pass visits. */
  predicate EnabledOrDead(s: EntityState) {
    s.enabled || s.killed
  }

  /** The `GetEnabled` filter. */
  predicate IsEnabled(s: EntityState) {
    s.enabled && !s.killed
  }

  /** The `GetDead` filter. */
  predicate IsDead(s: EntityState) {
    s.killed
  }

  /** The filters agree: an entity the update pass visits is enabled or
      dead, and a dead one is never enabled once `Kill` has run. */
  lemma FiltersAgree(s: EntityState)
    ensures EnabledOrDead(s) <==> IsEnabled(s) || IsDead(s)
    ensures IsDead(KilledState(s)) && !IsEnabled(KilledState(s))
    ensures !OnScreen(KilledState(s), Empty) && !OnScreen(Terminated(s), Empty)
  {
  }

  function VisibleAt(st: seq<EntityState>, screen: Rect): nat -> bool {
    (p: nat) => p < |st| && OnScreen(st[p], screen)
  }

  function UpdatableAt(st: seq<EntityState>): nat -> bool {
    (p: nat) => p < |st| && EnabledOrDead(st[p])
  }

  /** The positions `Draw` draws, in the order it draws them. */
  function DrawOrder(st: seq<EntityState>, screen: Rect): seq<nat> {
    Ordered(|st|, VisibleAt(st, screen), ZOrderKey(st))
  }

  /** `Draw` draws each entity on screen exactly once, by descending
      `ZOrder` (each drawn entity compares at most 0 with the ones drawn
      after it under `SortByZOrder`), and entities with the same `ZOrder`
      in list order. */
  lemma DrawOrderSpec(st: seq<EntityState>, screen: Rect)
    ensures IndexList(DrawOrder(st, screen), |st|) && Distinct(DrawOrder(st, screen))
    ensures forall q: nat :: q in DrawOrder(st, screen) <==> q < |st| && OnScreen(st[q], screen)
    ensures forall i, j :: 0 <= i < j < |DrawOrder(st, screen)| ==>
      ByZOrder(st[DrawOrder(st, screen)[i]], st[DrawOrder(st, screen)[j]]) <= 0
    ensures forall z :: Increasing(Filter(DrawOrder(st, screen), KeyIs<nat>(ZOrderKey(st), z)))
  {
    OrderedSpec(|st|, VisibleAt(st, screen), ZOrderKey(st));
  }

  /** The snapshot an update pass visits, in the order it visits it. */
  function Snapshot(st: seq<EntityState>): seq<nat> {
    Ordered(|st|, UpdatableAt(st), PriorityKey(st))
  }

  /** The snapshot holds each enabled or dead entity exactly once, by
      descending `Priority`, and entities of equal priority in list
      order. */
  lemma SnapshotSpec(st: seq<EntityState>)
    ensures IndexList(Snapshot(st), |st|) && Distinct(Snapshot(st))
    ensures forall q: nat :: q in Snapshot(st) <==> q < |st| && EnabledOrDead(st[q])
    ensures SortedDesc(Snapshot(st), PriorityKey(st))
    ensures forall k :: Increasing(Filter(Snapshot(st), KeyIs<nat>(PriorityKey(st), k)))
  {
    OrderedSpec(|st|, UpdatableAt(st), PriorityKey(st));
  }

  lemma SnapshotFits(st: seq<EntityState>)
    ensures IndexList(Snapshot(st), |st|) && Distinct(Snapshot(st))
  {
    OrderedFits(|st|, UpdatableAt(st), PriorityKey(st));
  }

  // ---------------------------------------------------------------------
  // Stage.Update, on values

  /** For each position in a node list of length `n`, the positions whose
      entities that entity's `Update` hook kills, in the order it kills
      them. */
  predicate HooksFit(hooks: seq<seq<nat>>, n: nat) {
    |hooks| == n && forall j :: 0 <= j < n ==> IndexList(hooks[j], n)
  }

  /** The states after the first `m` kills of `ts`. */
  function KillsUpTo(st: seq<EntityState>, ts: seq<nat>, m: nat): (r: seq<EntityState>)
    requires m <= |ts| && IndexList(ts, |st|)
    ensures |r| == |st|
    decreases m
  {
    if m == 0 then st
    else
      var r := KillsUpTo(st, ts, m - 1);
      r[ts[m - 1] := KilledState(r[ts[m - 1]])]
  }

  function KillAll(st: seq<EntityState>, ts: seq<nat>): (r: seq<EntityState>)
    requires IndexList(ts, |st|)
    ensures |r| == |st|
  {
    KillsUpTo(st, ts, |ts|)
  }

  /** Killing a list of entities kills exactly the ones on it, however often
      and in whatever order they appear. */
  lemma {:induction false} KillsUpToSpec(st: seq<EntityState>, ts: seq<nat>, m: nat)
    requires m <= |ts| && IndexList(ts, |st|)
    ensures forall q :: 0 <= q < |st| ==>
      KillsUpTo(st, ts, m)[q] == if q in ts[..m] then KilledState(st[q]) else st[q]
  {
    if m > 0 {
      KillsUpToSpec(st, ts, m - 1);
      assert ts[..m] == ts[..m - 1] + [ts[m - 1]];
      forall q | 0 <= q < |st| && q in ts[..m - 1] ensures KilledState(KilledState(st[q])) == KilledState(st[q]) {
        LifecycleSettles(st[q]);
      }
    }
  }

  /** `List<T>.Remove`: the list without the first occurrence of `x`. */
  function Without(s: seq<nat>, x: nat): (r: seq<nat>)
    ensures |r| <= |s|
  {
    if s == [] then []
    else if s[0] == x then s[1..]
    else [s[0]] + Without(s[1..], x)
  }

  /** On positions in list order, `Remove` takes out `x` and nothing else,
      and keeps the order. */
  lemma {:induction false} WithoutSpec(s: seq<nat>, x: nat)
    requires Increasing(s)
    ensures Increasing(Without(s, x))
    ensures forall y :: y in Without(s, x) <==> y in s && y != x
  {
    if s != [] {
      var t := s[1..];
      assert Increasing(t);
      assert forall k :: 0 <= k < |t| ==> t[k] == s[k + 1];
      if s[0] != x {
        WithoutSpec(t, x);
        var u := Without(t, x);
        forall k | 0 <= k < |u| ensures s[0] < u[k] {
          assert u[k] in t;
        }
        assert Without(s, x) == [s[0]] + u;
      } else {
        assert x !in t;
      }
    }
  }

  /** `RemoveAt(IndexOf(x))` is `Remove(x)`. */
  lemma {:induction false} WithoutAt(s: seq<nat>, x: nat, k: nat)
    requires k < |s| && s[k] == x
    requires forall m :: 0 <= m < k ==> s[m] != x
    ensures Without(s, x) == s[..k] + s[k + 1..]
  {
    if k > 0 {
      WithoutAt(s[1..], x, k - 1);
      assert s[1..][..k - 1] == s[1..k];
      assert s[1..][k..] == s[k + 1..];
      assert s[..k] == [s[0]] + s[1..k];
    }
  }

  /** Where an update pass is: the states of the entities that were in the
      list when it began (by their position there), the positions still in
      the list, the `killed` counter, and the positions whose `Update` hook
      has run, in the order it ran. */
  datatype Sweep = Sweep(st: seq<EntityState>, alive: seq<nat>, killed: int, updated: seq<nat>)

  /** One turn of the pass, for position `j` of the snapshot: an enabled
      entity runs its hook; one that is killed and disabled is terminated
      and removed from the list; any other is skipped. */
  function Visit(w: Sweep, j: nat, hooks: seq<seq<nat>>): (r: Sweep)
    requires j < |w.st| && HooksFit(hooks, |w.st|)
    ensures |r.st| == |w.st|
  {
    if w.st[j].enabled then
      w.(st := KillAll(w.st, hooks[j]), killed := w.killed + |hooks[j]|, updated := w.updated + [j])
    else if w.st[j].killed then
      w.(st := w.st[j := Terminated(w.st[j])], alive := Without(w.alive, j))
    else w
  }

  function SweepUpTo(w0: Sweep, snap: seq<nat>, hooks: seq<seq<nat>>, i: nat): (w: Sweep)
    requires i <= |snap| && IndexList(snap, |w0.st|) && HooksFit(hooks, |w0.st|)
    ensures |w.st| == |w0.st|
    decreases i
  {
    if i == 0 then w0 else Visit(SweepUpTo(w0, snap, hooks, i - 1), snap[i - 1], hooks)
  }

  /** The pass over the node list with states `st` and counter `killed`,
      after its first `i` turns. */
  function SweepAt(st: seq<EntityState>, killed: int, hooks: seq<seq<nat>>, i: nat): (w: Sweep)
    requires HooksFit(hooks, |st|) && i <= |Snapshot(st)|
    ensures |w.st| == |st|
  {
    SnapshotFits(st);
    SweepUpTo(Sweep(st, Positions(|st|), killed, []), Snapshot(st), hooks, i)
  }

  /** Turn `n` of the pass visits entry `n - 1` of the snapshot. */
  lemma SweepStep(st: seq<EntityState>, killed: int, hooks: seq<seq<nat>>, n: nat)
    requires HooksFit(hooks, |st|) && 0 < n <= |Snapshot(st)|
    ensures Snapshot(st)[n - 1] < |st|
    ensures SweepAt(st, killed, hooks, n) ==
      Visit(SweepAt(st, killed, hooks, n - 1), Snapshot(st)[n - 1], hooks)
  {
    SnapshotFits(st);
  }

  /** `Stage.Update` on an enabled stage: every turn of the pass, then the
      counter reset. */
  function UpdatePass(st: seq<EntityState>, killed: int, hooks: seq<seq<nat>>): Sweep
    requires HooksFit(hooks, |st|)
  {
    var w := SweepAt(st, killed, hooks, |Snapshot(st)|);
    w.(killed := if w.killed > 0 then 0 else w.killed)
  }

  /** The entry in turn `m` of the pass is dead when its turn comes. */
  predicate DiesAt(st: seq<EntityState>, killed: int, hooks: seq<seq<nat>>, m: nat)
    requires HooksFit(hooks, |st|) && m < |Snapshot(st)|
  {
    SnapshotFits(st);
    Dies(SweepAt(st, killed, hooks, m).st[Snapshot(st)[m]])
  }

  /** Position `p` was not dead at any of its turns among the first `n`. */
  predicate Survives(st: seq<EntityState>, killed: int, hooks: seq<seq<nat>>, n: nat, p: nat)
    requires HooksFit(hooks, |st|) && n <= |Snapshot(st)|
  {
    forall m :: 0 <= m < n && Snapshot(st)[m] == p ==> !DiesAt(st, killed, hooks, m)
  }

  lemma SurvivesStep(st: seq<EntityState>, killed: int, hooks: seq<seq<nat>>, n: nat, p: nat)
    requires HooksFit(hooks, |st|) && 0 < n <= |Snapshot(st)|
    ensures Survives(st, killed, hooks, n, p) <==>
      Survives(st, killed, hooks, n - 1, p) && (Snapshot(st)[n - 1] == p ==> !DiesAt(st, killed, hooks, n - 1))
  {
  }

  /** After `n` turns, the list holds, in their original order, exactly the
      entities that were not dead at a turn of theirs. */
  lemma {:induction false} AliveIff(st: seq<EntityState>, killed: int, hooks: seq<seq<nat>>, n: nat)
    requires HooksFit(hooks, |st|) && n <= |Snapshot(st)|
    ensures Increasing(SweepAt(st, killed, hooks, n).alive)
    ensures forall p: nat :: p in SweepAt(st, killed, hooks, n).alive <==>
      p < |st| && Survives(st, killed, hooks, n, p)
  {
    SnapshotFits(st);
    if n > 0 {
      AliveIff(st, killed, hooks, n - 1);
      var w := SweepAt(st, killed, hooks, n - 1);
      var j := Snapshot(st)[n - 1];
      SweepStep(st, killed, hooks, n);
      assert DiesAt(st, killed, hooks, n - 1) == Dies(w.st[j]);
      VisitAlive(w, j, hooks);
      forall p: nat ensures Survives(st, killed, hooks, n, p) <==>
        Survives(st, killed, hooks, n - 1, p) && (j == p ==> !Dies(w.st[j]))
      {
        SurvivesStep(st, killed, hooks, n, p);
      }
    } else {
      var ps := Positions(|st|);
      forall p: nat | p < |st| ensures p in ps {
        assert ps[p] == p;
      }
    }
  }

  /** A turn removes the entity whose turn it is when it is dead, and
      nothing else, and keeps the list in order. */
  lemma VisitAlive(w: Sweep, j: nat, hooks: seq<seq<nat>>)
    requires j < |w.st| && HooksFit(hooks, |w.st|) && Increasing(w.alive)
    ensures Increasing(Visit(w, j, hooks).alive)
    ensures forall p :: p in Visit(w, j, hooks).alive <==> p in w.alive && !(p == j && Dies(w.st[j]))
  {
    if Dies(w.st[j]) {
      WithoutSpec(w.alive, j);
    }
  }

  /** The entry in turn `m` of the pass is enabled when its turn comes. */
  predicate EnabledAt(st: seq<EntityState>, killed: int, hooks: seq<seq<nat>>, m: nat)
    requires HooksFit(hooks, |st|) && m < |Snapshot(st)|
  {
    SnapshotFits(st);
    SweepAt(st, killed, hooks, m).st[Snapshot(st)[m]].enabled
  }

  /** The hook of the entry in turn `m` kills position `p`. */
  predicate HookKills(st: seq<EntityState>, hooks: seq<seq<nat>>, m: nat, p: nat)
    requires HooksFit(hooks, |st|) && m < |Snapshot(st)|
  {
    SnapshotFits(st);
    p in hooks[Snapshot(st)[m]]
  }

  /** The pass keeps the list in its original order and removes nothing
      new. */
  lemma UpdateKeepsOrder(st: seq<EntityState>, killed: int, hooks: seq<seq<nat>>)
    requires HooksFit(hooks, |st|)
    ensures Increasing(UpdatePass(st, killed, hooks).alive)
    ensures IndexList(UpdatePass(st, killed, hooks).alive, |st|)
  {
    var a := UpdatePass(st, killed, hooks).alive;
    AliveIff(st, killed, hooks, |Snapshot(st)|);
    forall k | 0 <= k < |a| ensures a[k] < |st| {
      assert a[k] in a;
    }
  }

  /** An entity the pass does not visit (disabled and not killed when the
      pass began) stays in the list. */
  lemma UnvisitedStays(st: seq<EntityState>, killed: int, hooks: seq<seq<nat>>, p: nat)
    requires HooksFit(hooks, |st|) && p < |st| && !EnabledOrDead(st[p])
    ensures p in UpdatePass(st, killed, hooks).alive
  {
    SnapshotSpec(st);
    AliveIff(st, killed, hooks, |Snapshot(st)|);
  }

  /** An entity enabled when its turn comes stays in the list, even if its
      own hook kills it then: it is removed on the next pass. */
  lemma EnabledAtTurnStays(st: seq<EntityState>, killed: int, hooks: seq<seq<nat>>, i: nat)
    requires HooksFit(hooks, |st|) && i < |Snapshot(st)|
    requires EnabledAt(st, killed, hooks, i)
    ensures Snapshot(st)[i] in UpdatePass(st, killed, hooks).alive
  {
    var snap := Snapshot(st);
    SnapshotFits(st);
    AliveIff(st, killed, hooks, |snap|);
    forall m | 0 <= m < |snap| && snap[m] == snap[i] ensures !DiesAt(st, killed, hooks, m) {
      assert m == i;
    }
  }

  /** An entity killed by the hook of an entity whose turn came earlier is
      dead when its own turn comes, and is removed in the same pass. */
  lemma KilledEarlierIsRemoved(st: seq<EntityState>, killed: int, hooks: seq<seq<nat>>, m: nat, i: nat)
    requires HooksFit(hooks, |st|) && m < i < |Snapshot(st)|
    requires EnabledAt(st, killed, hooks, m) && HookKills(st, hooks, m, Snapshot(st)[i])
    ensures Snapshot(st)[i] !in UpdatePass(st, killed, hooks).alive
  {
    SnapshotFits(st);
    StaysDead(st, killed, hooks, m, i, i);
    assert DiesAt(st, killed, hooks, i);
    AliveIff(st, killed, hooks, |Snapshot(st)|);
  }

  predicate DeadIn(w: Sweep, p: nat) {
    p < |w.st| && Dies(w.st[p])
  }

  lemma {:induction false} StaysDead(st: seq<EntityState>, killed: int, hooks: seq<seq<nat>>, m: nat, i: nat, t: nat)
    requires HooksFit(hooks, |st|) && m < t <= i < |Snapshot(st)|
    requires EnabledAt(st, killed, hooks, m) && HookKills(st, hooks, m, Snapshot(st)[i])
    ensures DeadIn(SweepAt(st, killed, hooks, t), Snapshot(st)[i])
  {
    var snap := Snapshot(st);
    SnapshotFits(st);
    SweepStep(st, killed, hooks, t);
    var w := SweepAt(st, killed, hooks, t - 1);
    if t == m + 1 {
      HookKillsDead(w, snap[m], hooks, snap[i]);
    } else {
      StaysDead(st, killed, hooks, m, i, t - 1);
      VisitKeepsDead(w, snap[t - 1], hooks, snap[i]);
    }
  }

  /** The hook of an enabled entity leaves each entity it kills dead. */
  lemma HookKillsDead(w: Sweep, j: nat, hooks: seq<seq<nat>>, p: nat)
    requires j < |w.st| && HooksFit(hooks, |w.st|) && w.st[j].enabled && p in hooks[j]
    ensures DeadIn(Visit(w, j, hooks), p)
  {
    assert hooks[j][..|hooks[j]|] == hooks[j];
    KillsUpToSpec(w.st, hooks[j], |hooks[j]|);
  }

  /** A turn keeps every other dead entity dead. */
  lemma VisitKeepsDead(w: Sweep, j: nat, hooks: seq<seq<nat>>, p: nat)
    requires j < |w.st| && HooksFit(hooks, |w.st|) && DeadIn(w, p) && p != j
    ensures DeadIn(Visit(w, j, hooks), p)
  {
    LifecycleSettles(w.st[p]);
    if w.st[j].enabled {
      assert hooks[j][..|hooks[j]|] == hooks[j];
      KillsUpToSpec(w.st, hooks[j], |hooks[j]|);
    }
  }

  lemma {:induction false} UpdatedUpTo(st: seq<EntityState>, killed: int, hooks: seq<seq<nat>>, n: nat)
    requires HooksFit(hooks, |st|) && n <= |Snapshot(st)|
    ensures SortedDesc(SweepAt(st, killed, hooks, n).updated, PriorityKey(st))
    ensures forall x :: x in SweepAt(st, killed, hooks, n).updated ==> x in Snapshot(st)[..n]
  {
    if n > 0 {
      var snap := Snapshot(st);
      UpdatedUpTo(st, killed, hooks, n - 1);
      SnapshotFits(st);
      var w := SweepAt(st, killed, hooks, n - 1);
      var j := snap[n - 1];
      SweepStep(st, killed, hooks, n);
      assert snap[..n] == snap[..n - 1] + [j];
      if w.st[j].enabled {
        SnapshotSorted(st);
        PrefixAbove(snap, PriorityKey(st), n - 1);
        SortedAppend(w.updated, j, PriorityKey(st));
      }
    }
  }

  lemma SnapshotSorted(st: seq<EntityState>)
    ensures SortedDesc(Snapshot(st), PriorityKey(st))
  {
    SortDescSorted(Filter<nat>(Positions(|st|), UpdatableAt(st)), PriorityKey(st));
  }

  /** In a sequence sorted by descending key, every entry before position
      `i` has a key at least that of entry `i`. */
  lemma PrefixAbove(s: seq<nat>, key: nat -> int, i: nat)
    requires SortedDesc(s, key) && i < |s|
    ensures forall x :: x in s[..i] ==> key(x) >= key(s[i])
  {
    forall x | x in s[..i] ensures key(x) >= key(s[i]) {
      var k :| 0 <= k < i && s[..i][k] == x;
      assert s[k] == x;
    }
  }

  lemma SortedAppend(u: seq<nat>, j: nat, key: nat -> int)
    requires SortedDesc(u, key) && forall x :: x in u ==> key(x) >= key(j)
    ensures SortedDesc(u + [j], key)
  {
    forall a, b | 0 <= a < b < |u| + 1 ensures key((u + [j])[a]) >= key((u + [j])[b]) {
      if b == |u| {
        assert (u + [j])[a] in u;
      }
    }
  }

  /** The hooks run in descending `Priority` as it was when the pass began,
      on entries of the snapshot. */
  lemma UpdatedInPriorityOrder(st: seq<EntityState>, killed: int, hooks: seq<seq<nat>>)
    requires HooksFit(hooks, |st|)
    ensures SortedDesc(UpdatePass(st, killed, hooks).updated, PriorityKey(st))
    ensures forall x :: x in UpdatePass(st, killed, hooks).updated ==> x in Snapshot(st)
  {
    UpdatedUpTo(st, killed, hooks, |Snapshot(st)|);
    assert Snapshot(st)[..|Snapshot(st)|] == Snapshot(st);
  }

  lemma {:induction false} KilledGrows(st: seq<EntityState>, killed: int, hooks: seq<seq<nat>>, n: nat)
    requires HooksFit(hooks, |st|) && n <= |Snapshot(st)|
    ensures SweepAt(st, killed, hooks, n).killed >= killed
  {
    if n > 0 {
      KilledGrows(st, killed, hooks, n - 1);
      SnapshotFits(st);
      SweepStep(st, killed, hooks, n);
    }
  }

  /** A pass that starts with a non-negative counter leaves it at 0. */
  lemma UpdateResetsKilled(st: seq<EntityState>, killed: int, hooks: seq<seq<nat>>)
    requires HooksFit(hooks, |st|) && killed >= 0
    ensures UpdatePass(st, killed, hooks).killed == 0
  {
    KilledGrows(st, killed, hooks, |Snapshot(st)|);
  }

  // ---------------------------------------------------------------------
  // The objects

  /** The states of the entities `xs`, in order. */
  function EntityStates(xs: seq<Entity>): (r: seq<EntityState>)
    reads xs
    ensures |r| == |xs|
  {
    if xs == [] then [] else [xs[0].State()] + EntityStates(xs[1..])
  }

  lemma EntityStatesIndex(xs: seq<Entity>)
    ensures forall k :: 0 <= k < |xs| ==> EntityStates(xs)[k] == xs[k].State()
  {
  }

  lemma EntityStatesAppend(xs: seq<Entity>, e: Entity)
    ensures EntityStates(xs + [e]) == EntityStates(xs) + [e.State()]
  {
    EntityStatesIndex(xs);
    EntityStatesIndex(xs + [e]);
  }

  lemma EntityStatesUpdate(xs: seq<Entity>, s: seq<EntityState>, k: nat)
    requires |s| == |xs| && k < |xs|
    requires forall m :: 0 <= m < |xs| && m != k ==> xs[m].State() == s[m]
    ensures EntityStates(xs) == s[k := xs[k].State()]
  {
    EntityStatesIndex(xs);
  }

  /** Entity `t` of `xs` is at `ix[xs[t]]`, so no entity occurs twice. */
  ghost predicate Numbered(xs: seq<Entity>, ix: map<Entity, nat>) {
    forall t :: 0 <= t < |xs| ==> xs[t] in ix && ix[xs[t]] == t
  }

  /** An object of the scene. The virtual `Update`, `Draw` and
      `ReciveMessage` hooks are not methods here: `Stage.Update` takes what
      each `Update` kills, `Stage.Draw` returns what it draws, and
      `MessageQueue.Process` records what each entity receives. */
  class Entity {
    /** The stage the entity was added to. */
    var father: Stage?
    const creationTime: int
    var name: string
    var enabled: bool
    var priority: int
    var location: Vec
    var zOrder: int
    var visible: bool
    var bounds: Rect
    var tag: string
    var isInitialized: bool
    var killed: bool

    function State(): EntityState
      reads this
    {
      EntityState(name, creationTime, enabled, priority, location, zOrder,
                  visible, bounds, tag, isInitialized, killed)
    }

    /** `creationTime` is the value of `DateTime.Now` at construction. */
    constructor (creationTime: int)
      ensures State() == NewEntity(creationTime) && father == null
    {
      this.creationTime := creationTime;
      father := null;
      name := "";
      bounds := Empty;
      enabled := true;
      location := Zero;
      priority := 0;
      tag := "";
      visible := true;
      zOrder := 0;
      isInitialized := false;
      killed := false;
    }

    method Initialize()
      modifies this
      ensures State() == old(State()).(isInitialized := true)
      ensures father == old(father)
    {
      isInitialized := true;
    }

    method Terminate()
      modifies this
      ensures State() == Terminated(old(State()))
      ensures father == old(father)
    {
      bounds := Empty;
      enabled := false;
      location := Zero;
      priority := 0;
      tag := "";
      visible := false;
      zOrder := 0;
      isInitialized := false;
    }

    /** The visual area, which the draw pass compares with the screen. */
    function GetBounds(): (r: Rect)
      reads this
      ensures r == State().bounds
    {
      bounds
    }

    /** Marks the entity dead and counts it in its stage; without a stage
      the marks are set and the counter update fails. */
    method Kill() returns (o: Outcome)
      modifies this, (if father == null then {} else {father})`killed
      ensures State() == KilledState(old(State())) && father == old(father)
      ensures father == null <==> o == Fail(NullReference)
      ensures father != null ==> o == Pass && father.killed == old(father.killed) + 1
    {
      killed := true;
      enabled := false;
      visible := false;
      if father == null {
        return Fail(NullReference);
      }
      father.killed := father.killed + 1;
      o := Pass;
    }
  }

  /** The list of entities of a scene. */
  class Stage {
    var nodes: seq<Entity>
    var killed: int
    var enabled: bool
    var visible: bool

    /** The position of each entity in the list. */
    ghost var index: map<Entity, nat>

    /** No entity is in the list twice. */
    ghost predicate Valid()
      reads this
    {
      Numbered(nodes, index)
    }

    function States(): seq<EntityState>
      reads this, nodes
    {
      EntityStates(nodes)
    }

    /** Every entity of `xs` belongs to this stage. */
    ghost predicate Fathers(xs: seq<Entity>)
      reads xs
    {
      forall t :: 0 <= t < |xs| ==> xs[t].father == this
    }

    constructor ()
      ensures nodes == [] && killed == 0 && enabled && visible && Valid()
    {
      nodes := [];
      killed := 0;
      enabled := true;
      visible := true;
      index := map[];
    }

    /** Names the entity, makes it belong here, initializes it and appends
        it; the entities already in the list are not touched. */
    method AddEntity(e: Entity, name: string)
      requires Valid() && e !in nodes
      modifies this, e
      ensures Valid() && nodes == old(nodes) + [e]
      ensures e.State() == old(e.State()).(name := name, isInitialized := true) && e.father == this
      ensures States() == old(States()) + [e.State()]
      ensures killed == old(killed) && enabled == old(enabled) && visible == old(visible)
    {
      ghost var s0 := States();
      e.name := name;
      e.father := this;
      e.Initialize();
      assert EntityStates(nodes) == s0;
      EntityStatesAppend(nodes, e);
      index := index[e := |nodes|];
      nodes := nodes + [e];
    }

    /** `List<T>.IndexOf`: the first position of `e`, or -1. */
    method IndexOf(e: Entity) returns (k: int)
      ensures -1 <= k < |nodes|
      ensures k == -1 <==> e !in nodes
      ensures k >= 0 ==> nodes[k] == e && forall m :: 0 <= m < k ==> nodes[m] != e
    {
      k := 0;
      while k < |nodes|
        invariant 0 <= k <= |nodes|
        invariant forall m :: 0 <= m < k ==> nodes[m] != e
      {
        if nodes[k] == e {
          return;
        }
        k := k + 1;
      }
      k := -1;
    }

    /** The entity `FoundAt` selects, or null. */
    function FindByName(name: string): (r: Entity?)
      reads this, nodes
      ensures r == null <==> FoundAt(States(), name).None?
      ensures r != null ==> r == nodes[FoundAt(States(), name).value] && r.name == name
    {
      match FoundAt(States(), name)
      case None => null
      case Some(p) =>
        EntityStatesIndex(nodes);
        nodes[p]
    }

    /** `List<T>.RemoveAt` on the list and the index. */
    method Detach(k: nat)
      requires Valid() && k < |nodes|
      modifies this`nodes, this`index
      ensures Valid() && nodes == old(nodes[..k] + nodes[k + 1..])
    {
      ghost var e := nodes[k];
      ghost var ix := index;
      ghost var xs := nodes;
      nodes := nodes[..k] + nodes[k + 1..];
      index := map x | x in ix && x != e :: if ix[x] > k then ix[x] - 1 else ix[x];
      forall i | 0 <= i < |nodes| ensures nodes[i] in index && index[nodes[i]] == i {
        var src := if i < k then i else i + 1;
        assert nodes[i] == xs[src] && ix[xs[src]] == src;
      }
    }

    /** `RemoveEntity(int)`: terminates the entity at `k` and removes that
        position only; an index outside the list fails. */
    method RemoveEntityAt(k: int) returns (o: Outcome)
      requires Valid()
      modifies this, nodes
      ensures Valid() && killed == old(killed) && enabled == old(enabled) && visible == old(visible)
      ensures !(0 <= k < |old(nodes)|) ==>
        o == Fail(IndexOutOfRange) && nodes == old(nodes) && States() == old(States())
      ensures 0 <= k < |old(nodes)| ==>
        o == Pass && nodes == old(nodes[..k] + nodes[k + 1..]) &&
        EntityStates(old(nodes)) == old(States())[k := Terminated(old(States())[k])]
    {
      if !(0 <= k < |nodes|) {
        return Fail(IndexOutOfRange);
      }
      ghost var s0 := States();
      var xs := nodes;
      EntityStatesIndex(xs);
      xs[k].Terminate();
      EntityStatesUpdate(xs, s0, k);
      Detach(k);
      o := Pass;
    }

    /** `RemoveEntity(string)`: removes the entity `FindByName` would find;
        when no entity has the name the selection fails. */
    method RemoveEntity(name: string) returns (o: Outcome)
      requires Valid()
      modifies this, nodes
      ensures Valid() && killed == old(killed) && enabled == old(enabled) && visible == old(visible)
      ensures FoundAt(old(States()), name).None? ==>
        o == Fail(NoElements) && nodes == old(nodes) && States() == old(States())
      ensures FoundAt(old(States()), name).Some? ==>
        var p := FoundAt(old(States()), name).value;
        o == Pass && nodes == old(nodes[..p] + nodes[p + 1..]) &&
        EntityStates(old(nodes)) == old(States())[p := Terminated(old(States())[p])]
    {
      var at := FoundAt(States(), name);
      if at.None? {
        return Fail(NoElements);
      }
      var e := nodes[at.value];
      var k := IndexOf(e);
      assert k == at.value by {
        assert index[nodes[k]] == k && index[nodes[at.value]] == at.value;
      }
      o := RemoveEntityAt(k);
    }

    /** Terminates every entity and empties the list. */
    method Clear()
      requires Valid()
      modifies this, nodes
      ensures Valid() && nodes == []
      ensures forall k :: 0 <= k < |old(nodes)| ==> old(nodes)[k].State() == Terminated(old(States())[k])
      ensures killed == old(killed) && enabled == old(enabled) && visible == old(visible)
    {
      var xs := nodes;
      ghost var s0 := States();
      EntityStatesIndex(xs);
      var i := 0;
      while i < |xs|
        invariant 0 <= i <= |xs| && nodes == xs && Valid()
        invariant forall k :: 0 <= k < |xs| ==> xs[k].State() == if k < i then Terminated(s0[k]) else s0[k]
        invariant killed == old(killed) && enabled == old(enabled) && visible == old(visible)
      {
        xs[i].Terminate();
        i := i + 1;
      }
      nodes := [];
      index := map[];
    }

    /** `Dispose`: `Clear`. */
    method Dispose()
      requires Valid()
      modifies this, nodes
      ensures Valid() && nodes == []
      ensures forall k :: 0 <= k < |old(nodes)| ==> old(nodes)[k].State() == Terminated(old(States())[k])
      ensures killed == old(killed) && enabled == old(enabled) && visible == old(visible)
    {
      Clear();
    }

    /** `Draw`: the entities whose `Draw` runs, in the order it runs; none
        when the stage is hidden. */
    method Draw(screen: Rect) returns (drawn: seq<Entity>)
      ensures !visible ==> drawn == []
      ensures visible ==> (IndexList(DrawOrder(States(), screen), |nodes|) &&
        drawn == Project(nodes, DrawOrder(States(), screen)))
    {
      drawn := [];
      if visible {
        var order := DrawOrder(States(), screen);
        DrawOrderSpec(States(), screen);
        EntityStatesIndex(nodes);
        var list := Project(nodes, order);
        var i := 0;
        while i < |list|
          invariant 0 <= i <= |list| && drawn == list[..i]
        {
          assert order[i] in order;
          if list[i].visible {
            drawn := drawn + [list[i]];
          }
          i := i + 1;
        }
      }
    }

    /** The hook of an enabled entity, killing the entities `ts` of `xs`
        (the list when the pass began) in order. */
    method RunHook(xs: seq<Entity>, ghost ix: map<Entity, nat>, ts: seq<nat>, ghost st: seq<EntityState>)
      requires Numbered(xs, ix) && IndexList(ts, |xs|) && |st| == |xs|
      requires EntityStates(xs) == st && Fathers(xs)
      modifies this`killed, xs
      ensures EntityStates(xs) == KillAll(st, ts) && killed == old(killed) + |ts| && Fathers(xs)
    {
      for m := 0 to |ts|
        invariant EntityStates(xs) == KillsUpTo(st, ts, m) && killed == old(killed) + m
        invariant Fathers(xs)
      {
        KillEntry(xs, ix, ts[m], KillsUpTo(st, ts, m));
      }
    }

    /** The hook kills entity `t` of `xs`, whose states are `s`. */
    method KillEntry(xs: seq<Entity>, ghost ix: map<Entity, nat>, t: nat, ghost s: seq<EntityState>)
      requires Numbered(xs, ix) && t < |xs| && EntityStates(xs) == s && Fathers(xs)
      modifies this`killed, xs
      ensures EntityStates(xs) == s[t := KilledState(s[t])] && killed == old(killed) + 1 && Fathers(xs)
    {
      EntityStatesIndex(xs);
      var o := xs[t].Kill();
      EntityStatesUpdate(xs, s, t);
    }

    /** Takes the entity at position `j` of `xs` out of the list, which
        holds the entities of `xs` at the positions `a`. */
    method Drop(xs: seq<Entity>, ghost ix: map<Entity, nat>, ghost a: seq<nat>, j: nat)
      requires Numbered(xs, ix) && j < |xs| && IndexList(a, |xs|) && Increasing(a)
      requires nodes == Project(xs, a) && j in a && Valid()
      modifies this`nodes, this`index
      ensures IndexList(Without(a, j), |xs|) && Increasing(Without(a, j))
      ensures nodes == Project(xs, Without(a, j)) && Valid()
    {
      var e := xs[j];
      ghost var at :| 0 <= at < |a| && a[at] == j;
      assert nodes[at] == e;
      var k := IndexOf(e);
      assert a[k] == j by {
        assert xs[a[k]] == e && ix[xs[a[k]]] == a[k];
      }
      forall m | 0 <= m < k ensures a[m] != j {
        assert nodes[m] != e;
      }
      WithoutAt(a, j, k);
      WithoutSpec(a, j);
      ProjectRemove(xs, a, k);
      Detach(k);
    }

    /** The dead entity at position `j` of `xs` is terminated and dropped. */
    method RemoveDead(xs: seq<Entity>, ghost ix: map<Entity, nat>, ghost st: seq<EntityState>, ghost a: seq<nat>, j: nat)
      requires Numbered(xs, ix) && j < |xs| && |st| == |xs| && EntityStates(xs) == st
      requires IndexList(a, |xs|) && Increasing(a) && nodes == Project(xs, a) && j in a
      requires Valid() && Fathers(xs)
      modifies this`nodes, this`index, xs[j]
      ensures EntityStates(xs) == st[j := Terminated(st[j])] && Fathers(xs)
      ensures IndexList(Without(a, j), |xs|) && Increasing(Without(a, j))
      ensures nodes == Project(xs, Without(a, j)) && Valid()
    {
      EntityStatesIndex(xs);
      xs[j].Terminate();
      EntityStatesUpdate(xs, st, j);
      Drop(xs, ix, a, j);
    }

    /** The stage and the entities `xs` are in the state the sweep `w`
        describes: the entity states, the kill counter, the live list and
        the list of updated entities all agree with it. */
    ghost predicate Tracks(xs: seq<Entity>, ix: map<Entity, nat>, w: Sweep, updated: seq<Entity>)
      reads this, xs
    {
      |w.st| == |xs| && EntityStates(xs) == w.st && killed == w.killed
      && IndexList(w.alive, |xs|) && Increasing(w.alive) && nodes == Project(xs, w.alive)
      && IndexList(w.updated, |xs|) && updated == Project(xs, w.updated)
      && Valid() && Fathers(xs) && Numbered(xs, ix)
    }

    /** One turn of `Update` on entity `j` of `xs`, the list when the pass
        began; `updated` grows by the entity if its hook runs. */
    method VisitEntry(xs: seq<Entity>, ghost ix: map<Entity, nat>, hooks: seq<seq<nat>>, j: nat, ghost w: Sweep,
                      updated: seq<Entity>)
        returns (updated': seq<Entity>)
      requires HooksFit(hooks, |xs|) && j < |xs| && j in w.alive
      requires Tracks(xs, ix, w, updated)
      modifies this`killed, this`nodes, this`index, xs
      ensures Tracks(xs, ix, Visit(w, j, hooks), updated')
    {
      EntityStatesIndex(xs);
      updated' := updated;
      if xs[j].enabled {
        ProjectAppend(xs, w.updated, j);
        updated' := updated + [xs[j]];
        RunHook(xs, ix, hooks[j], w.st);
      } else if xs[j].killed {
        RemoveDead(xs, ix, w.st, w.alive, j);
      }
    }

    /** A turn removes at most the entity whose turn it is. */
    static lemma VisitKeeps(w: Sweep, j: nat, hooks: seq<seq<nat>>)
      requires j < |w.st| && HooksFit(hooks, |w.st|) && Increasing(w.alive)
      ensures forall y :: y in w.alive && y != j ==> y in Visit(w, j, hooks).alive
    {
      if Dies(w.st[j]) {
        WithoutSpec(w.alive, j);
      }
    }

    /** The turns of one update pass over `xs`, the list when it began,
        with states `st0` and snapshot `snap`. */
    method RunPass(xs: seq<Entity>, ghost ix: map<Entity, nat>, hooks: seq<seq<nat>>, snap: seq<nat>, ghost st0: seq<EntityState>)
        returns (updated: seq<Entity>, ghost w: Sweep)
      requires Valid() && nodes == xs && ix == index && EntityStates(xs) == st0
      requires HooksFit(hooks, |xs|) && Fathers(xs) && snap == Snapshot(st0)
      modifies this`killed, this`nodes, this`index, xs
      ensures w == SweepAt(st0, old(killed), hooks, |snap|)
      ensures Tracks(xs, ix, w, updated)
    {
      updated := [];
      SnapshotFits(st0);
      ProjectPositions(xs);
      w := SweepAt(st0, killed, hooks, 0);
      forall m | 0 <= m < |snap| ensures snap[m] in w.alive {
        assert w.alive[snap[m]] == snap[m];
      }
      for i := 0 to |snap|
        invariant w == SweepAt(st0, old(killed), hooks, i)
        invariant Tracks(xs, ix, w, updated)
        invariant forall m :: i <= m < |snap| ==> snap[m] in w.alive
      {
        updated, w := Turn(xs, ix, hooks, snap, st0, old(killed), i, w, updated);
      }
    }

    /** Turn `i` of the pass: the entry `snap[i]` is visited. */
    method Turn(xs: seq<Entity>, ghost ix: map<Entity, nat>, hooks: seq<seq<nat>>, snap: seq<nat>,
                ghost st0: seq<EntityState>, ghost killed0: int, i: nat, ghost w: Sweep, updated: seq<Entity>)
        returns (updated': seq<Entity>, ghost w': Sweep)
      requires HooksFit(hooks, |st0|) && snap == Snapshot(st0) && i < |snap|
      requires w == SweepAt(st0, killed0, hooks, i) && Tracks(xs, ix, w, updated)
      requires forall m :: i <= m < |snap| ==> snap[m] in w.alive
      modifies this`killed, this`nodes, this`index, xs
      ensures w' == SweepAt(st0, killed0, hooks, i + 1) && Tracks(xs, ix, w', updated')
      ensures forall m :: i + 1 <= m < |snap| ==> snap[m] in w'.alive
    {
      SnapshotFits(st0);
      var j := snap[i];
      updated' := VisitEntry(xs, ix, hooks, j, w, updated);
      w' := Visit(w, j, hooks);
      VisitKeeps(w, j, hooks);
      SweepStep(st0, killed0, hooks, i + 1);
    }

    /** `Update`: when the stage is enabled, visits the snapshot of the
        enabled or dead entities in descending `Priority`, running the
        hook of each enabled one (`hooks[j]` are the positions the hook of
        the entity at position `j` kills) and terminating and removing each
        dead one, then resets the kill counter. Returns the entities whose
        hook ran, in order. */
    method Update(hooks: seq<seq<nat>>) returns (updated: seq<Entity>)
      requires Valid() && HooksFit(hooks, |nodes|) && Fathers(nodes)
      modifies this`killed, this`nodes, this`index, nodes
      ensures Valid()
      ensures !old(enabled) ==>
        nodes == old(nodes) && States() == old(States()) && killed == old(killed) && updated == []
      ensures old(enabled) ==> IndexList(UpdatePass(old(States()), old(killed), hooks).alive, |old(nodes)|)
      ensures old(enabled) ==> IndexList(UpdatePass(old(States()), old(killed), hooks).updated, |old(nodes)|)
      ensures old(enabled) ==> EntityStates(old(nodes)) == UpdatePass(old(States()), old(killed), hooks).st
      ensures old(enabled) ==> nodes == Project(old(nodes), UpdatePass(old(States()), old(killed), hooks).alive)
      ensures old(enabled) ==> killed == UpdatePass(old(States()), old(killed), hooks).killed
      ensures old(enabled) ==> updated == Project(old(nodes), UpdatePass(old(States()), old(killed), hooks).updated)
    {
      updated := [];
      if !enabled {
        return;
      }
      var xs := nodes;
      var st0 := States();
      ghost var w;
      updated, w := RunPass(xs, index, hooks, Snapshot(st0), st0);
      ghost var u := UpdatePass(st0, old(killed), hooks);
      assert u.st == w.st && u.alive == w.alive && u.updated == w.updated;
      if killed > 0 {
        killed := 0;
      }
      assert killed == u.killed;
    }
  }
}
