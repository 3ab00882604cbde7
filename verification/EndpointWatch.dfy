/**
 * Two watch goroutines keep the endpoint table: each writes its own store without a lock and then recomputes
 * under endpointReloadMu, reading both stores while the other may still be writing (controller.go).
 */
module EndpointWatch {
  import opened Outcomes
  import opened KeyEncoding
  import opened EndpointIndex

  datatype Work = Service(ns: string, svc: string) | Everything

  /** `torn` are the hosts the other goroutine wrote to since the computation began. */
  datatype Watcher = Idle | Relisting | Owes(work: Work) | Computing(work: Work, torn: set<string>)

  datatype World = World(st: Stores, routes: Routes, slicer: Watcher, fallback: Watcher)

  datatype Step =
    | SliceEvent(k: Key, event: Slice, stored: bool)
    | LegacyEvent(k: Key, legacy: Legacy, stored: bool)
    | Relist(slices: bool)                               // the watch ended and the list call succeeded
    | RelistSlice(k: Key, listed: Option<Slice>)         // one store write of the slice relist
    | RelistLegacy(k: Key, listedLegacy: Option<Legacy>)
    | RelistDone(slices: bool)
    | Begin(slices: bool)
    | Commit(slices: bool, next: Routes)

  function Put<V>(m: map<Key, V>, k: Key, v: Option<V>): map<Key, V> {
    if v.Some? then m[k := v.value] else m - {k}
  }

  function Of(w: World, slices: bool): Watcher {
    if slices then w.slicer else w.fallback
  }

  function With(w: World, slices: bool, watcher: Watcher): World {
    if slices then w.(slicer := watcher) else w.(fallback := watcher)
  }

  predicate Covers(watcher: Watcher, host: string) {
    match watcher
    case Idle => false
    case Relisting => true
    case Owes(work) => work.Everything? || BuildHost(work.ns, work.svc) == host
    case Computing(work, _) => work.Everything? || BuildHost(work.ns, work.svc) == host
  }

  predicate Pending(w: World, host: string) {
    Covers(w.slicer, host) || Covers(w.fallback, host)
  }

  function Tear(watcher: Watcher, hosts: set<string>): Watcher {
    if watcher.Computing? then watcher.(torn := watcher.torn + hosts) else watcher
  }

  function HostsOf(k: Key, s: Option<Slice>): set<string> {
    if s.Some? && s.value.svc != "" then {BuildHost(k.ns, s.value.svc)} else {}
  }

  function At<V>(m: map<Key, V>, k: Key): Option<V> {
    if k in m then Some(m[k]) else None
  }

  /**
   * What a recompute may leave in the table: the value of the current stores for what it covers, and
   * anything at all for a host that was written to under it.
   */
  ghost predicate MayCommit(w: World, c: Watcher, next: Routes)
    requires c.Computing?
  {
    match c.work
    case Everything => forall h | h !in c.torn :: Resolve(next, h) == Target(w.st, h)
    case Service(ns, svc) =>
      var host := BuildHost(ns, svc);
      && (forall h | h != host :: Resolve(next, h) == Resolve(w.routes, h))
      && (host !in c.torn ==> Resolve(next, host) == Aggregate(w.st, ns, svc))
  }

  ghost predicate Enabled(w: World, step: Step) {
    match step
    case SliceEvent(k, event, _) =>
      w.slicer.Idle? && Free(k.ns, '.') && (k in w.st.slices ==> w.st.slices[k].svc == event.svc)
    case LegacyEvent(k, _, _) => w.fallback.Idle? && Free(k.ns, '.') && k.name != ""
    case Relist(slices) => Of(w, slices).Idle?
    case RelistSlice(k, _) => w.slicer.Relisting? && Free(k.ns, '.')
    case RelistLegacy(k, _) => w.fallback.Relisting? && Free(k.ns, '.') && k.name != ""
    case RelistDone(slices) => Of(w, slices).Relisting?
    case Begin(slices) => Of(w, slices).Owes? && !Of(w, !slices).Computing?
    case Commit(slices, next) => Of(w, slices).Computing? && MayCommit(w, Of(w, slices), next)
  }

  ghost function Exec(w: World, step: Step): World
    requires Enabled(w, step)
  {
    match step
    case SliceEvent(k, event, stored) =>
      World(w.st.(slices := Put(w.st.slices, k, if stored then Some(event) else None)), w.routes,
            if event.svc == "" then Idle else Owes(Service(k.ns, event.svc)),
            Tear(w.fallback, HostsOf(k, Some(event))))
    case LegacyEvent(k, legacy, stored) =>
      World(w.st.(legacy := Put(w.st.legacy, k, if stored then Some(legacy) else None)), w.routes,
            Tear(w.slicer, {BuildHost(k.ns, k.name)}), Owes(Service(k.ns, k.name)))
    case Relist(slices) => With(w, slices, Relisting)
    case RelistSlice(k, listed) =>
      w.(st := w.st.(slices := Put(w.st.slices, k, listed)),
         fallback := Tear(w.fallback, HostsOf(k, At(w.st.slices, k)) + HostsOf(k, listed)))
    case RelistLegacy(k, listed) =>
      w.(st := w.st.(legacy := Put(w.st.legacy, k, listed)), slicer := Tear(w.slicer, {BuildHost(k.ns, k.name)}))
    case RelistDone(slices) => With(w, slices, Owes(Everything))
    case Begin(slices) => With(w, slices, Computing(Of(w, slices).work, {}))
    case Commit(slices, next) => With(w.(routes := next), slices, Idle)
  }

  const Boot := World(Stores(map[], map[]), map[], Idle, Idle)

  ghost predicate Legal(steps: seq<Step>)
    decreases |steps|, 0
  {
    steps == [] ||
    var n := |steps| - 1;
    Legal(steps[..n]) && Enabled(Run(steps[..n]), steps[n])
  }

  ghost function Run(steps: seq<Step>): World
    requires Legal(steps)
    decreases |steps|, 1
  {
    if steps == [] then Boot else Exec(Run(steps[..|steps| - 1]), steps[|steps| - 1])
  }

  predicate WorkInv(watcher: Watcher) {
    (watcher.Owes? || watcher.Computing?) && watcher.work.Service? ==>
      Free(watcher.work.ns, '.') && watcher.work.svc != ""
  }

  /** A host torn under a computation is owed again by the watcher that wrote it. */
  ghost predicate TornIsOwed(c: Watcher, other: Watcher) {
    c.Computing? ==> !other.Computing? && forall h | h in c.torn :: Covers(other, h)
  }

  ghost predicate Settled(w: World) {
    forall h | !Pending(w, h) :: Resolve(w.routes, h) == Target(w.st, h)
  }

  ghost predicate Inv(w: World) {
    && DotFree(w.st) && WorkInv(w.slicer) && WorkInv(w.fallback)
    && TornIsOwed(w.slicer, w.fallback) && TornIsOwed(w.fallback, w.slicer)
    && Settled(w)
  }

  lemma PutSlice(st: Stores, k: Key, s: Option<Slice>, host: string)
    requires host !in HostsOf(k, At(st.slices, k)) && host !in HostsOf(k, s)
    ensures Target(st.(slices := Put(st.slices, k, s)), host) == Target(st, host)
  {
    var st' := st.(slices := Put(st.slices, k, s));
    assert st'.slices - {k} == st.slices - {k};
    RelabelTouchesTwo(st, st', k, host);
  }

  lemma PutLegacy(st: Stores, k: Key, l: Option<Legacy>, host: string)
    requires host != BuildHost(k.ns, k.name)
    ensures Target(st.(legacy := Put(st.legacy, k, l)), host) == Target(st, host)
  {
    var st' := st.(legacy := Put(st.legacy, k, l));
    assert st'.legacy - {k} == st.legacy - {k};
    LegacyWriteTouchesOne(st, st', k, host);
  }

  lemma WriteKeepsInv(w: World, step: Step)
    requires Inv(w) && Enabled(w, step)
    requires step.SliceEvent? || step.LegacyEvent? || step.RelistSlice? || step.RelistLegacy?
    ensures Inv(Exec(w, step))
  {
    var w' := Exec(w, step);
    forall h | !Pending(w', h) ensures Resolve(w'.routes, h) == Target(w'.st, h) {
      match step
      case SliceEvent(k, event, stored) => PutSlice(w.st, k, if stored then Some(event) else None, h);
      case LegacyEvent(k, legacy, stored) => PutLegacy(w.st, k, if stored then Some(legacy) else None, h);
      case RelistSlice(k, listed) =>
      case RelistLegacy(k, listed) =>
    }
  }

  lemma CommitKeepsInv(w: World, slices: bool, next: Routes)
    requires Inv(w) && Enabled(w, Commit(slices, next))
    ensures Inv(Exec(w, Commit(slices, next)))
  {
    var c, w' := Of(w, slices), Exec(w, Commit(slices, next));
    forall h | !Pending(w', h) ensures Resolve(next, h) == Target(w.st, h) {
      assert h !in c.torn;
      if c.work.Service? && BuildHost(c.work.ns, c.work.svc) == h {
        AggregateIsTarget(w.st, c.work.ns, c.work.svc);
      }
    }
  }

  lemma StepKeepsInv(w: World, step: Step)
    requires Inv(w) && Enabled(w, step)
    ensures Inv(Exec(w, step))
  {
    match step
    case Commit(slices, next) => CommitKeepsInv(w, slices, next);
    case Relist(_) => assert forall h :: Pending(w, h) ==> Pending(Exec(w, step), h);
    case RelistDone(slices) => assert forall h :: Pending(Exec(w, step), h);
    case Begin(_) => assert forall h :: Pending(w, h) <==> Pending(Exec(w, step), h);
    case _ => WriteKeepsInv(w, step);
  }

  /**
   * Incremental equals rebuild: in every interleaving of store writes, relists and locked recomputes of the
   * two watchers, every host with no recompute pending resolves to exactly what a full rebuild of the
   * current stores would give it, or is absent when that is nothing.
   */
  lemma {:induction false} IncrementalEqualsRebuild(steps: seq<Step>)
    requires Legal(steps)
    ensures Inv(Run(steps))
    ensures forall h | !Pending(Run(steps), h) :: Resolve(Run(steps).routes, h) == Target(Run(steps).st, h)
  {
    if steps == [] {
      forall h ensures Resolve(Boot.routes, h) == Target(Boot.st, h) {}
    } else {
      var n := |steps| - 1;
      IncrementalEqualsRebuild(steps[..n]);
      StepKeepsInv(Run(steps[..n]), steps[n]);
    }
  }

  // Relabelled slices.

  /** Another slice keeps the service, and this one had no address; or it was alone, and the fallback says the same. */
  ghost predicate Harmless(st: Stores, k: Key)
    requires k in st.slices
  {
    var s := st.slices[k];
    if Shared(st.slices, k) then ReadyIPs(s) == []
    else multiset(ReadyIPs(s)) ==
         if Key(k.ns, s.svc) in st.legacy then multiset(LegacyIPs(st.legacy[Key(k.ns, s.svc)])) else multiset{}
  }

  lemma SumsAfterRelabel(a: map<Key, Slice>, k: Key, t: Slice)
    requires k in a && t.svc != a[k].svc
    ensures var rest := Sum(ServiceShare(a, k.ns, a[k].svc), a.Keys - {k});
            && Sum(ServiceShare(a, k.ns, a[k].svc), a.Keys) == multiset(ReadyIPs(a[k])) + rest
            && Sum(ServiceShare(a[k := t], k.ns, a[k].svc), a[k := t].Keys) == rest
  {
    var b := a[k := t];
    var share, moved := ServiceShare(a, k.ns, a[k].svc), ServiceShare(b, k.ns, a[k].svc);
    assert b.Keys == a.Keys;
    SumSplits(share, a.Keys, k);
    SumSplits(moved, a.Keys, k);
    SumAgrees(share, moved, a.Keys - {k});
    assert moved(k) == multiset{};
    assert multiset{} + Sum(share, a.Keys - {k}) == Sum(share, a.Keys - {k});
  }

  ghost predicate Shared(slices: map<Key, Slice>, k: Key)
    requires k in slices
  {
    exists j :: j != k && OwnedBy(slices, j, k.ns, slices[k].svc)
  }

  /** The old host's target after its slice has moved to another service. */
  lemma OldHostAfterRelabel(st: Stores, k: Key, t: Slice)
    requires k in st.slices && t.svc != st.slices[k].svc
    ensures var st' := st.(slices := st.slices[k := t]);
            Aggregate(st', k.ns, st.slices[k].svc) == Aggregate(st, k.ns, st.slices[k].svc) <==> Harmless(st, k)
  {
    var a := st.slices;
    assert OwnedBy(a, k, k.ns, a[k].svc);
    SumsAfterRelabel(a, k, t);
    if Shared(a, k) {
      var j :| j != k && OwnedBy(a, j, k.ns, a[k].svc);
      assert OwnedBy(a[k := t], j, k.ns, a[k].svc);
      MovedIffEmpty(ReadyIPs(a[k]), Sum(ServiceShare(a, k.ns, a[k].svc), a.Keys - {k}));
    } else {
      LastSliceLeaves(st, k, t);
    }
  }

  lemma LastSliceLeaves(st: Stores, k: Key, t: Slice)
    requires k in st.slices && t.svc != st.slices[k].svc && !Shared(st.slices, k)
    ensures var ns, svc := k.ns, st.slices[k].svc;
            && Aggregate(st, ns, svc) == multiset(ReadyIPs(st.slices[k]))
            && Aggregate(st.(slices := st.slices[k := t]), ns, svc) ==
               if Key(ns, svc) in st.legacy then multiset(LegacyIPs(st.legacy[Key(ns, svc)])) else multiset{}
  {
    var ns, a, b := k.ns, st.slices, st.slices[k := t];
    var svc := a[k].svc;
    assert OwnedBy(a, k, ns, svc);
    forall j ensures !OwnedBy(b, j, ns, svc) {
      assert j != k ==> (OwnedBy(b, j, ns, svc) <==> OwnedBy(a, j, ns, svc));
    }
    SumOfOne(ServiceShare(a, ns, svc), a.Keys, k);
  }

  lemma MovedIffEmpty(ips: seq<string>, rest: multiset<string>)
    ensures multiset(ips) + rest == rest <==> ips == []
  {
    assert |multiset(ips) + rest| == |ips| + |rest|;
  }

  /**
   * Why the label must not change: if a slice moves to another service (or loses its label) and only the new
   * one is recomputed, the table equals the rebuild everywhere exactly when the move was harmless to the old.
   */
  lemma RelabelIsSettledIff(st: Stores, k: Key, t: Slice, routes: Routes, next: Routes)
    requires DotFree(st) && k in st.slices && st.slices[k].svc != "" && t.svc != st.slices[k].svc
    requires forall h :: Resolve(routes, h) == Target(st, h)
    requires var st' := st.(slices := st.slices[k := t]);
             forall h :: Resolve(next, h) ==
                         if h in HostsOf(k, Some(t)) then Target(st', h) else Resolve(routes, h)
    ensures var st' := st.(slices := st.slices[k := t]);
            (forall h :: Resolve(next, h) == Target(st', h)) <==> Harmless(st, k)
  {
    var st' := st.(slices := st.slices[k := t]);
    var svc := st.slices[k].svc;
    var former := BuildHost(k.ns, svc);
    if former in HostsOf(k, Some(t)) {
      BuildHostIsInjective(Key(k.ns, t.svc), Key(k.ns, svc));
      assert false;
    }
    OldHostAfterRelabel(st, k, t);
    AggregateIsTarget(st, k.ns, svc);
    AggregateIsTarget(st', k.ns, svc);
    forall h | h != former && h !in HostsOf(k, Some(t)) ensures Target(st', h) == Target(st, h) {
      PutSlice(st, k, Some(t), h);
    }
    SettledIffFormer(st, st', routes, next, HostsOf(k, Some(t)), former);
  }

  lemma SettledIffFormer(st: Stores, st': Stores, routes: Routes, next: Routes, hosts: set<string>, former: string)
    requires former !in hosts
    requires forall h :: Resolve(routes, h) == Target(st, h)
    requires forall h :: Resolve(next, h) == if h in hosts then Target(st', h) else Resolve(routes, h)
    requires forall h | h != former && h !in hosts :: Target(st', h) == Target(st, h)
    ensures (forall h :: Resolve(next, h) == Target(st', h)) <==> Target(st', former) == Target(st, former)
  {
    assert Resolve(next, former) == Resolve(routes, former);
    forall h | h != former ensures Resolve(next, h) == Target(st', h) {
      assert h !in hosts ==> Target(st', h) == Target(st, h);
    }
  }
}
