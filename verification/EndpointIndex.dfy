/** The host to pod-IP table, rebuilt in full or one host at a time (controller.go, route/table.go). */
module EndpointIndex {
  import opened Outcomes
  import opened KeyEncoding

  /** A namespace and a name. */
  datatype Key = Key(ns: string, name: string)

  /** A nil Ready condition is None. */
  datatype Endpoint = Endpoint(ready: Option<bool>, addresses: seq<string>)

  /** `svc` is the service-name label, "" if there is none. */
  datatype Slice = Slice(svc: string, fqdn: bool, endpoints: seq<Endpoint>)

  /** A legacy Endpoints object: the ready addresses of each subset. */
  datatype Legacy = Legacy(subsets: seq<seq<string>>)

  datatype Stores = Stores(slices: map<Key, Slice>, legacy: map<Key, Legacy>)

  const CLUSTER_SUFFIX := ".svc.cluster.local"

  function BuildHost(ns: string, name: string): string {
    name + "." + ns + CLUSTER_SUFFIX
  }

  /** Hosts of different services differ, because namespaces have no dots; with dots they may meet. */
  lemma BuildHostIsInjective(a: Key, b: Key)
    requires Free(a.ns, '.') && Free(b.ns, '.') && BuildHost(a.ns, a.name) == BuildHost(b.ns, b.name)
    ensures a == b
    ensures BuildHost("y.z", "x") == BuildHost("z", "x.y")
  {
    var ha, hb := BuildHost(a.ns, a.name), BuildHost(b.ns, b.name);
    var n := |ha| - |CLUSTER_SUFFIX|;
    assert a.name + "." + a.ns == ha[..n] && b.name + "." + b.ns == hb[..n];
    LastSplit(a.name, a.ns, b.name, b.ns, '.');
  }

  function ReadyAddresses(e: Endpoint): seq<string> {
    if e.ready == Some(false) then [] else e.addresses
  }

  function ReadyOf(endpoints: seq<Endpoint>): seq<string> {
    if endpoints == [] then [] else ReadyOf(endpoints[..|endpoints| - 1]) + ReadyAddresses(endpoints[|endpoints| - 1])
  }

  function ReadyIPs(s: Slice): seq<string> {
    if s.fqdn then [] else ReadyOf(s.endpoints)
  }

  function Flatten(subsets: seq<seq<string>>): seq<string> {
    if subsets == [] then [] else Flatten(subsets[..|subsets| - 1]) + subsets[|subsets| - 1]
  }

  function LegacyIPs(l: Legacy): seq<string> {
    Flatten(l.subsets)
  }

  /** The sum of the shares of some objects, in whatever order they are visited. */
  ghost function Sum(share: Key -> multiset<string>, keys: set<Key>): multiset<string> {
    if keys == {} then multiset{}
    else
      var k :| k in keys;
      share(k) + Sum(share, keys - {k})
  }

  lemma {:induction false} SumSplits(share: Key -> multiset<string>, keys: set<Key>, k: Key)
    requires k in keys
    ensures Sum(share, keys) == share(k) + Sum(share, keys - {k})
    decreases |keys|
  {
    var j :| j in keys && Sum(share, keys) == share(j) + Sum(share, keys - {j});
    if j != k {
      SumSplits(share, keys - {j}, k);
      SumSplits(share, keys - {k}, j);
      assert keys - {j} - {k} == keys - {k} - {j};
    }
  }

  lemma {:induction false} SumAgrees(share: Key -> multiset<string>, other: Key -> multiset<string>, keys: set<Key>)
    requires forall k | k in keys :: share(k) == other(k)
    ensures Sum(share, keys) == Sum(other, keys)
    decreases |keys|
  {
    if k :| k in keys {
      SumSplits(share, keys, k);
      SumSplits(other, keys, k);
      SumAgrees(share, other, keys - {k});
    }
  }

  lemma {:induction false} SumOfNothing(share: Key -> multiset<string>, keys: set<Key>)
    requires forall k | k in keys :: share(k) == multiset{}
    ensures Sum(share, keys) == multiset{}
    decreases |keys|
  {
    if k :| k in keys {
      SumSplits(share, keys, k);
      SumOfNothing(share, keys - {k});
    }
  }

  lemma SumOfOne(share: Key -> multiset<string>, keys: set<Key>, one: Key)
    requires forall k | k in keys && k != one :: share(k) == multiset{}
    ensures Sum(share, keys) == if one in keys then share(one) else multiset{}
  {
    SumOfNothing(share, keys - {one});
    if one in keys {
      SumSplits(share, keys, one);
    } else {
      assert keys - {one} == keys;
    }
  }

  // What a host should resolve to.

  predicate Owns(slices: map<Key, Slice>, k: Key, host: string) {
    k in slices && slices[k].svc != "" && BuildHost(k.ns, slices[k].svc) == host
  }

  function SliceShare(slices: map<Key, Slice>, host: string): Key -> multiset<string> {
    k => if Owns(slices, k, host) then multiset(ReadyIPs(slices[k])) else multiset{}
  }

  function LegacyShare(legacy: map<Key, Legacy>, host: string): Key -> multiset<string> {
    k => if k in legacy && BuildHost(k.ns, k.name) == host then multiset(LegacyIPs(legacy[k])) else multiset{}
  }

  ghost predicate SliceManaged(slices: map<Key, Slice>, host: string) {
    exists k :: Owns(slices, k, host)
  }

  /** The addresses a full rebuild gives a host; none means the host is absent. */
  ghost function Target(st: Stores, host: string): multiset<string> {
    if SliceManaged(st.slices, host) then Sum(SliceShare(st.slices, host), st.slices.Keys)
    else Sum(LegacyShare(st.legacy, host), st.legacy.Keys)
  }

  predicate OwnedBy(slices: map<Key, Slice>, k: Key, ns: string, svc: string) {
    k in slices && k.ns == ns && slices[k].svc == svc
  }

  function ServiceShare(slices: map<Key, Slice>, ns: string, svc: string): Key -> multiset<string> {
    k => if OwnedBy(slices, k, ns, svc) then multiset(ReadyIPs(slices[k])) else multiset{}
  }

  /** The addresses of one service: its slices if it has any, else its legacy object. */
  ghost function Aggregate(st: Stores, ns: string, svc: string): multiset<string> {
    if exists k :: OwnedBy(st.slices, k, ns, svc) then Sum(ServiceShare(st.slices, ns, svc), st.slices.Keys)
    else if Key(ns, svc) in st.legacy then multiset(LegacyIPs(st.legacy[Key(ns, svc)]))
    else multiset{}
  }

  /** Endpoints one by one, in order: only those marked unready are left out. */
  lemma OneMoreEndpoint(init: seq<Endpoint>, e: Endpoint)
    ensures ReadyOf([]) == []
    ensures ReadyOf(init + [e]) == if e.ready == Some(false) then ReadyOf(init) else ReadyOf(init) + e.addresses
  {
    assert (init + [e])[..|init|] == init && ReadyOf(init) + [] == ReadyOf(init);
  }

  lemma OneMoreSubset(init: seq<seq<string>>, addresses: seq<string>)
    ensures Flatten([]) == [] && Flatten(init + [addresses]) == Flatten(init) + addresses
  {
    assert (init + [addresses])[..|init|] == init;
  }

  predicate Answers(e: Endpoint, ip: string) {
    e.ready != Some(false) && ip in e.addresses
  }

  lemma {:induction false} ReadyMember(endpoints: seq<Endpoint>, ip: string)
    ensures ip in ReadyOf(endpoints) <==> exists i | 0 <= i < |endpoints| :: Answers(endpoints[i], ip)
  {
    if endpoints != [] {
      var n := |endpoints| - 1;
      ReadyMember(endpoints[..n], ip);
      assert forall i | 0 <= i < n :: endpoints[..n][i] == endpoints[i];
      if Answers(endpoints[n], ip) {
        assert ip in ReadyOf(endpoints);
      }
    }
  }

  lemma {:induction false} SubsetMember(subsets: seq<seq<string>>, ip: string)
    ensures ip in Flatten(subsets) <==> exists i | 0 <= i < |subsets| :: ip in subsets[i]
  {
    if subsets != [] {
      var n := |subsets| - 1;
      SubsetMember(subsets[..n], ip);
      assert forall i | 0 <= i < n :: subsets[..n][i] == subsets[i];
      assert ip in Flatten(subsets) <==> ip in Flatten(subsets[..n]) || ip in subsets[n];
    }
  }

  lemma {:induction false} SumMember(share: Key -> multiset<string>, keys: set<Key>, ip: string)
    ensures ip in Sum(share, keys) <==> exists k | k in keys :: ip in share(k)
    decreases |keys|
  {
    if k :| k in keys {
      SumSplits(share, keys, k);
      SumMember(share, keys - {k}, ip);
    }
  }

  /** The slice belongs to a service whose host this is. */
  predicate Backs(st: Stores, k: Key, host: string) {
    k in st.slices && st.slices[k].svc != "" && host == st.slices[k].svc + "." + k.ns + ".svc.cluster.local"
  }

  predicate SliceAnswers(st: Stores, k: Key, ip: string)
    requires k in st.slices
  {
    !st.slices[k].fqdn && exists i | 0 <= i < |st.slices[k].endpoints| :: Answers(st.slices[k].endpoints[i], ip)
  }

  predicate LegacyAnswers(st: Stores, k: Key, host: string, ip: string) {
    && k in st.legacy && host == k.name + "." + k.ns + ".svc.cluster.local"
    && exists i | 0 <= i < |st.legacy[k].subsets| :: ip in st.legacy[k].subsets[i]
  }

  lemma SliceHostResolves(st: Stores, host: string, ip: string)
    ensures ip in Sum(SliceShare(st.slices, host), st.slices.Keys) <==>
            exists k :: Backs(st, k, host) && SliceAnswers(st, k, ip)
  {
    SumMember(SliceShare(st.slices, host), st.slices.Keys, ip);
    forall k | k in st.slices
      ensures ip in SliceShare(st.slices, host)(k) <==> Backs(st, k, host) && SliceAnswers(st, k, ip)
    {
      ReadyMember(st.slices[k].endpoints, ip);
    }
  }

  lemma LegacyHostResolves(st: Stores, host: string, ip: string)
    ensures ip in Sum(LegacyShare(st.legacy, host), st.legacy.Keys) <==> exists k :: LegacyAnswers(st, k, host, ip)
  {
    SumMember(LegacyShare(st.legacy, host), st.legacy.Keys, ip);
    forall k | k in st.legacy ensures ip in LegacyShare(st.legacy, host)(k) <==> LegacyAnswers(st, k, host, ip) {
      SubsetMember(st.legacy[k].subsets, ip);
    }
  }

  /**
   * Exactly which addresses a host resolves to: those of endpoints not marked unready in the address slices of its
   * service; or, if it has no slice at all, those of the legacy objects named after it.
   */
  lemma HostResolvesIff(st: Stores, host: string, ip: string)
    ensures ip in Target(st, host) <==>
            if exists k :: Backs(st, k, host) then exists k :: Backs(st, k, host) && SliceAnswers(st, k, ip)
            else exists k :: LegacyAnswers(st, k, host, ip)
  {
    forall k ensures Backs(st, k, host) <==> Owns(st.slices, k, host) {}
    if SliceManaged(st.slices, host) {
      SliceHostResolves(st, host, ip);
    } else {
      LegacyHostResolves(st, host, ip);
    }
  }

  /** Namespaces have no dots. */
  predicate DotFree(st: Stores) {
    (forall k | k in st.slices :: Free(k.ns, '.')) && (forall k | k in st.legacy :: Free(k.ns, '.'))
  }

  /** Recomputing one service gives what a full rebuild gives its host. */
  lemma AggregateIsTarget(st: Stores, ns: string, svc: string)
    requires DotFree(st) && Free(ns, '.') && svc != ""
    ensures Aggregate(st, ns, svc) == Target(st, BuildHost(ns, svc))
  {
    SliceAggregate(st, ns, svc);
    LegacyAggregate(st, ns, svc);
  }

  lemma SliceAggregate(st: Stores, ns: string, svc: string)
    requires DotFree(st) && Free(ns, '.') && svc != ""
    ensures SliceManaged(st.slices, BuildHost(ns, svc)) <==> exists k :: OwnedBy(st.slices, k, ns, svc)
    ensures Sum(ServiceShare(st.slices, ns, svc), st.slices.Keys) ==
            Sum(SliceShare(st.slices, BuildHost(ns, svc)), st.slices.Keys)
  {
    var host := BuildHost(ns, svc);
    forall k | k in st.slices ensures OwnedBy(st.slices, k, ns, svc) <==> Owns(st.slices, k, host) {
      if Owns(st.slices, k, host) {
        BuildHostIsInjective(Key(k.ns, st.slices[k].svc), Key(ns, svc));
      }
    }
    SumAgrees(ServiceShare(st.slices, ns, svc), SliceShare(st.slices, host), st.slices.Keys);
    assert SliceManaged(st.slices, host) <==> exists k :: OwnedBy(st.slices, k, ns, svc) by {
      if k :| Owns(st.slices, k, host) {
        assert OwnedBy(st.slices, k, ns, svc);
      }
      if k :| OwnedBy(st.slices, k, ns, svc) {
        assert Owns(st.slices, k, host);
      }
    }
  }

  lemma LegacyAggregate(st: Stores, ns: string, svc: string)
    requires DotFree(st) && Free(ns, '.')
    ensures Sum(LegacyShare(st.legacy, BuildHost(ns, svc)), st.legacy.Keys) ==
            if Key(ns, svc) in st.legacy then multiset(LegacyIPs(st.legacy[Key(ns, svc)])) else multiset{}
  {
    var host := BuildHost(ns, svc);
    forall k | k in st.legacy.Keys && k != Key(ns, svc) ensures LegacyShare(st.legacy, host)(k) == multiset{} {
      if BuildHost(k.ns, k.name) == host {
        BuildHostIsInjective(k, Key(ns, svc));
      }
    }
    SumOfOne(LegacyShare(st.legacy, host), st.legacy.Keys, Key(ns, svc));
  }

  type Routes = map<string, seq<string>>

  function Resolve(routes: Routes, host: string): multiset<string> {
    if host in routes then multiset(routes[host]) else multiset{}
  }

  /** No host is present with an empty list. */
  predicate Populated(routes: Routes) {
    forall h | h in routes :: routes[h] != []
  }

  class Controller {
    var slices: map<Key, Slice>
    var legacy: map<Key, Legacy>
    var routes: Routes

    ghost function View(): Stores
      reads this
    {
      Stores(slices, legacy)
    }

    constructor ()
      ensures View() == Stores(map[], map[]) && routes == map[]
    {
      slices, legacy, routes := map[], map[], map[];
    }

    method SetHostRoutes(routes: Routes)
      modifies this`routes
      ensures this.routes == routes
    {
      this.routes := routes;
    }

    /** No addresses delete the host. */
    method SetHostRoute(host: string, ips: seq<string>)
      modifies this`routes
      ensures Resolve(routes, host) == multiset(ips)
      ensures forall h | h != host :: Resolve(routes, h) == old(Resolve(routes, h))
      ensures old(Populated(routes)) ==> Populated(routes)
    {
      if |ips| > 0 {
        routes := routes[host := ips];
      } else {
        routes := routes - {host};
      }
    }

    /** The stores are visited in no particular order. */
    method AggregateServiceIPs(ns: string, svc: string) returns (ips: seq<string>)
      ensures multiset(ips) == Aggregate(View(), ns, svc)
    {
      ips := [];
      var sliceExists := false;
      ghost var share := ServiceShare(slices, ns, svc);
      var todo := slices.Keys;
      while todo != {}
        invariant todo <= slices.Keys
        invariant multiset(ips) + Sum(share, todo) == Sum(share, slices.Keys)
        invariant sliceExists <==> exists k :: k !in todo && OwnedBy(slices, k, ns, svc)
        decreases |todo|
      {
        var k :| k in todo;
        SumSplits(share, todo, k);
        if k.ns == ns && slices[k].svc == svc {
          assert OwnedBy(slices, k, ns, svc);
          sliceExists := true;
          ips := ips + ReadyIPs(slices[k]);
        }
        todo := todo - {k};
      }
      if !sliceExists {
        SumOfNothing(share, slices.Keys);
        if Key(ns, svc) in legacy {
          ips := ips + LegacyIPs(legacy[Key(ns, svc)]);
        }
      }
    }

    /** One host recomputed from the stores; every other host keeps its route. */
    method ReloadHost(ns: string, svc: string)
      requires DotFree(View()) && Free(ns, '.') && svc != ""
      modifies this`routes
      ensures Resolve(routes, BuildHost(ns, svc)) == Target(View(), BuildHost(ns, svc))
      ensures forall h | h != BuildHost(ns, svc) :: Resolve(routes, h) == old(Resolve(routes, h))
      ensures old(Populated(routes)) ==> Populated(routes)
    {
      var ips := AggregateServiceIPs(ns, svc);
      AggregateIsTarget(View(), ns, svc);
      SetHostRoute(BuildHost(ns, svc), ips);
    }

    /** An Added, Modified (Some) or Deleted (None) event of a slice; `event` is the event's own object. */
    method OnSlice(k: Key, event: Slice, stored: bool)
      requires DotFree(View()) && Free(k.ns, '.')
      requires k in slices ==> slices[k].svc == event.svc
      requires forall h :: Resolve(routes, h) == Target(View(), h)
      modifies this
      ensures View() == Stores(if stored then old(slices)[k := event] else old(slices) - {k}, old(legacy))
      ensures forall h :: Resolve(routes, h) == Target(View(), h)
      ensures old(Populated(routes)) ==> Populated(routes)
    {
      ghost var before := View();
      if stored {
        slices := slices[k := event];
      } else {
        slices := slices - {k};
      }
      EventIsSliceWrite(before, View(), k, event, stored);
      OthersKeepTarget(before, View(), k, event.svc);
      if event.svc != "" {
        ReloadHost(k.ns, event.svc);
      }
    }

    /** The same for a legacy Endpoints object, which is named after its service. */
    method OnEndpoints(k: Key, event: Legacy, stored: bool)
      requires DotFree(View()) && Free(k.ns, '.') && k.name != ""
      requires forall h :: Resolve(routes, h) == Target(View(), h)
      modifies this
      ensures View() == Stores(old(slices), if stored then old(legacy)[k := event] else old(legacy) - {k})
      ensures forall h :: Resolve(routes, h) == Target(View(), h)
      ensures old(Populated(routes)) ==> Populated(routes)
    {
      ghost var before := View();
      if stored {
        legacy := legacy[k := event];
      } else {
        legacy := legacy - {k};
      }
      forall h | BuildHost(k.ns, k.name) != h ensures Target(View(), h) == Target(before, h) {
        LegacyWriteTouchesOne(before, View(), k, h);
      }
      ReloadHost(k.ns, k.name);
    }

    /** The full rebuild; it needs no assumption on names, as it works by host throughout. */
    method ReloadAll()
      modifies this`routes
      ensures forall h :: Resolve(routes, h) == Target(View(), h)
      ensures Populated(routes)
    {
      var collected, sliceHosts := CollectSlices(slices);
      var built := CollectLegacy(legacy, collected, sliceHosts);
      GatheredIsTarget(View(), collected, built, sliceHosts);
      var pruned := Prune(built);
      SetHostRoutes(pruned);
    }
  }

  method CollectSlices(slices: map<Key, Slice>) returns (built: Routes, sliceHosts: set<string>)
    ensures forall h :: h in sliceHosts <==> SliceManaged(slices, h)
    ensures SlicesGathered(slices, built, {})
  {
    built, sliceHosts := map[], {};
    var todo := slices.Keys;
    while todo != {}
      invariant todo <= slices.Keys
      invariant forall h :: h in sliceHosts <==> exists k :: k !in todo && Owns(slices, k, h)
      invariant SlicesGathered(slices, built, todo)
      decreases |todo|
    {
      var k :| k in todo;
      var before := built;
      if slices[k].svc != "" {
        var host := BuildHost(k.ns, slices[k].svc);
        assert Owns(slices, k, host);
        sliceHosts := sliceHosts + {host};
        built := Append(built, host, ReadyIPs(slices[k]));
      }
      SliceStep(slices, before, built, todo, k);
      todo := todo - {k};
    }
  }

  /** Slices win: a slice-managed host takes nothing from its legacy object. */
  method AddLegacy(legacy: map<Key, Legacy>, built: Routes, sliceHosts: set<string>, k: Key) returns (more: Routes)
    requires k in legacy
    ensures forall h :: Resolve(more, h) ==
                        Resolve(built, h) + if h in sliceHosts then multiset{} else LegacyShare(legacy, h)(k)
  {
    var host := BuildHost(k.ns, k.name);
    more := built;
    if host !in sliceHosts {
      more := Append(built, host, LegacyIPs(legacy[k]));
    }
  }

  method CollectLegacy(legacy: map<Key, Legacy>, collected: Routes, sliceHosts: set<string>) returns (built: Routes)
    ensures forall h | h in sliceHosts :: Resolve(built, h) == Resolve(collected, h)
    ensures LegacyGathered(legacy, collected, built, {}, sliceHosts)
  {
    built := collected;
    var todo := legacy.Keys;
    while todo != {}
      invariant todo <= legacy.Keys
      invariant forall h | h in sliceHosts :: Resolve(built, h) == Resolve(collected, h)
      invariant LegacyGathered(legacy, collected, built, todo, sliceHosts)
      decreases |todo|
    {
      var k :| k in todo;
      var before := built;
      built := AddLegacy(legacy, built, sliceHosts, k);
      LegacyStep(legacy, collected, before, built, todo, sliceHosts, k);
      todo := todo - {k};
    }
  }

  method Prune(built: Routes) returns (pruned: Routes)
    ensures Populated(pruned) && forall h :: Resolve(pruned, h) == Resolve(built, h)
  {
    pruned := built;
    var todo := built.Keys;
    while todo != {}
      invariant forall h :: Resolve(pruned, h) == Resolve(built, h)
      invariant forall h | h in pruned && h !in todo :: pruned[h] != []
      decreases |todo|
    {
      var h :| h in todo;
      todo := todo - {h};
      if h in pruned && |pruned[h]| == 0 {
        pruned := pruned - {h};
      }
    }
  }

  method Append(built: Routes, host: string, ips: seq<string>) returns (more: Routes)
    ensures forall h :: Resolve(more, h) == Resolve(built, h) + if h == host then multiset(ips) else multiset{}
  {
    var lb := if host in built then built[host] else [];
    more := built[host := lb + ips];
  }

  /** Every host has the shares of all slices but those still to be visited. */
  ghost predicate SlicesGathered(slices: map<Key, Slice>, built: Routes, todo: set<Key>) {
    forall h :: Resolve(built, h) + Sum(SliceShare(slices, h), todo) == Sum(SliceShare(slices, h), slices.Keys)
  }

  lemma SliceStep(slices: map<Key, Slice>, built: Routes, more: Routes, todo: set<Key>, k: Key)
    requires k in todo && SlicesGathered(slices, built, todo)
    requires forall h :: Resolve(more, h) == Resolve(built, h) + SliceShare(slices, h)(k)
    ensures SlicesGathered(slices, more, todo - {k})
  {
    forall h
      ensures Resolve(more, h) + Sum(SliceShare(slices, h), todo - {k}) == Sum(SliceShare(slices, h), slices.Keys)
    {
      SumSplits(SliceShare(slices, h), todo, k);
    }
  }

  /** Every host that is not slice-managed has, on top of what was collected, the shares of visited objects. */
  ghost predicate LegacyGathered(legacy: map<Key, Legacy>, collected: Routes, built: Routes, todo: set<Key>,
                                 sliceHosts: set<string>)
  {
    forall h | h !in sliceHosts ::
      Resolve(built, h) + Sum(LegacyShare(legacy, h), todo) ==
      Resolve(collected, h) + Sum(LegacyShare(legacy, h), legacy.Keys)
  }

  lemma LegacyStep(legacy: map<Key, Legacy>, collected: Routes, built: Routes, more: Routes, todo: set<Key>,
                   sliceHosts: set<string>, k: Key)
    requires k in todo && LegacyGathered(legacy, collected, built, todo, sliceHosts)
    requires forall h | h !in sliceHosts :: Resolve(more, h) == Resolve(built, h) + LegacyShare(legacy, h)(k)
    ensures LegacyGathered(legacy, collected, more, todo - {k}, sliceHosts)
  {
    forall h | h !in sliceHosts
      ensures Resolve(more, h) + Sum(LegacyShare(legacy, h), todo - {k}) ==
              Resolve(collected, h) + Sum(LegacyShare(legacy, h), legacy.Keys)
    {
      SumSplits(LegacyShare(legacy, h), todo, k);
    }
  }

  lemma NothingAdded(a: multiset<string>)
    ensures a + multiset{} == a && multiset{} + a == a
  {
  }

  /** A slice-managed host has the shares of its slices, any other those of its legacy object. */
  lemma HostIsGathered(st: Stores, collected: Routes, built: Routes, sliceHosts: set<string>, host: string)
    requires host in sliceHosts <==> SliceManaged(st.slices, host)
    requires SlicesGathered(st.slices, collected, {}) && LegacyGathered(st.legacy, collected, built, {}, sliceHosts)
    requires host in sliceHosts ==> Resolve(built, host) == Resolve(collected, host)
    ensures Resolve(built, host) == Target(st, host)
  {
    var slices, legacy := SliceShare(st.slices, host), LegacyShare(st.legacy, host);
    NothingAdded(Resolve(collected, host));
    assert Resolve(collected, host) + Sum(slices, {}) == Sum(slices, st.slices.Keys);
    if host !in sliceHosts {
      SumOfNothing(slices, st.slices.Keys);
      NothingAdded(Resolve(built, host));
      NothingAdded(Sum(legacy, st.legacy.Keys));
      assert Resolve(built, host) + Sum(legacy, {}) == Resolve(collected, host) + Sum(legacy, st.legacy.Keys);
    }
  }

  /** Slices first, the legacy fallback for hosts without any: together, the target of every host. */
  lemma GatheredIsTarget(st: Stores, collected: Routes, built: Routes, sliceHosts: set<string>)
    requires forall h :: h in sliceHosts <==> SliceManaged(st.slices, h)
    requires SlicesGathered(st.slices, collected, {}) && LegacyGathered(st.legacy, collected, built, {}, sliceHosts)
    requires forall h | h in sliceHosts :: Resolve(built, h) == Resolve(collected, h)
    ensures forall h :: Resolve(built, h) == Target(st, h)
  {
    forall h ensures Resolve(built, h) == Target(st, h) {
      HostIsGathered(st, collected, built, sliceHosts, h);
    }
  }

  // One write touches one host.

  /** Two slice stores that differ at one key only, where the label is `svc` wherever the key is present. */
  ghost predicate SliceWrite(st: Stores, st': Stores, k: Key, svc: string) {
    && st'.legacy == st.legacy
    && st'.slices - {k} == st.slices - {k}
    && (k in st.slices ==> st.slices[k].svc == svc) && (k in st'.slices ==> st'.slices[k].svc == svc)
  }

  lemma SameRest(a: map<Key, Slice>, b: map<Key, Slice>, k: Key, j: Key)
    requires a - {k} == b - {k} && j != k
    ensures (j in a <==> j in b) && (j in a ==> a[j] == b[j])
  {
    assert j in a <==> j in a - {k};
    assert j in b <==> j in b - {k};
  }

  /** A share that is empty at k sums the same over two stores that differ only at k. */
  lemma SumIgnores(share: Key -> multiset<string>, other: Key -> multiset<string>, a: set<Key>, b: set<Key>, k: Key)
    requires a - {k} == b - {k} && share(k) == multiset{} && other(k) == multiset{}
    requires forall j | j in a && j != k :: share(j) == other(j)
    ensures Sum(share, a) == Sum(other, b)
  {
    if k in a {
      SumSplits(share, a, k);
    } else {
      assert a - {k} == a;
    }
    if k in b {
      SumSplits(other, b, k);
    } else {
      assert b - {k} == b;
    }
    SumAgrees(share, other, a - {k});
  }

  /** Two slice stores that differ at one key only give every host of neither label the same target. */
  lemma RelabelTouchesTwo(st: Stores, st': Stores, k: Key, host: string)
    requires st'.legacy == st.legacy && st'.slices - {k} == st.slices - {k}
    requires !Owns(st.slices, k, host) && !Owns(st'.slices, k, host)
    ensures Target(st', host) == Target(st, host)
  {
    var a, b := st.slices, st'.slices;
    forall j ensures Owns(a, j, host) <==> Owns(b, j, host) {
      if j != k {
        SameRest(a, b, k, j);
      }
    }
    assert SliceManaged(a, host) <==> SliceManaged(b, host);
    forall j | j in a.Keys && j != k ensures SliceShare(a, host)(j) == SliceShare(b, host)(j) {
      SameRest(a, b, k, j);
    }
    assert a.Keys - {k} == (a - {k}).Keys && b.Keys - {k} == (b - {k}).Keys;
    SumIgnores(SliceShare(a, host), SliceShare(b, host), a.Keys, b.Keys, k);
  }

  lemma SliceWriteTouchesOne(st: Stores, st': Stores, k: Key, svc: string, host: string)
    requires SliceWrite(st, st', k, svc) && !(svc != "" && BuildHost(k.ns, svc) == host)
    ensures Target(st', host) == Target(st, host)
  {
    RelabelTouchesTwo(st, st', k, host);
  }

  lemma EventIsSliceWrite(st: Stores, st': Stores, k: Key, event: Slice, stored: bool)
    requires st' == st.(slices := if stored then st.slices[k := event] else st.slices - {k})
    requires k in st.slices ==> st.slices[k].svc == event.svc
    ensures SliceWrite(st, st', k, event.svc)
  {
    assert st'.slices - {k} == st.slices - {k};
  }

  lemma OthersKeepTarget(st: Stores, st': Stores, k: Key, svc: string)
    requires SliceWrite(st, st', k, svc)
    ensures forall h | !(svc != "" && BuildHost(k.ns, svc) == h) :: Target(st', h) == Target(st, h)
  {
    forall h | !(svc != "" && BuildHost(k.ns, svc) == h) ensures Target(st', h) == Target(st, h) {
      SliceWriteTouchesOne(st, st', k, svc, h);
    }
  }

  ghost predicate LegacyWrite(st: Stores, st': Stores, k: Key) {
    st'.slices == st.slices && st'.legacy - {k} == st.legacy - {k}
  }

  lemma LegacyWriteTouchesOne(st: Stores, st': Stores, k: Key, host: string)
    requires LegacyWrite(st, st', k) && BuildHost(k.ns, k.name) != host
    ensures Target(st', host) == Target(st, host)
  {
    forall j | j in st.legacy.Keys && j != k
      ensures LegacyShare(st.legacy, host)(j) == LegacyShare(st'.legacy, host)(j)
    {
      assert j in st.legacy - {k} && j in st'.legacy - {k};
    }
    assert st.legacy.Keys - {k} == (st.legacy - {k}).Keys && st'.legacy.Keys - {k} == (st'.legacy - {k}).Keys;
    SumIgnores(LegacyShare(st.legacy, host), LegacyShare(st'.legacy, host), st.legacy.Keys, st'.legacy.Keys, k);
  }
}
