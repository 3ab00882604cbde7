/** Gathering labelled ConfigMaps into document lists whose order does not depend on the visit (controller_waf.go). */
module ConfigMaps {
  import opened Fingerprint

  datatype Key = Key(ns: string, name: string)

  datatype Role = GlobalRole | ZoneRole | NoRole

  datatype ConfigMap = ConfigMap(role: Role, otherFeature: bool, data: map<string, Doc>)

  /** Byte-wise string order. */
  predicate Less(a: string, b: string) {
    b != "" && (a == "" || a[0] < b[0] || (a[0] == b[0] && Less(a[1..], b[1..])))
  }

  lemma {:induction false} LessIsStrict(a: string, b: string)
    ensures !(Less(a, b) && Less(b, a)) && (a == b ==> !Less(a, b)) && (a != b ==> Less(a, b) || Less(b, a))
  {
    if a != "" && b != "" {
      LessIsStrict(a[1..], b[1..]);
      assert a == [a[0]] + a[1..] && b == [b[0]] + b[1..];
    }
  }

  lemma {:induction false} LessIsTransitive(a: string, b: string, c: string)
    requires Less(a, b) && Less(b, c)
    ensures Less(a, c)
  {
    if a != "" {
      if a[0] == b[0] && b[0] == c[0] {
        LessIsTransitive(a[1..], b[1..], c[1..]);
      }
    }
  }

  /** Sorting strings: any strictly ascending arrangement of the same strings is the same list. */
  predicate Ascending(s: seq<string>) {
    forall i, j | 0 <= i < j < |s| :: Less(s[i], s[j])
  }

  lemma {:induction false} AscendingIsUnique(a: seq<string>, b: seq<string>)
    requires Ascending(a) && Ascending(b) && (forall x :: x in a <==> x in b)
    ensures a == b
  {
    assert b != [] ==> b[0] in b;
    if a != [] {
      assert a[0] in a && a[0] in b;
      FirstIsLeast(a, b);
      FirstIsLeast(b, a);
      LessIsStrict(a[0], b[0]);
      forall x ensures x in a[1..] <==> x in b[1..] {
        TailMembers(a, x);
        TailMembers(b, x);
      }
      AscendingIsUnique(a[1..], b[1..]);
      assert a == [a[0]] + a[1..] && b == [b[0]] + b[1..];
    }
  }

  lemma FirstIsLeast(a: seq<string>, b: seq<string>)
    requires a != [] && b != [] && Ascending(a) && b[0] in a
    ensures a[0] == b[0] || Less(a[0], b[0])
  {
  }

  lemma TailMembers(a: seq<string>, x: string)
    requires a != [] && Ascending(a)
    ensures x in a[1..] <==> x in a && x != a[0]
  {
    assert a == [a[0]] + a[1..];
    if i :| 0 <= i < |a[1..]| && a[1..][i] == x {
      assert Less(a[0], a[i + 1]);
      LessIsStrict(a[0], x);
    }
  }

  function Insert(s: seq<string>, x: string): seq<string> {
    if s == [] || Less(x, s[0]) then [x] + s else [s[0]] + Insert(s[1..], x)
  }

  lemma {:induction false} InsertKeepsOrder(s: seq<string>, x: string)
    requires Ascending(s) && x !in s
    ensures Ascending(Insert(s, x)) && forall y :: y in Insert(s, x) <==> y in s || y == x
  {
    if s == [] {
    } else if Less(x, s[0]) {
      forall i | 0 <= i < |s| ensures Less(x, s[i]) {
        if i > 0 {
          LessIsTransitive(x, s[0], s[i]);
        }
      }
    } else {
      LessIsStrict(x, s[0]);
      InsertKeepsOrder(s[1..], x);
      var rest := Insert(s[1..], x);
      assert s == [s[0]] + s[1..];
      forall i | 0 <= i < |rest| ensures Less(s[0], rest[i]) {
        assert rest[i] in rest;
      }
    }
  }

  /** The strictly ascending list of a set of strings. */
  ghost function Sorted(keys: set<string>): (s: seq<string>)
    ensures Ascending(s) && forall x :: x in s <==> x in keys
  {
    if keys == {} then []
    else
      var x :| x in keys;
      InsertKeepsOrder(Sorted(keys - {x}), x);
      Insert(Sorted(keys - {x}), x)
  }

  /** Visits the set in no particular order, then sorts. */
  method SortKeys(keys: set<string>) returns (s: seq<string>)
    ensures s == Sorted(keys)
  {
    s := [];
    var todo := keys;
    while todo != {}
      invariant todo <= keys && Ascending(s) && forall x :: x in s <==> x in keys - todo
      decreases |todo|
    {
      var x :| x in todo;
      InsertKeepsOrder(s, x);
      s := Insert(s, x);
      todo := todo - {x};
    }
    AscendingIsUnique(s, Sorted(keys));
  }

  function Select(data: map<string, Doc>, keys: seq<string>): seq<Doc>
    requires forall x | x in keys :: x in data
  {
    if keys == [] then [] else Select(data, keys[..|keys| - 1]) + [data[keys[|keys| - 1]]]
  }

  ghost function SortedData(data: map<string, Doc>): seq<Doc> {
    Select(data, Sorted(data.Keys))
  }

  method SortedDataValues(data: map<string, Doc>) returns (docs: seq<Doc>)
    ensures docs == SortedData(data)
  {
    var keys := SortKeys(data.Keys);
    docs := [];
    for i := 0 to |keys|
      invariant docs == Select(data, keys[..i])
    {
      assert keys[..i + 1][..i] == keys[..i];
      docs := docs + [data[keys[i]]];
    }
    assert keys[..|keys|] == keys;
  }

  lemma {:induction false} SelectAt(data: map<string, Doc>, keys: seq<string>, i: nat)
    requires (forall x | x in keys :: x in data) && i < |keys|
    ensures |Select(data, keys)| == |keys| && Select(data, keys)[i] == data[keys[i]]
  {
    var n := |keys| - 1;
    if i < n {
      SelectAt(data, keys[..n], i);
    } else if n > 0 {
      SelectAt(data, keys[..n], 0);
    }
  }

  /** The documents of one map: one for each key, the i-th that of the i-th key in byte order. */
  lemma SortedDataAt(data: map<string, Doc>, keys: seq<string>, i: nat)
    requires Ascending(keys) && (forall x :: x in keys <==> x in data) && i < |keys|
    ensures |SortedData(data)| == |keys| && SortedData(data)[i] == data[keys[i]]
  {
    AscendingIsUnique(keys, Sorted(data.Keys));
    SelectAt(data, keys, i);
  }

  type Store = map<Key, ConfigMap>

  /** Global maps count only from the controller's own namespace; a map of two features counts for none. */
  predicate IsGlobal(store: Store, podNs: string, k: Key) {
    k in store && store[k].role.GlobalRole? && !store[k].otherFeature && k.ns == podNs
  }

  predicate IsZone(store: Store, k: Key) {
    k in store && store[k].role.ZoneRole? && !store[k].otherFeature
  }

  ghost function GlobalNames(store: Store, podNs: string): set<string> {
    set k | k in store && IsGlobal(store, podNs, k) :: k.name
  }

  ghost function DocsOfNames(store: Store, podNs: string, names: seq<string>): seq<Doc>
    requires forall x | x in names :: Key(podNs, x) in store
  {
    if names == [] then []
    else DocsOfNames(store, podNs, names[..|names| - 1]) + SortedData(store[Key(podNs, names[|names| - 1])].data)
  }

  /** The documents of the global maps, by name; they all live in one namespace. */
  ghost function GlobalDocs(store: Store, podNs: string): seq<Doc> {
    DocsOfNames(store, podNs, Sorted(GlobalNames(store, podNs)))
  }

  function Flat(docs: seq<seq<Doc>>): seq<Doc> {
    if docs == [] then [] else Flat(docs[..|docs| - 1]) + docs[|docs| - 1]
  }

  lemma {:induction false} DocsAreFlat(store: Store, podNs: string, names: seq<string>, docs: seq<seq<Doc>>)
    requires (forall i | 0 <= i < |names| :: Key(podNs, names[i]) in store) && |docs| == |names|
    requires forall i | 0 <= i < |names| :: docs[i] == SortedData(store[Key(podNs, names[i])].data)
    ensures DocsOfNames(store, podNs, names) == Flat(docs)
  {
    if names != [] {
      var n := |names| - 1;
      assert forall i | 0 <= i < n :: names[..n][i] == names[i] && docs[..n][i] == docs[i];
      DocsAreFlat(store, podNs, names[..n], docs[..n]);
    }
  }

  lemma GlobalNameIff(store: Store, podNs: string, x: string)
    ensures x in GlobalNames(store, podNs) <==> IsGlobal(store, podNs, Key(podNs, x))
  {
    if k :| k in store && IsGlobal(store, podNs, k) && k.name == x {
      assert k == Key(podNs, x);
    }
  }

  /**
   * The global documents: those of each map of the controller's own namespace that is labelled global and nothing
   * else, map after map in the byte order of their names.
   */
  lemma GlobalDocsAre(store: Store, podNs: string, names: seq<string>, docs: seq<seq<Doc>>)
    requires Ascending(names) && |docs| == |names|
    requires forall x :: x in names <==>
               Key(podNs, x) in store && store[Key(podNs, x)].role == GlobalRole && !store[Key(podNs, x)].otherFeature
    requires forall i | 0 <= i < |names| ::
               names[i] in names && docs[i] == SortedData(store[Key(podNs, names[i])].data)
    ensures GlobalDocs(store, podNs) == Flat(docs)
  {
    forall x ensures x in Sorted(GlobalNames(store, podNs)) <==> x in names {
      GlobalNameIff(store, podNs, x);
    }
    AscendingIsUnique(Sorted(GlobalNames(store, podNs)), names);
    DocsAreFlat(store, podNs, names, docs);
  }

  datatype Gathered = Gathered(globals: set<string>, zones: map<Key, seq<Doc>>)

  ghost predicate GatheredFrom(store: Store, podNs: string, seen: set<Key>, g: Gathered) {
    && g.globals == (set k | k in seen && IsGlobal(store, podNs, k) :: k.name)
    && (forall k :: k in g.zones <==> k in seen && IsZone(store, k))
    && (forall k | k in g.zones :: k in store && g.zones[k] == SortedData(store[k].data))
  }

  /** One pass over the store, in no particular order. */
  method Visit(store: Store, podNs: string) returns (g: Gathered)
    ensures GatheredFrom(store, podNs, store.Keys, g)
  {
    g := Gathered({}, map[]);
    var todo, seen := store.Keys, {};
    while todo != {}
      invariant todo <= store.Keys && seen == store.Keys - todo
      invariant GatheredFrom(store, podNs, seen, g)
      decreases |todo|
    {
      var k :| k in todo;
      var docs := SortedDataValues(store[k].data);
      ghost var before := g;
      if IsGlobal(store, podNs, k) {
        g := g.(globals := g.globals + {k.name});
      } else if IsZone(store, k) {
        g := g.(zones := g.zones[k := docs]);
      }
      VisitStep(store, podNs, seen, before, k, docs);
      todo, seen := todo - {k}, seen + {k};
    }
    assert seen == store.Keys;
  }

  lemma VisitStep(store: Store, podNs: string, seen: set<Key>, g: Gathered, k: Key, docs: seq<Doc>)
    requires k in store && docs == SortedData(store[k].data) && GatheredFrom(store, podNs, seen, g)
    ensures GatheredFrom(store, podNs, seen + {k},
                         if IsGlobal(store, podNs, k) then g.(globals := g.globals + {k.name})
                         else if IsZone(store, k) then g.(zones := g.zones[k := docs]) else g)
  {
    assert (set j | j in seen + {k} && IsGlobal(store, podNs, j) :: j.name) ==
           (set j | j in seen && IsGlobal(store, podNs, j) :: j.name)
           + if IsGlobal(store, podNs, k) then {k.name} else {};
  }

  /** Whatever order the store is visited in, the global documents and each zone's documents come out the same. */
  method Gather(store: Store, podNs: string) returns (globalDocs: seq<Doc>, zones: map<Key, seq<Doc>>)
    ensures globalDocs == GlobalDocs(store, podNs)
    ensures forall k :: k in zones <==> k in store && store[k].role == ZoneRole && !store[k].otherFeature
    ensures forall k | k in zones :: k in store && zones[k] == SortedData(store[k].data)
  {
    var g := Visit(store, podNs);
    assert g.globals == GlobalNames(store, podNs);
    var names := SortKeys(g.globals);
    globalDocs := Concat(store, podNs, names);
    zones := g.zones;
  }

  method Concat(store: Store, podNs: string, names: seq<string>) returns (docs: seq<Doc>)
    requires forall x | x in names :: Key(podNs, x) in store
    ensures docs == DocsOfNames(store, podNs, names)
  {
    docs := [];
    for i := 0 to |names|
      invariant docs == DocsOfNames(store, podNs, names[..i])
    {
      assert names[..i + 1][..i] == names[..i];
      assert names[i] in names;
      var more := SortedDataValues(store[Key(podNs, names[i])].data);
      docs := docs + more;
    }
    assert names[..|names|] == names;
  }
}
