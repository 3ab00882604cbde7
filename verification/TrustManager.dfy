/** The core's edge-CA trust: forward-only apply, restart floor and verification memo (trust/trust.go). */
module TrustManager {
  import opened Outcomes
  import opened Certificates

  const VERIFY_CACHE_CAP: nat := 4096
  const SECOND: nat := 1_000_000_000

  /** Whether a leaf chains to a pool by way of the intermediates presented with it; time plays no part. */
  type Chains = (seq<Cert>, Cert, seq<Cert>) -> bool

  datatype Bundle = Bundle(gen: nat, caId: CaId, pem: PemData)

  /** The cache record; writtenAt is in Unix seconds. */
  datatype Entry = Entry(gen: nat, caId: CaId, pem: PemData, writtenAt: nat)

  datatype CacheFile = Missing | Unreadable | Cached(entry: Entry)

  datatype Trust = Trust(
    pool: Option<seq<Cert>>, gen: nat, caId: Option<CaId>, floor: nat, lastGood: Option<Entry>)

  datatype Verdict = Applied | ParseRejected | EmptyRejected | FloorRejected | Unchanged | RollbackRejected

  datatype Fetch = Failed | NotModified | Fetched(bundle: Bundle)

  function Judge(t: Trust, b: Bundle): Verdict {
    var certs := Certs(Blocks(b.pem));
    if certs.None? then ParseRejected
    else if certs.value == [] then EmptyRejected
    else if b.gen < t.floor then FloorRejected
    else if t.gen != 0 && b.gen == t.gen then Unchanged
    else if t.gen != 0 && b.gen < t.gen then RollbackRejected
    else Applied
  }

  /** A bundle with at least one certificate, none of them broken. */
  predicate WellFormed(b: Bundle) {
    Certs(Blocks(b.pem)).Some? && Certs(Blocks(b.pem)).value != []
  }

  /** At or above the restart floor, and above the live generation, of which 0 is none. */
  predicate IsNews(t: Trust, b: Bundle) {
    t.floor <= b.gen && (t.gen == 0 || t.gen < b.gen)
  }

  function Swapped(t: Trust, b: Bundle): Trust {
    if Judge(t, b).Applied? then t.(pool := Certs(Blocks(b.pem)), gen := b.gen, caId := Some(b.caId)) else t
  }

  predicate Loads(file: CacheFile, now: nat, maxStale: int) {
    && file.Cached? && file.entry.gen != 0
    && (maxStale > 0 ==> now - file.entry.writtenAt * SECOND <= maxStale)
  }

  function WarmStarted(file: CacheFile, now: nat, maxStale: int): Trust {
    if Loads(file, now, maxStale) then Trust(None, 0, None, file.entry.gen, Some(file.entry))
    else Trust(None, 0, None, 0, None)
  }

  function Written(t: Trust, file: CacheFile, now: nat, saved: bool): CacheFile {
    if t.lastGood.Some? && saved then Cached(t.lastGood.value.(writtenAt := now / SECOND)) else file
  }

  function Polled(t: Trust, file: CacheFile, fetch: Fetch, now: nat, saved: bool): (Trust, CacheFile) {
    match fetch
    case Failed => (t, file)
    case NotModified => (t, Written(t, file, now, saved))
    case Fetched(b) =>
      match Judge(t, b)
      case Applied =>
        var t' := Swapped(t, b).(lastGood := Some(Entry(b.gen, b.caId, b.pem, 0)));
        (t', Written(t', file, now, saved))
      case Unchanged => (t, Written(t, file, now, saved))
      case _ => (t, file)
  }

  datatype Memo = Memo(gen: nat, known: set<Cert>)

  /** `evicted` is the entry a full memo drops, whichever the map iteration meets first. */
  function Verified(chains: Chains, t: Trust, memo: Memo, peers: seq<Cert>, evicted: Cert): (bool, Memo) {
    if peers == [] || t.pool.None? then (false, memo)
    else if memo.gen == t.gen && peers[0] in memo.known then (true, memo)
    else if !chains(t.pool.value, peers[0], peers[1..]) then (false, memo)
    else
      var known := if memo.gen != t.gen then {} else memo.known;
      var room := if |known| >= VERIFY_CACHE_CAP then known - {evicted} else known;
      (true, Memo(t.gen, room + {peers[0]}))
  }

  class Manager {
    const chains: Chains
    const cachePath: bool
    var pool: Option<seq<Cert>>
    var gen: nat
    var caId: Option<CaId>
    var floor: nat
    var lastGood: Option<Entry>
    var verifyGen: nat
    var verifyCache: set<Cert>
    var file: CacheFile

    ghost function View(): Trust
      reads this
    {
      Trust(pool, gen, caId, floor, lastGood)
    }

    ghost function MemoView(): Memo
      reads this
    {
      Memo(verifyGen, verifyCache)
    }

    /** A process start: an empty manager, then EnableWarmStart over the file the last process left. */
    constructor (chains: Chains, cachePath: bool, file: CacheFile, now: nat, maxStale: int)
      ensures this.chains == chains && this.cachePath == cachePath && this.file == file
      ensures View() == WarmStarted(if cachePath then file else Missing, now, maxStale)
      ensures MemoView() == Memo(0, {})
      ensures pool == None && gen == 0 && caId == None
      ensures if cachePath && file.Cached? && (maxStale <= 0 || now <= file.entry.writtenAt * SECOND + maxStale)
              then floor == file.entry.gen && lastGood == (if floor == 0 then None else Some(file.entry))
              else floor == 0 && lastGood == None
    {
      this.chains, this.cachePath, this.file := chains, cachePath, file;
      pool, gen, caId, floor, lastGood := None, 0, None, 0, None;
      verifyGen, verifyCache := 0, {};
      if cachePath && file.Cached? && file.entry.gen != 0 {
        if !(maxStale > 0 && now - file.entry.writtenAt * SECOND > maxStale) {
          floor := file.entry.gen;
          lastGood := Some(file.entry);
        }
      }
    }

    method Apply(b: Bundle) returns (v: Verdict)
      modifies this`pool, this`gen, this`caId
      ensures v == old(Judge(View(), b)) && View() == old(Swapped(View(), b))
      ensures v == Applied <==> WellFormed(b) && IsNews(old(View()), b)
      ensures View() == if WellFormed(b) && IsNews(old(View()), b)
                        then old(View()).(pool := Certs(Blocks(b.pem)), gen := b.gen, caId := Some(b.caId))
                        else old(View())
    {
      var certs := SplitCertBundle(b.pem);
      if certs.None? {
        return ParseRejected;
      }
      if |certs.value| == 0 {
        return EmptyRejected;
      }
      if b.gen < floor {
        return FloorRejected;
      }
      if gen != 0 && b.gen == gen {
        return Unchanged;
      }
      if gen != 0 && b.gen < gen {
        return RollbackRejected;
      }
      pool, gen, caId := certs, b.gen, Some(b.caId);
      return Applied;
    }

    /** Best effort: a write that fails leaves the old file, as the rename comes last. */
    method WriteCache(e: Entry, now: nat, writes: bool)
      modifies this`file
      ensures file == if cachePath && writes then Cached(e.(writtenAt := now / SECOND)) else old(file)
    {
      if cachePath && writes {
        file := Cached(e.(writtenAt := now / SECOND));
      }
    }

    /** One turn of Run's loop. */
    method Poll(fetch: Fetch, now: nat, writes: bool)
      modifies this`pool, this`gen, this`caId, this`lastGood, this`file
      ensures (View(), file) == old(Polled(View(), file, fetch, now, cachePath && writes))
    {
      match fetch {
        case Failed =>
        case NotModified =>
          if lastGood.Some? {
            WriteCache(lastGood.value, now, writes);
          }
        case Fetched(b) =>
          var v := Apply(b);
          if v == Unchanged {
            if lastGood.Some? {
              WriteCache(lastGood.value, now, writes);
            }
          } else if v == Applied {
            lastGood := Some(Entry(b.gen, b.caId, b.pem, 0));
            WriteCache(lastGood.value, now, writes);
          }
      }
    }

    method VerifyClientCert(peers: seq<Cert>) returns (ok: bool, ghost evicted: Cert)
      modifies this`verifyGen, this`verifyCache
      ensures old(|verifyCache| >= VERIFY_CACHE_CAP) ==> evicted in old(verifyCache)
      ensures (ok, MemoView()) == old(Verified(chains, View(), MemoView(), peers, evicted))
    {
      evicted := Cert(0, 0);
      if |verifyCache| >= VERIFY_CACHE_CAP {
        assert verifyCache != {};
        evicted :| evicted in verifyCache;
      }
      if peers == [] || pool.None? {
        return false, evicted;
      }
      if verifyGen == gen && peers[0] in verifyCache {
        return true, evicted;
      }
      if !chains(pool.value, peers[0], peers[1..]) {
        return false, evicted;
      }
      if verifyGen != gen {
        verifyGen, verifyCache := gen, {};
      }
      if |verifyCache| >= VERIFY_CACHE_CAP {
        var victim :| victim in verifyCache;
        evicted := victim;
        verifyCache := verifyCache - {victim};
      }
      verifyCache := verifyCache + {peers[0]};
      return true, evicted;
    }
  }

  // Generations within and across restarts.

  /** A core process and its cache file; `persisted` is the greatest generation the file ever held. */
  datatype World = World(trust: Trust, file: CacheFile, persisted: nat)

  datatype Event =
    | Poll(fetch: Fetch, now: nat, saved: bool)
    | Restart(now: nat, maxStale: int)
    | Damage(file: CacheFile)   // the file is lost or corrupted from outside

  function Max(a: nat, b: nat): nat {
    if a < b then b else a
  }

  function Held(file: CacheFile): nat {
    if file.Cached? then file.entry.gen else 0
  }

  function Exec(w: World, e: Event): World {
    match e
    case Poll(fetch, now, saved) =>
      var (t, file) := Polled(w.trust, w.file, fetch, now, saved);
      World(t, file, Max(w.persisted, Held(file)))
    case Restart(now, maxStale) => w.(trust := WarmStarted(w.file, now, maxStale))
    case Damage(file) => w.(file := if file.Cached? then w.file else file)
  }

  function Run(w: World, events: seq<Event>): World {
    if events == [] then w else Exec(Run(w, events[..|events| - 1]), events[|events| - 1])
  }

  function FirstBoot(file: CacheFile, now: nat, maxStale: int): World {
    World(WarmStarted(file, now, maxStale), file, Held(file))
  }

  /** The file is readable and recent enough to become the floor, or there is nothing to protect yet. */
  predicate FloorKept(w: World, e: Event) {
    e.Restart? ==> w.persisted == 0 || Loads(w.file, e.now, e.maxStale)
  }

  ghost predicate FloorsKept(w: World, events: seq<Event>) {
    forall i | 0 <= i < |events| :: FloorKept(Run(w, events[..i]), events[i])
  }

  predicate Inv(w: World) {
    && (w.file.Cached? ==> w.file.entry.gen == w.persisted)
    && (if w.trust.gen == 0 then
          && w.persisted <= w.trust.floor
          && (w.trust.lastGood.Some? ==> w.trust.lastGood.value.gen == w.trust.floor)
        else
          && w.trust.floor <= w.trust.gen && w.persisted <= w.trust.gen
          && w.trust.lastGood.Some? && w.trust.lastGood.value.gen == w.trust.gen)
  }

  /**
   * Exactly when a fetched bundle is taken, over every state: if and only if it is well-formed and news it becomes
   * the live pool, generation and ca_id, and the last good one, which is saved; any other changes no trust, and
   * at most refreshes the age of the file, when it repeats the live generation.
   */
  lemma PollAdoptsIff(t: Trust, file: CacheFile, b: Bundle, now: nat, saved: bool)
    ensures var (t', file') := Polled(t, file, Fetched(b), now, saved);
            if WellFormed(b) && IsNews(t, b) then
              && t'.pool == Certs(Blocks(b.pem)) && t'.gen == b.gen && t'.caId == Some(b.caId)
              && t'.floor == t.floor && t'.lastGood == Some(Entry(b.gen, b.caId, b.pem, 0))
              && file' == if saved then Cached(Entry(b.gen, b.caId, b.pem, now / SECOND)) else file
            else
              && t' == t
              && file' == if saved && WellFormed(b) && t.floor <= b.gen == t.gen && t.gen != 0 && t.lastGood.Some?
                          then Cached(t.lastGood.value.(writtenAt := now / SECOND)) else file
    ensures WellFormed(b) && IsNews(t, b) <==> Judge(t, b).Applied?
  {
  }

  /** Why a bundle was not taken; a repeat of the live generation is no rollback. */
  lemma VerdictsTellWhy(t: Trust, b: Bundle)
    ensures var v := Judge(t, b);
            && (v == ParseRejected || v == EmptyRejected <==> !WellFormed(b))
            && (v == EmptyRejected <==> forall i | 0 <= i < |Blocks(b.pem)| :: Blocks(b.pem)[i].OtherBlock?)
            && (v == FloorRejected <==> WellFormed(b) && b.gen < t.floor)
            && (v == Unchanged <==> WellFormed(b) && t.floor <= b.gen == t.gen && t.gen != 0)
            && (v == RollbackRejected <==> WellFormed(b) && t.floor <= b.gen < t.gen)
  {
    EmptyIff(Blocks(b.pem));
  }

  lemma {:induction false} EmptyIff(blocks: seq<Block>)
    ensures Certs(blocks) == Some([]) <==> forall i | 0 <= i < |blocks| :: blocks[i].OtherBlock?
  {
    if blocks != [] {
      var init := blocks[..|blocks| - 1];
      EmptyIff(init);
      assert forall i | 0 <= i < |init| :: init[i] == blocks[i];
      assert Certs(blocks) == Some([]) <==> Certs(init) == Some([]) && blocks[|init|].OtherBlock?;
    }
  }

  // One session: from a start to the next restart.

  ghost predicate WithinSession(events: seq<Event>) {
    forall i | 0 <= i < |events| :: !events[i].Restart?
  }

  /** A bundle that one of the polls fetched, well-formed and not below the floor. */
  predicate Offered(events: seq<Event>, i: nat, floor: nat)
    requires i < |events|
  {
    events[i].Poll? && events[i].fetch.Fetched? && WellFormed(events[i].fetch.bundle)
    && floor <= events[i].fetch.bundle.gen
  }

  /** The live trust is that of the bundle of event i. */
  predicate LiveFrom(t: Trust, events: seq<Event>, i: nat)
    requires i < |events|
  {
    && events[i].Poll? && events[i].fetch.Fetched?
    && var b := events[i].fetch.bundle;
    t.pool == Certs(Blocks(b.pem)) && t.gen == b.gen && t.caId == Some(b.caId)
  }

  /**
   * Over every session from a start, whatever fails in between: nothing is trusted until a bundle at or above the
   * floor has been fetched; from then on the live pool, generation and ca_id are those of a fetched bundle, of
   * which none had a greater generation. So a rotation reaches the core as soon as it is fetched once.
   */
  lemma {:induction false} NewestOfferIsLive(w: World, events: seq<Event>)
    requires w.trust.pool == None && w.trust.gen == 0 && WithinSession(events)
    ensures var t := Run(w, events).trust;
            && t.floor == w.trust.floor
            && (forall i | 0 <= i < |events| && Offered(events, i, t.floor) ::
                  t.pool.Some? && events[i].fetch.bundle.gen <= t.gen)
            && (t.pool == None ==> t.gen == 0)
            && (t.pool.Some? ==> exists i | 0 <= i < |events| :: Offered(events, i, t.floor) && LiveFrom(t, events, i))
  {
    if events != [] {
      var n := |events| - 1;
      var init, e := events[..n], events[n];
      assert forall i | 0 <= i < n :: init[i] == events[i];
      NewestOfferIsLive(w, init);
      var before, after := Run(w, init), Run(w, events);
      var adopted := e.Poll? && e.fetch.Fetched? && WellFormed(e.fetch.bundle) && IsNews(before.trust, e.fetch.bundle);
      if e.Poll? && e.fetch.Fetched? {
        PollAdoptsIff(before.trust, before.file, e.fetch.bundle, e.now, e.saved);
      }
      if adopted {
        assert Offered(events, n, after.trust.floor) && LiveFrom(after.trust, events, n);
      } else if after.trust.pool.Some? {
        var i :| 0 <= i < n && Offered(init, i, before.trust.floor) && LiveFrom(before.trust, init, i);
        assert Offered(events, i, after.trust.floor) && LiveFrom(after.trust, events, i);
      }
    }
  }

  lemma EventKeepsInv(w: World, e: Event)
    requires Inv(w) && FloorKept(w, e)
    ensures Inv(Exec(w, e))
    ensures w.persisted <= Exec(w, e).persisted
    ensures !e.Restart? && Exec(w, e).trust.pool != w.trust.pool ==>
              e.Poll? && e.fetch.Fetched? && Judge(w.trust, e.fetch.bundle).Applied?
    ensures !e.Restart? ==> w.trust.gen <= Exec(w, e).trust.gen
  {
  }

  lemma FloorsKeptBefore(w: World, events: seq<Event>, n: nat)
    requires FloorsKept(w, events) && n <= |events|
    ensures FloorsKept(w, events[..n])
  {
    forall i | 0 <= i < n ensures FloorKept(Run(w, events[..n][..i]), events[..n][i]) {
      assert events[..n][..i] == events[..i];
    }
  }

  lemma {:induction false} RunKeepsInv(w: World, events: seq<Event>)
    requires Inv(w) && FloorsKept(w, events)
    ensures Inv(Run(w, events))
  {
    if events != [] {
      var init := events[..|events| - 1];
      FloorsKeptBefore(w, events, |init|);
      RunKeepsInv(w, init);
      assert FloorKept(Run(w, events[..|init|]), events[|init|]);
      EventKeepsInv(Run(w, init), events[|init|]);
    }
  }

  /**
   * Over any number of polls, failed or torn cache writes and restarts at which the file could be loaded,
   * every bundle that is applied is at or above the greatest generation ever persisted, and strictly above
   * the live one (a live zero is no generation); a bundle that is not applied changes nothing.
   */
  lemma AppliedIsForward(w: World, events: seq<Event>, b: Bundle)
    requires Inv(w) && FloorsKept(w, events)
    ensures var t := Run(w, events).trust;
            && (Judge(t, b).Applied? ==>
                  Run(w, events).persisted <= b.gen && t.floor <= b.gen && (t.gen != 0 ==> t.gen < b.gen))
            && (!Judge(t, b).Applied? ==> forall file, now, saved ::
                  Polled(t, file, Fetched(b), now, saved).0 == t &&
                  (!Judge(t, b).Unchanged? ==> Polled(t, file, Fetched(b), now, saved).1 == file))
  {
    RunKeepsInv(w, events);
  }

  lemma {:induction false} PersistedGrows(w: World, events: seq<Event>, i: nat)
    requires Inv(w) && FloorsKept(w, events) && i <= |events|
    ensures Run(w, events[..i]).persisted <= Run(w, events).persisted
  {
    if i == |events| {
      assert events[..i] == events;
    } else {
      var n := |events| - 1;
      FloorsKeptBefore(w, events, n);
      PersistedGrows(w, events[..n], i);
      assert events[..n][..i] == events[..i];
      RunKeepsInv(w, events[..n]);
      assert FloorKept(Run(w, events[..n]), events[n]);
      EventKeepsInv(Run(w, events[..n]), events[n]);
    }
  }

  /** The generation in the file never goes down, whatever failed writes and damage lie in between. */
  lemma PersistedNeverRegresses(w: World, events: seq<Event>, i: nat)
    requires Inv(w) && FloorsKept(w, events) && i <= |events|
    ensures var a, b := Run(w, events[..i]).file, Run(w, events).file;
            a.Cached? && b.Cached? ==> a.entry.gen <= b.entry.gen
    ensures Run(w, events[..i]).persisted <= Run(w, events).persisted
  {
    PersistedGrows(w, events, i);
    FloorsKeptBefore(w, events, i);
    RunKeepsInv(w, events);
    RunKeepsInv(w, events[..i]);
  }

  /** A live generation is never below one that had been persisted before. */
  lemma LiveIsPersisted(w: World, events: seq<Event>)
    requires Inv(w) && FloorsKept(w, events)
    ensures Run(w, events).trust.gen != 0 ==> w.persisted <= Run(w, events).trust.gen
  {
    RunKeepsInv(w, events);
    assert events[..0] == [];
    PersistedNeverRegresses(w, events, 0);
  }

  /**
   * Exactly when a restart keeps the anti-resurrection guarantee: no bundle below the persisted generation
   * can be applied if and only if the file still loads, or nothing was ever persisted.
   */
  lemma RestartKeepsTheFloorIff(w: World, now: nat, maxStale: int)
    requires Inv(w)
    ensures var t := Exec(w, Restart(now, maxStale)).trust;
            (forall b :: Judge(t, b).Applied? ==> w.persisted <= b.gen) <==> FloorKept(w, Restart(now, maxStale))
  {
    var t := Exec(w, Restart(now, maxStale)).trust;
    if !FloorKept(w, Restart(now, maxStale)) {
      var c := Cert(0, 0);
      var b := Bundle(0, IdOf([c]), Encode([c]));
      EncodeRoundTrip([c]);
      assert Judge(t, b).Applied?;
    }
  }

  /** A live bundle's successor in the same session is strictly newer, except that generation 0 replays. */
  lemma OnlyZeroReplays(w: World, b: Bundle)
    requires Inv(w) && Judge(w.trust, b).Applied?
    ensures b.gen <= w.trust.gen <==> b.gen == 0 && w.trust.gen == 0
    ensures b.gen == 0 ==> w.persisted == 0 && w.trust.floor == 0
  {
  }

  /** Any successful contact keeps the file young enough to be the floor of a restart soon after it. */
  lemma ContactKeepsTheFloor(w: World, fetch: Fetch, at: nat, now: nat, maxStale: int)
    requires Inv(w) && w.trust.gen != 0 && at <= now
    requires fetch.NotModified? || (fetch.Fetched? && Judge(w.trust, fetch.bundle).Unchanged?)
    requires maxStale > 0 ==> now - at + SECOND - 1 <= maxStale
    ensures var w' := Exec(w, Poll(fetch, at, true));
            FloorKept(w', Restart(now, maxStale)) && Exec(w', Restart(now, maxStale)).trust.floor == w.trust.gen
  {
  }

  lemma FirstBootInv(file: CacheFile, now: nat, maxStale: int)
    requires Held(file) == 0 || Loads(file, now, maxStale)
    ensures Inv(FirstBoot(file, now, maxStale))
  {
  }

  // The verification memo.

  predicate Fresh(chains: Chains, t: Trust, peers: seq<Cert>) {
    peers != [] && t.pool.Some? && chains(t.pool.value, peers[0], peers[1..])
  }

  datatype Use = Swap(bundle: Bundle) | Ask(peers: seq<Cert>, evicted: Cert)

  datatype Session = Session(trust: Trust, memo: Memo)

  /** Bundles have positive generations, and a full memo evicts one of its own entries. */
  predicate Admissible(s: Session, use: Use) {
    match use
    case Swap(b) => b.gen > 0
    case Ask(_, evicted) => |s.memo.known| >= VERIFY_CACHE_CAP ==> evicted in s.memo.known
  }

  function Serve(chains: Chains, s: Session, use: Use): Session {
    match use
    case Swap(b) => s.(trust := Swapped(s.trust, b))
    case Ask(peers, evicted) => s.(memo := Verified(chains, s.trust, s.memo, peers, evicted).1)
  }

  function Opened(floor: nat): Session {
    Session(Trust(None, 0, None, floor, None), Memo(0, {}))
  }

  predicate Lawful(chains: Chains, floor: nat, uses: seq<Use>)
    decreases |uses|, 0
  {
    uses == [] ||
    var n := |uses| - 1;
    Lawful(chains, floor, uses[..n]) && Admissible(After(chains, floor, uses[..n]), uses[n])
  }

  function After(chains: Chains, floor: nat, uses: seq<Use>): Session
    requires Lawful(chains, floor, uses)
    decreases |uses|, 1
  {
    if uses == [] then Opened(floor)
    else Serve(chains, After(chains, floor, uses[..|uses| - 1]), uses[|uses| - 1])
  }

  ghost predicate ChainsSomehow(chains: Chains, pool: seq<Cert>, leaf: Cert) {
    exists inter :: chains(pool, leaf, inter)
  }

  ghost predicate MemoInv(chains: Chains, s: Session) {
    && |s.memo.known| <= VERIFY_CACHE_CAP && s.memo.gen <= s.trust.gen
    && (s.trust.pool.None? <==> s.trust.gen == 0)
    && (s.trust.pool.Some? ==> s.trust.pool.value != [])
    && (s.trust.gen == 0 ==> s.memo.known == {})
    && (s.memo.gen == s.trust.gen && s.trust.pool.Some? ==>
          forall leaf | leaf in s.memo.known :: ChainsSomehow(chains, s.trust.pool.value, leaf))
  }

  lemma ServeKeepsMemoInv(chains: Chains, s: Session, use: Use)
    requires MemoInv(chains, s) && Admissible(s, use)
    ensures MemoInv(chains, Serve(chains, s, use))
  {
    if use.Ask? && Fresh(chains, s.trust, use.peers) {
      assert ChainsSomehow(chains, s.trust.pool.value, use.peers[0]);
      var known := if s.memo.gen != s.trust.gen then {} else s.memo.known;
      if |known| >= VERIFY_CACHE_CAP {
        assert |known - {use.evicted}| == |known| - 1;
      }
    }
  }

  /** The memo never exceeds its cap, and only ever holds leaves that chained to the pool it stands for. */
  lemma {:induction false} MemoIsBounded(chains: Chains, floor: nat, uses: seq<Use>)
    requires Lawful(chains, floor, uses)
    ensures MemoInv(chains, After(chains, floor, uses))
    ensures |After(chains, floor, uses).memo.known| <= 4096
  {
    if uses != [] {
      MemoIsBounded(chains, floor, uses[..|uses| - 1]);
      ServeKeepsMemoInv(chains, After(chains, floor, uses[..|uses| - 1]), uses[|uses| - 1]);
    }
  }

  /** Nothing is forgotten under one generation but to make room in a memo of 4096 entries. */
  lemma MemoForgetsOnlyForRoom(chains: Chains, t: Trust, memo: Memo, peers: seq<Cert>, evicted: Cert)
    ensures var (ok, memo') := Verified(chains, t, memo, peers, evicted);
            && (!ok ==> memo' == memo)
            && (ok && memo.gen == t.gen ==> memo.known - {evicted} <= memo'.known && peers[0] in memo'.known)
            && (ok && memo.gen == t.gen && |memo.known| < 4096 ==> memo'.known == memo.known + {peers[0]})
  {
  }

  /** Which intermediates come with a leaf makes no difference to whether it chains. */
  ghost predicate LeafAlone(chains: Chains) {
    forall pool, leaf, a, b | pool != [] :: chains(pool, leaf, a) == chains(pool, leaf, b)
  }

  ghost predicate AlwaysFresh(chains: Chains) {
    forall floor: nat, uses: seq<Use>, peers: seq<Cert>, evicted: Cert | Lawful(chains, floor, uses) ::
      Verified(chains, After(chains, floor, uses).trust, After(chains, floor, uses).memo, peers, evicted).0
      == Fresh(chains, After(chains, floor, uses).trust, peers)
  }

  /**
   * Exactly when the memoized answer is the fresh one over every sequence of swaps and questions: the memo
   * is keyed by the leaf alone, so the chain check must not depend on the intermediates presented with it.
   */
  lemma MemoIsFreshIff(chains: Chains)
    ensures AlwaysFresh(chains) <==> LeafAlone(chains)
  {
    if LeafAlone(chains) {
      forall floor: nat, uses: seq<Use>, peers: seq<Cert>, evicted: Cert | Lawful(chains, floor, uses)
        ensures var s := After(chains, floor, uses);
                Verified(chains, s.trust, s.memo, peers, evicted).0 == Fresh(chains, s.trust, peers)
      {
        MemoIsBounded(chains, floor, uses);
      }
    } else {
      var pool, leaf, a, b :| pool != [] && chains(pool, leaf, a) && !chains(pool, leaf, b);
      LeafAnswersForItsMemo(chains, pool, leaf, a, b);
    }
  }

  /** A leaf verified once with good intermediates is accepted again with ones it does not chain through. */
  lemma LeafAnswersForItsMemo(chains: Chains, pool: seq<Cert>, leaf: Cert, a: seq<Cert>, b: seq<Cert>)
    requires pool != [] && chains(pool, leaf, a) && !chains(pool, leaf, b)
    ensures !AlwaysFresh(chains)
  {
    var bundle := Bundle(1, IdOf(pool), Encode(pool));
    EncodeRoundTrip(pool);
    var first, second := Swap(bundle), Ask([leaf] + a, leaf);
    assert ([leaf] + a)[1..] == a && ([leaf] + b)[1..] == b;
    assert [first][..0] == [] && [first, second][..1] == [first];
    assert Lawful(chains, 0, []);
    assert After(chains, 0, []) == Opened(0);
    assert Lawful(chains, 0, [first]);
    var s := After(chains, 0, [first]);
    assert s.trust.pool == Some(pool) && s.trust.gen == 1;
    assert Lawful(chains, 0, [first, second]);
    var t := After(chains, 0, [first, second]);
    assert t.trust == s.trust && leaf in t.memo.known && t.memo.gen == 1;
    assert Verified(chains, t.trust, t.memo, [leaf] + b, leaf).0 != Fresh(chains, t.trust, [leaf] + b);
  }

  /** Generation 0 defeats the memo too: a second zero-generation bundle leaves the first one's answers. */
  lemma ZeroGenerationGoesStale(chains: Chains, first: seq<Cert>, next: seq<Cert>, leaf: Cert)
    requires first != [] && next != [] && chains(first, leaf, []) && !chains(next, leaf, [])
    ensures var s0 := Opened(0).(trust := Swapped(Opened(0).trust, Bundle(0, IdOf(first), Encode(first))));
            var s1 := Serve(chains, s0, Ask([leaf], leaf));
            var s2 := s1.(trust := Swapped(s1.trust, Bundle(0, IdOf(next), Encode(next))));
            s2.trust.pool == Some(next) && Verified(chains, s2.trust, s2.memo, [leaf], leaf).0
            && !Fresh(chains, s2.trust, [leaf])
  {
    EncodeRoundTrip(first);
    EncodeRoundTrip(next);
    assert [leaf][1..] == [];
  }
}
