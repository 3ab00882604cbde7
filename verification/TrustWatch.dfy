/**
 * Long-poll watchers of the trust bundle against signer swaps (edgecp/issuance.go, edgecp/server.go).
 * Every load, store, channel operation and lock operation is a step of its own.
 */
module TrustWatch {
  import opened Outcomes

  datatype SwapPhase = Entered | Stored | Closed

  /** Who holds genMu. */
  datatype Holder = Nobody | Swapper(gen: nat, phase: SwapPhase) | Subscriber(id: nat)

  datatype Phase =
    | Arrived
    | Unavailable                         // no signer: 503
    | Subscribing                         // the first load was not newer than since
    | Locked
    | Chose(notify: nat)
    | Waiting(notify: nat, at: nat)       // at is the generation re-loaded under the lock
    | Woken(at: nat)                      // its channel was closed
    | TimedOut
    | Answered(gen: nat, woken: Option<nat>)
    | Gone

  datatype Watcher = Watcher(since: nat, phase: Phase)

  /** Channels are numbered in order of creation; `notify` is the current one. */
  datatype World = World(
    served: Option<nat>, notify: nat, closed: set<nat>, lock: Holder, watchers: map<nat, Watcher>)

  datatype Step =
    | SwapLock(gen: nat) | SwapStore | SwapClose | SwapReplace
    | Arrive(id: nat, since: nat) | Load(id: nat) | Lock(id: nat) | Choose(id: nat) | Recheck(id: nat)
    | Wake(id: nat) | TimeOut(id: nat) | Cancel(id: nat) | Reload(id: nat)

  const Boot := World(None, 0, {}, Nobody, map[])

  predicate At(w: World, id: nat) {
    id in w.watchers
  }

  predicate Enabled(w: World, step: Step) {
    match step
    case SwapLock(_) => w.lock.Nobody?
    case SwapStore => w.lock.Swapper? && w.lock.phase.Entered?
    case SwapClose => w.lock.Swapper? && w.lock.phase.Stored?
    case SwapReplace => w.lock.Swapper? && w.lock.phase.Closed?
    case Arrive(id, _) => !At(w, id)
    case Load(id) => At(w, id) && w.watchers[id].phase.Arrived?
    case Lock(id) => w.lock.Nobody? && At(w, id) && w.watchers[id].phase.Subscribing?
    case Choose(id) => w.lock == Subscriber(id) && At(w, id) && w.watchers[id].phase.Locked?
    case Recheck(id) => w.lock == Subscriber(id) && At(w, id) && w.watchers[id].phase.Chose? && w.served.Some?
    case Wake(id) => At(w, id) && w.watchers[id].phase.Waiting? && w.watchers[id].phase.notify in w.closed
    case TimeOut(id) => At(w, id) && w.watchers[id].phase.Waiting?
    case Cancel(id) => At(w, id) && w.watchers[id].phase.Waiting?
    case Reload(id) =>
      At(w, id) && (w.watchers[id].phase.Woken? || w.watchers[id].phase.TimedOut?) && w.served.Some?
  }

  function Set(w: World, id: nat, phase: Phase): World
    requires At(w, id)
  {
    w.(watchers := w.watchers[id := w.watchers[id].(phase := phase)])
  }

  function Exec(w: World, step: Step): World
    requires Enabled(w, step)
  {
    match step
    case SwapLock(gen) => w.(lock := Swapper(gen, Entered))
    case SwapStore =>
      if w.served.Some? && w.lock.gen <= w.served.value then w.(lock := Nobody)
      else w.(served := Some(w.lock.gen), lock := Swapper(w.lock.gen, Stored))
    case SwapClose => w.(closed := w.closed + {w.notify}, lock := Swapper(w.lock.gen, Closed))
    case SwapReplace => w.(notify := w.notify + 1, lock := Nobody)
    case Arrive(id, since) => w.(watchers := w.watchers[id := Watcher(since, Arrived)])
    case Load(id) =>
      Set(w, id, if w.served.None? then Unavailable
                 else if w.served.value <= w.watchers[id].since then Subscribing
                 else Answered(w.served.value, None))
    case Lock(id) => Set(w, id, Locked).(lock := Subscriber(id))
    case Choose(id) => Set(w, id, Chose(w.notify))
    case Recheck(id) =>
      Set(w, id, if w.served.value <= w.watchers[id].since then Waiting(w.watchers[id].phase.notify, w.served.value)
                 else Answered(w.served.value, None)).(lock := Nobody)
    case Wake(id) => Set(w, id, Woken(w.watchers[id].phase.at))
    case TimeOut(id) => Set(w, id, TimedOut)
    case Cancel(id) => Set(w, id, Gone)
    case Reload(id) =>
      var p := w.watchers[id].phase;
      Set(w, id, Answered(w.served.value, if p.Woken? then Some(p.at) else None))
  }

  predicate Legal(steps: seq<Step>)
    decreases |steps|, 0
  {
    steps == [] ||
    var rest := steps[..|steps| - 1];
    Legal(rest) && Enabled(Run(rest), steps[|steps| - 1])
  }

  function Run(steps: seq<Step>): World
    requires Legal(steps)
    decreases |steps|, 1
  {
    if steps == [] then Boot else Exec(Run(steps[..|steps| - 1]), steps[|steps| - 1])
  }

  /** The channel is current and open, and no swap is about to close it. */
  predicate Quiet(w: World, channel: nat) {
    channel == w.notify && channel !in w.closed && !(w.lock.Swapper? && w.lock.phase.Stored?)
  }

  /** The channel is closed, or a swap that has already stored its signer is about to close it. */
  predicate Signalled(w: World, channel: nat) {
    channel in w.closed || (channel == w.notify && w.lock.Swapper? && w.lock.phase.Stored?)
  }

  predicate WatcherInv(w: World, id: nat)
    requires At(w, id)
  {
    var watcher := w.watchers[id];
    match watcher.phase
    case Subscribing => w.served.Some?
    case Locked => w.served.Some? && w.lock == Subscriber(id)
    case Chose(channel) => w.served.Some? && w.lock == Subscriber(id) && Quiet(w, channel)
    case Waiting(channel, at) =>
      && at <= watcher.since && w.served.Some? && at <= w.served.value
      && (if at < w.served.value then Signalled(w, channel) else Quiet(w, channel))
    case Woken(at) => at <= watcher.since && w.served.Some? && at < w.served.value
    case Answered(gen, woken) => woken.Some? ==> woken.value <= watcher.since && woken.value < gen
    case TimedOut => w.served.Some?
    case _ => true
  }

  predicate ChannelInv(w: World) {
    && (forall c | c in w.closed :: c <= w.notify)
    && (w.notify in w.closed <==> w.lock.Swapper? && w.lock.phase.Closed?)
    && (w.lock.Swapper? && !w.lock.phase.Entered? ==> w.served == Some(w.lock.gen))
  }

  predicate Inv(w: World) {
    ChannelInv(w) && forall id | id in w.watchers :: WatcherInv(w, id)
  }

  lemma StepKeepsChannel(w: World, step: Step)
    requires ChannelInv(w) && Enabled(w, step)
    ensures ChannelInv(Exec(w, step))
  {
  }

  /** One watcher, whether the step is its own, another watcher's or the swapper's. */
  lemma StepKeepsWatcher(w: World, step: Step, id: nat)
    requires ChannelInv(w) && Enabled(w, step) && At(Exec(w, step), id)
    requires At(w, id) ==> WatcherInv(w, id)
    ensures WatcherInv(Exec(w, step), id)
  {
  }

  lemma StepKeepsInv(w: World, step: Step)
    requires Inv(w) && Enabled(w, step)
    ensures Inv(Exec(w, step))
  {
    StepKeepsChannel(w, step);
    forall id | id in Exec(w, step).watchers ensures WatcherInv(Exec(w, step), id) {
      StepKeepsWatcher(w, step, id);
    }
  }

  lemma {:induction false} RunInv(steps: seq<Step>)
    requires Legal(steps)
    ensures Inv(Run(steps))
  {
    if steps != [] {
      RunInv(steps[..|steps| - 1]);
      StepKeepsInv(Run(steps[..|steps| - 1]), steps[|steps| - 1]);
    }
  }

  /**
   * No lost wake-up: in every interleaving, a waiting watcher holds the current open channel while its
   * generation is still served, and a closed channel (or one the swap in progress is about to close) as
   * soon as a newer one is.
   */
  lemma NoLostWakeup(steps: seq<Step>, id: nat)
    requires Legal(steps) && At(Run(steps), id) && Run(steps).watchers[id].phase.Waiting?
    ensures var w := Run(steps);
            var p := w.watchers[id].phase;
            && w.served.Some? && p.at <= w.served.value
            && (Signalled(w, p.notify) <==> p.at < w.served.value)
            && (Quiet(w, p.notify) <==> p.at == w.served.value)
  {
    RunInv(steps);
    assert WatcherInv(Run(steps), id);
  }

  /** The first swap accepted after the watcher subscribed closes the watcher's channel with its next step. */
  lemma AcceptedSwapCloses(steps: seq<Step>, id: nat)
    requires Legal(steps) && Enabled(Run(steps), SwapStore)
    requires At(Run(steps), id) && Run(steps).watchers[id].phase.Waiting?
    ensures var w := Run(steps);
            var p, stored := w.watchers[id].phase, Exec(w, SwapStore);
            && (stored.served != w.served <==> stored.lock.Swapper?)
            && w.served.Some?
            && (stored.served != w.served && p.at == w.served.value ==>
                  Enabled(stored, SwapClose) && Enabled(Exec(stored, SwapClose), Wake(id)))
  {
    RunInv(steps);
    assert WatcherInv(Run(steps), id);
  }

  /** A watcher woken by a close always answers with a generation above the one it subscribed at. */
  lemma WokenReadsNewer(steps: seq<Step>, id: nat)
    requires Legal(steps) && At(Run(steps), id)
    requires Run(steps).watchers[id].phase.Answered? && Run(steps).watchers[id].phase.woken.Some?
    ensures var watcher := Run(steps).watchers[id];
            watcher.phase.woken.value <= watcher.since && watcher.phase.woken.value < watcher.phase.gen
  {
    RunInv(steps);
    assert WatcherInv(Run(steps), id);
  }

  /** A watcher that asked about `since` while `at` was served, was woken, and answered. */
  predicate WokenAnswer(steps: seq<Step>, id: nat, since: nat, at: nat)
    requires Legal(steps)
  {
    var w := Run(steps);
    && At(w, id) && w.watchers[id].since == since
    && w.watchers[id].phase.Answered? && w.watchers[id].phase.woken == Some(at)
  }

  ghost predicate AlwaysPastSince(since: nat, at: nat) {
    forall steps: seq<Step>, id: nat | Legal(steps) && WokenAnswer(steps, id, since, at) ::
      Run(steps).watchers[id].phase.gen > since
  }

  /**
   * Exactly when a wake-up means news: a woken watcher always answers with a generation above its since
   * if and only if this replica already served since when it subscribed. A watcher that is ahead of a
   * lagging replica is woken by swaps that are still not news to it.
   */
  lemma WakeIsNewsIffCaughtUp(since: nat, at: nat)
    requires at <= since
    ensures AlwaysPastSince(since, at) <==> at == since
  {
    if at == since {
      forall steps: seq<Step>, id: nat | Legal(steps) && WokenAnswer(steps, id, since, at)
        ensures Run(steps).watchers[id].phase.gen > since
      {
        WokenReadsNewer(steps, id);
      }
    } else {
      var steps := LaggingReplica(since, at);
      assert WokenAnswer(steps, 0, since, at);
    }
  }

  lemma Extend(steps: seq<Step>, w: World, step: Step)
    requires Legal(steps) && Run(steps) == w && Enabled(w, step)
    ensures Legal(steps + [step]) && Run(steps + [step]) == Exec(w, step)
  {
    assert (steps + [step])[..|steps|] == steps;
  }

  lemma {:induction false} Follow(steps: seq<Step>, more: seq<Step>, w: World)
    requires Legal(steps) && Run(steps) == w && EachEnabled(w, more)
    ensures Legal(steps + more) && Run(steps + more) == RunFrom(w, more)
    decreases |more|
  {
    if more == [] {
      assert steps + more == steps;
    } else {
      Extend(steps, w, more[0]);
      Follow(steps + [more[0]], more[1..], Exec(w, more[0]));
      assert steps + [more[0]] + more[1..] == steps + more;
    }
  }

  predicate EachEnabled(w: World, steps: seq<Step>)
    decreases |steps|
  {
    steps == [] || (Enabled(w, steps[0]) && EachEnabled(Exec(w, steps[0]), steps[1..]))
  }

  function RunFrom(w: World, steps: seq<Step>): World
    requires EachEnabled(w, steps)
    decreases |steps|
  {
    if steps == [] then w else RunFrom(Exec(w, steps[0]), steps[1..])
  }

  lemma LaggingReplica(since: nat, at: nat) returns (steps: seq<Step>)
    requires at < since
    ensures Legal(steps) && WokenAnswer(steps, 0, since, at) && Run(steps).watchers[0].phase.gen == at + 1
  {
    var w0 := Boot;
    var w1 := Swapped(w0, at);
    Follow([], Swap(at), w0);
    steps := [] + Swap(at);
    var w2 := Subscribed(w1, 0, since);
    Follow(steps, Subscribe(0, since), w1);
    steps := steps + Subscribe(0, since);
    var w3 := Swapped(w2, at + 1);
    Follow(steps, Swap(at + 1), w2);
    steps := steps + Swap(at + 1);
    assert Enabled(w3, Wake(0));
    Extend(steps, w3, Wake(0));
    var w4 := Exec(w3, Wake(0));
    Extend(steps + [Wake(0)], w4, Reload(0));
    steps := steps + [Wake(0)] + [Reload(0)];
  }

  function Swap(gen: nat): seq<Step> {
    [SwapLock(gen), SwapStore, SwapClose, SwapReplace]
  }

  lemma Swapped(w: World, gen: nat) returns (w': World)
    requires w.lock.Nobody? && (w.served.None? || w.served.value < gen)
    ensures EachEnabled(w, Swap(gen)) && w' == RunFrom(w, Swap(gen))
    ensures w' == w.(served := Some(gen), notify := w.notify + 1, closed := w.closed + {w.notify})
  {
    var a := Exec(w, SwapLock(gen));
    var b := Exec(a, SwapStore);
    var c := Exec(b, SwapClose);
    w' := Exec(c, SwapReplace);
    assert Swap(gen)[1..] == [SwapStore, SwapClose, SwapReplace];
    assert Swap(gen)[1..][1..] == [SwapClose, SwapReplace];
    assert Swap(gen)[1..][1..][1..] == [SwapReplace];
    assert EachEnabled(c, [SwapReplace]) && RunFrom(c, [SwapReplace]) == w';
    assert EachEnabled(b, [SwapClose, SwapReplace]) && RunFrom(b, [SwapClose, SwapReplace]) == w';
    assert EachEnabled(a, Swap(gen)[1..]) && RunFrom(a, Swap(gen)[1..]) == w';
  }

  function Subscribe(id: nat, since: nat): seq<Step> {
    [Arrive(id, since), Load(id), Lock(id), Choose(id), Recheck(id)]
  }

  lemma Subscribed(w: World, id: nat, since: nat) returns (w': World)
    requires w.lock.Nobody? && w.served.Some? && w.served.value <= since && !At(w, id)
    ensures EachEnabled(w, Subscribe(id, since)) && w' == RunFrom(w, Subscribe(id, since))
    ensures w' == w.(watchers := w.watchers[id := Watcher(since, Waiting(w.notify, w.served.value))])
  {
    var steps := Subscribe(id, since);
    var a := Exec(w, Arrive(id, since));
    var b := Exec(a, Load(id));
    var c := Exec(b, Lock(id));
    var d := Exec(c, Choose(id));
    w' := Exec(d, Recheck(id));
    assert steps[1..] == [Load(id), Lock(id), Choose(id), Recheck(id)];
    assert steps[1..][1..] == [Lock(id), Choose(id), Recheck(id)];
    assert steps[1..][1..][1..] == [Choose(id), Recheck(id)];
    assert steps[1..][1..][1..][1..] == [Recheck(id)];
    assert EachEnabled(d, [Recheck(id)]) && RunFrom(d, [Recheck(id)]) == w';
    assert EachEnabled(c, [Choose(id), Recheck(id)]) && RunFrom(c, [Choose(id), Recheck(id)]) == w';
    assert EachEnabled(b, steps[1..][1..]) && RunFrom(b, steps[1..][1..]) == w';
    assert EachEnabled(a, steps[1..]) && RunFrom(a, steps[1..]) == w';
    assert w'.watchers == w.watchers[id := Watcher(since, Waiting(w.notify, w.served.value))];
  }
}
