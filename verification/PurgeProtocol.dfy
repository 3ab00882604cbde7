/**
 * Purge distribution end to end: one control-plane journal that may be reset, and one edge that polls it,
 * writes its state file off the lock, folds its table, loses polls, crashes and loses power. Every step takes one
 * tick.
 */
module PurgeProtocol {
  import opened Outcomes
  import opened PurgeJournal
  import opened EdgePurge

  datatype Issued = Issued(target: Target, at: nat)

  /** A snapshot with the journal incarnation its cursor counts in. */
  datatype Taken = Taken(snap: Snapshot, inc: nat)

  datatype Poll = Poll(reply: Reply, since: nat, inc: nat)

  /** A state file, or none, with the journal incarnation its cursor counts in. */
  datatype OnDisk = OnDisk(file: Option<Snapshot>, inc: nat)

  datatype World = World(
    now: nat,
    past: seq<seq<Issued>>,  // everything the lost incarnations of the journal ever issued
    history: seq<Issued>,    // everything this incarnation ever issued; record k + 1 is history[k]
    journal: Journal,
    edge: Edge,
    cursorInc: nat,          // incarnation the live cursor counts in
    poll: Option<Poll>,      // the reply in flight
    taken: seq<Taken>,       // snapshots of the running edge process; version v is taken[v - 1]
    waiting: set<nat>,       // versions whose file write has not run yet
    unwritten: set<nat>,     // versions whose file write reported an error
    unsynced: set<nat>,      // those of them that landed nevertheless
    fileVer: nat,            // version the file holds, 0 when inherited from an earlier process
    fileInc: nat,
    beneath: seq<OnDisk>)    // files replaced without a directory sync since, which a power loss may bring back

  datatype Step =
    | Add(target: Target)
    | Reset(maxEntries: int)
    | Send(older: bool)    // an older control plane lacks the cursor-ahead check
    | Lose
    | Deliver
    | Write(ver: nat, outcome: WriteOutcome)
    | Fold(folded: Epochs)
    | Crash(readable: bool, back: Option<nat>)   // the process dies; or the machine, and an older file is back

  function Start(maxEntries: int, durable: bool): World {
    World(0, [], [], Empty(maxEntries), Boot(durable, None, true), 0, None, [], {}, {}, {}, 0, 0, [])
  }

  /** The number of the running incarnation. */
  function Inc(w: World): nat {
    |w.past|
  }

  function HistoryOf(w: World, inc: nat): seq<Issued> {
    if inc < |w.past| then w.past[inc] else w.history
  }

  function OlderAnswer(j: Journal, since: nat, allow: string -> bool): Reply {
    if since + 1 < j.minSeq then Reply([], j.lastSeq, true)
    else Reply(Pending(j.entries, since, allow), j.lastSeq, false)
  }

  ghost predicate Enabled(w: World, s: Step) {
    match s
    case Add(_) => w.journal.maxKeep > 0
    case Reset(_) => true
    case Send(_) => w.poll.None?
    case Lose => w.poll.Some?
    case Deliver => w.poll.Some?
    case Write(ver, _) => ver in w.waiting && 1 <= ver <= |w.taken|
    case Fold(folded) => AtLeast(folded, w.edge.table)
    case Crash(_, back) => back.Some? ==> back.value < |w.beneath|
  }

  /** The poll makes the edge flush: its cursor is above the journal's numbers, or below what it retains. */
  predicate Flushes(cursor: nat, j: Journal) {
    cursor > j.lastSeq || cursor + 1 < j.minSeq
  }

  /** A poll that crosses a reset flushes. A cursor of 0 over an empty table counts in the first incarnation. */
  predicate Detected(w: World, s: Step) {
    s.Send? ==> w.cursorInc == Inc(w) || Flushes(w.edge.cursor, w.journal)
  }

  predicate Lands(w: World, ver: nat, outcome: WriteOutcome) {
    w.edge.durable && ver > w.edge.persistedVer && outcome != NotWritten
  }

  function Current(w: World): OnDisk {
    OnDisk(w.edge.file, w.fileInc)
  }

  ghost function Exec(w: World, s: Step, allow: string -> bool): World
    requires Enabled(w, s)
  {
    var now := w.now + 1;
    match s
    case Add(t) => w.(now := now, history := w.history + [Issued(t, now)], journal := Append(w.journal, t))
    case Reset(maxEntries) => w.(now := now, past := w.past + [w.history], history := [], journal := Empty(maxEntries))
    case Send(older) =>
      var since := w.edge.cursor;
      var reply := if older then OlderAnswer(w.journal, since, allow) else Answer(w.journal, since, allow);
      w.(now := now, poll := Some(Poll(reply, since, Inc(w))))
    case Lose => w.(now := now, edge := RefreshLocked(w.edge, Failed, now).0, poll := None)
    case Deliver =>
      var (edge, job) := RefreshLocked(w.edge, Got(w.poll.value.reply), now);
      var w' := w.(now := now, edge := edge, cursorInc := w.poll.value.inc, poll := None);
      if job.None? then w'
      else w'.(taken := w.taken + [Taken(job.value.snap, w'.cursorInc)], waiting := w.waiting + {job.value.ver})
    case Write(ver, outcome) =>
      var t, lands, skipped := w.taken[ver - 1], Lands(w, ver, outcome), !w.edge.durable || ver <= w.edge.persistedVer;
      w.(now := now, edge := Persist(w.edge, Job(t.snap, ver), outcome), waiting := w.waiting - {ver},
         unwritten := if outcome == Landed || skipped then w.unwritten else w.unwritten + {ver},
         unsynced := if lands && outcome == LandedUnsynced then w.unsynced + {ver} else w.unsynced,
         fileVer := if lands then ver else w.fileVer, fileInc := if lands then t.inc else w.fileInc,
         beneath := if !lands then w.beneath else if outcome == Landed then [] else w.beneath + [Current(w)])
    case Fold(folded) => w.(now := now, edge := w.edge.(table := folded))
    case Crash(readable, back) =>
      var found := if back.Some? then w.beneath[back.value] else Current(w);
      var restored := w.edge.durable && found.file.Some? && readable;
      w.(now := now, edge := Boot(w.edge.durable, found.file, readable),
         cursorInc := if restored then found.inc else 0, poll := None,
         taken := [], waiting := {}, unwritten := {}, unsynced := {}, fileVer := 0, fileInc := found.inc,
         beneath := if back.Some? then [] else w.beneath)
  }

  /** A run in which every poll that crosses a reset flushes. */
  ghost predicate Legal(w: World, steps: seq<Step>, allow: string -> bool)
    decreases |steps|, 0
  {
    steps == [] ||
    var rest, last := steps[..|steps| - 1], steps[|steps| - 1];
    Legal(w, rest, allow) && Enabled(Run(w, rest, allow), last) && Detected(Run(w, rest, allow), last)
  }

  ghost function Run(w: World, steps: seq<Step>, allow: string -> bool): World
    requires Legal(w, steps, allow)
    decreases |steps|, 1
  {
    if steps == [] then w
    else Exec(Run(w, steps[..|steps| - 1], allow), steps[|steps| - 1], allow)
  }

  /**
   * The table invalidates what the first n purges of a history were meant to: every flush-all and tag purge, and
   * the host, url and prefix purges whose host the edge may serve.
   */
  ghost predicate CoversFirst(table: Epochs, history: seq<Issued>, n: nat, allow: string -> bool) {
    && n <= |history|
    && forall k | 0 <= k < n && Due(history[k].target, allow) :: Covers(table, history[k].target, history[k].at)
  }

  /**
   * No under-invalidation: the table invalidates every relevant purge of the incarnations before `inc`, and
   * those of `inc` itself up to the cursor.
   */
  ghost predicate Sound(w: World, snap: Snapshot, inc: nat, allow: string -> bool) {
    && inc <= Inc(w)
    && (forall i | 0 <= i < inc :: CoversFirst(snap.table, HistoryOf(w, i), |HistoryOf(w, i)|, allow))
    && CoversFirst(snap.table, HistoryOf(w, inc), snap.cursor, allow)
  }

  function Live(e: Edge): Snapshot {
    Snapshot(e.table, e.cursor)
  }

  ghost function Targets(history: seq<Issued>): seq<Target> {
    seq(|history|, i requires 0 <= i < |history| => history[i].target)
  }

  ghost predicate IssuedBy(history: seq<Issued>, now: nat) {
    forall k | 0 <= k < |history| :: history[k].at <= now
  }

  ghost predicate JournalInv(w: World) {
    && Retains(w.journal, Targets(w.history))
    && forall i | 0 <= i <= Inc(w) :: IssuedBy(HistoryOf(w, i), w.now)
  }

  /** A reply in flight either leads to a flush or carries every relevant record between cursor and maxSeq. */
  ghost predicate PollInv(w: World, p: Poll, allow: string -> bool) {
    && p.inc <= Inc(w) && p.since == w.edge.cursor && p.reply.maxSeq <= |HistoryOf(w, p.inc)|
    && (p.reply.flush || p.reply.maxSeq < p.since ||
        (&& w.cursorInc == p.inc
         && forall k | p.since <= k < p.reply.maxSeq && Due(HistoryOf(w, p.inc)[k].target, allow) ::
              Record(k + 1, HistoryOf(w, p.inc)[k].target) in p.reply.entries))
  }

  ghost predicate FileSound(w: World, f: OnDisk, allow: string -> bool) {
    f.file.Some? ==> Sound(w, f.file.value, f.inc, allow)
  }

  /** Every snapshot of the process, the state file, and the files a power loss may bring back. */
  ghost predicate FilesSound(w: World, allow: string -> bool) {
    && (forall v | 0 <= v < |w.taken| :: Sound(w, w.taken[v].snap, w.taken[v].inc, allow))
    && FileSound(w, Current(w), allow)
    && (forall i | 0 <= i < |w.beneath| :: FileSound(w, w.beneath[i], allow))
  }

  ghost predicate SnapshotsInv(w: World, allow: string -> bool) {
    Sound(w, Live(w.edge), w.cursorInc, allow) && FilesSound(w, allow)
  }

  ghost predicate FileInv(w: World) {
    && |w.taken| == w.edge.dirtyVer
    && w.edge.persistedVer <= w.edge.dirtyVer && w.fileVer <= w.edge.dirtyVer
    && (w.fileVer > 0 ==>
          w.edge.file == Some(w.taken[w.fileVer - 1].snap) && w.fileInc == w.taken[w.fileVer - 1].inc)
    && w.edge.persistedVer <= w.fileVer
    && (w.fileVer == w.edge.persistedVer || w.fileVer in w.unsynced)
    && (forall v | v in w.waiting :: 1 <= v <= w.edge.dirtyVer)
    && (w.edge.durable ==> forall v | 1 <= v <= w.edge.dirtyVer ::
          v in w.waiting || v in w.unwritten || v <= w.edge.persistedVer)
  }

  ghost predicate Inv(w: World, allow: string -> bool) {
    && JournalInv(w)
    && SnapshotsInv(w, allow)
    && (w.poll.Some? ==> PollInv(w, w.poll.value, allow))
    && FileInv(w)
  }

  lemma StartInv(maxEntries: int, durable: bool, allow: string -> bool)
    ensures Inv(Start(maxEntries, durable), allow)
  {
    EmptyRetains(maxEntries);
    assert Targets([]) == [];
  }

  /** Histories only grow, and that of a lost incarnation is final. */
  ghost predicate Extends(w: World, w': World) {
    && Inc(w) <= Inc(w')
    && (forall i | 0 <= i < Inc(w) :: HistoryOf(w', i) == HistoryOf(w, i))
    && HistoryOf(w, Inc(w)) <= HistoryOf(w', Inc(w))
  }

  lemma JournalStays(w: World, w': World)
    requires JournalInv(w) && w'.past == w.past && w'.history == w.history && w'.journal == w.journal && w'.now >= w.now
    ensures JournalInv(w') && Extends(w, w')
  {
    forall i | 0 <= i <= Inc(w') ensures IssuedBy(HistoryOf(w', i), w'.now) {
      assert IssuedBy(HistoryOf(w, i), w.now);
    }
  }

  lemma SoundStays(w: World, w': World, snap: Snapshot, inc: nat, allow: string -> bool)
    requires Extends(w, w') && Sound(w, snap, inc, allow)
    ensures Sound(w', snap, inc, allow)
  {
    forall i | 0 <= i < inc ensures CoversFirst(snap.table, HistoryOf(w', i), |HistoryOf(w', i)|, allow) {
      assert HistoryOf(w', i) == HistoryOf(w, i);
    }
  }

  /** Snapshots may be added and files moved beneath or dropped; the ones that stay are as sound as before. */
  lemma FilesStay(w: World, w': World, allow: string -> bool)
    requires Extends(w, w') && FilesSound(w, allow)
    requires w.taken <= w'.taken
    requires forall v | |w.taken| <= v < |w'.taken| :: Sound(w', w'.taken[v].snap, w'.taken[v].inc, allow)
    requires Current(w') == Current(w) || FileSound(w', Current(w'), allow)
    requires forall i | 0 <= i < |w'.beneath| ::
               w'.beneath[i] == Current(w) || (i < |w.beneath| && w'.beneath[i] == w.beneath[i])
    ensures FilesSound(w', allow)
  {
    forall v | 0 <= v < |w.taken| ensures Sound(w', w'.taken[v].snap, w'.taken[v].inc, allow) {
      SoundStays(w, w', w.taken[v].snap, w.taken[v].inc, allow);
    }
    FileStays(w, w', Current(w), allow);
    forall i | 0 <= i < |w'.beneath| ensures FileSound(w', w'.beneath[i], allow) {
      if w'.beneath[i] != Current(w) {
        FileStays(w, w', w.beneath[i], allow);
      }
    }
  }

  lemma FileStays(w: World, w': World, f: OnDisk, allow: string -> bool)
    requires Extends(w, w') && FileSound(w, f, allow)
    ensures FileSound(w', f, allow)
  {
    if f.file.Some? {
      SoundStays(w, w', f.file.value, f.inc, allow);
    }
  }

  lemma PollStays(w: World, w': World, p: Poll, allow: string -> bool)
    requires Extends(w, w') && PollInv(w, p, allow) && w'.edge.cursor == w.edge.cursor && w'.cursorInc == w.cursorInc
    ensures PollInv(w', p, allow)
  {
    assert HistoryOf(w, p.inc) <= HistoryOf(w', p.inc);
  }

  lemma CoarserCovers(a: Epochs, b: Epochs, target: Target, at: nat)
    requires AtLeast(a, b) && Covers(b, target, at)
    ensures Covers(a, target, at)
  {
  }

  lemma SoundFolds(w: World, snap: Snapshot, folded: Epochs, inc: nat, allow: string -> bool)
    requires AtLeast(folded, snap.table) && Sound(w, snap, inc, allow)
    ensures Sound(w, snap.(table := folded), inc, allow)
  {
    forall i | 0 <= i < inc ensures CoversFirst(folded, HistoryOf(w, i), |HistoryOf(w, i)|, allow) {
      FirstFolds(snap.table, folded, HistoryOf(w, i), |HistoryOf(w, i)|, allow);
    }
    FirstFolds(snap.table, folded, HistoryOf(w, inc), snap.cursor, allow);
  }

  lemma FirstFolds(table: Epochs, folded: Epochs, history: seq<Issued>, n: nat, allow: string -> bool)
    requires AtLeast(folded, table) && CoversFirst(table, history, n, allow)
    ensures CoversFirst(folded, history, n, allow)
  {
    forall k | 0 <= k < n && Due(history[k].target, allow)
      ensures Covers(folded, history[k].target, history[k].at)
    {
      CoarserCovers(folded, table, history[k].target, history[k].at);
    }
  }

  /** The edge is untouched while the journal moves on. */
  lemma JournalStepKeepsInv(w: World, s: Step, allow: string -> bool)
    requires Inv(w, allow) && Enabled(w, s) && (s.Add? || s.Reset?)
    ensures Inv(Exec(w, s, allow), allow)
  {
    var w' := Exec(w, s, allow);
    JournalMoves(w, s, allow);
    SoundStays(w, w', Live(w.edge), w.cursorInc, allow);
    FilesStay(w, w', allow);
    if w.poll.Some? {
      PollStays(w, w', w.poll.value, allow);
    }
  }

  lemma JournalMoves(w: World, s: Step, allow: string -> bool)
    requires JournalInv(w) && Enabled(w, s) && (s.Add? || s.Reset?)
    ensures JournalInv(Exec(w, s, allow)) && Extends(w, Exec(w, s, allow))
  {
    var w' := Exec(w, s, allow);
    assert IssuedBy(HistoryOf(w, Inc(w)), w.now);
    if s.Add? {
      AppendRetains(w.journal, Targets(w.history), s.target);
      assert Targets(w'.history) == Targets(w.history) + [s.target];
    } else {
      EmptyRetains(s.maxEntries);
      assert Targets([]) == [];
    }
    forall i | 0 <= i <= Inc(w') ensures IssuedBy(HistoryOf(w', i), w'.now) {
      assert i < Inc(w) ==> IssuedBy(HistoryOf(w, i), w.now);
    }
  }

  lemma SendKeepsPoll(w: World, older: bool, allow: string -> bool)
    requires Inv(w, allow) && Enabled(w, Send(older)) && Detected(w, Send(older))
    ensures var w' := Exec(w, Send(older), allow);
            PollInv(w', w'.poll.value, allow)
  {
    AnswerAgainstHistory(w.journal, Targets(w.history), w.edge.cursor, allow);
    PendingMembers(w.journal.entries, w.edge.cursor, allow);
    var p := Exec(w, Send(older), allow).poll.value;
    if !p.reply.flush && p.since <= p.reply.maxSeq {
      forall k | p.since <= k < p.reply.maxSeq && Due(w.history[k].target, allow)
        ensures Record(k + 1, w.history[k].target) in p.reply.entries
      {
        assert Targets(w.history)[k] == w.history[k].target;
      }
    }
  }

  /** A step that leaves histories, cursor and table alone keeps every claim about them. */
  lemma IdleKeepsSnapshots(w: World, w': World, allow: string -> bool)
    requires JournalInv(w) && SnapshotsInv(w, allow)
    requires w'.past == w.past && w'.history == w.history && w'.journal == w.journal && w'.now >= w.now
    requires Live(w'.edge) == Live(w.edge) && w'.cursorInc == w.cursorInc && w'.taken == w.taken
    requires Current(w') == Current(w) && w'.beneath == w.beneath
    ensures JournalInv(w') && SnapshotsInv(w', allow)
  {
    JournalStays(w, w');
    SoundStays(w, w', Live(w.edge), w.cursorInc, allow);
    FilesStay(w, w', allow);
  }

  /** After a flush at `now`, every purge issued until then is invalidated, in every incarnation. */
  lemma FlushCovers(w: World, table: Epochs, inc: nat, n: nat, allow: string -> bool)
    requires JournalInv(w) && table.global >= w.now && inc <= Inc(w) && n <= |HistoryOf(w, inc)|
    ensures Sound(w, Snapshot(table, n), inc, allow)
  {
    forall i | 0 <= i <= inc ensures CoversFirst(table, HistoryOf(w, i), |HistoryOf(w, i)|, allow) {
      assert IssuedBy(HistoryOf(w, i), w.now);
    }
  }

  /** After a complete reply is applied, everything up to its maxSeq is invalidated. */
  lemma ApplyCovers(w: World, now: nat, allow: string -> bool)
    requires Inv(w, allow) && w.poll.Some? && now >= w.now
    requires var r := w.poll.value.reply; !r.flush && r.maxSeq >= w.edge.cursor
    ensures var p := w.poll.value;
            var table := ApplyEntries(w.edge.table, p.reply.entries, w.edge.cursor, now);
            Sound(w, Snapshot(table, p.reply.maxSeq), p.inc, allow)
  {
    var p, h := w.poll.value, HistoryOf(w, w.poll.value.inc);
    var table := ApplyEntries(w.edge.table, p.reply.entries, w.edge.cursor, now);
    ApplyEntriesCovers(w.edge.table, p.reply.entries, w.edge.cursor, now);
    SoundFolds(w, Live(w.edge), table, p.inc, allow);
    assert IssuedBy(h, w.now);
    forall k | 0 <= k < p.reply.maxSeq && Due(h[k].target, allow) ensures Covers(table, h[k].target, h[k].at) {
      if k >= p.since {
        var r := Record(k + 1, h[k].target);
        assert r in p.reply.entries && r.seqNo > w.edge.cursor;
        assert Covers(table, r.target, now);
      }
    }
  }

  /** The state a delivery leaves, by what the reply asks for. */
  lemma Delivered(w: World, allow: string -> bool)
    requires w.poll.Some?
    ensures var r, w' := w.poll.value.reply, Exec(w, Deliver, allow);
            && w'.cursorInc == w.poll.value.inc && w'.edge.cursor == r.maxSeq
            && w'.edge.table == (if r.flush || r.maxSeq < w.edge.cursor then FlushTable(w.edge.table, w.now + 1)
                                 else ApplyEntries(w.edge.table, r.entries, w.edge.cursor, w.now + 1))
            && Current(w') == Current(w) && w'.beneath == w.beneath && w'.edge.persistedVer == w.edge.persistedVer
            && w'.edge.durable == w.edge.durable
            && ((w'.taken == w.taken && w'.waiting == w.waiting && w'.edge.dirtyVer == w.edge.dirtyVer) ||
                (w'.taken == w.taken + [Taken(Live(w'.edge), w'.cursorInc)]
                 && w'.edge.dirtyVer == w.edge.dirtyVer + 1 && w'.waiting == w.waiting + {w.edge.dirtyVer + 1}))
  {
    var r := w.poll.value.reply;
    if !r.flush && r.maxSeq >= w.edge.cursor && !exists e | e in r.entries :: e.seqNo > w.edge.cursor {
      NothingFresh(w.edge.table, r.entries, w.edge.cursor, w.now + 1);
    }
  }

  /** Applying a complete reply, or flushing, makes the cursor sound for the reply's incarnation. */
  lemma DeliveredIsSound(w: World, allow: string -> bool)
    requires Inv(w, allow) && w.poll.Some?
    ensures var w' := Exec(w, Deliver, allow);
            Sound(w, Live(w'.edge), w'.cursorInc, allow)
  {
    var p, w' := w.poll.value, Exec(w, Deliver, allow);
    Delivered(w, allow);
    if p.reply.flush || p.reply.maxSeq < w.edge.cursor {
      FlushCovers(w, w'.edge.table, p.inc, p.reply.maxSeq, allow);
    } else {
      ApplyCovers(w, w.now + 1, allow);
    }
  }

  lemma DeliverKeepsSnapshots(w: World, allow: string -> bool)
    requires Inv(w, allow) && w.poll.Some?
    ensures SnapshotsInv(Exec(w, Deliver, allow), allow)
  {
    var w' := Exec(w, Deliver, allow);
    Delivered(w, allow);
    DeliveredIsSound(w, allow);
    JournalStays(w, w');
    SoundStays(w, w', Live(w'.edge), w'.cursorInc, allow);
    FilesStay(w, w', allow);
  }

  lemma DeliverKeepsFile(w: World, allow: string -> bool)
    requires FileInv(w) && w.poll.Some?
    ensures FileInv(Exec(w, Deliver, allow))
  {
    Delivered(w, allow);
  }

  lemma DeliverKeepsInv(w: World, allow: string -> bool)
    requires Inv(w, allow) && w.poll.Some?
    ensures Inv(Exec(w, Deliver, allow), allow)
  {
    DeliverKeepsSnapshots(w, allow);
    DeliverKeepsFile(w, allow);
    JournalStays(w, Exec(w, Deliver, allow));
  }

  lemma WriteKeepsFile(w: World, ver: nat, outcome: WriteOutcome, allow: string -> bool)
    requires FileInv(w) && Enabled(w, Write(ver, outcome))
    ensures FileInv(Exec(w, Write(ver, outcome), allow))
  {
  }

  lemma WriteKeepsSnapshots(w: World, ver: nat, outcome: WriteOutcome, allow: string -> bool)
    requires Inv(w, allow) && Enabled(w, Write(ver, outcome))
    ensures SnapshotsInv(Exec(w, Write(ver, outcome), allow), allow)
  {
    var w', t := Exec(w, Write(ver, outcome), allow), w.taken[ver - 1];
    JournalStays(w, w');
    SoundStays(w, w', Live(w.edge), w.cursorInc, allow);
    SoundStays(w, w', t.snap, t.inc, allow);
    FilesStay(w, w', allow);
  }

  lemma WriteKeepsInv(w: World, ver: nat, outcome: WriteOutcome, allow: string -> bool)
    requires Inv(w, allow) && Enabled(w, Write(ver, outcome))
    ensures Inv(Exec(w, Write(ver, outcome), allow), allow)
  {
    var w' := Exec(w, Write(ver, outcome), allow);
    WriteKeepsFile(w, ver, outcome, allow);
    WriteKeepsSnapshots(w, ver, outcome, allow);
    JournalStays(w, w');
    if w'.poll.Some? {
      PollStays(w, w', w.poll.value, allow);
    }
  }

  lemma FoldKeepsInv(w: World, folded: Epochs, allow: string -> bool)
    requires Inv(w, allow) && Enabled(w, Fold(folded))
    ensures Inv(Exec(w, Fold(folded), allow), allow)
  {
    var w' := Exec(w, Fold(folded), allow);
    SoundFolds(w, Live(w.edge), folded, w.cursorInc, allow);
    var before := w.(edge := w.edge.(table := folded));
    JournalStays(w, before);
    SoundStays(w, before, Live(before.edge), w.cursorInc, allow);
    FilesStay(w, before, allow);
    IdleKeepsSnapshots(before, w', allow);
    if w'.poll.Some? {
      PollStays(w, w', w.poll.value, allow);
    }
  }

  lemma CrashKeepsSnapshots(w: World, readable: bool, back: Option<nat>, allow: string -> bool)
    requires JournalInv(w) && SnapshotsInv(w, allow) && Enabled(w, Crash(readable, back))
    ensures SnapshotsInv(Exec(w, Crash(readable, back), allow), allow)
  {
    var w' := Exec(w, Crash(readable, back), allow);
    JournalStays(w, w');
    FileStays(w, w', Current(w'), allow);
    FilesStay(w.(taken := []), w', allow);
  }

  lemma CrashKeepsInv(w: World, readable: bool, back: Option<nat>, allow: string -> bool)
    requires Inv(w, allow) && Enabled(w, Crash(readable, back))
    ensures Inv(Exec(w, Crash(readable, back), allow), allow)
  {
    CrashKeepsSnapshots(w, readable, back, allow);
    JournalStays(w, Exec(w, Crash(readable, back), allow));
  }

  lemma StepKeepsInv(w: World, s: Step, allow: string -> bool)
    requires Inv(w, allow) && Enabled(w, s) && Detected(w, s)
    ensures Inv(Exec(w, s, allow), allow)
  {
    match s
    case Add(_) => JournalStepKeepsInv(w, s, allow);
    case Reset(_) => JournalStepKeepsInv(w, s, allow);
    case Send(older) =>
      SendKeepsPoll(w, older, allow);
      IdleKeepsSnapshots(w, Exec(w, s, allow), allow);
    case Lose => IdleKeepsSnapshots(w, Exec(w, s, allow), allow);
    case Deliver => DeliverKeepsInv(w, allow);
    case Write(ver, outcome) => WriteKeepsInv(w, ver, outcome, allow);
    case Fold(folded) => FoldKeepsInv(w, folded, allow);
    case Crash(readable, back) => CrashKeepsInv(w, readable, back, allow);
  }

  lemma {:induction false} RunInv(w: World, steps: seq<Step>, allow: string -> bool)
    requires Inv(w, allow) && Legal(w, steps, allow)
    ensures Inv(Run(w, steps, allow), allow)
  {
    if steps != [] {
      var rest := steps[..|steps| - 1];
      RunInv(w, rest, allow);
      StepKeepsInv(Run(w, rest, allow), steps[|steps| - 1], allow);
    }
  }

  /**
   * In every run of adds, trims, resets, lost polls, deliveries, folds, file writes in any order, crashes and
   * power losses in which polls that cross a reset flush: the live table, every waiting snapshot, the state file
   * and every older file that a power loss may still bring back invalidate every relevant purge of every earlier
   * incarnation, and of their own up to their cursor.
   */
  lemma NeverUnderInvalidates(maxEntries: int, durable: bool, steps: seq<Step>, allow: string -> bool)
    requires Legal(Start(maxEntries, durable), steps, allow)
    ensures var w := Run(Start(maxEntries, durable), steps, allow);
            && Sound(w, Live(w.edge), w.cursorInc, allow)
            && (forall v | 0 <= v < |w.taken| :: Sound(w, w.taken[v].snap, w.taken[v].inc, allow))
            && (w.edge.file.Some? ==> Sound(w, w.edge.file.value, w.fileInc, allow))
            && (forall i | 0 <= i < |w.beneath| && w.beneath[i].file.Some? ::
                  Sound(w, w.beneath[i].file.value, w.beneath[i].inc, allow))
  {
    StartInv(maxEntries, durable, allow);
    RunInv(Start(maxEntries, durable), steps, allow);
  }

  /** Everything ever issued, by any incarnation, that the edge had to act on is invalidated. */
  ghost predicate AllCovered(w: World, allow: string -> bool) {
    forall i | 0 <= i <= Inc(w) :: CoversFirst(w.edge.table, HistoryOf(w, i), |HistoryOf(w, i)|, allow)
  }

  /** A poll and its delivery with nothing in between. */
  ghost function Caught(w: World, older: bool, allow: string -> bool): World
    requires w.poll.None?
  {
    Exec(Exec(w, Send(older), allow), Deliver, allow)
  }

  /**
   * A poll that is answered and delivered, and flushes if it crosses a reset, leaves the edge level with the
   * journal and every purge of every incarnation invalidated.
   */
  lemma PollCatchesUp(w: World, older: bool, allow: string -> bool)
    requires Inv(w, allow) && w.poll.None? && Detected(w, Send(older))
    ensures var w' := Caught(w, older, allow);
            w'.edge.cursor == |w.history| && w'.cursorInc == Inc(w') && AllCovered(w', allow)
  {
    SentAnswers(w, older, allow);
    DeliveredLevels(Exec(w, Send(older), allow), allow);
  }

  lemma SentAnswers(w: World, older: bool, allow: string -> bool)
    requires Inv(w, allow) && w.poll.None? && Detected(w, Send(older))
    ensures var sent := Exec(w, Send(older), allow);
            && Inv(sent, allow) && sent.poll.Some? && sent.history == w.history
            && sent.poll.value.inc == Inc(sent) && sent.poll.value.reply.maxSeq == |w.history|
  {
    StepKeepsInv(w, Send(older), allow);
    AnswerAgainstHistory(w.journal, Targets(w.history), w.edge.cursor, allow);
  }

  lemma DeliveredLevels(sent: World, allow: string -> bool)
    requires Inv(sent, allow) && sent.poll.Some?
    requires sent.poll.value.inc == Inc(sent) && sent.poll.value.reply.maxSeq == |sent.history|
    ensures var w' := Exec(sent, Deliver, allow);
            w'.edge.cursor == |sent.history| && w'.cursorInc == Inc(w') && AllCovered(w', allow)
  {
    var w' := Exec(sent, Deliver, allow);
    Delivered(sent, allow);
    DeliverKeepsInv(sent, allow);
    assert Sound(w', Live(w'.edge), w'.cursorInc, allow);
  }

  /**
   * A journal reset first polled while the cursor is above the new numbers: the edge flushes, moves its
   * cursor down, and every purge of every incarnation is invalidated, also those the lost journal never
   * handed out, and whether relevant to the edge or not.
   */
  lemma ResetRealigns(w: World, older: bool, allow: string -> bool)
    requires Inv(w, allow) && w.poll.None? && w.edge.cursor > w.journal.lastSeq
    ensures var w' := Caught(w, older, allow);
            && w'.edge.cursor == |w.history| < w.edge.cursor
            && w'.cursorInc == Inc(w')
            && forall i, k | 0 <= i <= Inc(w') && 0 <= k < |HistoryOf(w', i)| ::
                 Covers(w'.edge.table, HistoryOf(w', i)[k].target, HistoryOf(w', i)[k].at)
  {
    var sent, w' := Exec(w, Send(older), allow), Caught(w, older, allow);
    Delivered(sent, allow);
    assert sent.poll.value.reply.flush || sent.poll.value.reply.maxSeq < w.edge.cursor;
    forall i, k | 0 <= i <= Inc(w') && 0 <= k < |HistoryOf(w', i)|
      ensures Covers(w'.edge.table, HistoryOf(w', i)[k].target, HistoryOf(w', i)[k].at)
    {
      assert IssuedBy(HistoryOf(w, i), w.now) && HistoryOf(w', i) == HistoryOf(w, i);
    }
  }

  // Exactly which resets are survived.

  /** The worlds a run can reach in which the next poll crosses a reset, by the numbers both sides go by. */
  ghost predicate Crossing(w: World, cursor: nat, last: nat, keep: nat) {
    && w.poll.None? && w.cursorInc < Inc(w)
    && w.edge.cursor == cursor && w.journal.lastSeq == last && w.journal.maxKeep == keep
  }

  /** Whatever was issued, to whichever edge, a poll that crosses a reset with these numbers loses nothing. */
  ghost predicate CrossingIsSafe(cursor: nat, last: nat, keep: nat, allow: string -> bool) {
    forall maxEntries: int, durable: bool, steps: seq<Step>, older: bool
      | Legal(Start(maxEntries, durable), steps, allow)
        && Crossing(Run(Start(maxEntries, durable), steps, allow), cursor, last, keep) ::
      AllCovered(Caught(Run(Start(maxEntries, durable), steps, allow), older, allow), allow)
  }

  /** The journal that has issued `last` purges keeps the newest `keep`. */
  predicate MustFlush(cursor: nat, last: nat, keep: nat) {
    cursor > last || cursor + keep < last
  }

  lemma FlushesIff(w: World, allow: string -> bool)
    requires Inv(w, allow)
    ensures Flushes(w.edge.cursor, w.journal) <==> MustFlush(w.edge.cursor, w.journal.lastSeq, w.journal.maxKeep)
  {
  }

  /**
   * Exactly when a reset goes unnoticed: for every cursor, length and capacity of the new journal, a poll
   * that crosses the reset leaves every purge of every incarnation invalidated, in every run, if and only if
   * it flushes: the cursor is above the new numbers, or below what the new journal retains.
   */
  lemma CrossingIsSafeIff(cursor: nat, last: nat, keep: nat, allow: string -> bool)
    requires keep > 0
    ensures CrossingIsSafe(cursor, last, keep, allow) <==> MustFlush(cursor, last, keep)
  {
    if MustFlush(cursor, last, keep) {
      forall maxEntries: int, durable: bool, steps: seq<Step>, older: bool
        | Legal(Start(maxEntries, durable), steps, allow)
          && Crossing(Run(Start(maxEntries, durable), steps, allow), cursor, last, keep)
        ensures AllCovered(Caught(Run(Start(maxEntries, durable), steps, allow), older, allow), allow)
      {
        var w := Run(Start(maxEntries, durable), steps, allow);
        StartInv(maxEntries, durable, allow);
        RunInv(Start(maxEntries, durable), steps, allow);
        FlushesIff(w, allow);
        PollCatchesUp(w, older, allow);
      }
    } else {
      var steps := LosingRun(cursor, last, keep, allow);
      var w := Run(Start(keep, true), steps, allow);
      assert !AllCovered(Caught(w, false, allow), allow);
    }
  }

  function TagPurge(tag: string): Target {
    Target(Tag, "", "", tag)
  }

  const SEEN := TagPurge("seen")
  const MISSED := TagPurge("missed")

  function Adds(n: nat): seq<Step> {
    seq(n, _ => Add(SEEN))
  }

  lemma Extend(w: World, steps: seq<Step>, s: Step, allow: string -> bool)
    requires Legal(w, steps, allow) && Enabled(Run(w, steps, allow), s) && Detected(Run(w, steps, allow), s)
    ensures Legal(w, steps + [s], allow) && Run(w, steps + [s], allow) == Exec(Run(w, steps, allow), s, allow)
  {
    assert (steps + [s])[..|steps|] == steps;
  }

  /** From a to b only the journal has moved, by n purges of the seen tag. */
  ghost predicate Grown(a: World, b: World, n: nat) {
    && b == a.(now := b.now, history := b.history, journal := b.journal)
    && b.now == a.now + n && b.journal.lastSeq == a.journal.lastSeq + n && b.journal.maxKeep == a.journal.maxKeep
    && |b.history| == |a.history| + n && b.history[..|a.history|] == a.history
    && forall k | |a.history| <= k < |b.history| :: b.history[k].target == SEEN
  }

  lemma GrownByOne(a: World, b: World, n: nat, allow: string -> bool)
    requires Grown(a, b, n) && b.journal.maxKeep > 0
    ensures Grown(a, Exec(b, Add(SEEN), allow), n + 1)
  {
  }

  lemma OneMoreAdd(w: World, more: seq<Step>, a: World, n: nat, allow: string -> bool)
    requires Legal(w, more, allow) && Grown(a, Run(w, more, allow), n) && a.journal.maxKeep > 0
    ensures Legal(w, more + [Add(SEEN)], allow) && Grown(a, Run(w, more + [Add(SEEN)], allow), n + 1)
  {
    Extend(w, more, Add(SEEN), allow);
    GrownByOne(a, Run(w, more, allow), n, allow);
  }

  lemma OneMore(steps: seq<Step>, n: nat)
    requires n > 0
    ensures steps + Adds(n) == steps + Adds(n - 1) + [Add(SEEN)]
  {
  }

  /** n more purges of one tag: only the journal moves. */
  lemma {:induction false} AddMany(w: World, steps: seq<Step>, n: nat, allow: string -> bool)
    requires Legal(w, steps, allow) && Run(w, steps, allow).journal.maxKeep > 0
    ensures Legal(w, steps + Adds(n), allow) && Grown(Run(w, steps, allow), Run(w, steps + Adds(n), allow), n)
  {
    if n == 0 {
      assert steps + Adds(0) == steps;
    } else {
      AddMany(w, steps, n - 1, allow);
      OneMoreAdd(w, steps + Adds(n - 1), Run(w, steps, allow), n - 1, allow);
      OneMore(steps, n);
    }
  }

  /** The edge's table has no mark for the missed tag, and no flush is as late as `at`. */
  predicate Misses(table: Epochs, at: nat) {
    MISSED !in table.marks && table.global < at
  }

  lemma {:induction false} ApplyMisses(table: Epochs, entries: seq<Record>, base: nat, now: nat, at: nat)
    requires Misses(table, at) && forall e | e in entries :: e.target == SEEN
    ensures Misses(ApplyEntries(table, entries, base, now), at)
  {
    if entries != [] {
      var init := entries[..|entries| - 1];
      assert entries == init + [entries[|entries| - 1]];
      ApplyMisses(table, init, base, now, at);
    }
  }

  /** A poll that hands out only the seen tag, or flushes before `at`, leaves the missed one unmarked. */
  lemma DeliveryMisses(w: World, allow: string -> bool, at: nat)
    requires w.poll.Some? && Misses(w.edge.table, at)
    requires var r := w.poll.value.reply;
             && (forall e | e in r.entries :: e.target == SEEN)
             && (r.flush || r.maxSeq < w.edge.cursor ==> w.now + 1 < at)
    ensures Misses(Exec(w, Deliver, allow).edge.table, at)
  {
    Delivered(w, allow);
    var r := w.poll.value.reply;
    if !r.flush && r.maxSeq >= w.edge.cursor {
      ApplyMisses(w.edge.table, r.entries, w.edge.cursor, w.now + 1, at);
    }
  }

  lemma AnswersSeen(w: World, allow: string -> bool)
    requires Inv(w, allow) && forall k | 0 <= k < |w.history| :: w.history[k].target == SEEN
    ensures forall e | e in Answer(w.journal, w.edge.cursor, allow).entries :: e.target == SEEN
  {
    AnswerAgainstHistory(w.journal, Targets(w.history), w.edge.cursor, allow);
    forall e | e in Answer(w.journal, w.edge.cursor, allow).entries ensures e.target == SEEN {
      assert e.target == Targets(w.history)[e.seqNo - 1];
    }
  }

  /** The edge polls itself level at `cursor`, having marked at most the seen tag. */
  lemma LevelRun(cursor: nat, keep: nat, allow: string -> bool) returns (steps: seq<Step>)
    requires keep > 0
    ensures Legal(Start(keep, true), steps, allow)
    ensures Levelled(Run(Start(keep, true), steps, allow), cursor, keep, allow)
  {
    var w0 := Start(keep, true);
    AddMany(w0, [], cursor, allow);
    assert [] + Adds(cursor) == Adds(cursor);
    var a := Run(w0, Adds(cursor), allow);
    StartInv(keep, true, allow);
    RunInv(w0, Adds(cursor), allow);
    Extend(w0, Adds(cursor), Send(false), allow);
    Extend(w0, Adds(cursor) + [Send(false)], Deliver, allow);
    steps := Adds(cursor) + [Send(false)] + [Deliver];
    FirstPollLevels(a, cursor, keep, allow);
  }

  ghost predicate Levelled(w: World, cursor: nat, keep: nat, allow: string -> bool) {
    && Inv(w, allow) && w.poll.None? && w.past == [] && w.cursorInc == 0 && w.edge.cursor == cursor
    && w.journal.maxKeep == keep && Misses(w.edge.table, w.now + 1)
  }

  lemma FirstPollLevels(a: World, cursor: nat, keep: nat, allow: string -> bool)
    requires Inv(a, allow) && a.poll.None? && a.past == [] && a.cursorInc == 0 && a.edge.table == NO_EPOCHS
    requires a.journal.lastSeq == cursor && a.journal.maxKeep == keep
    requires forall k | 0 <= k < |a.history| :: a.history[k].target == SEEN
    ensures Levelled(Caught(a, false, allow), cursor, keep, allow)
  {
    var b := Exec(a, Send(false), allow);
    StepKeepsInv(a, Send(false), allow);
    DeliverKeepsInv(b, allow);
    AnswersSeen(a, allow);
    Delivered(b, allow);
    DeliveryMisses(b, allow, b.now + 2);
  }

  /** From any run: the missed purge is issued, the journal is lost, and the new one issues `last` others. */
  lemma LoseAndGrow(w0: World, level: seq<Step>, last: nat, keep: nat, allow: string -> bool) returns (steps: seq<Step>)
    requires keep > 0 && Legal(w0, level, allow) && Run(w0, level, allow).journal.maxKeep > 0
    ensures Legal(w0, steps, allow)
    ensures var lost := Exec(Exec(Run(w0, level, allow), Add(MISSED), allow), Reset(keep), allow);
            Grown(lost, Run(w0, steps, allow), last)
  {
    Extend(w0, level, Add(MISSED), allow);
    var missed := level + [Add(MISSED)];
    Extend(w0, missed, Reset(keep), allow);
    var lost := missed + [Reset(keep)];
    AddMany(w0, lost, last, allow);
    steps := lost + Adds(last);
  }

  /** A run that levels the edge, loses a purge with the journal, and grows the new one to the given numbers. */
  lemma LosingRun(cursor: nat, last: nat, keep: nat, allow: string -> bool) returns (steps: seq<Step>)
    requires keep > 0 && !MustFlush(cursor, last, keep)
    ensures Legal(Start(keep, true), steps, allow)
    ensures var w := Run(Start(keep, true), steps, allow);
            Crossing(w, cursor, last, keep) && !AllCovered(Caught(w, false, allow), allow)
  {
    var w0 := Start(keep, true);
    var level := LevelRun(cursor, keep, allow);
    steps := LoseAndGrow(w0, level, last, keep, allow);
    StartInv(keep, true, allow);
    RunInv(w0, steps, allow);
    LosesOne(Run(w0, level, allow), Run(w0, steps, allow), cursor, last, keep, allow);
  }

  lemma LosesOne(a: World, w: World, cursor: nat, last: nat, keep: nat, allow: string -> bool)
    requires keep > 0 && !MustFlush(cursor, last, keep) && Levelled(a, cursor, keep, allow) && Inv(w, allow)
    requires Grown(Exec(Exec(a, Add(MISSED), allow), Reset(keep), allow), w, last)
    ensures Crossing(w, cursor, last, keep) && !AllCovered(Caught(w, false, allow), allow)
  {
    FlushesIff(w, allow);
    UnflushedPollMisses(w, a.now + 1, |a.history|, allow);
  }

  lemma UnflushedPollMisses(w: World, at: nat, k: nat, allow: string -> bool)
    requires Inv(w, allow) && w.poll.None? && !Flushes(w.edge.cursor, w.journal)
    requires |w.past| == 1 && k < |w.past[0]| && w.past[0][k] == Issued(MISSED, at) && Misses(w.edge.table, at)
    requires forall k | 0 <= k < |w.history| :: w.history[k].target == SEEN
    ensures !AllCovered(Caught(w, false, allow), allow)
  {
    AnswersSeen(w, allow);
    DeliveryMisses(Exec(w, Send(false), allow), allow, at);
    var w' := Caught(w, false, allow);
    assert HistoryOf(w', 0) == w.past[0];
    assert Due(MISSED, allow) && !Covers(w'.edge.table, MISSED, at);
  }

  // The state file.

  lemma {:induction false} DurabilityIsFixed(w: World, steps: seq<Step>, allow: string -> bool)
    requires Legal(w, steps, allow)
    ensures Run(w, steps, allow).edge.durable == w.edge.durable
  {
    if steps != [] {
      DurabilityIsFixed(w, steps[..|steps| - 1], allow);
    }
  }

  /**
   * The state file over every interleaving of snapshots and writes: it always holds one snapshot taken at
   * one instant, that of persistedVer unless its write landed unsynced; and as soon as the newest snapshot has
   * been written without an error, whatever failed before, it is the newest.
   */
  lemma FileIsASnapshot(maxEntries: int, durable: bool, steps: seq<Step>, allow: string -> bool)
    requires Legal(Start(maxEntries, durable), steps, allow)
    ensures var w := Run(Start(maxEntries, durable), steps, allow);
            var newest := w.edge.dirtyVer;
            && (w.fileVer > 0 ==> w.fileVer <= |w.taken| && w.edge.file == Some(w.taken[w.fileVer - 1].snap))
            && (w.fileVer == w.edge.persistedVer || w.fileVer in w.unsynced)
            && (durable && newest > 0 && newest !in w.waiting && newest !in w.unwritten ==>
                  && newest == |w.taken| && w.edge.file == Some(w.taken[newest - 1].snap)
                  && w.fileVer == w.edge.persistedVer == newest)
  {
    RunKeepsFile(maxEntries, durable, steps, allow);
    FileHoldsOne(Run(Start(maxEntries, durable), steps, allow));
  }

  lemma RunKeepsFile(maxEntries: int, durable: bool, steps: seq<Step>, allow: string -> bool)
    requires Legal(Start(maxEntries, durable), steps, allow)
    ensures var w := Run(Start(maxEntries, durable), steps, allow); FileInv(w) && w.edge.durable == durable
  {
    StartInv(maxEntries, durable, allow);
    RunInv(Start(maxEntries, durable), steps, allow);
    DurabilityIsFixed(Start(maxEntries, durable), steps, allow);
  }

  lemma FileHoldsOne(w: World)
    requires FileInv(w)
    ensures w.fileVer == w.edge.persistedVer || w.fileVer in w.unsynced
    ensures w.fileVer > 0 ==> w.fileVer <= |w.taken| && w.edge.file == Some(w.taken[w.fileVer - 1].snap)
    ensures var newest := w.edge.dirtyVer;
            w.edge.durable && newest > 0 && newest !in w.waiting && newest !in w.unwritten ==>
              && newest == |w.taken| && w.edge.file == Some(w.taken[newest - 1].snap)
              && w.fileVer == w.edge.persistedVer == newest
  {
  }

  /** Within one process the persisted version never goes back, and a stale snapshot changes nothing. */
  lemma PersistedVersionIsMonotone(w: World, s: Step, allow: string -> bool)
    requires Inv(w, allow) && Enabled(w, s) && !s.Crash?
    ensures var w' := Exec(w, s, allow);
            && w'.edge.persistedVer >= w.edge.persistedVer
            && (s.Write? && s.ver <= w.edge.persistedVer ==> w'.edge == w.edge && w'.fileVer == w.fileVer)
  {
    if s.Deliver? {
      Delivered(w, allow);
    }
  }

  /** When file and persistedVer part: exactly on a write whose rename landed but whose directory sync failed. */
  lemma UnsyncedWriteLagsVersion(w: World, ver: nat, outcome: WriteOutcome, allow: string -> bool)
    requires Inv(w, allow) && Enabled(w, Write(ver, outcome)) && w.edge.durable
    requires w.fileVer == w.edge.persistedVer
    ensures var w' := Exec(w, Write(ver, outcome), allow);
            w'.fileVer == w'.edge.persistedVer <==> !(outcome == LandedUnsynced && ver > w.edge.persistedVer)
  {
  }

  /** A write puts an older snapshot over a newer one exactly when it lands between persistedVer and the file. */
  lemma WriteRegressesIff(w: World, ver: nat, outcome: WriteOutcome, allow: string -> bool)
    requires Inv(w, allow) && Enabled(w, Write(ver, outcome)) && w.edge.durable
    ensures Exec(w, Write(ver, outcome), allow).fileVer < w.fileVer <==>
            outcome != NotWritten && w.edge.persistedVer < ver < w.fileVer
  {
  }

  /**
   * When the state file can go back to an older snapshot: in any state, by some step of this process, if and
   * only if an older snapshot than the file's, but newer than persistedVer, still waits for its write.
   */
  lemma FileCanRegressIff(w: World, allow: string -> bool)
    requires Inv(w, allow)
    ensures (exists s :: Enabled(w, s) && !s.Crash? && Exec(w, s, allow).fileVer < w.fileVer) <==>
            w.edge.durable && exists v :: v in w.waiting && w.edge.persistedVer < v < w.fileVer
  {
    if v :| v in w.waiting && w.edge.durable && w.edge.persistedVer < v < w.fileVer {
      WriteRegressesIff(w, v, Landed, allow);
      assert Enabled(w, Write(v, Landed)) && Exec(w, Write(v, Landed), allow).fileVer < w.fileVer;
    }
    if s :| Enabled(w, s) && !s.Crash? && Exec(w, s, allow).fileVer < w.fileVer {
      assert s.Write?;
      WriteRegressesIff(w, s.ver, s.outcome, allow);
    }
  }

  /** So an unsynced landing of a snapshot puts every older one that still waits in a position to overwrite it. */
  lemma UnsyncedThenOlderRegresses(w: World, older: nat, newer: nat, allow: string -> bool)
    requires Inv(w, allow) && w.edge.durable && older in w.waiting && newer in w.waiting
    requires w.edge.persistedVer < older < newer
    ensures var landed := Exec(w, Write(newer, LandedUnsynced), allow);
            Enabled(landed, Write(older, Landed)) && landed.fileVer == newer &&
            Exec(landed, Write(older, Landed), allow).fileVer == older
  {
    WriteKeepsInv(w, newer, LandedUnsynced, allow);
  }

  predicate SameProcessSynced(s: Step) {
    !s.Crash? && !(s.Write? && s.outcome == LandedUnsynced)
  }

  /** As long as no write lands unsynced, the file never goes back within a process, however writes interleave. */
  lemma {:induction false} SyncedFileNeverRegresses(w: World, steps: seq<Step>, allow: string -> bool)
    requires Inv(w, allow) && w.fileVer == w.edge.persistedVer && Legal(w, steps, allow)
    requires forall i | 0 <= i < |steps| :: SameProcessSynced(steps[i])
    ensures var w' := Run(w, steps, allow);
            w'.fileVer == w'.edge.persistedVer && w.fileVer <= w'.fileVer
  {
    if steps != [] {
      var rest, s := steps[..|steps| - 1], steps[|steps| - 1];
      SyncedFileNeverRegresses(w, rest, allow);
      RunInv(w, rest, allow);
      assert SameProcessSynced(s);
      PersistedVersionIsMonotone(Run(w, rest, allow), s, allow);
      FileFollowsVersion(Run(w, rest, allow), s, allow);
    }
  }

  lemma FileFollowsVersion(w: World, s: Step, allow: string -> bool)
    requires Inv(w, allow) && Enabled(w, s) && SameProcessSynced(s) && w.fileVer == w.edge.persistedVer
    ensures var w' := Exec(w, s, allow); w'.fileVer == w'.edge.persistedVer
  {
    if s.Deliver? {
      Delivered(w, allow);
    }
  }
}
