/** The edge's purge state: epoch table, journal cursor and state file (edge/purge.go, edge/purgerefresh.go). */
module EdgePurge {
  import opened Outcomes
  import opened PurgeJournal

  /**
   * The contract of the external epoch table: an entry cached before the mark of a target it matches, or
   * before the global mark, is stale. Marks only grow.
   */
  datatype Epochs = Epochs(marks: map<Target, nat>, global: nat)

  const NO_EPOCHS := Epochs(map[], 0)

  /** The table invalidates everything a purge of `target` issued at `at` was meant to invalidate. */
  predicate Covers(t: Epochs, target: Target, at: nat) {
    || t.global >= at
    || (target.scope != FlushAll && target in t.marks && t.marks[target] >= at)
  }

  function Later(a: nat, b: nat): nat {
    if a < b then b else a
  }

  function FlushTable(t: Epochs, now: nat): Epochs {
    t.(global := Later(t.global, now))
  }

  function Stamp(t: Epochs, target: Target, now: nat): Epochs {
    if target.scope == FlushAll then FlushTable(t, now)
    else t.(marks := t.marks[target := if target in t.marks then Later(t.marks[target], now) else now])
  }

  function ApplyEntries(t: Epochs, entries: seq<Record>, base: nat, now: nat): Epochs {
    if entries == [] then t
    else
      var rest, e := ApplyEntries(t, entries[..|entries| - 1], base, now), entries[|entries| - 1];
      if e.seqNo <= base then rest else Stamp(rest, e.target, now)
  }

  /** `a` invalidates at least what `b` does, so the external table may fold records into a coarser mark. */
  ghost predicate AtLeast(a: Epochs, b: Epochs) {
    && a.global >= b.global
    && forall k | k in b.marks :: a.global >= b.marks[k] || (k in a.marks && a.marks[k] >= b.marks[k])
  }

  lemma {:induction false} ApplyEntriesCovers(t: Epochs, entries: seq<Record>, base: nat, now: nat)
    ensures AtLeast(ApplyEntries(t, entries, base, now), t)
    ensures forall e | e in entries && e.seqNo > base :: Covers(ApplyEntries(t, entries, base, now), e.target, now)
  {
    if entries != [] {
      var init := entries[..|entries| - 1];
      ApplyEntriesCovers(t, init, base, now);
      assert entries == init + [entries[|entries| - 1]];
      assert forall e | e in entries :: e in init || e == entries[|entries| - 1];
    }
  }

  /** A record past the cursor that asks for this target by itself. */
  ghost predicate Asked(entries: seq<Record>, base: nat, target: Target) {
    exists i | 0 <= i < |entries| :: entries[i].seqNo > base && entries[i].target == target
  }

  ghost predicate FlushAsked(entries: seq<Record>, base: nat) {
    exists i | 0 <= i < |entries| :: entries[i].seqNo > base && entries[i].target.scope == FlushAll
  }

  lemma AskedGrows(init: seq<Record>, e: Record, base: nat, target: Target)
    ensures Asked(init + [e], base, target) <==> Asked(init, base, target) || (e.seqNo > base && e.target == target)
    ensures FlushAsked(init + [e], base) <==> FlushAsked(init, base) || (e.seqNo > base && e.target.scope == FlushAll)
  {
    var all := init + [e];
    assert all[|init|] == e && forall i | 0 <= i < |init| :: all[i] == init[i];
  }

  /**
   * Exactly what a batch invalidates, and nothing more: the global mark moves if and only if a record past the
   * cursor is a flush-all, the mark of any other target if and only if one asks for that target.
   */
  lemma {:induction false} ApplyEntriesExactly(t: Epochs, entries: seq<Record>, base: nat, now: nat, target: Target)
    requires target.scope != FlushAll
    ensures var a := ApplyEntries(t, entries, base, now);
            && a.global == (if FlushAsked(entries, base) && t.global < now then now else t.global)
            && (target in a.marks <==> target in t.marks || Asked(entries, base, target))
            && (target in a.marks ==>
                  a.marks[target] ==
                  if target !in t.marks || (Asked(entries, base, target) && t.marks[target] < now) then now
                  else t.marks[target])
  {
    if entries != [] {
      var init, e := entries[..|entries| - 1], entries[|entries| - 1];
      ApplyEntriesExactly(t, init, base, now, target);
      AskedGrows(init, e, base, target);
      assert init + [e] == entries;
    }
  }

  datatype Snapshot = Snapshot(table: Epochs, cursor: nat)

  /** A snapshot waiting for its file write, with the version taken together with it. */
  datatype Job = Job(snap: Snapshot, ver: nat)

  /** How an atomic file write can end; the rename may land although the directory sync after it fails. */
  datatype WriteOutcome = Landed | NotWritten | LandedUnsynced

  datatype Fetch = Failed | Disabled | Got(reply: Reply)

  datatype Edge = Edge(
    table: Epochs, cursor: nat, dirtyVer: nat, persistedVer: nat, durable: bool, file: Option<Snapshot>)

  function TakeSnapshot(e: Edge): (Edge, Job) {
    (e.(dirtyVer := e.dirtyVer + 1), Job(Snapshot(e.table, e.cursor), e.dirtyVer + 1))
  }

  function ApplyLocked(e: Edge, entries: seq<Record>, maxSeq: nat, now: nat): (Edge, Option<Job>) {
    var news := exists r | r in entries :: r.seqNo > e.cursor;
    if !news && maxSeq <= e.cursor then (e, None)
    else
      var (e', job) := TakeSnapshot(e.(
        table := ApplyEntries(e.table, entries, e.cursor, now), cursor := Later(e.cursor, maxSeq)));
      (e', Some(job))
  }

  function FlushLocked(e: Edge, maxSeq: nat, now: nat): (Edge, Job) {
    TakeSnapshot(e.(table := FlushTable(e.table, now), cursor := maxSeq))
  }

  function Persist(e: Edge, job: Job, outcome: WriteOutcome): Edge {
    if !e.durable || job.ver <= e.persistedVer then e
    else match outcome
      case Landed => e.(file := Some(job.snap), persistedVer := job.ver)
      case NotWritten => e
      case LandedUnsynced => e.(file := Some(job.snap))
  }

  /** The part of a poll that runs under the table's lock; the write of the returned job follows it. */
  function RefreshLocked(e: Edge, fetch: Fetch, now: nat): (Edge, Option<Job>) {
    match fetch
    case Failed => (e, None)
    case Disabled => (e, None)
    case Got(reply) =>
      if reply.flush || reply.maxSeq < e.cursor then
        var (e', job) := FlushLocked(e, reply.maxSeq, now);
        (e', Some(job))
      else ApplyLocked(e, reply.entries, reply.maxSeq, now)
  }

  /** A poll writes only if it tells something new: a flush, a record past the cursor, or a greater number. */
  lemma PollWritesIff(e: Edge, fetch: Fetch, now: nat)
    ensures var (e', job) := RefreshLocked(e, fetch, now);
            && (job.Some? <==> fetch.Got? && (|| fetch.reply.flush || fetch.reply.maxSeq != e.cursor
                                              || exists r | r in fetch.reply.entries :: r.seqNo > e.cursor))
            && (job.None? ==> e' == e)
            && (job.Some? ==> job.value == Job(Snapshot(e'.table, e'.cursor), e.dirtyVer + 1)
                              && e'.dirtyVer == e.dirtyVer + 1 && e'.cursor == fetch.reply.maxSeq)
            && e'.file == e.file && e'.persistedVer == e.persistedVer && e'.durable == e.durable
  {
  }

  /** A new process: a missing or unreadable state file leaves an empty table at cursor 0. */
  function Boot(durable: bool, file: Option<Snapshot>, readable: bool): Edge {
    if durable && file.Some? && readable then Edge(file.value.table, file.value.cursor, 0, 0, durable, file)
    else Edge(NO_EPOCHS, 0, 0, 0, durable, file)
  }

  class PurgeTable {
    var table: Epochs
    var cursor: nat
    var dirtyVer: nat
    var persistedVer: nat
    const durable: bool
    var file: Option<Snapshot>

    ghost function View(): Edge
      reads this
    {
      Edge(table, cursor, dirtyVer, persistedVer, durable, file)
    }

    constructor (durable: bool, file: Option<Snapshot>, readable: bool)
      ensures View() == Boot(durable, file, readable)
      ensures if durable && file.Some? && readable then table == file.value.table && cursor == file.value.cursor
              else table == Epochs(map[], 0) && cursor == 0
    {
      this.durable, this.file := durable, file;
      table, cursor, dirtyVer, persistedVer := NO_EPOCHS, 0, 0, 0;
      if durable && file.Some? && readable {
        table, cursor := file.value.table, file.value.cursor;
      }
    }

    method Snap() returns (job: Job)
      modifies this`dirtyVer
      ensures (View(), job) == TakeSnapshot(old(View()))
    {
      dirtyVer := dirtyVer + 1;
      job := Job(Snapshot(table, cursor), dirtyVer);
    }

    method ApplyBatch(entries: seq<Record>, maxSeq: nat, now: nat) returns (job: Option<Job>)
      modifies this`table, this`cursor, this`dirtyVer
      ensures (View(), job) == ApplyLocked(old(View()), entries, maxSeq, now)
    {
      var base, changed := cursor, false;
      ghost var before := table;
      var i := 0;
      while i < |entries|
        invariant 0 <= i <= |entries|
        invariant table == ApplyEntries(before, entries[..i], base, now)
        invariant changed <==> exists r | r in entries[..i] :: r.seqNo > base
        invariant cursor == base && dirtyVer == old(dirtyVer)
      {
        var e := entries[i];
        assert entries[..i + 1][..i] == entries[..i];
        assert entries[..i + 1] == entries[..i] + [e];
        if e.seqNo > base {
          table := Stamp(table, e.target, now);
          changed := true;
        }
        i := i + 1;
      }
      assert entries[..i] == entries;
      if maxSeq > cursor {
        cursor := maxSeq;
        changed := true;
      }
      if !changed {
        assert table == before by { NothingFresh(before, entries, base, now); }
        return None;
      }
      var j := Snap();
      return Some(j);
    }

    method FlushAll(maxSeq: nat, now: nat) returns (job: Job)
      modifies this`table, this`cursor, this`dirtyVer
      ensures (View(), job) == FlushLocked(old(View()), maxSeq, now)
    {
      table := FlushTable(table, now);
      cursor := maxSeq;
      job := Snap();
    }

    method Write(job: Job, outcome: WriteOutcome)
      modifies this`file, this`persistedVer
      ensures View() == Persist(old(View()), job, outcome)
    {
      if !durable || job.ver <= persistedVer {
        return;
      }
      if outcome != NotWritten {
        file := Some(job.snap);
      }
      if outcome == Landed {
        persistedVer := job.ver;
      }
    }

    /** One poll: a failed or disabled poll keeps everything; the flush path may move the cursor down. */
    method RefreshOnce(fetch: Fetch, now: nat, outcome: WriteOutcome)
      modifies this
      ensures var (e, job) := RefreshLocked(old(View()), fetch, now);
              View() == if job.Some? then Persist(e, job.value, outcome) else e
    {
      match fetch
      case Failed =>
      case Disabled =>
      case Got(reply) =>
        if reply.flush || reply.maxSeq < cursor {
          var job := FlushAll(reply.maxSeq, now);
          Write(job, outcome);
        } else {
          var job := ApplyBatch(reply.entries, reply.maxSeq, now);
          if job.Some? {
            Write(job.value, outcome);
          }
        }
    }
  }

  lemma {:induction false} NothingFresh(t: Epochs, entries: seq<Record>, base: nat, now: nat)
    requires forall r | r in entries :: r.seqNo <= base
    ensures ApplyEntries(t, entries, base, now) == t
  {
    if entries != [] {
      NothingFresh(t, entries[..|entries| - 1], base, now);
    }
  }
}
