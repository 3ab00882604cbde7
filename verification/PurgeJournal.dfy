/** The control plane's bounded purge journal (edgecp/purgestore.go). */
module PurgeJournal {
  import opened Outcomes

  const DEFAULT_MAX_KEEP: nat := 4096

  datatype Scope = FlushAll | Host | Url | Prefix | Tag

  /** What a purge is aimed at; fields a scope does not use are "". */
  datatype Target = Target(scope: Scope, host: string, uri: string, tag: string)

  /** One journal entry, also the shape sent to an edge. */
  datatype Record = Record(seqNo: nat, target: Target)

  /** The answer to an edge's poll. */
  datatype Reply = Reply(entries: seq<Record>, maxSeq: nat, flush: bool)

  /** String helpers of the Go standard library, taken as given functions. */
  datatype Text = Text(trim: string -> string, normHost: string -> string)

  /** A well-formed purge can match something: what its scope matches on is present, the rest is blank. */
  predicate Addressable(t: Target) {
    match t.scope
    case FlushAll => t.host == "" && t.uri == "" && t.tag == ""
    case Host => t.host != "" && t.uri == "" && t.tag == ""
    case Url => t.host != "" && Rooted(t.uri) && t.tag == ""
    case Prefix => t.host != "" && Rooted(t.uri) && t.tag == ""
    case Tag => t.host == "" && t.uri == "" && t.tag != ""
  }

  predicate Rooted(uri: string) {
    |uri| > 0 && uri[0] == '/'
  }

  function ScopeOf(name: string): Option<Scope> {
    if name == "flush-all" then Some(FlushAll)
    else if name == "host" then Some(Host)
    else if name == "url" then Some(Url)
    else if name == "prefix" then Some(Prefix)
    else if name == "tag" then Some(Tag)
    else None
  }

  /** The validation half of Add: a rejected request never reaches the journal. */
  function Validate(text: Text, scope: string, host: string, uri: string, tag: string): (r: Option<Target>)
    ensures r.Some? ==> Addressable(r.value) && ScopeOf(text.trim(scope)) == Some(r.value.scope)
    ensures r.Some? ==>
              && (r.value.host != "" ==> r.value.host == text.normHost(host))
              && (r.value.uri != "" ==> r.value.uri == text.trim(uri))
              && (r.value.tag != "" ==> r.value.tag == text.trim(tag))
    ensures r.None? <==>
            match ScopeOf(text.trim(scope))
            case None => true
            case Some(FlushAll) => false
            case Some(Host) => text.normHost(host) == ""
            case Some(Tag) => text.trim(tag) == ""
            case Some(_) => text.normHost(host) == "" || !Rooted(text.trim(uri))
  {
    match ScopeOf(text.trim(scope))
    case None => None
    case Some(FlushAll) => Some(Target(FlushAll, "", "", ""))
    case Some(Host) =>
      var h := text.normHost(host);
      if h == "" then None else Some(Target(Host, h, "", ""))
    case Some(Tag) =>
      var t := text.trim(tag);
      if t == "" then None else Some(Target(Tag, "", "", t))
    case Some(s) =>
      var h := text.normHost(host);
      var u := text.trim(uri);
      if h == "" || !Rooted(u) then None else Some(Target(s, h, u, ""))
  }

  datatype Journal = Journal(entries: seq<Record>, lastSeq: nat, minSeq: nat, maxKeep: nat)

  function Empty(maxEntries: int): Journal {
    Journal([], 0, 1, if maxEntries <= 0 then DEFAULT_MAX_KEEP else maxEntries)
  }

  function Append(j: Journal, t: Target): Journal
    requires j.maxKeep > 0
  {
    var all := j.entries + [Record(j.lastSeq + 1, t)];
    var kept := if |all| > j.maxKeep then all[|all| - j.maxKeep..] else all;
    Journal(kept, j.lastSeq + 1, kept[0].seqNo, j.maxKeep)
  }

  /** flush-all and tag purges reach every edge; the others only an edge that may serve the host. */
  predicate Relevant(t: Target, allow: string -> bool) {
    t.scope == FlushAll || t.scope == Tag || allow(t.host)
  }

  function Pending(entries: seq<Record>, since: nat, allow: string -> bool): seq<Record> {
    if entries == [] then []
    else
      var last := entries[|entries| - 1];
      Pending(entries[..|entries| - 1], since, allow)
      + (if last.seqNo > since && Relevant(last.target, allow) then [last] else [])
  }

  function Answer(j: Journal, since: nat, allow: string -> bool): Reply {
    if since > j.lastSeq then Reply([], j.lastSeq, true)
    else if since + 1 < j.minSeq then Reply([], j.lastSeq, true)
    else Reply(Pending(j.entries, since, allow), j.lastSeq, false)
  }

  /**
   * The journal against everything ever accepted: `history[k]` is the purge with sequence number k + 1,
   * and the journal keeps exactly its newest maxKeep records.
   */
  ghost predicate Retains(j: Journal, history: seq<Target>) {
    var gone := |history| - |j.entries|;
    && j.maxKeep > 0
    && j.lastSeq == |history|
    && |j.entries| == (if |history| < j.maxKeep then |history| else j.maxKeep)
    && (forall i :: 0 <= i < |j.entries| ==> j.entries[i] == Record(gone + i + 1, history[gone + i]))
    && j.minSeq == gone + 1
  }

  lemma EmptyRetains(maxEntries: int)
    ensures Retains(Empty(maxEntries), [])
    ensures Empty(maxEntries).maxKeep == if maxEntries <= 0 then 4096 else maxEntries
  {
  }

  lemma AppendRetains(j: Journal, history: seq<Target>, t: Target)
    requires Retains(j, history)
    ensures Retains(Append(j, t), history + [t])
  {
    var all, after, j' := j.entries + [Record(j.lastSeq + 1, t)], history + [t], Append(j, t);
    var gone := |after| - |j'.entries|;
    forall i | 0 <= i < |j'.entries| ensures j'.entries[i] == Record(gone + i + 1, after[gone + i]) {
      var k := i + |all| - |j'.entries|;
      assert j'.entries[i] == all[k];
      assert k < |j.entries| ==> all[k] == j.entries[k];
    }
    assert j'.entries[0] == Record(gone + 1, after[gone]);
  }

  predicate Ascends(s: seq<Record>) {
    forall i, k | 0 <= i < k < |s| :: s[i].seqNo < s[k].seqNo
  }

  predicate AllBelow(s: seq<Record>, bound: nat) {
    forall i | 0 <= i < |s| :: s[i].seqNo < bound
  }

  lemma {:induction false} PendingIsBelow(entries: seq<Record>, since: nat, allow: string -> bool, bound: nat)
    requires AllBelow(entries, bound)
    ensures AllBelow(Pending(entries, since, allow), bound)
  {
    if entries != [] {
      assert AllBelow(entries[..|entries| - 1], bound);
      PendingIsBelow(entries[..|entries| - 1], since, allow, bound);
    }
  }

  lemma AscendsFurther(s: seq<Record>, r: Record)
    requires Ascends(s) && AllBelow(s, r.seqNo)
    ensures Ascends(s + [r])
  {
  }

  lemma {:induction false} PendingAscends(entries: seq<Record>, since: nat, allow: string -> bool)
    requires Ascends(entries)
    ensures Ascends(Pending(entries, since, allow))
  {
    if entries != [] {
      var init, last := entries[..|entries| - 1], entries[|entries| - 1];
      assert Ascends(init) && AllBelow(init, last.seqNo);
      PendingAscends(init, since, allow);
      PendingIsBelow(init, since, allow, last.seqNo);
      var before := Pending(init, since, allow);
      AscendsFurther(before, last);
      assert Pending(entries, since, allow) == before || Pending(entries, since, allow) == before + [last];
    }
  }

  lemma {:induction false} PendingMembers(entries: seq<Record>, since: nat, allow: string -> bool)
    ensures forall r :: r in Pending(entries, since, allow)
                        <==> r in entries && r.seqNo > since && Relevant(r.target, allow)
  {
    if entries != [] {
      var init, last := entries[..|entries| - 1], entries[|entries| - 1];
      PendingMembers(init, since, allow);
      assert entries == init + [last];
    }
  }

  /** A purge that this edge has to act on: flush-all and tag purges, and those of a host it may serve. */
  predicate Due(t: Target, allow: string -> bool) {
    match t.scope
    case FlushAll => true
    case Tag => true
    case Host => allow(t.host)
    case Url => allow(t.host)
    case Prefix => allow(t.host)
  }

  lemma AnswerHolds(j: Journal, history: seq<Target>, since: nat, allow: string -> bool, r: Record)
    requires Retains(j, history) && !Answer(j, since, allow).flush
    ensures r in Answer(j, since, allow).entries <==>
              since < r.seqNo <= |history| && r.target == history[r.seqNo - 1] && Due(r.target, allow)
  {
    PendingMembers(j.entries, since, allow);
    var gone := |history| - |j.entries|;
    if since < r.seqNo <= |history| && r.target == history[r.seqNo - 1] {
      assert j.entries[r.seqNo - 1 - gone] == r;
    }
  }

  lemma AnswerIsInOrder(j: Journal, history: seq<Target>, since: nat, allow: string -> bool)
    requires Retains(j, history)
    ensures Ascends(Answer(j, since, allow).entries)
  {
    PendingAscends(j.entries, since, allow);
  }

  /**
   * Over the full history: a flush is demanded exactly when the cursor is ahead of the journal or the
   * next record it needs was trimmed; any other answer carries, in order and once each, every purge past the
   * cursor that is due to this edge and nothing else, although the journal has forgotten its oldest records.
   */
  lemma AnswerAgainstHistory(j: Journal, history: seq<Target>, since: nat, allow: string -> bool)
    requires Retains(j, history)
    ensures var a := Answer(j, since, allow);
            && a.maxSeq == |history|
            && (a.flush <==> since > |history| || since < |history| - j.maxKeep)
            && (a.flush ==> a.entries == [])
            && (!a.flush ==> forall r :: r in a.entries <==>
                  && since < r.seqNo <= |history|
                  && r.target == history[r.seqNo - 1]
                  && Due(r.target, allow))
            && Ascends(a.entries)
  {
    AnswerIsInOrder(j, history, since, allow);
    if !Answer(j, since, allow).flush {
      forall r ensures r in Answer(j, since, allow).entries <==>
                       since < r.seqNo <= |history| && r.target == history[r.seqNo - 1] && Due(r.target, allow)
      {
        AnswerHolds(j, history, since, allow, r);
      }
    }
  }

  /**
   * What an edge that starts over from cursor 0 gets: it is told to flush exactly when the journal has
   * already trimmed a record, and is otherwise given every relevant record of this journal.
   */
  lemma RestartFromZero(j: Journal, history: seq<Target>, allow: string -> bool)
    requires Retains(j, history)
    ensures Answer(j, 0, allow).flush <==> |history| > j.maxKeep
  {
    AnswerAgainstHistory(j, history, 0, allow);
  }

  class PurgeStore {
    var entries: seq<Record>
    var lastSeq: nat
    var minSeq: nat
    const maxKeep: nat
    const text: Text

    ghost var history: seq<Target>

    ghost function View(): Journal
      reads this
    {
      Journal(entries, lastSeq, minSeq, maxKeep)
    }

    ghost predicate Valid()
      reads this
    {
      Retains(View(), history)
    }

    constructor (maxEntries: int, text: Text)
      ensures Valid() && View() == Empty(maxEntries) && history == [] && this.text == text
    {
      entries, lastSeq, minSeq, history := [], 0, 1, [];
      maxKeep := if maxEntries <= 0 then DEFAULT_MAX_KEEP else maxEntries;
      this.text := text;
    }

    /** Appends a validated purge, trims the oldest records past maxKeep; a rejected request changes nothing. */
    method Add(scope: string, host: string, uri: string, tag: string) returns (seqNo: nat, ok: bool)
      requires Valid()
      modifies this
      ensures Valid()
      ensures var v := Validate(text, scope, host, uri, tag);
              if v.Some? then
                ok && seqNo == lastSeq && View() == Append(old(View()), v.value) && history == old(history) + [v.value]
              else
                !ok && seqNo == 0 && View() == old(View()) && history == old(history)
    {
      var v := Validate(text, scope, host, uri, tag);
      if v.None? {
        return 0, false;
      }
      AppendRetains(View(), history, v.value);
      lastSeq := lastSeq + 1;
      entries := entries + [Record(lastSeq, v.value)];
      if |entries| > maxKeep {
        entries := entries[|entries| - maxKeep..];
      }
      minSeq := entries[0].seqNo;
      history := history + [v.value];
      return lastSeq, true;
    }

    method Since(since: nat, allow: string -> bool) returns (reply: Reply)
      ensures reply == Answer(View(), since, allow)
      ensures !reply.flush ==> forall e :: e in reply.entries <==>
                e in entries && e.seqNo > since && Due(e.target, allow)
    {
      if since > lastSeq {
        return Reply([], lastSeq, true);
      }
      if since + 1 < minSeq {
        return Reply([], lastSeq, true);
      }
      var out := [];
      var i := 0;
      while i < |entries|
        invariant 0 <= i <= |entries|
        invariant out == Pending(entries[..i], since, allow)
      {
        var e := entries[i];
        assert entries[..i + 1][..i] == entries[..i];
        if e.seqNo > since && Relevant(e.target, allow) {
          out := out + [e];
        }
        i := i + 1;
      }
      assert entries[..i] == entries;
      PendingMembers(entries, since, allow);
      return Reply(out, lastSeq, false);
    }
  }
}
