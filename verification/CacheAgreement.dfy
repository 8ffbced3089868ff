/** When the cache disagrees with the database, and why. */
module CacheAgreement {
  import opened Options
  import opened CacheProtocol
  import opened CacheStaleness

  /** The commit will be, or should have been, followed by a DEL that has not gone through. */
  ghost predicate Unsettled(s: State, i: nat)
    requires i < |s.log|
  {
    s.log[i].writer.Some? ==>
      && s.log[i].writer.value < |s.writers|
      && s.writers[s.log[i].writer.value] in {Pending(s.log[i].id), Missed(s.log[i].id)}
  }

  /** Every commit has its writer; whatever was committed on a cached id since the entry was stored is unsettled. */
  ghost predicate WritersKnown(s: State) {
    forall i :: 0 <= i < |s.log| && s.log[i].writer.Some? ==> s.log[i].writer.value < |s.writers|
  }

  ghost predicate LaterUnsettled(s: State, id: int)
    requires id in s.cache
  {
    forall i: nat :: s.cache[id].storedAfter <= i < |s.log| && s.log[i].id == id ==> Unsettled(s, i)
  }

  ghost predicate Accounted(s: State) {
    WritersKnown(s) && forall id :: id in s.cache ==> LaterUnsettled(s, id)
  }

  lemma StepKeepsLater(p: Params, s: State, e: Event, id: int)
    requires Accounted(s) && Enabled(p, s, e) && id in Next(p, s, e).cache
    ensures LaterUnsettled(Next(p, s, e), id)
  {
    hide Hit, CurrentRow;
    var t := Next(p, s, e);
    if id in s.cache && t.cache[id] == s.cache[id] {
      assert LaterUnsettled(s, id);
      forall i: nat | t.cache[id].storedAfter <= i < |t.log| && t.log[i].id == id
        ensures Unsettled(t, i)
      {
        assert i < |s.log| ==> Unsettled(s, i);
      }
    }
  }

  lemma StepKeepsAccount(p: Params, s: State, e: Event)
    requires Accounted(s) && Enabled(p, s, e)
    ensures Accounted(Next(p, s, e))
  {
    var t := Next(p, s, e);
    assert WritersKnown(t) by {
      hide Hit, CurrentRow;
    }
    hide Next, Enabled, LaterUnsettled;
    forall id | id in t.cache
      ensures LaterUnsettled(t, id)
    {
      StepKeepsLater(p, s, e, id);
    }
  }

  lemma {:induction false} RunKeepsAccount(p: Params, s: State, es: seq<Event>)
    requires Accounted(s) && ValidRun(p, s, es)
    ensures Accounted(Exec(p, s, es))
    decreases |es|
  {
    hide Accounted;
    if es != [] {
      StepKeepsAccount(p, s, es[0]);
      RunKeepsAccount(p, Next(p, s, es[0]), es[1..]);
    }
  }

  /** The writer of commit i is in the given state. */
  ghost predicate WriterIs(s: State, i: nat, w: Writer)
    requires i < |s.log|
  {
    s.log[i].writer.Some? && s.log[i].writer.value < |s.writers| && s.writers[s.log[i].writer.value] == w
  }

  /** The id was committed after the entry was stored, by a writer that has yet to send its DEL. */
  ghost predicate PendingSince(s: State, id: int)
    requires id in s.cache
  {
    exists i: nat :: s.cache[id].storedAfter <= i < |s.log| && s.log[i].id == id && WriterIs(s, i, Pending(id))
  }

  /** The id was committed after the entry was stored, by a writer whose DEL did not go through. */
  ghost predicate MissedSince(s: State, id: int)
    requires id in s.cache
  {
    exists i: nat :: s.cache[id].storedAfter <= i < |s.log| && s.log[i].id == id && WriterIs(s, i, Missed(id))
  }

  /** The entry was stored by a load that straddles a commit of the id: read before it, SET after it. */
  ghost predicate CrossingLoad(s: State, id: int)
    requires id in s.cache
  {
    exists i :: s.cache[id].read.version <= i < s.cache[id].storedAfter && i < |s.log| && s.log[i].id == id
  }

  /** Such an entry holds the row as it was at its SET. */
  lemma UncrossedRow(p: Params, s: State, id: int)
    requires id in s.cache && EntryOk(p, s.log, s.clock, id, s.cache[id]) && !CrossingLoad(s, id)
    ensures s.cache[id].storedAfter <= |s.log|
    ensures s.cache[id].read.row == RowAfter(s.log, s.cache[id].storedAfter, id)
    ensures s.cache[id].read.row.Some?
  {
    var e := s.cache[id];
    hide RowAfter;
    RowUnchanged(s.log, e.read.version, e.storedAfter, id);
  }

  /** A commit on an existing row comes from an Update or a Delete. */
  lemma CommitHasWriter(log: seq<Commit>, clock: real, i: nat)
    requires LogOk(log, clock) && i < |log| && RowAfter(log, i, log[i].id).Some?
    ensures log[i].writer.Some?
  {
    hide RowAfter;
  }

  lemma CauseInState(p: Params, s: State, id: int)
    requires LogOk(s.log, s.clock) && id in s.cache && EntryOk(p, s.log, s.clock, id, s.cache[id])
    requires LaterUnsettled(s, id) && !CrossingLoad(s, id)
    requires s.cache[id].read.row != CurrentRow(s, id)
    ensures PendingSince(s, id) || MissedSince(s, id)
  {
    hide RowAfter, LogOk, EntryOk, CrossingLoad;
    UncrossedRow(p, s, id);
    var from := s.cache[id].storedAfter;
    var i := FirstCommit(s.log, from, id);
    RowUnchanged(s.log, from, i, id);
    CommitHasWriter(s.log, s.clock, i);
    assert Unsettled(s, i);
    assert WriterIs(s, i, Pending(id)) || WriterIs(s, i, Missed(id));
  }

  /** What the two invariants say about one entry of a reachable state. */
  lemma EntryHistory(p: Params, es: seq<Event>, id: int)
    requires p.Valid() && ValidRun(p, START, es) && id in Exec(p, START, es).cache
    ensures var s := Exec(p, START, es);
            LogOk(s.log, s.clock) && EntryOk(p, s.log, s.clock, id, s.cache[id]) && LaterUnsettled(s, id)
  {
    assert Accounted(START);
    hide ValidRun, Exec, LogOk, OnTime, EntryOk, FlightOk, CallOk, LaterUnsettled, WritersKnown;
    ReachableTraced(p, es);
    RunKeepsAccount(p, START, es);
  }

  /** In every reachable state a cached row that is not the database row has one of three causes: since it was stored
      the id was committed by a writer whose DEL is still to come, or by one whose DEL did not go through; or the load
      that stored it straddles a commit. */
  lemma CauseOfDisagreement(p: Params, es: seq<Event>, id: int)
    requires p.Valid() && ValidRun(p, START, es)
    requires id in Exec(p, START, es).cache
    requires var s := Exec(p, START, es);
             s.cache[id].read.row != CurrentRow(s, id)
    ensures var s := Exec(p, START, es);
            PendingSince(s, id) || MissedSince(s, id) || CrossingLoad(s, id)
  {
    hide ValidRun, Exec, LogOk, EntryOk, LaterUnsettled, CurrentRow, PendingSince, MissedSince, CrossingLoad;
    EntryHistory(p, es, id);
    if !CrossingLoad(Exec(p, START, es), id) {
      CauseInState(p, Exec(p, START, es), id);
    }
  }

  /** The first commit that changed the row of an id. */
  lemma {:induction false} FirstCommit(log: seq<Commit>, from: nat, id: int) returns (i: nat)
    requires from <= |log| && RowAfter(log, from, id) != RowAfter(log, |log|, id)
    ensures from <= i < |log| && log[i].id == id && forall j :: from <= j < i ==> log[j].id != id
    decreases |log| - from
  {
    if from < |log| && log[from].id == id {
      i := from;
    } else {
      i := FirstCommit(log, from + 1, id);
    }
  }

  ghost predicate DelsSucceed(es: seq<Event>) {
    forall e :: e in es && e.Invalidate? ==> e.ok
  }

  ghost predicate NoneMissed(s: State) {
    forall w :: 0 <= w < |s.writers| ==> !s.writers[w].Missed?
  }

  lemma StepMissesNothing(p: Params, s: State, e: Event)
    requires Enabled(p, s, e) && NoneMissed(s) && (e.Invalidate? ==> e.ok)
    ensures NoneMissed(Next(p, s, e))
  {
    hide Hit, CurrentRow;
  }

  lemma {:induction false} NothingMissed(p: Params, s: State, es: seq<Event>)
    requires ValidRun(p, s, es) && DelsSucceed(es) && NoneMissed(s)
    ensures NoneMissed(Exec(p, s, es))
    decreases |es|
  {
    hide Next, Enabled, NoneMissed;
    if es != [] {
      StepMissesNothing(p, s, es[0]);
      NothingMissed(p, Next(p, s, es[0]), es[1..]);
    }
  }

  lemma NoneMissedSince(s: State, id: int)
    requires id in s.cache && NoneMissed(s)
    ensures !MissedSince(s, id)
  {
  }

  /** If every DEL succeeds, then without a load that crosses a commit the cache agrees with the database on every
      id that no writer has committed since and is about to invalidate. */
  lemma AgreesUnlessCrossed(p: Params, es: seq<Event>, id: int)
    requires p.Valid() && ValidRun(p, START, es) && DelsSucceed(es)
    requires var s := Exec(p, START, es);
             id in s.cache && !PendingSince(s, id) && !CrossingLoad(s, id)
    ensures var s := Exec(p, START, es);
            s.cache[id].read.row == CurrentRow(s, id)
  {
    assert NoneMissed(START);
    hide ValidRun, Exec, DelsSucceed, CurrentRow, PendingSince, MissedSince, CrossingLoad, NoneMissed;
    NothingMissed(p, START, es);
    NoneMissedSince(Exec(p, START, es), id);
    if Exec(p, START, es).cache[id].read.row != CurrentRow(Exec(p, START, es), id) {
      CauseOfDisagreement(p, es, id);
    }
  }
}
