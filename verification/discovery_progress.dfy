/** How the page-limited object scan gets to the end of its listing over many runs. */
module ScanProgress {
  import opened Models
  import opened DiscoveryStore
  import opened DiscoveryScan
  import opened DiscoveryCoverage

  /** The server does not reject the cursor, and an end cursor with more to follow lies further on. */
  ghost predicate Forward(server: Server, cursor: Option<string>, a: Answer) {
    !a.InvalidCursor? && (a.Page? && a.hasNext ==> server.At(cursor) < server.At(a.endCursor))
  }

  ghost predicate ForwardScan(dex: string, server: Server, s: ScanState, answers: seq<Answer>)
    decreases |answers|
  {
    answers == [] || s.halted
    || (&& HonestAnswer(server, s.progress.pageCursor, answers[0])
        && Forward(server, s.progress.pageCursor, answers[0])
        && ForwardScan(dex, server, ObjectStep(dex, s, answers[0]), answers[1..]))
  }

  /** The run commits at least its first page. */
  predicate CommitsOne(answers: seq<Answer>) {
    answers != [] && answers[0].Page? && answers[0].commits
  }

  /** Runs of `dex` move forward and commit something; the others may do anything but write its object row. */
  ghost predicate ForwardActivity(db: Database, dex: string, server: Server, a: Activity) {
    && (a.ScanObjects? && a.dexOf == dex ==>
          ForwardScan(dex, server, StartObjectScan(db, dex), a.answers) && CommitsOne(a.answers))
    && (a.ScanEvents? && a.dexOf == dex ==> a.eventType != OBJECT_KEY)
  }

  ghost predicate ForwardActivities(db: Database, dex: string, server: Server, activities: seq<Activity>) {
    activities == []
    || (&& ForwardActivities(db, dex, server, activities[..|activities| - 1])
        && ForwardActivity(PerformAll(db, activities[..|activities| - 1]), dex, server, activities[|activities| - 1]))
  }

  /** How often the objects of `dex` have been scanned. */
  function RunsOf(dex: string, activities: seq<Activity>): nat {
    if activities == [] then 0
    else
      var last := activities[|activities| - 1];
      RunsOf(dex, activities[..|activities| - 1]) + if last.ScanObjects? && last.dexOf == dex then 1 else 0
  }

  /** The cursor the next run of `dex` starts from. */
  function NextCursor(db: Database, dex: string): Option<string> {
    LoadProgress(db, NewObjectBootstrap(dex)).pageCursor
  }

  /** The bootstrap is complete or the durable cursor has reached position `n`. */
  ghost predicate Far(db: Database, dex: string, server: Server, n: nat) {
    Completed(db, dex) || n <= server.At(NextCursor(db, dex))
  }

  /** While the scan runs, its volatile row is the durable one, or the row a first commit would create. */
  ghost predicate InStep(s: ScanState, dex: string) {
    && s.progress.dexName == dex && s.progress.sourceKey == OBJECT_KEY
    && (!s.halted ==> s.progress == LoadProgress(s.db, NewObjectBootstrap(dex)))
  }

  lemma ForwardStep(dex: string, server: Server, s: ScanState, a: Answer, n: nat)
    requires InStep(s, dex) && !s.halted && Far(s.db, dex, server, n)
    requires HonestAnswer(server, s.progress.pageCursor, a) && Forward(server, s.progress.pageCursor, a)
    ensures var next := ObjectStep(dex, s, a);
      && InStep(next, dex) && Far(next.db, dex, server, n)
      && (a.Page? && a.commits && n < |server.listing| ==> Far(next.db, dex, server, n + 1))
  {
  }

  lemma {:induction false} ForwardKeeps(dex: string, server: Server, s: ScanState, answers: seq<Answer>, n: nat)
    requires InStep(s, dex) && ForwardScan(dex, server, s, answers) && Far(s.db, dex, server, n)
    ensures Far(ObjectScan(dex, s, answers).db, dex, server, n)
    decreases |answers|
  {
    if answers != [] && !s.halted {
      ForwardStep(dex, server, s, answers[0], n);
      ForwardKeeps(dex, server, ObjectStep(dex, s, answers[0]), answers[1..], n);
    }
  }

  /** Each run gets at least one position further, however few pages it may read. */
  lemma RunAdvances(db: Database, dex: string, server: Server, answers: seq<Answer>, n: nat)
    requires WellKeyed(db) && Far(db, dex, server, n) && n < |server.listing|
    requires ForwardScan(dex, server, StartObjectScan(db, dex), answers) && CommitsOne(answers)
    ensures Far(Perform(db, ScanObjects(dex, answers)), dex, server, n + 1)
  {
    var s := StartObjectScan(db, dex);
    ForwardStep(dex, server, s, answers[0], n);
    ForwardKeeps(dex, server, ObjectStep(dex, s, answers[0]), answers[1..], n + 1);
  }

  // ----- the other activities leave the row alone

  predicate SameRow(before: Database, after: Database, key: Key) {
    (key in before.progress <==> key in after.progress)
    && (key in before.progress ==> before.progress[key] == after.progress[key])
  }

  lemma {:induction false} OtherObjectsKeepRow(dex: string, s: ScanState, answers: seq<Answer>, key: Key)
    requires (s.progress.dexName, s.progress.sourceKey) != key
    ensures SameRow(s.db, ObjectScan(dex, s, answers).db, key)
    decreases |answers|
  {
    if answers != [] && !s.halted {
      OtherObjectsKeepRow(dex, ObjectStep(dex, s, answers[0]), answers[1..], key);
    }
  }

  lemma {:induction false} OtherEventsKeepRow(
    dex: string, first: Option<nat>, s: ScanState, answers: seq<EventAnswer>, key: Key)
    requires (s.progress.dexName, s.progress.sourceKey) != key
    ensures SameRow(s.db, EventScan(dex, first, s, answers).db, key)
    decreases |answers|
  {
    if answers != [] && !s.halted {
      OtherEventsKeepRow(dex, first, EventStep(dex, first, s, answers[0]), answers[1..], key);
    }
  }

  lemma ActivityAdvances(db: Database, dex: string, server: Server, a: Activity, n: nat)
    requires dex != UNKNOWN_DEX && WellKeyed(db) && Far(db, dex, server, n)
    requires ForwardActivity(db, dex, server, a)
    ensures Far(Perform(db, a), dex, server, n)
    ensures a.ScanObjects? && a.dexOf == dex && n < |server.listing| ==> Far(Perform(db, a), dex, server, n + 1)
  {
    match a
    case ScanObjects(other, answers) =>
      if other == dex {
        ForwardKeeps(dex, server, StartObjectScan(db, dex), answers, n);
        if n < |server.listing| {
          RunAdvances(db, dex, server, answers, n);
        }
      } else {
        OtherObjectsKeepRow(other, StartObjectScan(db, other), answers, (dex, OBJECT_KEY));
      }
    case ScanEvents(other, eventType, first, answers) =>
      OtherEventsKeepRow(other, first, StartEventScan(db, other, eventType), answers, (dex, OBJECT_KEY));
    case HydrateOne(_, _, _) =>
    case SavePool(_) =>
  }

  lemma {:induction false} ActivitiesAdvance(db: Database, dex: string, server: Server, activities: seq<Activity>)
    requires dex != UNKNOWN_DEX && WellKeyed(db) && ForwardActivities(db, dex, server, activities)
    ensures WellKeyed(PerformAll(db, activities))
    ensures var runs, n := RunsOf(dex, activities), |server.listing|;
      Far(PerformAll(db, activities), dex, server, if runs < n then runs else n)
  {
    if activities != [] {
      var front, last := activities[..|activities| - 1], activities[|activities| - 1];
      ActivitiesAdvance(db, dex, server, front);
      ActivityKeyed(PerformAll(db, front), last);
      var runs, n := RunsOf(dex, front), |server.listing|;
      ActivityAdvances(PerformAll(db, front), dex, server, last, if runs < n then runs else n);
    }
  }

  /** As many runs as there are objects bring the bootstrap to completion, or the durable cursor behind the last
      object, whatever else happens between them. */
  lemma RunsReachTheEnd(db: Database, dex: string, server: Server, activities: seq<Activity>)
    requires dex != UNKNOWN_DEX && WellKeyed(db) && ForwardActivities(db, dex, server, activities)
    requires RunsOf(dex, activities) >= |server.listing|
    ensures var end := PerformAll(db, activities);
      Completed(end, dex) || PastEnd(server, NextCursor(end, dex))
  {
    ActivitiesAdvance(db, dex, server, activities);
  }

  // ----- a server that announces more only when there is more

  ghost predicate TellsTheEnd(server: Server, a: Answer) {
    a.Page? && a.hasNext ==> !PastEnd(server, a.endCursor)
  }

  ghost predicate ServerTellsTheEnd(dex: string, server: Server, a: Activity) {
    a.ScanObjects? && a.dexOf == dex ==> forall k :: 0 <= k < |a.answers| ==> TellsTheEnd(server, a.answers[k])
  }

  lemma {:induction false} NotPastEndKept(dex: string, server: Server, s: ScanState, answers: seq<Answer>)
    requires server.listing != [] && InStep(s, dex) && !PastEnd(server, NextCursor(s.db, dex))
    requires ForwardScan(dex, server, s, answers)
    requires forall k :: 0 <= k < |answers| ==> TellsTheEnd(server, answers[k])
    ensures !PastEnd(server, NextCursor(ObjectScan(dex, s, answers).db, dex))
    decreases |answers|
  {
    if answers != [] && !s.halted {
      assert TellsTheEnd(server, answers[0]);
      NotPastEndKept(dex, server, ObjectStep(dex, s, answers[0]), answers[1..]);
    }
  }

  lemma {:induction false} StaysBeforeEnd(db: Database, dex: string, server: Server, activities: seq<Activity>)
    requires dex != UNKNOWN_DEX && WellKeyed(db) && ForwardActivities(db, dex, server, activities)
    requires server.listing != [] && !PastEnd(server, NextCursor(db, dex))
    requires forall k :: 0 <= k < |activities| ==> ServerTellsTheEnd(dex, server, activities[k])
    ensures WellKeyed(PerformAll(db, activities))
    ensures !PastEnd(server, NextCursor(PerformAll(db, activities), dex))
  {
    if activities != [] {
      var front, last := activities[..|activities| - 1], activities[|activities| - 1];
      StaysBeforeEnd(db, dex, server, front);
      ActivityKeyed(PerformAll(db, front), last);
      assert ServerTellsTheEnd(dex, server, last);
      LastStaysBeforeEnd(PerformAll(db, front), dex, server, last);
    }
  }

  lemma LastStaysBeforeEnd(db: Database, dex: string, server: Server, a: Activity)
    requires dex != UNKNOWN_DEX && WellKeyed(db) && ForwardActivity(db, dex, server, a)
    requires server.listing != [] && !PastEnd(server, NextCursor(db, dex)) && ServerTellsTheEnd(dex, server, a)
    ensures !PastEnd(server, NextCursor(Perform(db, a), dex))
  {
    match a
    case ScanObjects(other, answers) =>
      if other == dex {
        NotPastEndKept(dex, server, StartObjectScan(db, dex), answers);
      } else {
        OtherObjectsKeepRow(other, StartObjectScan(db, other), answers, (dex, OBJECT_KEY));
      }
    case ScanEvents(other, eventType, first, answers) =>
      OtherEventsKeepRow(other, first, StartEventScan(db, other, eventType), answers, (dex, OBJECT_KEY));
    case HydrateOne(_, _, _) =>
    case SavePool(_) =>
  }

  /** With such a server as many runs as there are objects complete the bootstrap, from empty tables or from any
      state in which the durable cursor is not past the end. */
  lemma RunsComplete(db: Database, dex: string, server: Server, activities: seq<Activity>)
    requires dex != UNKNOWN_DEX && WellKeyed(db) && ForwardActivities(db, dex, server, activities)
    requires server.listing != [] && !PastEnd(server, NextCursor(db, dex))
    requires forall k :: 0 <= k < |activities| ==> ServerTellsTheEnd(dex, server, activities[k])
    requires RunsOf(dex, activities) >= |server.listing|
    ensures Completed(PerformAll(db, activities), dex)
  {
    RunsReachTheEnd(db, dex, server, activities);
    StaysBeforeEnd(db, dex, server, activities);
  }
}
