/** What the scans guarantee over any sequence of runs: nothing before the durable cursor is lost, and
    checkpoints never go back. */
module DiscoveryCoverage {
  import opened Models
  import opened DiscoveryStore
  import opened DiscoveryScan

  /** A fixed listing; a cursor stands for a position in it. */
  datatype Server = Server(listing: seq<ObjectRef>, position: string -> nat)
  {
    function At(cursor: Option<string>): nat {
      match cursor
      case None => 0
      case Some(c) => position(c)
    }
  }

  /** The object is known as a pool, or as a failure to be looked at again. */
  predicate Accounted(db: Database, dex: string, o: ObjectRef) {
    o.poolId in db.pools || (dex, ObjectEvent(o.poolId)) in db.failures
  }

  ghost predicate AccountedUpTo(db: Database, dex: string, server: Server, n: nat) {
    forall i :: 0 <= i < n && i < |server.listing| ==> Accounted(db, dex, server.listing[i])
  }

  ghost predicate ProgressHonest(db: Database, dex: string, server: Server, p: Progress) {
    && AccountedUpTo(db, dex, server, server.At(p.pageCursor))
    && (p.bootstrapComplete ==> AccountedUpTo(db, dex, server, |server.listing|))
  }

  /** The durable invariant for one DEX. */
  ghost predicate Sound(db: Database, dex: string, server: Server) {
    && WellKeyed(db)
    && ((dex, OBJECT_KEY) in db.progress ==> ProgressHonest(db, dex, server, db.progress[(dex, OBJECT_KEY)]))
  }

  /** The server lists what follows the cursor it was given, ends only at the end, and its end cursor
      does not jump over anything. It may fail, reject cursors, send short pages and repeat itself. */
  ghost predicate HonestAnswer(server: Server, cursor: Option<string>, a: Answer) {
    a.Page? ==>
      var from, n := server.At(cursor), |a.objects|;
      && (n > 0 ==> from + n <= |server.listing| && server.listing[from..from + n] == a.objects)
      && (!a.hasNext ==> from + n >= |server.listing|)
      && (a.hasNext ==> server.At(a.endCursor) <= from + n)
      && forall o :: HydratesPool(o, a.hydrate(o))
  }

  /** A hydrated object's commit stores the object's pool and resolves nothing. */
  ghost predicate HydratesPool(o: ObjectRef, r: Hydrated) {
    r.Ok? ==> HasPool(r.value.pools, o.poolId) && r.value.resolvedFailureIds == []
  }

  ghost predicate HonestScan(dex: string, server: Server, s: ScanState, answers: seq<Answer>)
    decreases |answers|
  {
    answers == [] || s.halted
    || (HonestAnswer(server, s.progress.pageCursor, answers[0])
        && HonestScan(dex, server, ObjectStep(dex, s, answers[0]), answers[1..]))
  }

  // ----- one page

  ghost predicate InGathered(dex: string, g: Gathered, o: ObjectRef) {
    HasPool(g.pools, o.poolId) || HasFailure(g.failures, (dex, ObjectEvent(o.poolId)))
  }

  lemma MergeKeeps(dex: string, g: Gathered, c: PageCommit, o: ObjectRef)
    ensures InGathered(dex, g, o) || HasPool(c.pools, o.poolId) ==> InGathered(dex, Merge(g, c), o)
  {
    var m := Merge(g, c);
    if HasPool(g.pools, o.poolId) {
      var i :| 0 <= i < |g.pools| && g.pools[i].poolId == o.poolId;
      assert m.pools[i].poolId == o.poolId;
    } else if HasPool(c.pools, o.poolId) {
      var i :| 0 <= i < |c.pools| && c.pools[i].poolId == o.poolId;
      assert m.pools[|g.pools| + i].poolId == o.poolId;
    } else if InGathered(dex, g, o) {
      var key := (dex, ObjectEvent(o.poolId));
      var i :| 0 <= i < |g.failures| && (g.failures[i].dexName, g.failures[i].eventId) == key;
      assert m.failures[i] == g.failures[i];
    }
  }

  lemma FailKeeps(dex: string, g: Gathered, f: Failure, o: ObjectRef)
    ensures InGathered(dex, g, o) || (f.dexName, f.eventId) == (dex, ObjectEvent(o.poolId))
            ==> InGathered(dex, Fail(g, f), o)
  {
    var g' := Fail(g, f);
    assert g'.failures[|g.failures|] == f;
    if HasFailure(g.failures, (dex, ObjectEvent(o.poolId))) {
      var i :| 0 <= i < |g.failures|
               && (g.failures[i].dexName, g.failures[i].eventId) == (dex, ObjectEvent(o.poolId));
      assert g'.failures[i] == g.failures[i];
    }
  }

  /** Every object of a page ends up among the page's pools or failures, and nothing is resolved. */
  lemma {:induction false} PageAccounts(dex: string, objects: seq<ObjectRef>, hydrate: ObjectRef -> Hydrated, k: nat)
    requires k < |objects| && forall o :: HydratesPool(o, hydrate(o))
    ensures InGathered(dex, GatherObjects(dex, objects, hydrate), objects[k])
    decreases |objects|
  {
    var front, last := objects[..|objects| - 1], objects[|objects| - 1];
    var g := GatherObjects(dex, front, hydrate);
    SeenAreGathered(dex, front, hydrate, last);
    if k < |front| {
      PageAccounts(dex, front, hydrate, k);
    }
    var o := objects[k];
    assert HydratesPool(last, hydrate(last));
    StepKeeps(dex, g, last, hydrate, o);
  }

  lemma StepKeeps(dex: string, g: Gathered, last: ObjectRef, hydrate: ObjectRef -> Hydrated, o: ObjectRef)
    requires HydratesPool(last, hydrate(last))
    requires InGathered(dex, g, o) || (o.poolId == last.poolId && (last.parseError.Some? || o.poolId !in g.seen))
    ensures InGathered(dex, GatherObject(dex, g, last, hydrate), o)
  {
    var g' := g.(seen := g.seen + {last.poolId});
    if last.parseError.Some? {
      FailKeeps(dex, g, Failure(dex, ObjectEvent(last.poolId), Some(last.poolId), last.parseError.value, 1), o);
    } else if last.poolId !in g.seen {
      match hydrate(last)
      case Ok(c) => MergeKeeps(dex, g', c, o);
      case Err(reason) =>
        FailKeeps(dex, g', Failure(dex, ObjectEvent(last.poolId), Some(last.poolId), reason, 1), o);
    }
  }

  lemma {:induction false} SeenAreGathered(
    dex: string, objects: seq<ObjectRef>, hydrate: ObjectRef -> Hydrated, o: ObjectRef)
    requires forall x :: HydratesPool(x, hydrate(x))
    ensures var g := GatherObjects(dex, objects, hydrate);
      (o.poolId in g.seen ==> InGathered(dex, g, o)) && g.resolved == []
    decreases |objects|
  {
    if objects != [] {
      var front, last := objects[..|objects| - 1], objects[|objects| - 1];
      SeenAreGathered(dex, front, hydrate, o);
      assert HydratesPool(last, hydrate(last));
      var g := GatherObjects(dex, front, hydrate);
      if InGathered(dex, g, o) || (o.poolId == last.poolId && o.poolId !in g.seen) {
        StepKeeps(dex, g, last, hydrate, o);
      }
    }
  }

  /** A commit keeps what was accounted for, unless it resolves the object's failure. */
  lemma CommitKeepsAccounts(db: Database, c: PageCommit, dex: string, o: ObjectRef)
    requires c.progress.dexName == dex ==> ObjectEvent(o.poolId) !in c.resolvedFailureIds
    ensures Accounted(db, dex, o) ==> Accounted(Committed(db, c), dex, o)
    ensures HasPool(c.pools, o.poolId) || HasFailure(c.failures, (dex, ObjectEvent(o.poolId)))
            ==> Accounted(Committed(db, c), dex, o)
  {
    CommitKeepsRows(db, c);
  }

  // ----- one object scan

  /** What holds while the scan of `dex` runs. */
  ghost predicate Scanning(s: ScanState, dex: string, server: Server) {
    && Sound(s.db, dex, server)
    && s.progress.dexName == dex && s.progress.sourceKey == OBJECT_KEY
    && (!s.halted ==> ProgressHonest(s.db, dex, server, s.progress))
  }

  lemma ObjectStepSound(dex: string, server: Server, s: ScanState, a: Answer)
    requires Scanning(s, dex, server) && !s.halted && HonestAnswer(server, s.progress.pageCursor, a)
    ensures Scanning(ObjectStep(dex, s, a), dex, server)
  {
    if a.Page? && a.commits {
      var from := server.At(s.progress.pageCursor);
      if a.objects == [] && !a.hasNext {
        CommitSound(s, dex, server, s.progress, NOTHING, from);
      } else {
        var g := GatherObjects(dex, a.objects, a.hydrate);
        var p := AfterObjectPage(s.progress, g.discovered, a.hasNext, a.endCursor);
        forall i | from <= i < from + |a.objects|
          ensures InGathered(dex, g, server.listing[i])
        {
          assert server.listing[i] == a.objects[i - from];
          PageAccounts(dex, a.objects, a.hydrate, i - from);
        }
        SeenAreGathered(dex, a.objects, a.hydrate, ObjectRef("", None));
        CommitSound(s, dex, server, p, g, from + |a.objects|);
      }
    }
  }

  /** Committing a page that accounts for everything up to position `n` with a cursor at most there. */
  lemma CommitSound(s: ScanState, dex: string, server: Server, p: Progress, g: Gathered, n: nat)
    requires Scanning(s, dex, server) && !s.halted && g.resolved == []
    requires p.dexName == dex && p.sourceKey == OBJECT_KEY
    requires forall i :: server.At(s.progress.pageCursor) <= i < n && i < |server.listing| ==>
        InGathered(dex, g, server.listing[i])
    requires server.At(p.pageCursor) <= n
    requires p.bootstrapComplete ==> s.progress.bootstrapComplete || n >= |server.listing|
    ensures var db := Committed(s.db, CommitOf(p, g));
      Sound(db, dex, server) && ProgressHonest(db, dex, server, p)
  {
    var c := CommitOf(p, g);
    forall i | 0 <= i < |server.listing| && (i < n || s.progress.bootstrapComplete)
      ensures Accounted(Committed(s.db, c), dex, server.listing[i])
    {
      CommitKeepsAccounts(s.db, c, dex, server.listing[i]);
    }
  }

  lemma {:induction false} ObjectScanSound(dex: string, server: Server, s: ScanState, answers: seq<Answer>)
    requires Scanning(s, dex, server) && HonestScan(dex, server, s, answers)
    ensures Sound(ObjectScan(dex, s, answers).db, dex, server)
    decreases |answers|
  {
    if answers != [] && !s.halted {
      ObjectStepSound(dex, server, s, answers[0]);
      ObjectScanSound(dex, server, ObjectStep(dex, s, answers[0]), answers[1..]);
    }
  }

  // ----- any sequence of runs

  /** Everything that writes to the tables: scans of any DEX (cut short anywhere), retries, reconciliation,
      and the queue's writer. */
  datatype Activity =
    | ScanObjects(dexOf: string, answers: seq<Answer>)
    | ScanEvents(dexOf: string, eventType: string, first: Option<nat>, eventAnswers: seq<EventAnswer>)
    | HydrateOne(pool: PoolState, tokens: seq<TokenInfo>, resolvedEvent: Option<string>)
    | SavePool(pool: PoolState)

  function Perform(db: Database, a: Activity): Database {
    match a
    case ScanObjects(dex, answers) => ObjectScan(dex, StartObjectScan(db, dex), answers).db
    case ScanEvents(dex, eventType, first, answers) =>
      EventScan(dex, first, StartEventScan(db, dex, eventType), answers).db
    case HydrateOne(pool, tokens, resolved) => Committed(db, SinglePoolCommit(pool, tokens, resolved))
    case SavePool(pool) => db.(pools := db.pools[pool.poolId := pool])
  }

  function PerformAll(db: Database, activities: seq<Activity>): Database {
    if activities == [] then db
    else Perform(PerformAll(db, activities[..|activities| - 1]), activities[|activities| - 1])
  }

  /** The server is honest towards the scans of `dex`, and event ids are not object ids in disguise. */
  ghost predicate HonestActivity(db: Database, dex: string, server: Server, a: Activity) {
    && (a.ScanObjects? && a.dexOf == dex ==> HonestScan(dex, server, StartObjectScan(db, dex), a.answers))
    && (a.ScanEvents? && a.dexOf == dex ==> a.eventType != OBJECT_KEY && forall k :: 0 <= k < |a.eventAnswers| ==>
          ResolvesNoObject(a.eventAnswers[k]))
  }

  ghost predicate ResolvesNoObject(a: EventAnswer) {
    a.EventPage? ==> forall e :: NamesNoObject(a.hydrateEvent(e))
  }

  ghost predicate NamesNoObject(r: Hydrated) {
    r.Ok? ==> forall id :: ObjectEvent(id) !in r.value.resolvedFailureIds
  }

  ghost predicate HonestActivities(db: Database, dex: string, server: Server, activities: seq<Activity>) {
    activities == []
    || (&& HonestActivities(db, dex, server, activities[..|activities| - 1])
        && HonestActivity(PerformAll(db, activities[..|activities| - 1]), dex, server, activities[|activities| - 1]))
  }

  /** A commit that does not touch the scan's progress row and resolves no object keeps the invariant. */
  lemma OtherCommitSound(db: Database, c: PageCommit, dex: string, server: Server)
    requires Sound(db, dex, server) && (c.progress.dexName, c.progress.sourceKey) != (dex, OBJECT_KEY)
    requires c.progress.dexName == dex ==> forall id :: ObjectEvent(id) !in c.resolvedFailureIds
    ensures Sound(Committed(db, c), dex, server)
  {
    forall i | 0 <= i < |server.listing| && Accounted(db, dex, server.listing[i])
      ensures Accounted(Committed(db, c), dex, server.listing[i])
    {
      CommitKeepsAccounts(db, c, dex, server.listing[i]);
    }
  }

  lemma OtherObjectStepSound(dex: string, server: Server, other: string, s: ScanState, a: Answer)
    requires other != dex && Sound(s.db, dex, server) && s.progress.dexName == other
    ensures var next := ObjectStep(other, s, a);
      Sound(next.db, dex, server) && next.progress.dexName == other
  {
    if a.Page? && a.commits {
      if a.objects == [] && !a.hasNext {
        OtherCommitSound(s.db, CommitOf(s.progress, NOTHING), dex, server);
      } else {
        var g := GatherObjects(other, a.objects, a.hydrate);
        var p := AfterObjectPage(s.progress, g.discovered, a.hasNext, a.endCursor);
        OtherCommitSound(s.db, CommitOf(p, g), dex, server);
      }
    }
  }

  lemma {:induction false} OtherObjectScanSound(
    dex: string, server: Server, other: string, s: ScanState, answers: seq<Answer>)
    requires other != dex && Sound(s.db, dex, server) && s.progress.dexName == other
    ensures Sound(ObjectScan(other, s, answers).db, dex, server)
    decreases |answers|
  {
    if answers != [] && !s.halted {
      OtherObjectStepSound(dex, server, other, s, answers[0]);
      OtherObjectScanSound(dex, server, other, ObjectStep(other, s, answers[0]), answers[1..]);
    }
  }

  lemma {:induction false} EventsResolveNoObject(dex: string, events: seq<EventRef>, hydrate: EventRef -> Hydrated)
    requires forall e :: NamesNoObject(hydrate(e))
    ensures forall id :: ObjectEvent(id) !in GatherEvents(dex, events, hydrate).resolved
  {
    if events != [] {
      EventsResolveNoObject(dex, events[..|events| - 1], hydrate);
      assert NamesNoObject(hydrate(events[|events| - 1]));
    }
  }

  lemma EventStepSound(
    dex: string, server: Server, other: string, first: Option<nat>, s: ScanState, a: EventAnswer)
    requires Sound(s.db, dex, server) && s.progress.dexName == other
    requires other == dex ==> s.progress.sourceKey != OBJECT_KEY && ResolvesNoObject(a)
    ensures var next := EventStep(other, first, s, a);
      && Sound(next.db, dex, server)
      && next.progress.dexName == other && next.progress.sourceKey == s.progress.sourceKey
  {
    if a.EventPage? && a.commits {
      var g := GatherEvents(other, a.events, a.hydrateEvent);
      var p := AfterEventPage(s.progress, g.discovered, a.events, a.hasNext, a.endCursor, first);
      if other == dex {
        EventsResolveNoObject(other, a.events, a.hydrateEvent);
      }
      OtherCommitSound(s.db, CommitOf(p, g), dex, server);
    }
  }

  lemma {:induction false} EventScanSound(
    dex: string, server: Server, other: string, first: Option<nat>, s: ScanState, answers: seq<EventAnswer>)
    requires Sound(s.db, dex, server) && s.progress.dexName == other
    requires other == dex ==> s.progress.sourceKey != OBJECT_KEY && forall k :: 0 <= k < |answers| ==>
        ResolvesNoObject(answers[k])
    ensures Sound(EventScan(other, first, s, answers).db, dex, server)
    decreases |answers|
  {
    if answers != [] && !s.halted {
      EventStepSound(dex, server, other, first, s, answers[0]);
      EventScanSound(dex, server, other, first, EventStep(other, first, s, answers[0]), answers[1..]);
    }
  }

  lemma ActivitySound(db: Database, dex: string, server: Server, a: Activity)
    requires dex != UNKNOWN_DEX && Sound(db, dex, server) && HonestActivity(db, dex, server, a)
    ensures Sound(Perform(db, a), dex, server)
  {
    match a
    case ScanObjects(other, answers) =>
      if other == dex {
        ObjectScanSound(dex, server, StartObjectScan(db, dex), answers);
      } else {
        OtherObjectScanSound(dex, server, other, StartObjectScan(db, other), answers);
      }
    case ScanEvents(other, eventType, first, answers) =>
      EventScanSound(dex, server, other, first, StartEventScan(db, other, eventType), answers);
    case HydrateOne(pool, tokens, resolved) =>
      OtherCommitSound(db, SinglePoolCommit(pool, tokens, resolved), dex, server);
    case SavePool(pool) =>
      assert forall o :: Accounted(db, dex, o) ==> Accounted(Perform(db, a), dex, o);
  }

  /** The invariant holds in every durable state that any activities lead to. */
  lemma {:induction false} AlwaysSound(db: Database, dex: string, server: Server, activities: seq<Activity>)
    requires dex != UNKNOWN_DEX && Sound(db, dex, server) && HonestActivities(db, dex, server, activities)
    ensures Sound(PerformAll(db, activities), dex, server)
  {
    if activities != [] {
      var front := activities[..|activities| - 1];
      AlwaysSound(db, dex, server, front);
      ActivitySound(PerformAll(db, front), dex, server, activities[|activities| - 1]);
    }
  }

  /** From empty tables: once the bootstrap is recorded as complete, every listed object is a stored pool or
      a recorded failure, whatever crashes, rejected cursors, page limits and other writers came before. */
  lemma BootstrapCovers(dex: string, server: Server, activities: seq<Activity>, i: nat)
    requires dex != UNKNOWN_DEX
    requires HonestActivities(Database(map[], map[], map[], map[]), dex, server, activities)
    requires i < |server.listing|
    ensures var db := PerformAll(Database(map[], map[], map[], map[]), activities);
      (dex, OBJECT_KEY) in db.progress ==>
        var p := db.progress[(dex, OBJECT_KEY)];
        (p.bootstrapComplete || i < server.At(p.pageCursor)) ==> Accounted(db, dex, server.listing[i])
  {
    AlwaysSound(Database(map[], map[], map[], map[]), dex, server, activities);
  }

  // ----- when a scan completes the bootstrap

  /** A committed page with more to follow. */
  predicate MorePage(a: Answer) {
    a.Page? && a.hasNext && a.commits
  }

  /** The scan goes on after this answer. */
  predicate Continues(a: Answer) {
    a.InvalidCursor? || MorePage(a)
  }

  /** A committed last page with objects on it. */
  predicate FullLastPage(a: Answer) {
    a.Page? && !a.hasNext && a.commits && a.objects != []
  }

  ghost predicate ReachesFullLastPage(answers: seq<Answer>) {
    exists k :: 0 <= k < |answers| && FullLastPage(answers[k]) && forall i :: 0 <= i < k ==> Continues(answers[i])
  }

  lemma ReachesLater(answers: seq<Answer>)
    requires answers != []
    ensures ReachesFullLastPage(answers)
            <==> FullLastPage(answers[0]) || (Continues(answers[0]) && ReachesFullLastPage(answers[1..]))
  {
    if ReachesFullLastPage(answers) && !FullLastPage(answers[0]) {
      var k :| 0 <= k < |answers| && FullLastPage(answers[k]) && forall i :: 0 <= i < k ==> Continues(answers[i]);
      assert FullLastPage(answers[1..][k - 1]);
      assert forall i :: 0 <= i < k - 1 ==> answers[1..][i] == answers[i + 1];
    }
    if Continues(answers[0]) && ReachesFullLastPage(answers[1..]) {
      var k :| 0 <= k < |answers| - 1 && FullLastPage(answers[1..][k])
               && forall i :: 0 <= i < k ==> Continues(answers[1..][i]);
      assert FullLastPage(answers[k + 1]);
      assert forall i :: 1 <= i < k + 1 ==> answers[i] == answers[1..][i - 1];
    }
  }

  predicate Completed(db: Database, dex: string) {
    (dex, OBJECT_KEY) in db.progress && db.progress[(dex, OBJECT_KEY)].bootstrapComplete
  }

  /** A scan under way whose bootstrap is not complete, neither durably nor in the volatile row. */
  predicate Incomplete(s: ScanState, dex: string) {
    && !s.halted && s.progress.dexName == dex && s.progress.sourceKey == OBJECT_KEY
    && !s.progress.bootstrapComplete && !Completed(s.db, dex)
  }

  lemma IncompleteStep(dex: string, s: ScanState, a: Answer)
    requires Incomplete(s, dex)
    ensures var next := ObjectStep(dex, s, a);
      && (Completed(next.db, dex) <==> FullLastPage(a))
      && (Continues(a) ==> Incomplete(next, dex))
      && (!Continues(a) ==> next.halted)
  {
  }

  lemma {:induction false} IncompleteScan(dex: string, s: ScanState, answers: seq<Answer>)
    requires Incomplete(s, dex)
    ensures Completed(ObjectScan(dex, s, answers).db, dex) <==> ReachesFullLastPage(answers)
    decreases |answers|
  {
    if answers != [] {
      var next := ObjectStep(dex, s, answers[0]);
      IncompleteStep(dex, s, answers[0]);
      ReachesLater(answers);
      if Continues(answers[0]) {
        IncompleteScan(dex, next, answers[1..]);
      } else {
        assert ObjectScan(dex, next, answers[1..]) == next;
      }
    }
  }

  /** Whatever the server answers, a run records an incomplete bootstrap as complete if and only if it is
      served, over pages with more to follow and rejected cursors, up to a committed last page that is not
      empty. */
  lemma RunCompletesIff(db: Database, dex: string, answers: seq<Answer>)
    requires !Completed(db, dex)
    requires (dex, OBJECT_KEY) in db.progress ==>
        (db.progress[(dex, OBJECT_KEY)].dexName, db.progress[(dex, OBJECT_KEY)].sourceKey) == (dex, OBJECT_KEY)
    ensures Completed(Perform(db, ScanObjects(dex, answers)), dex) <==> ReachesFullLastPage(answers)
  {
    IncompleteScan(dex, StartObjectScan(db, dex), answers);
  }

  /** A run served up to a committed last page ends well. It leaves the bootstrap complete if and only if that
      page has objects, or the bootstrap was complete before and no cursor was rejected. */
  lemma {:induction false} ServedScanCompletes(dex: string, s: ScanState, answers: seq<Answer>)
    requires answers != [] && !s.halted && s.ok && s.progress.dexName == dex && s.progress.sourceKey == OBJECT_KEY
    requires forall k :: 0 <= k < |answers| - 1 ==> Continues(answers[k])
    requires var last := answers[|answers| - 1]; last.Page? && !last.hasNext && last.commits
    ensures var end, last := ObjectScan(dex, s, answers), answers[|answers| - 1];
      && end.ok && (dex, OBJECT_KEY) in end.db.progress
      && (Completed(end.db, dex) <==>
            last.objects != []
            || (s.progress.bootstrapComplete && forall k :: 0 <= k < |answers| ==> !answers[k].InvalidCursor?))
      && (last.objects != [] ==> end.db.progress[(dex, OBJECT_KEY)].pageCursor == None)
    decreases |answers|
  {
    var next := ObjectStep(dex, s, answers[0]);
    if |answers| > 1 {
      assert Continues(answers[0]);
      assert forall k :: 1 <= k < |answers| ==> answers[k] == answers[1..][k - 1];
      ServedScanCompletes(dex, next, answers[1..]);
    } else {
      assert ObjectScan(dex, next, answers[1..]) == next;
    }
  }

  // ----- objects that end on a page announcing more

  /** The cursor points behind the last object. */
  predicate PastEnd(server: Server, cursor: Option<string>) {
    server.At(cursor) >= |server.listing|
  }

  /** The cursor is neither rejected nor sent back. */
  predicate StaysPastEnd(server: Server, a: Answer) {
    !a.InvalidCursor? && (a.Page? && a.hasNext ==> PastEnd(server, a.endCursor))
  }

  /** When the last objects came on a page that announced more, the durable cursor points past the end. From
      there an honest server completes the bootstrap only after rejecting the cursor or sending it back: as
      long as it does neither, the bootstrap stays incomplete. */
  lemma {:induction false} EmptyTailStaysIncomplete(dex: string, server: Server, s: ScanState, answers: seq<Answer>)
    requires Incomplete(s, dex) && PastEnd(server, s.progress.pageCursor)
    requires HonestScan(dex, server, s, answers)
    requires forall k :: 0 <= k < |answers| ==> StaysPastEnd(server, answers[k])
    ensures !Completed(ObjectScan(dex, s, answers).db, dex)
    decreases |answers|
  {
    if answers != [] {
      var next := ObjectStep(dex, s, answers[0]);
      IncompleteStep(dex, s, answers[0]);
      assert StaysPastEnd(server, answers[0]);
      if Continues(answers[0]) {
        EmptyTailStaysIncomplete(dex, server, next, answers[1..]);
      } else {
        assert ObjectScan(dex, next, answers[1..]) == next;
      }
    }
  }

  function OnePool(o: ObjectRef): Hydrated {
    Ok(SinglePoolCommit(PoolState(o.poolId, "Cetus", "A", "B", 1, 1, 0, false), [], None))
  }

  const ONE_OBJECT: Server := Server([ObjectRef("0x1", None)], c => |c|)

  /** The page with the only object, announcing more. */
  const FIRST_ANSWER: Answer := Page([ObjectRef("0x1", None)], true, Some("c"), OnePool, true)

  /** What an honest server says to the cursor it has just handed out. */
  const NO_MORE: Answer := Page([], false, None, OnePool, true)

  const NO_TABLES: Database := Database(map[], map[], map[], map[])

  /** The first run in the example. */
  const FIRST_RUN: Activity := ScanObjects("Cetus", [FIRST_ANSWER])

  /** The situation is reached from empty tables in one honest run; any number of further honest runs that
      find nothing more leave the bootstrap incomplete. */
  lemma EmptyTailExample(runs: nat)
    ensures HonestActivity(NO_TABLES, "Cetus", ONE_OBJECT, FIRST_RUN)
    ensures var first := Perform(NO_TABLES, FIRST_RUN);
      && ("Cetus", OBJECT_KEY) in first.progress
      && PastEnd(ONE_OBJECT, first.progress[("Cetus", OBJECT_KEY)].pageCursor)
      && HonestAnswer(ONE_OBJECT, first.progress[("Cetus", OBJECT_KEY)].pageCursor, NO_MORE)
      && !Completed(Again(first, runs), "Cetus")
  {
    var s := StartObjectScan(NO_TABLES, "Cetus");
    var next := ObjectStep("Cetus", s, FIRST_ANSWER);
    assert [FIRST_ANSWER][1..] == [];
    assert ObjectScan("Cetus", next, []) == next;
    assert ObjectScan("Cetus", s, [FIRST_ANSWER]) == next;
    HydratesOne();
    AgainStays(next.db, runs);
  }

  lemma HydratesOne()
    ensures forall o :: HydratesPool(o, OnePool(o))
  {
    forall o: ObjectRef
      ensures HydratesPool(o, OnePool(o))
    {
      assert OnePool(o).value.pools[0].poolId == o.poolId;
    }
  }

  /** Runs that find nothing more. */
  function Again(db: Database, runs: nat): Database {
    if runs == 0 then db else Perform(Again(db, runs - 1), ScanObjects("Cetus", [NO_MORE]))
  }

  lemma {:induction false} AgainStays(db: Database, runs: nat)
    requires ("Cetus", OBJECT_KEY) in db.progress && !Completed(db, "Cetus")
    requires (db.progress[("Cetus", OBJECT_KEY)].dexName, db.progress[("Cetus", OBJECT_KEY)].sourceKey)
             == ("Cetus", OBJECT_KEY)
    ensures Again(db, runs).progress == db.progress
  {
    if runs > 0 {
      AgainStays(db, runs - 1);
      var before := Again(db, runs - 1);
      var s := StartObjectScan(before, "Cetus");
      var next := ObjectStep("Cetus", s, NO_MORE);
      assert [NO_MORE][1..] == [] && ObjectScan("Cetus", next, []) == next;
      assert ObjectScan("Cetus", s, [NO_MORE]) == next;
    }
  }

  // ----- checkpoints

  predicate NotBefore(a: Option<nat>, b: Option<nat>) {
    a.Some? ==> b.Some? && a.value <= b.value
  }

  lemma {:induction false} MaxCheckpointGrows(before: Option<nat>, events: seq<EventRef>)
    ensures NotBefore(before, MaxCheckpoint(before, events))
    ensures forall k :: 0 <= k < |events| && events[k].parseError.None? && events[k].poolRef.Some?
              ==> NotBefore(events[k].poolRef.value.checkpoint, MaxCheckpoint(before, events))
  {
    if events != [] {
      MaxCheckpointGrows(before, events[..|events| - 1]);
    }
  }

  function CheckpointAt(db: Database, key: Key): Option<nat> {
    if key in db.progress then db.progress[key].lastCheckpoint else None
  }

  /** The scan's volatile checkpoint is never behind the durable one of its row. */
  ghost predicate NotBehind(s: ScanState, key: Key) {
    (s.progress.dexName, s.progress.sourceKey) == key ==> NotBefore(CheckpointAt(s.db, key), s.progress.lastCheckpoint)
  }

  lemma CommitNeverBack(db: Database, p: Progress, g: Gathered, key: Key)
    requires (p.dexName, p.sourceKey) == key ==> NotBefore(CheckpointAt(db, key), p.lastCheckpoint)
    ensures var after := Committed(db, CommitOf(p, g));
      && NotBefore(CheckpointAt(db, key), CheckpointAt(after, key))
      && ((p.dexName, p.sourceKey) == key ==> CheckpointAt(after, key) == p.lastCheckpoint)
  {
  }

  lemma EventStepNeverBack(dex: string, first: Option<nat>, s: ScanState, a: EventAnswer, key: Key)
    requires NotBehind(s, key)
    ensures var next := EventStep(dex, first, s, a);
      NotBehind(next, key) && NotBefore(CheckpointAt(s.db, key), CheckpointAt(next.db, key))
  {
    if a.EventPage? {
      var g := GatherEvents(dex, a.events, a.hydrateEvent);
      MaxCheckpointGrows(s.progress.lastCheckpoint, a.events);
      CommitNeverBack(
        s.db, AfterEventPage(s.progress, g.discovered, a.events, a.hasNext, a.endCursor, first), g, key);
    }
  }

  lemma {:induction false} EventScanNeverBack(
    dex: string, first: Option<nat>, s: ScanState, answers: seq<EventAnswer>, key: Key)
    requires NotBehind(s, key)
    ensures NotBefore(CheckpointAt(s.db, key), CheckpointAt(EventScan(dex, first, s, answers).db, key))
    decreases |answers|
  {
    if answers != [] && !s.halted {
      EventStepNeverBack(dex, first, s, answers[0], key);
      EventScanNeverBack(dex, first, EventStep(dex, first, s, answers[0]), answers[1..], key);
    }
  }

  lemma ObjectStepNeverBack(dex: string, s: ScanState, a: Answer, key: Key)
    requires NotBehind(s, key)
    ensures var next := ObjectStep(dex, s, a);
      NotBehind(next, key) && NotBefore(CheckpointAt(s.db, key), CheckpointAt(next.db, key))
  {
    if a.Page? {
      var g := GatherObjects(dex, a.objects, a.hydrate);
      CommitNeverBack(s.db, s.progress, NOTHING, key);
      CommitNeverBack(s.db, AfterObjectPage(s.progress, g.discovered, a.hasNext, a.endCursor), g, key);
    }
  }

  lemma {:induction false} ObjectScanNeverBack(dex: string, s: ScanState, answers: seq<Answer>, key: Key)
    requires NotBehind(s, key)
    ensures NotBefore(CheckpointAt(s.db, key), CheckpointAt(ObjectScan(dex, s, answers).db, key))
    decreases |answers|
  {
    if answers != [] && !s.halted {
      ObjectStepNeverBack(dex, s, answers[0], key);
      ObjectScanNeverBack(dex, ObjectStep(dex, s, answers[0]), answers[1..], key);
    }
  }

  lemma CheckpointKept(db: Database, a: Activity, key: Key)
    requires WellKeyed(db) && key != (UNKNOWN_DEX, OBJECT_KEY)
    ensures NotBefore(CheckpointAt(db, key), CheckpointAt(Perform(db, a), key))
  {
    match a
    case ScanObjects(dex, answers) => ObjectScanNeverBack(dex, StartObjectScan(db, dex), answers, key);
    case ScanEvents(dex, eventType, first, answers) =>
      EventScanNeverBack(dex, first, StartEventScan(db, dex, eventType), answers, key);
    case HydrateOne(_, _, _) =>
    case SavePool(_) =>
  }

  lemma {:induction false} ObjectScanKeyed(dex: string, s: ScanState, answers: seq<Answer>)
    requires WellKeyed(s.db)
    ensures WellKeyed(ObjectScan(dex, s, answers).db)
    decreases |answers|
  {
    if answers != [] && !s.halted {
      ObjectScanKeyed(dex, ObjectStep(dex, s, answers[0]), answers[1..]);
    }
  }

  lemma {:induction false} EventScanKeyed(dex: string, first: Option<nat>, s: ScanState, answers: seq<EventAnswer>)
    requires WellKeyed(s.db)
    ensures WellKeyed(EventScan(dex, first, s, answers).db)
    decreases |answers|
  {
    if answers != [] && !s.halted {
      EventScanKeyed(dex, first, EventStep(dex, first, s, answers[0]), answers[1..]);
    }
  }

  lemma ActivityKeyed(db: Database, a: Activity)
    requires WellKeyed(db)
    ensures WellKeyed(Perform(db, a))
  {
    match a
    case ScanObjects(dex, answers) => ObjectScanKeyed(dex, StartObjectScan(db, dex), answers);
    case ScanEvents(dex, eventType, first, answers) =>
      EventScanKeyed(dex, first, StartEventScan(db, dex, eventType), answers);
    case HydrateOne(_, _, _) =>
    case SavePool(_) =>
  }

  /** Whatever any servers answer, no sequence of activities takes a durable checkpoint back. */
  lemma {:induction false} CheckpointsNeverGoBack(db: Database, activities: seq<Activity>, key: Key)
    requires WellKeyed(db) && key != (UNKNOWN_DEX, OBJECT_KEY)
    ensures WellKeyed(PerformAll(db, activities))
    ensures NotBefore(CheckpointAt(db, key), CheckpointAt(PerformAll(db, activities), key))
  {
    if activities != [] {
      var front, last := activities[..|activities| - 1], activities[|activities| - 1];
      CheckpointsNeverGoBack(db, front, key);
      CheckpointKept(PerformAll(db, front), last, key);
      ActivityKeyed(PerformAll(db, front), last);
    }
  }
}
