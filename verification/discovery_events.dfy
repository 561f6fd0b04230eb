/** What the event scan guarantees over any sequence of activities: no event before the durable cursor is lost. */
module EventCoverage {
  import opened Models
  import opened DiscoveryStore
  import opened DiscoveryScan
  import opened DiscoveryCoverage

  /** The events of one type, in order, each with its own id; a cursor stands for a position. */
  datatype EventServer = EventServer(listing: seq<EventRef>, position: string -> nat)
  {
    function At(cursor: Option<string>): nat {
      match cursor
      case None => 0
      case Some(c) => position(c)
    }

    ghost predicate DistinctIds() {
      forall i, j :: 0 <= i < j < |listing| ==> listing[i].eventId != listing[j].eventId
    }

    ghost predicate Lists(id: string) {
      exists i :: 0 <= i < |listing| && listing[i].eventId == id
    }
  }

  /** A scanned source: one event type of one DEX. */
  datatype Source = Source(dex: string, eventType: string, server: EventServer)
  {
    function RowKey(): Key {
      (dex, eventType)
    }

    ghost predicate Valid() {
      server.DistinctIds() && dex != UNKNOWN_DEX && eventType != OBJECT_KEY
    }
  }

  /** An unparsable event is a recorded failure; one with a pool has led to the pool, or is a failure. */
  predicate EventAccounted(db: Database, dex: string, e: EventRef) {
    if e.parseError.Some? then (dex, e.eventId) in db.failures
    else e.poolRef.Some? ==> e.poolRef.value.poolId in db.pools || (dex, e.eventId) in db.failures
  }

  ghost predicate EventsUpTo(db: Database, src: Source, n: nat) {
    forall i :: 0 <= i < n && i < |src.server.listing| ==> EventAccounted(db, src.dex, src.server.listing[i])
  }

  ghost predicate RowHonest(db: Database, src: Source, p: Progress) {
    && EventsUpTo(db, src, src.server.At(p.pageCursor))
    && (p.backfillComplete ==> EventsUpTo(db, src, |src.server.listing|))
  }

  /** The durable invariant of a source. */
  ghost predicate EventSound(db: Database, src: Source) {
    && WellKeyed(db)
    && (src.RowKey() in db.progress ==> RowHonest(db, src, db.progress[src.RowKey()]))
  }

  /** Hydrating an event stores its pool and resolves at most the event's own failure. */
  ghost predicate HydratesEvent(e: EventRef, r: Hydrated) {
    r.Ok? ==>
      && (e.poolRef.Some? ==> HasPool(r.value.pools, e.poolRef.value.poolId))
      && forall id :: id in r.value.resolvedFailureIds ==> id == e.eventId
  }

  /** The server lists events of the source. While the backfill is under way it lists what follows the
      cursor, ends only at the end and jumps over nothing; afterwards its checkpoint filter may leave out
      any of them. */
  ghost predicate HonestEvents(src: Source, p: Progress, a: EventAnswer) {
    a.EventPage? ==>
      var from, n := src.server.At(p.pageCursor), |a.events|;
      && (forall k :: 0 <= k < n ==> a.events[k] in src.server.listing)
      && (forall e :: HydratesEvent(e, a.hydrateEvent(e)))
      && (!p.backfillComplete ==>
            && (n > 0 ==> from + n <= |src.server.listing| && src.server.listing[from..from + n] == a.events)
            && (!a.hasNext ==> from + n >= |src.server.listing|)
            && (a.hasNext ==> src.server.At(a.endCursor) <= from + n))
  }

  ghost predicate HonestEventScan(src: Source, first: Option<nat>, s: ScanState, answers: seq<EventAnswer>)
    decreases |answers|
  {
    answers == [] || s.halted
    || (HonestEvents(src, s.progress, answers[0])
        && HonestEventScan(src, first, EventStep(src.dex, first, s, answers[0]), answers[1..]))
  }

  // ----- one page

  ghost predicate EventGathered(dex: string, g: Gathered, e: EventRef) {
    if e.parseError.Some? then HasFailure(g.failures, (dex, e.eventId))
    else e.poolRef.Some? ==> HasPool(g.pools, e.poolRef.value.poolId) || HasFailure(g.failures, (dex, e.eventId))
  }

  lemma MergeHas(g: Gathered, c: PageCommit, id: string, key: Key)
    ensures HasPool(g.pools, id) || HasPool(c.pools, id) ==> HasPool(Merge(g, c).pools, id)
    ensures HasFailure(g.failures, key) ==> HasFailure(Merge(g, c).failures, key)
  {
    var m := Merge(g, c);
    assert forall i :: 0 <= i < |g.pools| ==> m.pools[i] == g.pools[i];
    assert forall i :: 0 <= i < |c.pools| ==> m.pools[|g.pools| + i] == c.pools[i];
    assert forall i :: 0 <= i < |g.failures| ==> m.failures[i] == g.failures[i];
  }

  lemma FailHas(g: Gathered, f: Failure, id: string, key: Key)
    ensures HasPool(g.pools, id) ==> HasPool(Fail(g, f).pools, id)
    ensures HasFailure(g.failures, key) || (f.dexName, f.eventId) == key ==> HasFailure(Fail(g, f).failures, key)
  {
    var m := Fail(g, f);
    assert m.failures[|g.failures|] == f;
    assert forall i :: 0 <= i < |g.failures| ==> m.failures[i] == g.failures[i];
  }

  /** Taking in one more event keeps what was gathered and adds the event. */
  lemma GatherEventKeeps(dex: string, g: Gathered, last: EventRef, hydrate: EventRef -> Hydrated, e: EventRef)
    requires HydratesEvent(last, hydrate(last)) && (EventGathered(dex, g, e) || e == last)
    ensures EventGathered(dex, GatherEvent(dex, g, last, hydrate), e)
  {
    var id, key := if e.poolRef.Some? then e.poolRef.value.poolId else "", (dex, e.eventId);
    if last.parseError.Some? {
      FailHas(g, Failure(dex, last.eventId, None, last.parseError.value, 1), id, key);
    } else if last.poolRef.Some? {
      match hydrate(last)
      case Ok(c) => MergeHas(g, c, id, key);
      case Err(reason) =>
        FailHas(g, Failure(dex, last.eventId, Some(last.poolRef.value.poolId), reason, 1), id, key);
    }
  }

  lemma {:induction false} PageAccountsEvents(
    dex: string, events: seq<EventRef>, hydrate: EventRef -> Hydrated, k: nat)
    requires k < |events| && forall e :: HydratesEvent(e, hydrate(e))
    ensures EventGathered(dex, GatherEvents(dex, events, hydrate), events[k])
    decreases |events|
  {
    var front, last := events[..|events| - 1], events[|events| - 1];
    if k < |front| {
      PageAccountsEvents(dex, front, hydrate, k);
    }
    GatherEventKeeps(dex, GatherEvents(dex, front, hydrate), last, hydrate, events[k]);
  }

  /** Failure `id` was resolved by an event of the page whose pool the page stores. */
  ghost predicate ResolvedByPool(events: seq<EventRef>, pools: seq<PoolState>, id: string) {
    exists k :: 0 <= k < |events| && Supplied(events[k], pools, id)
  }

  ghost predicate Supplied(e: EventRef, pools: seq<PoolState>, id: string) {
    e.eventId == id && e.parseError.None? && e.poolRef.Some? && HasPool(pools, e.poolRef.value.poolId)
  }

  lemma {:induction false} PageResolves(dex: string, events: seq<EventRef>, hydrate: EventRef -> Hydrated, id: string)
    requires forall e :: HydratesEvent(e, hydrate(e))
    requires id in GatherEvents(dex, events, hydrate).resolved
    ensures ResolvedByPool(events, GatherEvents(dex, events, hydrate).pools, id)
    decreases |events|
  {
    var front, last := events[..|events| - 1], events[|events| - 1];
    var before, after := GatherEvents(dex, front, hydrate), GatherEvents(dex, events, hydrate);
    if id in before.resolved {
      PageResolves(dex, front, hydrate, id);
      var k :| 0 <= k < |front| && Supplied(front[k], before.pools, id);
      GatherKeepsPool(dex, before, last, hydrate, front[k].poolRef.value.poolId);
      assert Supplied(events[k], after.pools, id);
    } else {
      assert HydratesEvent(last, hydrate(last));
      var c := hydrate(last).value;
      MergeHas(before, c, last.poolRef.value.poolId, (dex, id));
      assert Supplied(events[|front|], after.pools, id);
    }
  }

  lemma GatherKeepsPool(dex: string, g: Gathered, last: EventRef, hydrate: EventRef -> Hydrated, id: string)
    requires HasPool(g.pools, id)
    ensures HasPool(GatherEvent(dex, g, last, hydrate).pools, id)
  {
    if last.parseError.None? && last.poolRef.Some? && hydrate(last).Ok? {
      MergeHas(g, hydrate(last).value, id, ("", ""));
    }
  }

  // ----- one commit

  /** A page of the source keeps every listed event accounted for, and adds its own. */
  lemma PageCommitKeeps(db: Database, src: Source, p: Progress, a: EventAnswer, e: EventRef)
    requires src.Valid() && a.EventPage? && p.dexName == src.dex && e in src.server.listing
    requires forall k :: 0 <= k < |a.events| ==> a.events[k] in src.server.listing
    requires forall x :: HydratesEvent(x, a.hydrateEvent(x))
    requires EventAccounted(db, src.dex, e) || e in a.events
    ensures EventAccounted(Committed(db, CommitOf(p, GatherEvents(src.dex, a.events, a.hydrateEvent))), src.dex, e)
  {
    var g := GatherEvents(src.dex, a.events, a.hydrateEvent);
    CommitKeepsRows(db, CommitOf(p, g));
    if e in a.events {
      var k :| 0 <= k < |a.events| && a.events[k] == e;
      PageAccountsEvents(src.dex, a.events, a.hydrateEvent, k);
    }
    if e.eventId in g.resolved {
      PageResolves(src.dex, a.events, a.hydrateEvent, e.eventId);
      var k :| 0 <= k < |a.events| && Supplied(a.events[k], g.pools, e.eventId);
      SameId(src.server, a.events[k], e);
    }
  }

  lemma SameId(server: EventServer, a: EventRef, b: EventRef)
    requires server.DistinctIds() && a in server.listing && b in server.listing && a.eventId == b.eventId
    ensures a == b
  {
    var i :| 0 <= i < |server.listing| && server.listing[i] == a;
    var j :| 0 <= j < |server.listing| && server.listing[j] == b;
    assert i == j;
  }

  /** A commit that resolves none of the source's events, under another row, keeps the invariant. */
  lemma ForeignCommitSound(db: Database, c: PageCommit, src: Source)
    requires EventSound(db, src) && (c.progress.dexName, c.progress.sourceKey) != src.RowKey()
    requires c.progress.dexName == src.dex ==> forall id :: id in c.resolvedFailureIds ==> !src.server.Lists(id)
    ensures EventSound(Committed(db, c), src)
  {
    CommitKeepsRows(db, c);
    forall i | 0 <= i < |src.server.listing| && EventAccounted(db, src.dex, src.server.listing[i])
      ensures EventAccounted(Committed(db, c), src.dex, src.server.listing[i])
    {
      assert src.server.Lists(src.server.listing[i].eventId);
    }
  }

  // ----- scans

  /** What holds while the source itself is scanned. */
  ghost predicate ScanningEvents(s: ScanState, src: Source) {
    && EventSound(s.db, src)
    && s.progress.dexName == src.dex && s.progress.sourceKey == src.eventType
    && (!s.halted ==> RowHonest(s.db, src, s.progress))
  }

  /** How far the events are accounted for once a page is committed. */
  function Reach(src: Source, p: Progress, a: EventAnswer): nat
    requires a.EventPage?
  {
    if p.backfillComplete then |src.server.listing| else src.server.At(p.pageCursor) + |a.events|
  }

  lemma PageReaches(db: Database, src: Source, before: Progress, p: Progress, a: EventAnswer)
    requires src.Valid() && a.EventPage? && p.dexName == src.dex
    requires RowHonest(db, src, before) && HonestEvents(src, before, a)
    ensures EventsUpTo(
      Committed(db, CommitOf(p, GatherEvents(src.dex, a.events, a.hydrateEvent))), src, Reach(src, before, a))
  {
    var db' := Committed(db, CommitOf(p, GatherEvents(src.dex, a.events, a.hydrateEvent)));
    forall i | 0 <= i < Reach(src, before, a) && i < |src.server.listing|
      ensures EventAccounted(db', src.dex, src.server.listing[i])
    {
      if !before.backfillComplete && i >= src.server.At(before.pageCursor) {
        OnPage(src, before, a, i);
      }
      PageCommitKeeps(db, src, p, a, src.server.listing[i]);
    }
  }

  lemma OnPage(src: Source, p: Progress, a: EventAnswer, i: nat)
    requires a.EventPage? && HonestEvents(src, p, a) && !p.backfillComplete
    requires src.server.At(p.pageCursor) <= i < Reach(src, p, a) && i < |src.server.listing|
    ensures src.server.listing[i] in a.events
  {
    var from := src.server.At(p.pageCursor);
    assert src.server.listing[from..from + |a.events|][i - from] == a.events[i - from];
  }

  lemma OwnStepSound(src: Source, first: Option<nat>, s: ScanState, a: EventAnswer)
    requires src.Valid() && ScanningEvents(s, src) && !s.halted && HonestEvents(src, s.progress, a)
    ensures ScanningEvents(EventStep(src.dex, first, s, a), src)
  {
    if a.EventPage? && a.commits {
      var g := GatherEvents(src.dex, a.events, a.hydrateEvent);
      var p := AfterEventPage(s.progress, g.discovered, a.events, a.hasNext, a.endCursor, first);
      PageReaches(s.db, src, s.progress, p, a);
      assert RowHonest(Committed(s.db, CommitOf(p, g)), src, p);
    }
  }

  lemma {:induction false} OwnScanSound(src: Source, first: Option<nat>, s: ScanState, answers: seq<EventAnswer>)
    requires src.Valid() && ScanningEvents(s, src) && HonestEventScan(src, first, s, answers)
    ensures EventSound(EventScan(src.dex, first, s, answers).db, src)
    decreases |answers|
  {
    if answers != [] && !s.halted {
      OwnStepSound(src, first, s, answers[0]);
      OwnScanSound(src, first, EventStep(src.dex, first, s, answers[0]), answers[1..]);
    }
  }

  /** Scans of the same DEX that look at something else resolve none of the source's events. */
  ghost predicate SparesEvents(src: Source, r: Hydrated) {
    r.Ok? ==> forall id :: id in r.value.resolvedFailureIds ==> !src.server.Lists(id)
  }

  ghost predicate ObjectsSpare(src: Source, a: Answer) {
    a.Page? ==> forall o :: SparesEvents(src, a.hydrate(o))
  }

  ghost predicate EventsSpare(src: Source, a: EventAnswer) {
    a.EventPage? ==> forall e :: SparesEvents(src, a.hydrateEvent(e))
  }

  lemma {:induction false} GatheredSpare(
    dex: string, objects: seq<ObjectRef>, hydrate: ObjectRef -> Hydrated, src: Source)
    requires forall o :: SparesEvents(src, hydrate(o))
    ensures forall id :: id in GatherObjects(dex, objects, hydrate).resolved ==> !src.server.Lists(id)
  {
    if objects != [] {
      GatheredSpare(dex, objects[..|objects| - 1], hydrate, src);
      assert SparesEvents(src, hydrate(objects[|objects| - 1]));
    }
  }

  lemma {:induction false} GatheredEventsSpare(
    dex: string, events: seq<EventRef>, hydrate: EventRef -> Hydrated, src: Source)
    requires forall e :: SparesEvents(src, hydrate(e))
    ensures forall id :: id in GatherEvents(dex, events, hydrate).resolved ==> !src.server.Lists(id)
  {
    if events != [] {
      GatheredEventsSpare(dex, events[..|events| - 1], hydrate, src);
      assert SparesEvents(src, hydrate(events[|events| - 1]));
    }
  }

  lemma ObjectStepSpares(src: Source, dex: string, s: ScanState, a: Answer)
    requires EventSound(s.db, src) && s.progress.dexName == dex
    requires s.progress.sourceKey == OBJECT_KEY && src.eventType != OBJECT_KEY
    requires dex == src.dex ==> ObjectsSpare(src, a)
    ensures var next := ObjectStep(dex, s, a);
      EventSound(next.db, src) && next.progress.dexName == dex && next.progress.sourceKey == OBJECT_KEY
  {
    if a.Page? && a.commits {
      if a.objects == [] && !a.hasNext {
        ForeignCommitSound(s.db, CommitOf(s.progress, NOTHING), src);
      } else {
        ObjectPageSpares(src, dex, s, a);
      }
    }
  }

  lemma ObjectPageSpares(src: Source, dex: string, s: ScanState, a: Answer)
    requires EventSound(s.db, src) && s.progress.dexName == dex && a.Page?
    requires s.progress.sourceKey == OBJECT_KEY && src.eventType != OBJECT_KEY
    requires dex == src.dex ==> ObjectsSpare(src, a)
    ensures var g := GatherObjects(dex, a.objects, a.hydrate);
      EventSound(Committed(s.db, CommitOf(AfterObjectPage(s.progress, g.discovered, a.hasNext, a.endCursor), g)), src)
  {
    var g := GatherObjects(dex, a.objects, a.hydrate);
    if dex == src.dex {
      GatheredSpare(dex, a.objects, a.hydrate, src);
    }
    ForeignCommitSound(s.db, CommitOf(AfterObjectPage(s.progress, g.discovered, a.hasNext, a.endCursor), g), src);
  }

  lemma {:induction false} ObjectScanSpares(src: Source, dex: string, s: ScanState, answers: seq<Answer>)
    requires EventSound(s.db, src) && s.progress.dexName == dex
    requires s.progress.sourceKey == OBJECT_KEY && src.eventType != OBJECT_KEY
    requires dex == src.dex ==> forall k :: 0 <= k < |answers| ==> ObjectsSpare(src, answers[k])
    ensures EventSound(ObjectScan(dex, s, answers).db, src)
    decreases |answers|
  {
    if answers != [] && !s.halted {
      ObjectStepSpares(src, dex, s, answers[0]);
      ObjectScanSpares(src, dex, ObjectStep(dex, s, answers[0]), answers[1..]);
    }
  }

  lemma EventStepSpares(src: Source, dex: string, first: Option<nat>, s: ScanState, a: EventAnswer)
    requires EventSound(s.db, src) && s.progress.dexName == dex
    requires dex == src.dex ==> s.progress.sourceKey != src.eventType && EventsSpare(src, a)
    ensures var next := EventStep(dex, first, s, a);
      && EventSound(next.db, src)
      && next.progress.dexName == dex && next.progress.sourceKey == s.progress.sourceKey
  {
    if a.EventPage? && a.commits {
      var g := GatherEvents(dex, a.events, a.hydrateEvent);
      if dex == src.dex {
        GatheredEventsSpare(dex, a.events, a.hydrateEvent, src);
      }
      ForeignCommitSound(
        s.db, CommitOf(AfterEventPage(s.progress, g.discovered, a.events, a.hasNext, a.endCursor, first), g), src);
    }
  }

  lemma {:induction false} EventScanSpares(
    src: Source, dex: string, first: Option<nat>, s: ScanState, answers: seq<EventAnswer>)
    requires EventSound(s.db, src) && s.progress.dexName == dex
    requires dex == src.dex ==> s.progress.sourceKey != src.eventType && forall k :: 0 <= k < |answers| ==>
        EventsSpare(src, answers[k])
    ensures EventSound(EventScan(dex, first, s, answers).db, src)
    decreases |answers|
  {
    if answers != [] && !s.halted {
      EventStepSpares(src, dex, first, s, answers[0]);
      EventScanSpares(src, dex, first, EventStep(dex, first, s, answers[0]), answers[1..]);
    }
  }

  // ----- any sequence of activities

  ghost predicate HonestTowards(db: Database, src: Source, a: Activity) {
    match a
    case ScanObjects(dex, answers) =>
      dex == src.dex ==> forall k :: 0 <= k < |answers| ==> ObjectsSpare(src, answers[k])
    case ScanEvents(dex, eventType, first, answers) =>
      dex == src.dex ==>
        if eventType == src.eventType then HonestEventScan(src, first, StartEventScan(db, dex, eventType), answers)
        else forall k :: 0 <= k < |answers| ==> EventsSpare(src, answers[k])
    case _ => true
  }

  ghost predicate AllHonestTowards(db: Database, src: Source, activities: seq<Activity>) {
    activities == []
    || (&& AllHonestTowards(db, src, activities[..|activities| - 1])
        && HonestTowards(PerformAll(db, activities[..|activities| - 1]), src, activities[|activities| - 1]))
  }

  lemma ActivityKeepsEvents(db: Database, src: Source, a: Activity)
    requires src.Valid() && EventSound(db, src) && HonestTowards(db, src, a)
    ensures EventSound(Perform(db, a), src)
  {
    match a
    case ScanObjects(dex, answers) =>
      ObjectScanSpares(src, dex, StartObjectScan(db, dex), answers);
    case ScanEvents(dex, eventType, first, answers) =>
      if dex == src.dex && eventType == src.eventType {
        OwnScanSound(src, first, StartEventScan(db, dex, eventType), answers);
      } else {
        EventScanSpares(src, dex, first, StartEventScan(db, dex, eventType), answers);
      }
    case HydrateOne(pool, tokens, resolved) =>
      ForeignCommitSound(db, SinglePoolCommit(pool, tokens, resolved), src);
    case SavePool(pool) =>
      assert forall e :: EventAccounted(db, src.dex, e) ==> EventAccounted(Perform(db, a), src.dex, e);
  }

  lemma {:induction false} EventsAlwaysSound(db: Database, src: Source, activities: seq<Activity>)
    requires src.Valid() && EventSound(db, src) && AllHonestTowards(db, src, activities)
    ensures EventSound(PerformAll(db, activities), src)
  {
    if activities != [] {
      var front := activities[..|activities| - 1];
      EventsAlwaysSound(db, src, front);
      ActivityKeepsEvents(PerformAll(db, front), src, activities[|activities| - 1]);
    }
  }

  /** From empty tables: every event before the durable cursor, and every event once the backfill is recorded
      as complete, has led to a stored pool or is a recorded failure under its own id. */
  lemma BackfillCovers(src: Source, activities: seq<Activity>, i: nat)
    requires src.Valid() && AllHonestTowards(NO_TABLES, src, activities) && i < |src.server.listing|
    ensures var db := PerformAll(NO_TABLES, activities);
      src.RowKey() in db.progress ==>
        var p := db.progress[src.RowKey()];
        (p.backfillComplete || i < src.server.At(p.pageCursor)) ==>
          EventAccounted(db, src.dex, src.server.listing[i])
  {
    EventsAlwaysSound(NO_TABLES, src, activities);
  }
}
