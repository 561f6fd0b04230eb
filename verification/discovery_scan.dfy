/** The resumable object scan and event scan (src/discovery/scanner.rs) against an adversarial server:
    every answer is taken from a script, and the durable state changes only by page commits. */
module DiscoveryScan {
  import opened Models
  import opened DiscoveryStore

  // ----- objects and events of one page

  datatype ObjectRef = ObjectRef(poolId: string, parseError: Option<string>)

  datatype PoolRef = PoolRef(poolId: string, checkpoint: Option<nat>)

  datatype EventRef = EventRef(eventId: string, poolRef: Option<PoolRef>, parseError: Option<string>)

  type Hydrated = Models.Result<PageCommit, string>

  function ObjectEvent(id: string): string {
    "object:" + id
  }

  /** What a page has gathered so far, with the pools already seen on it. */
  datatype Gathered = Gathered(
    pools: seq<PoolState>,
    tokens: seq<TokenInfo>,
    failures: seq<Failure>,
    resolved: seq<string>,
    seen: set<string>,
    discovered: nat)

  const NOTHING: Gathered := Gathered([], [], [], [], {}, 0)

  function Merge(g: Gathered, c: PageCommit): Gathered {
    g.(pools := g.pools + c.pools, tokens := g.tokens + c.tokens, failures := g.failures + c.failures,
       resolved := g.resolved + c.resolvedFailureIds, discovered := g.discovered + c.progress.poolsDiscovered)
  }

  function Fail(g: Gathered, f: Failure): Gathered {
    g.(failures := g.failures + [f])
  }

  function GatherObject(dex: string, g: Gathered, o: ObjectRef, hydrate: ObjectRef -> Hydrated): Gathered {
    if o.parseError.Some? then
      Fail(g, Failure(dex, ObjectEvent(o.poolId), Some(o.poolId), o.parseError.value, 1))
    else if o.poolId in g.seen then g
    else
      var g' := g.(seen := g.seen + {o.poolId});
      match hydrate(o)
      case Ok(c) => Merge(g', c)
      case Err(reason) => Fail(g', Failure(dex, ObjectEvent(o.poolId), Some(o.poolId), reason, 1))
  }

  function GatherObjects(dex: string, objects: seq<ObjectRef>, hydrate: ObjectRef -> Hydrated): Gathered {
    if objects == [] then NOTHING
    else
      GatherObject(dex, GatherObjects(dex, objects[..|objects| - 1], hydrate), objects[|objects| - 1], hydrate)
  }

  /** The progress row and everything gathered become one atomic commit. */
  function CommitOf(progress: Progress, g: Gathered): PageCommit {
    PageCommit(progress, g.pools, g.tokens, g.failures, g.resolved)
  }

  // ----- the object scan

  /** One answer of the server, and whether the commit that follows it goes through. */
  datatype Answer =
    | InvalidCursor
    | Failed
    | Page(objects: seq<ObjectRef>, hasNext: bool, endCursor: Option<string>, hydrate: ObjectRef -> Hydrated,
           commits: bool)

  /** A scan under way: durable state, volatile progress, and whether it has ended. */
  datatype ScanState = ScanState(db: Database, progress: Progress, halted: bool, ok: bool)

  function LoadProgress(db: Database, initial: Progress): Progress {
    var key := (initial.dexName, initial.sourceKey);
    if key in db.progress then db.progress[key] else initial
  }

  function StartObjectScan(db: Database, dex: string): ScanState {
    ScanState(db, LoadProgress(db, NewObjectBootstrap(dex)), false, true)
  }

  function Stopped(s: ScanState): ScanState {
    s.(halted := true, ok := false)
  }

  function AfterObjectPage(p: Progress, discovered: nat, hasNext: bool, endCursor: Option<string>): Progress {
    p.(poolsDiscovered := p.poolsDiscovered + discovered,
       pageCursor := if hasNext then endCursor else None,
       bootstrapComplete := p.bootstrapComplete || !hasNext)
  }

  function ObjectStep(dex: string, s: ScanState, a: Answer): ScanState {
    match a
    case InvalidCursor =>
      s.(progress := s.progress.(generation := s.progress.generation + 1, pageCursor := None,
                                 bootstrapComplete := false))
    case Failed => Stopped(s)
    case Page(objects, hasNext, endCursor, hydrate, commits) =>
      if objects == [] && !hasNext then
        if commits then s.(db := Committed(s.db, CommitOf(s.progress, NOTHING)), halted := true) else Stopped(s)
      else
        var g := GatherObjects(dex, objects, hydrate);
        var p := AfterObjectPage(s.progress, g.discovered, hasNext, endCursor);
        if commits then s.(db := Committed(s.db, CommitOf(p, g)), progress := p, halted := !hasNext)
        else Stopped(s.(progress := p))
  }

  /** The scan as a fold over the answers, ending early when it halts. */
  function ObjectScan(dex: string, s: ScanState, answers: seq<Answer>): ScanState
    decreases |answers|
  {
    if answers == [] || s.halted then s else ObjectScan(dex, ObjectStep(dex, s, answers[0]), answers[1..])
  }

  method ScanDexObjectBootstrap(storage: Storage, dex: string, answers: seq<Answer>, maxPages: nat)
    returns (ok: bool)
    requires maxPages <= |answers|
    modifies storage
    ensures var end := ObjectScan(dex, StartObjectScan(old(storage.Contents()), dex), answers[..maxPages]);
      storage.Contents() == end.db && ok == end.ok
  {
    var key := (dex, OBJECT_KEY);
    var progress := if key in storage.progress then storage.progress[key] else NewObjectBootstrap(dex);
    ghost var start := StartObjectScan(storage.Contents(), dex);
    for page := 0 to maxPages
      invariant ObjectScan(dex, ScanState(storage.Contents(), progress, false, true), answers[page..maxPages])
                == ObjectScan(dex, start, answers[..maxPages])
    {
      assert answers[page..maxPages][0] == answers[page] && answers[page..maxPages][1..] == answers[page + 1..maxPages];
      match answers[page]
      case InvalidCursor =>
        progress := progress.(generation := progress.generation + 1, pageCursor := None, bootstrapComplete := false);
      case Failed =>
        return false;
      case Page(_, _, _, _, _) =>
        var halted;
        progress, halted, ok := ObjectPage(storage, dex, progress, answers[page]);
        if halted {
          return;
        }
    }
    ok := true;
  }

  /** The part of the loop body after a page has arrived. */
  method ObjectPage(storage: Storage, dex: string, before: Progress, page: Answer)
    returns (progress: Progress, halted: bool, ok: bool)
    requires page.Page?
    modifies storage
    ensures ScanState(storage.Contents(), progress, halted, ok)
            == ObjectStep(dex, ScanState(old(storage.Contents()), before, false, true), page)
  {
    progress := before;
    if page.objects == [] && !page.hasNext {
      if page.commits {
        storage.CommitDiscoveryPage(CommitOf(progress, NOTHING));
      }
      return progress, true, page.commits;
    }
    var g := GatherPage(dex, page.objects, page.hydrate);
    progress := AdvanceObjectProgress(progress, g.discovered, page.hasNext, page.endCursor);
    if !page.commits {
      return progress, true, false;
    }
    storage.CommitDiscoveryPage(CommitOf(progress, g));
    return progress, !page.hasNext, true;
  }

  method AdvanceObjectProgress(before: Progress, discovered: nat, hasNext: bool, endCursor: Option<string>)
    returns (progress: Progress)
    ensures progress == AfterObjectPage(before, discovered, hasNext, endCursor)
  {
    progress := before.(poolsDiscovered := before.poolsDiscovered + discovered);
    progress := progress.(pageCursor := if hasNext then endCursor else None);
    if !hasNext {
      progress := progress.(bootstrapComplete := true);
    }
  }

  method GatherPage(dex: string, objects: seq<ObjectRef>, hydrate: ObjectRef -> Hydrated) returns (g: Gathered)
    ensures g == GatherObjects(dex, objects, hydrate)
  {
    g := NOTHING;
    for i := 0 to |objects|
      invariant g == GatherObjects(dex, objects[..i], hydrate)
    {
      assert objects[..i + 1][..i] == objects[..i] && objects[..i + 1][i] == objects[i];
      var o := objects[i];
      if o.parseError.Some? {
        g := Fail(g, Failure(dex, ObjectEvent(o.poolId), Some(o.poolId), o.parseError.value, 1));
        continue;
      }
      if o.poolId in g.seen {
        continue;
      }
      g := g.(seen := g.seen + {o.poolId});
      match hydrate(o)
      case Ok(c) => g := Merge(g, c);
      case Err(reason) =>
        g := Fail(g, Failure(dex, ObjectEvent(o.poolId), Some(o.poolId), reason, 1));
    }
    assert objects[..|objects|] == objects;
  }

  // ----- the event scan

  datatype EventAnswer =
    | EventInvalidCursor
    | EventFailed
    | EventPage(events: seq<EventRef>, hasNext: bool, endCursor: Option<string>, hydrateEvent: EventRef -> Hydrated,
                commits: bool)

  function GatherEvent(dex: string, g: Gathered, e: EventRef, hydrate: EventRef -> Hydrated): Gathered {
    if e.parseError.Some? then Fail(g, Failure(dex, e.eventId, None, e.parseError.value, 1))
    else if e.poolRef.None? then g
    else match hydrate(e)
      case Ok(c) => Merge(g, c)
      case Err(reason) => Fail(g, Failure(dex, e.eventId, Some(e.poolRef.value.poolId), reason, 1))
  }

  function GatherEvents(dex: string, events: seq<EventRef>, hydrate: EventRef -> Hydrated): Gathered {
    if events == [] then NOTHING
    else GatherEvent(dex, GatherEvents(dex, events[..|events| - 1], hydrate), events[|events| - 1], hydrate)
  }

  /** The greatest checkpoint of the parsed events, and at least the one before. */
  function MaxCheckpoint(before: Option<nat>, events: seq<EventRef>): Option<nat> {
    if events == [] then before
    else
      var front, e := MaxCheckpoint(before, events[..|events| - 1]), events[|events| - 1];
      if e.parseError.Some? || e.poolRef.None? || e.poolRef.value.checkpoint.None? then front
      else
        var cp := e.poolRef.value.checkpoint.value;
        Some(if front.Some? && front.value > cp then front.value else cp)
  }

  function AfterEventPage(
    p: Progress, discovered: nat, events: seq<EventRef>, hasNext: bool, endCursor: Option<string>,
    firstCheckpoint: Option<nat>): Progress
  {
    p.(poolsDiscovered := p.poolsDiscovered + discovered,
       lastCheckpoint := MaxCheckpoint(p.lastCheckpoint, events),
       pageCursor := if hasNext then endCursor else None,
       backfillComplete := p.backfillComplete || !hasNext,
       retentionLimited := p.retentionLimited || (!hasNext && events == [] && firstCheckpoint.Some?))
  }

  function EventStep(dex: string, first: Option<nat>, s: ScanState, a: EventAnswer): ScanState {
    match a
    case EventInvalidCursor => s.(progress := s.progress.(pageCursor := None))
    case EventFailed => Stopped(s)
    case EventPage(events, hasNext, endCursor, hydrate, commits) =>
      var g := GatherEvents(dex, events, hydrate);
      var p := AfterEventPage(s.progress, g.discovered, events, hasNext, endCursor, first);
      if commits then s.(db := Committed(s.db, CommitOf(p, g)), progress := p, halted := !hasNext)
      else Stopped(s.(progress := p))
  }

  function EventScan(dex: string, first: Option<nat>, s: ScanState, answers: seq<EventAnswer>): ScanState
    decreases |answers|
  {
    if answers == [] || s.halted then s
    else EventScan(dex, first, EventStep(dex, first, s, answers[0]), answers[1..])
  }

  function StartEventScan(db: Database, dex: string, eventType: string): ScanState {
    ScanState(db, LoadProgress(db, NewEventIncremental(dex, eventType)), false, true)
  }

  method ScanSingleEventType(
    storage: Storage, dex: string, eventType: string, first: Option<nat>, answers: seq<EventAnswer>, maxPages: nat)
    returns (ok: bool)
    requires maxPages <= |answers|
    modifies storage
    ensures var end :=
        EventScan(dex, first, StartEventScan(old(storage.Contents()), dex, eventType), answers[..maxPages]);
      storage.Contents() == end.db && ok == end.ok
  {
    var key := (dex, eventType);
    var progress := if key in storage.progress then storage.progress[key] else NewEventIncremental(dex, eventType);
    ghost var start := StartEventScan(storage.Contents(), dex, eventType);
    for page := 0 to maxPages
      invariant EventScan(dex, first, ScanState(storage.Contents(), progress, false, true), answers[page..maxPages])
                == EventScan(dex, first, start, answers[..maxPages])
    {
      assert answers[page..maxPages][0] == answers[page] && answers[page..maxPages][1..] == answers[page + 1..maxPages];
      match answers[page]
      case EventInvalidCursor =>
        progress := progress.(pageCursor := None);
      case EventFailed =>
        return false;
      case EventPage(_, _, _, _, _) =>
        var halted;
        progress, halted, ok := CommitEventPage(storage, dex, first, progress, answers[page]);
        if halted {
          return;
        }
    }
    ok := true;
  }

  /** The part of the loop body after a page of events has arrived. */
  method CommitEventPage(storage: Storage, dex: string, first: Option<nat>, before: Progress, page: EventAnswer)
    returns (progress: Progress, halted: bool, ok: bool)
    requires page.EventPage?
    modifies storage
    ensures ScanState(storage.Contents(), progress, halted, ok)
            == EventStep(dex, first, ScanState(old(storage.Contents()), before, false, true), page)
  {
    var g, maxCheckpoint := GatherEventPage(dex, before.lastCheckpoint, page.events, page.hydrateEvent);
    progress := AdvanceEventProgress(before, g.discovered, maxCheckpoint, page, first);
    if !page.commits {
      return progress, true, false;
    }
    storage.CommitDiscoveryPage(CommitOf(progress, g));
    return progress, !page.hasNext, true;
  }

  method AdvanceEventProgress(
    before: Progress, discovered: nat, maxCheckpoint: Option<nat>, page: EventAnswer, first: Option<nat>)
    returns (progress: Progress)
    requires page.EventPage? && maxCheckpoint == MaxCheckpoint(before.lastCheckpoint, page.events)
    ensures progress == AfterEventPage(before, discovered, page.events, page.hasNext, page.endCursor, first)
  {
    progress := before.(poolsDiscovered := before.poolsDiscovered + discovered);
    progress := progress.(lastCheckpoint := maxCheckpoint, pageCursor := if page.hasNext then page.endCursor else None);
    if !page.hasNext {
      progress := progress.(backfillComplete := true);
      if page.events == [] && first.Some? {
        progress := progress.(retentionLimited := true);
      }
    }
  }

  method GatherEventPage(dex: string, before: Option<nat>, events: seq<EventRef>, hydrate: EventRef -> Hydrated)
    returns (g: Gathered, maxCheckpoint: Option<nat>)
    ensures g == GatherEvents(dex, events, hydrate) && maxCheckpoint == MaxCheckpoint(before, events)
  {
    g, maxCheckpoint := NOTHING, before;
    for i := 0 to |events|
      invariant g == GatherEvents(dex, events[..i], hydrate) && maxCheckpoint == MaxCheckpoint(before, events[..i])
    {
      assert events[..i + 1][..i] == events[..i] && events[..i + 1][i] == events[i];
      var e := events[i];
      if e.parseError.Some? {
        g := Fail(g, Failure(dex, e.eventId, None, e.parseError.value, 1));
        continue;
      }
      if e.poolRef.Some? {
        match hydrate(e)
        case Ok(c) => g := Merge(g, c);
        case Err(reason) =>
          g := Fail(g, Failure(dex, e.eventId, Some(e.poolRef.value.poolId), reason, 1));
      }
      if e.poolRef.Some? && e.poolRef.value.checkpoint.Some? {
        var cp := e.poolRef.value.checkpoint.value;
        maxCheckpoint := Some(if maxCheckpoint.Some? && maxCheckpoint.value > cp then maxCheckpoint.value else cp);
      }
    }
    assert events[..|events|] == events;
  }
}
