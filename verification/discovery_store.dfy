/** Durable discovery state and its atomic page commit (src/discovery/progress.rs,
    `commit_discovery_page` in src/storage/postgres.rs). */
module DiscoveryStore {
  import opened Models

  datatype DiscoverySource = ObjectBootstrap | EventIncremental

  datatype Progress = Progress(
    dexName: string,
    sourceKey: string,
    source: DiscoverySource,
    lastCheckpoint: Option<nat>,
    pageCursor: Option<string>,
    backfillComplete: bool,
    bootstrapComplete: bool,
    retentionLimited: bool,
    generation: nat,
    poolsDiscovered: nat)

  datatype TokenInfo = TokenInfo(address: string, symbol: string, name: string, decimals: nat)

  datatype Failure = Failure(dexName: string, eventId: string, poolId: Option<string>, reason: string, attempts: nat)

  datatype PageCommit = PageCommit(
    progress: Progress,
    pools: seq<PoolState>,
    tokens: seq<TokenInfo>,
    failures: seq<Failure>,
    resolvedFailureIds: seq<string>)

  const OBJECT_KEY: string := "object_bootstrap"
  const UNKNOWN_DEX: string := "unknown"

  function NewObjectBootstrap(dex: string): Progress {
    Progress(dex, OBJECT_KEY, ObjectBootstrap, None, None, false, false, false, 0, 0)
  }

  function NewEventIncremental(dex: string, eventType: string): Progress {
    Progress(dex, eventType, EventIncremental, None, None, false, false, false, 0, 0)
  }

  type Key = (string, string)

  datatype Database = Database(
    progress: map<Key, Progress>,
    tokens: map<string, TokenInfo>,
    pools: map<string, PoolState>,
    failures: map<Key, Failure>)

  // ----- what a commit does

  function WithTokens(m: map<string, TokenInfo>, tokens: seq<TokenInfo>): map<string, TokenInfo> {
    if tokens == [] then m
    else
      var last := tokens[|tokens| - 1];
      WithTokens(m, tokens[..|tokens| - 1])[last.address := last]
  }

  function WithPools(m: map<string, PoolState>, pools: seq<PoolState>): map<string, PoolState> {
    if pools == [] then m
    else
      var last := pools[|pools| - 1];
      WithPools(m, pools[..|pools| - 1])[last.poolId := last]
  }

  /** A known failure is counted again and keeps its pool id unless a new one comes with it. */
  function WithFailure(m: map<Key, Failure>, f: Failure): map<Key, Failure> {
    var key := (f.dexName, f.eventId);
    if key in m then
      m[key := m[key].(attempts := m[key].attempts + 1, reason := f.reason,
                       poolId := if f.poolId.Some? then f.poolId else m[key].poolId)]
    else m[key := f]
  }

  function WithFailures(m: map<Key, Failure>, failures: seq<Failure>): map<Key, Failure> {
    if failures == [] then m
    else WithFailure(WithFailures(m, failures[..|failures| - 1]), failures[|failures| - 1])
  }

  function WithoutResolved(m: map<Key, Failure>, dex: string, ids: seq<string>): map<Key, Failure> {
    map key | key in m && !(key.0 == dex && key.1 in ids) :: m[key]
  }

  function Committed(db: Database, c: PageCommit): Database {
    Database(
      db.progress[(c.progress.dexName, c.progress.sourceKey) := c.progress],
      WithTokens(db.tokens, c.tokens),
      WithPools(db.pools, c.pools),
      WithoutResolved(WithFailures(db.failures, c.failures), c.progress.dexName, c.resolvedFailureIds))
  }

  /** Every progress row sits under its own key. */
  ghost predicate WellKeyed(db: Database) {
    forall key :: key in db.progress ==> (db.progress[key].dexName, db.progress[key].sourceKey) == key
  }

  /** The four tables. */
  class Storage {
    var progress: map<Key, Progress>
    var tokens: map<string, TokenInfo>
    var pools: map<string, PoolState>
    var failures: map<Key, Failure>

    constructor ()
      ensures Contents() == Database(map[], map[], map[], map[])
    {
      progress, tokens, pools, failures := map[], map[], map[], map[];
    }

    function Contents(): Database
      reads this
    {
      Database(progress, tokens, pools, failures)
    }

    method CommitDiscoveryPage(c: PageCommit)
      modifies this
      ensures Contents() == Committed(old(Contents()), c)
    {
      var dex := c.progress.dexName;
      progress := progress[(dex, c.progress.sourceKey) := c.progress];
      for i := 0 to |c.tokens|
        invariant tokens == WithTokens(old(tokens), c.tokens[..i])
        invariant pools == old(pools) && failures == old(failures)
        invariant progress == old(progress)[(dex, c.progress.sourceKey) := c.progress]
      {
        assert c.tokens[..i + 1][..i] == c.tokens[..i];
        tokens := tokens[c.tokens[i].address := c.tokens[i]];
      }
      assert c.tokens[..|c.tokens|] == c.tokens;
      UpsertPools(c.pools);
      RecordFailures(c.failures);
      ResolveFailures(dex, c.resolvedFailureIds);
    }

    method UpsertPools(more: seq<PoolState>)
      modifies this`pools
      ensures pools == WithPools(old(pools), more)
    {
      for i := 0 to |more|
        invariant pools == WithPools(old(pools), more[..i])
      {
        assert more[..i + 1][..i] == more[..i];
        pools := pools[more[i].poolId := more[i]];
      }
      assert more[..|more|] == more;
    }

    method RecordFailures(more: seq<Failure>)
      modifies this`failures
      ensures failures == WithFailures(old(failures), more)
    {
      for i := 0 to |more|
        invariant failures == WithFailures(old(failures), more[..i])
      {
        assert more[..i + 1][..i] == more[..i];
        var f := more[i];
        var key := (f.dexName, f.eventId);
        if key in failures {
          var existing := failures[key];
          existing := existing.(attempts := existing.attempts + 1, reason := f.reason);
          if f.poolId.Some? {
            existing := existing.(poolId := f.poolId);
          }
          failures := failures[key := existing];
        } else {
          failures := failures[key := f];
        }
      }
      assert more[..|more|] == more;
    }

    method ResolveFailures(dex: string, ids: seq<string>)
      modifies this`failures
      ensures failures == WithoutResolved(old(failures), dex, ids)
    {
      assert WithoutResolved(failures, dex, ids[..0]) == failures;
      for i := 0 to |ids|
        invariant failures == WithoutResolved(old(failures), dex, ids[..i])
      {
        assert forall id :: id in ids[..i + 1] <==> id in ids[..i] || id == ids[i];
        failures := failures - {(dex, ids[i])};
      }
      assert ids[..|ids|] == ids;
    }
  }

  // ----- which rows are there afterwards

  ghost predicate HasPool(pools: seq<PoolState>, id: string) {
    exists i :: 0 <= i < |pools| && pools[i].poolId == id
  }

  ghost predicate HasFailure(failures: seq<Failure>, key: Key) {
    exists i :: 0 <= i < |failures| && (failures[i].dexName, failures[i].eventId) == key
  }

  lemma {:induction false} PoolRows(m: map<string, PoolState>, pools: seq<PoolState>, id: string)
    ensures id in WithPools(m, pools) <==> id in m || HasPool(pools, id)
    ensures id in WithPools(m, pools) && !HasPool(pools, id) ==> WithPools(m, pools)[id] == m[id]
  {
    if pools != [] {
      var front := pools[..|pools| - 1];
      PoolRows(m, front, id);
      assert forall i :: 0 <= i < |front| ==> pools[i] == front[i];
    }
  }

  /** How often a key occurs among failures. */
  function Occurrences(failures: seq<Failure>, key: Key): nat {
    if failures == [] then 0
    else
      var last := failures[|failures| - 1];
      Occurrences(failures[..|failures| - 1], key) + if (last.dexName, last.eventId) == key then 1 else 0
  }

  /** Every further occurrence of a key counts as one more attempt. */
  lemma {:induction false} FailureRows(m: map<Key, Failure>, failures: seq<Failure>, key: Key)
    ensures key in WithFailures(m, failures) <==> key in m || HasFailure(failures, key)
    ensures key in m ==> WithFailures(m, failures)[key].attempts == m[key].attempts + Occurrences(failures, key)
    ensures key !in m && (forall f :: f in failures ==> f.attempts == 1) && HasFailure(failures, key) ==>
      WithFailures(m, failures)[key].attempts == Occurrences(failures, key)
    ensures Occurrences(failures, key) > 0 <==> HasFailure(failures, key)
  {
    if failures != [] {
      var front := failures[..|failures| - 1];
      FailureRows(m, front, key);
      assert forall i :: 0 <= i < |front| ==> failures[i] == front[i];
    }
  }

  /** Pools are never dropped; a failure row disappears only by being resolved under the commit's own DEX. */
  lemma CommitKeepsRows(db: Database, c: PageCommit)
    ensures var after := Committed(db, c);
      && (forall id :: id in after.pools <==> id in db.pools || HasPool(c.pools, id))
      && (forall key :: key in after.failures <==>
            && (key in db.failures || HasFailure(c.failures, key))
            && !(key.0 == c.progress.dexName && key.1 in c.resolvedFailureIds))
  {
    forall id
      ensures id in WithPools(db.pools, c.pools) <==> id in db.pools || HasPool(c.pools, id)
    {
      PoolRows(db.pools, c.pools, id);
    }
    forall key
      ensures key in WithFailures(db.failures, c.failures) <==> key in db.failures || HasFailure(c.failures, key)
    {
      FailureRows(db.failures, c.failures, key);
    }
  }

  // ----- retrying a recorded failure

  /** The commit built for a single pool; its progress is the default one, not the DEX's. */
  function SinglePoolCommit(pool: PoolState, tokens: seq<TokenInfo>, resolvedEvent: Option<string>): PageCommit {
    PageCommit(
      NewObjectBootstrap(UNKNOWN_DEX).(poolsDiscovered := 1), [pool], tokens, [],
      match resolvedEvent case Some(id) => [id] case None => [])
  }

  /** A successful retry stores the pool but removes the failure row only for a DEX called "unknown",
      because the deletion goes by the default progress key. */
  lemma RetryLeavesRow(db: Database, pool: PoolState, tokens: seq<TokenInfo>, dex: string, eventId: string)
    requires (dex, eventId) in db.failures
    ensures var after := Committed(db, SinglePoolCommit(pool, tokens, Some(eventId)));
      && pool.poolId in after.pools
      && ((dex, eventId) !in after.failures <==> dex == UNKNOWN_DEX)
  {
    var c := SinglePoolCommit(pool, tokens, Some(eventId));
    CommitKeepsRows(db, c);
    assert c.pools[0] == pool;
  }
}
