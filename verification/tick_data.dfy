/** Normalising fetched ticks (src/collectors/tick_fetch.rs, `finalize_ticks`). */
module TickData {
  import opened Models
  import opened TickSwap

  ghost predicate Ascending(ts: seq<TickInfo>) {
    forall i, j :: 0 <= i < j < |ts| ==> ts[i].tickIndex <= ts[j].tickIndex
  }

  ghost predicate StrictlyAscending(ts: seq<TickInfo>) {
    forall i, j :: 0 <= i < j < |ts| ==> ts[i].tickIndex < ts[j].tickIndex
  }

  /** `t` in front of the first entry that is not smaller, so that equal keys keep their order. */
  function Insert(t: TickInfo, ts: seq<TickInfo>): seq<TickInfo> {
    if ts == [] || t.tickIndex <= ts[0].tickIndex then [t] + ts else [ts[0]] + Insert(t, ts[1..])
  }

  /** `sort_by_key`: a stable sort by tick index. */
  function SortByIndex(ts: seq<TickInfo>): seq<TickInfo> {
    if ts == [] then [] else Insert(ts[0], SortByIndex(ts[1..]))
  }

  /** `dedup_by_key`: of every run of equal keys the first entry stays. */
  function DedupByIndex(ts: seq<TickInfo>): seq<TickInfo>
    decreases |ts|
  {
    if |ts| < 2 then ts
    else if ts[0].tickIndex == ts[1].tickIndex then DedupByIndex([ts[0]] + ts[2..])
    else [ts[0]] + DedupByIndex(ts[1..])
  }

  function FinalizeTicks(ts: seq<TickInfo>): seq<TickInfo> {
    DedupByIndex(SortByIndex(ts))
  }

  lemma {:induction false} InsertKeeps(t: TickInfo, ts: seq<TickInfo>, k: int)
    requires Ascending(ts)
    ensures Ascending(Insert(t, ts))
    ensures forall x :: x in Insert(t, ts) <==> x == t || x in ts
    ensures NetOf(Insert(t, ts), k) == if t.tickIndex == k then t.liquidityNet else NetOf(ts, k)
  {
    if ts != [] && ts[0].tickIndex < t.tickIndex {
      InsertKeeps(t, ts[1..], k);
      FrontKeeps(ts[0], Insert(t, ts[1..]));
      assert ts == [ts[0]] + ts[1..];
    } else {
      FrontKeeps(t, ts);
    }
  }

  lemma FrontKeeps(t: TickInfo, ts: seq<TickInfo>)
    requires Ascending(ts) && forall x :: x in ts ==> t.tickIndex <= x.tickIndex
    ensures Ascending([t] + ts) && ([t] + ts)[1..] == ts
    ensures forall x :: x in [t] + ts <==> x == t || x in ts
  {
  }

  lemma {:induction false} SortKeeps(ts: seq<TickInfo>, k: int)
    ensures Ascending(SortByIndex(ts))
    ensures forall x :: x in SortByIndex(ts) <==> x in ts
    ensures NetOf(SortByIndex(ts), k) == NetOf(ts, k)
  {
    if ts != [] {
      SortKeeps(ts[1..], k);
      InsertKeeps(ts[0], SortByIndex(ts[1..]), k);
      assert ts == [ts[0]] + ts[1..];
    }
  }

  lemma {:induction false} DedupKeeps(ts: seq<TickInfo>, k: int)
    requires Ascending(ts)
    ensures StrictlyAscending(DedupByIndex(ts))
    ensures forall x :: x in DedupByIndex(ts) ==> x in ts
    ensures ts != [] ==> DedupByIndex(ts) != [] && DedupByIndex(ts)[0] == ts[0]
    ensures NetOf(DedupByIndex(ts), k) == NetOf(ts, k)
    ensures HasTick(DedupByIndex(ts), k) <==> HasTick(ts, k)
    decreases |ts|
  {
    if |ts| >= 2 {
      if ts[0].tickIndex == ts[1].tickIndex {
        DedupKeeps([ts[0]] + ts[2..], k);
        DropSecond(ts, k);
      } else {
        DedupKeeps(ts[1..], k);
        var rest := DedupByIndex(ts[1..]);
        assert rest[0] == ts[1];
        assert ([ts[0]] + rest)[1..] == rest;
        TickInFront(ts[0], rest, k);
        TickInFront(ts[0], ts[1..], k);
        assert ts == [ts[0]] + ts[1..];
      }
    }
  }

  /** Dropping the second of two ticks with the same index changes no lookup. */
  lemma DropSecond(ts: seq<TickInfo>, k: int)
    requires |ts| >= 2 && ts[0].tickIndex == ts[1].tickIndex
    ensures var shorter := [ts[0]] + ts[2..];
      NetOf(shorter, k) == NetOf(ts, k) && (HasTick(shorter, k) <==> HasTick(ts, k))
  {
    var shorter := [ts[0]] + ts[2..];
    assert shorter[1..] == ts[1..][1..];
    forall i | 0 <= i < |ts|
      ensures exists j :: 0 <= j < |shorter| && shorter[j].tickIndex == ts[i].tickIndex
    {
      assert shorter[if i < 2 then 0 else i - 1].tickIndex == ts[i].tickIndex;
    }
  }

  lemma TickInFront(t: TickInfo, ts: seq<TickInfo>, k: int)
    ensures HasTick([t] + ts, k) <==> t.tickIndex == k || HasTick(ts, k)
  {
    var all := [t] + ts;
    if t.tickIndex == k {
      assert all[0].tickIndex == k;
    }
    if HasTick(ts, k) {
      var i :| 0 <= i < |ts| && ts[i].tickIndex == k;
      assert all[i + 1].tickIndex == k;
    }
    if HasTick(all, k) && t.tickIndex != k {
      var i :| 0 <= i < |all| && all[i].tickIndex == k;
      assert ts[i - 1].tickIndex == k;
    }
  }

  /** Finalized ticks are strictly ascending, and looking a tick up gives what it gave before. */
  lemma FinalizeKeepsLookups(ts: seq<TickInfo>, k: int)
    ensures StrictlyAscending(FinalizeTicks(ts)) && DistinctTicks(FinalizeTicks(ts))
    ensures NetOf(FinalizeTicks(ts), k) == NetOf(ts, k)
    ensures HasTick(FinalizeTicks(ts), k) <==> HasTick(ts, k)
  {
    SortKeeps(ts, k);
    DedupKeeps(SortByIndex(ts), k);
    var sorted := SortByIndex(ts);
    if HasTick(ts, k) {
      var i :| 0 <= i < |ts| && ts[i].tickIndex == k;
      assert ts[i] in sorted;
    }
    if HasTick(sorted, k) {
      var i :| 0 <= i < |sorted| && sorted[i].tickIndex == k;
      assert sorted[i] in ts;
    }
  }

  /** The next tick to cross depends only on which ticks there are. */
  lemma SameNextTick(a: seq<TickInfo>, b: seq<TickInfo>, current: int, down: bool)
    requires forall t :: HasTick(a, t) <==> HasTick(b, t)
    ensures PickNextTick(a, current, down) == PickNextTick(b, current, down)
  {
    var x, y := PickNextTick(a, current, down), PickNextTick(b, current, down);
    if x.Some? {
      assert HasTick(b, x.value);
    }
    if y.Some? {
      assert HasTick(a, y.value);
    }
  }

  /** The swap loop crosses the same ticks whether or not they have been finalized. */
  lemma FinalizeKeepsNextTick(ts: seq<TickInfo>, current: int, down: bool)
    ensures PickNextTick(FinalizeTicks(ts), current, down) == PickNextTick(ts, current, down)
  {
    forall t
      ensures HasTick(FinalizeTicks(ts), t) <==> HasTick(ts, t)
    {
      FinalizeKeepsLookups(ts, t);
    }
    SameNextTick(FinalizeTicks(ts), ts, current, down);
  }
}
