/** PluginMetricsService: a bounded buffer of outcomes, pruned only when somebody reads it. */
module RollingStats {
  import opened Schema

  const WINDOW_MS := 5 * 60 * 1000
  const MAX_ENTRIES := 200

  datatype Entry = Entry(ts: int, durationMs: real, failed: bool)

  // ---------- The simple window ----------

  /** The freshest entries ever recorded, up to the cap. */
  function Latest(history: seq<Entry>): seq<Entry> {
    if |history| <= 200 then history else history[|history| - 200..]
  }

  /** The entries not older than the window. */
  function InWindow(entries: seq<Entry>, now: int): seq<Entry> {
    if entries == [] then []
    else if now - entries[0].ts > 300_000 then InWindow(entries[1..], now)
    else [entries[0]] + InWindow(entries[1..], now)
  }

  predicate NonDecreasing(entries: seq<Entry>) {
    forall i, j :: 0 <= i < j < |entries| ==> entries[i].ts <= entries[j].ts
  }

  // ---------- The buffer ----------

  function Recorded(buffer: seq<Entry>, e: Entry): seq<Entry> {
    if |buffer| + 1 > MAX_ENTRIES then (buffer + [e])[1..] else buffer + [e]
  }

  function Pruned(buffer: seq<Entry>, now: int): seq<Entry> {
    if buffer != [] && buffer[0].ts < now - WINDOW_MS then Pruned(buffer[1..], now) else buffer
  }

  class RollingStats {
    var buffer: seq<Entry>

    constructor ()
      ensures buffer == []
    {
      buffer := [];
    }

    method Record(durationMs: real, failed: bool, now: int)
      modifies this
      ensures buffer == Recorded(old(buffer), Entry(now, durationMs, failed))
    {
      buffer := buffer + [Entry(now, durationMs, failed)];
      if |buffer| > MAX_ENTRIES {
        buffer := buffer[1..];
      }
    }

    method Prune(now: int)
      modifies this
      ensures buffer == Pruned(old(buffer), now)
    {
      var cutoff := now - WINDOW_MS;
      while |buffer| > 0 && buffer[0].ts < cutoff
        invariant Pruned(buffer, now) == Pruned(old(buffer), now)
        decreases |buffer|
      {
        buffer := buffer[1..];
      }
    }

    /** The duration that fewer than 5% of the window's entries exceed and at most 95% fall below. */
    method P95(now: int) returns (r: Option<real>)
      modifies this
      ensures buffer == Pruned(old(buffer), now)
      ensures r.None? <==> buffer == []
      ensures r.Some? ==> IsP95(Durations(buffer), r.value)
    {
      Prune(now);
      if |buffer| == 0 {
        return None;
      }
      var sorted := Sorted(Durations(buffer));
      var idx := if 19 * |sorted| / 20 < |sorted| - 1 then 19 * |sorted| / 20 else |sorted| - 1;
      PercentileByIndex(Durations(buffer), idx);
      r := Some(sorted[idx]);
    }

    /** The time of the latest failure in the window. */
    method LastFailureMs(now: int) returns (r: Option<int>)
      modifies this
      ensures buffer == Pruned(old(buffer), now)
      ensures r.None? <==> forall e :: e in buffer ==> !e.failed
      ensures r.Some? && NonDecreasing(buffer) ==>
                && (exists e :: e in buffer && e.failed && e.ts == r.value)
                && (forall e :: e in buffer && e.failed ==> e.ts <= r.value)
    {
      Prune(now);
      var i := |buffer| - 1;
      while i >= 0
        invariant -1 <= i < |buffer|
        invariant forall k :: i < k < |buffer| ==> !buffer[k].failed
      {
        if buffer[i].failed {
          return Some(buffer[i].ts);
        }
        i := i - 1;
      }
      r := None;
    }
  }

  // ---------- The lazily pruned buffer agrees with the simple window ----------

  datatype Step = Recording(e: Entry) | Reading(now: int)

  function Time(s: Step): int {
    if s.Recording? then s.e.ts else s.now
  }

  function History(steps: seq<Step>): seq<Entry> {
    if steps == [] then []
    else
      var last := steps[|steps| - 1];
      History(steps[..|steps| - 1]) + if last.Recording? then [last.e] else []
  }

  function Buffer(steps: seq<Step>): seq<Entry> {
    if steps == [] then []
    else
      var last, before := steps[|steps| - 1], Buffer(steps[..|steps| - 1]);
      if last.Recording? then Recorded(before, last.e) else Pruned(before, last.now)
  }

  predicate Monotone(steps: seq<Step>) {
    forall i, j :: 0 <= i < j < |steps| ==> Time(steps[i]) <= Time(steps[j])
  }

  /** The buffer is a tail of the freshest entries, and what pruning dropped had left the window. */
  predicate IsTail(buffer: seq<Entry>, history: seq<Entry>, now: int) {
    && |buffer| <= |history| && |buffer| <= MAX_ENTRIES
    && buffer == history[|history| - |buffer|..]
    && forall i :: 0 <= i < |history| - |buffer| && |history| - MAX_ENTRIES <= i ==> history[i].ts < now - WINDOW_MS
  }

  lemma {:induction false} PrunedIsDrop(buffer: seq<Entry>, now: int) returns (k: nat)
    ensures k <= |buffer| && Pruned(buffer, now) == buffer[k..]
    ensures forall i :: 0 <= i < k ==> buffer[i].ts < now - WINDOW_MS
    ensures k < |buffer| ==> buffer[k].ts >= now - WINDOW_MS
  {
    if buffer != [] && buffer[0].ts < now - WINDOW_MS {
      var j := PrunedIsDrop(buffer[1..], now);
      k := j + 1;
    } else {
      k := 0;
    }
  }

  lemma {:induction false} InWindowOfSorted(entries: seq<Entry>, k: nat, now: int)
    requires k <= |entries| && NonDecreasing(entries)
    requires forall i :: 0 <= i < k ==> entries[i].ts < now - WINDOW_MS
    requires k < |entries| ==> entries[k].ts >= now - WINDOW_MS
    ensures InWindow(entries, now) == entries[k..]
  {
    if entries != [] {
      InWindowOfSorted(entries[1..], if k == 0 then 0 else k - 1, now);
    }
  }

  lemma {:induction false} RecordKeepsTail(buffer: seq<Entry>, history: seq<Entry>, before: int, e: Entry)
    requires IsTail(buffer, history, before) && before <= e.ts
    ensures IsTail(Recorded(buffer, e), history + [e], e.ts)
  {
    var grown := buffer + [e];
    assert grown == (history + [e])[|history| - |buffer|..];
    assert grown[1..] == (history + [e])[|history| - |buffer| + 1..];
  }

  lemma {:induction false} ReadKeepsTail(buffer: seq<Entry>, history: seq<Entry>, before: int, now: int)
    requires IsTail(buffer, history, before) && before <= now
    ensures IsTail(Pruned(buffer, now), history, now)
  {
    var k := PrunedIsDrop(buffer, now);
    assert buffer[k..] == history[|history| - |buffer| + k..];
    forall i | |history| - |buffer| <= i < |history| - |buffer| + k
      ensures history[i].ts < now - WINDOW_MS
    {
      assert history[i] == buffer[i - (|history| - |buffer|)];
    }
  }

  ghost predicate UpTo(entries: seq<Entry>, time: int) {
    NonDecreasing(entries) && forall e :: e in entries ==> e.ts <= time
  }

  function LastTime(steps: seq<Step>): int {
    if steps == [] then 0 else Time(steps[|steps| - 1])
  }

  lemma {:induction false} HistoryIsOrdered(steps: seq<Step>)
    requires Monotone(steps)
    ensures UpTo(History(steps), LastTime(steps))
  {
    if steps != [] {
      HistoryIsOrdered(steps[..|steps| - 1]);
    }
  }

  lemma {:induction false} BufferIsTail(steps: seq<Step>)
    requires Monotone(steps)
    ensures IsTail(Buffer(steps), History(steps), LastTime(steps))
  {
    if steps != [] {
      var before, last := steps[..|steps| - 1], steps[|steps| - 1];
      BufferIsTail(before);
      var from := if before == [] then Time(last) else LastTime(before);
      if last.Recording? {
        RecordKeepsTail(Buffer(before), History(before), from, last.e);
      } else {
        ReadKeepsTail(Buffer(before), History(before), from, last.now);
        assert History(steps) == History(before);
      }
    }
  }

  /** Whatever was recorded and read before, a read sees exactly the freshest entries that are still in the window. */
  lemma {:induction false} ReadSeesTheWindow(steps: seq<Step>, now: int)
    requires Monotone(steps + [Reading(now)])
    ensures Buffer(steps + [Reading(now)]) == InWindow(Latest(History(steps)), now)
  {
    var all, history := steps + [Reading(now)], History(steps);
    assert all[..|all| - 1] == steps;
    assert History(all) == history;
    BufferIsTail(all);
    HistoryIsOrdered(all);
    var k := PrunedIsDrop(Buffer(steps), now);
    TailIsWindow(Buffer(all), history, now);
  }

  lemma {:induction false} TailIsWindow(buffer: seq<Entry>, history: seq<Entry>, now: int)
    requires IsTail(buffer, history, now) && NonDecreasing(history)
    requires buffer != [] ==> buffer[0].ts >= now - WINDOW_MS
    ensures buffer == InWindow(Latest(history), now)
  {
    var h := Latest(history);
    assert buffer == h[|h| - |buffer|..];
    InWindowOfSorted(h, |h| - |buffer|, now);
  }

  // ---------- The percentile ----------

  function Durations(entries: seq<Entry>): seq<real> {
    seq(|entries|, i requires 0 <= i < |entries| => entries[i].durationMs)
  }

  function Above(values: seq<real>, v: real): nat {
    if values == [] then 0 else Above(values[1..], v) + if values[0] > v then 1 else 0
  }

  function Below(values: seq<real>, v: real): nat {
    if values == [] then 0 else Below(values[1..], v) + if values[0] < v then 1 else 0
  }

  predicate IsP95(values: seq<real>, v: real) {
    v in values && 20 * Above(values, v) < |values| && 20 * Below(values, v) <= 19 * |values|
  }

  function Insert(x: real, sorted: seq<real>): (r: seq<real>)
    ensures |r| == |sorted| + 1
  {
    if sorted == [] || x <= sorted[0] then [x] + sorted else [sorted[0]] + Insert(x, sorted[1..])
  }

  /** Array.prototype.sort with the numeric comparison. */
  function Sorted(values: seq<real>): (r: seq<real>)
    ensures |r| == |values|
  {
    if values == [] then [] else Insert(values[0], Sorted(values[1..]))
  }

  predicate Ascending(values: seq<real>) {
    forall i, j :: 0 <= i < j < |values| ==> values[i] <= values[j]
  }

  lemma {:induction false} InsertKeepsOrder(x: real, sorted: seq<real>)
    requires Ascending(sorted)
    ensures Ascending(Insert(x, sorted))
  {
    if sorted != [] && x > sorted[0] {
      var rest := Insert(x, sorted[1..]);
      InsertKeepsOrder(x, sorted[1..]);
      assert rest[0] == x || rest[0] == sorted[1];
    }
  }

  lemma {:induction false} InsertAdds(x: real, sorted: seq<real>, v: real)
    ensures multiset(Insert(x, sorted)) == multiset(sorted) + multiset{x}
    ensures Above(Insert(x, sorted), v) == Above(sorted, v) + if x > v then 1 else 0
    ensures Below(Insert(x, sorted), v) == Below(sorted, v) + if x < v then 1 else 0
  {
    if sorted == [] || x <= sorted[0] {
      assert ([x] + sorted)[1..] == sorted;
    } else {
      var rest := Insert(x, sorted[1..]);
      InsertAdds(x, sorted[1..], v);
      assert ([sorted[0]] + rest)[1..] == rest;
      assert sorted == [sorted[0]] + sorted[1..];
    }
  }

  lemma {:induction false} SortedAscends(values: seq<real>)
    ensures Ascending(Sorted(values))
  {
    if values != [] {
      SortedAscends(values[1..]);
      InsertKeepsOrder(values[0], Sorted(values[1..]));
    }
  }

  lemma {:induction false} SortedKeeps(values: seq<real>, v: real)
    ensures multiset(Sorted(values)) == multiset(values)
    ensures Above(Sorted(values), v) == Above(values, v) && Below(Sorted(values), v) == Below(values, v)
  {
    if values != [] {
      SortedKeeps(values[1..], v);
      InsertAdds(values[0], Sorted(values[1..]), v);
      assert values == [values[0]] + values[1..];
    }
  }

  lemma {:induction false} RankInAscending(values: seq<real>, i: nat, v: real)
    requires Ascending(values) && i < |values| && v == values[i]
    ensures Above(values, v) <= |values| - 1 - i && Below(values, v) <= i
  {
    if i > 0 {
      RankInAscending(values[1..], i - 1, v);
    } else {
      NoneBelow(values[1..], v);
    }
  }

  lemma {:induction false} NoneBelow(values: seq<real>, v: real)
    requires forall i :: 0 <= i < |values| ==> v <= values[i]
    ensures Below(values, v) == 0 && Above(values, v) <= |values|
  {
    if values != [] {
      NoneBelow(values[1..], v);
    }
  }

  lemma {:induction false} PercentileByIndex(values: seq<real>, idx: nat)
    requires values != [] && idx == 19 * |values| / 20
    ensures idx < |Sorted(values)| == |values| && IsP95(values, Sorted(values)[idx])
  {
    var v := Sorted(values)[idx];
    SortedAscends(values);
    SortedKeeps(values, v);
    RankInAscending(Sorted(values), idx, v);
    assert v in multiset(Sorted(values));
  }

  lemma {:induction false} SplitBetween(values: seq<real>, v: real, w: real)
    requires v < w
    ensures Above(values, v) + Below(values, w) >= |values|
  {
    if values != [] {
      SplitBetween(values[1..], v, w);
    }
  }

  /** The two bounds leave no choice: only one value is a 95th percentile. */
  lemma {:induction false} P95IsUnique(values: seq<real>, v: real, w: real)
    requires IsP95(values, v) && IsP95(values, w)
    ensures v == w
  {
    if v < w {
      SplitBetween(values, v, w);
    } else if w < v {
      SplitBetween(values, w, v);
    }
  }
}
