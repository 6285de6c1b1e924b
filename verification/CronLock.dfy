/** CronLockService: a lease in one table row, taken in two statements.

`acquire` reads the clock, then tries to insert the row, then tries to steal it if it had expired when the clock was
read. Other processes run between any two of these statements. A body runs from a successful statement until
`runExclusive` starts its release.
*/
module CronLock {

  /** The row of a lock name. */
  datatype Lease = Lease(holder: string, acquiredAt: int, expiresAt: int)

  // ---------- The service ----------

  /** INSERT; false is the unique violation. */
  function Insert(rows: map<string, Lease>, name: string, lease: Lease): (map<string, Lease>, bool) {
    if name in rows then (rows, false) else (rows[name := lease], true)
  }

  /** UPDATE ... WHERE name AND expiresAt < now. */
  function Steal(rows: map<string, Lease>, name: string, lease: Lease): (map<string, Lease>, bool) {
    if name in rows && rows[name].expiresAt < lease.acquiredAt then (rows[name := lease], true) else (rows, false)
  }

  /** DELETE ... WHERE name AND holder. */
  function Delete(rows: map<string, Lease>, name: string, holder: string): map<string, Lease> {
    if name in rows && rows[name].holder == holder then rows - {name} else rows
  }

  class LockTable {
    var rows: map<string, Lease>

    constructor ()
      ensures rows == map[]
    {
      rows := map[];
    }

    /** Statements of other processes, and of other calls of this one, between two statements. */
    method Others()
      modifies this
    {
      rows := *;
    }
  }

  class CronLockService {
    const holderId: string
    const table: LockTable

    constructor (holderId: string, table: LockTable)
      ensures this.holderId == holderId && this.table == table
    {
      this.holderId, this.table := holderId, table;
    }

    /** Returns whether this call owns the lease. `first` is the table as the insert found it, `second` as the takeover
        did; they are the same if there was no takeover. */
    method Acquire(name: string, ttl: int, now: int)
      returns (acquired: bool, ghost first: map<string, Lease>, ghost second: map<string, Lease>)
      modifies table
      ensures acquired <==> name !in first || (name in second && second[name].expiresAt < now)
      ensures name !in first ==> second == first
      ensures table.rows == if acquired then second[name := Lease(holderId, now, now + ttl)] else second
    {
      var lease := Lease(holderId, now, now + ttl);
      table.Others();
      first, second := table.rows, table.rows;
      var result := Insert(table.rows, name, lease);
      table.rows, acquired := result.0, result.1;
      if !acquired {
        table.Others();
        second := table.rows;
        result := Steal(table.rows, name, lease);
        table.rows, acquired := result.0, result.1;
      }
    }

    /** Deletes the row only if this process holds it. */
    method Release(name: string)
      modifies table
      ensures table.rows == Delete(old(table.rows), name, holderId)
      ensures name in old(table.rows) && old(table.rows)[name].holder != holderId ==> table.rows == old(table.rows)
    {
      table.rows := Delete(table.rows, name, holderId);
    }
  }

  // ---------- Any number of calls, in any interleaving ----------

  /** Where a call of runExclusive stands. */
  datatype Phase = Inserting | Stealing | Running | Releasing

  datatype Call = Call(name: string, lease: Lease, phase: Phase)

  datatype Sys = Sys(clock: int, rows: map<string, Lease>, calls: map<int, Call>)

  datatype Step =
    | Tick(ms: nat)
    | Begin(call: int, name: string, holder: string, ttl: int)
    | TryInsert(call: int)
    | TrySteal(call: int)
    | FinishBody(call: int)
    | Release(call: int)
    | Crash(call: int)

  function Next(s: Sys, step: Step): Sys {
    match step
    case Tick(ms) => s.(clock := s.clock + ms)
    case Begin(call, name, holder, ttl) =>
      if call in s.calls then s
      else s.(calls := s.calls[call := Call(name, Lease(holder, s.clock, s.clock + ttl), Inserting)])
    case TryInsert(call) =>
      if call !in s.calls || !s.calls[call].phase.Inserting? then s
      else
        var c := s.calls[call];
        var result := Insert(s.rows, c.name, c.lease);
        s.(rows := result.0, calls := s.calls[call := c.(phase := if result.1 then Running else Stealing)])
    case TrySteal(call) =>
      if call !in s.calls || !s.calls[call].phase.Stealing? then s
      else
        var c := s.calls[call];
        var result := Steal(s.rows, c.name, c.lease);
        s.(rows := result.0, calls := if result.1 then s.calls[call := c.(phase := Running)] else s.calls - {call})
    case FinishBody(call) =>
      if call !in s.calls || !s.calls[call].phase.Running? then s
      else s.(calls := s.calls[call := s.calls[call].(phase := Releasing)])
    case Release(call) =>
      if call !in s.calls || !s.calls[call].phase.Releasing? then s
      else s.(rows := Delete(s.rows, s.calls[call].name, s.calls[call].lease.holder), calls := s.calls - {call})
    case Crash(call) =>
      s.(calls := s.calls - {call})
  }

  /** The call has the lock: its body runs, or its row is about to be deleted. */
  predicate Holding(s: Sys, call: int) {
    call in s.calls && (s.calls[call].phase.Running? || s.calls[call].phase.Releasing?)
  }

  /** Every call that has the lock is within its own lease: bodies and releases finish by expiresAt. */
  predicate Timely(s: Sys) {
    forall call :: Holding(s, call) && call in s.calls ==> s.clock <= s.calls[call].lease.expiresAt
  }

  /** No two calls hold the same name. */
  predicate Exclusive(s: Sys) {
    forall a, b :: (a in s.calls && b in s.calls && Holding(s, a) && Holding(s, b)
                    && s.calls[a].name == s.calls[b].name) ==> a == b
  }

  function Run(s: Sys, steps: seq<Step>): Sys {
    if steps == [] then s else Next(Run(s, steps[..|steps| - 1]), steps[|steps| - 1])
  }

  /** The run meets its deadlines in every state it passes through. */
  predicate TimelyRun(s: Sys, steps: seq<Step>) {
    Timely(Run(s, steps)) && (steps == [] || TimelyRun(s, steps[..|steps| - 1]))
  }

  predicate Init(s: Sys) {
    s.rows == map[] && s.calls == map[]
  }

  /** The row of a held name is the holder's own lease; nobody has read a clock ahead of time. */
  predicate Owned(s: Sys) {
    && (forall call :: call in s.calls ==> s.calls[call].lease.acquiredAt <= s.clock)
    && (forall call :: call in s.calls && Holding(s, call) ==>
          s.calls[call].name in s.rows && s.rows[s.calls[call].name] == s.calls[call].lease)
  }

  /** A call steals the lock from a holder whose lease had run out when the thief read its clock. */
  predicate Overtakes(s: Sys, step: Step, holder: int) {
    && step.TrySteal? && step.call in s.calls && s.calls[step.call].phase.Stealing?
    && holder in s.calls && Holding(s, holder) && s.calls[holder].name == s.calls[step.call].name
    && s.calls[holder].lease.expiresAt < s.calls[step.call].lease.acquiredAt
  }

  /** That is the only way in which exclusion is ever lost. */
  lemma ExclusionLostIff(s: Sys, step: Step)
    requires Owned(s) && Exclusive(s)
    ensures Exclusive(Next(s, step)) <==> forall holder :: !Overtakes(s, step, holder)
    ensures Exclusive(Next(s, step)) ==> Owned(Next(s, step))
  {
    var out := Next(s, step);
    if holder :| Overtakes(s, step, holder) {
      assert Holding(out, holder) && Holding(out, step.call);
    } else {
      forall a, b | a in out.calls && b in out.calls && Holding(out, a) && Holding(out, b)
                    && out.calls[a].name == out.calls[b].name
        ensures a == b
      {
        assert !Overtakes(s, step, a) && !Overtakes(s, step, b);
      }
      forall call | call in out.calls && Holding(out, call)
        ensures out.calls[call].name in out.rows && out.rows[out.calls[call].name] == out.calls[call].lease
      {
        assert !Overtakes(s, step, call);
        assert call in s.calls;
      }
    }
  }

  /** A release by another process never removes the row of the current holder, however late it comes; one by the same
      process does. */
  lemma LateReleaseRemovesIff(s: Sys, call: int)
    requires call in s.calls && s.calls[call].phase.Releasing? && s.calls[call].name in s.rows
    ensures s.calls[call].name !in Next(s, Release(call)).rows
       <==> s.rows[s.calls[call].name].holder == s.calls[call].lease.holder
    ensures forall name :: name in s.rows && name != s.calls[call].name ==>
              name in Next(s, Release(call)).rows && Next(s, Release(call)).rows[name] == s.rows[name]
  {
  }

  /** At most one body per name at any time, in any interleaving of the two-step acquire with its stale clock, and
      across crashes, as long as every holder is done by the end of its lease. */
  lemma {:induction false} MutualExclusion(s: Sys, steps: seq<Step>)
    requires Init(s) && TimelyRun(s, steps)
    ensures Owned(Run(s, steps)) && Exclusive(Run(s, steps))
    decreases |steps|
  {
    if steps != [] {
      MutualExclusion(s, steps[..|steps| - 1]);
      var mid, step := Run(s, steps[..|steps| - 1]), steps[|steps| - 1];
      assert Timely(mid);
      forall holder ensures !Overtakes(mid, step, holder) {
      }
      ExclusionLostIff(mid, step);
    }
  }

  // ---------- Who gets the lock ----------

  /** Steps of other calls, and time. */
  predicate NotBy(call: int, steps: seq<Step>) {
    forall i :: 0 <= i < |steps| ==> steps[i].Tick? || steps[i].call != call
  }

  lemma {:induction false} OthersLeaveCall(s: Sys, call: int, steps: seq<Step>)
    requires NotBy(call, steps)
    ensures call in Run(s, steps).calls <==> call in s.calls
    ensures call in s.calls ==> Run(s, steps).calls[call] == s.calls[call]
    decreases |steps|
  {
    if steps != [] {
      OthersLeaveCall(s, call, steps[..|steps| - 1]);
    }
  }

  /** A call that read the clock and tries both statements, with anything between them, has the lock exactly if the
      name was free at its insert, or taken at its takeover by a lease that had expired when it read the clock. */
  lemma {:induction false} AcquiresIff(s: Sys, call: int, between: seq<Step>)
    requires call in s.calls && s.calls[call].phase.Inserting? && NotBy(call, between)
    ensures var c, tried := s.calls[call], Run(Next(s, TryInsert(call)), between);
            var out := Next(tried, TrySteal(call));
            && (Holding(out, call)
                <==> c.name !in s.rows || (c.name in tried.rows && tried.rows[c.name].expiresAt < c.lease.acquiredAt))
            && (call in out.calls <==> Holding(out, call))
            && (Holding(out, call) && c.name in s.rows ==> out.rows == tried.rows[c.name := c.lease])
            && (!Holding(out, call) ==> out.rows == tried.rows)
  {
    OthersLeaveCall(Next(s, TryInsert(call)), call, between);
  }

  /** In a timely run a call that is done frees the name, and the next call to try gets it at once. */
  lemma {:induction false} ReleasedLockIsTaken(s: Sys, steps: seq<Step>, done: int, next: int)
    requires Init(s) && TimelyRun(s, steps)
    requires var r := Run(s, steps);
             && done in r.calls && r.calls[done].phase.Releasing?
             && next in r.calls && r.calls[next].phase.Inserting? && r.calls[next].name == r.calls[done].name
    ensures var r := Run(s, steps);
            var out := Next(Next(r, Release(done)), TryInsert(next));
            && done !in out.calls && Holding(out, next)
            && out.rows == r.rows[r.calls[next].name := r.calls[next].lease]
  {
    MutualExclusion(s, steps);
    var r := Run(s, steps);
    assert Holding(r, done);
    assert r.rows - {r.calls[done].name} == Next(r, Release(done)).rows;
  }

  /** A body runs until its call ends it, whatever the other calls do: nothing but its own steps takes it out. */
  lemma {:induction false} BodyRunsToItsEnd(s: Sys, call: int, steps: seq<Step>)
    requires call in s.calls && s.calls[call].phase.Running? && NotBy(call, steps)
    ensures var r := Run(s, steps);
            && call in r.calls && r.calls[call].phase.Running?
            && call in Next(r, FinishBody(call)).calls && Next(r, FinishBody(call)).calls[call].phase.Releasing?
  {
    OthersLeaveCall(s, call, steps);
  }

  // ---------- What lateness costs ----------

  const START := Sys(0, map[], map[])

  /** Pod A takes the lock for 10 ms and is one tick late; pod B, reading the clock in that tick, runs beside it. */
  const OVERTAKEN := [Begin(1, "job", "a:1", 10), TryInsert(1), Tick(11), Begin(2, "job", "b:1", 10), TryInsert(2),
                      TrySteal(2)]

  /** The deadline is sharp: a body that is one millisecond late can overlap the next one. */
  lemma OneTickLateOverlaps()
    ensures Holding(Run(START, OVERTAKEN), 1) && Holding(Run(START, OVERTAKEN), 2)
    ensures !Exclusive(Run(START, OVERTAKEN))
    ensures Run(START, OVERTAKEN).clock == Run(START, OVERTAKEN).calls[1].lease.expiresAt + 1
  {
    var s1 := Next(START, OVERTAKEN[0]);
    var s2 := Next(s1, OVERTAKEN[1]);
    var s3 := Next(s2, OVERTAKEN[2]);
    var s4 := Next(s3, OVERTAKEN[3]);
    var s5 := Next(s4, OVERTAKEN[4]);
    assert OVERTAKEN[..5][..4] == OVERTAKEN[..4] && OVERTAKEN[..4][..3] == OVERTAKEN[..3];
    assert OVERTAKEN[..3][..2] == OVERTAKEN[..2] && OVERTAKEN[..2][..1] == OVERTAKEN[..1];
    assert OVERTAKEN[..1][..0] == [];
    assert Run(START, OVERTAKEN[..1]) == s1 && Run(START, OVERTAKEN[..2]) == s2 && Run(START, OVERTAKEN[..3]) == s3;
    assert Run(START, OVERTAKEN[..4]) == s4 && Run(START, OVERTAKEN[..5]) == s5;
    var out := Next(s5, OVERTAKEN[5]);
    assert Run(START, OVERTAKEN) == out;
    assert Holding(out, 1) && Holding(out, 2);
  }
}
