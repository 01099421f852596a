/** The leader lease: one database row, competing controllers, and each controller's leader flag. */
module Leases {
  import opened Core

  /** The single row of the lease table, and equally one grant of the lease. */
  datatype Lease = Lease(holder: string, acquired: Time, expires: Time)

  /** One atomic acquire attempt: the row after it, and whether `id` holds the lease. */
  function Acquire(row: Option<Lease>, id: string, now: Time, span: nat): (Option<Lease>, bool) {
    var mine := Some(Lease(id, now, now + span));
    if row.None? || row.value.holder == id || now > row.value.expires then (mine, true)
    else (row, false)
  }

  class LeaseTable {
    var row: Option<Lease>

    constructor ()
      ensures row == None
    {
      row := None;
    }

    method TryAcquireLease(id: string, now: Time, span: nat) returns (acquired: bool)
      modifies this
      ensures (row, acquired) == Acquire(old(row), id, now, span)
    {
      var expiresAt := now + span;
      match row {
        case None =>
          row := Some(Lease(id, now, expiresAt));
          return true;
        case Some(existing) =>
          if existing.holder == id {
            row := Some(existing.(expires := expiresAt, acquired := now));
            return true;
          } else if now > existing.expires {
            row := Some(Lease(id, now, expiresAt));
            return true;
          } else {
            return false;
          }
      }
    }
  }

  class LeaderElection {
    const controllerId: string
    const leaseSpan: nat
    const storage: LeaseTable
    var isLeader: bool

    constructor (controllerId: string, leaseSpan: nat, storage: LeaseTable)
      ensures this.controllerId == controllerId && this.leaseSpan == leaseSpan && this.storage == storage
      ensures !isLeader
    {
      this.controllerId, this.leaseSpan, this.storage, isLeader := controllerId, leaseSpan, storage, false;
    }

    /** One attempt. A storage error changes neither the row nor the flag. */
    method TryAcquire(now: Time, storageFails: bool) returns (acquired: bool)
      modifies this`isLeader, storage
      ensures !storageFails ==>
                && (storage.row, acquired) == Acquire(old(storage.row), controllerId, now, leaseSpan)
                && isLeader == acquired
      ensures storageFails ==> storage.row == old(storage.row) && isLeader == old(isLeader) && !acquired
    {
      if storageFails {
        return false;
      }
      acquired := storage.TryAcquireLease(controllerId, now, leaseSpan);
      isLeader := acquired;
    }
  }

  // ----- granted intervals -----

  datatype Attempt = Attempt(id: string, at: Time, span: nat)

  function Row(row: Option<Lease>, run: seq<Attempt>): Option<Lease>
    decreases |run|
  {
    if run == [] then row else Row(Acquire(row, run[0].id, run[0].at, run[0].span).0, run[1..])
  }

  /** The grants a run of attempts obtains, in order. */
  function Grants(row: Option<Lease>, run: seq<Attempt>): seq<Lease>
    decreases |run|
  {
    if run == [] then []
    else
      var (row1, ok) := Acquire(row, run[0].id, run[0].at, run[0].span);
      (if ok then [row1.value] else []) + Grants(row1, run[1..])
  }

  /** The row is the last grant. */
  lemma {:induction false} RowIsLast(row: Option<Lease>, run: seq<Attempt>)
    ensures Row(row, run) == if Grants(row, run) == [] then row else Some(Grants(row, run)[|Grants(row, run)| - 1])
    decreases |run|
  {
    if run != [] {
      RowIsLast(Acquire(row, run[0].id, run[0].at, run[0].span).0, run[1..]);
    }
  }

  /** What one more attempt adds to the grants. */
  function Granted(row: Option<Lease>, a: Attempt): seq<Lease> {
    var (row1, ok) := Acquire(row, a.id, a.at, a.span);
    if ok then [row1.value] else []
  }

  lemma GrantsFirst(row: Option<Lease>, run: seq<Attempt>)
    requires run != []
    ensures Grants(row, run)
            == Granted(row, run[0]) + Grants(Acquire(row, run[0].id, run[0].at, run[0].span).0, run[1..])
  {
  }

  lemma {:induction false} GrantsSnoc(row: Option<Lease>, run: seq<Attempt>, a: Attempt)
    ensures Grants(row, run + [a]) == Grants(row, run) + Granted(Row(row, run), a)
    decreases |run|
  {
    hide Granted, Acquire, Grants;
    GrantsFirst(row, run + [a]);
    NoGrants(row);
    if run == [] {
      assert run + [a] == [a] && [a][1..] == [];
      NoGrants(Acquire(row, a.id, a.at, a.span).0);
    } else {
      assert (run + [a])[1..] == run[1..] + [a];
      GrantsFirst(row, run);
      GrantsSnoc(Acquire(row, run[0].id, run[0].at, run[0].span).0, run[1..], a);
    }
  }

  lemma NoGrants(row: Option<Lease>)
    ensures Grants(row, []) == []
  {
  }

  /** The last grant belongs to `id`, or lies behind, or there is none. */
  predicate Free(gs: seq<Lease>, id: string, now: Time) {
    gs != [] ==> gs[|gs| - 1].holder == id || gs[|gs| - 1].expires < now
  }

  /**
   * After any run of attempts from an empty table, the next one is granted, for its whole duration from
   * its own time, exactly when the last grant was the same controller's or has run out; otherwise it
   * leaves things as they were.
   */
  lemma GrantIff(run: seq<Attempt>, a: Attempt)
    ensures var gs := Grants(None, run);
            Grants(None, run + [a]) == if Free(gs, a.id, a.at) then gs + [Lease(a.id, a.at, a.at + a.span)] else gs
  {
    hide Grants, Row;
    GrantsSnoc(None, run, a);
    RowIsLast(None, run);
    assert Grants(None, run) + [] == Grants(None, run);
  }

  ghost predicate Monotone(run: seq<Attempt>) {
    forall i, j :: 0 <= i < j < |run| ==> run[i].at <= run[j].at
  }

  /** Grants to different controllers never overlap, in order of time. */
  ghost predicate Disjoint(gs: seq<Lease>) {
    forall i, j :: 0 <= i < j < |gs| && gs[i].holder != gs[j].holder ==> gs[i].expires < gs[j].acquired
  }

  /** This attempt, if it renews, does not move the expiry backwards. */
  predicate KeepsExpiry(row: Option<Lease>, a: Attempt) {
    row.Some? && row.value.holder == a.id ==> row.value.expires <= a.at + a.span
  }

  ghost predicate NeverShortens(row: Option<Lease>, run: seq<Attempt>)
    decreases |run|
  {
    run == [] ||
    (KeepsExpiry(row, run[0]) && NeverShortens(Acquire(row, run[0].id, run[0].at, run[0].span).0, run[1..]))
  }

  /** The row accounts for every grant so far: the holder's grants end by its expiry, all others ended before it. */
  ghost predicate Accounts(row: Option<Lease>, gs: seq<Lease>) {
    && (row.None? ==> gs == [])
    && (row.Some? ==>
          forall i :: 0 <= i < |gs| ==>
            if gs[i].holder == row.value.holder then gs[i].expires <= row.value.expires
            else gs[i].expires < row.value.acquired)
  }

  lemma {:induction false} GrantsFrom(row: Option<Lease>, past: seq<Lease>, run: seq<Attempt>)
    requires Monotone(run) && NeverShortens(row, run)
    requires row.Some? && run != [] ==> row.value.acquired <= run[0].at
    requires Disjoint(past) && Accounts(row, past)
    ensures Disjoint(past + Grants(row, run))
    decreases |run|
  {
    if run == [] {
      assert past + [] == past;
    } else {
      var a := run[0];
      var (row1, ok) := Acquire(row, a.id, a.at, a.span);
      var past1 := past + if ok then [row1.value] else [];
      assert past + Grants(row, run) == past1 + Grants(row1, run[1..]);
      GrantsFrom(row1, past1, run[1..]);
    }
  }

  /**
   * Under a monotone clock, over any sequence of attempts by any controllers in which no renewal
   * moves the expiry backwards, the intervals granted to different controllers never overlap.
   */
  lemma GrantsDisjoint(run: seq<Attempt>)
    requires Monotone(run) && NeverShortens(None, run)
    ensures Disjoint(Grants(None, run))
  {
    GrantsFrom(None, [], run);
    assert [] + Grants(None, run) == Grants(None, run);
  }

  ghost predicate FixedSpans(run: seq<Attempt>) {
    forall i, j :: 0 <= i < |run| && 0 <= j < |run| && run[i].id == run[j].id ==> run[i].span == run[j].span
  }

  /** The row was written by an earlier attempt with its controller's own span. */
  ghost predicate Consistent(row: Option<Lease>, run: seq<Attempt>) {
    row.Some? ==>
      forall i :: 0 <= i < |run| ==>
        && row.value.acquired <= run[i].at
        && (run[i].id == row.value.holder ==> row.value.expires == row.value.acquired + run[i].span)
  }

  lemma {:induction false} FixedSpansFrom(row: Option<Lease>, run: seq<Attempt>)
    requires Monotone(run) && FixedSpans(run) && Consistent(row, run)
    ensures NeverShortens(row, run)
    decreases |run|
  {
    if run != [] {
      FixedSpansFrom(Acquire(row, run[0].id, run[0].at, run[0].span).0, run[1..]);
    }
  }

  /** Controllers that each keep one lease duration, as configured ones do, never shorten a lease. */
  lemma FixedSpansDisjoint(run: seq<Attempt>)
    requires Monotone(run) && FixedSpans(run)
    ensures Disjoint(Grants(None, run))
  {
    FixedSpansFrom(None, run);
    GrantsDisjoint(run);
  }

  /** Every later takeover by another controller leaves the grants disjoint. */
  ghost predicate TakeoverSafe(row: Lease, gs: seq<Lease>, now: Time) {
    forall id, t, span: nat | id != row.holder && now <= t ::
      var (row1, ok) := Acquire(Some(row), id, t, span); ok ==> Disjoint(gs + [row1.value])
  }

  /**
   * With durations that may vary, a renewal keeps every later takeover from overlapping exactly when
   * it does not move the expiry backwards: that is what a caller can compare before renewing.
   */
  lemma RenewalSafeIff(row: Lease, gs: seq<Lease>, now: Time, span: nat)
    requires Disjoint(gs) && Accounts(Some(row), gs) && gs != [] && gs[|gs| - 1] == row
    requires row.acquired <= now
    ensures var renewed := Lease(row.holder, now, now + span);
            Acquire(Some(row), row.holder, now, span) == (Some(renewed), true) &&
            (TakeoverSafe(renewed, gs + [renewed], now) <==> KeepsExpiry(Some(row), Attempt(row.holder, now, span)))
  {
    var renewed := Lease(row.holder, now, now + span);
    var gs1 := gs + [renewed];
    if now + span < row.expires {
      var rival := row.holder + "'";
      var t := now + span + 1;
      var taken := Lease(rival, t, t);
      assert rival != row.holder;
      assert Acquire(Some(renewed), rival, t, 0) == (Some(taken), true);
      var gs2 := gs1 + [taken];
      assert gs2[|gs| - 1] == row && gs2[|gs| + 1] == taken;
      assert !Disjoint(gs2);
    }
  }

  /**
   * From an empty table: "a" takes the lease for 100, renews it for 5, and "b" takes over when those
   * have passed, inside the interval "a" was granted first.
   */
  lemma ShortRenewalOverlaps()
    ensures var run := [Attempt("a", 0, 100), Attempt("a", 10, 5), Attempt("b", 16, 10)];
            && Monotone(run) && !Disjoint(Grants(None, run))
            && Grants(None, run) == [Lease("a", 0, 100), Lease("a", 10, 15), Lease("b", 16, 26)]
  {
    var x, y, z := Attempt("a", 0, 100), Attempt("a", 10, 5), Attempt("b", 16, 10);
    var p, q, r := Lease("a", 0, 100), Lease("a", 10, 15), Lease("b", 16, 26);
    assert [x, y, z][1..] == [y, z] && [y, z][1..] == [z] && [z][1..] == [];
    assert Grants(Some(q), [z]) == [r];
    assert Grants(Some(p), [y, z]) == [q, r];
    var gs := [p, q, r];
    assert Grants(None, [x, y, z]) == gs;
    assert gs[0].expires >= gs[2].acquired;
  }

  // ----- the leader flags -----

  /**
   * A controller process: its configured span, its flag, the answer of an attempt whose flag write
   * is still to come, and the expiry of the last lease it was granted.
   */
  datatype Controller = Controller(span: nat, flag: bool, pending: Option<bool>, granted: Option<Time>)

  datatype System = System(now: Time, row: Option<Lease>, controllers: map<string, Controller>)

  /** Clock ticks, the database half of an attempt, a storage error, the flag write, and a process restart. */
  datatype Step =
    | Tick(span: nat)
    | Database(id: string)
    | StorageError(id: string)
    | WriteFlag(id: string)
    | Restart(id: string)

  function Next(s: System, step: Step): System {
    match step
    case Tick(span) => s.(now := s.now + span)
    case StorageError(_) => s
    case Database(id) =>
      if id in s.controllers && s.controllers[id].pending.None? then
        var c := s.controllers[id];
        var (row, ok) := Acquire(s.row, id, s.now, c.span);
        var granted := if ok then Some(s.now + c.span) else c.granted;
        s.(row := row, controllers := s.controllers[id := c.(pending := Some(ok), granted := granted)])
      else s
    case WriteFlag(id) =>
      if id in s.controllers && s.controllers[id].pending.Some? then
        var c := s.controllers[id];
        s.(controllers := s.controllers[id := c.(flag := c.pending.value, pending := None)])
      else s
    case Restart(id) =>
      if id in s.controllers then
        s.(controllers := s.controllers[id := s.controllers[id].(flag := false, pending := None)])
      else s
  }

  function Run(s: System, steps: seq<Step>): System
    decreases |steps|
  {
    if steps == [] then s else Run(Next(s, steps[0]), steps[1..])
  }

  predicate Initial(s: System) {
    s.row.None? && forall id :: id in s.controllers ==>
      !s.controllers[id].flag && s.controllers[id].pending.None? && s.controllers[id].granted.None?
  }

  predicate Flag(s: System, id: string) {
    id in s.controllers && s.controllers[id].flag
  }

  /** `id` was granted a lease that has not run out. */
  predicate Current(s: System, id: string) {
    id in s.controllers && s.controllers[id].granted.Some? && s.now <= s.controllers[id].granted.value
  }

  /** Whoever holds an unexpired grant is the row's holder, with that very expiry. */
  ghost predicate RowBacksGrants(s: System) {
    forall id :: Current(s, id) ==>
      s.row.Some? && s.row.value.holder == id && s.row.value.expires == s.controllers[id].granted.value
  }

  /** A raised flag, or a pending one, comes from a grant. */
  ghost predicate FlagsGranted(s: System) {
    forall id :: id in s.controllers && (s.controllers[id].flag || s.controllers[id].pending == Some(true)) ==>
      s.controllers[id].granted.Some?
  }

  lemma NextKeeps(s: System, step: Step)
    requires RowBacksGrants(s) && FlagsGranted(s)
    ensures RowBacksGrants(Next(s, step)) && FlagsGranted(Next(s, step))
  {
    var s1 := Next(s, step);
    forall id | Current(s1, id)
      ensures s1.row.Some? && s1.row.value.holder == id && s1.row.value.expires == s1.controllers[id].granted.value
    {
      if !(step.Database? && step.id == id) {
        assert Current(s, id);
      }
    }
  }

  lemma {:induction false} RunKeeps(s: System, steps: seq<Step>)
    requires RowBacksGrants(s) && FlagsGranted(s)
    ensures RowBacksGrants(Run(s, steps)) && FlagsGranted(Run(s, steps))
    decreases |steps|
  {
    if steps != [] {
      NextKeeps(s, steps[0]);
      RunKeeps(Next(s, steps[0]), steps[1..]);
    }
  }

  /**
   * In every run, including delayed flag writes, storage errors and restarts, two raised flags
   * never both belong to unexpired leases.
   */
  lemma OneCurrentLeader(s: System, steps: seq<Step>, c: string, d: string)
    requires Initial(s)
    requires var e := Run(s, steps); Flag(e, c) && Flag(e, d) && Current(e, c) && Current(e, d)
    ensures c == d
  {
    RunKeeps(s, steps);
  }

  /** Every controller with a raised flag has renewed in time. */
  ghost predicate Timely(s: System) {
    forall id :: Flag(s, id) ==> Current(s, id)
  }

  /** While every flagged controller retries before its lease runs out, at most one flag is raised. */
  lemma UniqueLeader(s: System, steps: seq<Step>)
    requires Initial(s) && Timely(Run(s, steps))
    ensures forall c, d :: Flag(Run(s, steps), c) && Flag(Run(s, steps), d) ==> c == d
  {
    RunKeeps(s, steps);
  }

  /** The flag of `id` is raised, or about to be. */
  predicate Raised(s: System, id: string) {
    id in s.controllers && (s.controllers[id].flag || s.controllers[id].pending == Some(true))
  }

  /** The clock does not pass the end of a leader's lease: its renewal timer comes first. */
  ghost predicate InTime(s: System, step: Step) {
    step.Tick? ==> forall id :: Raised(s, id) && s.controllers[id].granted.Some? ==>
      s.now + step.span <= s.controllers[id].granted.value
  }

  ghost predicate AllInTime(s: System, steps: seq<Step>)
    decreases |steps|
  {
    steps == [] || (InTime(s, steps[0]) && AllInTime(Next(s, steps[0]), steps[1..]))
  }

  lemma {:induction false} InTimeFrom(s: System, steps: seq<Step>)
    requires AllInTime(s, steps) && forall id :: Raised(s, id) ==> Current(s, id)
    ensures Timely(Run(s, steps))
    decreases |steps|
  {
    if steps != [] {
      var s1 := Next(s, steps[0]);
      forall id | Raised(s1, id) ensures Current(s1, id) {
        assert Raised(s, id) ==> Current(s, id);
      }
      InTimeFrom(s1, steps[1..]);
    }
  }

  /**
   * In every run in which each leader's next attempt comes before its lease runs out, at most one flag
   * is raised, whatever attempts, delayed flag writes, failed attempts and restarts lie between.
   */
  lemma UniqueLeaderInTime(s: System, steps: seq<Step>)
    requires Initial(s) && AllInTime(s, steps)
    ensures forall c, d :: Flag(Run(s, steps), c) && Flag(Run(s, steps), d) ==> c == d
  {
    InTimeFrom(s, steps);
    UniqueLeader(s, steps);
  }

  /** `id`'s next attempt would find the row its own, lapsed, or absent. */
  predicate RowFreeFor(s: System, id: string) {
    s.row.None? || s.row.value.holder == id || s.now > s.row.value.expires
  }

  /**
   * The exact way uniqueness is lost: beside a raised flag of `c`, an attempt by an idle `d` raises
   * a second one exactly when the row is free for `d`, and then `c`'s lease has run out.
   */
  lemma SecondLeaderIff(s: System, steps: seq<Step>, c: string, d: string)
    requires Initial(s) && c != d
    requires var e := Run(s, steps); Flag(e, c) && d in e.controllers && e.controllers[d].pending.None?
    ensures var e := Run(s, steps);
            var e1 := Next(Next(e, Database(d)), WriteFlag(d));
            && (Flag(e1, c) && Flag(e1, d) <==> RowFreeFor(e, d))
            && (RowFreeFor(e, d) ==> !Current(e, c))
  {
    RunKeeps(s, steps);
  }

  /** A controller that restarts is no leader again before an attempt of its own, whatever all others do. */
  lemma RestartedWaits(s: System, id: string, steps: seq<Step>)
    requires forall k :: 0 <= k < |steps| ==> steps[k] != Database(id)
    ensures !Flag(Run(Next(s, Restart(id)), steps), id)
  {
    LoweredStays(Next(s, Restart(id)), id, steps);
  }

  lemma {:induction false} LoweredStays(s: System, id: string, steps: seq<Step>)
    requires !Raised(s, id) && forall k :: 0 <= k < |steps| ==> steps[k] != Database(id)
    ensures !Raised(Run(s, steps), id)
    decreases |steps|
  {
    if steps != [] {
      LoweredNext(s, id, steps[0]);
      hide Next, Raised;
      LoweredStays(Next(s, steps[0]), id, steps[1..]);
    }
  }

  lemma LoweredNext(s: System, id: string, step: Step)
    requires !Raised(s, id) && step != Database(id)
    ensures !Raised(Next(s, step), id)
  {
  }

  lemma RunFrom(s: System, steps: seq<Step>, k: nat)
    requires k < |steps|
    ensures Run(s, steps[k..]) == Run(Next(s, steps[k]), steps[k + 1..])
  {
    assert steps[k..][1..] == steps[k + 1..];
  }

  lemma RunSix(s: System, t: seq<Step>)
    requires |t| == 6
    ensures Run(s, t) == Next(Next(Next(Next(Next(Next(s, t[0]), t[1]), t[2]), t[3]), t[4]), t[5])
  {
    hide Next;
    var s2 := Next(Next(s, t[0]), t[1]);
    var s4 := Next(Next(s2, t[2]), t[3]);
    assert t[0..] == t && t[6..] == [];
    RunFrom(s, t, 0);
    RunFrom(Next(s, t[0]), t, 1);
    RunFrom(s2, t, 2);
    RunFrom(Next(s2, t[2]), t, 3);
    RunFrom(s4, t, 4);
    RunFrom(Next(s4, t[4]), t, 5);
  }

  /** Storage errors during one lease duration suffice: the first leader keeps its flag beside the second. */
  lemma StorageErrorsGiveTwoLeaders(s: System)
    requires s == System(0, None,
             map["a" := Controller(10, false, None, None), "b" := Controller(10, false, None, None)])
    ensures exists steps :: Initial(s) && Flag(Run(s, steps), "a") && Flag(Run(s, steps), "b")
  {
    var steps := [Database("a"), WriteFlag("a"), StorageError("a"), Tick(11), Database("b"), WriteFlag("b")];
    var s2 := Next(Next(s, steps[0]), steps[1]);
    assert s2.row == Some(Lease("a", 0, 10)) && Flag(s2, "a");
    var s4 := Next(Next(s2, steps[2]), steps[3]);
    var s6 := Next(Next(s4, steps[4]), steps[5]);
    assert Flag(s6, "a") && Flag(s6, "b");
    RunSix(s, steps);
  }
}
