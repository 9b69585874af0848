/** Applying a prepared write plan in one transaction, over a store that records every change it makes. */
module PlanExecution {
  import opened Base
  import opened Ordering
  import opened Text
  import opened WritePlan
  import opened WritePlanLaws

  type Identity = (Target, string)

  type Rows = map<Identity, Fields>

  /** One immutable history event: a row that was created, or replaced by something different. */
  datatype Change = Change(id: Identity, previous: Option<Fields>, current: Fields)

  datatype State = State(rows: Rows, history: seq<Change>)

  function IdentityOf(op: Prepared): Identity {
    (op.target, op.targetKey)
  }

  /** The history events an upsert appends: one if it changes anything. */
  function ChangesBy(rows: Rows, op: Prepared): seq<Change> {
    var previous := if IdentityOf(op) in rows then Some(rows[IdentityOf(op)]) else None;
    if previous == Some(op.model) then [] else [Change(IdentityOf(op), previous, op.model)]
  }

  function Upserted(s: State, op: Prepared): State {
    State(s.rows[IdentityOf(op) := op.model], s.history + ChangesBy(s.rows, op))
  }

  function UpsertedAll(s: State, ops: seq<Prepared>): State {
    if ops == [] then s else Upserted(UpsertedAll(s, ops[..|ops| - 1]), ops[|ops| - 1])
  }

  lemma UpsertedNext(s: State, ops: seq<Prepared>, k: nat)
    requires k < |ops|
    ensures UpsertedAll(s, ops[..k + 1]) == Upserted(UpsertedAll(s, ops[..k]), ops[k])
  {
    assert ops[..k + 1][..k] == ops[..k];
  }

  datatype Applied = Applied(operationId: string, sourceIndex: nat, target: Target, targetKey: string)

  function AppliedFrom(op: Prepared): Applied {
    Applied(op.operationId, op.sourceIndex, op.target, op.targetKey)
  }

  function AppliedAll(ops: seq<Prepared>): seq<Applied> {
    seq(|ops|, i requires 0 <= i < |ops| => AppliedFrom(ops[i]))
  }

  datatype ExecuteError = Refused(reason: PrepareError) | RolledBack(operation: string)

  class Database {
    var state: State

    constructor (initial: State)
      ensures state == initial
    {
      state := initial;
    }
  }

  /** A unit of work: nothing reaches the database before the commit. */
  class Session {
    const database: Database
    var pending: State

    constructor (database: Database)
      ensures this.database == database && pending == database.state
    {
      this.database := database;
      pending := database.state;
    }

    method Upsert(op: Prepared, works: bool) returns (ok: bool)
      modifies this
      ensures ok == works
      ensures pending == if ok then Upserted(old(pending), op) else old(pending)
    {
      ok := works;
      if ok {
        var id := IdentityOf(op);
        if !(id in pending.rows && pending.rows[id] == op.model) {
          var previous := if id in pending.rows then Some(pending.rows[id]) else None;
          pending := pending.(history := pending.history + [Change(id, previous, op.model)]);
        } else {
          assert pending.history + [] == pending.history;
        }
        pending := pending.(rows := pending.rows[id := op.model]);
      }
    }

    method Commit(works: bool) returns (ok: bool)
      modifies database
      ensures ok == works
      ensures database.state == if ok then pending else old(database.state)
    {
      ok := works;
      if ok { database.state := pending; }
    }

    method Rollback()
      modifies this
      ensures pending == database.state
    {
      pending := database.state;
    }
  }

  /** The outside world's say: whether the k-th upsert goes through, and whether the commit does. */
  datatype Outcomes = Outcomes(upsert: nat -> bool, commit: bool)

  ghost predicate AllWork(outcomes: Outcomes, ops: seq<Prepared>) {
    (forall k: nat :: k < |ops| ==> outcomes.upsert(k)) && outcomes.commit
  }

  /** The operation an aborted transaction reports: the first to fail, or the last when the commit fails. */
  ghost predicate FailsAt(outcomes: Outcomes, ops: seq<Prepared>, operation: string) {
    || (exists k: nat :: k < |ops| && !outcomes.upsert(k) && operation == ops[k].operationId
                         && forall j: nat :: j < k ==> outcomes.upsert(j))
    || (&& (forall j: nat :: j < |ops| ==> outcomes.upsert(j)) && !outcomes.commit
        && operation == if ops == [] then "none" else ops[|ops| - 1].operationId)
  }

  /** Validate and atomically apply one complete write plan: all of it, or nothing. */
  method ExecuteWritePlan(db: Database, reader: Reader, plan: RawPlan, outcomes: Outcomes)
    returns (r: Result<seq<Applied>, ExecuteError>)
    modifies db
    ensures r.Ok? <==> Prepare(reader, plan).Ok? && AllWork(outcomes, Prepare(reader, plan).value)
    ensures r.Ok? ==>
      && db.state == UpsertedAll(old(db.state), Prepare(reader, plan).value)
      && r.value == AppliedAll(Prepare(reader, plan).value)
    ensures r.Err? ==> db.state == old(db.state)
    ensures r.Err? && r.error.Refused? ==> Prepare(reader, plan) == Err(r.error.reason)
    ensures r.Err? && r.error.RolledBack? ==>
      Prepare(reader, plan).Ok? && FailsAt(outcomes, Prepare(reader, plan).value, r.error.operation)
  {
    var prepared := PrepareOperations(reader, plan);
    if prepared.Err? { return Err(Refused(prepared.error)); }
    r := ApplyTransaction(db, prepared.value, outcomes);
  }

  lemma AppliedNext(ops: seq<Prepared>, k: nat)
    requires k < |ops|
    ensures AppliedAll(ops[..k + 1]) == AppliedAll(ops[..k]) + [AppliedFrom(ops[k])]
  {
    assert ops[..k + 1] == ops[..k] + [ops[k]];
  }

  /** The upserts of one transaction, up to the first that fails. */
  method UpsertEach(session: Session, ops: seq<Prepared>, outcomes: Outcomes)
    returns (ok: bool, current: string, applied: seq<Applied>)
    modifies session
    ensures ok <==> forall k: nat :: k < |ops| ==> outcomes.upsert(k)
    ensures ok ==> session.pending == UpsertedAll(old(session.pending), ops) && applied == AppliedAll(ops)
    ensures ok ==> current == if ops == [] then "none" else ops[|ops| - 1].operationId
    ensures !ok ==> FailsAt(outcomes, ops, current)
  {
    applied, current := [], "none";
    for k := 0 to |ops|
      invariant session.pending == UpsertedAll(old(session.pending), ops[..k])
      invariant applied == AppliedAll(ops[..k])
      invariant forall j: nat :: j < k ==> outcomes.upsert(j)
      invariant current == if k == 0 then "none" else ops[k - 1].operationId
    {
      current := ops[k].operationId;
      UpsertedNext(old(session.pending), ops, k);
      AppliedNext(ops, k);
      ok := session.Upsert(ops[k], outcomes.upsert(k));
      if !ok {
        return;
      }
      applied := applied + [AppliedFrom(ops[k])];
    }
    assert ops[..|ops|] == ops;
    ok := true;
  }

  method ApplyTransaction(db: Database, ops: seq<Prepared>, outcomes: Outcomes)
    returns (r: Result<seq<Applied>, ExecuteError>)
    modifies db
    ensures r.Ok? <==> AllWork(outcomes, ops)
    ensures r.Ok? ==> db.state == UpsertedAll(old(db.state), ops) && r.value == AppliedAll(ops)
    ensures r.Err? ==>
      db.state == old(db.state) && r.error.RolledBack? && FailsAt(outcomes, ops, r.error.operation)
  {
    var session := new Session(db);
    var ok, current, applied := UpsertEach(session, ops, outcomes);
    if ok {
      ok := session.Commit(outcomes.commit);
    } else {
      session.Rollback();
    }
    r := if ok then Ok(applied) else Err(RolledBack(current));
  }

  // ---------- What an applied plan leaves behind ----------

  ghost function Identities(ops: seq<Prepared>): set<Identity> {
    set op | op in ops :: IdentityOf(op)
  }

  /** The rows are the old ones overridden by the plan's models, and by nothing else. */
  ghost predicate Overrides(before: Rows, ops: seq<Prepared>, after: Rows) {
    && after.Keys == before.Keys + Identities(ops)
    && (forall op :: op in ops ==> after[IdentityOf(op)] == op.model)
    && forall id :: id in before && id !in Identities(ops) ==> after[id] == before[id]
  }

  lemma CanonicalPrefix(ops: seq<Prepared>)
    requires ops != [] && Canonical(ops)
    ensures Canonical(ops[..|ops| - 1])
    ensures IdentityOf(ops[|ops| - 1]) !in Identities(ops[..|ops| - 1])
    ensures Identities(ops) == Identities(ops[..|ops| - 1]) + {IdentityOf(ops[|ops| - 1])}
  {
    var n := |ops| - 1;
    assert ops == ops[..n] + [ops[n]];
    assert forall i :: 0 <= i < n ==> ops[..n][i] == ops[i];
    forall op | op in ops[..n]
      ensures IdentityOf(op) != IdentityOf(ops[n])
    {
      var i :| 0 <= i < n && ops[i] == op;
    }
  }

  lemma OverrideByOne(before: Rows, front: seq<Prepared>, op: Prepared, mid: Rows)
    requires Overrides(before, front, mid) && IdentityOf(op) !in Identities(front)
    ensures Overrides(before, front + [op], mid[IdentityOf(op) := op.model])
  {
    var after, ops := mid[IdentityOf(op) := op.model], front + [op];
    forall o | o in ops
      ensures after[IdentityOf(o)] == o.model
    {
      if o in front { assert IdentityOf(o) in Identities(front); }
    }
    assert Identities(ops) == Identities(front) + {IdentityOf(op)};
  }

  lemma UpsertedLast(s: State, ops: seq<Prepared>)
    requires ops != []
    ensures var front, last := UpsertedAll(s, ops[..|ops| - 1]), ops[|ops| - 1];
      && UpsertedAll(s, ops).rows == front.rows[IdentityOf(last) := last.model]
      && UpsertedAll(s, ops).history == front.history + ChangesBy(front.rows, last)
  {
  }

  lemma OverrideLast(before: Rows, ops: seq<Prepared>, mid: Rows)
    requires ops != [] && Canonical(ops) && Overrides(before, ops[..|ops| - 1], mid)
    ensures Overrides(before, ops, mid[IdentityOf(ops[|ops| - 1]) := ops[|ops| - 1].model])
  {
    CanonicalPrefix(ops);
    OverrideByOne(before, ops[..|ops| - 1], ops[|ops| - 1], mid);
    assert ops == ops[..|ops| - 1] + [ops[|ops| - 1]];
  }

  lemma OverrideNothing(rows: Rows)
    ensures Overrides(rows, [], rows)
  {
    assert Identities([]) == {};
  }

  lemma {:induction false} AppliedPlanOverrides(s: State, ops: seq<Prepared>)
    requires Canonical(ops)
    ensures Overrides(s.rows, ops, UpsertedAll(s, ops).rows)
  {
    if ops == [] {
      OverrideNothing(s.rows);
    } else {
      CanonicalPrefix(ops);
      AppliedPlanOverrides(s, ops[..|ops| - 1]);
      OverrideLast(s.rows, ops, UpsertedAll(s, ops[..|ops| - 1]).rows);
      UpsertedLast(s, ops);
    }
  }

  lemma OverridingIsDetermined(before: Rows, a: seq<Prepared>, b: seq<Prepared>, x: Rows, y: Rows)
    requires Overrides(before, a, x) && Overrides(before, b, y)
    requires forall op :: op in a <==> op in b
    ensures x == y
  {
    assert Identities(a) == Identities(b);
    forall id | id in x.Keys
      ensures x[id] == y[id]
    {
      if id in Identities(a) {
        var op :| op in a && IdentityOf(op) == id;
      }
    }
  }

  type Changer = Prepared -> seq<Change>

  ghost function ChangerFor(rows: Rows): Changer {
    op => ChangesBy(rows, op)
  }

  /** All history events of a plan, each judged against the same rows. */
  ghost function ChangesByAll(change: Changer, ops: seq<Prepared>): seq<Change> {
    if ops == [] then [] else ChangesByAll(change, ops[..|ops| - 1]) + change(ops[|ops| - 1])
  }

  /** An operation whose row was not overridden changes what it would have changed before. */
  lemma ChangesAsBefore(before: Rows, front: seq<Prepared>, mid: Rows, op: Prepared)
    requires Overrides(before, front, mid) && IdentityOf(op) !in Identities(front)
    ensures ChangesBy(mid, op) == ChangesBy(before, op)
  {
  }

  lemma AppendChanges(history: seq<Change>, front: seq<Change>, last: seq<Change>)
    ensures history + front + last == history + (front + last)
  {
  }

  /** No operation of an accepted plan sees another's effect. */
  lemma {:induction false} HistoryOfPlan(s: State, ops: seq<Prepared>)
    requires Canonical(ops)
    ensures UpsertedAll(s, ops).history == s.history + ChangesByAll(ChangerFor(s.rows), ops)
  {
    if ops == [] {
      assert s.history + [] == s.history;
    } else {
      var front, last := ops[..|ops| - 1], ops[|ops| - 1];
      CanonicalPrefix(ops);
      HistoryOfPlan(s, front);
      UpsertedLast(s, ops);
      AppliedPlanOverrides(s, front);
      ChangesAsBefore(s.rows, front, UpsertedAll(s, front).rows, last);
      AppendChanges(s.history, ChangesByAll(ChangerFor(s.rows), front), ChangesBy(s.rows, last));
    }
  }

  ghost function Occurs(change: Changer, c: Change): Prepared -> nat {
    op => multiset(change(op))[c]
  }

  lemma {:induction false} ChangesCounted(change: Changer, ops: seq<Prepared>, c: Change)
    ensures multiset(ChangesByAll(change, ops))[c] == SumBy(Occurs(change, c), ops)
  {
    if ops != [] {
      var n := |ops| - 1;
      ChangesCounted(change, ops[..n], c);
      SumMoved(Occurs(change, c), ops[..n], ops[n], []);
      assert ops == ops[..n] + [ops[n]] + [] && ops[..n] + [] == ops[..n];
    }
  }

  /** The order of an accepted plan's operations does not matter: the same rows result, and the same
      history events in some order. */
  lemma ApplyingIgnoresOrder(s: State, a: seq<Prepared>, b: seq<Prepared>)
    requires Canonical(a) && Canonical(b) && multiset(a) == multiset(b)
    ensures UpsertedAll(s, a).rows == UpsertedAll(s, b).rows
    ensures multiset(UpsertedAll(s, a).history) == multiset(UpsertedAll(s, b).history)
  {
    AppliedPlanOverrides(s, a);
    AppliedPlanOverrides(s, b);
    forall op
      ensures op in a <==> op in b
    {
      assert op in a <==> op in multiset(a);
      assert op in b <==> op in multiset(b);
    }
    OverridingIsDetermined(s.rows, a, b, UpsertedAll(s, a).rows, UpsertedAll(s, b).rows);
    HistoryOfPlan(s, a);
    HistoryOfPlan(s, b);
    var change := ChangerFor(s.rows);
    forall c
      ensures multiset(ChangesByAll(change, a))[c] == multiset(ChangesByAll(change, b))[c]
    {
      ChangesCounted(change, a, c);
      ChangesCounted(change, b, c);
      SumIgnoresOrder(Occurs(change, c), a, b);
    }
  }

  lemma {:induction false} NothingLeftToChange(s: State, ops: seq<Prepared>)
    requires forall op :: op in ops ==> IdentityOf(op) in s.rows && s.rows[IdentityOf(op)] == op.model
    ensures UpsertedAll(s, ops) == s
  {
    if ops != [] {
      var n := |ops| - 1;
      NothingLeftToChange(s, ops[..n]);
      assert s.rows[IdentityOf(ops[n]) := ops[n].model] == s.rows;
      assert s.history + [] == s.history;
    }
  }

  /** Applying an accepted plan again changes nothing, not even the history. */
  lemma ApplyingTwiceIsOnce(s: State, reader: Reader, plan: RawPlan)
    requires Prepare(reader, plan).Ok?
    ensures var ops := Prepare(reader, plan).value;
      UpsertedAll(UpsertedAll(s, ops), ops) == UpsertedAll(s, ops)
  {
    PreparedIsCanonical(reader, plan);
    AppliedPlanOverrides(s, Prepare(reader, plan).value);
    var ops := Prepare(reader, plan).value;
    forall op | op in ops
      ensures IdentityOf(op) in UpsertedAll(s, ops).rows
    {
      assert IdentityOf(op) in Identities(ops);
    }
    NothingLeftToChange(UpsertedAll(s, ops), ops);
  }
}
