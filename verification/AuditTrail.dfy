/** The audit log alone determines which secrets live, at which version and in which state. */
module AuditTrail {
  import opened Basics
  import opened Core
  import opened Crypto
  import opened Custody
  import opened PlainStore
  import opened CustodyRefinement
  import opened Rotation
  import opened CustodyRuns

  // ---- Replaying the log ----

  datatype Life = Unborn | Live(version: int, revoked: bool) | Dead

  function Lived(life: Life, action: Action): Life {
    match action
    case PutAction =>
      (match life
       case Unborn => Live(1, false)
       case Live(v, _) => Live(v + 1, false)
       case Dead => Dead)
    case RevokeAction => if life.Live? then Live(life.version, true) else life
    case DeleteAction => Dead
    case _ => life
  }

  function Replay(audit: seq<AuditRow>, id: Uuid): Life {
    if audit == [] then Unborn
    else
      var before := Replay(audit[..|audit| - 1], id);
      var row := audit[|audit| - 1];
      if row.id == Some(id) then Lived(before, row.action) else before
  }

  lemma ReplayAppended(audit: seq<AuditRow>, row: AuditRow, id: Uuid)
    ensures Replay(audit + [row], id) == if row.id == Some(id) then Lived(Replay(audit, id), row.action) else Replay(audit, id)
  {
    assert (audit + [row])[..|audit|] == audit;
  }

  lemma {:induction false} NeverSeen(audit: seq<AuditRow>, id: Uuid)
    requires id !in AuditIds(audit)
    ensures Replay(audit, id) == Unborn
  {
    if audit != [] {
      var front := audit[..|audit| - 1];
      forall u | u in AuditIds(front)
        ensures u in AuditIds(audit)
      {
        var i :| 0 <= i < |front| && front[i].id == Some(u);
        assert audit[i].id == Some(u);
      }
      assert audit[|audit| - 1].id == Some(id) ==> id in AuditIds(audit);
      NeverSeen(front, id);
    }
  }

  // ---- The log's own counts ----

  function Puts(audit: seq<AuditRow>, id: Uuid): nat {
    if audit == [] then 0
    else
      var row := audit[|audit| - 1];
      Puts(audit[..|audit| - 1], id) + if row.id == Some(id) && row.action == PutAction then 1 else 0
  }

  predicate Deleted(audit: seq<AuditRow>, id: Uuid) {
    exists i :: 0 <= i < |audit| && audit[i].id == Some(id) && audit[i].action == DeleteAction
  }

  /** Whether the last put-or-revoke row of the id is a revoke. */
  predicate LastMarkRevokes(audit: seq<AuditRow>, id: Uuid) {
    if audit == [] then false
    else
      var row := audit[|audit| - 1];
      if row.id == Some(id) && row.action == RevokeAction then true
      else if row.id == Some(id) && row.action == PutAction then false
      else LastMarkRevokes(audit[..|audit| - 1], id)
  }

  /** A replayed life is what the rows count. */
  lemma {:induction false} ReplayCounts(audit: seq<AuditRow>, id: Uuid)
    ensures Replay(audit, id).Live? <==> Puts(audit, id) > 0 && !Deleted(audit, id)
    ensures Replay(audit, id).Live? ==> Replay(audit, id) == Live(Puts(audit, id), LastMarkRevokes(audit, id))
    ensures Replay(audit, id).Unborn? ==> Puts(audit, id) == 0 && !Deleted(audit, id)
    ensures Replay(audit, id).Dead? ==> Deleted(audit, id)
  {
    if audit != [] {
      var front := audit[..|audit| - 1];
      ReplayCounts(front, id);
      assert Deleted(audit, id) <==>
             Deleted(front, id) || (audit[|audit| - 1].id == Some(id) && audit[|audit| - 1].action == DeleteAction) by {
        if Deleted(front, id) {
          var i :| 0 <= i < |front| && front[i].id == Some(id) && front[i].action == DeleteAction;
          assert audit[i].id == Some(id) && audit[i].action == DeleteAction;
        }
        if Deleted(audit, id) {
          var i :| 0 <= i < |audit| && audit[i].id == Some(id) && audit[i].action == DeleteAction;
          assert i < |front| ==> front[i] == audit[i];
        }
      }
    }
  }

  // ---- What every reachable state keeps ----

  predicate DistinctIds(secrets: map<SecretRef, SecretRow>) {
    forall r, r' | r in secrets && r' in secrets && secrets[r].id == secrets[r'].id :: r == r'
  }

  predicate RowsTraced(secrets: map<SecretRef, SecretRow>, audit: seq<AuditRow>) {
    forall r | r in secrets :: Replay(audit, secrets[r].id) == Live(secrets[r].current, secrets[r].state == Revoked)
  }

  ghost predicate LivesTraced(secrets: map<SecretRef, SecretRow>, audit: seq<AuditRow>) {
    forall id: Uuid | Replay(audit, id).Live? :: exists r :: r in secrets && secrets[r].id == id
  }

  ghost predicate Traced(db: Db) {
    DistinctIds(db.secrets) && RowsTraced(db.secrets, db.audit) && LivesTraced(db.secrets, db.audit)
  }

  /** One row written under its id, with the log row that records it. */
  lemma WrittenTraced(db: Db, r: SecretRef, row: SecretRow, entry: AuditRow)
    requires Traced(db) && entry.id == Some(row.id)
    requires if r in db.secrets then row.id == db.secrets[r].id else row.id !in db.Ids()
    requires Lived(Replay(db.audit, row.id), entry.action) == Live(row.current, row.state == Revoked)
    ensures Traced(Db(db.secrets[r := row], db.batches, db.audit + [entry]))
  {
    var secrets, audit := db.secrets[r := row], db.audit + [entry];
    forall q | q in db.secrets && q != r
      ensures db.secrets[q].id != row.id
    {
      assert db.secrets[q].id in db.Ids();
    }
    forall q | q in secrets
      ensures Replay(audit, secrets[q].id) == Live(secrets[q].current, secrets[q].state == Revoked)
    {
      ReplayAppended(db.audit, entry, secrets[q].id);
    }
    hide Replay, Lived;
    forall id: Uuid | Replay(audit, id).Live?
      ensures exists q :: q in secrets && secrets[q].id == id
    {
      ReplayAppended(db.audit, entry, id);
      if id == row.id {
        assert secrets[r].id == id;
      } else {
        var q :| q in db.secrets && db.secrets[q].id == id;
        assert secrets[q].id == id;
      }
    }
  }

  lemma DeletedTraced(db: Db, r: SecretRef, entry: AuditRow)
    requires Traced(db) && r in db.secrets && entry.id == Some(db.secrets[r].id) && entry.action == DeleteAction
    ensures Traced(Db(db.secrets - {r}, db.batches, db.audit + [entry]))
  {
    var secrets, audit := db.secrets - {r}, db.audit + [entry];
    forall q | q in secrets
      ensures Replay(audit, secrets[q].id) == Live(secrets[q].current, secrets[q].state == Revoked)
    {
      ReplayAppended(db.audit, entry, secrets[q].id);
    }
    hide Replay;
    forall id: Uuid | Replay(audit, id).Live?
      ensures exists q :: q in secrets && secrets[q].id == id
    {
      ReplayAppended(db.audit, entry, id);
      var q :| q in db.secrets && db.secrets[q].id == id;
      assert secrets[q].id == id;
    }
  }

  lemma PutTraced(db: Db, ring: Keyring, input: PutSecret, actor: string, seed: Seed)
    requires Traced(db) && PutTx(db, ring, input, actor, seed).Ok?
    requires seed.draw.Draw? ==> seed.id !in Known(db)
    ensures Traced(PutTx(db, ring, input, actor, seed).value)
  {
    var r, after := input.reference, PutTx(db, ring, input, actor, seed).value;
    var row := after.secrets[r];
    var entry := AuditRow(r.tenant, Some(row.id), actor, PutAction);
    assert after == Db(db.secrets[r := row], db.batches, db.audit + [entry]);
    if r !in db.secrets {
      NeverSeen(db.audit, row.id);
    }
    assert Lived(Replay(db.audit, row.id), PutAction) == Live(row.current, false);
    hide Traced, PutTx, Replay;
    WrittenTraced(db, r, row, entry);
  }

  lemma DeleteTraced(db: Db, r: SecretRef, actor: string)
    requires Traced(db) && DeleteTx(db, r, actor).Ok?
    ensures Traced(DeleteTx(db, r, actor).value)
  {
    hide Traced, Replay;
    DeletedTraced(db, r, AuditRow(r.tenant, Some(db.secrets[r].id), actor, DeleteAction));
  }

  lemma RevokeTraced(db: Db, r: SecretRef, actor: string)
    requires Traced(db) && RevokeTx(db, r, actor).Ok?
    ensures Traced(RevokeTx(db, r, actor).value)
  {
    assert Lived(Replay(db.audit, db.secrets[r].id), RevokeAction) == Live(db.secrets[r].current, true);
    hide Traced, Replay;
    WrittenTraced(db, r, db.secrets[r].(state := Revoked), AuditRow(r.tenant, Some(db.secrets[r].id), actor, RevokeAction));
  }

  lemma {:induction false} ApplyTraced(db: Db, ring: Keyring, ms: seq<Mutation>, actor: string, supply: seq<Seed>, n: nat)
    requires n <= |ms| && Traced(db) && FreshSupply(db, supply) && Apply(db, ring, ms, actor, supply, n).Ok?
    ensures Traced(Apply(db, ring, ms, actor, supply, n).value)
  {
    hide Traced, PutTx, DeleteTx, FreshSupply, Known;
    if n > 0 {
      ApplyTraced(db, ring, ms, actor, supply, n - 1);
      NextSeedFresh(db, ring, ms, actor, supply, n - 1);
      var before := Apply(db, ring, ms, actor, supply, n - 1).value;
      match ms[n - 1]
      case Put(secret) => PutTraced(before, ring, secret, actor, At(supply, n - 1));
      case Delete(r) => DeleteTraced(before, r, actor);
    }
  }

  /** Log rows that name no put, revoke or delete change no life. */
  ghost predicate SameLives(a: seq<AuditRow>, b: seq<AuditRow>) {
    forall id: Uuid :: Replay(a, id) == Replay(b, id)
  }

  lemma IdleRowKeepsLives(audit: seq<AuditRow>, entry: AuditRow)
    requires entry.id == None || entry.action == RewrapAction
    ensures SameLives(audit, audit + [entry])
  {
    forall id: Uuid
      ensures Replay(audit, id) == Replay(audit + [entry], id)
    {
      ReplayAppended(audit, entry, id);
    }
  }

  lemma {:induction false} RewrapKeepsLives(db: Db, ring: Keyring, order: seq<StoredVersion>, draws: seq<Draw>, actor: string, n: nat)
    requires n <= |order| && (forall i :: 0 <= i < |order| ==> IsStored(db, order[i]))
    requires RewrapRows(db, ring, order, draws, actor, n).Ok?
    ensures SameLives(db.audit, RewrapRows(db, ring, order, draws, actor, n).value.audit)
  {
    hide Replay, RewrapOne, SetVersion;
    if n > 0 {
      RewrapKeepsLives(db, ring, order, draws, actor, n - 1);
      assert IsStored(db, order[n - 1]);
      IdleRowKeepsLives(RewrapRows(db, ring, order, draws, actor, n - 1).value.audit,
                        AuditRow(order[n - 1].reference.tenant, Some(db.secrets[order[n - 1].reference].id), actor, RewrapAction));
    }
  }

  lemma SameRowsTraced(db: Db, after: Db)
    requires Traced(db) && SameLives(db.audit, after.audit) && after.secrets.Keys == db.secrets.Keys
    requires forall r | r in db.secrets ::
               && after.secrets[r].id == db.secrets[r].id && after.secrets[r].current == db.secrets[r].current
               && after.secrets[r].state == db.secrets[r].state
    ensures Traced(after)
  {
    hide Replay;
    forall id: Uuid | Replay(after.audit, id).Live?
      ensures exists r :: r in after.secrets && after.secrets[r].id == id
    {
      assert Replay(db.audit, id).Live?;
      var r :| r in db.secrets && db.secrets[r].id == id;
      assert after.secrets[r].id == id;
    }
  }

  lemma RewrapTraced(universe: map<string, string>, db: Db, step: Step)
    requires step.RewrapStep? && Traced(db) && Agrees(step.ring.keys, universe)
    ensures Traced(Next(db, step).0)
  {
    var (after, outcome) := Next(db, step);
    hide Traced, AllUnder, Stale, Replay;
    if outcome.Rewrapped? {
      StaleIsStored(db, step.ring.active, step.order);
      RotationMovesEverything(universe, db, step.ring, step.order, step.draws, step.actor);
      RewrapKeepsLives(db, step.ring, step.order, step.draws, step.actor, |step.order|);
      hide RewrapRows;
      forall r | r in db.secrets
        ensures && after.secrets[r].id == db.secrets[r].id && after.secrets[r].current == db.secrets[r].current
                && after.secrets[r].state == db.secrets[r].state
      {
        assert RowCarried(ReaderOf(universe), step.ring.active, r, db.secrets[r], after.secrets[r]);
      }
      hide AllCarried;
      SameRowsTraced(db, after);
    }
  }

  lemma CommitTraced(db: Db, ring: Keyring, k: BatchKey, at: real, supply: seq<Seed>)
    requires Traced(db) && FreshSupply(db, supply)
    ensures Traced(CommitTx(db, ring, k, at, supply).0)
  {
    var (after, result) := CommitTx(db, ring, k, at, supply);
    hide Apply, Replay;
    if result.Ok? {
      var row := db.batches[k];
      var ms := OpenBatch(ring.keys, k.tenant, k.id, row.actor, row.envelope).value.mutations;
      var taken := Db(db.secrets, db.batches - {k}, db.audit);
      assert FreshSupply(taken, supply);
      ApplyTraced(taken, ring, ms, row.actor, supply, |ms|);
      hide OpenBatch;
      var applied := Apply(taken, ring, ms, row.actor, supply, |ms|).value;
      IdleRowKeepsLives(applied.audit, AuditRow(k.tenant, None, row.actor, CommitAction));
      SameRowsTraced(applied, after);
    }
  }

  lemma StepTraced(universe: map<string, string>, db: Db, step: Step)
    requires Traced(db) && Supported(universe, db, step)
    ensures Traced(Next(db, step).0)
  {
    hide PutTx, DeleteTx, RevokeTx, CommitTx, RewrapTx, ResealRows, OpenBatch, SealPrepared, Stale, StaleBatches, Enumerates, Replay;
    match step {
      case PutStep(ring, input, seed) =>
        assert [seed][0] == seed;
        if PutTx(db, ring, input, input.owner, seed).Ok? {
          PutTraced(db, ring, input, input.owner, seed);
        }
      case DeleteStep(r, actor) =>
        if DeleteTx(db, r, actor).Ok? {
          DeleteTraced(db, r, actor);
        }
      case RevokeStep(r, actor) =>
        if RevokeTx(db, r, actor).Ok? {
          RevokeTraced(db, r, actor);
        }
      case CommitStep(ring, k, at, supply) => CommitTraced(db, ring, k, at, supply);
      case RewrapStep(_, _, _, _) => RewrapTraced(universe, db, step);
      case ResealStep(ring, at, order, draws) => ResealTraced(universe, db, step);
      case _ =>
    }
  }

  lemma ResealTraced(universe: map<string, string>, db: Db, step: Step)
    requires step.ResealStep? && Traced(db) && Agrees(step.ring.keys, universe)
    ensures Traced(Next(db, step).0)
  {
    hide ResealRows, BatchesCarried, StaleBatches, Replay;
    if Next(db, step).1 == Done {
      ResealMovesEverything(universe, db, step.ring, step.at, step.batches, step.draws);
    }
  }

  lemma {:induction false} RunTraced(universe: map<string, string>, steps: seq<Step>, n: nat)
    requires n <= |steps| && SupportedRun(universe, EMPTY, steps)
    ensures Traced(Run(EMPTY, steps, n))
  {
    hide Next, Supported, Replay;
    if n > 0 {
      RunTraced(universe, steps, n - 1);
      hide Traced;
      StepTraced(universe, Run(EMPTY, steps, n - 1), steps[n - 1]);
    } else {
      EmptyTraced();
    }
  }

  lemma EmptyTraced()
    ensures Traced(EMPTY)
  {
  }

  /** After any run, for every id: it is live exactly when it has a put row and no delete row; its
      version is then the number of its put rows, its version rows are exactly 1 to that number, and
      it is revoked exactly when its last put-or-revoke row is a revoke. */
  lemma AuditDetermines(universe: map<string, string>, steps: seq<Step>, n: nat, id: Uuid)
    requires n <= |steps| && SupportedRun(universe, EMPTY, steps)
    ensures var db := Run(EMPTY, steps, n);
            && (id in db.Ids() <==> Puts(db.audit, id) > 0 && !Deleted(db.audit, id))
            && (forall r | r in db.secrets && db.secrets[r].id == id ::
                  && db.secrets[r].current == Puts(db.audit, id)
                  && (forall v :: v in db.secrets[r].versions <==> 1 <= v <= Puts(db.audit, id))
                  && (db.secrets[r].state == Revoked <==> LastMarkRevokes(db.audit, id)))
  {
    var db, p := Run(EMPTY, steps, n), PlainAfter(Plain(map[], map[]), EMPTY, steps, n);
    RunTraced(universe, steps, n);
    RunRefines(universe, steps, n);
    ReplayCounts(db.audit, id);
    hide Replay, Run, PlainAfter, Allows, OutcomeAt, BatchesMatch, ReaderOf;
    forall r | r in db.secrets && db.secrets[r].id == id
      ensures && db.secrets[r].current == Puts(db.audit, id)
              && (forall v :: v in db.secrets[r].versions <==> 1 <= v <= Puts(db.audit, id))
              && (db.secrets[r].state == Revoked <==> LastMarkRevokes(db.audit, id))
    {
      assert Matches(ReaderOf(universe), r, db.secrets[r], p.cells[r]);
    }
  }
}
