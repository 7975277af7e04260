/** Whole runs of the custody store: any clients, any interleaving, failed transactions, rotations
    and edited expiry columns included. */
module CustodyRuns {
  import opened Basics
  import opened Core
  import opened Crypto
  import opened Custody
  import opened PlainStore
  import opened CustodyRefinement
  import opened Rotation

  lemma InsertKeeps(universe: map<string, string>, db: Db, p: Plain, step: Step)
    requires step.InsertStep? && Related(universe, db, p) && Agrees(step.ring.keys, universe)
    ensures var (after, outcome) := Next(db, step);
            Related(universe, after, Advance(p, step, outcome)) && Allows(p, step, outcome)
  {
    hide CellsMatch, BatchAssociatedData;
  }

  lemma AbortKeeps(universe: map<string, string>, db: Db, p: Plain, step: Step)
    requires step.AbortStep? && Related(universe, db, p)
    ensures var (after, outcome) := Next(db, step);
            Related(universe, after, Advance(p, step, outcome)) && Allows(p, step, outcome)
  {
    hide CellsMatch, OpenBatch;
  }

  lemma RewrapKeeps(universe: map<string, string>, db: Db, p: Plain, step: Step)
    requires step.RewrapStep? && Related(universe, db, p) && Agrees(step.ring.keys, universe)
    ensures var (after, outcome) := Next(db, step);
            Related(universe, after, p) && Advance(p, step, outcome) == p && Allows(p, step, outcome)
  {
    var (after, outcome) := Next(db, step);
    hide CellsMatch, OpenBatch, AllCarried, AllUnder, Stale, RewrapRows;
    if outcome.Rewrapped? {
      RotationMovesEverything(universe, db, step.ring, step.order, step.draws, step.actor);
      CellsCarried(ReaderOf(universe), step.ring.active, db.secrets, after.secrets, p.cells);
    }
  }

  lemma ResealKeeps(universe: map<string, string>, db: Db, p: Plain, step: Step)
    requires step.ResealStep? && Related(universe, db, p) && Agrees(step.ring.keys, universe)
    ensures var (after, outcome) := Next(db, step);
            Related(universe, after, Advance(p, step, outcome)) && Advance(p, step, outcome) == p && Allows(p, step, outcome)
  {
    var (after, outcome) := Next(db, step);
    hide CellsMatch, OpenBatch, BatchesCarried, BatchesUnder, StaleBatches, ResealRows;
    if outcome.Done? {
      ResealMovesEverything(universe, db, step.ring, step.at, step.batches, step.draws);
      BatchesStillMatch(universe, step.ring.active, PurgeAll(db, step.at), after, p.held);
    }
  }

  lemma SingleKeeps(universe: map<string, string>, db: Db, p: Plain, step: Step)
    requires step.PutStep? || step.DeleteStep? || step.RevokeStep?
    requires Related(universe, db, p) && Supported(universe, db, step)
    ensures var (after, outcome) := Next(db, step);
            Related(universe, after, Advance(p, step, outcome)) && Allows(p, step, outcome)
  {
    hide CellsMatch, OpenBatch, PutTx, PutCell, DeleteTx, RevokeTx, ReaderOf;
    match step
    case PutStep(ring, input, seed) =>
      assert [seed][0] == seed;
      PutKeeps(universe, db, p.cells, ring, input, input.owner, seed);
    case DeleteStep(r, actor) => DeleteKeeps(ReaderOf(universe), db, p.cells, r, actor);
    case RevokeStep(r, actor) => RevokeKeeps(ReaderOf(universe), db, p.cells, r, actor);
  }

  /** One transaction keeps the tables related to the simple store, moves that store only as its
      own operation would, and answers only what that store allows. */
  lemma StepRefines(universe: map<string, string>, db: Db, p: Plain, step: Step)
    requires Related(universe, db, p) && Supported(universe, db, step)
    ensures var (after, outcome) := Next(db, step);
            Related(universe, after, Advance(p, step, outcome)) && Allows(p, step, outcome)
  {
    hide Related, Advance, Allows, Next;
    match step {
      case PutStep(_, _, _) => SingleKeeps(universe, db, p, step);
      case DeleteStep(_, _) => SingleKeeps(universe, db, p, step);
      case RevokeStep(_, _) => SingleKeeps(universe, db, p, step);
      case InsertStep(_, _, _, _, _, _, _) => InsertKeeps(universe, db, p, step);
      case CommitStep(ring, k, at, supply) => CommitKeeps(universe, db, p, ring, k, at, supply);
      case AbortStep(_, _, _) => AbortKeeps(universe, db, p, step);
      case RewrapStep(_, _, _, _) => RewrapKeeps(universe, db, p, step);
      case ResealStep(_, _, _, _) => ResealKeeps(universe, db, p, step);
      case PurgeStep(_, _) => EnvironmentKeeps(universe, db, p, step);
      case RewriteExpiry(_, _) => EnvironmentKeeps(universe, db, p, step);
      case FailedStep => EnvironmentKeeps(universe, db, p, step);
    }
  }

  lemma EnvironmentKeeps(universe: map<string, string>, db: Db, p: Plain, step: Step)
    requires step.PurgeStep? || step.RewriteExpiry? || step.FailedStep?
    requires Related(universe, db, p)
    ensures var (after, outcome) := Next(db, step);
            Related(universe, after, Advance(p, step, outcome)) && Advance(p, step, outcome) == p && Allows(p, step, outcome)
  {
    hide CellsMatch, OpenBatch;
  }

  /** The simple store after the first `n` steps of a run of the tables. */
  function PlainAfter(p: Plain, db: Db, steps: seq<Step>, n: nat): Plain
    requires n <= |steps|
  {
    if n == 0 then p else Advance(PlainAfter(p, db, steps, n - 1), steps[n - 1], OutcomeAt(db, steps, n - 1))
  }

  lemma {:induction false} RunKeepsRelated(universe: map<string, string>, db: Db, p: Plain, steps: seq<Step>, n: nat)
    requires n <= |steps| && Related(universe, db, p) && SupportedRun(universe, db, steps)
    ensures Related(universe, Run(db, steps, n), PlainAfter(p, db, steps, n))
  {
    hide Related, Advance, Next, Supported, Allows;
    if n > 0 {
      RunKeepsRelated(universe, db, p, steps, n - 1);
      StepRefines(universe, Run(db, steps, n - 1), PlainAfter(p, db, steps, n - 1), steps[n - 1]);
    }
  }

  /** Over every run from the empty tables, the simple store's map is what is stored and every
      answer along the way is one the simple store allows. */
  lemma RunRefines(universe: map<string, string>, steps: seq<Step>, n: nat)
    requires n <= |steps| && SupportedRun(universe, EMPTY, steps)
    ensures var p := Plain(map[], map[]);
            && Related(universe, Run(EMPTY, steps, n), PlainAfter(p, EMPTY, steps, n))
            && (n < |steps| ==> Allows(PlainAfter(p, EMPTY, steps, n), steps[n], OutcomeAt(EMPTY, steps, n)))
  {
    var p := Plain(map[], map[]);
    assert Related(universe, EMPTY, p);
    hide Related, Advance, Next, Supported, Allows;
    RunKeepsRelated(universe, EMPTY, p, steps, n);
    if n < |steps| {
      StepRefines(universe, Run(EMPTY, steps, n), PlainAfter(p, EMPTY, steps, n), steps[n]);
    }
  }

  /** A read answers exactly the map: the value last put and its metadata while the secret is
      active, NotFound otherwise, and a refusal only when the reader lacks the sealing key. */
  lemma GetReadsTheMap(universe: map<string, string>, db: Db, p: Plain, keys: map<string, string>, r: SecretRef)
    requires Related(universe, db, p) && Agrees(keys, universe)
    ensures Exists(db, r) <==> r in p.cells && p.cells[r].active
    ensures match Get(db, keys, r)
            case Ok(stored) => Answers(p.cells, r, stored) && db.secrets[r].versions[db.secrets[r].current].keyId in keys
            case Err(NotFound) => !(r in p.cells && p.cells[r].active)
            case Err(error) =>
              && error == StoreError.Crypto && r in p.cells && p.cells[r].active
              && db.secrets[r].versions[db.secrets[r].current].keyId !in keys
  {
    hide OpenBatch;
    if r in p.cells {
      var row := db.secrets[r];
      assert Matches(ReaderOf(universe), r, row, p.cells[r]);
      DecryptUnderMoreKeys(keys, universe, r, row.current, row.disclosure, row.versions[row.current]);
      hide Decrypt;
    }
  }

  /** The simple store is the last write: after a put is answered, nothing but a put, delete,
      revoke or commit that names the reference changes its cell. */
  predicate Touches(p: Plain, step: Step, r: SecretRef) {
    match step
    case PutStep(_, input, _) => input.reference == r
    case DeleteStep(q, _) => q == r
    case RevokeStep(q, _) => q == r
    case CommitStep(_, k, _, _) => k in p.held && exists i :: 0 <= i < |p.held[k].mutations| && p.held[k].mutations[i].Target() == r
    case _ => false
  }

  function CellAt(p: Plain, r: SecretRef): Option<Cell> {
    if r in p.cells then Some(p.cells[r]) else None
  }

  lemma {:induction false} UnnamedCellsStay(cells: Cells, ring: Keyring, ms: seq<Mutation>, supply: seq<Seed>, n: nat, r: SecretRef)
    requires n <= |ms| && MutateCells(cells, ring, ms, supply, n).Ok?
    requires forall i :: 0 <= i < n ==> ms[i].Target() != r
    ensures var after := MutateCells(cells, ring, ms, supply, n).value;
            (r in after <==> r in cells) && (r in cells ==> after[r] == cells[r])
  {
    if n > 0 {
      assert ms[n - 1].Target() != r;
      UnnamedCellsStay(cells, ring, ms, supply, n - 1, r);
    }
  }

  lemma OnlyNamedCellsChange(p: Plain, step: Step, outcome: Outcome, r: SecretRef)
    requires !Touches(p, step, r)
    ensures CellAt(Advance(p, step, outcome), r) == CellAt(p, r)
  {
    if step.CommitStep? && outcome == Done && step.key in p.held {
      var ms := p.held[step.key].mutations;
      if MutateCells(p.cells, step.ring, ms, step.supply, |ms|).Ok? {
        UnnamedCellsStay(p.cells, step.ring, ms, step.supply, |ms|, r);
      }
    }
  }

  /** Between a put that was answered and a read, if no later step names the reference then the
      read returns the value put, whatever else ran in between. */
  lemma {:induction false} ReadsLastPut(universe: map<string, string>, steps: seq<Step>, i: nat, n: nat, keys: map<string, string>)
    requires i < n <= |steps| && SupportedRun(universe, EMPTY, steps) && Agrees(keys, universe)
    requires steps[i].PutStep? && OutcomeAt(EMPTY, steps, i) == Done
    requires var p := Plain(map[], map[]);
             forall j :: i < j < n ==> !Touches(PlainAfter(p, EMPTY, steps, j), steps[j], steps[i].input.reference)
    ensures var r := steps[i].input.reference;
            var db := Run(EMPTY, steps, n);
            && Exists(db, r)
            && (Get(db, keys, r).Ok? ==> Get(db, keys, r).value.value == steps[i].input.value)
            && (Get(db, keys, r).Err? ==> Get(db, keys, r) == Err(StoreError.Crypto))
  {
    hide Next, Related, Allows, Supported, Advance, Get, Touches;
    var p, r := Plain(map[], map[]), steps[i].input.reference;
    RunRefines(universe, steps, i);
    PutLands(PlainAfter(p, EMPTY, steps, i), steps[i]);
    CellStays(steps, i, n, r);
    RunRefines(universe, steps, n);
    GetReadsTheMap(universe, Run(EMPTY, steps, n), PlainAfter(p, EMPTY, steps, n), keys, r);
  }

  lemma PutLands(p: Plain, step: Step)
    requires step.PutStep? && Allows(p, step, Done)
    ensures var c := CellAt(Advance(p, step, Done), step.input.reference);
            c.Some? && c.value.active && c.value.value == step.input.value
  {
  }

  lemma {:induction false} CellStays(steps: seq<Step>, i: nat, n: nat, r: SecretRef)
    requires i < n <= |steps|
    requires var p := Plain(map[], map[]); forall j :: i < j < n ==> !Touches(PlainAfter(p, EMPTY, steps, j), steps[j], r)
    ensures var p := Plain(map[], map[]); CellAt(PlainAfter(p, EMPTY, steps, n), r) == CellAt(PlainAfter(p, EMPTY, steps, i + 1), r)
  {
    hide Next, Advance, Touches;
    if n > i + 1 {
      var p := Plain(map[], map[]);
      CellStays(steps, i, n - 1, r);
      OnlyNamedCellsChange(PlainAfter(p, EMPTY, steps, n - 1), steps[n - 1], OutcomeAt(EMPTY, steps, n - 1), r);
    }
  }

  /** Of a batch's mutations the last that names a reference decides its cell. */
  lemma {:induction false} LastMutationDecides(cells: Cells, ring: Keyring, ms: seq<Mutation>, supply: seq<Seed>, m: nat, n: nat)
    requires m < n <= |ms| && MutateCells(cells, ring, ms, supply, n).Ok?
    requires forall j :: m < j < n ==> ms[j].Target() != ms[m].Target()
    ensures var r, after := ms[m].Target(), MutateCells(cells, ring, ms, supply, n).value;
            if ms[m].Put? then r in after && after[r].active && after[r].value == ms[m].secret.value else r !in after
  {
    if m < n - 1 {
      assert ms[n - 1].Target() != ms[m].Target();
      LastMutationDecides(cells, ring, ms, supply, m, n - 1);
    }
  }

  /** A value put by a batch reads back in the same way: after a commit that was answered, and with no
      later step naming the reference, a read returns what the batch's last mutation of it put. */
  lemma {:induction false} ReadsLastCommitted(universe: map<string, string>, steps: seq<Step>, i: nat, m: nat, n: nat, keys: map<string, string>)
    requires i < n <= |steps| && SupportedRun(universe, EMPTY, steps) && Agrees(keys, universe)
    requires steps[i].CommitStep? && OutcomeAt(EMPTY, steps, i) == Done
    requires var p := PlainAfter(Plain(map[], map[]), EMPTY, steps, i);
             steps[i].key in p.held && m < |p.held[steps[i].key].mutations|
    requires var p := Plain(map[], map[]);
             var ms := PlainAfter(p, EMPTY, steps, i).held[steps[i].key].mutations;
             && (forall j :: m < j < |ms| ==> ms[j].Target() != ms[m].Target())
             && forall j :: i < j < n ==> !Touches(PlainAfter(p, EMPTY, steps, j), steps[j], ms[m].Target())
    ensures var ms := PlainAfter(Plain(map[], map[]), EMPTY, steps, i).held[steps[i].key].mutations;
            var r, db := ms[m].Target(), Run(EMPTY, steps, n);
            if ms[m].Delete? then Get(db, keys, r) == Err(NotFound)
            else
              && Exists(db, r)
              && (Get(db, keys, r).Ok? ==> Get(db, keys, r).value.value == ms[m].secret.value)
              && (Get(db, keys, r).Err? ==> Get(db, keys, r) == Err(StoreError.Crypto))
  {
    hide Next, Related, Supported, Get, Touches, MutateCells, PutCell;
    var p := PlainAfter(Plain(map[], map[]), EMPTY, steps, i);
    var ms := p.held[steps[i].key].mutations;
    var r := ms[m].Target();
    RunRefines(universe, steps, i);
    assert MutateCells(p.cells, steps[i].ring, ms, steps[i].supply, |ms|).Ok?;
    hide Advance, Allows;
    LastMutationDecides(p.cells, steps[i].ring, ms, steps[i].supply, m, |ms|);
    CommitLands(p, steps[i]);
    CellStays(steps, i, n, r);
    RunRefines(universe, steps, n);
    GetReadsTheMap(universe, Run(EMPTY, steps, n), PlainAfter(Plain(map[], map[]), EMPTY, steps, n), keys, r);
  }

  lemma CommitLands(p: Plain, step: Step)
    requires step.CommitStep? && step.key in p.held
    ensures var ms := p.held[step.key].mutations;
            MutateCells(p.cells, step.ring, ms, step.supply, |ms|).Ok? ==>
              Advance(p, step, Done).cells == MutateCells(p.cells, step.ring, ms, step.supply, |ms|).value
  {
    hide MutateCells;
  }
}
