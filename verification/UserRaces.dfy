/** A user's delete or revoke as the two transactions it is: the caller's listing, and later, after any
    other steps, the change. */
module UserRaces {
  import opened Basics
  import opened Core
  import opened Crypto
  import opened Custody
  import opened PlainStore
  import opened CustodyRefinement
  import opened CustodyRuns
  import opened Batches
  import Http

  // ---- Who was last given a reference ----

  /** The owner the last put of the reference names, of the first n mutations. */
  function GivenBy(ms: seq<Mutation>, n: nat, r: SecretRef): Option<string>
    requires n <= |ms|
  {
    if n == 0 then None
    else if ms[n - 1].Put? && ms[n - 1].secret.reference == r then Some(ms[n - 1].secret.owner)
    else GivenBy(ms, n - 1, r)
  }

  function Gives(p: Plain, step: Step, outcome: Outcome, r: SecretRef): Option<string> {
    if outcome != Done then None
    else
      match step
      case PutStep(_, input, _) => if input.reference == r then Some(input.owner) else None
      case CommitStep(_, k, _, _) => if k in p.held then GivenBy(p.held[k].mutations, |p.held[k].mutations|, r) else None
      case _ => None
  }

  /** The owner the last step from i up to n that gave the reference one gave it. */
  function LastGiven(steps: seq<Step>, i: nat, n: nat, r: SecretRef): Option<string>
    requires i <= n <= |steps|
  {
    if n == i then None
    else
      var given := Gives(PlainAfter(NOTHING, EMPTY, steps, n - 1), steps[n - 1], OutcomeAt(EMPTY, steps, n - 1), r);
      if given.Some? then given else LastGiven(steps, i, n - 1, r)
  }

  /** A cell's owner is the one given, else the one it had. */
  predicate OwnerFollows(before: Cells, after: Cells, r: SecretRef, given: Option<string>) {
    r in after ==> if given.Some? then after[r].owner == given.value else r in before && after[r].owner == before[r].owner
  }

  lemma {:induction false} BatchOwner(cells: Cells, ring: Keyring, ms: seq<Mutation>, supply: seq<Seed>, n: nat, r: SecretRef)
    requires n <= |ms| && MutateCells(cells, ring, ms, supply, n).Ok?
    ensures OwnerFollows(cells, MutateCells(cells, ring, ms, supply, n).value, r, GivenBy(ms, n, r))
  {
    hide ValidateRef, CanSeal;
    if n > 0 {
      BatchOwner(cells, ring, ms, supply, n - 1, r);
    }
  }

  lemma StepOwner(p: Plain, step: Step, outcome: Outcome, r: SecretRef)
    requires Allows(p, step, outcome)
    ensures OwnerFollows(p.cells, Advance(p, step, outcome).cells, r, Gives(p, step, outcome, r))
  {
    hide MutateCells, GivenBy, ValidateRef, CanSeal;
    if step.CommitStep? && outcome == Done {
      var ms := p.held[step.key].mutations;
      BatchOwner(p.cells, step.ring, ms, step.supply, |ms|, r);
    }
  }

  lemma {:induction false} RunOwner(universe: map<string, string>, steps: seq<Step>, i: nat, n: nat, r: SecretRef)
    requires i <= n <= |steps| && SupportedRun(universe, EMPTY, steps)
    ensures OwnerFollows(PlainAfter(NOTHING, EMPTY, steps, i).cells, PlainAfter(NOTHING, EMPTY, steps, n).cells, r, LastGiven(steps, i, n, r))
  {
    hide Gives, Advance, Allows, Related, SupportedRun, OutcomeAt;
    if n > i {
      RunOwner(universe, steps, i, n - 1, r);
      RunRefines(universe, steps, n - 1);
      StepOwner(PlainAfter(NOTHING, EMPTY, steps, n - 1), steps[n - 1], OutcomeAt(EMPTY, steps, n - 1), r);
    }
  }

  lemma OwnerStored(universe: map<string, string>, db: Db, p: Plain, r: SecretRef)
    requires Related(universe, db, p)
    ensures (r in db.secrets <==> r in p.cells) && (r in db.secrets ==> db.secrets[r].owner == p.cells[r].owner)
  {
    hide OpenBatch, ReaderOf;
    assert r in p.cells ==> Matches(ReaderOf(universe), r, db.secrets[r], p.cells[r]);
  }

  // ---- The check and the change ----

  /** The change a user route makes: of the reference the caller was seen to own, in the caller's name. */
  predicate UserChange(step: Step, caller: Http.Principal, r: SecretRef) {
    step == DeleteStep(r, caller.subject) || step == RevokeStep(r, caller.subject)
  }

  /** What that change does to a state: the reference's row goes or is revoked, and no other. */
  predicate ChangesOneRow(before: Db, after: Db, step: Step, outcome: Outcome, r: SecretRef) {
    if r !in before.secrets then outcome == Refused(NotFound) && after == before
    else
      && outcome == Done
      && after.secrets == if step.DeleteStep? then before.secrets - {r} else before.secrets[r := before.secrets[r].(state := Revoked)]
  }

  lemma UserChangeDone(db: Db, step: Step, caller: Http.Principal, r: SecretRef)
    requires UserChange(step, caller, r)
    ensures ChangesOneRow(db, Next(db, step).0, step, Next(db, step).1, r)
  {
  }

  /** A caller that owned the reference at its check removes or revokes, at whatever later step its
      change runs, the row the reference has then; and that row is the caller's own if and only if no
      step between gave the reference an owner, or the last that did gave it the caller. */
  lemma ChangesOwnRowIff(universe: map<string, string>, steps: seq<Step>, i: nat, n: nat, caller: Http.Principal, r: SecretRef)
    requires i <= n < |steps| && SupportedRun(universe, EMPTY, steps)
    requires Http.Owned(Run(EMPTY, steps, i), caller, r) && UserChange(steps[n], caller, r)
    ensures var before := Run(EMPTY, steps, n);
            && ChangesOneRow(before, Run(EMPTY, steps, n + 1), steps[n], OutcomeAt(EMPTY, steps, n), r)
            && (r in before.secrets ==>
                  (before.secrets[r].owner == caller.subject <==> LastGiven(steps, i, n, r) in {None, Some(caller.subject)}))
  {
    hide Related, Allows, SupportedRun, LastGiven, PlainAfter, Http.Owned, Next, ChangesOneRow, UserChange, List;
    UserChangeDone(Run(EMPTY, steps, n), steps[n], caller, r);
    Http.OwnedIff(Run(EMPTY, steps, i), caller, r);
    RunRefines(universe, steps, i);
    RunRefines(universe, steps, n);
    RunOwner(universe, steps, i, n, r);
    OwnerStored(universe, Run(EMPTY, steps, i), PlainAfter(NOTHING, EMPTY, steps, i), r);
    OwnerStored(universe, Run(EMPTY, steps, n), PlainAfter(NOTHING, EMPTY, steps, n), r);
  }

  /** The caller puts the secret, another owner puts it again, and the caller's delete runs last. */
  function Race(ring: Keyring, r: SecretRef, caller: string, other: string, draw: Draw): seq<Step> {
    [PutStep(ring, PutSecret(r, caller, "mine", WorkloadOnly, map[]), Seed(NIL_UUID, draw)),
     PutStep(ring, PutSecret(r, other, "theirs", WorkloadOnly, map[]), Seed(NIL_UUID, draw)),
     DeleteStep(r, caller)]
  }

  lemma PutOwns(db: Db, step: Step, r: SecretRef, owner: string)
    requires step.PutStep? && step.input.reference == r && step.input.owner == owner
    requires ValidateRef(r).Ok? && CanSeal(step.ring, step.seed.draw)
    requires if r in db.secrets then Numbered(db.secrets[r]) && db.secrets[r].current == 1 else step.seed.id !in db.Ids()
    ensures var after := Next(db, step).0;
            && r in after.secrets && after.secrets[r].owner == owner && Numbered(after.secrets[r])
            && (r !in db.secrets ==> after.secrets[r].current == 1)
  {
    PutEffect(db, step.ring, step.input, owner, step.seed);
    hide PutTx, Encrypt, ValidateRef, Db.Ids, Numbered, CanSeal;
  }

  /** So a caller checked before that second put deletes a secret that is another's. */
  lemma DeletesAnothersRow(ring: Keyring, caller: Http.Principal, r: SecretRef, other: string, draw: Draw)
    requires r.tenant == caller.tenant && ValidateRef(r).Ok? && CanSeal(ring, draw) && other != caller.subject
    ensures var steps := Race(ring, r, caller.subject, other, draw);
            && Http.Owned(Run(EMPTY, steps, 1), caller, r)
            && r in Run(EMPTY, steps, 2).secrets && Run(EMPTY, steps, 2).secrets[r].owner == other
            && r !in Run(EMPTY, steps, 3).secrets
  {
    var steps := Race(ring, r, caller.subject, other, draw);
    hide ValidateRef, CanSeal, Next;
    assert Run(EMPTY, steps, 0) == EMPTY;
    assert EMPTY.Ids() == {};
    PutOwns(EMPTY, steps[0], r, caller.subject);
    var one := Run(EMPTY, steps, 1);
    assert one == Next(EMPTY, steps[0]).0;
    PutOwns(one, steps[1], r, other);
    var two := Run(EMPTY, steps, 2);
    assert two == Next(one, steps[1]).0;
    UserChangeDone(two, steps[2], caller, r);
    assert Run(EMPTY, steps, 3) == Next(two, steps[2]).0;
    Http.OwnedIff(one, caller, r);
  }
}
