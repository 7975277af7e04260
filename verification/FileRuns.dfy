/** Any number of processes over one configuration file, each taking the lock, rewriting the file and
    crashing where it likes: changes take effect one by one in lock order and a reader without the
    lock only ever sees a committed document. */
module FileRuns {
  import opened Basics
  import opened Names
  import opened Port
  import opened Config
  import opened Document
  import opened FileConfig

  type Pid = nat

  /** Where a process is in one change. */
  datatype Phase =
    | Idle
    | Waiting(change: Change)
    | Holding(change: Change)
    | Loaded(change: Change, document: Document)
    | Staging(change: Change, document: Document, name: StagedName)
    | Staged(change: Change, document: Document, name: StagedName)
    | Replaced(change: Change)

  /** What a process did that others or its caller can tell. */
  datatype Event =
    | Took(pid: Pid, change: Change)
    | Answered(pid: Pid, change: Change, answer: Result<(), StorageError>)
    | Crashed(pid: Pid)

  datatype World = World(
    file: Option<Content>,
    staged: map<StagedName, Content>,
    holder: Option<Pid>,
    phases: map<Pid, Phase>,
    log: seq<Event>)

  function PhaseOf(w: World, p: Pid): Phase {
    if p in w.phases then w.phases[p] else Idle
  }

  datatype Step =
    | Begin(pid: Pid, change: Change)
    | Acquire(pid: Pid)
    | LoadFile(pid: Pid)
    | Decide(pid: Pid, nanos: nat)
    // Some bytes of the staged file are written.
    | WriteSome(pid: Pid, left: Content)
    | WriteAll(pid: Pid, keys: seq<NamespaceKey>, addresses: seq<Address>)
    | Rename(pid: Pid)
    | Finish(pid: Pid, synced: bool)
    // The system fails the process before its rename; it takes its staged file away, if it can.
    | Fail(pid: Pid, cleaned: bool)
    // The process is gone, wherever it was; the system drops its lock.
    | Crash(pid: Pid)

  function Released(w: World, p: Pid): Option<Pid> {
    if w.holder == Some(p) then None else w.holder
  }

  function Answer(w: World, p: Pid, change: Change, answer: Result<(), StorageError>): World {
    w.(holder := Released(w, p), phases := w.phases[p := Idle], log := w.log + [Answered(p, change, answer)])
  }

  function Enter(w: World, p: Pid, phase: Phase): World {
    w.(phases := w.phases[p := phase])
  }

  function Began(w: World, p: Pid, change: Change): World {
    if PhaseOf(w, p).Idle? then Enter(w, p, Waiting(change)) else w
  }

  function Acquired(w: World, p: Pid): World {
    var phase := PhaseOf(w, p);
    if phase.Waiting? && w.holder.None? then Enter(w.(holder := Some(p)), p, Holding(phase.change)) else w
  }

  function Read(w: World, p: Pid): World {
    var phase := PhaseOf(w, p);
    if !phase.Holding? then w
    else
      match Load(w.file)
      case Ok(d) => Enter(w, p, Loaded(phase.change, d))
      case Err(error) => Answer(w, p, phase.change, Err(error))
  }

  /** Apply the change; refused, answer; accepted, make the staged file, which must be new. */
  function Decided(w: World, p: Pid, name: StagedName): World {
    var phase := PhaseOf(w, p);
    if !phase.Loaded? then w
    else
      match ChangedDocument(phase.document, phase.change)
      case Err(error) => Answer(w, p, phase.change, Err(error))
      case Ok(d) =>
        if name in w.staged then Answer(w.(staged := w.staged - {name}), p, phase.change, Err(Unavailable))
        else Enter(w.(staged := w.staged[name := NotToml]), p, Staging(phase.change, d, name))
  }

  function WroteSome(w: World, p: Pid, left: Content): World {
    var phase := PhaseOf(w, p);
    if phase.Staging? then w.(staged := w.staged[phase.name := left]) else w
  }

  function WroteAll(w: World, p: Pid, keys: seq<NamespaceKey>, addresses: seq<Address>): World {
    var phase := PhaseOf(w, p);
    if phase.Staging? && Enumerates(keys, phase.document.settings.namespaces.Keys) && Enumerates(addresses, phase.document.settings.bindings.Keys) then
      Enter(w.(staged := w.staged[phase.name := Render(phase.document, keys, addresses)]), p, Staged(phase.change, phase.document, phase.name))
    else w
  }

  function Renamed(w: World, p: Pid): World {
    var phase := PhaseOf(w, p);
    if phase.Staged? && phase.name in w.staged then
      Enter(w.(file := Some(w.staged[phase.name]), staged := w.staged - {phase.name}, log := w.log + [Took(p, phase.change)]),
            p, Phase.Replaced(phase.change))
    else w
  }

  function Finished(w: World, p: Pid, synced: bool): World {
    var phase := PhaseOf(w, p);
    if phase.Replaced? then Answer(w, p, phase.change, if synced then Ok(()) else Err(Unavailable)) else w
  }

  function Failed(w: World, p: Pid, cleaned: bool): World {
    var phase := PhaseOf(w, p);
    if phase.Idle? || phase.Replaced? then w
    else
      var kept := if cleaned && (phase.Staging? || phase.Staged?) then w.staged - {phase.name} else w.staged;
      Answer(w.(staged := kept), p, phase.change, Err(Unavailable))
  }

  function Gone(w: World, p: Pid): World {
    w.(holder := Released(w, p), phases := w.phases[p := Idle], log := w.log + [Crashed(p)])
  }

  function Next(w: World, step: Step): World {
    match step
    case Begin(p, change) => Began(w, p, change)
    case Acquire(p) => Acquired(w, p)
    case LoadFile(p) => Read(w, p)
    case Decide(p, nanos) => Decided(w, p, StagedName(p, nanos))
    case WriteSome(p, left) => WroteSome(w, p, left)
    case WriteAll(p, keys, addresses) => WroteAll(w, p, keys, addresses)
    case Rename(p) => Renamed(w, p)
    case Finish(p, synced) => Finished(w, p, synced)
    case Fail(p, cleaned) => Failed(w, p, cleaned)
    case Crash(p) => Gone(w, p)
  }

  function Start(file: Option<Content>): World {
    World(file, map[], None, map[], [])
  }

  function Run(file: Option<Content>, steps: seq<Step>, n: nat): World
    requires n <= |steps|
  {
    if n == 0 then Start(file) else Next(Run(file, steps, n - 1), steps[n - 1])
  }

  // ---- What the log means ----

  /** The document after the changes that took effect, each applied to the one before. */
  function Folded(d: Document, log: seq<Event>): Option<Document> {
    if log == [] then Some(d)
    else
      match (Folded(d, log[..|log| - 1]), log[|log| - 1])
      case (Some(before), Took(_, change)) =>
        (match ChangedDocument(before, change)
         case Ok(after) => Some(after)
         case Err(_) => None)
      case (before, _) => before
  }

  /** The change a process has made and not yet answered for. */
  function Pending(log: seq<Event>, p: Pid): Option<Change> {
    if log == [] then None
    else
      var last := log[|log| - 1];
      if last.pid != p then Pending(log[..|log| - 1], p)
      else if last.Took? then Some(last.change)
      else None
  }

  /** An event the plain sequential store explains: a change takes effect where it is accepted; Ok
      answers a change just made; any other refusal than Unavailable answers one not made, which the
      store refuses at that point. */
  predicate Explained(d: Document, before: seq<Event>, event: Event) {
    match (Folded(d, before), event)
    case (None, _) => false
    case (Some(now), Took(p, change)) => ChangedDocument(now, change).Ok? && Pending(before, p).None?
    case (Some(now), Answered(p, change, Ok(_))) => Pending(before, p) == Some(change)
    case (Some(now), Answered(p, change, Err(error))) =>
      error == Unavailable || (Pending(before, p).None? && ChangedDocument(now, change) == Err(error))
    case (Some(_), Crashed(_)) => true
  }

  predicate Linear(d: Document, log: seq<Event>) {
    log == [] || (Linear(d, log[..|log| - 1]) && Explained(d, log[..|log| - 1], log[|log| - 1]))
  }

  lemma Appended(d: Document, log: seq<Event>, event: Event)
    ensures Linear(d, log + [event]) <==> Linear(d, log) && Explained(d, log, event)
    ensures forall p :: Pending(log + [event], p) == (if event.pid != p then Pending(log, p) else if event.Took? then Some(event.change) else None)
    ensures !event.Took? ==> Folded(d, log + [event]) == Folded(d, log)
    ensures event.Took? && Folded(d, log).Some? && ChangedDocument(Folded(d, log).value, event.change).Ok? ==>
      Folded(d, log + [event]) == Some(ChangedDocument(Folded(d, log).value, event.change).value)
  {
    assert (log + [event])[..|log|] == log;
    hide ChangedDocument;
  }

  // ---- The invariant ----

  predicate Active(phase: Phase) {
    !phase.Idle? && !phase.Waiting?
  }

  predicate PhaseSound(now: Document, staged: map<StagedName, Content>, p: Pid, phase: Phase) {
    match phase
    case Loaded(_, d) => d == now
    case Staging(change, d, name) => ChangedDocument(now, change) == Ok(d) && name.pid == p && name in staged
    case Staged(change, d, name) => ChangedDocument(now, change) == Ok(d) && name.pid == p && name in staged && Parse(staged[name]) == Ok(d)
    case _ => true
  }

  predicate PendingSound(log: seq<Event>, p: Pid, phase: Phase) {
    Pending(log, p) == if phase.Replaced? then Some(phase.change) else None
  }

  /** What the invariant says of one process. */
  predicate ProcessSound(w: World, now: Document, p: Pid) {
    var phase := PhaseOf(w, p);
    (Active(phase) ==> w.holder == Some(p)) && PhaseSound(now, w.staged, p, phase) && PendingSound(w.log, p, phase)
  }

  /** The file reads as the log's changes folded, and the log is the sequential store's. */
  predicate FileSound(d: Document, w: World, now: Document) {
    Load(w.file) == Ok(now) && Folded(d, w.log) == Some(now) && Linear(d, w.log) && WellFormed(now)
  }

  ghost predicate Sound(d: Document, w: World, now: Document) {
    FileSound(d, w, now) && forall p: Pid :: ProcessSound(w, now, p)
  }

  /** Nobody's staged text but the process's own is touched. */
  predicate OthersKept(w: World, after: World, p: Pid) {
    forall name | name in w.staged && name.pid != p :: name in after.staged && after.staged[name] == w.staged[name]
  }

  lemma OtherProcess(w: World, now: Document, after: World, p: Pid, q: Pid)
    requires ProcessSound(w, now, q) && q != p && PhaseOf(after, q) == PhaseOf(w, q) && OthersKept(w, after, p)
    requires Pending(after.log, q) == Pending(w.log, q) && (w.holder == Some(q) ==> after.holder == Some(q))
    ensures ProcessSound(after, now, q)
  {
    hide Pending, ChangedDocument, Parse;
  }

  /** A step of the process that changes neither the file nor anyone else's staged text. */
  lemma QuietStep(d: Document, w: World, now: Document, after: World, p: Pid)
    requires Sound(d, w, now) && after.file == w.file && after.log == w.log && OthersKept(w, after, p)
    requires forall q: Pid | q != p :: PhaseOf(after, q) == PhaseOf(w, q)
    requires after.holder == w.holder || (w.holder.None? && after.holder == Some(p))
    requires ProcessSound(after, now, p)
    ensures Sound(d, after, now)
  {
    hide ProcessSound, OthersKept;
    forall q: Pid
      ensures ProcessSound(after, now, q)
    {
      if q != p {
        OtherProcess(w, now, after, p, q);
      }
    }
    hide Load, Folded, Linear, WellFormed;
  }

  lemma IdleProcess(w: World, now: Document, p: Pid)
    requires PhaseOf(w, p) == Idle && Pending(w.log, p).None?
    ensures ProcessSound(w, now, p)
  {
  }

  /** A process that answers or is gone: its phase is idle, its lock is free, the file is as it was. */
  lemma LeavingStep(d: Document, w: World, now: Document, after: World, p: Pid, event: Event)
    requires Sound(d, w, now) && after.file == w.file && event.pid == p && !event.Took? && Explained(d, w.log, event)
    requires after.log == w.log + [event] && after.phases == w.phases[p := Idle] && after.holder == Released(w, p) && OthersKept(w, after, p)
    ensures Sound(d, after, now)
  {
    Appended(d, w.log, event);
    hide ProcessSound, OthersKept, Pending, Folded, Linear, Explained;
    forall q: Pid
      ensures ProcessSound(after, now, q)
    {
      if q != p {
        OtherProcess(w, now, after, p, q);
      } else {
        IdleProcess(after, now, p);
      }
    }
    hide Load, WellFormed;
  }

  lemma InactiveProcess(w: World, now: Document, after: World, later: Document, q: Pid)
    requires ProcessSound(w, now, q) && w.holder != Some(q) && PhaseOf(after, q) == PhaseOf(w, q) && Pending(after.log, q) == Pending(w.log, q)
    ensures ProcessSound(after, later, q)
  {
    hide Pending, ChangedDocument, Parse;
  }

  lemma TakenFile(d: Document, w: World, now: Document, after: World, p: Pid, change: Change, document: Document)
    requires FileSound(d, w, now) && Pending(w.log, p).None?
    requires ChangedDocument(now, change) == Ok(document) && Load(after.file) == Ok(document) && after.log == w.log + [Took(p, change)]
    ensures FileSound(d, after, document)
  {
    ChangesKeepForm(now, change);
    hide Load, WellFormed, Linear, Folded, Pending;
    assert Explained(d, w.log, Took(p, change));
    Appended(d, w.log, Took(p, change));
  }

  lemma TakenLog(log: seq<Event>, p: Pid, change: Change, q: Pid)
    ensures Pending(log + [Took(p, change)], q) == if q == p then Some(change) else Pending(log, q)
  {
    assert (log + [Took(p, change)])[..|log|] == log;
  }

  lemma TakenProcess(w: World, now: Document, after: World, p: Pid, change: Change, document: Document, q: Pid)
    requires ProcessSound(w, now, q) && w.holder == Some(p) == after.holder
    requires after.log == w.log + [Took(p, change)] && after.phases == w.phases[p := Phase.Replaced(change)]
    ensures ProcessSound(after, document, q)
  {
    TakenLog(w.log, p, change, q);
    hide Pending, ChangedDocument, Parse;
    if q != p {
      hide ProcessSound;
      InactiveProcess(w, now, after, document, q);
    }
  }

  /** The rename: the one step that changes the file, to the document with this change in it. */
  lemma TakingStep(d: Document, w: World, now: Document, after: World, p: Pid, change: Change, document: Document)
    requires Sound(d, w, now) && w.holder == Some(p) == after.holder && Pending(w.log, p).None?
    requires ChangedDocument(now, change) == Ok(document) && Load(after.file) == Ok(document)
    requires after.log == w.log + [Took(p, change)] && after.phases == w.phases[p := Phase.Replaced(change)]
    ensures Sound(d, after, document)
  {
    hide ProcessSound, FileSound, Pending, ChangedDocument, Load;
    TakenFile(d, w, now, after, p, change, document);
    forall q: Pid
      ensures ProcessSound(after, document, q)
    {
      TakenProcess(w, now, after, p, change, document, q);
    }
  }

  lemma RenameStep(d: Document, w: World, now: Document, p: Pid)
    requires Sound(d, w, now) && PhaseOf(w, p).Staged?
    ensures var after := Renamed(w, p);
            var phase := PhaseOf(w, p);
            && Sound(d, after, phase.document) && ChangedDocument(now, phase.change) == Ok(phase.document)
            && after.log == w.log + [Took(p, phase.change)]
  {
    assert ProcessSound(w, now, p);
    hide Sound, ChangedDocument, Parse, Pending;
    var phase, after := PhaseOf(w, p), Renamed(w, p);
    assert Load(after.file) == Ok(phase.document) && w.holder == Some(p);
    hide Load, ProcessSound, PhaseSound;
    TakingStep(d, w, now, after, p, phase.change, phase.document);
  }

  // ---- Every step ----

  lemma QueueingKeeps(d: Document, w: World, now: Document, p: Pid, change: Change)
    requires Sound(d, w, now)
    ensures Sound(d, Began(w, p, change), now) && Sound(d, Acquired(w, p), now)
  {
    assert ProcessSound(w, now, p);
    assert ProcessSound(Began(w, p, change), now, p) && ProcessSound(Acquired(w, p), now, p);
    hide Sound, ProcessSound;
    QuietStep(d, w, now, Began(w, p, change), p);
    QuietStep(d, w, now, Acquired(w, p), p);
  }

  lemma ReadKeeps(d: Document, w: World, now: Document, p: Pid)
    requires Sound(d, w, now)
    ensures Sound(d, Read(w, p), now)
  {
    assert ProcessSound(w, now, p) && Load(w.file) == Ok(now);
    hide Load;
    assert ProcessSound(Read(w, p), now, p);
    hide Sound, ProcessSound;
    QuietStep(d, w, now, Read(w, p), p);
  }

  lemma RefusalExplained(d: Document, log: seq<Event>, now: Document, p: Pid, change: Change, error: StorageError)
    requires Folded(d, log) == Some(now)
    requires error == Unavailable || (Pending(log, p).None? && ChangedDocument(now, change) == Err(error))
    ensures Explained(d, log, Answered(p, change, Err(error)))
  {
    hide Folded, Pending, ChangedDocument;
  }

  lemma DecidedAccepts(d: Document, w: World, now: Document, p: Pid, name: StagedName)
    requires Sound(d, w, now) && name.pid == p && PhaseOf(w, p).Loaded? && name !in w.staged
    requires ChangedDocument(PhaseOf(w, p).document, PhaseOf(w, p).change).Ok?
    ensures Sound(d, Decided(w, p, name), now)
  {
    var after := Decided(w, p, name);
    assert ProcessSound(w, now, p);
    hide Sound, ChangedDocument, Pending, Parse;
    assert ProcessSound(after, now, p);
    assert OthersKept(w, after, p);
    hide ProcessSound, OthersKept;
    QuietStep(d, w, now, after, p);
  }

  lemma DecidedRefuses(d: Document, w: World, now: Document, p: Pid, name: StagedName)
    requires Sound(d, w, now) && name.pid == p && PhaseOf(w, p).Loaded?
    requires ChangedDocument(PhaseOf(w, p).document, PhaseOf(w, p).change).Err? || name in w.staged
    ensures Sound(d, Decided(w, p, name), now)
  {
    var phase, after := PhaseOf(w, p), Decided(w, p, name);
    assert ProcessSound(w, now, p) && Folded(d, w.log) == Some(now);
    assert phase.document == now && Pending(w.log, p).None?;
    hide Sound, ChangedDocument, Pending, Folded, Parse, Explained, ProcessSound;
    var changed := ChangedDocument(now, phase.change);
    var error := if changed.Err? then changed.error else Unavailable;
    RefusalExplained(d, w.log, now, p, phase.change, error);
    assert OthersKept(w, after, p);
    hide OthersKept;
    LeavingStep(d, w, now, after, p, Answered(p, phase.change, Err(error)));
  }

  lemma DecidedKeeps(d: Document, w: World, now: Document, p: Pid, name: StagedName)
    requires Sound(d, w, now) && name.pid == p
    ensures Sound(d, Decided(w, p, name), now)
  {
    hide Sound, ChangedDocument, Parse;
    var phase := PhaseOf(w, p);
    if phase.Loaded? {
      if ChangedDocument(phase.document, phase.change).Ok? && name !in w.staged {
        DecidedAccepts(d, w, now, p, name);
      } else {
        DecidedRefuses(d, w, now, p, name);
      }
    }
  }

  /** What is written in full reads back as the changed document. */
  lemma WrittenWhole(w: World, now: Document, p: Pid, keys: seq<NamespaceKey>, addresses: seq<Address>)
    requires ProcessSound(w, now, p) && WellFormed(now)
    ensures ProcessSound(WroteAll(w, p, keys, addresses), now, p)
  {
    hide ChangedDocument, Parse, Render, Enumerates, WellFormed, Pending;
    var phase := PhaseOf(w, p);
    if phase.Staging? && Enumerates(keys, phase.document.settings.namespaces.Keys) && Enumerates(addresses, phase.document.settings.bindings.Keys) {
      ChangesKeepForm(now, phase.change);
      RoundTrip(phase.document, keys, addresses);
    }
  }

  lemma WritingKeeps(d: Document, w: World, now: Document, p: Pid, left: Content, keys: seq<NamespaceKey>, addresses: seq<Address>)
    requires Sound(d, w, now)
    ensures Sound(d, WroteSome(w, p, left), now) && Sound(d, WroteAll(w, p, keys, addresses), now)
  {
    assert ProcessSound(w, now, p) && WellFormed(now);
    hide Sound, Render, Enumerates, WellFormed, ChangedDocument, Parse, Pending;
    WrittenWhole(w, now, p, keys, addresses);
    assert ProcessSound(WroteSome(w, p, left), now, p);
    assert OthersKept(w, WroteSome(w, p, left), p) && OthersKept(w, WroteAll(w, p, keys, addresses), p);
    hide ProcessSound, OthersKept;
    QuietStep(d, w, now, WroteSome(w, p, left), p);
    QuietStep(d, w, now, WroteAll(w, p, keys, addresses), p);
  }

  lemma EndingKeeps(d: Document, w: World, now: Document, p: Pid, synced: bool, cleaned: bool)
    requires Sound(d, w, now)
    ensures Sound(d, Finished(w, p, synced), now) && Sound(d, Failed(w, p, cleaned), now) && Sound(d, Gone(w, p), now)
  {
    var phase := PhaseOf(w, p);
    assert ProcessSound(w, now, p) && Folded(d, w.log) == Some(now);
    hide Sound, ChangedDocument, Load, Parse, Pending, Folded;
    if phase.Replaced? {
      LeavingStep(d, w, now, Finished(w, p, synced), p, Answered(p, phase.change, if synced then Ok(()) else Err(Unavailable)));
    } else if !phase.Idle? {
      LeavingStep(d, w, now, Failed(w, p, cleaned), p, Answered(p, phase.change, Err(Unavailable)));
    }
    LeavingStep(d, w, now, Gone(w, p), p, Crashed(p));
  }

  /** One step of any process leaves the file as it was, or, at a rename alone, as the change of the
      process holding the lock makes it. */
  lemma StepKeepsSound(d: Document, w: World, now: Document, step: Step) returns (next: Document)
    requires Sound(d, w, now)
    ensures Sound(d, Next(w, step), next)
    ensures if step.Rename? && PhaseOf(w, step.pid).Staged?
            then w.holder == Some(step.pid) && ChangedDocument(now, PhaseOf(w, step.pid).change) == Ok(next)
            else Next(w, step).file == w.file && next == now
  {
    var phase := PhaseOf(w, step.pid);
    if step.Rename? {
      if phase.Staged? {
        assert ProcessSound(w, now, step.pid);
        hide Sound, ChangedDocument, PhaseSound;
        RenameStep(d, w, now, step.pid);
        next := phase.document;
      } else {
        next := now;
      }
    } else {
      next := now;
      hide Sound, ChangedDocument, Load, Render, Enumerates;
      match step {
        case Begin(p, change) => QueueingKeeps(d, w, now, p, change);
        case Acquire(p) => QueueingKeeps(d, w, now, p, RemoveNamespace(LOCAL_NAMESPACE));
        case LoadFile(p) => ReadKeeps(d, w, now, p);
        case Decide(p, nanos) => DecidedKeeps(d, w, now, p, StagedName(p, nanos));
        case WriteSome(p, left) => WritingKeeps(d, w, now, p, left, [], []);
        case WriteAll(p, keys, addresses) => WritingKeeps(d, w, now, p, NotToml, keys, addresses);
        case Finish(p, synced) => EndingKeeps(d, w, now, p, synced, false);
        case Fail(p, cleaned) => EndingKeeps(d, w, now, p, false, cleaned);
        case Crash(p) => EndingKeeps(d, w, now, p, false, false);
      }
    }
  }

  // ---- Every run ----

  lemma StartIsSound(file: Option<Content>, d: Document)
    requires Load(file) == Ok(d)
    ensures Sound(d, Start(file), d)
  {
    LoadedIsWellFormed(file);
    hide Load, Parse, WellFormed;
  }

  lemma {:induction false} RunIsSound(file: Option<Content>, d: Document, steps: seq<Step>, n: nat) returns (now: Document)
    requires n <= |steps| && Load(file) == Ok(d)
    ensures Sound(d, Run(file, steps, n), now)
  {
    if n == 0 {
      StartIsSound(file, d);
      now := d;
    } else {
      hide Sound, Next;
      var before := RunIsSound(file, d, steps, n - 1);
      now := StepKeepsSound(d, Run(file, steps, n - 1), before, steps[n - 1]);
    }
  }

  lemma {:induction false} FoldKeepsRest(d: Document, log: seq<Event>)
    requires Folded(d, log).Some?
    ensures Folded(d, log).value.rest == d.rest
  {
    if log != [] {
      FoldKeepsRest(d, log[..|log| - 1]);
      hide Changed;
    }
  }

  /** Linearizable: at every point of every run, whoever crashed where, the file reads as the changes
      that took effect, one after the other from the first document in the order their makers held
      the lock; every answer so far is the sequential store's at its own point of that order; and
      the keys the store does not own are as they were. */
  lemma RunIsLinearizable(file: Option<Content>, d: Document, steps: seq<Step>, n: nat)
    requires n <= |steps| && Load(file) == Ok(d)
    ensures var w := Run(file, steps, n);
            && Linear(d, w.log) && Folded(d, w.log).Some?
            && Load(w.file) == Ok(Folded(d, w.log).value)
            && Folded(d, w.log).value.rest == d.rest
  {
    hide Next;
    var now := RunIsSound(file, d, steps, n);
    FoldKeepsRest(d, Run(file, steps, n).log);
  }

  lemma SoundReads(d: Document, w: World, now: Document)
    requires Sound(d, w, now)
    ensures Load(w.file) == Ok(now)
  {
  }

  /** A holder that stays the holder goes forward through its one change. */
  lemma HeldStep(w: World, step: Step, p: Pid)
    requires w.holder == Some(p) == Next(w, step).holder && Active(PhaseOf(w, p))
    ensures var phase, next := PhaseOf(w, p), PhaseOf(Next(w, step), p);
            && Active(next) && next.change == phase.change
            && (phase.Replaced? ==> next == phase)
            && (next.Replaced? && !phase.Replaced? ==> step == Rename(p) && phase.Staged?)
            && (step == Rename(p) && phase.Staged? ==> next.Replaced? || Next(w, step) == w)
  {
    hide Load, ChangedDocument, Render, Enumerates;
  }

  /** Between taking the lock and losing it, by an answer or a crash, a process sees the file change
      at most once, by its own rename, from what it was to that change of it. */
  lemma {:induction false} AtomicUnderLock(file: Option<Content>, d: Document, steps: seq<Step>, i: nat, n: nat, p: Pid)
    requires i < n <= |steps| && Load(file) == Ok(d) && steps[i] == Acquire(p)
    requires PhaseOf(Run(file, steps, i), p).Waiting? && Run(file, steps, i).holder.None?
    requires forall j :: i < j <= n ==> Run(file, steps, j).holder == Some(p)
    ensures var first, w := Run(file, steps, i), Run(file, steps, n);
            var change, phase := PhaseOf(first, p).change, PhaseOf(w, p);
            && Active(phase) && phase.change == change && Load(first.file).Ok?
            && if phase.Replaced? then Load(w.file) == ChangedDocument(Load(first.file).value, change) else w.file == first.file
  {
    hide Load, Sound, ChangedDocument, Next, Active;
    var w, step := Run(file, steps, n - 1), steps[n - 1];
    var before := RunIsSound(file, d, steps, n - 1);
    SoundReads(d, w, before);
    if n > i + 1 {
      AtomicUnderLock(file, d, steps, i, n - 1, p);
      assert w.holder == Some(p) == Run(file, steps, n).holder;
      OneMoreUnderLock(d, w, before, step, p);
    } else {
      AcquireStep(w, p);
    }
  }

  lemma AcquireStep(w: World, p: Pid)
    requires PhaseOf(w, p).Waiting? && w.holder.None?
    ensures PhaseOf(Next(w, Acquire(p)), p) == Holding(PhaseOf(w, p).change) && Next(w, Acquire(p)).file == w.file
    ensures Active(PhaseOf(Next(w, Acquire(p)), p))
  {
  }

  lemma OneMoreUnderLock(d: Document, w: World, now: Document, step: Step, p: Pid)
    requires Sound(d, w, now) && w.holder == Some(p) == Next(w, step).holder && Active(PhaseOf(w, p))
    ensures var phase, after := PhaseOf(w, p), PhaseOf(Next(w, step), p);
            && Active(after) && after.change == phase.change && (phase.Replaced? ==> after.Replaced?)
            && if after.Replaced? && !phase.Replaced? then Load(Next(w, step).file) == ChangedDocument(now, phase.change)
               else Next(w, step).file == w.file
  {
    HeldStep(w, step, p);
    var next := StepKeepsSound(d, w, now, step);
    SoundReads(d, Next(w, step), next);
    hide Load, Sound, ChangedDocument, Next, Active;
  }

  predicate OnlyRefusals(log: seq<Event>) {
    forall i :: 0 <= i < |log| ==> log[i].Crashed? || (log[i].Answered? && log[i].answer == Err(Unavailable))
  }

  lemma BadFileStep(w: World, step: Step)
    requires Load(w.file).Err? && forall p: Pid :: PhaseOf(w, p).Idle? || PhaseOf(w, p).Waiting? || PhaseOf(w, p).Holding?
    ensures var after := Next(w, step);
            && after.file == w.file
            && (OnlyRefusals(w.log) ==> OnlyRefusals(after.log))
    ensures forall p: Pid :: PhaseOf(Next(w, step), p).Idle? || PhaseOf(Next(w, step), p).Waiting? || PhaseOf(Next(w, step), p).Holding?
  {
    LoadRefuses(w.file);
    hide Load, ChangedDocument, Render, Enumerates;
    var p, after := step.pid, Next(w, step);
    assert PhaseOf(w, p).Idle? || PhaseOf(w, p).Waiting? || PhaseOf(w, p).Holding?;
    forall q: Pid
      ensures PhaseOf(after, q).Idle? || PhaseOf(after, q).Waiting? || PhaseOf(after, q).Holding?
    {
      assert PhaseOf(w, q).Idle? || PhaseOf(w, q).Waiting? || PhaseOf(w, q).Holding?;
    }
  }

  /** A file that does not parse is answered Unavailable to every change and is never written. */
  lemma {:induction false} BadFileStays(file: Option<Content>, steps: seq<Step>, n: nat)
    requires n <= |steps| && Load(file).Err?
    ensures var w := Run(file, steps, n);
            && w.file == file
            && OnlyRefusals(w.log)
            && (forall p: Pid :: PhaseOf(w, p).Idle? || PhaseOf(w, p).Waiting? || PhaseOf(w, p).Holding?)
  {
    hide Load, Next;
    if n > 0 {
      BadFileStays(file, steps, n - 1);
      BadFileStep(Run(file, steps, n - 1), steps[n - 1]);
    }
  }

  // ---- A change nobody is in the way of ----

  /** Every step of one change, one after the other. */
  function Undisturbed(w: World, p: Pid, change: Change, nanos: nat, keys: seq<NamespaceKey>, addresses: seq<Address>): World {
    var held := Next(Next(w, Begin(p, change)), Acquire(p));
    var decided := Next(Next(held, LoadFile(p)), Decide(p, nanos));
    var renamed := Next(Next(decided, WriteAll(p, keys, addresses)), Rename(p));
    Next(renamed, Finish(p, true))
  }

  /** The world as it was but for one answer, the process done. */
  predicate OnlyAnswered(w: World, after: World, p: Pid, change: Change, answer: Result<(), StorageError>) {
    && after.file == w.file && after.log == w.log + [Answered(p, change, answer)]
    && PhaseOf(after, p).Idle? && after.holder.None? && after.staged == w.staged
  }

  lemma FirstSteps(w: World, p: Pid, change: Change)
    requires PhaseOf(w, p).Idle? && w.holder.None?
    ensures var held := Next(Next(w, Begin(p, change)), Acquire(p));
            && PhaseOf(held, p) == Holding(change) && held.holder == Some(p)
            && held.file == w.file && held.staged == w.staged && held.log == w.log
  {
  }

  lemma IdleStays(w: World, p: Pid, step: Step)
    requires PhaseOf(w, p).Idle? && step.pid == p && (step.Decide? || step.WriteAll? || step.Rename? || step.Finish?)
    ensures Next(w, step) == w
  {
  }

  lemma ReadRefused(held: World, p: Pid)
    requires PhaseOf(held, p).Holding? && held.holder == Some(p) && Load(held.file).Err?
    ensures OnlyAnswered(held.(holder := None), Next(held, LoadFile(p)), p, PhaseOf(held, p).change, Err(Load(held.file).error))
  {
    hide Load;
  }

  lemma ReadLoads(held: World, p: Pid)
    requires PhaseOf(held, p).Holding? && Load(held.file).Ok?
    ensures Next(held, LoadFile(p)) == Enter(held, p, Loaded(PhaseOf(held, p).change, Load(held.file).value))
  {
    hide Load;
  }

  lemma DecideRefused(loaded: World, p: Pid, nanos: nat)
    requires PhaseOf(loaded, p).Loaded? && loaded.holder == Some(p)
    requires ChangedDocument(PhaseOf(loaded, p).document, PhaseOf(loaded, p).change).Err?
    ensures OnlyAnswered(loaded.(holder := None), Next(loaded, Decide(p, nanos)), p, PhaseOf(loaded, p).change,
                         Err(ChangedDocument(PhaseOf(loaded, p).document, PhaseOf(loaded, p).change).error))
  {
    hide ChangedDocument;
  }

  lemma StagesWhole(loaded: World, p: Pid, nanos: nat, changed: Document, keys: seq<NamespaceKey>, addresses: seq<Address>)
    requires PhaseOf(loaded, p).Loaded? && loaded.holder == Some(p) && StagedName(p, nanos) !in loaded.staged
    requires ChangedDocument(PhaseOf(loaded, p).document, PhaseOf(loaded, p).change) == Ok(changed)
    requires Enumerates(keys, changed.settings.namespaces.Keys) && Enumerates(addresses, changed.settings.bindings.Keys)
    ensures var staged, name := Next(Next(loaded, Decide(p, nanos)), WriteAll(p, keys, addresses)), StagedName(p, nanos);
            && PhaseOf(staged, p) == Staged(PhaseOf(loaded, p).change, changed, name)
            && staged.staged == loaded.staged[name := Render(changed, keys, addresses)]
            && staged.holder == Some(p) && staged.log == loaded.log && staged.file == loaded.file
  {
    hide ChangedDocument, Enumerates, Render;
    var staging := Next(loaded, Decide(p, nanos));
    assert staging == Enter(loaded.(staged := loaded.staged[StagedName(p, nanos) := NotToml]), p,
                            Staging(PhaseOf(loaded, p).change, changed, StagedName(p, nanos)));
  }

  lemma PublishesStaged(staged: World, p: Pid)
    requires PhaseOf(staged, p).Staged? && PhaseOf(staged, p).name in staged.staged && staged.holder == Some(p)
    ensures var (phase, after) := (PhaseOf(staged, p), Next(Next(staged, Rename(p)), Finish(p, true)));
            && after.file == Some(staged.staged[phase.name]) && after.staged == staged.staged - {phase.name}
            && PhaseOf(after, p).Idle? && after.holder.None?
            && after.log == staged.log + [Took(p, phase.change)] + [Answered(p, phase.change, Ok(()))]
  {
    var renamed := Next(staged, Rename(p));
    assert PhaseOf(renamed, p) == Phase.Replaced(PhaseOf(staged, p).change) && renamed.holder == Some(p);
  }

  lemma LoadsRendered(d: Document, keys: seq<NamespaceKey>, addresses: seq<Address>)
    requires WellFormed(d) && Enumerates(keys, d.settings.namespaces.Keys) && Enumerates(addresses, d.settings.bindings.Keys)
    ensures Load(Some(Render(d, keys, addresses))) == Ok(d)
  {
    RoundTrip(d, keys, addresses);
    hide Parse, Render, Enumerates, WellFormed;
  }

  lemma LastSteps(loaded: World, p: Pid, nanos: nat, changed: Document, keys: seq<NamespaceKey>, addresses: seq<Address>)
    requires PhaseOf(loaded, p).Loaded? && loaded.holder == Some(p) && StagedName(p, nanos) !in loaded.staged && WellFormed(changed)
    requires ChangedDocument(PhaseOf(loaded, p).document, PhaseOf(loaded, p).change) == Ok(changed)
    requires Enumerates(keys, changed.settings.namespaces.Keys) && Enumerates(addresses, changed.settings.bindings.Keys)
    ensures var change := PhaseOf(loaded, p).change;
            var after := Next(Next(Next(Next(loaded, Decide(p, nanos)), WriteAll(p, keys, addresses)), Rename(p)), Finish(p, true));
            && Load(after.file) == Ok(changed) && PhaseOf(after, p).Idle? && after.holder.None? && after.staged == loaded.staged
            && after.log == loaded.log + [Took(p, change)] + [Answered(p, change, Ok(()))]
  {
    hide *;
    LoadsRendered(changed, keys, addresses);
    StagesWhole(loaded, p, nanos, changed, keys, addresses);
    var staged := Next(Next(loaded, Decide(p, nanos)), WriteAll(p, keys, addresses));
    PublishesStaged(staged, p);
    assert staged.staged - {StagedName(p, nanos)} == loaded.staged;
  }

  /** Alone with the lock free, a change is made: answered Ok with the file as the change makes it, or
      answered with what is wrong and the file as it was; the lock is free again and nothing is left
      staged. */
  lemma ChangeAlone(w: World, p: Pid, change: Change, nanos: nat, keys: seq<NamespaceKey>, addresses: seq<Address>)
    requires PhaseOf(w, p).Idle? && w.holder.None? && StagedName(p, nanos) !in w.staged
    requires Load(w.file).Ok? && ChangedDocument(Load(w.file).value, change).Ok? ==>
      var changed := ChangedDocument(Load(w.file).value, change).value;
      Enumerates(keys, changed.settings.namespaces.Keys) && Enumerates(addresses, changed.settings.bindings.Keys)
    ensures var after := Undisturbed(w, p, change, nanos, keys, addresses);
            match Load(w.file)
            case Err(error) => OnlyAnswered(w, after, p, change, Err(error))
            case Ok(d) =>
              match ChangedDocument(d, change)
              case Err(error) => OnlyAnswered(w, after, p, change, Err(error))
              case Ok(changed) =>
                && Load(after.file) == Ok(changed) && PhaseOf(after, p).Idle? && after.holder.None? && after.staged == w.staged
                && after.log == w.log + [Took(p, change)] + [Answered(p, change, Ok(()))]
  {
    LoadedIsWellFormed(w.file);
    hide Load, ChangedDocument, Enumerates, WellFormed, Next;
    FirstSteps(w, p, change);
    var held := Next(Next(w, Begin(p, change)), Acquire(p));
    var read := Next(held, LoadFile(p));
    if Load(w.file).Err? {
      ReadRefused(held, p);
      IdleStays(read, p, Decide(p, nanos));
      IdleStays(read, p, WriteAll(p, keys, addresses));
      IdleStays(read, p, Rename(p));
      IdleStays(read, p, Finish(p, true));
    } else {
      ReadLoads(held, p);
      if ChangedDocument(Load(w.file).value, change).Err? {
        DecideRefused(read, p, nanos);
        var decided := Next(read, Decide(p, nanos));
        IdleStays(decided, p, WriteAll(p, keys, addresses));
        IdleStays(decided, p, Rename(p));
        IdleStays(decided, p, Finish(p, true));
      } else {
        ChangesKeepForm(Load(w.file).value, change);
        LastSteps(read, p, nanos, ChangedDocument(Load(w.file).value, change).value, keys, addresses);
      }
    }
  }

  /** The same as a run: the first change of a file. */
  lemma FirstChange(file: Option<Content>, p: Pid, change: Change, nanos: nat, keys: seq<NamespaceKey>, addresses: seq<Address>)
    requires Load(file).Ok? && ChangedDocument(Load(file).value, change).Ok?
    requires var changed := ChangedDocument(Load(file).value, change).value;
             Enumerates(keys, changed.settings.namespaces.Keys) && Enumerates(addresses, changed.settings.bindings.Keys)
    ensures var steps := [Begin(p, change), Acquire(p), LoadFile(p), Decide(p, nanos), WriteAll(p, keys, addresses), Rename(p), Finish(p, true)];
            var w := Run(file, steps, 7);
            Load(w.file) == ChangedDocument(Load(file).value, change) && w.log == [Took(p, change), Answered(p, change, Ok(()))]
  {
    hide Load, ChangedDocument, Enumerates, Next;
    var steps := [Begin(p, change), Acquire(p), LoadFile(p), Decide(p, nanos), WriteAll(p, keys, addresses), Rename(p), Finish(p, true)];
    ChangeAlone(Start(file), p, change, nanos, keys, addresses);
    assert Run(file, steps, 1) == Next(Run(file, steps, 0), steps[0]);
    assert Run(file, steps, 3) == Next(Next(Run(file, steps, 1), steps[1]), steps[2]);
    assert Run(file, steps, 5) == Next(Next(Run(file, steps, 3), steps[3]), steps[4]);
    assert Run(file, steps, 7) == Next(Next(Run(file, steps, 5), steps[5]), steps[6]);
  }

  /** What the system may leave: a failed process takes its own staged file away or leaves it, answers
      and frees the lock; a partial write leaves its bytes there. */
  lemma FailureLeaves(w: World, p: Pid, cleaned: bool, left: Content)
    requires w.holder == Some(p) && (PhaseOf(w, p).Staging? || PhaseOf(w, p).Staged?)
    ensures var (phase, after) := (PhaseOf(w, p), Next(w, Fail(p, cleaned)));
            && after.staged == (if cleaned then w.staged - {phase.name} else w.staged) && after.file == w.file
            && after.holder.None? && PhaseOf(after, p).Idle? && after.log == w.log + [Answered(p, phase.change, Err(Unavailable))]
    ensures PhaseOf(w, p).Staging? ==> Next(w, WriteSome(p, left)) == w.(staged := w.staged[PhaseOf(w, p).name := left])
  {
  }

  /** A crash frees the lock, and nothing else of the process's stays but what it had staged. */
  lemma CrashFrees(w: World, p: Pid)
    ensures var after := Next(w, Crash(p));
            && PhaseOf(after, p).Idle? && (w.holder == Some(p) ==> after.holder.None?) && (w.holder != Some(p) ==> after.holder == w.holder)
            && after.file == w.file && after.staged == w.staged && forall q: Pid | q != p :: PhaseOf(after, q) == PhaseOf(w, q)
  {
  }
}
