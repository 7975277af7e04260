/** Where a revealed value is written: a new file that appears at its path whole or not at all, and
    never in place of something else. */
module Out {
  import opened Basics

  datatype Refusal = Exists | Symlink | NotAFile | Unwritable

  datatype Kind = File | Link | Directory

  /** What is at a path of the directory; a file's bytes, and whether only its owner may read it. */
  datatype Node = Node(kind: Kind, bytes: string, private: bool)

  type Listing = map<string, Node>

  /** The directory, shared with every other process. */
  class Folder {
    var nodes: Listing

    constructor (nodes: Listing)
      ensures this.nodes == nodes
    {
      this.nodes := nodes;
    }
  }

  /** Where the operating system fails, and the bytes a failed write leaves. */
  datatype Fault = NoFault | NoRandom | CannotCreate | CannotWrite(left: string) | CannotSync | CannotLink

  /** A temporary file beside the target, with the handle until it is taken to be written. */
  class Pending {
    const folder: Folder
    const temp: string
    const target: string
    var file: bool

    constructor (folder: Folder, temp: string, target: string)
      ensures this.folder == folder && this.temp == temp && this.target == target && file
    {
      this.folder, this.temp, this.target := folder, temp, target;
      file := true;
    }

    /** Nothing else uses the temporary name. */
    predicate Valid()
      reads this, folder
    {
      temp != target && temp in folder.nodes && folder.nodes[temp].kind == File && folder.nodes[temp].private
    }

    /** Writes the value, links it into place, and drops the temporary file whatever happened. Whoever
        looks sees nothing at the path or all of the value; what was there already stays. */
    method Commit(bytes: string, fault: Fault) returns (r: Result<(), Refusal>)
      requires Valid()
      modifies this, folder
      ensures temp !in folder.nodes && !file
      ensures r.Ok? <==> old(file) && target !in old(folder.nodes) && !(fault.CannotWrite? || fault.CannotSync? || fault.CannotLink?)
      ensures folder.nodes == if r.Ok? then (old(folder.nodes) - {temp})[target := Node(File, bytes, true)] else old(folder.nodes) - {temp}
      ensures r.Err? ==> r.error == if old(file) && !(fault.CannotWrite? || fault.CannotSync? || fault.CannotLink?) then Exists else Unwritable
    {
      r := WriteAndLink(bytes, fault);
      Drop();
    }

    /** Every other path is left alone throughout. */
    method WriteAndLink(bytes: string, fault: Fault) returns (r: Result<(), Refusal>)
      requires Valid()
      modifies this, folder
      ensures Valid() && !file
      ensures folder.nodes - {temp} == if r.Ok? then (old(folder.nodes) - {temp})[target := Node(File, bytes, true)] else old(folder.nodes) - {temp}
      ensures r.Ok? <==> old(file) && target !in old(folder.nodes) && !(fault.CannotWrite? || fault.CannotSync? || fault.CannotLink?)
      ensures r.Err? ==> r.error == if old(file) && !(fault.CannotWrite? || fault.CannotSync? || fault.CannotLink?) then Exists else Unwritable
    {
      if !file {
        return Err(Unwritable);
      }
      file := false;
      folder.nodes := folder.nodes[temp := folder.nodes[temp].(bytes := if fault.CannotWrite? then fault.left else bytes)];
      if fault.CannotWrite? || fault.CannotSync? {
        return Err(Unwritable);
      }
      if fault.CannotLink? {
        return Err(Unwritable);
      }
      if target in folder.nodes {
        return Err(Exists);
      }
      folder.nodes := folder.nodes[target := folder.nodes[temp]];
      return Ok(());
    }

    /** `Drop`: the temporary name is removed. */
    method Drop()
      requires temp != target
      modifies folder
      ensures folder.nodes == old(folder.nodes) - {temp}
    {
      folder.nodes := folder.nodes - {temp};
    }
  }

  function TempName(name: string, pid: nat, suffix: string): string {
    "." + name + "." + Digits(pid) + "." + Hex(suffix) + ".secretsctl-tmp"
  }

  lemma TempIsNotTarget(name: string, pid: nat, suffix: string)
    ensures TempName(name, pid, suffix) != name
  {
    assert |TempName(name, pid, suffix)| > |name|;
  }

  /** Makes the temporary file, new and private, exactly when nothing is at the path, it names a file,
      and neither the random source, the name nor the system is in the way; else says which. */
  method Prepare(folder: Folder, path: string, pid: nat, suffix: string, fault: Fault) returns (r: Result<Pending, Refusal>)
    modifies folder
    ensures var temp := "." + path + "." + Digits(pid) + "." + Hex(suffix) + ".secretsctl-tmp";
            match r
            case Ok(p) =>
              && path !in old(folder.nodes) && path != "" && fault != NoRandom && fault != CannotCreate && temp !in old(folder.nodes)
              && fresh(p) && p.Valid() && p.file && p.folder == folder && p.target == path && p.temp == temp
              && folder.nodes == old(folder.nodes)[temp := Node(File, "", true)]
            case Err(refusal) =>
              && folder.nodes == old(folder.nodes)
              && if path in old(folder.nodes) then refusal == if old(folder.nodes)[path].kind == Link then Symlink else Exists
                 else if path == "" then refusal == NotAFile
                 else refusal == Unwritable && (fault == NoRandom || fault == CannotCreate || temp in old(folder.nodes))
  {
    if path in folder.nodes {
      return Err(if folder.nodes[path].kind == Link then Symlink else Exists);
    }
    if path == "" {
      return Err(NotAFile);
    }
    if fault.NoRandom? {
      return Err(Unwritable);
    }
    var temp := TempName(path, pid, suffix);
    TempIsNotTarget(path, pid, suffix);
    if temp in folder.nodes || fault.CannotCreate? {
      return Err(Unwritable);
    }
    folder.nodes := folder.nodes[temp := Node(File, "", true)];
    var p := new Pending(folder, temp, path);
    return Ok(p);
  }

  // ---- Beside every other process, stopping anywhere ----

  datatype Stage = Writing | Whole | Linked | Over

  datatype Publication = Publication(nodes: Listing, stage: Stage)

  datatype Move =
    | WriteSome(left: string)
    | WriteAll
    | LinkNow
    | RemoveTemp
    // The process is gone, wherever it was.
    | Crash
    // Another process puts something at, or takes it from, a path that is not the temporary one.
    | Elsewhere(name: string, node: Option<Node>)

  function Moved(p: Publication, move: Move, temp: string, target: string, value: string): Publication {
    match move
    case WriteSome(left) =>
      if p.stage.Writing? && temp in p.nodes then p.(nodes := p.nodes[temp := p.nodes[temp].(bytes := left)]) else p
    case WriteAll =>
      if p.stage.Writing? && temp in p.nodes then Publication(p.nodes[temp := p.nodes[temp].(bytes := value)], Whole) else p
    case LinkNow =>
      if p.stage.Whole? && temp in p.nodes && target !in p.nodes then Publication(p.nodes[target := p.nodes[temp]], Linked) else p
    case RemoveTemp => Publication(p.nodes - {temp}, Over)
    case Crash => p.(stage := Over)
    case Elsewhere(name, node) =>
      if name == temp then p
      else p.(nodes := if node.Some? then p.nodes[name := node.value] else p.nodes - {name})
  }

  function Run(p: Publication, moves: seq<Move>, n: nat, temp: string, target: string, value: string): Publication
    requires n <= |moves|
  {
    if n == 0 then p else Moved(Run(p, moves, n - 1, temp, target, value), moves[n - 1], temp, target, value)
  }

  predicate Sound(p: Publication, temp: string, value: string) {
    && (temp in p.nodes ==> p.nodes[temp].kind == File && p.nodes[temp].private)
    && (p.stage.Whole? && temp in p.nodes ==> p.nodes[temp] == Node(File, value, true))
  }

  lemma {:induction false} RunIsSound(p: Publication, moves: seq<Move>, n: nat, temp: string, target: string, value: string)
    requires n <= |moves| && Sound(p, temp, value) && temp != target
    ensures Sound(Run(p, moves, n, temp, target, value), temp, value)
  {
    if n > 0 {
      RunIsSound(p, moves, n - 1, temp, target, value);
    }
  }

  predicate SameAt(before: Listing, after: Listing, name: string) {
    (name in after <==> name in before) && (name in before ==> after[name] == before[name])
  }

  /** How many of the first n moves were this process's own and changed what the target is. */
  function Touches(p: Publication, moves: seq<Move>, n: nat, temp: string, target: string, value: string): nat
    requires n <= |moves|
  {
    if n == 0 then 0
    else
      var before, after := Run(p, moves, n - 1, temp, target, value).nodes, Run(p, moves, n, temp, target, value).nodes;
      Touches(p, moves, n - 1, temp, target, value) + if moves[n - 1].Elsewhere? || SameAt(before, after, target) then 0 else 1
  }

  lemma {:induction false} TouchedOnce(p: Publication, moves: seq<Move>, n: nat, temp: string, target: string, value: string)
    requires n <= |moves| && temp != target
    ensures var touches := Touches(p, moves, n, temp, target, value);
            touches <= 1 && (Run(p, moves, n, temp, target, value).stage in {Writing, Whole} ==> touches == 0)
  {
    if n > 0 {
      TouchedOnce(p, moves, n - 1, temp, target, value);
    }
  }

  /** In every run, whatever others do and wherever this process stops, it changes no path but its two,
      and the target at most once: from nothing to the whole value, private. */
  lemma PublishedWhole(p: Publication, moves: seq<Move>, n: nat, temp: string, target: string, value: string, name: string)
    requires n < |moves| && Sound(p, temp, value) && temp != target && name != temp
    ensures Touches(p, moves, n + 1, temp, target, value) <= 1
    ensures !moves[n].Elsewhere? ==>
      var before, after := Run(p, moves, n, temp, target, value).nodes, Run(p, moves, n + 1, temp, target, value).nodes;
      || SameAt(before, after, name)
      || (name == target && name !in before && name in after && after[name] == Node(File, value, true))
  {
    RunIsSound(p, moves, n, temp, target, value);
    TouchedOnce(p, moves, n + 1, temp, target, value);
  }

  /** With nobody in the way, a value written in full is linked into place, all of it, exactly when
      nothing is there, and the temporary file is gone either way. */
  lemma PublishedAlone(nodes: Listing, left: string, temp: string, target: string, value: string)
    requires temp in nodes && nodes[temp] == Node(File, "", true) && temp != target
    ensures var moves := [WriteSome(left), WriteAll, LinkNow, RemoveTemp];
            var p := Publication(nodes, Writing);
            && Run(p, moves, 1, temp, target, value).nodes == nodes[temp := Node(File, left, true)]
            && Run(p, moves, 2, temp, target, value).nodes == nodes[temp := Node(File, value, true)]
            && Run(p, moves, 4, temp, target, value).nodes ==
               if target in nodes then nodes - {temp} else (nodes - {temp})[target := Node(File, value, true)]
  {
    var moves, p := [WriteSome(left), WriteAll, LinkNow, RemoveTemp], Publication(nodes, Writing);
    assert Run(p, moves, 0, temp, target, value) == p;
    assert Run(p, moves, 2, temp, target, value) == Publication(nodes[temp := Node(File, value, true)], Whole);
    assert Run(p, moves, 3, temp, target, value) == Moved(Run(p, moves, 2, temp, target, value), LinkNow, temp, target, value);
  }

  /** Another process may put anything at any other path, and take it away. */
  lemma ElsewhereMoves(p: Publication, name: string, node: Option<Node>, temp: string, target: string, value: string)
    requires name != temp
    ensures var after := Moved(p, Elsewhere(name, node), temp, target, value);
            && after.stage == p.stage && (name in after.nodes <==> node.Some?) && (node.Some? ==> after.nodes[name] == node.value)
            && forall other | other != name :: SameAt(p.nodes, after.nodes, other)
  {
  }
}
