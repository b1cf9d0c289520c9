/**
 What the operations of lib/devfs/devfs.c mean for a plain map of files and open directories, and the
 proofs that the tree edits keep agreeing with it.
 */
module DevfsOps {
  import opened DevfsListing
  import opened DevfsPath
  import opened DevfsTree
  import opened Errno

  /** What a path means to the plain map; a trailing slash asks for a directory. */
  datatype Meaning = Missing | MeansFile(path: Path, opens: nat) | MeansDir(path: Path)

  ghost function Resolve(c: Catalog, r: Parse): Meaning {
    if r.Bad? then Missing
    else if ImpliedDir(c, r.path) then MeansDir(r.path)
    else if r.path in c.files && !r.trailing then MeansFile(r.path, c.files[r.path])
    else Missing
  }

  ghost predicate BelowFile(c: Catalog, p: Path) { exists f :: f in c.files && f < p }

  /** The outcome of registering `p` while memory lasts. */
  ghost function RegisterStatus(c: Catalog, p: Path): Status {
    if p in c.files then EEXIST
    else if ImpliedDir(c, p) then EISDIR
    else if BelowFile(c, p) then ENOTDIR
    else Ok
  }

  /** All that holds of the tree, the plain map and the handles together. */
  ghost predicate Sound(h: Heap, paths: Names, c: Catalog, files: map<nat, nat>, dirs: map<nat, nat>) {
    && Shaped(h, paths) && Pruned(h, ROOT) && Agrees(h, paths, c)
    && HandlesOk(h, files, dirs)
  }

  // ---------- the walk of register_file as a function ----------

  datatype Walked = Walked(status: Status, nodes: Heap, parent: nat, allocs: nat, nextAddress: nat)

  /** From component `k` on, standing at `parent`. */
  function RegisterWalk(h: Heap, path: Path, k: nat, parent: nat, alloc: nat -> bool, allocs: nat, next: nat): Walked
    requires k < |path| && parent in h
    decreases |path| - k
  {
    match ChildIn(h, h[parent].children, path[k])
    case At(node) =>
      if k + 1 == |path| then Walked(if h[node].kind == File then EEXIST else EISDIR, h, parent, allocs, next)
      else if h[node].kind != Dir then Walked(ENOTDIR, h, parent, allocs, next)
      else RegisterWalk(h, path, k + 1, node, alloc, allocs, next)
    case Nowhere =>
      if !alloc(allocs) then Walked(ENOMEM, h, parent, allocs + 1, next)
      else if k + 1 == |path| then Walked(Ok, Add(h, parent, next, path[k], File), parent, allocs + 1, next + 1)
      else RegisterWalk(Add(h, parent, next, path[k], Dir), path, k + 1, next, alloc, allocs + 1, next + 1)
  }

  ghost predicate NamesFit(h: Heap, maxLen: nat) { forall n :: n in h ==> |h[n].name| < maxLen }

  lemma {:induction false} WalkFits(h: Heap, path: Path, k: nat, parent: nat, alloc: nat -> bool, allocs: nat,
                                    next: nat, maxLen: nat)
    requires k < |path| && parent in h && NamesFit(h, maxLen) && Fit(path, maxLen)
    ensures NamesFit(RegisterWalk(h, path, k, parent, alloc, allocs, next).nodes, maxLen)
    decreases |path| - k
  {
    var found := ChildIn(h, h[parent].children, path[k]);
    if found.At? {
      if k + 1 < |path| && h[found.node].kind == Dir {
        WalkFits(h, path, k + 1, found.node, alloc, allocs, next, maxLen);
      }
    } else if k + 1 < |path| {
      WalkFits(Add(h, parent, next, path[k], Dir), path, k + 1, next, alloc, allocs + 1, next + 1, maxLen);
    }
  }

  /** No node goes by another path than before. */
  ghost predicate SameNames(paths: Names, names: Names) {
    forall n :: n in paths && n in names ==> names[n] == paths[n]
  }

  /** What the walk must have achieved, given the tree and the map it started from. */
  ghost predicate Achieved(h0: Heap, paths0: Names, c: Catalog, files: map<nat, nat>, dirs: map<nat, nat>, path: Path,
                           alloc: nat -> bool, allocs: nat, r: Walked, names: Names) {
    && r.allocs >= allocs && 0 < r.nextAddress && (forall n :: n in r.nodes || n in h0 ==> n < r.nextAddress)
    && (r.status != Ok ==> r.parent in r.nodes && Rooted(r.nodes) && PruneFrom(r.nodes, r.parent) == h0)
    && (r.status == Ok ==>
          Sound(r.nodes, names, c.(files := c.files[path := 0]), files, dirs) && SameNames(paths0, names))
    && (if r.status == ENOMEM then RegisterStatus(c, path) == Ok && exists j :: allocs <= j < r.allocs && !alloc(j)
        else r.status == RegisterStatus(c, path))
  }

  lemma DescentFacts(h0: Heap, paths0: Names, h: Heap, paths: Names, path: Path, k: nat, parent: nat)
    requires Descending(h0, paths0, h, paths, path, k, parent)
    ensures k < |path| && parent in h && Rooted(h) && PruneFrom(h, parent) == h0 && parent in paths
    ensures h.Keys == paths.Keys && SameNames(paths0, paths) && paths0.Keys <= paths.Keys
    ensures forall name :: ChildIn(h, h[parent].children, name).At? ==> ChildIn(h, h[parent].children, name).node in h
  {
    ShapedIsRooted(h, paths);
  }

  lemma AchievedMet(h0: Heap, paths0: Names, h: Heap, paths: Names, c: Catalog, files: map<nat, nat>,
                    dirs: map<nat, nat>, path: Path, k: nat, parent: nat, node: nat, alloc: nat -> bool, allocs: nat,
                    next: nat)
    requires Descending(h0, paths0, h, paths, path, k, parent) && Sound(h0, paths0, c, files, dirs)
    requires ChildIn(h, h[parent].children, path[k]) == At(node)
    requires 0 < next && forall n :: n in h || n in h0 ==> n < next
    ensures h == h0 && paths == paths0 && Pruned(h, ROOT) && node in h
    ensures k + 1 == |path| ==>
              Achieved(h0, paths0, c, files, dirs, path, alloc, allocs,
                       Walked(if h[node].kind == File then EEXIST else EISDIR, h, parent, allocs, next), paths)
    ensures k + 1 < |path| && h[node].kind == File ==>
              Achieved(h0, paths0, c, files, dirs, path, alloc, allocs, Walked(ENOTDIR, h, parent, allocs, next), paths)
  {
    hide Shaped;
    hide Agrees;
    hide RegisterStatus;
    hide Walk;
    hide PruneFrom;
    hide HandlesOk;
    hide Undoable;
    hide NoFileUpTo;
    hide Rooted;
    DescentFacts(h0, paths0, h, paths, path, k, parent);
    MetOld(h0, paths0, h, paths, path, k, parent, node);
    ShapedKeys(h, paths);
    Met(h, paths, c, path, k, parent, node);
  }

  lemma ShapedKeys(h: Heap, paths: Names)
    requires Shaped(h, paths)
    ensures h.Keys == paths.Keys && ROOT in h
  {
  }

  lemma AchievedOutOfMemory(h0: Heap, paths0: Names, h: Heap, paths: Names, c: Catalog, files: map<nat, nat>,
                            dirs: map<nat, nat>, path: Path, k: nat, parent: nat, alloc: nat -> bool, allocs: nat,
                            next: nat)
    requires Descending(h0, paths0, h, paths, path, k, parent) && Sound(h0, paths0, c, files, dirs) && !alloc(allocs)
    requires ChildIn(h, h[parent].children, path[k]) == Nowhere
    requires 0 < next && forall n :: n in h || n in h0 ==> n < next
    ensures Achieved(h0, paths0, c, files, dirs, path, alloc, allocs,
                     Walked(ENOMEM, h, parent, allocs + 1, next), paths)
  {
    hide Descending;
    hide Sound;
    hide PruneFrom;
    hide Rooted;
    DescentFacts(h0, paths0, h, paths, path, k, parent);
    NothingInTheWay(h0, paths0, h, paths, c, files, dirs, path, k, parent);
    assert allocs <= allocs < allocs + 1 && !alloc(allocs);
  }

  /** Where a component is missing, the file could be registered. */
  lemma NothingInTheWay(h0: Heap, paths0: Names, h: Heap, paths: Names, c: Catalog, files: map<nat, nat>,
                        dirs: map<nat, nat>, path: Path, k: nat, parent: nat)
    requires Descending(h0, paths0, h, paths, path, k, parent) && Sound(h0, paths0, c, files, dirs)
    requires ChildIn(h, h[parent].children, path[k]) == Nowhere
    ensures RegisterStatus(c, path) == Ok
  {
    hide Shaped;
    hide Agrees;
    hide Pruned;
    hide Walk;
    hide HandlesOk;
    hide NoFileUpTo;
    hide Fresh;
    MissingFromStart(h0, paths0, h, paths, path, k, parent);
    NoFileAtAll(h0, path, k);
    FoundNothing(h0, paths0, c, path);
  }

  lemma AchievedDone(h0: Heap, paths0: Names, h: Heap, paths: Names, c: Catalog, files: map<nat, nat>,
                     dirs: map<nat, nat>, path: Path, k: nat, parent: nat, alloc: nat -> bool, allocs: nat, next: nat)
    requires Descending(h0, paths0, h, paths, path, k, parent) && Sound(h0, paths0, c, files, dirs) && k + 1 == |path|
    requires ChildIn(h, h[parent].children, path[k]) == Nowhere
    requires 0 < next && forall n :: n in h || n in h0 ==> n < next
    ensures Achieved(h0, paths0, c, files, dirs, path, alloc, allocs,
                     Walked(Ok, Add(h, parent, next, path[k], File), parent, allocs + 1, next + 1), paths[next := path])
  {
    hide PruneFrom;
    hide Rooted;
    hide Descending;
    hide Sound;
    DescentFacts(h0, paths0, h, paths, path, k, parent);
    RegisterDone(h0, paths0, h, paths, c, files, dirs, path, parent, next);
  }

  lemma AchievedLater(h0: Heap, paths0: Names, c: Catalog, files: map<nat, nat>, dirs: map<nat, nat>, path: Path,
                      alloc: nat -> bool, allocs: nat, r: Walked, names: Names)
    requires Achieved(h0, paths0, c, files, dirs, path, alloc, allocs + 1, r, names)
    ensures Achieved(h0, paths0, c, files, dirs, path, alloc, allocs, r, names)
  {
    hide Sound;
  }

  /** The walk stops at an existing node. */
  lemma WalkStops(h0: Heap, paths0: Names, h: Heap, paths: Names, c: Catalog, files: map<nat, nat>, dirs: map<nat, nat>,
                  path: Path, k: nat, parent: nat, node: nat, alloc: nat -> bool, allocs: nat, next: nat)
    requires Descending(h0, paths0, h, paths, path, k, parent) && Sound(h0, paths0, c, files, dirs)
    requires ChildIn(h, h[parent].children, path[k]) == At(node) && (k + 1 == |path| || h[node].kind == File)
    requires 0 < next && forall n :: n in h || n in h0 ==> n < next
    ensures Achieved(h0, paths0, c, files, dirs, path, alloc, allocs,
                     RegisterWalk(h, path, k, parent, alloc, allocs, next), paths)
  {
    hide Descending;
    hide Sound;
    hide Achieved;
    DescentFacts(h0, paths0, h, paths, path, k, parent);
    AchievedMet(h0, paths0, h, paths, c, files, dirs, path, k, parent, node, alloc, allocs, next);
    if k + 1 == |path| {
      assert RegisterWalk(h, path, k, parent, alloc, allocs, next) ==
             Walked(if h[node].kind == File then EEXIST else EISDIR, h, parent, allocs, next);
    } else {
      assert RegisterWalk(h, path, k, parent, alloc, allocs, next) == Walked(ENOTDIR, h, parent, allocs, next);
    }
  }

  /** The walk ends in a missing component: there is no memory for it, or it is the file. */
  lemma WalkEnds(h0: Heap, paths0: Names, h: Heap, paths: Names, c: Catalog, files: map<nat, nat>, dirs: map<nat, nat>,
                 path: Path, k: nat, parent: nat, alloc: nat -> bool, allocs: nat, next: nat)
    requires Descending(h0, paths0, h, paths, path, k, parent) && Sound(h0, paths0, c, files, dirs)
    requires ChildIn(h, h[parent].children, path[k]) == Nowhere && (!alloc(allocs) || k + 1 == |path|)
    requires 0 < next && forall n :: n in h || n in h0 ==> n < next
    ensures Achieved(h0, paths0, c, files, dirs, path, alloc, allocs,
                     RegisterWalk(h, path, k, parent, alloc, allocs, next),
                     if alloc(allocs) then paths[next := path] else paths)
  {
    hide Descending;
    hide Sound;
    hide Achieved;
    if !alloc(allocs) {
      AchievedOutOfMemory(h0, paths0, h, paths, c, files, dirs, path, k, parent, alloc, allocs, next);
    } else {
      AchievedDone(h0, paths0, h, paths, c, files, dirs, path, k, parent, alloc, allocs, next);
    }
  }

  /** The walk goes on in an existing directory. */
  lemma WalkEnters(h0: Heap, paths0: Names, h: Heap, paths: Names, c: Catalog, files: map<nat, nat>,
                   dirs: map<nat, nat>, path: Path, k: nat, parent: nat, node: nat, alloc: nat -> bool, allocs: nat,
                   next: nat)
    requires Descending(h0, paths0, h, paths, path, k, parent) && Sound(h0, paths0, c, files, dirs)
    requires ChildIn(h, h[parent].children, path[k]) == At(node) && node in h && k + 1 < |path| && h[node].kind == Dir
    requires 0 < next && forall n :: n in h || n in h0 ==> n < next
    ensures Descending(h0, paths0, h, paths, path, k + 1, node)
    ensures RegisterWalk(h, path, k, parent, alloc, allocs, next) ==
            RegisterWalk(h, path, k + 1, node, alloc, allocs, next)
  {
    hide Descending;
    hide Sound;
    hide Achieved;
    AchievedMet(h0, paths0, h, paths, c, files, dirs, path, k, parent, node, alloc, allocs, next);
    DescentEnters(h, paths, path, k, parent, node);
  }

  /** The walk goes on in a directory made for it. */
  lemma WalkMakes(h0: Heap, paths0: Names, h: Heap, paths: Names, path: Path, k: nat, parent: nat,
                  alloc: nat -> bool, allocs: nat, next: nat)
    requires Descending(h0, paths0, h, paths, path, k, parent) && parent in paths
    requires ChildIn(h, h[parent].children, path[k]) == Nowhere && alloc(allocs) && k + 1 < |path|
    requires 0 < next && forall n :: n in h || n in h0 ==> n < next
    ensures var made := Add(h, parent, next, path[k], Dir);
            && Descending(h0, paths0, made, paths[next := paths[parent] + [path[k]]], path, k + 1, next) && next in made
            && (forall n :: n in made ==> n < next + 1)
            && RegisterWalk(h, path, k, parent, alloc, allocs, next) ==
               RegisterWalk(made, path, k + 1, next, alloc, allocs + 1, next + 1)
  {
    hide Descending;
    hide Inserted;
    DescentFacts(h0, paths0, h, paths, path, k, parent);
    DescentMakes(h0, paths0, h, paths, path, k, parent, next);
  }

  lemma {:induction false} WalkAchieves(h0: Heap, paths0: Names, h: Heap, paths: Names, c: Catalog,
                                        files: map<nat, nat>, dirs: map<nat, nat>, path: Path, k: nat, parent: nat,
                                        alloc: nat -> bool, allocs: nat, next: nat) returns (names: Names)
    requires Descending(h0, paths0, h, paths, path, k, parent) && Sound(h0, paths0, c, files, dirs)
    requires 0 < next && forall n :: n in h || n in h0 ==> n < next
    ensures k < |path| && parent in h
    ensures Achieved(h0, paths0, c, files, dirs, path, alloc, allocs,
                     RegisterWalk(h, path, k, parent, alloc, allocs, next), names)
    decreases |path| - k
  {
    hide SameNames;
    hide Descending;
    hide Sound;
    hide Achieved;
    hide Rooted;
    hide PruneFrom;
    hide RegisterWalk;
    hide Add;
    DescentFacts(h0, paths0, h, paths, path, k, parent);
    var found := ChildIn(h, h[parent].children, path[k]);
    if found.At? {
      if k + 1 < |path| && h[found.node].kind == Dir {
        WalkEnters(h0, paths0, h, paths, c, files, dirs, path, k, parent, found.node, alloc, allocs, next);
        names := WalkAchieves(h0, paths0, h, paths, c, files, dirs, path, k + 1, found.node, alloc, allocs, next);
      } else {
        WalkStops(h0, paths0, h, paths, c, files, dirs, path, k, parent, found.node, alloc, allocs, next);
        names := paths;
      }
    } else if !alloc(allocs) || k + 1 == |path| {
      WalkEnds(h0, paths0, h, paths, c, files, dirs, path, k, parent, alloc, allocs, next);
      names := if alloc(allocs) then paths[next := path] else paths;
    } else {
      WalkMakes(h0, paths0, h, paths, path, k, parent, alloc, allocs, next);
      names := WalkAchieves(h0, paths0, Add(h, parent, next, path[k], Dir), paths[next := paths[parent] + [path[k]]],
                            c, files, dirs, path, k + 1, next, alloc, allocs + 1, next + 1);
      AchievedLater(h0, paths0, c, files, dirs, path, alloc, allocs,
                    RegisterWalk(h, path, k, parent, alloc, allocs, next), names);
    }
  }

  lemma Registering(h: Heap, paths: Names, c: Catalog, files: map<nat, nat>, dirs: map<nat, nat>, path: Path,
                    alloc: nat -> bool, allocs: nat, next: nat) returns (names: Names)
    requires Sound(h, paths, c, files, dirs) && path != [] && 0 < next && forall n :: n in h ==> n < next
    ensures ROOT in h
    ensures Achieved(h, paths, c, files, dirs, path, alloc, allocs,
                     RegisterWalk(h, path, 0, ROOT, alloc, allocs, next), names)
  {
    DescentStarts(h, paths, path);
    names := WalkAchieves(h, paths, h, paths, c, files, dirs, path, 0, ROOT, alloc, allocs, next);
  }

  // ---------- registering ----------

  /** `parent` is the directory reached after `k` components. */
  ghost predicate Standing(h: Heap, paths: Names, path: Path, k: nat, parent: nat) {
    && k < |path|
    && Shaped(h, paths) && Pruned(h, parent)
    && parent in h && h[parent].kind == Dir && paths[parent] == path[..k]
  }

  /** Pruning from `parent` would give back the tree as it was. */
  ghost predicate Undoable(h0: Heap, paths0: Names, h: Heap, paths: Names, parent: nat) {
    PruneFrom(h, parent) == h0 && NamesLeft(h, paths, parent) == paths0
  }

  /** Once a directory was made, everything from there on is new. */
  ghost predicate Fresh(h0: Heap, paths0: Names, h: Heap, paths: Names, path: Path, k: nat, parent: nat)
    requires k <= |path|
  {
    if h == h0 then paths == paths0
    else parent in h && h[parent].children == [] && Walk(h0, path[..k]) == Nowhere
  }

  ghost predicate NoFileUpTo(h0: Heap, path: Path, k: nat)
    requires k <= |path|
  {
    forall j :: 0 <= j <= k ==> !IsFileAt(h0, path[..j])
  }

  ghost predicate Descending(h0: Heap, paths0: Names, h: Heap, paths: Names, path: Path, k: nat, parent: nat) {
    && Standing(h, paths, path, k, parent)
    && Undoable(h0, paths0, h, paths, parent)
    && Fresh(h0, paths0, h, paths, path, k, parent)
    && NoFileUpTo(h0, path, k)
  }

  lemma DescentStarts(h: Heap, paths: Names, path: Path)
    requires Shaped(h, paths) && Pruned(h, ROOT) && path != []
    ensures Descending(h, paths, h, paths, path, 0, ROOT)
  {
    NotRemovable(h, paths, ROOT);
    assert path[..0] == [];
  }

  lemma StandingChild(h: Heap, paths: Names, path: Path, k: nat, parent: nat, node: nat)
    requires Standing(h, paths, path, k, parent) && Pruned(h, ROOT) && k + 1 < |path|
    requires ChildIn(h, h[parent].children, path[k]) == At(node) && h[node].kind == Dir
    ensures Standing(h, paths, path, k + 1, node) && Walk(h, path[..k + 1]) == At(node)
  {
    ChildPath(h, paths, parent, path[k]);
    OneLonger(path, k);
    WalkFinds(h, paths, node);
  }

  lemma OneLonger(path: Path, k: nat)
    requires k < |path|
    ensures path[..k] + [path[k]] == path[..k + 1] && path[..k + 1][..k] == path[..k]
  {
  }

  lemma NotRemovable(h: Heap, paths: Names, n: nat)
    requires Pruned(h, ROOT)
    ensures PruneFrom(h, n) == h && NamesLeft(h, paths, n) == paths
  {
  }

  lemma NoFileGrows(h0: Heap, path: Path, k: nat)
    requires k < |path| && NoFileUpTo(h0, path, k) && !IsFileAt(h0, path[..k + 1])
    ensures NoFileUpTo(h0, path, k + 1)
  {
    forall j | 0 <= j <= k + 1
      ensures !IsFileAt(h0, path[..j])
    {
    }
  }

  /** An existing directory is entered; nothing was made yet. */
  lemma DescentEnters(h: Heap, paths: Names, path: Path, k: nat, parent: nat, node: nat)
    requires Descending(h, paths, h, paths, path, k, parent) && Pruned(h, ROOT) && k + 1 < |path|
    requires ChildIn(h, h[parent].children, path[k]) == At(node) && h[node].kind == Dir
    ensures Descending(h, paths, h, paths, path, k + 1, node)
  {
    StandingChild(h, paths, path, k, parent, node);
    NotRemovable(h, paths, node);
    NoFileGrows(h, path, k);
  }

  lemma StandingMade(h: Heap, paths: Names, path: Path, k: nat, parent: nat, id: nat)
    requires Standing(h, paths, path, k, parent) && k + 1 < |path| && id !in h && id != ROOT
    requires ChildIn(h, h[parent].children, path[k]) == Nowhere
    ensures Standing(Add(h, parent, id, path[k], Dir), paths[id := paths[parent] + [path[k]]], path, k + 1, id)
  {
    AddKeepsShape(h, paths, parent, id, path[k], Dir);
    OneLonger(path, k);
    AddSpares(h, parent, id, path[k]);
    AddedNode(h, parent, id, path[k], Dir);
  }

  lemma AddedNode(h: Heap, p: nat, id: nat, name: string, kind: Kind)
    requires p in h && id !in h
    ensures id in Add(h, p, id, name, kind) && Add(h, p, id, name, kind)[id] == Node(name, kind, p, [], 0)
  {
  }

  lemma AddSpares(h: Heap, p: nat, id: nat, name: string)
    requires p in h && id !in h && Pruned(h, p)
    ensures Pruned(Add(h, p, id, name, Dir), id) && Pruned(Add(h, p, id, name, File), ROOT)
  {
    InsertedIndex(h, h[p].children, id, name, 0);
  }

  lemma NotAChildYet(h: Heap, paths: Names, p: nat, id: nat)
    requires Shaped(h, paths) && p in h && id !in h
    ensures id !in h[p].children && id !in paths
  {
    assert Ordered(h, p);
  }

  lemma UndoableMade(h0: Heap, paths0: Names, h: Heap, paths: Names, p: nat, id: nat, name: string)
    requires p in h && p in paths && id !in h && id != ROOT && id !in h[p].children && id !in paths
    requires Undoable(h0, paths0, h, paths, p)
    ensures Undoable(h0, paths0, Add(h, p, id, name, Dir), paths[id := paths[p] + [name]], id)
  {
    var t, names := Add(h, p, id, name, Dir), paths[id := paths[p] + [name]];
    AddThenPrune(h, p, id, name);
    WithoutInserted(h, h[p].children, id, name);
    assert Removable(t, id);
    assert Unlink(t, id) == h && names - {id} == paths;
  }

  /** What find_child misses was not in the tree to begin with. */
  lemma MissingFromStart(h0: Heap, paths0: Names, h: Heap, paths: Names, path: Path, k: nat, parent: nat)
    requires Standing(h, paths, path, k, parent) && Fresh(h0, paths0, h, paths, path, k, parent)
    requires ChildIn(h, h[parent].children, path[k]) == Nowhere
    ensures Walk(h0, path[..k + 1]) == Nowhere
  {
    OneLonger(path, k);
    WalkFinds(h, paths, parent);
  }

  lemma NothingFurther(h0: Heap, path: Path, k: nat, j: nat)
    requires k <= j <= |path| && Walk(h0, path[..k]) == Nowhere
    ensures Walk(h0, path[..j]) == Nowhere
  {
    assert path[..j][..k] == path[..k];
    NowhereBelow(h0, path[..j], k);
  }

  lemma NoFileAtAll(h0: Heap, path: Path, k: nat)
    requires k < |path| && NoFileUpTo(h0, path, k) && Walk(h0, path[..k + 1]) == Nowhere
    ensures NoFileUpTo(h0, path, |path|) && Walk(h0, path) == Nowhere
  {
    forall j | k < j <= |path|
      ensures !IsFileAt(h0, path[..j])
    {
      NothingFurther(h0, path, k + 1, j);
    }
    NothingFurther(h0, path, k + 1, |path|);
    assert path[..|path|] == path;
  }

  /** A directory is made. */
  lemma DescentMakes(h0: Heap, paths0: Names, h: Heap, paths: Names, path: Path, k: nat, parent: nat, id: nat)
    requires Descending(h0, paths0, h, paths, path, k, parent) && k + 1 < |path| && id !in h && id != ROOT && id !in h0
    requires ChildIn(h, h[parent].children, path[k]) == Nowhere
    ensures Descending(h0, paths0, Add(h, parent, id, path[k], Dir), paths[id := paths[parent] + [path[k]]],
                       path, k + 1, id)
  {
    MissingFromStart(h0, paths0, h, paths, path, k, parent);
    StandingMade(h, paths, path, k, parent, id);
    NotAChildYet(h, paths, parent, id);
    UndoableMade(h0, paths0, h, paths, parent, id, path[k]);
    NoFileGrows(h0, path, k);
    assert id in Add(h, parent, id, path[k], Dir);
  }

  // ---------- what register_file reports ----------

  /** A component that exists: nothing was made yet. */
  lemma MetOld(h0: Heap, paths0: Names, h: Heap, paths: Names, path: Path, k: nat, parent: nat, node: nat)
    requires k <= |path| && Fresh(h0, paths0, h, paths, path, k, parent) && parent in h
    requires node in h[parent].children
    ensures h == h0 && paths == paths0
  {
    hide Walk;
  }

  /** What a component that exists means follows from its kind. */
  lemma Met(h: Heap, paths: Names, c: Catalog, path: Path, k: nat, parent: nat, node: nat)
    requires Shaped(h, paths) && Pruned(h, ROOT) && Agrees(h, paths, c) && k < |path|
    requires parent in h && paths[parent] == path[..k]
    requires ChildIn(h, h[parent].children, path[k]) == At(node) && node in h
    ensures k + 1 == |path| ==> RegisterStatus(c, path) == if h[node].kind == File then EEXIST else EISDIR
    ensures k + 1 < |path| && h[node].kind == File ==> RegisterStatus(c, path) == ENOTDIR
  {
    hide Shaped;
    hide Agrees;
    hide RegisterStatus;
    WalkFinds(h, paths, parent);
    WalkOn(h, path, k);
    if k + 1 == |path| {
      assert path[..k + 1] == path;
      FoundLast(h, paths, c, path, node);
    } else if h[node].kind == File {
      FoundFileAbove(h, paths, c, path, k + 1);
    }
  }

  lemma FoundLast(h: Heap, paths: Names, c: Catalog, path: Path, node: nat)
    requires Shaped(h, paths) && Pruned(h, ROOT) && Agrees(h, paths, c) && Walk(h, path) == At(node) && node in h
    ensures RegisterStatus(c, path) == if h[node].kind == File then EEXIST else EISDIR
  {
    DirsAreImplied(h, paths, c, path);
    FilesAreListed(h, paths, c, path);
  }

  lemma FoundFileAbove(h: Heap, paths: Names, c: Catalog, path: Path, k: nat)
    requires Shaped(h, paths) && Pruned(h, ROOT) && Agrees(h, paths, c) && k < |path| && IsFileAt(h, path[..k])
    ensures RegisterStatus(c, path) == ENOTDIR
  {
    FilesAreListed(h, paths, c, path[..k]);
    assert path[..k] in c.files && path[..k] < path;
    FileHasNothingBelow(h, paths, path, k);
    DirsAreImplied(h, paths, c, path);
    FilesAreListed(h, paths, c, path);
  }

  lemma FoundNothing(h: Heap, paths: Names, c: Catalog, path: Path)
    requires Shaped(h, paths) && Pruned(h, ROOT) && Agrees(h, paths, c)
    requires Walk(h, path) == Nowhere && NoFileUpTo(h, path, |path|)
    ensures RegisterStatus(c, path) == Ok
  {
    DirsAreImplied(h, paths, c, path);
    FilesAreListed(h, paths, c, path);
    NoFileAbove(h, paths, c, path);
  }

  lemma NoFileAbove(h: Heap, paths: Names, c: Catalog, path: Path)
    requires Shaped(h, paths) && Agrees(h, paths, c) && NoFileUpTo(h, path, |path|)
    ensures !BelowFile(c, path)
  {
    forall f | f in c.files
      ensures !(f < path)
    {
      if f < path {
        assert path[..|f|] == f;
      }
      FilesAreListed(h, paths, c, f);
    }
  }

  lemma Registered(h0: Heap, paths0: Names, h: Heap, paths: Names, c: Catalog, path: Path, parent: nat, id: nat)
    requires path != [] && Descending(h0, paths0, h, paths, path, |path| - 1, parent)
    requires Shaped(h0, paths0) && Agrees(h0, paths0, c) && id !in h && id != ROOT
    requires ChildIn(h, h[parent].children, path[|path| - 1]) == Nowhere
    ensures var t, names := Add(h, parent, id, path[|path| - 1], File), paths[id := path];
            Shaped(t, names) && Pruned(t, ROOT) && Agrees(t, names, c.(files := c.files[path := 0]))
  {
    var name := path[|path| - 1];
    OneLonger(path, |path| - 1);
    assert path[..|path|] == path;
    PruneRestores(h, paths, parent);
    AgreesTrimmed(h, paths, h0, paths0, c);
    AddKeepsShape(h, paths, parent, id, name, File);
    AddSpares(h, parent, id, name);
    AgreesAdded(h, paths, parent, id, name, c);
  }

  lemma HandlesAfterAdd(h0: Heap, h: Heap, p: nat, id: nat, name: string, files: map<nat, nat>, dirs: map<nat, nat>)
    requires HandlesOk(h0, files, dirs) && Trimmed(h, h0) && p in h && id !in h
    ensures HandlesOk(Add(h, p, id, name, File), files, dirs)
  {
    HandlesGrow(h0, h, files, dirs);
    HandlesGrow(h, Add(h, p, id, name, File), files, dirs);
  }

  lemma RegisterDone(h0: Heap, paths0: Names, h: Heap, paths: Names, c: Catalog, files: map<nat, nat>,
                     dirs: map<nat, nat>, path: Path, parent: nat, id: nat)
    requires path != [] && Descending(h0, paths0, h, paths, path, |path| - 1, parent)
    requires Sound(h0, paths0, c, files, dirs) && id !in h && id != ROOT
    requires ChildIn(h, h[parent].children, path[|path| - 1]) == Nowhere
    ensures RegisterStatus(c, path) == Ok
    ensures Sound(Add(h, parent, id, path[|path| - 1], File), paths[id := path],
                  c.(files := c.files[path := 0]), files, dirs)
  {
    var k := |path| - 1;
    MissingFromStart(h0, paths0, h, paths, path, k, parent);
    NoFileAtAll(h0, path, k);
    FoundNothing(h0, paths0, c, path);
    PruneRestores(h, paths, parent);
    HandlesAfterAdd(h0, h, parent, id, path[k], files, dirs);
    Registered(h0, paths0, h, paths, c, path, parent, id);
  }

  // ---------- removing and handles ----------

  function OpenFileStatus(m: Meaning): Status {
    if m.Missing? then ENOENT else if m.MeansDir? then EISDIR else Ok
  }

  function OpenDirStatus(m: Meaning): Status {
    if m.Missing? then ENOENT else if m.MeansFile? then ENOTDIR else Ok
  }

  function UnregisterStatus(m: Meaning): Status {
    if m.Missing? then ENOENT else if m.MeansDir? then EISDIR else if m.opens != 0 then EBUSY else Ok
  }

  function DirOpens(c: Catalog, p: Path): nat {
    if p in c.dirs then c.dirs[p] else 0
  }

  /** The last step of every removal: prune upwards from `n`. */
  lemma SoundPruned(h: Heap, paths: Names, c: Catalog, files: map<nat, nat>, dirs: map<nat, nat>, n: nat)
    requires Shaped(h, paths) && n in h && Pruned(h, n) && Agrees(h, paths, c) && HandlesOk(h, files, dirs)
    ensures Sound(PruneFrom(h, n), NamesLeft(h, paths, n), c, files, dirs) && Rooted(h)
    ensures forall m :: m in PruneFrom(h, n) ==> m in h && PruneFrom(h, n)[m].name == h[m].name
  {
    hide Agrees;
    hide Pruned;
    hide HandlesOk;
    hide PruneFrom;
    ShapedIsRooted(h, paths);
    PruneRestores(h, paths, n);
    AgreesTrimmed(h, paths, PruneFrom(h, n), NamesLeft(h, paths, n), c);
    HandlesShrink(h, PruneFrom(h, n), files, dirs);
  }

  lemma SoundUnregistered(h: Heap, paths: Names, c: Catalog, files: map<nat, nat>, dirs: map<nat, nat>, n: nat)
    requires Sound(h, paths, c, files, dirs) && n in h && h[n].kind == File && h[n].openCount == 0
    ensures n in paths && h[n].parent in h && h[n].parent != n && h[n].parent in Unlink(h, n) && Rooted(Unlink(h, n))
    ensures var t := Unlink(h, n);
            && Sound(PruneFrom(t, h[n].parent), NamesLeft(t, paths - {n}, h[n].parent),
                     c.(files := c.files - {paths[n]}), files, dirs)
            && forall m :: m in PruneFrom(t, h[n].parent) ==> m in h && PruneFrom(t, h[n].parent)[m].name == h[m].name
  {
    var t := UnlinkedFile(h, paths, c, files, dirs, n);
    SoundPruned(t, paths - {n}, c.(files := c.files - {paths[n]}), files, dirs, h[n].parent);
  }

  lemma FileIsLeaf(h: Heap, paths: Names, n: nat)
    requires Shaped(h, paths) && n in h && h[n].kind == File
    ensures n in paths && h[n].children == [] && n != ROOT
  {
    assert Ordered(h, n);
  }

  lemma UnlinkFileSpares(h: Heap, n: nat)
    requires Pruned(h, ROOT) && n in h && h[n].parent in h && h[n].parent != n && h[n].kind == File
    ensures Pruned(Unlink(h, n), h[n].parent)
  {
  }

  lemma UnlinkedFile(h: Heap, paths: Names, c: Catalog, files: map<nat, nat>, dirs: map<nat, nat>, n: nat)
    returns (t: Heap)
    requires Sound(h, paths, c, files, dirs) && n in h && h[n].kind == File && h[n].openCount == 0
    ensures n in paths && h[n].parent in h && h[n].parent != n && t == Unlink(h, n) && h[n].parent in t
    ensures Shaped(t, paths - {n}) && Pruned(t, h[n].parent) && HandlesOk(t, files, dirs)
    ensures Agrees(t, paths - {n}, c.(files := c.files - {paths[n]}))
  {
    hide Agrees;
    hide HandlesOk;
    hide Shaped;
    hide Pruned;
    FileIsLeaf(h, paths, n);
    UnlinkKeepsShape(h, paths, n);
    AgreesUnlinked(h, paths, n, c);
    UnlinkFileSpares(h, n);
    t := Unlink(h, n);
    HandlesShrink(h, t, files, dirs);
  }

  lemma SoundFileOpened(h: Heap, paths: Names, c: Catalog, files: map<nat, nat>, dirs: map<nat, nat>, x: nat, n: nat)
    requires Sound(h, paths, c, files, dirs) && x !in files && n in h && h[n].kind == File
    ensures n in paths
    ensures var k := Up(h[n].openCount);
            && (Sound(SetCount(h, n, k), paths, CountFile(c, paths[n], k), files[x := n], dirs)
                <==> h[n].openCount < 65535)
  {
    hide Agrees;
    hide HandlesOk;
    hide Shaped;
    hide Pruned;
    hide SetCount;
    ShapedKeys(h, paths);
    var k := Up(h[n].openCount);
    CountKeepsShape(h, paths, n, k);
    CountSpares(h, n, k);
    OthersElsewhere(h, paths, n);
    FileCounted(h, paths, n, k, c);
    FileOpened(h, files, dirs, x, n);
  }

  lemma FilesAreFiles(h: Heap, files: map<nat, nat>, dirs: map<nat, nat>, x: nat)
    requires HandlesOk(h, files, dirs) && x in files
    ensures files[x] in h && h[files[x]].kind == File
  {
  }

  lemma DirsAreDirs(h: Heap, files: map<nat, nat>, dirs: map<nat, nat>, x: nat)
    requires HandlesOk(h, files, dirs) && x in dirs
    ensures dirs[x] in h && h[dirs[x]].kind == Dir
  {
  }

  lemma CountedNodes(h: Heap, n: nat, k: nat)
    requires n in h
    ensures var t := SetCount(h, n, k); forall m :: m in t <==> m in h
    ensures var t := SetCount(h, n, k); forall m :: m in t ==> t[m].name == h[m].name
  {
  }

  lemma FileEntry(h: Heap, paths: Names, c: Catalog, files: map<nat, nat>, dirs: map<nat, nat>, x: nat)
    requires Sound(h, paths, c, files, dirs) && x in files
    ensures var n := files[x]; n in h && n in paths && paths[n] in c.files && c.files[paths[n]] == h[n].openCount
  {
    assert Holds(h, paths, paths[files[x]], files[x], File);
  }

  lemma FileCounts(h: Heap, paths: Names, c: Catalog, files: map<nat, nat>, dirs: map<nat, nat>, x: nat)
    requires Sound(h, paths, c, files, dirs) && x in files
    ensures files[x] in paths && paths[files[x]] in c.files && c.files[paths[files[x]]] > 0
  {
    hide Sound;
    FileEntry(h, paths, c, files, dirs, x);
    SoundFileReleased(h, paths, c, files, dirs, x);
  }

  /** Counting an open and taking it back at once, also across the wrap of the counter, changes nothing. */
  lemma CountUndone(h: Heap, paths: Names, c: Catalog, files: map<nat, nat>, dirs: map<nat, nat>, x: nat, n: nat)
    requires Sound(h, paths, c, files, dirs) && x !in files && n in h && h[n].kind == File
    ensures n in paths
    ensures var k := Up(h[n].openCount);
            && Down(k) == h[n].openCount && SetCount(SetCount(h, n, k), n, Down(k)) == h
            && CountFile(CountFile(c, paths[n], k), paths[n], Down(k)) == c
            && files[x := n] - {x} == files
  {
    hide Sound;
    NodeEntry(h, paths, c, files, dirs, n);
    SameAgain(h, n, h[n].(openCount := Up(h[n].openCount)));
    SameAgain(c.files, paths[n], Up(h[n].openCount));
    assert files[x := n] - {x} == files;
  }

  lemma SameAgain<K, V>(m: map<K, V>, k: K, v: V)
    requires k in m
    ensures m[k := v][k := m[k]] == m
  {
  }

  lemma NodeEntry(h: Heap, paths: Names, c: Catalog, files: map<nat, nat>, dirs: map<nat, nat>, n: nat)
    requires Sound(h, paths, c, files, dirs) && n in h && h[n].kind == File
    ensures n in paths && paths[n] in c.files && c.files[paths[n]] == h[n].openCount < 65536
  {
    hide HandlesOf;
    hide Pruned;
    hide DirAgrees;
    ShapedKeys(h, paths);
    assert Holds(h, paths, paths[n], n, File);
  }

  lemma SoundFileReleased(h: Heap, paths: Names, c: Catalog, files: map<nat, nat>, dirs: map<nat, nat>, x: nat)
    requires Sound(h, paths, c, files, dirs) && x in files
    ensures files[x] in h && files[x] in paths && h[files[x]].openCount > 0
    ensures var n, k := files[x], h[files[x]].openCount - 1;
            && Down(h[n].openCount) == k
            && Sound(SetCount(h, n, k), paths, CountFile(c, paths[n], k), files - {x}, dirs)
  {
    hide Agrees;
    hide HandlesOk;
    hide Shaped;
    hide Pruned;
    hide SetCount;
    ShapedKeys(h, paths);
    FileClosed(h, files, dirs, x);
    var n := files[x];
    var k := h[n].openCount - 1;
    CountSpares(h, n, k);
    FilesAreFiles(h, files, dirs, x);
    CountKeepsShape(h, paths, n, k);
    OthersElsewhere(h, paths, n);
    FileCounted(h, paths, n, k, c);
  }

  lemma SoundDirOpened(h: Heap, paths: Names, c: Catalog, files: map<nat, nat>, dirs: map<nat, nat>, x: nat, n: nat)
    requires Sound(h, paths, c, files, dirs) && x !in dirs && n in h && h[n].kind == Dir
    ensures n in paths && DirOpens(c, paths[n]) == h[n].openCount
    ensures var k := Up(h[n].openCount);
            && (Sound(SetCount(h, n, k), paths, CountDir(c, paths[n], k), files, dirs[x := n])
                <==> h[n].openCount < 65535)
  {
    hide Agrees;
    hide HandlesOk;
    hide Shaped;
    hide Pruned;
    hide SetCount;
    ShapedKeys(h, paths);
    var k := Up(h[n].openCount);
    OthersElsewhere(h, paths, n);
    AgreesOpens(h, paths, c, n);
    CountKeepsShape(h, paths, n, k);
    CountSpares(h, n, k);
    DirCounted(h, paths, n, k, c);
    DirOpened(h, files, dirs, x, n);
  }

  lemma OpensOf(h: Heap, paths: Names, c: Catalog, n: nat)
    requires h.Keys == paths.Keys && n in h && h[n].kind == Dir && DirAgrees(h, paths, c)
    requires forall m :: m in h && m != n ==> paths[m] != paths[n]
    ensures DirOpens(c, paths[n]) == h[n].openCount
  {
    if h[n].openCount > 0 {
      assert Holds(h, paths, paths[n], n, Dir);
    }
  }

  lemma SoundDirClosed(h: Heap, paths: Names, c: Catalog, files: map<nat, nat>, dirs: map<nat, nat>, x: nat)
    requires Sound(h, paths, c, files, dirs) && x in dirs
    ensures dirs[x] in h && dirs[x] in paths && h[dirs[x]].openCount > 0
    ensures DirOpens(c, paths[dirs[x]]) == h[dirs[x]].openCount
    ensures var n, k := dirs[x], h[dirs[x]].openCount - 1;
            var t := SetCount(h, n, k);
            && Down(h[n].openCount) == k && Rooted(t)
            && Sound(PruneFrom(t, n), NamesLeft(t, paths, n), CountDir(c, paths[n], k), files, dirs - {x})
            && forall m :: m in PruneFrom(t, n) ==> m in h && PruneFrom(t, n)[m].name == h[m].name
  {
    hide Agrees;
    hide HandlesOk;
    hide Shaped;
    hide Pruned;
    hide SetCount;
    ShapedKeys(h, paths);
    hide PruneFrom;
    DirClosed(h, files, dirs, x);
    var n := dirs[x];
    var k := h[n].openCount - 1;
    CountSpares(h, n, k);
    DirsAreDirs(h, files, dirs, x);
    CountedNodes(h, n, k);
    OthersElsewhere(h, paths, n);
    AgreesOpens(h, paths, c, n);
    CountKeepsShape(h, paths, n, k);
    DirCounted(h, paths, n, k, c);
    SoundPruned(SetCount(h, n, k), paths, CountDir(c, paths[n], k), files, dirs - {x}, n);
  }

  lemma AgreesOpens(h: Heap, paths: Names, c: Catalog, n: nat)
    requires h.Keys == paths.Keys && n in h && h[n].kind == Dir && Agrees(h, paths, c)
    requires forall m :: m in h && m != n ==> paths[m] != paths[n]
    ensures DirOpens(c, paths[n]) == h[n].openCount
  {
    OpensOf(h, paths, c, n);
  }

  function ChildNames(h: Heap, cs: seq<nat>): (r: seq<string>)
    requires forall c :: c in cs ==> c in h
    ensures |r| == |cs| && forall i :: 0 <= i < |r| ==> r[i] == h[cs[i]].name
  {
    seq(|cs|, i requires 0 <= i < |cs| => assert cs[i] in cs; h[cs[i]].name)
  }

  /** The children of an open directory, in order, under its path. */
  lemma OpenDirFacts(h: Heap, paths: Names, c: Catalog, files: map<nat, nat>, dirs: map<nat, nat>, x: nat)
    requires Sound(h, paths, c, files, dirs) && x in dirs
    ensures dirs[x] in h && dirs[x] in paths
    ensures var cs := h[dirs[x]].children;
            && (forall n :: n in cs ==> n in h && n in paths && paths[n] == paths[dirs[x]] + [h[n].name])
            && Sorted(ChildNames(h, cs))
  {
    hide Agrees;
    var cs := h[dirs[x]].children;
    assert Ordered(h, dirs[x]);
    forall n | n in cs
      ensures n in h && n in paths && paths[n] == paths[dirs[x]] + [h[n].name]
    {
      assert Hangs(h, paths, n);
    }
  }

  lemma SoundFacts(h: Heap, paths: Names, c: Catalog, files: map<nat, nat>, dirs: map<nat, nat>)
    requires Sound(h, paths, c, files, dirs)
    ensures ROOT in h && h[ROOT].kind == Dir && AllOrdered(h) && Rooted(h)
    ensures forall x :: x in files ==> files[x] in h && h[files[x]].kind == File
    ensures forall x :: x in dirs ==> dirs[x] in h && h[dirs[x]].kind == Dir
  {
    ShapedIsRooted(h, paths);
  }

  lemma OrderedAt(h: Heap, n: nat)
    requires AllOrdered(h) && n in h
    ensures Ordered(h, n) && forall i :: 0 <= i < |h[n].children| ==> h[n].children[i] in h
  {
  }

  /** find_node on the tree. */
  function Reached(h: Heap, path: Path, trailing: bool): Maybe {
    var r := Walk(h, path);
    if trailing && path != [] && r.At? && r.node in h && h[r.node].kind != Dir then Nowhere else r
  }

  /** The node found is the one the plain map means. */
  ghost predicate Finds(h: Heap, paths: Names, r: Maybe, m: Meaning) {
    match m
    case Missing => r == Nowhere
    case MeansDir(p) => r.At? && r.node in h && r.node in paths && h[r.node].kind == Dir && paths[r.node] == p
    case MeansFile(p, opens) =>
      && r.At? && r.node in h && r.node in paths && h[r.node].kind == File && paths[r.node] == p
      && h[r.node].openCount == opens
  }

  /** Lookup in the tree is lookup in the plain map. */
  lemma ReachedMeans(h: Heap, paths: Names, c: Catalog, path: Path, trailing: bool)
    requires Shaped(h, paths) && Pruned(h, ROOT) && Agrees(h, paths, c)
    ensures Finds(h, paths, Reached(h, path, trailing), Resolve(c, Parsed(path, trailing)))
  {
    DirsAreImplied(h, paths, c, path);
    FilesAreListed(h, paths, c, path);
    if Walk(h, path).At? {
      WalkSound(h, paths, path);
    }
  }

  /** Every node but the root is in the list of its parent. */
  ghost predicate Rooted(h: Heap) {
    forall n :: n in h && n != ROOT ==> h[n].parent in h && h[n].parent != n && n in h[h[n].parent].children
  }

  lemma ShapedIsRooted(h: Heap, paths: Names)
    requires Shaped(h, paths)
    ensures Rooted(h)
  {
    forall n | n in h && n != ROOT
      ensures h[n].parent in h && h[n].parent != n && n in h[h[n].parent].children
    {
      ParentDiffers(h, paths, n);
      assert Hangs(h, paths, n);
    }
  }

  lemma RootedUnlink(h: Heap, n: nat)
    requires Rooted(h) && n in h && n != ROOT && h[n].children == []
    ensures h[n].parent in h && h[n].parent != n && Rooted(Unlink(h, n))
  {
    var t := Unlink(h, n);
    forall m | m in t && m != ROOT
      ensures t[m].parent in t && t[m].parent != m && m in t[t[m].parent].children
    {
      WithoutMember(h[h[n].parent].children, n, m);
    }
  }

  lemma RootedStep(h: Heap, n: nat)
    requires Rooted(h) && n in h && n != ROOT && h[n].kind == Dir && h[n].children == [] && h[n].openCount == 0
    ensures h[n].parent in h && h[n].parent != n
    ensures Rooted(Unlink(h, n)) && |Unlink(h, n)| < |h| && h[n].parent in Unlink(h, n)
    ensures PruneFrom(h, n) == PruneFrom(Unlink(h, n), h[n].parent)
  {
    RootedUnlink(h, n);
    UnlinkShrinks(h, n);
    assert Removable(h, n);
  }

  lemma WalkOn(h: Heap, path: Path, k: nat)
    requires k < |path| && Walk(h, path[..k]).At? && Walk(h, path[..k]).node in h
    ensures Walk(h, path[..k + 1]) == ChildIn(h, h[Walk(h, path[..k]).node].children, path[k])
  {
    assert path[..k + 1][..k] == path[..k];
  }

  lemma {:induction false} NoneBeyond(h: Heap, cs: seq<nat>, i: nat, name: string)
    requires i < |cs| && forall c :: c in cs ==> c in h
    requires forall i, j :: 0 <= i < j < |cs| ==> Less(h[cs[i]].name, h[cs[j]].name)
    requires Less(name, h[cs[i]].name)
    ensures ChildIn(h, cs[i..], name) == Nowhere
    decreases |cs| - i
  {
    LessAsym(name, h[cs[i]].name);
    assert cs[i..][1..] == cs[i + 1..];
    if i + 1 < |cs| {
      LessTrans(name, h[cs[i]].name, h[cs[i + 1]].name);
      NoneBeyond(h, cs, i + 1, name);
    }
  }

  lemma {:induction false} NowhereBelow(h: Heap, path: Path, k: nat)
    requires k <= |path| && Walk(h, path[..k]) == Nowhere
    ensures Walk(h, path) == Nowhere
    decreases |path|
  {
    if k < |path| {
      var n := |path| - 1;
      assert path[..n][..k] == path[..k];
      NowhereBelow(h, path[..n], k);
    } else {
      assert path[..k] == path;
    }
  }

  lemma FileHasNothingBelow(h: Heap, paths: Names, path: Path, k: nat)
    requires Shaped(h, paths) && k <= |path| && IsFileAt(h, path[..k])
    ensures k < |path| ==> Walk(h, path) == Nowhere
    ensures k == |path| ==> IsFileAt(h, path)
  {
    if k < |path| {
      assert Ordered(h, Walk(h, path[..k]).node);
      WalkOn(h, path, k);
      NowhereBelow(h, path, k + 1);
    } else {
      assert path[..k] == path;
    }
  }
}
