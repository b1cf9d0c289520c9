/**
 The file system of lib/devfs/devfs.c in its own form: nodes inserted, unlinked and freed in place,
 loops along child lists and path components, handles that count on their nodes. Every operation is
 specified on a plain map of files and open directories; the tree is proved to agree with it.
 */
module Devfs {
  import opened DevfsListing
  import opened DevfsOps
  import opened DevfsPath
  import opened DevfsTree
  import opened Errno

  class Devfs {
    const maxLen: nat
    const entryLen: nat
    const alloc: nat -> bool
    var allocs: nat
    var nodes: Heap
    var nextAddress: nat
    var files: map<nat, nat>
    var dirs: map<nat, nat>
    var cursors: map<nat, DirHandle>
    var nextHandle: nat
    ghost var paths: Names
    ghost var catalog: Catalog

    ghost predicate Valid()
      reads this
    {
      Sound(nodes, paths, catalog, files, dirs) && Named()
    }

    /** Addresses and handles are fresh when they are given out. */
    ghost predicate Named()
      reads this
    {
      && 0 < nextAddress && (forall n :: n in nodes ==> n < nextAddress) && NamesFit(nodes, maxLen)
      && (forall x :: x in files || x in dirs ==> x < nextHandle)
      && dirs.Keys == cursors.Keys
    }

    constructor (maxLen: nat, entryLen: nat, alloc: nat -> bool)
      requires 0 < maxLen
      ensures Valid() && catalog == Catalog(map[], map[]) && this.maxLen == maxLen && this.alloc == alloc
    {
      this.maxLen, this.entryLen, this.alloc, allocs := maxLen, entryLen, alloc, 0;
      nodes, nextAddress := map[ROOT := Node("", Dir, ROOT, [], 0)], 1;
      files, dirs, cursors, nextHandle := map[], map[], map[], 0;
      paths, catalog := map[ROOT := []], Catalog(map[], map[]);
    }

    /** find_child: the search may stop early because the list is ordered. */
    method FindChild(parent: nat, name: string) returns (r: Maybe)
      requires parent in nodes && Ordered(nodes, parent)
      ensures r == ChildIn(nodes, nodes[parent].children, name)
    {
      var cs := nodes[parent].children;
      var i := 0;
      assert cs[0..] == cs;
      while i < |cs|
        invariant 0 <= i <= |cs|
        invariant ChildIn(nodes, cs[i..], name) == ChildIn(nodes, cs, name)
      {
        var child := nodes[cs[i]];
        var cmp := Compare(child.name, name);
        CompareDecides(child.name, name);
        assert cs[i..][1..] == cs[i + 1..];
        if cmp == 0 && |child.name| == |name| {
          return At(cs[i]);
        }
        if cmp > 0 || cmp == 0 {
          NoneBeyond(nodes, cs, i, name);
          return Nowhere;
        }
        i := i + 1;
      }
      return Nowhere;
    }

    /** insert_child */
    method InsertChild(parent: nat, id: nat, node: Node)
      requires parent in nodes && id !in nodes && node.children == [] && node.openCount == 0 && node.parent == parent
      requires forall i :: 0 <= i < |nodes[parent].children| ==> nodes[parent].children[i] in nodes
      modifies this`nodes
      ensures nodes == Add(old(nodes), parent, id, node.name, node.kind)
    {
      var cs := nodes[parent].children;
      var i := 0;
      assert cs[0..] == cs;
      while i < |cs| && !Less(node.name, nodes[cs[i]].name)
        invariant 0 <= i <= |cs|
        invariant i + InsertAt(nodes, cs[i..], node.name) == InsertAt(nodes, cs, node.name)
      {
        assert cs[i..][1..] == cs[i + 1..];
        i := i + 1;
      }
      nodes := nodes[id := node][parent := nodes[parent].(children := cs[..i] + [id] + cs[i..])];
    }

    /** prune_empty_dirs */
    method PruneEmptyDirs(start: nat, ghost goal: Heap)
      requires Rooted(nodes) && start in nodes && goal == PruneFrom(nodes, start)
      modifies this`nodes
      ensures nodes == goal
    {
      var n := start;
      while n != ROOT && nodes[n].kind == Dir && nodes[n].children == [] && nodes[n].openCount == 0
        invariant Rooted(nodes) && n in nodes && goal == PruneFrom(nodes, n)
        decreases |nodes|
      {
        RootedStep(nodes, n);
        var parent := nodes[n].parent;
        nodes := Unlink(nodes, n);
        n := parent;
      }
    }

    /** The loop of find_node; a component followed by a slash must be a directory. */
    method FollowPath(path: Path, trailing: bool) returns (r: Maybe)
      requires Shaped(nodes, paths)
      ensures r == Reached(nodes, path, trailing)
    {
      var node := ROOT;
      var k := 0;
      assert path[..0] == [];
      while k < |path|
        invariant 0 <= k <= |path|
        invariant node in nodes && Walk(nodes, path[..k]) == At(node)
        invariant trailing && 0 < k ==> nodes[node].kind == Dir
      {
        assert Ordered(nodes, node);
        r := FindChild(node, path[k]);
        WalkOn(nodes, path, k);
        if r.Nowhere? {
          NowhereBelow(nodes, path, k + 1);
          return Nowhere;
        }
        if (k + 1 < |path| || trailing) && nodes[r.node].kind != Dir {
          FileHasNothingBelow(nodes, paths, path, k + 1);
          return Nowhere;
        }
        node := r.node;
        k := k + 1;
      }
      assert path[..|path|] == path;
      return At(node);
    }

    /** find_node */
    method FindNode(text: string) returns (r: Maybe)
      requires Valid()
      ensures Finds(nodes, paths, r, Resolve(catalog, ParsePath(text, true, maxLen)))
    {
      var parse := ValidatePath(text, true, maxLen);
      if parse.Bad? {
        return Nowhere;
      }
      ReachedMeans(nodes, paths, catalog, parse.path, parse.trailing);
      r := FollowPath(parse.path, parse.trailing);
    }

    ghost predicate SameHandles(files0: map<nat, nat>, dirs0: map<nat, nat>, cursors0: map<nat, DirHandle>)
      reads this
    {
      files == files0 && dirs == dirs0 && cursors == cursors0
    }

    /** alloc_node */
    method AllocNode() returns (ok: bool, id: nat)
      requires 0 < nextAddress
      modifies this`allocs, this`nextAddress
      ensures allocs == old(allocs) + 1 && ok == alloc(old(allocs))
      ensures id == old(nextAddress) && nextAddress == old(nextAddress) + if ok then 1 else 0
    {
      ok, id := alloc(allocs), nextAddress;
      allocs := allocs + 1;
      if ok {
        nextAddress := nextAddress + 1;
      }
    }

    /** The loop of devfs_register_file. */
    method RegisterLoop(path: Path, ghost goal: Walked) returns (status: Status, parent: nat)
      requires path != [] && ROOT in nodes && nodes[ROOT].kind == Dir && AllOrdered(nodes) && 0 < nextAddress
      requires forall n :: n in nodes ==> n < nextAddress
      requires goal == RegisterWalk(nodes, path, 0, ROOT, alloc, allocs, nextAddress)
      modifies this`nodes, this`allocs, this`nextAddress
      ensures goal == Walked(status, nodes, parent, allocs, nextAddress)
    {
      hide AllOrdered;
      hide Ordered;
      hide Inserted;
      parent := ROOT;
      var k := 0;
      while true
        invariant 0 <= k < |path| && parent in nodes && nodes[parent].kind == Dir
        invariant AllOrdered(nodes) && 0 < nextAddress
        invariant forall n :: n in nodes ==> n < nextAddress
        invariant goal == RegisterWalk(nodes, path, k, parent, alloc, allocs, nextAddress)
        decreases |path| - k
      {
        OrderedAt(nodes, parent);
        var node := FindChild(parent, path[k]);
        if node.At? {
          if k + 1 == |path| {
            status := if nodes[node.node].kind == File then EEXIST else EISDIR;
            return;
          }
          if nodes[node.node].kind != Dir {
            return ENOTDIR, parent;
          }
          parent := node.node;
        } else {
          var ok, id := AllocNode();
          if !ok {
            return ENOMEM, parent;
          }
          var kind := if k + 1 == |path| then File else Dir;
          AddOrdersAll(nodes, parent, id, path[k], kind);
          AddedNode(nodes, parent, id, path[k], kind);
          InsertChild(parent, id, Node(path[k], kind, parent, [], 0));
          if k + 1 == |path| {
            return Ok, parent;
          }
          parent := id;
        }
        k := k + 1;
      }
    }

    /** The end of devfs_register_file: what the walk has made is kept, or pruned again. */
    method EndAdd(status: Status, parent: nat, path: Path, ghost h0: Heap, ghost allocs0: nat, ghost names: Names)
      requires Sound(h0, paths, catalog, files, dirs) && NamesFit(h0, maxLen) && NamesFit(nodes, maxLen)
      requires Achieved(h0, paths, catalog, files, dirs, path, alloc, allocs0,
                        Walked(status, nodes, parent, allocs, nextAddress), names)
      requires (forall x :: x in files || x in dirs ==> x < nextHandle) && dirs.Keys == cursors.Keys
      modifies this`nodes, this`paths, this`catalog
      ensures Valid() && SameNames(old(paths), paths)
      ensures status != Ok ==> nodes == h0 && catalog == old(catalog)
      ensures status == Ok ==> catalog == old(catalog).(files := old(catalog).files[path := 0])
    {
      hide Sound;
      hide RegisterStatus;
      hide PruneFrom;
      hide Rooted;
      hide NamesFit;
      if status != Ok {
        PruneEmptyDirs(parent, h0);
      } else {
        paths := names;
        catalog := catalog.(files := catalog.files[path := 0]);
      }
    }

    /** The part of devfs_register_file behind the checks of the path */
    method AddFile(path: Path) returns (status: Status)
      requires Valid() && path != [] && Fit(path, maxLen)
      modifies this`nodes, this`allocs, this`nextAddress, this`paths, this`catalog
      ensures Valid() && SameNames(old(paths), paths)
      ensures status != Ok ==> nodes == old(nodes) && catalog == old(catalog)
      ensures if status == ENOMEM then
                RegisterStatus(old(catalog), path) == Ok && exists k :: old(allocs) <= k < allocs && !alloc(k)
              else
                && status == RegisterStatus(old(catalog), path)
                && (status == Ok ==> catalog == old(catalog).(files := old(catalog).files[path := 0]))
    {
      hide Sound;
      hide RegisterWalk;
      hide RegisterStatus;
      hide PruneFrom;
      hide AllOrdered;
      hide Rooted;
      hide NamesFit;
      hide Fit;
      hide SameNames;
      SoundFacts(nodes, paths, catalog, files, dirs);
      WalkFits(nodes, path, 0, ROOT, alloc, allocs, nextAddress, maxLen);
      ghost var goal := RegisterWalk(nodes, path, 0, ROOT, alloc, allocs, nextAddress);
      ghost var h0, allocs0 := nodes, allocs;
      ghost var names := Registering(nodes, paths, catalog, files, dirs, path, alloc, allocs, nextAddress);
      var parent: nat;
      status, parent := RegisterLoop(path, goal);
      EndAdd(status, parent, path, h0, allocs0, names);
    }

    /** devfs_register_file. A failure, out of memory at any component included, leaves the tree as it was. */
    method RegisterFile(text: string) returns (status: Status)
      requires Valid()
      modifies this`nodes, this`allocs, this`nextAddress, this`paths, this`catalog
      ensures Valid() && SameNames(old(paths), paths)
      ensures status != Ok ==> nodes == old(nodes) && catalog == old(catalog)
      ensures var r := ParsePath(text, false, maxLen);
              if r.Bad? || r.path == [] then status == EINVAL
              else if status == ENOMEM then
                RegisterStatus(old(catalog), r.path) == Ok && exists k :: old(allocs) <= k < allocs && !alloc(k)
              else
                && status == RegisterStatus(old(catalog), r.path)
                && (status == Ok ==> catalog == old(catalog).(files := old(catalog).files[r.path := 0]))
    {
      hide Valid;
      hide RegisterStatus;
      hide ParsePath;
      var parse := ValidatePath(text, false, maxLen);
      if parse.Bad? || parse.path == [] {
        return EINVAL;
      }
      ParseFits(text, false, maxLen);
      status := AddFile(parse.path);
    }

    ghost predicate Unchanged(nodes0: Heap, paths0: Names, catalog0: Catalog)
      reads this
    {
      nodes == nodes0 && paths == paths0 && catalog == catalog0
    }

    /** The part of devfs_unregister_file that takes the node out */
    method RemoveFile(node: nat)
      requires Valid() && node in nodes && nodes[node].kind == File && nodes[node].openCount == 0
      modifies this`nodes, this`paths, this`catalog
      ensures Valid() && SameNames(old(paths), paths) && node in old(paths)
      ensures catalog == old(catalog).(files := old(catalog).files - {old(paths)[node]})
    {
      hide NamesLeft;
      hide Sound;
      hide PruneFrom;
      hide Rooted;
      hide Unlink;
      SoundUnregistered(nodes, paths, catalog, files, dirs, node);
      var parent := nodes[node].parent;
      ghost var goal := PruneFrom(Unlink(nodes, node), parent);
      ghost var names := NamesLeft(Unlink(nodes, node), paths - {node}, parent);
      nodes := Unlink(nodes, node);
      PruneEmptyDirs(parent, goal);
      catalog := catalog.(files := catalog.files - {paths[node]});
      paths := names;
    }

    /** devfs_unregister_file */
    method UnregisterFile(text: string) returns (status: Status)
      requires Valid()
      modifies this`nodes, this`paths, this`catalog
      ensures Valid() && SameNames(old(paths), paths)
      ensures var m := Resolve(old(catalog), ParsePath(text, true, maxLen));
              && status == UnregisterStatus(m)
              && (status != Ok ==> Unchanged(old(nodes), old(paths), old(catalog)))
              && (status == Ok ==> catalog == old(catalog).(files := old(catalog).files - {m.path}))
    {
      hide NamesLeft;
      hide Sound;
      hide PruneFrom;
      hide ParsePath;
      hide Resolve;
      hide Rooted;
      hide Without;
      var found := FindNode(text);
      if found.Nowhere? {
        return ENOENT;
      }
      var node := found.node;
      if nodes[node].kind != File {
        return EISDIR;
      }
      if nodes[node].openCount != 0 {
        return EBUSY;
      }
      RemoveFile(node);
      return Ok;
    }

    /** The handle devfs_open gives out. */
    method TakeFile(node: nat) returns (handle: nat)
      requires Valid() && node in nodes && nodes[node].kind == File
      modifies this`nodes, this`catalog, this`files, this`nextHandle
      ensures handle !in old(files) && SameHandles(old(files)[handle := node], old(dirs), old(cursors))
      ensures paths == old(paths) && node in paths && allocs == old(allocs) && nextHandle > old(nextHandle)
      ensures nodes == SetCount(old(nodes), node, Up(old(nodes)[node].openCount))
      ensures catalog == CountFile(old(catalog), paths[node], Up(old(nodes)[node].openCount))
      ensures Valid() <==> old(nodes)[node].openCount < 65535
    {
      hide Sound;
      handle := nextHandle;
      SoundFileOpened(nodes, paths, catalog, files, dirs, handle, node);
      nodes := SetCount(nodes, node, Up(nodes[node].openCount));
      catalog := CountFile(catalog, paths[node], nodes[node].openCount);
      files := files[handle := node];
      nextHandle := nextHandle + 1;
    }

    /** The handle devfs_opendir gives out. */
    method TakeDir(node: nat) returns (handle: nat)
      requires Valid() && node in nodes && nodes[node].kind == Dir
      modifies this`nodes, this`catalog, this`dirs, this`cursors, this`nextHandle
      ensures handle !in old(dirs)
      ensures SameHandles(old(files), old(dirs)[handle := node], old(cursors)[handle := DirHandle("", false)])
      ensures paths == old(paths) && node in paths && allocs == old(allocs)
      ensures DirOpens(old(catalog), paths[node]) == old(nodes)[node].openCount
      ensures catalog == CountDir(old(catalog), paths[node], Up(old(nodes)[node].openCount))
      ensures Valid() <==> old(nodes)[node].openCount < 65535
    {
      hide Sound;
      handle := nextHandle;
      SoundDirOpened(nodes, paths, catalog, files, dirs, handle, node);
      nodes := SetCount(nodes, node, Up(nodes[node].openCount));
      catalog := CountDir(catalog, paths[node], nodes[node].openCount);
      dirs, cursors := dirs[handle := node], cursors[handle := DirHandle("", false)];
      nextHandle := nextHandle + 1;
    }

    /** The first locked section of devfs_open: the handle is counted before the device is asked. */
    method OpenFile(text: string) returns (status: Status, handle: nat)
      requires Valid()
      modifies this`allocs, this`nodes, this`catalog, this`files, this`nextHandle
      ensures var m := Resolve(old(catalog), ParsePath(text, true, maxLen));
              && status == (if !alloc(old(allocs)) then ENOMEM else OpenFileStatus(m))
              && (status != Ok ==>
                    && Valid() && Unchanged(old(nodes), old(paths), old(catalog))
                    && SameHandles(old(files), old(dirs), old(cursors)))
              && (status == Ok ==>
                    && handle !in old(files) && handle in files
                    && SameHandles(old(files)[handle := files[handle]], old(dirs), old(cursors))
                    && paths == old(paths) && files[handle] in paths && paths[files[handle]] == m.path
                    && catalog == CountFile(old(catalog), m.path, Up(m.opens))
                    && (Valid() <==> m.opens < 65535))
    {
      hide Sound;
      hide ParsePath;
      hide Resolve;
      var ok := alloc(allocs);
      allocs := allocs + 1;
      if !ok {
        return ENOMEM, 0;
      }
      var found := FindNode(text);
      if found.Nowhere? {
        return ENOENT, 0;
      }
      var node := found.node;
      if nodes[node].kind != File {
        return EISDIR, 0;
      }
      handle := TakeFile(node);
      status := Ok;
    }

    /**
     The end of devfs_open, once the device has answered. A refusal is the second locked section: whatever happened
     since the first, the handle is gone and its file's count is one less than now.
     */
    method FinishOpen(handle: nat, device: Status)
      requires Valid() && handle in files
      modifies this`nodes, this`catalog, this`files
      ensures Valid() && paths == old(paths)
      ensures device == Ok ==>
                && Unchanged(old(nodes), old(paths), old(catalog)) && SameHandles(old(files), old(dirs), old(cursors))
      ensures device != Ok ==> SameHandles(old(files) - {handle}, old(dirs), old(cursors))
      ensures var p := paths[old(files)[handle]];
              && p in old(catalog).files && old(catalog).files[p] > 0
              && (device != Ok ==> catalog == CountFile(old(catalog), p, old(catalog).files[p] - 1))
    {
      hide Sound;
      FileCounts(nodes, paths, catalog, files, dirs, handle);
      if device != Ok {
        ReleaseFile(handle);
      }
    }

    /** devfs_close */
    method ReleaseFile(handle: nat)
      requires Valid() && handle in files
      modifies this`nodes, this`catalog, this`files
      ensures Valid() && SameHandles(old(files) - {handle}, old(dirs), old(cursors)) && paths == old(paths)
      ensures var p := paths[old(files)[handle]];
              && p in old(catalog).files && old(catalog).files[p] > 0
              && catalog == CountFile(old(catalog), p, old(catalog).files[p] - 1)
    {
      hide Sound;
      SoundFileReleased(nodes, paths, catalog, files, dirs, handle);
      var node := files[handle];
      FileEntry(nodes, paths, catalog, files, dirs, handle);
      nodes := SetCount(nodes, node, Down(nodes[node].openCount));
      catalog := CountFile(catalog, paths[node], nodes[node].openCount);
      files := files - {handle};
    }

    /** devfs_opendir */
    method OpenDir(text: string) returns (status: Status, handle: nat)
      requires Valid()
      modifies this`allocs, this`nodes, this`catalog, this`dirs, this`cursors, this`nextHandle
      ensures var m := Resolve(old(catalog), ParsePath(text, true, maxLen));
              && status == (if !alloc(old(allocs)) then ENOMEM else OpenDirStatus(m))
              && (status != Ok ==>
                    && Valid() && Unchanged(old(nodes), old(paths), old(catalog))
                    && SameHandles(old(files), old(dirs), old(cursors)))
              && (status == Ok ==>
                    && handle !in old(dirs) && handle in dirs
                    && SameHandles(old(files), old(dirs)[handle := dirs[handle]],
                                   old(cursors)[handle := DirHandle("", false)])
                    && paths == old(paths) && dirs[handle] in paths && paths[dirs[handle]] == m.path
                    && catalog == CountDir(old(catalog), m.path, Up(DirOpens(old(catalog), m.path)))
                    && (Valid() <==> DirOpens(old(catalog), m.path) < 65535))
    {
      hide Sound;
      hide ParsePath;
      hide Resolve;
      var ok := alloc(allocs);
      allocs := allocs + 1;
      if !ok {
        return ENOMEM, 0;
      }
      var found := FindNode(text);
      if found.Nowhere? {
        return ENOENT, 0;
      }
      var node := found.node;
      if nodes[node].kind != Dir {
        return ENOTDIR, 0;
      }
      handle := TakeDir(node);
      status := Ok;
    }

    /** devfs_closedir: the directory goes too when only the handle kept it. */
    method CloseDir(handle: nat)
      requires Valid() && handle in dirs
      modifies this`nodes, this`paths, this`catalog, this`dirs, this`cursors
      ensures Valid() && SameHandles(old(files), old(dirs) - {handle}, old(cursors) - {handle})
      ensures SameNames(old(paths), paths)
      ensures var p := old(paths)[old(dirs)[handle]];
              && DirOpens(old(catalog), p) > 0
              && catalog == CountDir(old(catalog), p, DirOpens(old(catalog), p) - 1)
    {
      hide Sound;
      hide PruneFrom;
      hide Rooted;
      SoundDirClosed(nodes, paths, catalog, files, dirs, handle);
      var node := dirs[handle];
      ghost var counted := SetCount(nodes, node, Down(nodes[node].openCount));
      ghost var names := NamesLeft(counted, paths, node);
      nodes := SetCount(nodes, node, Down(nodes[node].openCount));
      catalog := CountDir(catalog, paths[node], nodes[node].openCount);
      PruneEmptyDirs(node, PruneFrom(counted, node));
      paths, dirs, cursors := names, dirs - {handle}, cursors - {handle};
    }

    /** The names below an open directory as they are now. */
    ghost function Listed(handle: nat): (r: seq<string>)
      requires Valid() && handle in dirs
      reads this
      ensures Sorted(r)
    {
      OpenDirFacts(nodes, paths, catalog, files, dirs, handle);
      ChildNames(nodes, nodes[dirs[handle]].children)
    }

    /** The search of devfs_readdir: names up to the cursor are skipped. */
    method NextChild(cs: seq<nat>, d: DirHandle) returns (r: Maybe)
      requires forall c :: c in cs ==> c in nodes
      ensures r.At? ==> r.node in cs && NextName(ChildNames(nodes, cs), d) == Next(nodes[r.node].name)
      ensures r.Nowhere? ==> NextName(ChildNames(nodes, cs), d) == End
    {
      ghost var names := ChildNames(nodes, cs);
      var i := 0;
      assert names[0..] == names;
      while i < |cs|
        invariant 0 <= i <= |cs|
        invariant NextName(names[i..], d) == NextName(names, d)
      {
        if !d.started || Less(d.last, nodes[cs[i]].name) {
          return At(cs[i]);
        }
        assert names[i..][1..] == names[i + 1..];
        i := i + 1;
      }
      return Nowhere;
    }

    /** devfs_readdir */
    method ReadDir(handle: nat) returns (entry: string, kind: Kind)
      requires Valid() && handle in dirs
      modifies this`cursors
      ensures Valid()
      ensures var next := NextName(old(Listed(handle)), old(cursors)[handle]);
              && cursors == old(cursors)[handle := Advance(old(cursors)[handle], next)]
              && entry == (if next.End? then "" else Cut(next.name, entryLen))
              && (next.Next? ==> Holding(nodes, paths, paths[dirs[handle]] + [next.name], kind))
    {
      hide Sound;
      OpenDirFacts(nodes, paths, catalog, files, dirs, handle);
      entry, kind := "", Dir;
      var found := NextChild(nodes[dirs[handle]].children, cursors[handle]);
      if found.At? {
        var child := nodes[found.node];
        entry, kind := Cut(child.name, entryLen), child.kind;
        cursors := cursors[handle := DirHandle(Cut(child.name, maxLen - 1), true)];
      } else {
        assert cursors == cursors[handle := cursors[handle]];
      }
    }
  }

  /** strncpy into a buffer with room for `len` characters. */
  function Cut(s: string, len: nat): string { if |s| <= len then s else s[..len] }

  /** Some node of this kind has path `p`. */
  ghost predicate Holding(h: Heap, paths: Names, p: Path, kind: Kind) {
    exists n :: n in h && n in paths && paths[n] == p && h[n].kind == kind
  }
}
