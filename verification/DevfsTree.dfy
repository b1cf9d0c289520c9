/**
 The node tree of lib/devfs/devfs.c. Nodes live in a heap from addresses to nodes, so a dangling
 reference is an address that is not in the heap. `paths` names every node by its path from the root.
 */
module DevfsTree {
  import opened DevfsPath

  datatype Kind = Dir | File

  datatype Node = Node(name: string, kind: Kind, parent: nat, children: seq<nat>, openCount: nat)

  type Heap = map<nat, Node>
  type Names = map<nat, Path>

  const ROOT: nat := 0

  datatype Maybe = Nowhere | At(node: nat)

  // ---------- shape ----------

  /** A node below the root hangs in its parent's child list. */
  ghost predicate Hangs(h: Heap, paths: Names, n: nat)
    requires n in h
  {
    var p := h[n].parent;
    p in h && n in h[p].children && n in paths && p in paths && paths[n] == paths[p] + [h[n].name]
  }

  /** A child list holds the node's own children in strictly increasing order of name; a file has none. */
  ghost predicate Ordered(h: Heap, n: nat)
    requires n in h
  {
    var cs := h[n].children;
    && (h[n].kind == File ==> cs == [])
    && (forall i :: 0 <= i < |cs| ==> cs[i] in h && cs[i] != ROOT && h[cs[i]].parent == n)
    && (forall i, j :: 0 <= i < j < |cs| ==> Less(h[cs[i]].name, h[cs[j]].name))
  }

  ghost predicate Shaped(h: Heap, paths: Names) {
    && ROOT in h && h[ROOT].kind == Dir
    && paths.Keys == h.Keys && paths[ROOT] == []
    && AllHang(h, paths)
    && AllOrdered(h)
  }

  ghost predicate AllHang(h: Heap, paths: Names) {
    forall n :: n in h && n != ROOT ==> Hangs(h, paths, n)
  }

  ghost predicate AllOrdered(h: Heap) {
    forall n :: n in h ==> Ordered(h, n)
  }

  /** No directory is kept without a reason, except possibly `spare`. */
  ghost predicate Pruned(h: Heap, spare: nat) {
    forall n :: n in h && n != ROOT && n != spare && h[n].kind == Dir ==> h[n].children != [] || h[n].openCount > 0
  }

  // ---------- lookup ----------

  function ChildIn(h: Heap, cs: seq<nat>, name: string): (r: Maybe)
    ensures r.At? ==> r.node in cs && r.node in h && h[r.node].name == name
    ensures r.Nowhere? ==> forall c :: c in cs && c in h ==> h[c].name != name
  {
    if cs == [] then Nowhere
    else if cs[0] in h && h[cs[0]].name == name then At(cs[0])
    else ChildIn(h, cs[1..], name)
  }

  /** The plain lookup: follow the components from the root. */
  function Walk(h: Heap, path: Path): (r: Maybe)
    ensures r.At? ==> r.node in h || path == []
  {
    if path == [] then At(ROOT)
    else
      match Walk(h, path[..|path| - 1])
      case Nowhere => Nowhere
      case At(p) => if p in h then ChildIn(h, h[p].children, path[|path| - 1]) else Nowhere
  }

  lemma OneChildPerName(h: Heap, p: nat, c: nat, name: string)
    requires p in h && Ordered(h, p) && c in h[p].children && c in h && h[c].name == name
    ensures ChildIn(h, h[p].children, name) == At(c)
  {
    var cs := h[p].children;
    var r := ChildIn(h, cs, name);
    var i :| 0 <= i < |cs| && cs[i] == c;
    var j :| 0 <= j < |cs| && cs[j] == r.node;
    LessIrreflexive(name);
  }

  lemma {:induction false} WalkFinds(h: Heap, paths: Names, n: nat)
    requires Shaped(h, paths) && n in h
    ensures Walk(h, paths[n]) == At(n)
    decreases |paths[n]|
  {
    assert n != ROOT ==> Hangs(h, paths, n);
    if n != ROOT {
      var p := h[n].parent;
      assert paths[n][..|paths[n]| - 1] == paths[p];
      WalkFinds(h, paths, p);
      assert Ordered(h, p);
      OneChildPerName(h, p, n, h[n].name);
    }
  }

  lemma ChildPath(h: Heap, paths: Names, p: nat, name: string)
    requires Shaped(h, paths) && p in h && ChildIn(h, h[p].children, name).At?
    ensures var c := ChildIn(h, h[p].children, name).node; c in h && paths[c] == paths[p] + [name]
  {
    var c := ChildIn(h, h[p].children, name).node;
    assert Ordered(h, p);
    assert Hangs(h, paths, c);
  }

  lemma {:induction false} WalkSound(h: Heap, paths: Names, path: Path)
    requires Shaped(h, paths) && Walk(h, path).At?
    ensures Walk(h, path).node in h && paths[Walk(h, path).node] == path
    decreases |path|
  {
    if path != [] {
      var k := |path| - 1;
      WalkSound(h, paths, path[..k]);
      ChildPath(h, paths, Walk(h, path[..k]).node, path[k]);
      assert path[..k] + [path[k]] == path;
    }
  }

  /** Lookup finds exactly the node with that path. */
  lemma WalkExact(h: Heap, paths: Names, path: Path, n: nat)
    requires Shaped(h, paths)
    ensures Walk(h, path) == At(n) <==> n in h && paths[n] == path
  {
    if Walk(h, path).At? {
      WalkSound(h, paths, path);
    }
    if n in h {
      WalkFinds(h, paths, n);
    }
  }

  /** Two nodes never share a path. */
  lemma PathsDiffer(h: Heap, paths: Names, a: nat, b: nat)
    requires Shaped(h, paths) && a in h && b in h && paths[a] == paths[b]
    ensures a == b
  {
    WalkExact(h, paths, paths[a], a);
    WalkExact(h, paths, paths[a], b);
  }

  // ---------- inserting ----------

  /** insert_child: before the first child with a greater name. */
  function InsertAt(h: Heap, cs: seq<nat>, name: string): (i: nat)
    ensures i <= |cs|
  {
    if cs == [] then 0
    else if cs[0] in h && Less(name, h[cs[0]].name) then 0
    else 1 + InsertAt(h, cs[1..], name)
  }

  function Inserted(h: Heap, cs: seq<nat>, id: nat, name: string): seq<nat> {
    var i := InsertAt(h, cs, name);
    cs[..i] + [id] + cs[i..]
  }

  /** The new node with its place in the tree. */
  function Add(h: Heap, p: nat, id: nat, name: string, kind: Kind): Heap
    requires p in h
  {
    h[id := Node(name, kind, p, [], 0)][p := h[p].(children := Inserted(h, h[p].children, id, name))]
  }

  lemma {:induction false} InsertPosition(h: Heap, cs: seq<nat>, name: string)
    requires forall i :: 0 <= i < |cs| ==> cs[i] in h && h[cs[i]].name != name
    requires forall i, j :: 0 <= i < j < |cs| ==> Less(h[cs[i]].name, h[cs[j]].name)
    ensures forall i :: 0 <= i < InsertAt(h, cs, name) ==> Less(h[cs[i]].name, name)
    ensures forall i :: InsertAt(h, cs, name) <= i < |cs| ==> Less(name, h[cs[i]].name)
  {
    if cs != [] {
      if Less(name, h[cs[0]].name) {
        forall i | 0 < i < |cs|
          ensures Less(name, h[cs[i]].name)
        {
          LessTrans(name, h[cs[0]].name, h[cs[i]].name);
        }
      } else {
        LessTotal(name, h[cs[0]].name);
        InsertPosition(h, cs[1..], name);
        var k := InsertAt(h, cs[1..], name);
        assert forall i :: 1 <= i < 1 + k ==> cs[i] == cs[1..][i - 1];
        assert forall i :: 1 + k <= i < |cs| ==> cs[i] == cs[1..][i - 1];
      }
    }
  }

  /** Where the new child is and where the old ones went. */
  lemma InsertedIndex(h: Heap, cs: seq<nat>, id: nat, name: string, i: nat)
    requires i <= |cs|
    ensures var k, ds := InsertAt(h, cs, name), Inserted(h, cs, id, name);
            && |ds| == |cs| + 1 && ds[i] == if i < k then cs[i] else if i == k then id else cs[i - 1]
  {
  }

  lemma InsertedMembers(h: Heap, cs: seq<nat>, id: nat, name: string, x: nat)
    ensures x in Inserted(h, cs, id, name) <==> x in cs || x == id
  {
    var k := InsertAt(h, cs, name);
    assert cs == cs[..k] + cs[k..];
  }

  /** The name behind position `i` of the list with `name` inserted at `k`. */
  function NameAt(h: Heap, cs: seq<nat>, name: string, k: nat, i: nat): string
    requires k <= |cs| && i <= |cs| && forall c :: c in cs ==> c in h
  {
    if i < k then h[cs[i]].name else if i == k then name else h[cs[i - 1]].name
  }

  lemma InsertionSorted(h: Heap, cs: seq<nat>, name: string, i: nat, j: nat)
    requires forall c :: c in cs ==> c in h && h[c].name != name
    requires forall i, j :: 0 <= i < j < |cs| ==> Less(h[cs[i]].name, h[cs[j]].name)
    requires i < j <= |cs|
    ensures var k := InsertAt(h, cs, name); Less(NameAt(h, cs, name, k, i), NameAt(h, cs, name, k, j))
  {
    InsertPosition(h, cs, name);
  }

  lemma AddedChild(h: Heap, p: nat, id: nat, name: string, kind: Kind, i: nat)
    requires p in h && Ordered(h, p) && id !in h && id != ROOT && i <= |h[p].children|
    requires forall c :: c in h[p].children ==> c in h
    ensures var t := Add(h, p, id, name, kind);
            var ds, cs := t[p].children, h[p].children;
            && |ds| == |cs| + 1 && ds[i] in t && ds[i] != ROOT && t[ds[i]].parent == p
            && t[ds[i]].name == NameAt(h, cs, name, InsertAt(h, cs, name), i)
  {
    InsertedIndex(h, h[p].children, id, name, i);
  }

  lemma AddOrdersParent(h: Heap, p: nat, id: nat, name: string, kind: Kind)
    requires p in h && h[p].kind == Dir && Ordered(h, p) && id !in h && id != ROOT
    requires ChildIn(h, h[p].children, name) == Nowhere
    ensures Ordered(Add(h, p, id, name, kind), p)
  {
    var t := Add(h, p, id, name, kind);
    var ds, cs := t[p].children, h[p].children;
    InsertedIndex(h, cs, id, name, 0);
    forall i | 0 <= i < |ds|
      ensures ds[i] in t && ds[i] != ROOT && t[ds[i]].parent == p
    {
      AddedChild(h, p, id, name, kind, i);
    }
    forall i, j | 0 <= i < j < |ds|
      ensures Less(t[ds[i]].name, t[ds[j]].name)
    {
      AddedChild(h, p, id, name, kind, i);
      AddedChild(h, p, id, name, kind, j);
      InsertionSorted(h, cs, name, i, j);
    }
  }

  lemma AddOrders(h: Heap, p: nat, id: nat, name: string, kind: Kind, n: nat)
    requires p in h && h[p].kind == Dir && Ordered(h, p) && id !in h && id != ROOT
    requires ChildIn(h, h[p].children, name) == Nowhere
    requires n == id || (n in h && Ordered(h, n))
    ensures Ordered(Add(h, p, id, name, kind), n)
  {
    if n == p {
      AddOrdersParent(h, p, id, name, kind);
    }
  }

  lemma AddHangs(h: Heap, paths: Names, p: nat, id: nat, name: string, kind: Kind, n: nat)
    requires p in h && p in paths && id !in h && (n == id || (n in h && n != ROOT && Hangs(h, paths, n)))
    ensures Hangs(Add(h, p, id, name, kind), paths[id := paths[p] + [name]], n)
  {
    InsertedMembers(h, h[p].children, id, name, n);
  }

  lemma AddKeepsShape(h: Heap, paths: Names, p: nat, id: nat, name: string, kind: Kind)
    requires Shaped(h, paths) && p in h && h[p].kind == Dir && id !in h && id != ROOT
    requires ChildIn(h, h[p].children, name) == Nowhere
    ensures Shaped(Add(h, p, id, name, kind), paths[id := paths[p] + [name]])
  {
    AddOrdersAll(h, p, id, name, kind);
    AddHangsAll(h, paths, p, id, name, kind);
  }

  lemma AddOrdersAll(h: Heap, p: nat, id: nat, name: string, kind: Kind)
    requires AllOrdered(h) && p in h && h[p].kind == Dir && id !in h && id != ROOT
    requires ChildIn(h, h[p].children, name) == Nowhere
    ensures AllOrdered(Add(h, p, id, name, kind))
  {
    var t := Add(h, p, id, name, kind);
    forall n | n in t
      ensures Ordered(t, n)
    {
      AddOrders(h, p, id, name, kind, n);
    }
  }

  lemma AddHangsAll(h: Heap, paths: Names, p: nat, id: nat, name: string, kind: Kind)
    requires AllHang(h, paths) && p in h && p in paths && id !in h
    ensures AllHang(Add(h, p, id, name, kind), paths[id := paths[p] + [name]])
  {
    var t, names := Add(h, p, id, name, kind), paths[id := paths[p] + [name]];
    forall n | n in t && n != ROOT
      ensures Hangs(t, names, n)
    {
      AddHangs(h, paths, p, id, name, kind, n);
    }
  }

  // ---------- removing ----------

  /** The list without `x`. */
  function Without(s: seq<nat>, x: nat): seq<nat> {
    if s == [] then [] else (if s[0] == x then [] else [s[0]]) + Without(s[1..], x)
  }

  lemma {:induction false} WithoutMember(s: seq<nat>, x: nat, y: nat)
    ensures y in Without(s, x) <==> y in s && y != x
  {
    if s != [] {
      WithoutMember(s[1..], x, y);
      assert s == [s[0]] + s[1..];
    }
  }

  lemma {:induction false} WithoutAbsent(s: seq<nat>, x: nat)
    requires x !in s
    ensures Without(s, x) == s
  {
    if s != [] {
      WithoutAbsent(s[1..], x);
    }
  }

  lemma {:induction false} WithoutAppend(a: seq<nat>, b: seq<nat>, x: nat)
    ensures Without(a + b, x) == Without(a, x) + Without(b, x)
  {
    if a == [] {
      assert a + b == b;
    } else {
      assert (a + b)[1..] == a[1..] + b;
      WithoutAppend(a[1..], b, x);
    }
  }

  lemma WithoutMiddle(a: seq<nat>, b: seq<nat>, x: nat)
    requires x !in a && x !in b
    ensures Without(a + [x] + b, x) == a + b
  {
    WithoutAppend(a + [x], b, x);
    WithoutAppend(a, [x], x);
    WithoutAbsent(a, x);
    WithoutAbsent(b, x);
    assert [x][1..] == [];
    assert Without([x], x) == [] && a + [] == a;
  }

  lemma WithoutInserted(h: Heap, cs: seq<nat>, id: nat, name: string)
    requires id !in cs
    ensures Without(Inserted(h, cs, id, name), id) == cs
  {
    var i := InsertAt(h, cs, name);
    assert cs == cs[..i] + cs[i..];
    WithoutMiddle(cs[..i], cs[i..], id);
  }

  /** unlink_child and k_free. */
  function Unlink(h: Heap, n: nat): Heap
    requires n in h && h[n].parent in h && h[n].parent != n
  {
    var p := h[n].parent;
    (h - {n})[p := h[p].(children := Without(h[p].children, n))]
  }

  /** What prune_empty_dirs removes next, if anything. */
  predicate Removable(h: Heap, n: nat) {
    && n in h && n != ROOT && h[n].kind == Dir && h[n].children == [] && h[n].openCount == 0
    && h[n].parent in h && h[n].parent != n
  }

  /** prune_empty_dirs */
  function PruneFrom(h: Heap, n: nat): Heap
    decreases |h|
  {
    if !Removable(h, n) then h
    else
      UnlinkShrinks(h, n);
      PruneFrom(Unlink(h, n), h[n].parent)
  }

  lemma UnlinkShrinks(h: Heap, n: nat)
    requires n in h && h[n].parent in h && h[n].parent != n
    ensures Unlink(h, n).Keys == h.Keys - {n} && |Unlink(h, n)| < |h|
  {
    var t := Unlink(h, n);
    assert t.Keys == h.Keys - {n};
    assert |t.Keys| == |h.Keys| - 1;
  }

  /** Pruning takes back a directory that was just added. */
  lemma AddThenPrune(h: Heap, p: nat, id: nat, name: string)
    requires p in h && id !in h && id != ROOT && id !in h[p].children
    ensures PruneFrom(Add(h, p, id, name, Dir), id) == PruneFrom(h, p)
  {
    var t := Add(h, p, id, name, Dir);
    WithoutInserted(h, h[p].children, id, name);
    assert Removable(t, id);
    assert Unlink(t, id) == h;
  }

  lemma {:induction false} WithoutOrdered(h: Heap, cs: seq<nat>, x: nat)
    requires forall c :: c in cs ==> c in h
    requires forall i, j :: 0 <= i < j < |cs| ==> Less(h[cs[i]].name, h[cs[j]].name)
    ensures var ds := Without(cs, x);
            && (forall c :: c in ds ==> c in h)
            && forall i, j :: 0 <= i < j < |ds| ==> Less(h[ds[i]].name, h[ds[j]].name)
  {
    if cs != [] {
      WithoutOrdered(h, cs[1..], x);
      var rest := Without(cs[1..], x);
      forall i | 0 <= i < |rest|
        ensures Less(h[cs[0]].name, h[rest[i]].name)
      {
        WithoutMember(cs[1..], x, rest[i]);
        var j :| 0 <= j < |cs[1..]| && cs[1..][j] == rest[i];
        assert cs[j + 1] == rest[i];
      }
    }
  }

  lemma UnlinkOrdersParent(h: Heap, n: nat)
    requires n in h && h[n].parent in h && h[n].parent != n && Ordered(h, h[n].parent)
    ensures Ordered(Unlink(h, n), h[n].parent)
  {
    hide Without;
    var t, p := Unlink(h, n), h[n].parent;
    var cs, ds := h[p].children, t[p].children;
    assert forall c :: c in cs ==> c in h;
    WithoutOrdered(h, cs, n);
    forall i | 0 <= i < |ds|
      ensures ds[i] in t && ds[i] != ROOT && t[ds[i]].parent == p && t[ds[i]].name == h[ds[i]].name
    {
      WithoutMember(cs, n, ds[i]);
    }
    forall i, j | 0 <= i < j < |ds|
      ensures Less(t[ds[i]].name, t[ds[j]].name)
    {
      assert Less(h[ds[i]].name, h[ds[j]].name);
    }
    assert cs == [] ==> ds == [] by { WithoutNone(n); }
  }

  lemma WithoutNone(n: nat)
    ensures Without([], n) == []
  {
  }

  lemma UnlinkOrders(h: Heap, n: nat, m: nat)
    requires n in h && h[n].parent in h && h[n].parent != n && AllOrdered(h) && m in h && m != n
    ensures Ordered(Unlink(h, n), m)
  {
    assert Ordered(h, m);
    if m == h[n].parent {
      UnlinkOrdersParent(h, n);
    } else {
      var cs := h[m].children;
      assert forall i :: 0 <= i < |cs| ==> cs[i] != n;
    }
  }

  lemma UnlinkHangs(h: Heap, paths: Names, n: nat, m: nat)
    requires n in h && h[n].parent in h && h[n].parent != n && h[n].children == []
    requires m in h && m != n && m != ROOT && Hangs(h, paths, m)
    ensures Hangs(Unlink(h, n), paths - {n}, m)
  {
    WithoutMember(h[h[n].parent].children, n, m);
  }

  lemma ParentDiffers(h: Heap, paths: Names, n: nat)
    requires Shaped(h, paths) && n in h && n != ROOT
    ensures h[n].parent in h && h[n].parent != n && h[h[n].parent].kind == Dir
    ensures |paths[h[n].parent]| + 1 == |paths[n]|
  {
    assert Hangs(h, paths, n);
    assert Ordered(h, h[n].parent);
  }

  /** Taking out a leaf keeps the shape. */
  lemma UnlinkKeepsShape(h: Heap, paths: Names, n: nat)
    requires Shaped(h, paths) && n in h && n != ROOT && h[n].children == []
    ensures h[n].parent in h && h[n].parent != n
    ensures Shaped(Unlink(h, n), paths - {n})
  {
    ParentDiffers(h, paths, n);
    var t := Unlink(h, n);
    forall m | m in t
      ensures Ordered(t, m)
    {
      UnlinkOrders(h, n, m);
    }
    forall m | m in t && m != ROOT
      ensures Hangs(t, paths - {n}, m)
    {
      UnlinkHangs(h, paths, n, m);
    }
    assert AllOrdered(t) && AllHang(t, paths - {n});
  }

  /** `t` is `h` with some closed directories gone; what is left changed at most its child list. */
  ghost predicate Trimmed(h: Heap, t: Heap) {
    && t.Keys <= h.Keys
    && (forall n :: n in t ==> t[n] == h[n].(children := t[n].children))
    && (forall n :: n in h && n !in t ==> h[n].kind == Dir && h[n].openCount == 0)
  }

  /** The names of the nodes that pruning leaves. */
  function NamesLeft(h: Heap, paths: Names, n: nat): (names: Names)
    ensures forall m :: m in names ==> m in paths && names[m] == paths[m]
    decreases |h|
  {
    if !Removable(h, n) then paths
    else
      UnlinkShrinks(h, n);
      NamesLeft(Unlink(h, n), paths - {n}, h[n].parent)
  }

  /** prune_empty_dirs leaves no directory without a reason, and loses no file and no open directory. */
  lemma {:induction false} PruneRestores(h: Heap, paths: Names, n: nat)
    requires Shaped(h, paths) && n in h && Pruned(h, n)
    ensures Shaped(PruneFrom(h, n), NamesLeft(h, paths, n))
    ensures Pruned(PruneFrom(h, n), ROOT) && Trimmed(h, PruneFrom(h, n))
    decreases |h|
  {
    hide AllHang;
    hide AllOrdered;
    hide Pruned;
    hide Trimmed;
    TrimmedSelf(h);
    if n != ROOT {
      ParentDiffers(h, paths, n);
    }
    if Removable(h, n) {
      UnlinkKeepsShape(h, paths, n);
      UnlinkShrinks(h, n);
      UnlinkSpares(h, n);
      PruneRestores(Unlink(h, n), paths - {n}, h[n].parent);
      TrimmedTrans(h, Unlink(h, n), PruneFrom(h, n));
    } else {
      NothingToPrune(h, n);
    }
  }

  lemma TrimmedSelf(h: Heap)
    ensures Trimmed(h, h)
  {
  }

  lemma NothingToPrune(h: Heap, n: nat)
    requires n in h && Pruned(h, n) && !Removable(h, n) && (n != ROOT ==> h[n].parent in h && h[n].parent != n)
    ensures Pruned(h, ROOT)
  {
  }

  lemma UnlinkSpares(h: Heap, n: nat)
    requires Removable(h, n) && Pruned(h, n)
    ensures Pruned(Unlink(h, n), h[n].parent) && Trimmed(h, Unlink(h, n))
  {
  }

  lemma TrimmedTrans(a: Heap, b: Heap, c: Heap)
    requires Trimmed(a, b) && Trimmed(b, c)
    ensures Trimmed(a, c)
  {
  }

  // ---------- the plain map ----------

  /** The files by path with their open counts, and the open directories with theirs. */
  datatype Catalog = Catalog(files: map<Path, nat>, dirs: map<Path, nat>)

  /** Node `n` is a file, or an open directory, with path `p`. */
  ghost predicate Holds(h: Heap, paths: Names, p: Path, n: nat, kind: Kind) {
    n in h && n in paths && paths[n] == p && h[n].kind == kind && (kind == Dir ==> h[n].openCount > 0)
  }

  ghost predicate FileAgrees(h: Heap, paths: Names, c: Catalog) {
    && (forall p, n :: Holds(h, paths, p, n, File) ==> p in c.files && c.files[p] == h[n].openCount)
    && (forall p :: p in c.files ==> exists n :: Holds(h, paths, p, n, File))
  }

  ghost predicate DirAgrees(h: Heap, paths: Names, c: Catalog) {
    && (forall p, n :: Holds(h, paths, p, n, Dir) ==> p in c.dirs && c.dirs[p] == h[n].openCount)
    && (forall p :: p in c.dirs ==> exists n :: Holds(h, paths, p, n, Dir))
  }

  ghost predicate Agrees(h: Heap, paths: Names, c: Catalog) {
    FileAgrees(h, paths, c) && DirAgrees(h, paths, c)
  }

  /** A directory a plain map implies: the root, above a file, or at or above an open directory. */
  ghost predicate ImpliedDir(c: Catalog, p: Path) {
    p == [] || AboveFile(c, p) || AboveOpenDir(c, p)
  }

  ghost predicate AboveFile(c: Catalog, p: Path) { exists f :: f in c.files && p < f }

  ghost predicate AboveOpenDir(c: Catalog, p: Path) { exists d :: d in c.dirs && p <= d }

  lemma {:induction false} AncestorIsDir(h: Heap, paths: Names, n: nat, k: nat)
    requires Shaped(h, paths) && n in h && k < |paths[n]|
    ensures var r := Walk(h, paths[n][..k]); r.At? && r.node in h && h[r.node].kind == Dir
    decreases |paths[n]|
  {
    assert n != ROOT;
    ParentDiffers(h, paths, n);
    var p := h[n].parent;
    assert Hangs(h, paths, n);
    WalkFinds(h, paths, p);
    if k < |paths[p]| {
      AncestorIsDir(h, paths, p, k);
      assert paths[n][..k] == paths[p][..k];
    } else {
      assert paths[n][..k] == paths[p];
    }
  }

  lemma {:induction false} LongestPath(paths: Names) returns (bound: nat)
    ensures forall n :: n in paths ==> |paths[n]| <= bound
    decreases |paths|
  {
    if paths == map[] {
      bound := 0;
    } else {
      var n :| n in paths;
      assert (paths - {n}).Keys == paths.Keys - {n};
      var rest := LongestPath(paths - {n});
      bound := if rest < |paths[n]| then |paths[n]| else rest;
      assert forall m :: m in paths && m != n ==> m in paths - {n};
    }
  }

  /** Below every directory but the root there is a file, or it leads to an open directory. */
  lemma {:induction false} ReasonBelow(h: Heap, paths: Names, n: nat, bound: nat) returns (m: nat)
    requires Shaped(h, paths) && Pruned(h, ROOT) && n in h && n != ROOT && h[n].kind == Dir
    requires forall m :: m in paths ==> |paths[m]| <= bound
    ensures m in h && paths[n] <= paths[m]
    ensures if h[m].kind == File then paths[n] < paths[m] else h[m].openCount > 0
    decreases bound - |paths[n]|
  {
    if h[n].openCount > 0 {
      m := n;
    } else {
      var c := h[n].children[0];
      assert Ordered(h, n);
      assert Hangs(h, paths, c);
      if h[c].kind == File {
        m := c;
      } else {
        m := ReasonBelow(h, paths, c, bound);
      }
    }
  }

  predicate IsDirAt(h: Heap, p: Path) {
    var r := Walk(h, p); r.At? && r.node in h && h[r.node].kind == Dir
  }

  lemma DirHasReason(h: Heap, paths: Names, c: Catalog, p: Path)
    requires Shaped(h, paths) && Pruned(h, ROOT) && Agrees(h, paths, c) && IsDirAt(h, p)
    ensures ImpliedDir(c, p)
  {
    hide Walk;
    hide AllHang;
    hide AllOrdered;
    WalkSound(h, paths, p);
    var n := Walk(h, p).node;
    if n != ROOT {
      var bound := LongestPath(paths);
      var m := ReasonBelow(h, paths, n, bound);
      assert Holds(h, paths, paths[m], m, h[m].kind);
    }
  }

  lemma AboveIsDir(h: Heap, paths: Names, p: Path, q: Path)
    requires Shaped(h, paths) && Walk(h, q).At? && p < q
    ensures IsDirAt(h, p)
  {
    WalkSound(h, paths, q);
    AncestorIsDir(h, paths, Walk(h, q).node, |p|);
    assert q[..|p|] == p;
  }

  lemma AboveFileIsDir(h: Heap, paths: Names, c: Catalog, p: Path)
    requires Shaped(h, paths) && FileAgrees(h, paths, c) && AboveFile(c, p)
    ensures IsDirAt(h, p)
  {
    var f :| f in c.files && p < f;
    var n :| Holds(h, paths, f, n, File);
    WalkFinds(h, paths, n);
    AboveIsDir(h, paths, p, f);
  }

  lemma AboveOpenDirIsDir(h: Heap, paths: Names, c: Catalog, p: Path)
    requires Shaped(h, paths) && DirAgrees(h, paths, c) && AboveOpenDir(c, p)
    ensures IsDirAt(h, p)
  {
    var d :| d in c.dirs && p <= d;
    var n :| Holds(h, paths, d, n, Dir);
    WalkFinds(h, paths, n);
    if p != d {
      AboveIsDir(h, paths, p, d);
    }
  }

  lemma ImpliedIsDir(h: Heap, paths: Names, c: Catalog, p: Path)
    requires Shaped(h, paths) && Agrees(h, paths, c) && ImpliedDir(c, p)
    ensures IsDirAt(h, p)
  {
    if AboveFile(c, p) {
      AboveFileIsDir(h, paths, c, p);
    } else if AboveOpenDir(c, p) {
      AboveOpenDirIsDir(h, paths, c, p);
    }
  }

  /** The directories of the tree are exactly those the plain map implies. */
  lemma DirsAreImplied(h: Heap, paths: Names, c: Catalog, p: Path)
    requires Shaped(h, paths) && Pruned(h, ROOT) && Agrees(h, paths, c)
    ensures IsDirAt(h, p) <==> ImpliedDir(c, p)
  {
    if IsDirAt(h, p) {
      DirHasReason(h, paths, c, p);
    }
    if ImpliedDir(c, p) {
      ImpliedIsDir(h, paths, c, p);
    }
  }

  predicate IsFileAt(h: Heap, p: Path) {
    var r := Walk(h, p); r.At? && r.node in h && h[r.node].kind == File
  }

  /** The files of the tree are exactly those of the plain map. */
  lemma FilesAreListed(h: Heap, paths: Names, c: Catalog, p: Path)
    requires Shaped(h, paths) && Agrees(h, paths, c)
    ensures IsFileAt(h, p) <==> p in c.files
    ensures p in c.files ==> c.files[p] == h[Walk(h, p).node].openCount
  {
    if Walk(h, p).At? {
      WalkSound(h, paths, p);
      var n := Walk(h, p).node;
      assert h[n].kind == File ==> Holds(h, paths, p, n, File);
    }
    if p in c.files {
      var n :| Holds(h, paths, p, n, File);
      WalkFinds(h, paths, n);
    }
  }

  // ---------- what tree edits mean for the plain map ----------

  /** Same files and open directories, under the same paths, with the same counts. */
  ghost predicate SameHoldings(h: Heap, paths: Names, t: Heap, names: Names) {
    forall p, n, kind :: Holds(h, paths, p, n, kind) <==> Holds(t, names, p, n, kind)
  }

  lemma AgreesCarried(h: Heap, paths: Names, t: Heap, names: Names, c: Catalog)
    requires Agrees(h, paths, c) && SameHoldings(h, paths, t, names)
    requires forall n :: n in h && n in t ==> h[n].openCount == t[n].openCount
    ensures Agrees(t, names, c)
  {
  }

  /** Pruned directories do not show in the map. */
  lemma AgreesTrimmed(h: Heap, paths: Names, t: Heap, names: Names, c: Catalog)
    requires paths.Keys == h.Keys && names.Keys == t.Keys && Trimmed(h, t)
    requires forall n :: n in names ==> n in paths && names[n] == paths[n]
    ensures Agrees(h, paths, c) <==> Agrees(t, names, c)
  {
    assert SameHoldings(h, paths, t, names) && SameHoldings(t, names, h, paths);
    if Agrees(h, paths, c) {
      AgreesCarried(h, paths, t, names, c);
    }
    if Agrees(t, names, c) {
      AgreesCarried(t, names, h, paths, c);
    }
  }

  /** `t` holds what `h` holds and one more file, closed. */
  ghost predicate OneMore(h: Heap, paths: Names, t: Heap, names: Names, q: Path, id: nat) {
    && Holds(t, names, q, id, File) && t[id].openCount == 0
    && (forall n :: n in h && n in t && n != id ==> h[n].openCount == t[n].openCount)
    && (forall p, n, kind :: Holds(t, names, p, n, kind) && n != id <==> Holds(h, paths, p, n, kind) && n != id)
    && (forall p, kind :: Holds(t, names, p, id, kind) ==> p == q && kind == File)
    && (forall p, n :: Holds(t, names, p, n, File) && n != id ==> p != q)
  }

  lemma AgreesOneMore(h: Heap, paths: Names, t: Heap, names: Names, c: Catalog, q: Path, id: nat)
    requires OneMore(h, paths, t, names, q, id) && id !in h && Agrees(h, paths, c)
    ensures Agrees(t, names, c.(files := c.files[q := 0]))
  {
    var d := c.(files := c.files[q := 0]);
    forall p | p in d.files
      ensures exists n :: Holds(t, names, p, n, File)
    {
      if p != q {
        var n :| Holds(h, paths, p, n, File);
        assert Holds(t, names, p, n, File);
      }
    }
    forall p | p in d.dirs
      ensures exists n :: Holds(t, names, p, n, Dir)
    {
      var n :| Holds(h, paths, p, n, Dir);
      assert Holds(t, names, p, n, Dir);
    }
  }

  lemma AgreesOneLess(h: Heap, paths: Names, t: Heap, names: Names, c: Catalog, q: Path, id: nat)
    requires OneMore(h, paths, t, names, q, id) && id !in h && Agrees(t, names, c)
    ensures Agrees(h, paths, c.(files := c.files - {q}))
  {
    var d := c.(files := c.files - {q});
    forall p | p in d.files
      ensures exists n :: Holds(h, paths, p, n, File)
    {
      var n :| Holds(t, names, p, n, File);
      assert Holds(h, paths, p, n, File);
    }
    forall p | p in d.dirs
      ensures exists n :: Holds(h, paths, p, n, Dir)
    {
      var n :| Holds(t, names, p, n, Dir);
      assert Holds(h, paths, p, n, Dir);
    }
  }

  /** Where find_child found nothing there is no node with that path. */
  lemma NewPathIsNew(h: Heap, paths: Names, p: nat, name: string, n: nat)
    requires Shaped(h, paths) && p in h && ChildIn(h, h[p].children, name) == Nowhere && n in h
    ensures paths[n] != paths[p] + [name]
  {
    WalkFinds(h, paths, p);
    assert (paths[p] + [name])[..|paths[p]|] == paths[p];
    WalkFinds(h, paths, n);
  }

  lemma AddIsOneMore(h: Heap, paths: Names, p: nat, id: nat, name: string)
    requires h.Keys == paths.Keys && p in h && id !in h && forall n :: n in h ==> paths[n] != paths[p] + [name]
    ensures var q := paths[p] + [name]; OneMore(h, paths, Add(h, p, id, name, File), paths[id := q], q, id)
  {
  }

  lemma UnlinkIsOneLess(h: Heap, paths: Names, n: nat)
    requires h.Keys == paths.Keys && n in h && h[n].parent in h && h[n].parent != n
    requires h[n].kind == File && h[n].openCount == 0 && forall m :: m in h && m != n ==> paths[m] != paths[n]
    ensures OneMore(Unlink(h, n), paths - {n}, h, paths, paths[n], n)
  {
  }

  /** A new file shows as a new entry. */
  lemma AgreesAdded(h: Heap, paths: Names, p: nat, id: nat, name: string, c: Catalog)
    requires Shaped(h, paths) && p in h && h[p].kind == Dir && id !in h && id != ROOT
    requires ChildIn(h, h[p].children, name) == Nowhere && Agrees(h, paths, c)
    ensures Agrees(Add(h, p, id, name, File), paths[id := paths[p] + [name]],
                   c.(files := c.files[paths[p] + [name] := 0]))
  {
    NewPathElsewhere(h, paths, p, name);
    AddIsOneMore(h, paths, p, id, name);
    var q := paths[p] + [name];
    AgreesOneMore(h, paths, Add(h, p, id, name, File), paths[id := q], c, q, id);
  }

  lemma NewPathElsewhere(h: Heap, paths: Names, p: nat, name: string)
    requires Shaped(h, paths) && p in h && ChildIn(h, h[p].children, name) == Nowhere
    ensures forall n :: n in h ==> paths[n] != paths[p] + [name]
  {
    forall n | n in h
      ensures paths[n] != paths[p] + [name]
    {
      NewPathIsNew(h, paths, p, name, n);
    }
  }

  lemma OthersElsewhere(h: Heap, paths: Names, n: nat)
    requires Shaped(h, paths) && n in h
    ensures forall m :: m in h && m != n ==> paths[m] != paths[n]
  {
    forall m | m in h && paths[m] == paths[n]
      ensures m == n
    {
      PathsDiffer(h, paths, m, n);
    }
  }

  /** A removed file shows as a removed entry. */
  lemma AgreesUnlinked(h: Heap, paths: Names, n: nat, c: Catalog)
    requires Shaped(h, paths) && n in h && n != ROOT && h[n].kind == File && h[n].openCount == 0 && Agrees(h, paths, c)
    ensures h[n].parent in h && h[n].parent != n
    ensures Agrees(Unlink(h, n), paths - {n}, c.(files := c.files - {paths[n]}))
  {
    ParentDiffers(h, paths, n);
    OthersElsewhere(h, paths, n);
    var t, names := Unlink(h, n), paths - {n};
    UnlinkIsOneLess(h, paths, n);
    AgreesOneLess(t, names, h, paths, c, paths[n], n);
  }

  // ---------- open counts ----------

  function SetCount(h: Heap, n: nat, k: nat): Heap
    requires n in h
  {
    h[n := h[n].(openCount := k)]
  }

  lemma CountKeepsShape(h: Heap, paths: Names, n: nat, k: nat)
    requires Shaped(h, paths) && n in h
    ensures Shaped(SetCount(h, n, k), paths)
  {
    hide Ordered;
    hide Hangs;
    forall m | m in h
      ensures Ordered(SetCount(h, n, k), m)
    {
      CountOrders(h, n, k, m);
    }
    forall m | m in h && m != ROOT
      ensures Hangs(SetCount(h, n, k), paths, m)
    {
      CountHangs(h, paths, n, k, m);
    }
    assert AllOrdered(SetCount(h, n, k)) && AllHang(SetCount(h, n, k), paths);
  }

  lemma CountOrders(h: Heap, n: nat, k: nat, m: nat)
    requires n in h && m in h && Ordered(h, m)
    ensures Ordered(SetCount(h, n, k), m)
  {
  }

  lemma CountHangs(h: Heap, paths: Names, n: nat, k: nat, m: nat)
    requires n in h && m in h && Hangs(h, paths, m)
    ensures Hangs(SetCount(h, n, k), paths, m)
  {
  }

  lemma CountSpares(h: Heap, n: nat, k: nat)
    requires n in h && Pruned(h, ROOT)
    ensures Pruned(SetCount(h, n, k), n)
    ensures h[n].kind == File || k > 0 ==> Pruned(SetCount(h, n, k), ROOT)
  {
  }

  function CountFile(c: Catalog, p: Path, k: nat): Catalog { c.(files := c.files[p := k]) }

  function CountDir(c: Catalog, p: Path, k: nat): Catalog {
    c.(dirs := if k == 0 then c.dirs - {p} else c.dirs[p := k])
  }

  lemma FileCounted(h: Heap, paths: Names, n: nat, k: nat, c: Catalog)
    requires h.Keys == paths.Keys && n in h && h[n].kind == File && Agrees(h, paths, c)
    requires forall m :: m in h && m != n ==> paths[m] != paths[n]
    ensures Agrees(SetCount(h, n, k), paths, CountFile(c, paths[n], k))
  {
    var t, d := SetCount(h, n, k), CountFile(c, paths[n], k);
    assert Holds(t, paths, paths[n], n, File);
    forall p, m, kind
      ensures Holds(t, paths, p, m, kind) <==> Holds(h, paths, p, m, kind)
    {
    }
    assert forall p :: p in d.files ==> p == paths[n] || p in c.files;
  }

  lemma DirCounted(h: Heap, paths: Names, n: nat, k: nat, c: Catalog)
    requires h.Keys == paths.Keys && n in h && h[n].kind == Dir && Agrees(h, paths, c)
    requires forall m :: m in h && m != n ==> paths[m] != paths[n]
    ensures Agrees(SetCount(h, n, k), paths, CountDir(c, paths[n], k))
  {
    var t, d := SetCount(h, n, k), CountDir(c, paths[n], k);
    assert k > 0 ==> Holds(t, paths, paths[n], n, Dir);
    forall p, m, kind
      ensures m != n ==> (Holds(t, paths, p, m, kind) <==> Holds(h, paths, p, m, kind))
    {
    }
    forall p | p in d.dirs
      ensures exists m :: Holds(t, paths, p, m, Dir)
    {
      if p != paths[n] {
        var m :| Holds(h, paths, p, m, Dir);
        assert Holds(t, paths, p, m, Dir);
      }
    }
    forall p | p in d.files
      ensures exists m :: Holds(t, paths, p, m, File)
    {
      var m :| Holds(h, paths, p, m, File);
      assert Holds(t, paths, p, m, File);
    }
  }

  // ---------- handles ----------

  /** The handles that refer to node `n`. */
  function HandlesOf(handles: map<nat, nat>, n: nat): set<nat> {
    set h | h in handles && handles[h] == n
  }

  lemma HandleAdded(handles: map<nat, nat>, h: nat, n: nat)
    requires h !in handles
    ensures forall m :: |HandlesOf(handles[h := n], m)| == |HandlesOf(handles, m)| + if m == n then 1 else 0
  {
    forall m
      ensures |HandlesOf(handles[h := n], m)| == |HandlesOf(handles, m)| + if m == n then 1 else 0
    {
      assert HandlesOf(handles[h := n], m) == HandlesOf(handles, m) + if m == n then {h} else {};
    }
  }

  lemma HandleRemoved(handles: map<nat, nat>, h: nat)
    requires h in handles
    ensures forall m :: |HandlesOf(handles - {h}, m)| == |HandlesOf(handles, m)| - if m == handles[h] then 1 else 0
  {
    forall m
      ensures |HandlesOf(handles - {h}, m)| == |HandlesOf(handles, m)| - if m == handles[h] then 1 else 0
    {
      assert HandlesOf(handles - {h}, m) == HandlesOf(handles, m) - if m == handles[h] then {h} else {};
      assert h in HandlesOf(handles, handles[h]);
    }
  }

  /** Every live handle refers to a live node, and every count is the number of live handles. */
  ghost predicate HandlesOk(h: Heap, files: map<nat, nat>, dirs: map<nat, nat>) {
    && (forall x :: x in files ==> files[x] in h && h[files[x]].kind == File)
    && (forall x :: x in dirs ==> dirs[x] in h && h[dirs[x]].kind == Dir)
    && (forall n :: n in h ==> h[n].openCount < 65536)
    && (forall n :: n in h ==> h[n].openCount == |HandlesOf(if h[n].kind == File then files else dirs, n)|)
  }

  lemma NoHandles(handles: map<nat, nat>, n: nat)
    requires forall x :: x in handles ==> handles[x] != n
    ensures |HandlesOf(handles, n)| == 0
  {
    assert HandlesOf(handles, n) == {};
  }

  lemma SomeHandle(handles: map<nat, nat>, x: nat)
    requires x in handles
    ensures |HandlesOf(handles, handles[x])| > 0
  {
    assert x in HandlesOf(handles, handles[x]);
  }

  /** New nodes have no handles. */
  lemma HandlesGrow(h: Heap, t: Heap, files: map<nat, nat>, dirs: map<nat, nat>)
    requires HandlesOk(h, files, dirs) && h.Keys <= t.Keys
    requires forall n :: n in h ==> t[n].kind == h[n].kind && t[n].openCount == h[n].openCount
    requires forall n :: n in t && n !in h ==> t[n].openCount == 0
    ensures HandlesOk(t, files, dirs)
  {
    forall n | n in t
      ensures t[n].openCount == |HandlesOf(if t[n].kind == File then files else dirs, n)|
    {
      if n !in h {
        NoHandles(files, n);
        NoHandles(dirs, n);
      }
    }
  }

  /** Pruning never frees a node that a handle refers to. */
  lemma HandlesShrink(h: Heap, t: Heap, files: map<nat, nat>, dirs: map<nat, nat>)
    requires HandlesOk(h, files, dirs) && t.Keys <= h.Keys
    requires forall n :: n in t ==> t[n].kind == h[n].kind && t[n].openCount == h[n].openCount
    requires forall n :: n in h && n !in t ==> h[n].openCount == 0
    ensures HandlesOk(t, files, dirs)
  {
    forall x | x in files
      ensures files[x] in t
    {
      SomeHandle(files, x);
    }
    forall x | x in dirs
      ensures dirs[x] in t
    {
      SomeHandle(dirs, x);
    }
  }

  /** Counting up and down in 16 bits. */
  function Up(k: nat): nat { (k + 1) % 65536 }

  function Down(k: nat): nat { (k + 65535) % 65536 }

  /** The counter is exact after one more open exactly when it did not wrap around. */
  lemma FileOpened(h: Heap, files: map<nat, nat>, dirs: map<nat, nat>, x: nat, n: nat)
    requires HandlesOk(h, files, dirs) && x !in files && n in h && h[n].kind == File
    ensures HandlesOk(SetCount(h, n, Up(h[n].openCount)), files[x := n], dirs) <==> h[n].openCount < 65535
  {
    HandleAdded(files, x, n);
  }

  lemma FileClosed(h: Heap, files: map<nat, nat>, dirs: map<nat, nat>, x: nat)
    requires HandlesOk(h, files, dirs) && x in files
    ensures files[x] in h && h[files[x]].openCount > 0 && Down(h[files[x]].openCount) == h[files[x]].openCount - 1
    ensures HandlesOk(SetCount(h, files[x], Down(h[files[x]].openCount)), files - {x}, dirs)
  {
    SomeHandle(files, x);
    HandleRemoved(files, x);
  }

  lemma DirOpened(h: Heap, files: map<nat, nat>, dirs: map<nat, nat>, x: nat, n: nat)
    requires HandlesOk(h, files, dirs) && x !in dirs && n in h && h[n].kind == Dir
    ensures HandlesOk(SetCount(h, n, Up(h[n].openCount)), files, dirs[x := n]) <==> h[n].openCount < 65535
  {
    HandleAdded(dirs, x, n);
  }

  lemma DirClosed(h: Heap, files: map<nat, nat>, dirs: map<nat, nat>, x: nat)
    requires HandlesOk(h, files, dirs) && x in dirs
    ensures dirs[x] in h && h[dirs[x]].openCount > 0 && Down(h[dirs[x]].openCount) == h[dirs[x]].openCount - 1
    ensures HandlesOk(SetCount(h, dirs[x], Down(h[dirs[x]].openCount)), files, dirs - {x})
  {
    SomeHandle(dirs, x);
    HandleRemoved(dirs, x);
  }
}
