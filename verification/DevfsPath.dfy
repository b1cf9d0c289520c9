/**
 Paths and names of lib/devfs/devfs.c: the order strcmp gives, the three-way test of find_child,
 and validate_path, which splits a path into components.
 */
module DevfsPath {
  import opened Text

  /** strcmp(a, b) < 0 */
  predicate Less(a: string, b: string) {
    b != [] && (a == [] || a[0] < b[0] || (a[0] == b[0] && Less(a[1..], b[1..])))
  }

  lemma {:induction false} LessTrans(a: string, b: string, c: string)
    requires Less(a, b) && Less(b, c)
    ensures Less(a, c)
  {
    if a != [] && a[0] == b[0] && b[0] == c[0] {
      LessTrans(a[1..], b[1..], c[1..]);
    }
  }

  lemma {:induction false} LessIrreflexive(a: string)
    ensures !Less(a, a)
  {
    if a != [] {
      LessIrreflexive(a[1..]);
    }
  }

  lemma {:induction false} LessTotal(a: string, b: string)
    ensures Less(a, b) || Less(b, a) || a == b
  {
    if a != [] && b != [] && a[0] == b[0] {
      LessTotal(a[1..], b[1..]);
      if a[1..] == b[1..] {
        assert a == [a[0]] + a[1..] && b == [b[0]] + b[1..];
      }
    }
  }

  lemma LessAsym(a: string, b: string)
    requires Less(a, b)
    ensures !Less(b, a) && a != b
  {
    LessIrreflexive(a);
    if Less(b, a) {
      LessTrans(a, b, a);
    }
  }

  /** strncmp(child, name, |name|), by its sign. A string that ends early compares as smaller. */
  function Compare(child: string, name: string): int {
    if name == [] then 0
    else if child == [] then -1
    else if child[0] != name[0] then child[0] as int - name[0] as int
    else Compare(child[1..], name[1..])
  }

  /** The test of find_child is exact: a match is equality, and stopping early means the child is greater. */
  lemma {:induction false} CompareDecides(child: string, name: string)
    ensures Compare(child, name) == 0 && |child| == |name| <==> child == name
    ensures Compare(child, name) == 0 ==> |child| >= |name|
    ensures Compare(child, name) > 0 || (Compare(child, name) == 0 && |child| > |name|) <==> Less(name, child)
  {
    if name != [] && child != [] && child[0] == name[0] {
      CompareDecides(child[1..], name[1..]);
      if child[1..] == name[1..] {
        assert child == [child[0]] + child[1..] && name == [name[0]] + name[1..];
      }
    }
  }

  // ---------- splitting ----------

  type Path = seq<string>

  datatype Parse = Bad | Parsed(path: Path, trailing: bool)

  predicate GoodName(name: string) {
    name != "" && name != "." && name != ".." && '/' !in name
  }

  predicate GoodPath(path: Path) {
    forall i :: 0 <= i < |path| ==> GoodName(path[i])
  }

  /** The text of a path: components separated by slashes, after a leading one. */
  function Render(path: Path, trailing: bool): string { "/" + Tail(path, trailing) }

  function Tail(path: Path, trailing: bool): string {
    if path == [] then "" else path[0] + if |path| == 1 && !trailing then "" else "/" + Tail(path[1..], trailing)
  }

  const MOUNT_POINT := "/dev"

  /** normalize_path */
  function Normalize(path: string): string {
    if path == MOUNT_POINT || path == MOUNT_POINT + "/" then "/"
    else if |path| >= 5 && path[..5] == MOUNT_POINT + "/" then path[4..]
    else path
  }

  /** The components of `t`, the text after a slash; `first` tells the leading slash from a later one. */
  function Split(t: string, first: bool): Parse
    decreases |t|
  {
    if t == "" then Parsed([], !first)
    else
      var k := SlashAt(t);
      if !GoodName(t[..k]) then Bad
      else if k == |t| then Parsed([t], false)
      else Prepend([t[..k]], Split(t[k + 1..], false))
  }

  function Prepend(front: Path, r: Parse): Parse {
    if r.Bad? then Bad else Parsed(front + r.path, r.trailing)
  }

  /** validate_path */
  function ParsePath(path: string, allowTrailing: bool, maxLen: nat): Parse {
    var rel := Normalize(path);
    if rel == "" || |rel| >= maxLen || rel[0] != '/' then Bad
    else if !allowTrailing && |rel| > 1 && rel[|rel| - 1] == '/' then Bad
    else Split(rel[1..], true)
  }

  method FindSlash(s: string, from: nat) returns (k: nat)
    requires from <= |s|
    ensures k == from + SlashAt(s[from..])
  {
    k := from;
    while k < |s| && s[k] != '/'
      invariant from <= k <= |s|
      invariant k + SlashAt(s[k..]) == from + SlashAt(s[from..])
    {
      assert s[k..][1..] == s[k + 1..];
      k := k + 1;
    }
  }

  lemma PrependTwice(a: Path, b: Path, r: Parse)
    ensures Prepend(a, Prepend(b, r)) == Prepend(a + b, r)
  {
    if r.Parsed? {
      assert a + (b + r.path) == a + b + r.path;
    }
  }

  /** One pass of the loop of validate_path. */
  lemma SplitStep(rel: string, pos: nat, slash: nat)
    requires pos < |rel| && slash == pos + SlashAt(rel[pos..])
    ensures slash <= |rel| && '/' !in rel[pos..slash]
    ensures forall first :: Split(rel[pos..], first) ==
              if !GoodName(rel[pos..slash]) then Bad
              else if slash == |rel| then Parsed([rel[pos..slash]], false)
              else Prepend([rel[pos..slash]], Split(rel[slash + 1..], false))
  {
    var t := rel[pos..];
    assert t[..slash - pos] == rel[pos..slash];
    if slash < |rel| {
      assert t[slash - pos + 1..] == rel[slash + 1..];
    } else {
      assert rel[pos..slash] == t;
    }
  }

  method ValidatePath(path: string, allowTrailing: bool, maxLen: nat) returns (r: Parse)
    ensures r == ParsePath(path, allowTrailing, maxLen)
  {
    var rel := Normalize(path);
    if rel == "" || |rel| >= maxLen || rel[0] != '/' {
      return Bad;
    }
    if !allowTrailing && |rel| > 1 && rel[|rel| - 1] == '/' {
      return Bad;
    }
    var parts: Path := [];
    var pos, trailing := 1, false;
    while pos < |rel|
      invariant 1 <= pos <= |rel|
      invariant trailing ==> pos > 1
      invariant pos < |rel| ==> Split(rel[1..], true) == Prepend(parts, Split(rel[pos..], pos == 1))
      invariant pos == |rel| ==> Split(rel[1..], true) == Parsed(parts, trailing)
      decreases |rel| - pos
    {
      var slash := FindSlash(rel, pos);
      var component := rel[pos..slash];
      SplitStep(rel, pos, slash);
      if component == "" || component == "." || component == ".." {
        return Bad;
      }
      PrependTwice(parts, [component], if slash < |rel| then Split(rel[slash + 1..], false) else Bad);
      parts := parts + [component];
      pos, trailing := if slash == |rel| then slash else slash + 1, slash < |rel|;
    }
    return Parsed(parts, trailing);
  }

  // ---------- splitting inverts rendering ----------

  lemma TailCons(name: string, rest: Path, trailing: bool)
    requires rest == [] ==> trailing
    ensures Tail([name] + rest, trailing) == name + ("/" + Tail(rest, trailing))
  {
    assert ([name] + rest)[1..] == rest;
  }

  lemma CutAt(t: string, k: nat)
    requires k < |t| && t[k] == '/'
    ensures t == t[..k] + ("/" + t[k + 1..])
  {
  }

  lemma {:induction false} SplitIsRender(t: string, first: bool)
    ensures var r := Split(t, first);
            r.Parsed? ==> GoodPath(r.path) && (r.path == [] ==> r.trailing == !first) && t == Tail(r.path, r.trailing)
    decreases |t|
  {
    if t != "" {
      var k := SlashAt(t);
      if k < |t| {
        SplitIsRender(t[k + 1..], false);
        var rest := Split(t[k + 1..], false);
        if GoodName(t[..k]) && rest.Parsed? {
          TailCons(t[..k], rest.path, rest.trailing);
          CutAt(t, k);
        }
      }
    }
  }

  lemma SplitOne(name: string, first: bool)
    requires GoodName(name)
    ensures Split(name, first) == Parsed([name], false)
  {
    FirstSlash(name, "");
    assert name + "" == name && name[..|name|] == name;
  }

  lemma SplitMore(name: string, rest: string, first: bool)
    requires GoodName(name)
    ensures Split(name + ("/" + rest), first) == Prepend([name], Split(rest, false))
  {
    FirstSlash(name, "/" + rest);
    var t := name + ("/" + rest);
    assert t[..|name|] == name && t[|name| + 1..] == rest;
  }

  lemma {:induction false} RenderIsSplit(path: Path, trailing: bool, first: bool)
    requires GoodPath(path) && (path == [] ==> trailing == !first)
    ensures Split(Tail(path, trailing), first) == Parsed(path, trailing)
    decreases |path|
  {
    if path != [] {
      hide Split;
      var name := path[0];
      if |path| == 1 && !trailing {
        SplitOne(name, first);
        assert Tail(path, trailing) == name && path == [name];
      } else {
        SplitMore(name, Tail(path[1..], trailing), first);
        RenderIsSplit(path[1..], trailing, false);
        assert Tail(path, trailing) == name + ("/" + Tail(path[1..], trailing));
        assert path == [name] + path[1..];
      }
    }
  }

  lemma {:induction false} LastSlash(path: Path, trailing: bool)
    requires GoodPath(path) && path != []
    ensures var t := Tail(path, trailing); t != "" && (t[|t| - 1] == '/' <==> trailing)
  {
    var t := Tail(path, trailing);
    if |path| == 1 {
      assert t == path[0] + if trailing then "/" else "";
      assert path[0][|path[0]| - 1] in path[0];
    } else {
      LastSlash(path[1..], trailing);
    }
  }

  lemma {:induction false} SplitIsShort(t: string, first: bool)
    ensures var r := Split(t, first); r.Parsed? ==> forall i :: 0 <= i < |r.path| ==> |r.path[i]| <= |t|
    decreases |t|
  {
    if t != "" && SlashAt(t) < |t| {
      SplitIsShort(t[SlashAt(t) + 1..], false);
    }
  }

  predicate Fit(path: Path, maxLen: nat) { forall i :: 0 <= i < |path| ==> |path[i]| < maxLen }

  /** Every component fits a buffer of the maximal path length with its terminator. */
  lemma ParseFits(text: string, allowTrailing: bool, maxLen: nat)
    ensures var r := ParsePath(text, allowTrailing, maxLen); r.Parsed? ==> Fit(r.path, maxLen)
  {
    var rel := Normalize(text);
    if rel != "" {
      SplitIsShort(rel[1..], true);
    }
  }

  /**
   validate_path accepts exactly the texts of paths with proper components, short enough, with a slash at
   the end only where one is allowed, and gives back those components.
   */
  lemma ParseExact(text: string, allowTrailing: bool, maxLen: nat, path: Path, trailing: bool)
    ensures ParsePath(text, allowTrailing, maxLen) == Parsed(path, trailing) <==>
            && GoodPath(path)
            && (trailing ==> allowTrailing && path != [])
            && |Normalize(text)| < maxLen
            && Normalize(text) == Render(path, trailing)
  {
    var rel := Normalize(text);
    if rel != "" && rel[0] == '/' {
      assert rel == "/" + rel[1..];
      SplitIsRender(rel[1..], true);
      if GoodPath(path) && (path == [] ==> !trailing) {
        RenderIsSplit(path, trailing, true);
        if path != [] {
          LastSlash(path, trailing);
        }
      }
    }
  }
}
