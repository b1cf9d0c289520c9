/**
 The path grants of app/src/services/app/app_context.c: which paths are well formed, and which of them lie
 under the storage root or a grant, component by component.
 */
module AppPaths {
  import opened Bytes
  import opened Text
  import opened Utf8

  const MAX_PATH_BYTES := 255
  const MAX_GRANTS := 8

  // ---------- components ----------

  /** The text with components `cs`. */
  function Join(cs: seq<string>): string
    requires cs != []
  {
    if |cs| == 1 then cs[0] else cs[0] + "/" + Join(cs[1..])
  }

  lemma JoinTwo(name: string, rest: seq<string>)
    requires rest != []
    ensures Join([name] + rest) == name + "/" + Join(rest)
  {
    assert ([name] + rest)[1..] == rest;
  }

  lemma CutAtSlash(t: string, k: nat)
    requires k < |t| && t[k] == '/'
    ensures t == t[..k] + "/" + t[k + 1..]
  {
  }

  lemma {:induction false} JoinComponents(t: string)
    ensures Join(Components(t)) == t
    decreases |t|
  {
    hide SlashAt;
    hide Join;
    var k := SlashAt(t);
    if k < |t| {
      JoinComponents(t[k + 1..]);
      JoinTwo(t[..k], Components(t[k + 1..]));
      CutAtSlash(t, k);
    } else {
      JoinOne(t);
    }
  }

  lemma JoinOne(t: string)
    ensures Join([t]) == t
  {
  }

  lemma {:induction false} JoinAppend(a: seq<string>, b: seq<string>)
    requires a != [] && b != []
    ensures Join(a + b) == Join(a) + "/" + Join(b)
  {
    assert (a + b)[1..] == a[1..] + b;
    if |a| > 1 {
      JoinAppend(a[1..], b);
      assert a[0] + "/" + (Join(a[1..]) + "/" + Join(b)) == a[0] + "/" + Join(a[1..]) + "/" + Join(b);
    } else {
      assert a[1..] + b == b;
    }
  }

  lemma SlashSame(a: string, b: string)
    ensures SlashAt(a + "/" + b) == SlashAt(a)
  {
    var k := SlashAt(a);
    var rest := a[k..] + "/" + b;
    assert a + "/" + b == a[..k] + rest;
    FirstSlash(a[..k], rest);
  }

  lemma CutBefore(a: string, b: string, k: nat)
    requires k <= |a|
    ensures var t := a + "/" + b;
            t[..k] == a[..k] && if k < |a| then t[k + 1..] == a[k + 1..] + "/" + b else t[k + 1..] == b
  {
  }

  lemma {:induction false} ComponentsAppend(a: string, b: string)
    ensures Components(a + "/" + b) == Components(a) + Components(b)
    decreases |a|
  {
    hide SlashAt;
    var k := SlashAt(a);
    SlashSame(a, b);
    CutBefore(a, b, k);
    if k == |a| {
      assert a[..k] == a;
    } else {
      ComponentsAppend(a[k + 1..], b);
      Assoc([a[..k]], Components(a[k + 1..]), Components(b));
    }
  }

  // ---------- prefixes ----------

  /** prefix_boundary */
  predicate PrefixBoundary(value: string, prefix: string) {
    && prefix != "" && StartsWith(value, prefix)
    && (|value| == |prefix| || value[|prefix|] == '/' || prefix[|prefix| - 1] == '/')
  }

  /** The grant without a slash at its end. */
  function Stem(prefix: string): string
    requires prefix != ""
  {
    if prefix[|prefix| - 1] == '/' then prefix[..|prefix| - 1] else prefix
  }

  lemma BoundaryIsComponents(value: string, prefix: string)
    requires PrefixBoundary(value, prefix)
    ensures Components(Stem(prefix)) <= Components(value)
    ensures prefix[|prefix| - 1] == '/' ==> Components(Stem(prefix)) < Components(value)
  {
    var n := |prefix|;
    assert value == value[..n] + value[n..];
    if prefix[n - 1] == '/' {
      var g := Stem(prefix);
      assert value == g + "/" + value[n..];
      ComponentsAppend(g, value[n..]);
    } else if |value| > n {
      assert value == prefix + "/" + value[n + 1..];
      ComponentsAppend(prefix, value[n + 1..]);
    } else {
      assert value == prefix;
    }
  }

  lemma GluedBoundary(prefix: string, rest: string)
    requires prefix != ""
    ensures PrefixBoundary(Stem(prefix) + "/" + rest, prefix)
  {
    var g := Stem(prefix);
    var value := g + "/" + rest;
    if prefix[|prefix| - 1] == '/' {
      assert prefix == g + "/";
    }
  }

  lemma ComponentsAreBoundary(value: string, prefix: string)
    requires prefix != "" && Components(Stem(prefix)) <= Components(value)
    requires prefix[|prefix| - 1] == '/' ==> Components(Stem(prefix)) < Components(value)
    ensures PrefixBoundary(value, prefix)
  {
    hide Components;
    hide Join;
    var g, cs := Stem(prefix), Components(value);
    var n := |Components(g)|;
    JoinComponents(value);
    JoinComponents(g);
    assert cs == cs[..n] + cs[n..] && cs[..n] == Components(g);
    if n < |cs| {
      JoinAppend(cs[..n], cs[n..]);
      GluedBoundary(prefix, Join(cs[n..]));
    } else {
      assert cs[..n] == cs;
    }
  }

  /** A boundary prefix is exactly a prefix of components; a slash at its end asks for something below it. */
  lemma BoundaryMeans(value: string, prefix: string)
    ensures PrefixBoundary(value, prefix) <==>
            && prefix != ""
            && if prefix[|prefix| - 1] == '/' then Components(Stem(prefix)) < Components(value)
               else Components(prefix) <= Components(value)
  {
    if PrefixBoundary(value, prefix) {
      BoundaryIsComponents(value, prefix);
    }
    if prefix != "" && Components(Stem(prefix)) <= Components(value)
       && (prefix[|prefix| - 1] == '/' ==> Components(Stem(prefix)) < Components(value)) {
      ComponentsAreBoundary(value, prefix);
    }
  }

  // ---------- well-formed paths ----------

  /** The test for a `..` component at position `i`. */
  predicate DotDotAt(t: string, i: nat)
    requires i < |t|
  {
    && t[i] == '.' && i + 1 < |t| && t[i + 1] == '.' && (i == 0 || t[i - 1] == '/')
    && (i + 2 == |t| || t[i + 2] == '/')
  }

  predicate PlainAt(t: string, i: nat)
    requires i < |t|
  {
    t[i] >= ' ' && !DotDotAt(t, i)
  }

  predicate AllPlain(t: string) { forall i :: 0 <= i < |t| ==> PlainAt(t, i) }

  predicate WellFormed(path: string)
    requires ByteText(path)
  {
    && path != "" && path[0] == '/' && |path| <= MAX_PATH_BYTES && path[|path| - 1] != '/'
    && Accepts(Codes(path)) && !Contains(path, "//") && AllPlain(path)
  }

  /** valid_path */
  method ValidPath(path: string) returns (ok: bool)
    requires ByteText(path)
    ensures ok <==> WellFormed(path)
  {
    if path == "" || path[0] != '/' || |path| > MAX_PATH_BYTES || path[|path| - 1] == '/' {
      return false;
    }
    var utf8 := ValidUtf8(Codes(path));
    if !utf8 || Contains(path, "//") {
      return false;
    }
    var i := 0;
    while i < |path|
      invariant 0 <= i <= |path|
      invariant forall j :: 0 <= j < i ==> PlainAt(path, j)
    {
      if !PlainAt(path, i) {
        return false;
      }
      i := i + 1;
    }
    return true;
  }

  // ---------- what well-formed means for the components ----------

  /** No empty component but possibly the first. */
  ghost predicate NoGaps(cs: seq<string>) { forall k :: 0 < k < |cs| ==> cs[k] != "" }

  ghost predicate NoDouble(t: string) { !Contains(t, "//") && (t == "" || t[|t| - 1] != '/') }

  lemma {:induction false} ContainsBehind(t: string, k: nat)
    requires k < |t| && t[k] == '/' && '/' !in t[..k]
    ensures Contains(t, "//") <==> (k + 1 < |t| && t[k + 1] == '/') || Contains(t[k + 1..], "//")
    decreases k
  {
    if k == 0 {
      assert StartsWith(t, "//") <==> |t| >= 2 && t[1] == '/' by {
        if |t| >= 2 && t[1] == '/' {
          assert t[..2] == "//";
        }
      }
    } else {
      assert t[0] in t[..k];
      assert !StartsWith(t, "//") by { assert |t| >= 2 ==> t[..2][0] == t[0]; }
      assert t[1..][..k - 1] == t[..k][1..] && t[1..][k..] == t[k + 1..];
      ContainsBehind(t[1..], k - 1);
    }
  }

  lemma {:induction false} NoSlashNoDouble(t: string)
    requires '/' !in t
    ensures !Contains(t, "//")
  {
    if t != "" {
      assert t[0] in t;
      assert !StartsWith(t, "//") by { assert |t| >= 2 ==> t[..2][0] == t[0]; }
      NoSlashNoDouble(t[1..]);
    }
  }

  lemma NoGapsSplits(name: string, rest: seq<string>)
    requires rest != []
    ensures NoGaps([name] + rest) <==> rest[0] != "" && NoGaps(rest)
  {
    var cs := [name] + rest;
    if NoGaps(cs) {
      forall k | 0 <= k < |rest|
        ensures rest[k] != ""
      {
        assert cs[k + 1] == rest[k];
      }
    }
  }

  lemma {:induction false} NoDoubleMeans(t: string)
    ensures NoDouble(t) <==> NoGaps(Components(t))
    decreases |t|
  {
    var k := SlashAt(t);
    if k == |t| {
      assert t[..k] == t;
      NoSlashNoDouble(t);
      assert t != "" ==> t[|t| - 1] in t;
    } else {
      var u := t[k + 1..];
      ContainsBehind(t, k);
      NoDoubleMeans(u);
      NoGapsSplits(t[..k], Components(u));
      assert u != "" ==> u[0] == t[k + 1] && u[|u| - 1] == t[|t| - 1];
      assert u == "" ==> t[|t| - 1] == '/';
      assert Components(u)[0] == u[..SlashAt(u)];
    }
  }

  ghost predicate PlainPart(name: string) { name != ".." && forall c :: c in name ==> c >= ' ' }

  ghost predicate PlainParts(cs: seq<string>) { forall k :: 0 <= k < |cs| ==> PlainPart(cs[k]) }

  ghost predicate PlainUpTo(t: string, k: nat)
    requires k <= |t|
  {
    forall i :: 0 <= i < k ==> PlainAt(t, i)
  }

  /** Before the first slash the test can only succeed at the start. */
  lemma DotDotFirst(t: string, k: nat, i: nat)
    requires i < k <= |t| && '/' !in t[..k] && (k < |t| ==> t[k] == '/')
    ensures DotDotAt(t, i) <==> i == 0 && t[..k] == ".."
  {
    assert forall j :: 0 <= j < k ==> t[j] in t[..k];
    if t[..k] == ".." {
      assert t[..k][0] == '.' && t[..k][1] == '.';
    }
    if t[i] == '.' && i == 0 && k == 2 && t[1] == '.' {
      assert t[..k] == "..";
    }
  }

  /** Before the first slash only its own characters matter. */
  lemma FirstPlain(t: string, k: nat)
    requires k <= |t| && '/' !in t[..k] && (k < |t| ==> t[k] == '/')
    ensures PlainUpTo(t, k) <==> PlainPart(t[..k])
  {
    hide DotDotAt;
    assert forall i :: 0 <= i < k ==> t[i] in t[..k];
    forall i | 0 <= i < k
      ensures PlainAt(t, i) <==> t[i] >= ' ' && !(i == 0 && t[..k] == "..")
    {
      DotDotFirst(t, k, i);
    }
    if PlainUpTo(t, k) {
      forall c | c in t[..k]
        ensures c >= ' '
      {
        var i :| 0 <= i < k && t[..k][i] == c;
        assert PlainAt(t, i);
      }
      assert k > 0 ==> PlainAt(t, 0);
    }
  }

  lemma PlainBeyond(t: string, k: nat, i: nat)
    requires k < |t| && t[k] == '/' && i < |t[k + 1..]|
    ensures PlainAt(t, k + 1 + i) <==> PlainAt(t[k + 1..], i)
  {
  }

  lemma PlainSplits(t: string, k: nat)
    requires k < |t| && t[k] == '/'
    ensures AllPlain(t) <==> PlainUpTo(t, k) && AllPlain(t[k + 1..])
  {
    hide PlainAt;
    var u := t[k + 1..];
    if AllPlain(t) {
      forall i | 0 <= i < |u|
        ensures PlainAt(u, i)
      {
        assert PlainAt(t, k + 1 + i);
        PlainBeyond(t, k, i);
      }
    }
    if PlainUpTo(t, k) && AllPlain(u) {
      forall i | 0 <= i < |t|
        ensures PlainAt(t, i)
      {
        if i > k {
          PlainBeyond(t, k, i - k - 1);
        } else if i == k {
          SlashIsPlain(t, k);
        }
      }
    }
  }

  lemma SlashIsPlain(t: string, k: nat)
    requires k < |t| && t[k] == '/'
    ensures PlainAt(t, k)
  {
  }

  lemma PlainPartsSplit(name: string, rest: seq<string>)
    ensures PlainParts([name] + rest) <==> PlainPart(name) && PlainParts(rest)
  {
    var cs := [name] + rest;
    if PlainParts(cs) {
      forall k | 0 <= k < |rest|
        ensures PlainPart(rest[k])
      {
        assert cs[k + 1] == rest[k];
      }
      assert cs[0] == name;
    }
  }

  lemma {:induction false} AllPlainMeans(t: string)
    ensures AllPlain(t) <==> PlainParts(Components(t))
    decreases |t|
  {
    var k := SlashAt(t);
    FirstPlain(t, k);
    if k == |t| {
      assert t[..k] == t;
      assert Components(t)[0] == t;
    } else {
      AllPlainMeans(t[k + 1..]);
      PlainSplits(t, k);
      PlainPartsSplit(t[..k], Components(t[k + 1..]));
    }
  }

  /**
   valid_path accepts exactly the absolute UTF-8 paths whose components are plain and not empty, none of them `..`.
   */
  lemma WellFormedMeans(path: string)
    requires ByteText(path)
    ensures WellFormed(path) <==>
            && path != "" && path[0] == '/' && |path| <= MAX_PATH_BYTES && IsUtf8(Codes(path))
            && NoGaps(Components(path)) && PlainParts(Components(path))
  {
    AcceptsExactlyUtf8(Codes(path));
    NoDoubleMeans(path);
    AllPlainMeans(path);
  }

  // ---------- grants ----------

  datatype Grant = Null | Grant(path: string)

  /** The grants that are looked at: those counted, at most the maximum, without null entries. */
  ghost predicate Granted(grants: seq<Grant>, path: string) {
    exists i :: 0 <= i < |grants| && i < MAX_GRANTS && grants[i].Grant? && PrefixBoundary(path, grants[i].path)
  }

  /** webos_app_path_allowed */
  method AppPathAllowed(root: string, grants: seq<Grant>, path: string) returns (ok: bool)
    requires ByteText(path)
    ensures ok <==> WellFormed(path) && (PrefixBoundary(path, root) || Granted(grants, path))
  {
    var valid := ValidPath(path);
    if !valid {
      return false;
    }
    if PrefixBoundary(path, root) {
      return true;
    }
    var i := 0;
    while i < |grants| && i < MAX_GRANTS
      invariant 0 <= i <= |grants| && i <= MAX_GRANTS
      invariant forall j :: 0 <= j < i ==> !(grants[j].Grant? && PrefixBoundary(path, grants[j].path))
    {
      if grants[i].Grant? && PrefixBoundary(path, grants[i].path) {
        return true;
      }
      i := i + 1;
    }
    return false;
  }

  /** An accepted path stays below the root or grant it matched: no component takes it back up. */
  lemma AcceptedStaysBelow(path: string, prefix: string)
    requires ByteText(path) && WellFormed(path) && PrefixBoundary(path, prefix)
    ensures Components(Stem(prefix)) <= Components(path)
    ensures forall k :: 0 <= k < |Components(path)| ==>
              Components(path)[k] != ".." && (k > 0 ==> Components(path)[k] != "")
  {
    BoundaryIsComponents(path, prefix);
    WellFormedMeans(path);
  }
}
