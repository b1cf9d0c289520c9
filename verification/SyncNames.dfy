/**
 Path names of lib/adb/adb_sync.c: which destinations are allowed, and the staging and backup names
 an upload uses beside its destination.
 */
module SyncNames {
  import opened Bytes
  import opened Text

  const ROOT := "/STORAGE:/"
  const PART := ".adb-part-"
  const OLD := ".adb-old-"
  const SIDE_SUFFIX_LEN := 20

  // ---------- allowed destinations ----------

  predicate DotsAt(rest: string) {
    rest == "." || StartsWith(rest, "./") || rest == ".." || StartsWith(rest, "../")
  }

  predicate PlainChar(c: char) { c >= ' ' && c != '\\' && c != ':' }

  /** The test the scan makes at position `i` behind the root. */
  predicate ScanOk(t: string, i: nat)
    requires i < |t|
  {
    && PlainChar(t[i])
    && (t[i] == '/' ==> i + 1 < |t| && t[i + 1] != '/')
    && (i == 0 || t[i - 1] == '/' ==> !DotsAt(t[i..]))
  }

  predicate ScanAll(t: string) { forall i :: 0 <= i < |t| ==> ScanOk(t, i) }

  predicate Framed(path: string, pathMax: nat) {
    && |ROOT| < |path| < pathMax && StartsWith(path, ROOT)
    && path[|path| - 1] != '/' && !Contains(path, PART) && !Contains(path, OLD)
  }

  /** What sync_path_allowed accepts. */
  predicate Allowed(path: string, pathMax: nat) {
    Framed(path, pathMax) && ScanAll(path[|ROOT|..])
  }

  /** sync_path_allowed */
  method PathAllowed(path: string, pathMax: nat) returns (ok: bool)
    ensures ok <==> Allowed(path, pathMax)
  {
    if !Framed(path, pathMax) {
      return false;
    }
    var t := path[|ROOT|..];
    var i := 0;
    while i < |t|
      invariant 0 <= i <= |t|
      invariant forall j :: 0 <= j < i ==> ScanOk(t, j)
    {
      if t[i] < ' ' || t[i] == '\\' || t[i] == ':' || (t[i] == '/' && (i + 1 == |t| || t[i + 1] == '/')) {
        assert !ScanOk(t, i);
        return false;
      }
      if (i == 0 || t[i - 1] == '/') && DotsAt(t[i..]) {
        assert !ScanOk(t, i);
        return false;
      }
      i := i + 1;
    }
    return true;
  }

  ghost predicate PlainName(name: string) {
    name != "." && name != ".." && forall c :: c in name ==> PlainChar(c)
  }

  /** Proper components; only the first may be empty. */
  ghost predicate ProperComponents(cs: seq<string>) {
    forall k :: 0 <= k < |cs| ==> PlainName(cs[k]) && (k > 0 ==> cs[k] != "")
  }

  lemma DotsAreComponents(t: string)
    ensures DotsAt(t) <==> t[..SlashAt(t)] == "." || t[..SlashAt(t)] == ".."
  {
    var k := SlashAt(t);
    assert forall i :: 0 <= i < k ==> t[..k][i] == t[i];
    if k < |t| && t[..k] == "." {
      assert t[..2] == "./";
    }
    if k < |t| && t[..k] == ".." {
      assert t[..3] == "../";
    }
    if k == |t| {
      assert t[..k] == t;
    }
    if StartsWith(t, "./") {
      assert t[..2][0] == '.' && t[..2][1] == '/';
      assert k == 1 && t[..1] == ".";
    }
    if StartsWith(t, "../") {
      assert t[..3][0] == '.' && t[..3][1] == '.' && t[..3][2] == '/';
      assert k == 2 && t[..2] == "..";
    }
  }

  ghost predicate FirstOk(t: string, k: nat)
    requires k <= |t|
  {
    forall i :: 0 <= i < k ==> ScanOk(t, i)
  }

  /** Inside the first component only its own characters and its name matter. */
  lemma FirstComponent(t: string)
    requires t != "" && t[0] != '/'
    ensures FirstOk(t, SlashAt(t)) <==> PlainName(t[..SlashAt(t)])
  {
    var k := SlashAt(t);
    assert k > 0;
    assert t[0..] == t;
    DotsAreComponents(t);
    assert forall i :: 0 <= i < k ==> t[..k][i] == t[i];
    forall i | 0 <= i < k
      ensures t[i] != '/'
    {
      assert t[i] in t[..k];
    }
    if FirstOk(t, k) {
      assert ScanOk(t, 0);
      forall c | c in t[..k]
        ensures PlainChar(c)
      {
        var i :| 0 <= i < k && t[..k][i] == c;
        assert ScanOk(t, i);
      }
    }
    if PlainName(t[..k]) {
      forall i | 0 <= i < k
        ensures ScanOk(t, i)
      {
        assert t[i] in t[..k];
        assert i > 0 ==> t[i - 1] != '/';
      }
    }
  }

  lemma ScanBeyond(t: string, k: nat, i: nat)
    requires k < |t| && t[k] == '/' && i < |t[k + 1..]|
    ensures ScanOk(t, k + 1 + i) <==> ScanOk(t[k + 1..], i)
  {
    assert t[k + 1..][i..] == t[k + 1 + i..];
  }

  lemma ScanSplits(t: string, k: nat)
    requires k < |t| && t[k] == '/'
    ensures ScanAll(t) <==> FirstOk(t, k) && ScanOk(t, k) && ScanAll(t[k + 1..])
  {
    hide ScanOk;
    var u := t[k + 1..];
    if ScanAll(t) {
      forall i | 0 <= i < |u|
        ensures ScanOk(u, i)
      {
        assert ScanOk(t, k + 1 + i);
        ScanBeyond(t, k, i);
      }
    }
    if FirstOk(t, k) && ScanOk(t, k) && ScanAll(u) {
      forall i | 0 <= i < |t|
        ensures ScanOk(t, i)
      {
        if i > k {
          ScanBeyond(t, k, i - k - 1);
        }
      }
    }
  }

  /** The slash is accepted exactly when the next component is not empty. */
  lemma SlashTest(t: string, k: nat)
    requires k < |t| && t[k] == '/' && k == SlashAt(t)
    ensures ScanOk(t, k) <==> Components(t[k + 1..])[0] != ""
  {
    var u := t[k + 1..];
    assert u != "" ==> u[0] == t[k + 1];
    assert Components(u)[0] == u[..SlashAt(u)];
    assert k > 0 ==> t[k - 1] in t[..k];
    if k == 0 {
      assert t[0..] == t;
      DotsAreComponents(t);
    }
  }

  lemma ProperSplits(name: string, rest: seq<string>)
    requires rest != []
    ensures ProperComponents([name] + rest) <==> PlainName(name) && rest[0] != "" && ProperComponents(rest)
  {
    var cs := [name] + rest;
    if ProperComponents(cs) {
      forall k | 0 <= k < |rest|
        ensures PlainName(rest[k]) && rest[k] != ""
      {
        assert cs[k + 1] == rest[k];
      }
      assert cs[0] == name;
    }
  }

  /** The scan accepts exactly the tails whose components are proper. */
  lemma {:induction false} ScanMeans(t: string)
    ensures ScanAll(t) <==> ProperComponents(Components(t))
    decreases |t|
  {
    var k := SlashAt(t);
    if t != "" && t[0] != '/' {
      FirstComponent(t);
    }
    if k == |t| {
      assert t[..k] == t;
      assert Components(t)[0] == t;
      assert FirstOk(t, k) <==> ScanAll(t);
    } else {
      ScanMeans(t[k + 1..]);
      ScanSplits(t, k);
      SlashTest(t, k);
      ProperSplits(t[..k], Components(t[k + 1..]));
    }
  }

  /**
   A destination is allowed exactly when it lies below the storage root, fits, has proper components and is
   no side name. An empty first component is let through.
   */
  lemma AllowedMeans(path: string, pathMax: nat)
    ensures Allowed(path, pathMax) <==>
            Framed(path, pathMax) && ProperComponents(Components(path[|ROOT|..]))
  {
    if Framed(path, pathMax) {
      ScanMeans(path[|ROOT|..]);
    }
  }

  // ---------- side names ----------

  /** snprintk with "%s.adb-part-%08x" */
  function Temporary(path: string, token: U32): string { path + PART + Hex(token, 8) }

  /** snprintk with "%s.adb-old-%08x" */
  function Backup(path: string, token: U32): string { path + OLD + Hex(token, 8) }

  lemma TokenInjective(a: string, b: string, token: U32, other: U32)
    requires a + Hex(token, 8) == b + Hex(other, 8)
    ensures a == b && token == other
  {
    var s := a + Hex(token, 8);
    assert s[..|s| - 8] == a && s[..|s| - 8] == b;
    assert s[|s| - 8..] == Hex(token, 8) && s[|s| - 8..] == Hex(other, 8);
    assert Power16(8) == 0x1_0000_0000;
    HexInjective(token, other, 8);
  }

  lemma DropTail(a: string, b: string, x: string)
    requires a + x == b + x
    ensures a == b
  {
    assert (a + x)[..|a|] == a && (b + x)[..|b|] == b;
  }

  /** Side names fit their buffers and are all different: per path, per token and per purpose. */
  lemma SideNamesDiffer(p: string, q: string, t: U32, u: U32)
    ensures Temporary(p, t) == Temporary(q, u) ==> p == q && t == u
    ensures Backup(p, t) == Backup(q, u) ==> p == q && t == u
    ensures Temporary(p, t) != Backup(q, u)
  {
    if Temporary(p, t) == Temporary(q, u) {
      TokenInjective(p + PART, q + PART, t, u);
      DropTail(p, q, PART);
    }
    if Backup(p, t) == Backup(q, u) {
      TokenInjective(p + OLD, q + OLD, t, u);
      DropTail(p, q, OLD);
    }
    var a, b := Temporary(p, t), Backup(q, u);
    assert a[|a| - 10] == 't' && b[|b| - 10] == 'd';
  }

  lemma SideNamesFit(path: string, pathMax: nat, token: U32)
    requires |path| < pathMax
    ensures |Temporary(path, token)| < pathMax + SIDE_SUFFIX_LEN && |Backup(path, token)| < pathMax + SIDE_SUFFIX_LEN
  {
  }

  ghost predicate IsSideName(name: string) { Contains(name, PART) || Contains(name, OLD) }

  /** No side name is an allowed destination. */
  lemma SideNamesNotAllowed(path: string, token: U32, pathMax: nat)
    ensures IsSideName(Temporary(path, token)) && IsSideName(Backup(path, token))
    ensures !Allowed(Temporary(path, token), pathMax) && !Allowed(Backup(path, token), pathMax)
  {
    ContainsInside(path, PART, Hex(token, 8));
    ContainsInside(path, OLD, Hex(token, 8));
  }
}
