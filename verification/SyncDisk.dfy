/** What upload does to the file system: a map from names to contents in which a folder is above other names. */
module SyncDisk {
  import opened Bytes
  import opened SyncNames
  import opened Text

  datatype Item = File(bytes: seq<Byte>) | Folder

  type Disk = map<string, Item>

  predicate Below(name: string, folder: string) {
    |folder| < |name| && name[..|folder|] == folder && name[|folder|] == '/'
  }

  predicate Within(name: string, folder: string) { name == folder || Below(name, folder) }

  predicate SameAt(a: Disk, b: Disk, d: string) {
    (d in a <==> d in b) && (d in a && d in b ==> a[d] == b[d])
  }

  /** Neither name is within the other. */
  predicate Apart(a: string, b: string) { !Within(a, b) && !Within(b, a) }

  // ---------- renaming and removing ----------

  /** Renaming a folder takes everything below it along, in place of whatever was at or below the new name. */
  function Carried(disk: Disk, from: string, to: string): Disk {
    var kept := set n | n in disk && !Within(n, from) && !Within(n, to);
    var moved := set n | n in disk && Within(n, from) :: to + n[|from|..];
    map n | n in kept + moved :: if n in kept then disk[n] else CarriedItem(disk, from, to, n)
  }

  /** What was at the old address of `n`. */
  function CarriedItem(disk: Disk, from: string, to: string, n: string): Item {
    if |to| <= |n| && from + n[|to|..] in disk then disk[from + n[|to|..]] else Folder
  }

  function Moved(disk: Disk, from: string, to: string): Disk
    requires from in disk
  {
    if disk[from].File? then (disk - {from})[to := disk[from]] else Carried(disk, from, to)
  }

  /** A folder can be removed only when nothing is below it. */
  predicate Removable(disk: Disk, name: string) {
    name in disk && disk[name].Folder? ==> forall n :: n in disk ==> !Below(n, name)
  }

  lemma Readdressed(n: string, from: string, to: string)
    requires Within(n, from)
    ensures var k := to + n[|from|..]; Within(k, to) && from + k[|to|..] == n
  {
    var k := to + n[|from|..];
    assert k[|to|..] == n[|from|..];
    assert n == n[..|from|] + n[|from|..];
    if n == from {
      assert k == to;
    }
  }

  /** Exactly what is at each name after a folder was renamed. */
  lemma CarriedAt(disk: Disk, from: string, to: string, k: string)
    ensures var c := Carried(disk, from, to);
            if Within(k, to) then
              var n := from + k[|to|..];
              (k in c <==> n in disk) && (k in c ==> c[k] == disk[n])
            else if Within(k, from) then k !in c
            else SameAt(disk, c, k)
  {
    var kept := set n | n in disk && !Within(n, from) && !Within(n, to);
    var moved := set n | n in disk && Within(n, from) :: to + n[|from|..];
    if k in moved {
      var n :| n in disk && Within(n, from) && k == to + n[|from|..];
      Readdressed(n, from, to);
    }
    if Within(k, to) {
      Readdressed(k, to, from);
      if from + k[|to|..] in disk {
        assert k in moved;
      }
    }
  }

  lemma WithinBoth(k: string, a: string, b: string)
    requires Within(k, a) && Within(k, b)
    ensures !Apart(a, b)
  {
    assert a == k[..|a|] && b == k[..|b|];
    if |a| < |b| {
      assert b[|a|] == k[|a|] && b[..|a|] == a;
    } else if |b| < |a| {
      assert a[|b|] == k[|b|] && a[..|b|] == b;
    }
  }

  /** A rename changes nothing but what is within the two names. */
  lemma MovedElsewhere(disk: Disk, from: string, to: string, k: string)
    requires from in disk && !Within(k, from) && !Within(k, to)
    ensures SameAt(disk, Moved(disk, from, to), k)
  {
    CarriedAt(disk, from, to, k);
  }

  lemma MovedThere(disk: Disk, from: string, to: string)
    requires from in disk
    ensures to in Moved(disk, from, to) && Moved(disk, from, to)[to] == disk[from]
  {
    CarriedAt(disk, from, to, to);
    assert from + to[|to|..] == from;
  }

  /** A folder leaves nothing behind. */
  lemma MovedAway(disk: Disk, from: string, to: string, k: string)
    requires from in disk && Apart(from, to) && (k == from || (disk[from].Folder? && Below(k, from)))
    ensures k !in Moved(disk, from, to)
  {
    if Within(k, to) {
      WithinBoth(k, from, to);
    }
    CarriedAt(disk, from, to, k);
  }

  /** Renaming back restores every name that is not within the new one. */
  lemma MovedBack(disk: Disk, from: string, to: string, k: string)
    requires from in disk && Apart(from, to) && !Within(k, to)
    ensures var next := Moved(disk, from, to); to in next && SameAt(disk, Moved(next, to, from), k)
  {
    var next := Moved(disk, from, to);
    MovedThere(disk, from, to);
    if disk[from].Folder? {
      CarriedAt(disk, from, to, k);
      CarriedAt(next, to, from, k);
      if Within(k, from) {
        Readdressed(k, from, to);
        CarriedAt(disk, from, to, to + k[|from|..]);
      }
    }
  }

  // ---------- side names ----------

  /** A side name is below a folder exactly when its destination is. */
  lemma SideBelow(d: string, token: U32, folder: string)
    ensures Below(Backup(d, token), folder) <==> Below(d, folder)
    ensures Below(Temporary(d, token), folder) <==> Below(d, folder)
  {
    NoSlash(token);
    TailBelow(d, OLD + Hex(token, 8), folder);
    TailBelow(d, PART + Hex(token, 8), folder);
    assert d + (OLD + Hex(token, 8)) == Backup(d, token) && d + (PART + Hex(token, 8)) == Temporary(d, token);
  }

  lemma TailBelow(d: string, tail: string, folder: string)
    requires '/' !in tail
    ensures Below(d + tail, folder) <==> Below(d, folder)
  {
    var n := d + tail;
    assert forall i :: |d| <= i < |n| ==> n[i] in tail;
    if |folder| < |d| {
      assert d[..|folder|] == n[..|folder|];
    }
  }

  lemma NoSlash(token: U32)
    ensures '/' !in OLD + Hex(token, 8) && '/' !in PART + Hex(token, 8)
  {
    HexHasNoSlash(token, 8);
    assert '/' !in OLD && '/' !in PART;
  }

  lemma {:induction false} HexHasNoSlash(n: nat, digits: nat)
    ensures '/' !in Hex(n, digits)
    decreases digits
  {
    if digits > 0 {
      HexHasNoSlash(n / 16, digits - 1);
    }
  }

  /** Whatever is within a side name is a side name. */
  lemma WithinSideName(d: string, path: string, token: U32)
    requires Within(d, Backup(path, token))
    ensures IsSideName(d)
  {
    var b := Backup(path, token);
    assert d == b + d[|b|..];
    ContainsInside(path, OLD, Hex(token, 8) + d[|b|..]);
    assert path + OLD + (Hex(token, 8) + d[|b|..]) == d;
  }

  /** The three names of an upload are apart. */
  lemma NamesApart(path: string, token: U32)
    ensures Apart(path, Backup(path, token)) && Apart(path, Temporary(path, token))
    ensures Apart(Temporary(path, token), Backup(path, token))
  {
    SideNamesDiffer(path, path, token, token);
    assert Backup(path, token)[|path|] == '.' && Temporary(path, token)[|path|] == '.';
    var t, b := Temporary(path, token), Backup(path, token);
    SideBelow(path, token, t);
    SideBelow(path, token, b);
  }
}
