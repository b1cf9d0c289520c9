/**
 The directory cursor of devfs_readdir. A call sees the child names as they are at that moment; between
 calls children may come and go, so a whole listing is a run over arbitrary sorted lists of names.
 */
module DevfsListing {
  import opened DevfsPath

  datatype DirHandle = DirHandle(last: string, started: bool)

  datatype Next = End | Next(name: string)

  ghost predicate Sorted(names: seq<string>) {
    forall i, j :: 0 <= i < j < |names| ==> Less(names[i], names[j])
  }

  /** A name the cursor has not passed. */
  predicate Ahead(d: DirHandle, name: string) {
    !d.started || Less(d.last, name)
  }

  /** The first name ahead of the cursor. */
  function NextName(names: seq<string>, d: DirHandle): (r: Next)
    ensures r.Next? ==> r.name in names && Ahead(d, r.name)
    ensures r.End? ==> forall x :: x in names ==> !Ahead(d, x)
  {
    if names == [] then End
    else if Ahead(d, names[0]) then Next(names[0])
    else NextName(names[1..], d)
  }

  function Advance(d: DirHandle, r: Next): DirHandle {
    if r.End? then d else DirHandle(r.name, true)
  }

  /** The cursor after the calls that saw `lists`. */
  function Cursor(lists: seq<seq<string>>): DirHandle {
    if lists == [] then DirHandle("", false)
    else
      var d := Cursor(lists[..|lists| - 1]);
      Advance(d, NextName(lists[|lists| - 1], d))
  }

  /** What call `i` returned. */
  function Returned(lists: seq<seq<string>>, i: nat): Next
    requires i < |lists|
  {
    NextName(lists[i], Cursor(lists[..i]))
  }

  lemma CursorStep(lists: seq<seq<string>>, i: nat)
    requires i < |lists|
    ensures Cursor(lists[..i + 1]) == Advance(Cursor(lists[..i]), Returned(lists, i))
  {
    assert lists[..i + 1][..i] == lists[..i];
  }

  /** Nothing in front of the first name ahead is ahead. */
  lemma {:induction false} NextIsLeast(names: seq<string>, d: DirHandle, x: string)
    requires Sorted(names) && x in names && Ahead(d, x)
    ensures var r := NextName(names, d); r.Next? && (r.name == x || Less(r.name, x))
  {
    if !Ahead(d, names[0]) {
      NextIsLeast(names[1..], d, x);
    }
  }

  /** The cursor only moves forward, so what it passed stays passed. */
  lemma {:induction false} PassedStays(lists: seq<seq<string>>, i: nat, j: nat, x: string)
    requires i <= j <= |lists| && !Ahead(Cursor(lists[..i]), x)
    ensures !Ahead(Cursor(lists[..j]), x)
    decreases j - i
  {
    if i < j {
      CursorStep(lists, i);
      var d, r := Cursor(lists[..i]), Returned(lists, i);
      if r.Next? && Less(r.name, x) {
        LessTrans(d.last, r.name, x);
      }
      PassedStays(lists, i + 1, j, x);
    }
  }

  /** What was returned is passed. */
  lemma ReturnedPassed(lists: seq<seq<string>>, i: nat)
    requires i < |lists| && Returned(lists, i).Next?
    ensures !Ahead(Cursor(lists[..i + 1]), Returned(lists, i).name)
  {
    CursorStep(lists, i);
    LessIrreflexive(Returned(lists, i).name);
  }

  /** Whatever happens between the calls, the names come in strictly increasing order. */
  lemma ListingIncreases(lists: seq<seq<string>>, i: nat, j: nat)
    requires i < j < |lists| && Returned(lists, i).Next? && Returned(lists, j).Next?
    ensures Less(Returned(lists, i).name, Returned(lists, j).name)
  {
    var x, y := Returned(lists, i).name, Returned(lists, j).name;
    ReturnedPassed(lists, i);
    PassedStays(lists, i + 1, j, x);
    LessTotal(x, y);
    if Less(y, x) {
      LessTrans(Cursor(lists[..j]).last, y, x);
    }
  }

  /** How often the first `n` calls returned `x`. */
  ghost function TimesReturned(lists: seq<seq<string>>, n: nat, x: string): nat
    requires n <= |lists|
  {
    if n == 0 then 0 else TimesReturned(lists, n - 1, x) + if Returned(lists, n - 1) == Next(x) then 1 else 0
  }

  /** A name seen by every call so far was returned once if the cursor passed it and not at all otherwise. */
  lemma {:induction false} OnceWhenPassed(lists: seq<seq<string>>, n: nat, x: string)
    requires n <= |lists| && forall i :: 0 <= i < n ==> Sorted(lists[i]) && x in lists[i]
    ensures TimesReturned(lists, n, x) == if Ahead(Cursor(lists[..n]), x) then 0 else 1
  {
    if n == 0 {
      assert lists[..0] == [];
    } else {
      OnceWhenPassed(lists, n - 1, x);
      CursorStep(lists, n - 1);
      var d, r := Cursor(lists[..n - 1]), Returned(lists, n - 1);
      if Ahead(d, x) {
        NextIsLeast(lists[n - 1], d, x);
        if r.name == x {
          LessIrreflexive(x);
        }
      } else {
        PassedStays(lists, n - 1, n, x);
      }
    }
  }

  /** A child present throughout is returned exactly once before the end marker, and never after. */
  lemma ListedExactlyOnce(lists: seq<seq<string>>, end: nat, x: string)
    requires end < |lists| && Returned(lists, end).End?
    requires forall i :: 0 <= i <= end ==> Sorted(lists[i]) && x in lists[i]
    ensures TimesReturned(lists, end, x) == 1
    ensures forall i :: end <= i < |lists| ==> Returned(lists, i) != Next(x)
  {
    OnceWhenPassed(lists, end, x);
    forall i | end <= i < |lists|
      ensures Returned(lists, i) != Next(x)
    {
      PassedStays(lists, end, i, x);
    }
  }

  /** With nothing changing, the calls return the children in order and then the end marker. */
  lemma {:induction false} QuietListing(names: seq<string>, lists: seq<seq<string>>, n: nat)
    requires Sorted(names) && n < |lists| && n <= |names| && forall i :: 0 <= i <= n ==> lists[i] == names
    ensures Returned(lists, n) == if n < |names| then Next(names[n]) else End
    ensures Cursor(lists[..n]) == if n == 0 then DirHandle("", false) else DirHandle(names[n - 1], true)
  {
    if n > 0 {
      QuietListing(names, lists, n - 1);
      CursorStep(lists, n - 1);
    } else {
      assert lists[..0] == [];
    }
    AheadFrom(names, Cursor(lists[..n]), n, 0);
  }

  lemma {:induction false} AheadFrom(names: seq<string>, d: DirHandle, n: nat, i: nat)
    requires Sorted(names) && i <= n <= |names|
    requires d == if n == 0 then DirHandle("", false) else DirHandle(names[n - 1], true)
    ensures NextName(names[i..], d) == if n < |names| then Next(names[n]) else End
    decreases n - i
  {
    if i < n {
      NotAhead(names, d, n, i);
      assert names[i..][1..] == names[i + 1..];
      AheadFrom(names, d, n, i + 1);
    } else if i == 0 {
      assert names[0..] == names;
    }
    assert names[0..] == names;
  }

  lemma NotAhead(names: seq<string>, d: DirHandle, n: nat, i: nat)
    requires Sorted(names) && i < n <= |names| && d == DirHandle(names[n - 1], true)
    ensures !Ahead(d, names[i])
  {
    if i == n - 1 {
      LessIrreflexive(names[i]);
    } else {
      LessAsym(names[i], names[n - 1]);
    }
  }
}
