/**
 No file is torn: whatever fails and wherever it stops, each destination holds after every file operation what the
 last installed upload left there, or has it at a backup name, exactly when no upload ends at a folder that has
 destinations below it. Such a folder is moved aside with everything in it.
 */
module SyncTorn {
  import opened Bytes
  import opened Errno
  import opened SyncDisk
  import opened SyncNames
  import opened Sync
  import opened SyncSafety

  // ---------- the history only grows ----------

  /** Tokens are only ever issued, and operations only ever recorded. */
  predicate Onward(s: State, t: State) { s.issued <= t.issued && s.trace <= t.trace }

  lemma OnwardTrans(a: State, b: State, c: State)
    requires Onward(a, b) && Onward(b, c)
    ensures Onward(a, c)
  {
  }

  lemma DidOnward(s: State, t: State, disk: Disk)
    requires Onward(s, t)
    ensures Onward(s, Did(t, disk))
  {
  }

  lemma CleanupOnward(e: Env, s: State)
    ensures Onward(s, CleanupPartial(e, s))
  {
    hide Removable;
    DidOnward(s, s, s.disk);
  }

  lemma FailOnward(e: Env, s: State, reason: string, drain: Phase)
    ensures Onward(s, FailTransfer(e, s, reason, drain).state)
  {
    hide CleanupPartial;
    CleanupOnward(e, s);
  }

  lemma StageOnward(e: Env, s: State)
    ensures Onward(s, StageUpload(e, s).state)
  {
    hide ChooseSidePaths;
    hide FailTransfer;
    ChooseKeeps(e, s, 32);
    var r := ChooseSidePaths(e, s, 32);
    var d := Looked(r.state);
    FailOnward(e, r.state, if r.status == ENAMETOOLONG then "path too long" else "no free staging name", DrainHeader);
    FailOnward(e, d, "destination is not a file", DrainHeader);
    FailOnward(e, Did(d, d.disk), "cannot create partial file", DrainHeader);
  }

  lemma StartOnward(e: Env, s: State)
    ensures Onward(s, StartSend(e, s).state)
  {
    hide StageUpload;
    hide FailTransfer;
    hide SpecFault;
    hide LastComma;
    var text := Chars(s.spec);
    var t := s.(spec := []);
    if SpecFault(e, text) == "" {
      FaultFree(e, text);
      StageOnward(e, t.(path := text[..LastComma(text)]));
    } else {
      FailOnward(e, t, SpecFault(e, text), DrainHeader);
    }
  }

  lemma InstallOnward(e: Env, s: State, had: bool)
    ensures Onward(s, InstallStaged(e, s, had).state)
  {
    hide Moved;
    hide Removable;
  }

  lemma ReplaceOnward(e: Env, s: State)
    ensures Onward(s, ReplaceDestination(e, s).state)
  {
    hide InstallStaged;
    hide Moved;
    var a := Looked(Did(s, s.disk).(fileOpen := false));
    var b := TryRename(e, a, s.path, s.backup);
    InstallOnward(e, a, false);
    InstallOnward(e, b, true);
    OnwardTrans(s, a, InstallStaged(e, a, false).state);
    OnwardTrans(s, b, InstallStaged(e, b, true).state);
  }

  lemma FinishOnward(e: Env, s: State)
    ensures Onward(ReplaceDestination(e, s).state, FinishSend(e, s).state) && Onward(s, FinishSend(e, s).state)
  {
    hide ReplaceDestination;
    hide FailTransfer;
    ReplaceOnward(e, s);
    FailOnward(e, ReplaceDestination(e, s).state, "cannot install completed file", DrainHeader);
  }

  lemma RecordOnward(e: Env, s: State, id: U32, value: U32)
    ensures Onward(s, RecordArrived(e, s, id, value).state)
  {
    hide FinishSend;
    hide FailTransfer;
    FinishOnward(e, s);
    FailOnward(e, s, "invalid or oversized DATA", DiscardAndClose);
  }

  lemma RequestOnward(e: Env, s: State, id: U32, value: U32)
    ensures Onward(s, RequestArrived(e, s, id, value).state)
  {
    hide Send;
    SendFrame(e, s, Fail("only bounded STAT and SEND are supported"));
  }

  lemma HeaderOnward(e: Env, s: State, b: Byte)
    ensures Onward(s, TakeHeaderByte(e, s, b).state)
  {
    hide RecordArrived;
    hide RequestArrived;
    hide Get32;
    var h := s.header + [b];
    if |h| == 8 {
      var t, id, value := s.(header := []), Get32(h[..4]), Get32(h[4..]);
      RecordOnward(e, t, id, value);
      RequestOnward(e, t, id, value);
    }
  }

  lemma LostOnward(e: Env, s: State, lost: nat)
    requires lost <= s.remaining
    ensures Onward(s, WriteFails(e, s, lost).state)
  {
    hide FailTransfer;
    var left := s.remaining - lost;
    FailOnward(e, s.(remaining := left), "write failed", if left == 0 then DrainHeader else DrainData);
  }

  lemma DataOnward(e: Env, s: State, b: Byte, behind: nat)
    requires s.remaining > 0
    ensures Onward(s, TakeDataByte(e, s, b, behind).state)
  {
    hide WriteFails;
    hide Grown;
    var t := if s.fileOpen then s.(writes := s.writes + 1) else s;
    LostOnward(e, t, 1);
    LostOnward(e, t, if 1 + behind <= s.remaining then 1 + behind else s.remaining);
  }

  lemma SpecOnward(e: Env, s: State, b: Byte)
    requires s.remaining > 0
    ensures Onward(s, TakeSpecByte(e, s, b).state)
  {
    hide StartSend;
    hide StatsOf;
    hide StatAllowed;
    StartOnward(e, s.(spec := s.spec + [b], remaining := s.remaining - 1));
  }

  lemma SettleOnward(e: Env, s: State)
    ensures Onward(s, Settle(e, s).state)
  {
    hide WriteFails;
    hide StartSend;
    LostOnward(e, s, 0);
    StartOnward(e, s);
  }

  lemma StepOnward(e: Env, s: State, b: Byte, behind: nat)
    ensures Onward(s, Step(e, s, b, behind).state) && Onward(Settle(e, s).state, Step(e, s, b, behind).state)
  {
    hide Settle;
    hide TakeHeaderByte;
    hide TakeDataByte;
    hide TakeSpecByte;
    SettleOnward(e, s);
    var t := Settle(e, s).state;
    HeaderOnward(e, t, b);
    if t.remaining > 0 {
      DataOnward(e, t, b, behind);
      SpecOnward(e, t, b);
    }
    OnwardTrans(s, t, Step(e, s, b, behind).state);
  }

  lemma {:induction false} FeedOnward(e: Env, s: State, packet: seq<Byte>)
    ensures Onward(s, Feed(e, s, packet).state)
    decreases packet
  {
    hide Step;
    if packet != [] {
      var r := Step(e, s, packet[0], |packet| - 1);
      StepOnward(e, s, packet[0], |packet| - 1);
      if r.status == Ok {
        FeedOnward(e, r.state, packet[1..]);
        OnwardTrans(s, r.state, Feed(e, r.state, packet[1..]).state);
      }
    }
  }

  lemma ActOnward(e: Env, s: State, event: Event)
    ensures Onward(s, Act(e, s, event))
  {
    hide Feed;
    hide CleanupPartial;
    CleanupOnward(e, s);
    if event.Packet? {
      FeedOnward(e, s, event.bytes);
    }
  }

  // ---------- a folder that is moved aside ----------

  /** All disks so far had every destination whole. */
  ghost predicate NoneTorn(s: State) {
    forall k :: 0 <= k < |s.trace| ==> AllWhole(s.trace[k].held, s.trace[k].disk)
  }

  lemma TornStays(s: State, t: State)
    requires Onward(s, t) && !NoneTorn(s)
    ensures !NoneTorn(t)
  {
    hide AllWhole;
    var k :| 0 <= k < |s.trace| && !AllWhole(s.trace[k].held, s.trace[k].disk);
    assert t.trace[k] == s.trace[k];
  }

  /** A destination below the folder is then neither at its name nor at a backup name. */
  lemma BelowIsGone(s: State, d: string)
    requires Apart(s.path, s.backup) && s.path in s.disk && s.disk[s.path].Folder? && Below(d, s.path)
    ensures d !in Moved(s.disk, s.path, s.backup)
    ensures forall u: U32 :: Backup(d, u) !in Moved(s.disk, s.path, s.backup)
  {
    hide Moved;
    hide Below;
    hide Backup;
    MovedAway(s.disk, s.path, s.backup, d);
    forall u: U32
      ensures Backup(d, u) !in Moved(s.disk, s.path, s.backup)
    {
      SideBelow(d, u, s.path);
      MovedAway(s.disk, s.path, s.backup, Backup(d, u));
    }
  }

  lemma BackupApart(e: Env, s: State)
    requires Named(e, s)
    ensures Apart(s.path, s.backup)
  {
    SyncDisk.NamesApart(s.path, Token(s.ordinal));
  }

  /** The operation that moves the folder aside shows in the trace. */
  lemma BuriedShows(e: Env, s: State)
    requires Named(e, s) && Buries(e, s)
    ensures !NoneTorn(FinishSend(e, s).state)
  {
    hide FinishSend;
    hide Named;
    hide Moved;
    hide Below;
    hide IsSideName;
    var a := Looked(Did(s, s.disk).(fileOpen := false));
    var b := TryRename(e, a, s.path, s.backup);
    var d :| d in s.held && !IsSideName(d) && Below(d, s.path);
    assert Apart(s.path, s.backup) by { BackupApart(e, s); }
    BelowIsGone(s, d);
    assert !Whole(s.held, b.disk, d);
    assert b.trace[|b.trace| - 1] == Snapshot(b.disk, s.held);
    assert !NoneTorn(b);
    AsideComesFirst(e, s);
    FinishOnward(e, s);
    TornStays(b, ReplaceDestination(e, s).state);
    TornStays(ReplaceDestination(e, s).state, FinishSend(e, s).state);
  }

  lemma AsideComesFirst(e: Env, s: State)
    requires MovesFolder(e, s)
    ensures var a := Looked(Did(s, s.disk).(fileOpen := false));
            Onward(TryRename(e, a, s.path, s.backup), ReplaceDestination(e, s).state)
  {
    hide InstallStaged;
    hide Moved;
    var a := Looked(Did(s, s.disk).(fileOpen := false));
    InstallOnward(e, TryRename(e, a, s.path, s.backup), true);
  }

  lemma FinishingIs(e: Env, s: State, b: Byte)
    requires Finishing(s, b)
    ensures TakeHeaderByte(e, s, b) == FinishSend(e, s.(header := []))
  {
    hide Get32;
    hide FinishSend;
  }

  lemma ByteShows(e: Env, f: Frame, s: State, b: Byte, behind: nat)
    requires Good(e, f, s) && !StepSpares(e, s, b)
    ensures !NoneTorn(Step(e, s, b, behind).state)
  {
    hide Safe;
    hide Outside;
    hide Counted;
    hide Handled;
    hide Settle;
    hide Named;
    hide Buries;
    hide Get32;
    hide TakeHeaderByte;
    SettleKeeps(e, f, s);
    var t := Settle(e, s).state;
    var u := t.(header := []);
    SameBuries(e, t);
    NamedSame(e, t, u);
    BuriedShows(e, u);
    FinishingIs(e, t, b);
  }

  lemma {:induction false} FeedShows(e: Env, f: Frame, s: State, packet: seq<Byte>)
    requires Good(e, f, s) && f.whole && !FeedSpares(e, s, packet)
    ensures !NoneTorn(Feed(e, s, packet).state)
    decreases packet
  {
    hide Good;
    hide Step;
    hide StepSpares;
    hide NoneTorn;
    var r := Step(e, s, packet[0], |packet| - 1);
    if !StepSpares(e, s, packet[0]) {
      ByteShows(e, f, s, packet[0], |packet| - 1);
      if r.status == Ok {
        FeedOnward(e, r.state, packet[1..]);
        TornStays(r.state, Feed(e, r.state, packet[1..]).state);
      }
    } else {
      StepKeeps(e, f, s, packet[0], |packet| - 1);
      FeedShows(e, f, r.state, packet[1..]);
    }
  }

  lemma ActShows(e: Env, f: Frame, s: State, event: Event)
    requires Good(e, f, s) && f.whole && !ActSpares(e, s, event)
    ensures !NoneTorn(Act(e, s, event))
  {
    hide Good;
    hide Feed;
    hide FeedSpares;
    hide NoneTorn;
    FeedShows(e, f, s, event.bytes);
  }

  lemma {:induction false} RunShows(e: Env, f: Frame, s: State, events: seq<Event>)
    requires Good(e, f, s) && f.whole && !RunSpares(e, s, events)
    ensures !NoneTorn(Run(e, s, events))
  {
    hide Good;
    hide Act;
    hide ActSpares;
    hide NoneTorn;
    var k := |events| - 1;
    var t := Run(e, s, events[..k]);
    if !RunSpares(e, s, events[..k]) {
      RunShows(e, f, s, events[..k]);
      ActOnward(e, t, events[k]);
      TornStays(t, Act(e, t, events[k]));
    } else {
      RunKeeps(e, f, s, events[..k]);
      ActShows(e, f, t, events[k]);
    }
  }

  /**
   Whatever packets arrive, however they are cut, whichever operations and replies fail and whenever streams
   close: after every file operation each destination holds what the last upload installed there left (or what
   was there at first), or is gone with exactly that at a backup name, and one with neither is absent, if and only
   if no upload ended while a folder with destinations below it was found and moved away at its destination. In any
   case every OKAY stands for an installed upload, and nothing outside the storage root changes.
   */
  lemma NeverTorn(e: Env, s: State, events: seq<Event>)
    requires s == Fresh(s) && s.held == s.disk && s.installed == [] && s.trace == [] && s.sent == []
    ensures var t := Run(e, s, events);
            && (NoneTorn(t) && AllWhole(t.held, t.disk) <==> RunSpares(e, s, events))
            && RootOnly(s.disk, t.disk) && (forall k :: 0 <= k < |t.trace| ==> RootOnly(s.disk, t.trace[k].disk))
            && t.held == Replay(s.disk, t.installed) && Okays(t.sent) <= |t.installed|
  {
    hide AllWhole;
    hide RootOnly;
    hide Run;
    hide RunSpares;
    StartIsWhole(s.disk);
    var f, g := Frame(s.disk, {}, map[], 0, true), Frame(s.disk, {}, map[], 0, false);
    assert Good(e, f, s) && Good(e, g, s);
    RunKeeps(e, g, s, events);
    if RunSpares(e, s, events) {
      RunKeeps(e, f, s, events);
    } else {
      RunShows(e, f, s, events);
    }
  }

  // ---------- one install, from any history ----------

  /**
   The destination holds what it did before the install or all the new contents, or is gone with the old contents
   at this upload's backup name, or was not there.
   */
  ghost predicate OldOrNew(s: State, disk: Disk) {
    if s.path in disk then (s.path in s.disk && disk[s.path] == s.disk[s.path]) || disk[s.path] == File(s.received)
    else s.path in s.disk ==> s.backup in disk && disk[s.backup] == s.disk[s.path]
  }

  /** Nothing but the destination, its staging file and what is within the backup name has changed. */
  ghost predicate OnlyHere(s: State, disk: Disk) { OnlyAt(s.disk, disk, s.path, s.temporary, s.backup) }

  /** The install moves a folder aside, and something in it. */
  ghost predicate Carries(e: Env, s: State) { MovesFolder(e, s) && exists d :: d in s.disk && Below(d, s.path) }

  /** What every disk of the install is; `clean` says that the names below the destination are left alone. */
  ghost predicate Proper(s: State, disk: Disk, clean: bool) {
    OldOrNew(s, disk) && (clean ==> OnlyHere(s, disk))
  }

  /** Every disk since `s` was `Proper`. */
  ghost predicate Since(s: State, t: State, clean: bool) {
    && s.trace <= t.trace && SameRequest(s, t) && Proper(s, t.disk, clean)
    && forall k :: |s.trace| <= k < |t.trace| ==> Proper(s, t.trace[k].disk, clean)
  }

  lemma OnlyAtTrans(a: Disk, b: Disk, c: Disk, path: string, temporary: string, backup: string)
    requires OnlyAt(a, b, path, temporary, backup) && OnlyAt(b, c, path, temporary, backup)
    ensures OnlyAt(a, c, path, temporary, backup)
  {
    hide Within;
    forall d | d != path && d != temporary && !Within(d, backup)
      ensures SameAt(a, c, d)
    {
      assert SameAt(a, b, d) && SameAt(b, c, d);
    }
  }

  lemma SinceDid(s: State, t: State, disk: Disk, clean: bool)
    requires Since(s, t, clean) && Proper(s, disk, clean)
    ensures Since(s, Did(t, disk), clean)
  {
    hide Proper;
  }

  lemma SinceSame(s: State, t: State, u: State, clean: bool)
    requires Since(s, t, clean) && SameRequest(t, u) && u.disk == t.disk && u.trace == t.trace
    ensures Since(s, u, clean)
  {
    hide Proper;
  }

  predicate ThreeNames(s: State) {
    Apart(s.path, s.temporary) && Apart(s.path, s.backup) && Apart(s.temporary, s.backup)
  }

  lemma SinceStart(e: Env, s: State, clean: bool)
    requires Staged(e, s)
    ensures Since(s, s, clean) && ThreeNames(s)
  {
    SyncDisk.NamesApart(s.path, Token(s.ordinal));
  }

  /** The destination is moved aside. */
  lemma AsideProper(s: State, clean: bool)
    requires ThreeNames(s) && s.path in s.disk
    requires clean && s.disk[s.path].Folder? ==> forall d :: d in s.disk ==> !Below(d, s.path)
    ensures var next := Moved(s.disk, s.path, s.backup);
            && Proper(s, next, clean) && SameAt(s.disk, next, s.temporary)
            && s.path !in next && s.backup in next && next[s.backup] == s.disk[s.path]
  {
    hide Moved;
    var next := Moved(s.disk, s.path, s.backup);
    MovedThere(s.disk, s.path, s.backup);
    MovedAway(s.disk, s.path, s.backup, s.path);
    MovedElsewhere(s.disk, s.path, s.backup, s.temporary);
    if clean {
      forall d | d != s.path && d != s.temporary && !Within(d, s.backup)
        ensures SameAt(s.disk, next, d)
      {
        if Below(d, s.path) {
          UntouchedBelow(s.disk, s.path, s.backup, d);
        } else {
          MovedElsewhere(s.disk, s.path, s.backup, d);
        }
      }
    }
  }

  lemma UntouchedBelow(disk: Disk, from: string, to: string, d: string)
    requires from in disk && Apart(from, to) && Below(d, from) && !Within(d, to)
    requires disk[from].File? || d !in disk
    ensures SameAt(disk, Moved(disk, from, to), d)
  {
    CarriedAt(disk, from, to, d);
  }

  /** The staging file is moved in, and the backup removed. */
  lemma InProper(s: State, disk: Disk, clean: bool)
    requires ThreeNames(s) && Proper(s, disk, clean) && s.temporary in disk && disk[s.temporary] == File(s.received)
    ensures var next := Moved(disk, s.temporary, s.path);
            && Proper(s, next, clean) && Proper(s, next - {s.backup}, clean)
            && s.path in next && next[s.path] == File(s.received)
  {
    var next := Moved(disk, s.temporary, s.path);
    if clean {
      OnlyAtTrans(s.disk, disk, next, s.path, s.temporary, s.backup);
      OnlyAtTrans(s.disk, next, next - {s.backup}, s.path, s.temporary, s.backup);
    }
  }

  /** The destination is moved back. */
  lemma BackProper(s: State, clean: bool)
    requires ThreeNames(s) && s.path in s.disk
    ensures var aside := Moved(s.disk, s.path, s.backup);
            s.backup in aside && Proper(s, Moved(aside, s.backup, s.path), clean)
  {
    hide Moved;
    hide Within;
    var aside := Moved(s.disk, s.path, s.backup);
    MovedThere(s.disk, s.path, s.backup);
    forall d | !Within(d, s.backup)
      ensures SameAt(s.disk, Moved(aside, s.backup, s.path), d)
    {
      MovedBack(s.disk, s.path, s.backup, d);
    }
  }

  /** What a completed install has recorded. */
  predicate Recorded(s: State, t: State) {
    && s.path in t.disk && t.disk[s.path] == File(s.received)
    && t.installed == s.installed + [(s.path, s.received)] && t.held == s.held[s.path := File(s.received)]
  }

  lemma InSince(e: Env, s: State, b: State, had: bool, clean: bool)
    requires Since(s, b, clean) && ThreeNames(s) && b.installed == s.installed && b.held == s.held
    requires s.temporary in b.disk ==> b.disk[s.temporary] == File(s.received)
    requires CanRename(e, b, s.temporary, s.path)
    ensures var r := InstallStaged(e, b, had); Since(s, r.state, clean) && r.status == Ok && Recorded(s, r.state)
  {
    hide Moved;
    hide Proper;
    hide Removable;
    var n := b.(installed := b.installed + [(s.path, s.received)], held := b.held[s.path := File(s.received)]);
    var c := TryRename(e, n, s.temporary, s.path).(temporaryLive := false);
    InProper(s, b.disk, clean);
    SinceSame(s, b, n, clean);
    SinceDid(s, n, c.disk, clean);
    SinceSame(s, Did(n, c.disk), c, clean);
    SinceDid(s, c, c.disk - {s.backup}, clean);
    SinceDid(s, c, c.disk, clean);
    assert s.path != s.backup;
  }

  lemma OutSince(e: Env, s: State, b: State, had: bool, clean: bool)
    requires Since(s, b, clean) && ThreeNames(s) && !CanRename(e, b, s.temporary, s.path)
    requires had ==> s.path in s.disk && b.disk == Moved(s.disk, s.path, s.backup)
    ensures var r := InstallStaged(e, b, had); Since(s, r.state, clean) && r.status != Ok
  {
    hide Moved;
    hide Proper;
    SinceDid(s, b, b.disk, clean);
    if had {
      var c := Did(b, b.disk);
      SinceDid(s, c, c.disk, clean);
      BackProper(s, clean);
      SinceDid(s, c, Moved(c.disk, s.backup, s.path), clean);
    }
  }

  lemma InstallSince(e: Env, s: State, b: State, had: bool, clean: bool)
    requires Since(s, b, clean) && ThreeNames(s) && b.installed == s.installed && b.held == s.held
    requires s.temporary in b.disk ==> b.disk[s.temporary] == File(s.received)
    requires had ==> s.path in s.disk && b.disk == Moved(s.disk, s.path, s.backup)
    ensures var r := InstallStaged(e, b, had); Since(s, r.state, clean) && (r.status == Ok ==> Recorded(s, r.state))
  {
    hide InstallStaged;
    hide Since;
    hide Recorded;
    if CanRename(e, b, s.temporary, s.path) {
      InSince(e, s, b, had, clean);
    } else {
      OutSince(e, s, b, had, clean);
    }
  }

  lemma ReplaceSince(e: Env, s: State, clean: bool)
    requires Staged(e, s) && (clean ==> !Carries(e, s))
    ensures var r := ReplaceDestination(e, s); Since(s, r.state, clean) && (r.status == Ok ==> Recorded(s, r.state))
  {
    hide InstallStaged;
    hide Named;
    hide Moved;
    hide Proper;
    hide Below;
    hide ThreeNames;
    hide Recorded;
    SinceStart(e, s, clean);
    SinceDid(s, s, s.disk, clean);
    var closed := Did(s, s.disk).(fileOpen := false);
    var a := Looked(closed);
    SinceSame(s, Did(s, s.disk), a, clean);
    SinceDid(s, a, a.disk, clean);
    var had := Exists(e, closed, s.path);
    if !(s.fileOpen && !e.ok(s.ops)) {
      if had && CanRename(e, a, s.path, s.backup) {
        AsideProper(s, clean);
        SinceDid(s, a, Moved(a.disk, s.path, s.backup), clean);
        InstallSince(e, s, TryRename(e, a, s.path, s.backup), true, clean);
      } else if !had {
        InstallSince(e, s, a, false, clean);
      }
    }
  }

  lemma InstallRecords(e: Env, s: State, had: bool)
    ensures var r := InstallStaged(e, s, had);
            r.state.sent == s.sent && (r.status != Ok ==> r.state.installed == s.installed && r.state.held == s.held)
  {
    hide CanRename;
    hide Moved;
    hide Removable;
  }

  /** A refused install records nothing. */
  lemma RefusedRecords(e: Env, s: State)
    ensures var r := ReplaceDestination(e, s);
            r.state.sent == s.sent && (r.status != Ok ==> r.state.installed == s.installed && r.state.held == s.held)
  {
    hide Exists;
    hide CanRename;
    hide Moved;
    hide InstallStaged;
    var a := Looked(Did(s, s.disk).(fileOpen := false));
    InstallRecords(e, a, false);
    InstallRecords(e, TryRename(e, a, s.path, s.backup), true);
  }

  lemma CleanedProper(s: State, disk: Disk, clean: bool)
    requires ThreeNames(s) && Proper(s, disk, clean)
    ensures Proper(s, disk - {s.temporary}, clean)
  {
    if clean {
      OnlyAtTrans(s.disk, disk, disk - {s.temporary}, s.path, s.temporary, s.backup);
    }
  }

  lemma FailSince(e: Env, s: State, t: State, reason: string, drain: Phase, clean: bool)
    requires Since(s, t, clean) && ThreeNames(s)
    ensures var u := FailTransfer(e, t, reason, drain).state;
            && Since(s, u, clean) && u.installed == t.installed && u.held == t.held
            && u.sent == t.sent + if e.answer(t.sends) == Ok then [Fail(reason)] else []
  {
    hide Proper;
    hide ThreeNames;
    hide Removable;
    var c := if t.fileOpen then Did(t, t.disk).(fileOpen := false) else t;
    SinceDid(s, t, t.disk, clean);
    SinceDid(s, c, c.disk, clean);
    CleanedProper(s, c.disk, clean);
    SinceDid(s, c, c.disk - {s.temporary}, clean);
    SinceSame(s, CleanupPartial(e, t), FailTransfer(e, t, reason, drain).state, clean);
  }

  lemma FinishSince(e: Env, s: State, clean: bool)
    requires Staged(e, s) && (clean ==> !Carries(e, s))
    ensures Since(s, FinishSend(e, s).state, clean)
  {
    hide ReplaceDestination;
    hide FailTransfer;
    hide Proper;
    hide Named;
    hide Carries;
    SinceStart(e, s, clean);
    ReplaceSince(e, s, clean);
    FailSince(e, s, ReplaceDestination(e, s).state, "cannot install completed file", DrainHeader, clean);
  }

  /** What is carried away is missing from the disk right behind the move. */
  lemma CarriedShows(e: Env, s: State)
    requires Staged(e, s) && Carries(e, s)
    ensures var t := FinishSend(e, s).state;
            exists k :: |s.trace| <= k < |t.trace| && !OnlyHere(s, t.trace[k].disk)
  {
    hide FinishSend;
    hide Moved;
    hide Named;
    var a := Looked(Did(s, s.disk).(fileOpen := false));
    var b := TryRename(e, a, s.path, s.backup);
    var d :| d in s.disk && Below(d, s.path);
    SinceStart(e, s, false);
    MovedAway(s.disk, s.path, s.backup, d);
    NotWithinBoth(s, d);
    assert !SameAt(s.disk, b.disk, d);
    AsideComesFirst(e, s);
    FinishOnward(e, s);
    OnwardTrans(b, ReplaceDestination(e, s).state, FinishSend(e, s).state);
    var k := |b.trace| - 1;
    assert FinishSend(e, s).state.trace[k] == b.trace[k] == Snapshot(b.disk, s.held);
  }

  lemma NotWithinBoth(s: State, d: string)
    requires ThreeNames(s) && Below(d, s.path)
    ensures d != s.path && d != s.temporary && !Within(d, s.backup)
  {
    if Within(d, s.backup) {
      WithinBoth(d, s.path, s.backup);
    }
  }

  /**
   From any staged upload, after every file operation of its install, cleaning up after a failure included, the
   destination holds its old contents or all the new ones, or the old ones are at this upload's backup name. No name
   but the upload's own is touched if and only if it does not move a folder with something in it.
   */
  lemma InstallIsSafe(e: Env, s: State)
    requires Staged(e, s)
    ensures var t := FinishSend(e, s).state;
            && s.trace <= t.trace && OldOrNew(s, t.disk)
            && (forall k :: |s.trace| <= k < |t.trace| ==> OldOrNew(s, t.trace[k].disk))
            && ((forall k :: |s.trace| <= k < |t.trace| ==> OnlyHere(s, t.trace[k].disk)) <==> !Carries(e, s))
            && (!Carries(e, s) ==> OnlyHere(s, t.disk))
  {
    hide FinishSend;
    hide OldOrNew;
    hide OnlyHere;
    hide Staged;
    hide Carries;
    FinishSince(e, s, false);
    if Carries(e, s) {
      CarriedShows(e, s);
    } else {
      FinishSince(e, s, true);
    }
  }

  /** OKAY is sent only when the destination holds all the data received, and a FAIL leaves what is held as it was. */
  lemma OkayMeansInstalled(e: Env, s: State)
    requires Staged(e, s)
    ensures var t := FinishSend(e, s).state;
            && (t.sent == s.sent + [Okay] ==> Recorded(s, t))
            && (t.sent == s.sent || t.sent == s.sent + [Okay] || (t.installed == s.installed && t.held == s.held))
  {
    hide ReplaceDestination;
    hide FailTransfer;
    hide Since;
    hide Named;
    SinceStart(e, s, false);
    ReplaceSince(e, s, false);
    RefusedRecords(e, s);
    FailSince(e, s, ReplaceDestination(e, s).state, "cannot install completed file", DrainHeader, false);
    assert |s.sent + [Okay]| != |s.sent|;
    assert (s.sent + [Okay])[|s.sent|] == Okay;
  }

  // ---------- a folder that goes unnoticed ----------

  const DIRECTORY := "/STORAGE:/dir"
  const CHILD := "/STORAGE:/dir/a"

  /** The first lookup fails, everything else works. */
  const Blink := Env(64, 64, n => n != 0, n => true, n => Ok, t => BadMode)

  /** A request to upload to the folder, its staging names chosen. */
  const Asked :=
    State(RequestSpec, [], 0, [], DIRECTORY, Temporary(DIRECTORY, 1), Backup(DIRECTORY, 1), false, false, false, 1,
          map[DIRECTORY := Folder, CHILD := File([7])], 0, 0, 0, [], 1, [], [],
          map[DIRECTORY := Folder, CHILD := File([7])], [])

  lemma ExampleNames()
    ensures Below(CHILD, DIRECTORY) && Asked.temporary !in Asked.disk && Asked.backup !in Asked.disk
    ensures ThreeNames(Asked) && CHILD != DIRECTORY
  {
    assert CHILD[..|DIRECTORY|] == DIRECTORY;
    SyncDisk.NamesApart(DIRECTORY, 1);
    SideBelow(DIRECTORY, 1, DIRECTORY);
    assert Temporary(DIRECTORY, 1)[|DIRECTORY|] == '.' && Backup(DIRECTORY, 1)[|DIRECTORY|] == '.';
  }

  /** The upload is staged although its destination is a folder. */
  lemma ExampleStaged()
    ensures CreateStaging(Blink, Asked) == Outcome(Opened(Looked(Asked)), Ok)
    ensures MovesFolder(Blink, Opened(Looked(Asked)))
  {
    ExampleNames();
  }

  /** When the rest works, the upload succeeds and whatever was below the folder is gone. */
  lemma FolderReplaced(e: Env, s: State, d: string)
    requires MovesFolder(e, s) && ThreeNames(s) && Below(d, s.path) && (forall n :: n >= s.ops ==> e.ok(n))
    requires s.temporary in s.disk && s.disk[s.temporary].File?
    ensures var r := ReplaceDestination(e, s);
            && r.status == Ok && r.state.sent == s.sent && r.state.sends == s.sends
            && d !in r.state.disk && (forall u: U32 :: Backup(d, u) !in r.state.disk)
  {
    hide Moved;
    hide Removable;
    hide Backup;
    var b := Moved(s.disk, s.path, s.backup);
    BelowIsGone(s, d);
    MovedAway(s.disk, s.path, s.backup, s.path);
    MovedElsewhere(s.disk, s.path, s.backup, s.temporary);
    FileMoved(b, s.temporary, s.path);
    forall u: U32
      ensures Backup(d, u) != s.path && d != s.path
    {
      SideBelow(d, u, s.path);
    }
  }

  lemma FileMoved(disk: Disk, from: string, to: string)
    requires from in disk && disk[from].File?
    ensures Moved(disk, from, to) == (disk - {from})[to := disk[from]]
  {
  }

  /** It is then answered with OKAY, and the file that was in the folder is gone without a backup of its own. */
  lemma FolderExample()
    ensures var staged := CreateStaging(Blink, Asked); var r := FinishSend(Blink, staged.state);
            && staged.status == Ok && r.status == Ok && r.state.sent == [Okay]
            && CHILD in staged.state.disk && CHILD !in r.state.disk
            && (forall u: U32 :: Backup(CHILD, u) !in r.state.disk)
  {
    hide ReplaceDestination;
    hide MovesFolder;
    hide Backup;
    hide Temporary;
    ExampleNames();
    ExampleStaged();
    FolderReplaced(Blink, Opened(Looked(Asked)), CHILD);
  }
}
