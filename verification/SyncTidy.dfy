/**
 What upload leaves behind. A refused install puts the destination back, and a run whose file operations work leaves
 no side file but the staging file of the upload in progress.
 */
module SyncTidy {
  import opened Bytes
  import opened Errno
  import opened SyncDisk
  import opened SyncNames
  import opened Sync
  import opened SyncSafety
  import opened SyncTorn

  // ---------- a refused install ----------

  /** The destination is found and renamed: closing, looking and renaming work, and the backup is no folder. */
  predicate MovesAside(e: Env, s: State) {
    && !(s.fileOpen && !e.ok(s.ops)) && e.ok(s.ops + 1) && e.ok(s.ops + 2)
    && s.path in s.disk && !(s.backup in s.disk && s.disk[s.backup].Folder?)
  }

  /** The operation that refuses an install: closing, moving aside or moving in. */
  function RefusedAt(e: Env, s: State): nat {
    if s.fileOpen && !e.ok(s.ops) then s.ops else if MovesAside(e, s) then s.ops + 3 else s.ops + 2
  }

  /** All names but the staging file and those within the backup name are as before. */
  ghost predicate Restored(s: State, disk: Disk) {
    forall d :: d != s.temporary && !Within(d, s.backup) ==> SameAt(s.disk, disk, d)
  }

  lemma InstallRefused(e: Env, b: State, had: bool)
    requires InstallStaged(e, b, had).status != Ok
    requires had ==> b.backup in b.disk && b.path !in b.disk
    ensures var t := InstallStaged(e, b, had).state;
            && t.temporaryLive == b.temporaryLive && t.fileOpen == b.fileOpen && t.temporary == b.temporary
            && t.backup == b.backup && t.path == b.path && t.phase == b.phase
            && t.sends == b.sends && t.sent == b.sent && t.ops == b.ops + (if had then 2 else 1)
            && t.disk == if had && e.ok(b.ops + 1) then Moved(b.disk, b.backup, b.path) else b.disk
  {
    hide Moved;
    hide Removable;
  }

  /** What a refused replace_destination has done. */
  lemma ReplaceRefused(e: Env, s: State)
    requires ThreeNames(s) && ReplaceDestination(e, s).status != Ok
    ensures var t := ReplaceDestination(e, s).state;
            && t.temporaryLive == s.temporaryLive && !t.fileOpen && t.temporary == s.temporary && t.sends == s.sends
            && t.sent == s.sent && t.ops > RefusedAt(e, s)
            && if !MovesAside(e, s) then t.disk == s.disk
               else
                 var aside := Moved(s.disk, s.path, s.backup);
                 s.backup in aside && t.disk == if e.ok(s.ops + 4) then Moved(aside, s.backup, s.path) else aside
  {
    hide Moved;
    hide InstallStaged;
    hide Within;
    var a := Looked(Did(s, s.disk).(fileOpen := false));
    if MovesAside(e, s) {
      MovedThere(s.disk, s.path, s.backup);
      assert s.path !in Moved(s.disk, s.path, s.backup) by { MovedAway(s.disk, s.path, s.backup, s.path); }
      InstallRefused(e, TryRename(e, a, s.path, s.backup), true);
    } else if !(s.fileOpen && !e.ok(s.ops)) && !Exists(e, Did(s, s.disk).(fileOpen := false), s.path) {
      InstallRefused(e, a, false);
    }
  }

  lemma RefusedDisk(e: Env, s: State)
    requires ThreeNames(s) && ReplaceDestination(e, s).status != Ok
    ensures var t := ReplaceDestination(e, s).state;
            && SameAt(s.disk, t.disk, s.temporary)
            && (MovesAside(e, s) && !e.ok(s.ops + 4) ==> s.path !in t.disk)
            && (!(MovesAside(e, s) && !e.ok(s.ops + 4)) ==>
                  Restored(s, t.disk) && (s.backup in t.disk ==> SameAt(s.disk, t.disk, s.backup)))
  {
    hide ReplaceDestination;
    hide Moved;
    hide Within;
    ReplaceRefused(e, s);
    if MovesAside(e, s) {
      var aside := Moved(s.disk, s.path, s.backup);
      MovedAway(s.disk, s.path, s.backup, s.path);
      TemporaryStays(s.disk, s, s.path, s.backup);
      if e.ok(s.ops + 4) {
        var next := Moved(aside, s.backup, s.path);
        forall d | !Within(d, s.backup)
          ensures SameAt(s.disk, next, d)
        {
          MovedBack(s.disk, s.path, s.backup, d);
        }
        MovedAway(aside, s.backup, s.path, s.backup);
        TemporaryStays(aside, s, s.backup, s.path);
      }
    }
  }

  lemma TemporaryStays(disk: Disk, s: State, from: string, to: string)
    requires ThreeNames(s) && from in disk && {from, to} == {s.path, s.backup}
    ensures SameAt(disk, Moved(disk, from, to), s.temporary)
  {
    MovedElsewhere(disk, from, to, s.temporary);
  }

  /** What reporting the failure does: the staging file is removed if that works, and FAIL is sent if it can be. */
  lemma FailureCleans(e: Env, t: State, reason: string, drain: Phase)
    requires !t.fileOpen && (t.temporary in t.disk ==> t.disk[t.temporary].File?)
    ensures var u := FailTransfer(e, t, reason, drain).state;
            && u.disk == (if t.temporaryLive && e.ok(t.ops) then t.disk - {t.temporary} else t.disk)
            && u.sent == t.sent + if e.answer(t.sends) == Ok then [Fail(reason)] else []
  {
    hide Below;
  }

  lemma NotInstalled(e: Env, s: State)
    requires Staged(e, s) && FinishSend(e, s).state.installed == s.installed
    ensures ReplaceDestination(e, s).status != Ok
  {
    hide ReplaceDestination;
    hide Named;
    ReplaceSince(e, s, false);
    assert |s.installed + [(s.path, s.received)]| == |s.installed| + 1;
  }

  lemma RefusedFinish(e: Env, s: State)
    requires Staged(e, s) && FinishSend(e, s).state.installed == s.installed
    ensures ThreeNames(s) && ReplaceDestination(e, s).status != Ok
    ensures var r, t := ReplaceDestination(e, s).state, FinishSend(e, s).state;
            && t.disk == (if s.temporaryLive && e.ok(r.ops) then r.disk - {s.temporary} else r.disk)
            && t.sent == s.sent + if e.answer(s.sends) == Ok then [Fail("cannot install completed file")] else []
  {
    hide ReplaceDestination;
    hide FailTransfer;
    hide Named;
    hide ThreeNames;
    SinceStart(e, s, false);
    NotInstalled(e, s);
    ReplaceRefused(e, s);
    RefusedDisk(e, s);
    FailureCleans(e, ReplaceDestination(e, s).state, "cannot install completed file", DrainHeader);
  }

  /**
   An install that is refused, from any staged upload: in the end the destination, and with it every name but the
   upload's own side names, is as it was, if and only if the destination was not moved aside or moving it back works.
   */
  lemma RefusedExactly(e: Env, s: State)
    requires Staged(e, s) && FinishSend(e, s).state.installed == s.installed
    ensures Restored(s, FinishSend(e, s).state.disk) <==> !(MovesAside(e, s) && !e.ok(s.ops + 4))
    ensures Restored(s, FinishSend(e, s).state.disk) <==> SameAt(s.disk, FinishSend(e, s).state.disk, s.path)
  {
    hide FinishSend;
    hide ReplaceDestination;
    hide Staged;
    RefusedFinish(e, s);
    RefusedDisk(e, s);
    var r, t := ReplaceDestination(e, s).state, FinishSend(e, s).state;
    assert s.path != s.temporary && !Within(s.path, s.backup);
    if !(MovesAside(e, s) && !e.ok(s.ops + 4)) {
      forall d | d != s.temporary && !Within(d, s.backup)
        ensures SameAt(s.disk, t.disk, d)
      {
        assert SameAt(s.disk, r.disk, d);
      }
    }
  }

  /**
   If every operation behind the one that refuses the install works, the destination is as it was, nothing new is at
   the backup name, the staging file is gone, and the failure is reported.
   */
  lemma RefusedRestores(e: Env, s: State)
    requires Staged(e, s) && FinishSend(e, s).state.installed == s.installed
    requires forall n :: n > RefusedAt(e, s) ==> e.ok(n)
    ensures var t := FinishSend(e, s).state;
            && Restored(s, t.disk) && (s.backup in t.disk ==> SameAt(s.disk, t.disk, s.backup))
            && (s.temporaryLive ==> s.temporary !in t.disk)
            && t.sent == s.sent + if e.answer(s.sends) == Ok then [Fail("cannot install completed file")] else []
  {
    hide FinishSend;
    hide ReplaceDestination;
    hide Staged;
    hide Restored;
    RefusedFinish(e, s);
    RefusedDisk(e, s);
    RefusedExactly(e, s);
    ReplaceRefused(e, s);
    assert s.backup != s.temporary;
    assert e.ok(ReplaceDestination(e, s).state.ops);
  }

  // ---------- no side file stays behind ----------

  /** Every file operation works; writes and replies may still fail. */
  ghost predicate FilesWork(e: Env) { forall n :: e.ok(n) }

  /** The side files are those of the start and the staging file of the upload in progress. */
  ghost predicate Tidy(start: Disk, s: State) {
    forall d :: d in s.disk && IsSideName(d) && d !in start ==> s.temporaryLive && d == s.temporary
  }

  /** An upload in progress has a free backup name, and no folder at its destination. */
  ghost predicate Clean(s: State) {
    InUpload(s.phase) ==> s.backup !in s.disk && (s.path in s.disk ==> s.disk[s.path].File?)
  }

  ghost predicate Neat(e: Env, f: Frame, s: State) { Good(e, f, s) && Tidy(f.start, s) && Clean(s) }

  /** The same disk and the same upload, or none. */
  predicate SameFiles(s: State, t: State) {
    && t.disk == s.disk && t.temporaryLive == s.temporaryLive
    && t.temporary == s.temporary && t.backup == s.backup && t.path == s.path
  }

  lemma SameTidy(start: Disk, s: State, t: State)
    requires Tidy(start, s) && SameFiles(s, t)
    ensures Tidy(start, t)
  {
    hide IsSideName;
  }

  /** The staging file is gone, nothing else has changed. */
  predicate Unstaged(s: State, t: State) {
    && t.disk == (if s.temporaryLive then s.disk - {s.temporary} else s.disk) && !t.temporaryLive
    && t.temporary == s.temporary && t.backup == s.backup && t.path == s.path
  }

  lemma UnstagedTidy(start: Disk, s: State, t: State)
    requires Tidy(start, s) && Unstaged(s, t)
    ensures Tidy(start, t)
  {
    hide IsSideName;
  }

  lemma UnstagedClean(s: State, t: State)
    requires Clean(s) && Unstaged(s, t) && (InUpload(t.phase) ==> InUpload(s.phase))
    ensures Clean(t)
  {
  }

  /** A live staging file is a file. */
  predicate LiveFile(s: State) { s.temporaryLive && s.temporary in s.disk ==> s.disk[s.temporary].File? }

  lemma CleanupUnstages(e: Env, s: State)
    requires FilesWork(e) && LiveFile(s)
    ensures Unstaged(s, CleanupPartial(e, s)) && CleanupPartial(e, s).phase == s.phase
  {
    hide Below;
  }

  lemma FailUnstages(e: Env, s: State, reason: string, drain: Phase)
    requires FilesWork(e) && LiveFile(s)
    ensures var r := FailTransfer(e, s, reason, drain);
            Unstaged(s, r.state) && r.state.phase == if r.status == Ok then drain else s.phase
  {
    hide CleanupPartial;
    CleanupUnstages(e, s);
  }

  lemma StagedIsFile(e: Env, f: Frame, s: State)
    requires Good(e, f, s)
    ensures LiveFile(s)
  {
    hide Safe;
    hide Outside;
    hide Counted;
    hide Named;
  }

  lemma FailNeat(e: Env, f: Frame, s: State, reason: string, drain: Phase)
    requires FilesWork(e) && Tidy(f.start, s) && Clean(s) && LiveFile(s) && !InUpload(drain)
    ensures var t := FailTransfer(e, s, reason, drain).state; Tidy(f.start, t) && Clean(t)
  {
    hide FailTransfer;
    hide Tidy;
    hide Clean;
    FailUnstages(e, s, reason, drain);
    var t := FailTransfer(e, s, reason, drain).state;
    UnstagedTidy(f.start, s, t);
    UnstagedClean(s, t);
  }

  // ---------- starting ----------

  /** The names chosen are free. */
  lemma {:induction false} ChosenFree(e: Env, s: State, left: nat)
    requires FilesWork(e)
    ensures var r := ChooseSidePaths(e, s, left);
            r.status == Ok ==> r.state.temporary !in s.disk && r.state.backup !in s.disk
    decreases left
  {
    hide Temporary;
    hide Backup;
    hide Token;
    if left > 0 {
      TryKeeps(e, s);
      ChosenFree(e, TryNames(e, s).state, left - 1);
    }
  }

  lemma CreateNeat(e: Env, f: Frame, s: State)
    requires FilesWork(e) && Tidy(f.start, s) && !s.temporaryLive && !InUpload(s.phase)
    requires s.temporary !in s.disk && s.backup !in s.disk && Named(e, s)
    ensures var t := CreateStaging(e, s).state; Tidy(f.start, t) && Clean(t)
  {
    hide FailTransfer;
    hide IsSideName;
    var d := Looked(s);
    FailNeat(e, f, d, "destination is not a file", DrainHeader);
    FailNeat(e, f, Did(d, d.disk), "cannot create partial file", DrainHeader);
    PathNotTemporary(e, s);
    NamesDiffer(e, s);
  }

  lemma NamesDiffer(e: Env, s: State)
    requires Named(e, s)
    ensures s.temporary != s.backup && s.temporary != s.path && s.path != s.backup
  {
    SyncDisk.NamesApart(s.path, Token(s.ordinal));
  }

  lemma StageNeat(e: Env, f: Frame, s: State)
    requires FilesWork(e) && Tidy(f.start, s) && !s.temporaryLive && !InUpload(s.phase) && Allowed(s.path, e.pathMax)
    ensures var t := StageUpload(e, s).state; Tidy(f.start, t) && Clean(t)
  {
    hide ChooseSidePaths;
    hide FailTransfer;
    hide CreateStaging;
    hide Allowed;
    hide IsSideName;
    ChooseKeeps(e, s, 32);
    ChosenFree(e, s, 32);
    var r := ChooseSidePaths(e, s, 32);
    if r.status != Ok {
      FailNeat(e, f, r.state, if r.status == ENAMETOOLONG then "path too long" else "no free staging name",
               DrainHeader);
    } else {
      CreateNeat(e, f, r.state);
    }
  }

  lemma StartNeat(e: Env, f: Frame, s: State)
    requires FilesWork(e) && Tidy(f.start, s) && !s.temporaryLive && !InUpload(s.phase)
    ensures var t := StartSend(e, s).state; Tidy(f.start, t) && Clean(t)
  {
    hide StageUpload;
    hide FailTransfer;
    hide SpecFault;
    hide LastComma;
    hide IsSideName;
    var text := Chars(s.spec);
    var t := s.(spec := []);
    if SpecFault(e, text) == "" {
      FaultFree(e, text);
      var u := t.(path := text[..LastComma(text)]);
      StageNeat(e, f, u);
    } else {
      FailNeat(e, f, t, SpecFault(e, text), DrainHeader);
    }
  }

  // ---------- finishing ----------

  /** With working operations a staged upload is installed and nothing is left beside it. */
  lemma ReplaceNeat(e: Env, f: Frame, s: State)
    requires FilesWork(e) && Tidy(f.start, s) && Clean(s) && Staged(e, s) && InUpload(s.phase)
    ensures var r := ReplaceDestination(e, s);
            && Tidy(f.start, r.state) && Clean(r.state) && LiveFile(r.state) && r.state.phase == s.phase
            && (r.status == Ok ==> !r.state.temporaryLive)
  {
    hide IsSideName;
    hide Named;
    assert s.temporary != s.backup && s.temporary != s.path && s.path != s.backup && !IsSideName(s.path) by {
      NamesDiffer(e, s);
      NamedFacts(e, s);
    }
    hide ReplaceDestination;
    if s.temporary in s.disk {
      InstalledDisk(e, s);
      InstalledTidy(f.start, s, ReplaceDestination(e, s).state);
    } else {
      MissingDisk(e, s);
      SameTidy(f.start, s, ReplaceDestination(e, s).state);
    }
  }

  lemma InstalledTidy(start: Disk, s: State, t: State)
    requires Tidy(start, s) && Clean(s) && InUpload(s.phase) && s.temporary in s.disk && s.disk[s.temporary].File?
    requires s.path != s.backup && !IsSideName(s.path) && t.path == s.path && t.backup == s.backup
    requires t.disk == (s.disk - {s.temporary})[s.path := s.disk[s.temporary]]
    ensures Tidy(start, t) && Clean(t)
  {
    hide IsSideName;
  }

  lemma InstalledDisk(e: Env, s: State)
    requires FilesWork(e) && Clean(s) && InUpload(s.phase) && s.temporary in s.disk && s.disk[s.temporary].File?
    requires s.temporary != s.backup && s.temporary != s.path && s.path != s.backup
    ensures var r := ReplaceDestination(e, s);
            && r.status == Ok && !r.state.temporaryLive && r.state.phase == s.phase
            && r.state.path == s.path && r.state.backup == s.backup
            && r.state.disk == (s.disk - {s.temporary})[s.path := s.disk[s.temporary]]
  {
    hide Below;
    if s.path in s.disk {
      var b := Moved(s.disk, s.path, s.backup);
      var c := Moved(b, s.temporary, s.path);
      assert c - {s.backup} == (s.disk - {s.temporary})[s.path := s.disk[s.temporary]];
    }
  }

  lemma MissingDisk(e: Env, s: State)
    requires FilesWork(e) && Clean(s) && InUpload(s.phase) && s.temporary !in s.disk
    requires s.temporary != s.backup && s.temporary != s.path && s.path != s.backup
    ensures var r := ReplaceDestination(e, s);
            && r.status != Ok && SameFiles(s, r.state) && r.state.phase == s.phase
  {
    hide InstallStaged;
    var a := Looked(Did(s, s.disk).(fileOpen := false));
    if s.path in s.disk {
      var b := TryRename(e, a, s.path, s.backup);
      MissingRefused(e, b, true);
      InstallRefused(e, b, true);
      assert Moved(b.disk, s.backup, s.path) == s.disk;
    } else {
      MissingRefused(e, a, false);
      InstallRefused(e, a, false);
    }
  }

  lemma MissingRefused(e: Env, s: State, had: bool)
    requires s.temporary !in s.disk
    ensures InstallStaged(e, s, had).status != Ok
  {
    hide Moved;
  }

  lemma FinishNeat(e: Env, f: Frame, s: State)
    requires FilesWork(e) && Tidy(f.start, s) && Clean(s) && Staged(e, s) && s.phase == SendHeader
    ensures var t := FinishSend(e, s).state; Tidy(f.start, t) && Clean(t)
  {
    hide ReplaceDestination;
    hide FailTransfer;
    hide Send;
    hide Staged;
    hide Tidy;
    ReplaceNeat(e, f, s);
    var r := ReplaceDestination(e, s);
    if r.status != Ok {
      FailNeat(e, f, r.state, "cannot install completed file", DrainHeader);
    } else {
      SendFrame(e, r.state, Okay);
      SameTidy(f.start, r.state, FinishSend(e, s).state);
    }
  }

  // ---------- bytes ----------

  lemma RecordNeat(e: Env, f: Frame, s: State, id: U32, value: U32)
    requires FilesWork(e) && Neat(e, f, s) && s.phase == SendHeader
    ensures var t := RecordArrived(e, s, id, value).state; Tidy(f.start, t) && Clean(t)
  {
    hide FinishSend;
    hide FailTransfer;
    hide Tidy;
    hide Safe;
    hide Outside;
    hide Named;
    StagedIsFile(e, f, s);
    FinishNeat(e, f, s);
    var failed := FailTransfer(e, s, "invalid or oversized DATA", DiscardAndClose).state;
    FailNeat(e, f, s, "invalid or oversized DATA", DiscardAndClose);
    SameTidy(f.start, failed, failed.(closing := true));
    var t := s.(remaining := value, phase := if value == 0 then SendHeader else SendData);
    SameTidy(f.start, s, t);
  }

  lemma RequestNeat(e: Env, f: Frame, s: State, id: U32, value: U32)
    requires Tidy(f.start, s) && s.phase == RequestHeader
    ensures var t := RequestArrived(e, s, id, value).state; Tidy(f.start, t) && Clean(t)
  {
    hide Send;
    hide Tidy;
    SendFrame(e, s, Fail("only bounded STAT and SEND are supported"));
    SameTidy(f.start, s, RequestArrived(e, s, id, value).state);
  }

  lemma HeaderNeat(e: Env, f: Frame, s: State, b: Byte)
    requires FilesWork(e) && Neat(e, f, s) && HeaderPhase(s.phase)
    ensures var t := TakeHeaderByte(e, s, b).state; Tidy(f.start, t) && Clean(t)
  {
    hide RecordArrived;
    hide RequestArrived;
    hide Tidy;
    hide Get32;
    hide Good;
    var h := s.header + [b];
    var t := s.(header := []);
    SameTidy(f.start, s, t);
    SameTidy(f.start, s, s.(header := h));
    if |h| == 8 {
      var id, value := Get32(h[..4]), Get32(h[4..]);
      if s.phase == RequestHeader {
        RequestNeat(e, f, t, id, value);
      } else if s.phase == DrainHeader {
        SameTidy(f.start, t, DrainArrived(e, t, id, value).state);
      } else {
        BareGood(e, f, s);
        RecordNeat(e, f, t, id, value);
      }
    }
  }

  lemma BareGood(e: Env, f: Frame, s: State)
    requires Good(e, f, s) && s.phase == SendHeader
    ensures Good(e, f, s.(header := []))
  {
    hide Safe;
    hide Outside;
    var t := s.(header := []);
    SafeSame(f, s, t);
    OutsideSame(f, s, t);
    NamedSame(e, s, t);
  }

  lemma StatNeat(e: Env, f: Frame, s: State)
    requires Tidy(f.start, s)
    ensures var t := SendStat(e, s).state; Tidy(f.start, t) && Clean(t)
  {
    hide Send;
    hide Tidy;
    hide StatsOf;
    hide StatAllowed;
    hide Chars;
    var path := Chars(s.spec);
    var t := if '\0' in path || !StatAllowed(path, e.pathMax) then s else Looked(s);
    SendFrame(e, t.(spec := [], phase := RequestHeader), StatsOf(e, s, path));
    SameTidy(f.start, s, SendStat(e, s).state);
  }

  lemma SpecNeat(e: Env, f: Frame, s: State, b: Byte)
    requires FilesWork(e) && Tidy(f.start, s) && SpecPhase(s.phase) && s.remaining > 0 && !s.temporaryLive
    ensures var t := TakeSpecByte(e, s, b).state; Tidy(f.start, t) && Clean(t)
  {
    hide StartSend;
    hide SendStat;
    hide Tidy;
    var t := s.(spec := s.spec + [b], remaining := s.remaining - 1);
    SameTidy(f.start, s, t);
    StartNeat(e, f, t);
    StatNeat(e, f, t);
  }

  lemma LostNeat(e: Env, f: Frame, s: State, lost: nat)
    requires FilesWork(e) && Tidy(f.start, s) && Clean(s) && LiveFile(s) && lost <= s.remaining
    ensures var t := WriteFails(e, s, lost).state; Tidy(f.start, t) && Clean(t)
  {
    hide FailTransfer;
    hide Tidy;
    var left := s.remaining - lost;
    var t := s.(remaining := left);
    SameTidy(f.start, s, t);
    FailNeat(e, f, t, "write failed", if left == 0 then DrainHeader else DrainData);
  }

  lemma TookNeat(e: Env, f: Frame, s: State, b: Byte)
    requires Neat(e, f, s) && s.phase == SendData && s.fileOpen && s.remaining > 0
    ensures var t := Took(s, b);
            && Tidy(f.start, t) && Clean(t) && Tidy(f.start, t.(phase := SendHeader)) && Clean(t.(phase := SendHeader))
  {
    hide Safe;
    hide Outside;
    hide Counted;
    hide IsSideName;
    assert s.temporary != s.backup && s.temporary != s.path by { NamesDiffer(e, s); }
    hide Named;
  }

  lemma DataNeat(e: Env, f: Frame, s: State, b: Byte, behind: nat)
    requires FilesWork(e) && Neat(e, f, s) && s.phase == SendData && s.remaining > 0
    ensures var t := TakeDataByte(e, s, b, behind).state; Tidy(f.start, t) && Clean(t)
  {
    hide WriteFails;
    hide Took;
    hide Tidy;
    hide Good;
    StagedIsFile(e, f, s);
    if s.fileOpen && e.writeOk(s.writes) {
      TookNeat(e, f, s, b);
    } else {
      var t := if s.fileOpen then s.(writes := s.writes + 1) else s;
      SameTidy(f.start, s, t);
      LostNeat(e, f, t, 1);
      LostNeat(e, f, t, if 1 + behind <= s.remaining then 1 + behind else s.remaining);
    }
  }

  /** Outside an upload no staging file is live. */
  lemma NoneLive(e: Env, f: Frame, s: State)
    requires Good(e, f, s) && !InUpload(s.phase)
    ensures !s.temporaryLive
  {
    hide Safe;
    hide Outside;
  }

  lemma SettleNeat(e: Env, f: Frame, s: State)
    requires FilesWork(e) && Neat(e, f, s)
    ensures Neat(e, f, Settle(e, s).state)
  {
    hide WriteFails;
    hide StartSend;
    hide Tidy;
    hide Clean;
    hide Good;
    SettleKeeps(e, f, s);
    StagedIsFile(e, f, s);
    if Stalled(s) {
      LostNeat(e, f, s, 0);
    } else if Retrying(s) {
      NoneLive(e, f, s);
      StartNeat(e, f, s);
    }
  }

  lemma StepNeat(e: Env, f: Frame, s: State, b: Byte, behind: nat)
    requires FilesWork(e) && Neat(e, f, s) && !f.whole
    ensures Neat(e, f, Step(e, s, b, behind).state)
  {
    hide Settle;
    hide TakeHeaderByte;
    hide TakeDataByte;
    hide TakeSpecByte;
    hide Tidy;
    hide Good;
    SettleNeat(e, f, s);
    StepKeeps(e, f, s, b, behind);
    var t := Settle(e, s).state;
    if Settle(e, s).status == Ok {
      if HeaderPhase(t.phase) {
        HeaderNeat(e, f, t, b);
      } else if t.phase == SendData {
        if t.remaining > 0 {
          DataNeat(e, f, t, b, behind);
        }
      } else if SpecPhase(t.phase) {
        NoneLive(e, f, t);
        if t.remaining > 0 {
          SpecNeat(e, f, t, b);
        }
      } else if t.phase == DrainData && t.remaining > 0 {
        SameTidy(f.start, t, TakeDrainByte(t));
      }
    }
  }

  lemma {:induction false} FeedNeat(e: Env, f: Frame, s: State, packet: seq<Byte>)
    requires FilesWork(e) && Neat(e, f, s) && !f.whole
    ensures Neat(e, f, Feed(e, s, packet).state)
    decreases packet
  {
    hide Neat;
    hide Step;
    if packet != [] {
      StepNeat(e, f, s, packet[0], |packet| - 1);
      var r := Step(e, s, packet[0], |packet| - 1);
      if r.status == Ok {
        FeedNeat(e, f, r.state, packet[1..]);
      }
    }
  }

  lemma CloseNeat(e: Env, f: Frame, s: State)
    requires FilesWork(e) && Neat(e, f, s)
    ensures Neat(e, f, CloseSession(e, s))
  {
    hide CleanupPartial;
    hide Good;
    hide IsSideName;
    CloseKeeps(e, f, s);
    StagedIsFile(e, f, s);
    CleanupUnstages(e, s);
    UnstagedTidy(f.start, s, CleanupPartial(e, s));
  }

  lemma {:induction false} RunNeat(e: Env, f: Frame, s: State, events: seq<Event>)
    requires FilesWork(e) && Neat(e, f, s) && !f.whole
    ensures Neat(e, f, Run(e, s, events))
  {
    hide Neat;
    hide Feed;
    hide CloseSession;
    if events != [] {
      var k := |events| - 1;
      RunNeat(e, f, s, events[..k]);
      var t := Run(e, s, events[..k]);
      if events[k].Packet? {
        FeedNeat(e, f, t, events[k].bytes);
      } else {
        CloseNeat(e, f, t);
      }
    }
  }

  /**
   In every run whose file operations work, whatever packets arrive, whichever writes and replies fail and whenever
   streams close: the only side file that was not there at the start is the staging file of the upload in progress,
   and a closed stream has none.
   */
  lemma NoDebris(e: Env, s: State, events: seq<Event>, d: string)
    requires s == Fresh(s) && s.held == s.disk && s.installed == [] && s.trace == [] && s.sent == []
    requires FilesWork(e) && IsSideName(d) && d in Run(e, s, events).disk && d !in s.disk
    ensures var t := Run(e, s, events); InUpload(t.phase) && d == t.temporary
    ensures d !in CloseSession(e, Run(e, s, events)).disk
  {
    hide Run;
    hide CloseSession;
    hide IsSideName;
    var f := Frame(s.disk, {}, map[], 0, false);
    StartIsNeat(e, f, s);
    RunNeat(e, f, s, events);
    var t := Run(e, s, events);
    CloseNeat(e, f, t);
    ClosedLive(e, t);
    if !InUpload(t.phase) {
      NoneLive(e, f, t);
    }
  }

  lemma ClosedLive(e: Env, s: State)
    ensures !CloseSession(e, s).temporaryLive
  {
  }

  lemma StartIsNeat(e: Env, f: Frame, s: State)
    requires s == Fresh(s) && s.held == s.disk && s.installed == [] && s.trace == [] && s.sent == []
    requires f == Frame(s.disk, {}, map[], 0, false)
    ensures Neat(e, f, s)
  {
    StartIsWhole(s.disk);
  }
}
