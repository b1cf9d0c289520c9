/**
 What every byte, close and failure of the upload service keeps: the session's counters and flags, the staging file
 equal to the data received, nothing changed outside the storage root, and, as long as no folder with destinations
 below it is moved aside, every destination whole after every single file operation.
 */
module SyncSafety {
  import opened Bytes
  import opened Errno
  import opened SyncDisk
  import opened SyncNames
  import opened Text
  import opened Sync

  // ---------- the session ----------

  predicate InUpload(p: Phase) { p == SendHeader || p == SendData }

  predicate SpecPhase(p: Phase) { p == RequestSpec || p == StatPath }

  /** The side names belong to an allowed destination and an issued token. */
  ghost predicate Named(e: Env, s: State) {
    && Allowed(s.path, e.pathMax) && s.ordinal <= s.issued
    && s.temporary == Temporary(s.path, Token(s.ordinal)) && s.backup == Backup(s.path, Token(s.ordinal))
  }

  /** During an upload the staging file, while it exists, holds exactly the data received. */
  ghost predicate Staged(e: Env, s: State) {
    Named(e, s) && (s.temporary in s.disk ==> s.disk[s.temporary] == File(s.received))
  }

  /** How far the current header, request or record has got. */
  ghost predicate Counted(e: Env, s: State) {
    && (if HeaderPhase(s.phase) then |s.header| < 8 && s.remaining == 0 else s.header == [])
    && (if SpecPhase(s.phase) then |s.spec| + s.remaining < e.pathMax + 16 else s.spec == [])
    && (s.phase == StatPath ==> s.remaining > 0)
    && (s.phase == DrainData ==> 0 < s.remaining <= e.dataMax)
    && (s.phase == SendData ==> s.remaining <= e.dataMax && (s.fileOpen ==> s.remaining > 0))
    && (s.phase == DiscardAndClose ==> s.remaining == 0)
  }

  ghost predicate Handled(s: State) {
    && s.fileOpen == s.temporaryLive
    && (s.fileOpen ==> InUpload(s.phase))
  }

  ghost predicate Inv(e: Env, s: State) {
    Counted(e, s) && Handled(s) && (InUpload(s.phase) ==> Staged(e, s))
  }

  // ---------- whole files ----------

  ghost predicate BackedUp(disk: Disk, d: string, x: Item) {
    exists token: U32 :: Backup(d, token) in disk && disk[Backup(d, token)] == x
  }

  /** Destination `d` holds what it is to hold, or is gone with exactly that at a backup name. */
  ghost predicate Whole(held: Disk, disk: Disk, d: string) {
    if d in disk then d in held && disk[d] == held[d] else d in held ==> BackedUp(disk, d, held[d])
  }

  /** Every destination is whole. */
  ghost predicate AllWhole(held: Disk, disk: Disk) { forall d :: !IsSideName(d) ==> Whole(held, disk, d) }

  /** Nothing outside the storage root has changed. */
  ghost predicate RootOnly(start: Disk, disk: Disk) {
    forall d :: !StartsWith(d, ROOT) ==> SameAt(start, disk, d)
  }

  lemma StartIsWhole(start: Disk)
    ensures AllWhole(start, start) && RootOnly(start, start)
  {
  }

  /** Names that an upload to `path` uses beside it. */
  lemma SideFacts(path: string, token: U32)
    requires StartsWith(path, ROOT)
    ensures IsSideName(Temporary(path, token)) && IsSideName(Backup(path, token))
    ensures StartsWith(Temporary(path, token), ROOT)
    ensures forall d :: Within(d, path) || Within(d, Backup(path, token)) ==> StartsWith(d, ROOT)
  {
    SideNamesNotAllowed(path, token, 0);
    assert Temporary(path, token)[..|ROOT|] == path[..|ROOT|] && Backup(path, token)[..|ROOT|] == path[..|ROOT|];
    forall d, f | Within(d, f) && StartsWith(f, ROOT)
      ensures StartsWith(d, ROOT)
    {
      assert d[..|ROOT|] == f[..|ROOT|];
    }
  }

  /** Nothing but `path`, its staging file and what is within the backup name has changed. */
  ghost predicate OnlyAt(disk: Disk, next: Disk, path: string, temporary: string, backup: string) {
    forall d :: d != path && d != temporary && !Within(d, backup) ==> SameAt(disk, next, d)
  }

  /** A destination whose name and backup names have not changed is as whole as before. */
  lemma StaysWhole(held: Disk, disk: Disk, held1: Disk, next: Disk, d: string)
    requires Whole(held, disk, d) && SameAt(held, held1, d) && SameAt(disk, next, d)
    requires forall u: U32 :: SameAt(disk, next, Backup(d, u))
    ensures Whole(held1, next, d)
  {
    hide Backup;
    if d !in disk && d in held {
      var u: U32 :| Backup(d, u) in disk && disk[Backup(d, u)] == held[d];
      assert SameAt(disk, next, Backup(d, u));
    }
  }

  /** No other destination and none of its backups is within the backup name of an upload to `path`. */
  lemma BackupsApart(path: string, token: U32, d: string, u: U32)
    requires !IsSideName(d) && d != path
    ensures !Within(d, Backup(path, token)) && !Within(Backup(d, u), Backup(path, token))
    ensures d != Temporary(path, token) && Backup(d, u) != Temporary(path, token) && IsSideName(Backup(d, u))
  {
    hide Temporary;
    hide Backup;
    hide IsSideName;
    SideNamesNotAllowed(path, token, 0);
    SideNamesNotAllowed(d, u, 0);
    SideNamesDiffer(path, d, token, u);
    SideBelow(d, u, Backup(path, token));
    if Within(d, Backup(path, token)) {
      WithinSideName(d, path, token);
    }
  }

  /** Destinations other than `path` do not notice what happens at `path` and its side names. */
  lemma Elsewhere(held: Disk, disk: Disk, held1: Disk, next: Disk, path: string, token: U32)
    requires AllWhole(held, disk) && !IsSideName(path)
    requires OnlyAt(disk, next, path, Temporary(path, token), Backup(path, token))
    requires (forall d :: d != path ==> SameAt(held, held1, d)) && Whole(held1, next, path)
    ensures AllWhole(held1, next)
  {
    hide Temporary;
    hide Backup;
    hide IsSideName;
    hide Whole;
    hide Within;
    forall d | !IsSideName(d)
      ensures Whole(held1, next, d)
    {
      if d != path {
        forall u: U32
          ensures SameAt(disk, next, Backup(d, u))
        {
          BackupsApart(path, token, d, u);
        }
        BackupsApart(path, token, d, 0);
        StaysWhole(held, disk, held1, next, d);
      }
    }
  }

  /** Nothing but what is within `path` and the backup name has changed. */
  ghost predicate OnlyWithin(disk: Disk, next: Disk, path: string, backup: string) {
    forall d :: !Within(d, path) && !Within(d, backup) ==> SameAt(disk, next, d)
  }

  /** The same when a folder is moved aside that has no destination below it. */
  lemma Beside(held: Disk, disk: Disk, next: Disk, path: string, token: U32)
    requires AllWhole(held, disk) && !IsSideName(path) && OnlyWithin(disk, next, path, Backup(path, token))
    requires forall d :: !IsSideName(d) && Within(d, path) ==> Whole(held, next, d)
    ensures AllWhole(held, next)
  {
    hide Temporary;
    hide Backup;
    hide IsSideName;
    hide Whole;
    forall d | !IsSideName(d)
      ensures Whole(held, next, d)
    {
      if !Within(d, path) {
        forall u: U32
          ensures SameAt(disk, next, Backup(d, u))
        {
          BackupsApart(path, token, d, u);
          SideBelow(d, u, path);
        }
        BackupsApart(path, token, d, 0);
        StaysWhole(held, disk, held, next, d);
      }
    }
  }

  lemma RootKept(start: Disk, disk: Disk, next: Disk, path: string, token: U32)
    requires RootOnly(start, disk) && StartsWith(path, ROOT)
    requires || OnlyAt(disk, next, path, Temporary(path, token), Backup(path, token))
             || OnlyWithin(disk, next, path, Backup(path, token))
    ensures RootOnly(start, next)
  {
    hide Temporary;
    hide Backup;
    hide StartsWith;
    SideFacts(path, token);
    forall d | !StartsWith(d, ROOT)
      ensures SameAt(start, next, d)
    {
      assert SameAt(disk, next, d) && SameAt(start, disk, d);
    }
  }

  // ---------- other streams ----------

  /**
   What a stream starts from: the disk at the beginning, names whose contents it must leave as in `base` (the
   staging files of the other streams), a number of tokens issued already, and whether all destinations are whole.
   */
  datatype Frame = Frame(start: Disk, names: set<string>, base: Disk, floor: nat, whole: bool)

  /** A staging name of another upload: an issued token, not the one of `s`. */
  ghost predicate ForeignName(d: string, issued: nat, busy: bool, ordinal: nat) {
    exists p: string, k: nat ::
      d == Temporary(p, Token(k)) && !IsSideName(p) && k <= issued && !(busy && k == ordinal)
  }

  ghost predicate Clear(f: Frame, s: State) {
    forall d :: d in f.names ==> ForeignName(d, s.issued, true, s.ordinal)
  }

  ghost predicate Outside(f: Frame, s: State) {
    forall d :: d in f.names ==> ForeignName(d, s.issued, InUpload(s.phase), s.ordinal)
  }

  /** At `d` is what was there in `base`, or nothing any more. */
  predicate AtMostAt(base: Disk, disk: Disk, d: string) { d in disk ==> d in base && disk[d] == base[d] }

  /**
   Until the token counter wraps around, no other data gets into the other streams' files. They may be gone, with
   the folder they were in.
   */
  ghost predicate Guarded(f: Frame, issued: nat, disk: Disk) {
    && f.floor <= issued
    && (issued < 0x1_0000_0000 ==> forall d :: d in f.names ==> AtMostAt(f.base, disk, d))
  }

  lemma ForeignApart(e: Env, s: State, d: string)
    requires Named(e, s) && s.issued < 0x1_0000_0000 && ForeignName(d, s.issued, true, s.ordinal)
    ensures d != s.path && d != s.temporary && !Within(d, s.backup)
  {
    hide Allowed;
    hide Temporary;
    hide Backup;
    hide Token;
    hide IsSideName;
    var p: string, k: nat :| d == Temporary(p, Token(k)) && !IsSideName(p) && k <= s.issued && k != s.ordinal;
    TokensDiffer(k, s.ordinal);
    SideNamesDiffer(p, s.path, Token(k), Token(s.ordinal));
    SideNamesNotAllowed(p, Token(k), e.pathMax);
    SideBelow(p, Token(k), s.backup);
    if Within(p, s.backup) {
      WithinSideName(p, s.path, Token(s.ordinal));
    }
  }

  lemma TokensDiffer(k: nat, n: nat)
    requires k < 0x1_0000_0000 && n < 0x1_0000_0000 && k != n
    ensures Token(k) != Token(n)
  {
  }

  lemma GuardKept(e: Env, f: Frame, s: State, disk: Disk, next: Disk)
    requires Named(e, s) && Clear(f, s) && Guarded(f, s.issued, disk)
    requires OnlyAt(disk, next, s.path, s.temporary, s.backup)
    ensures Guarded(f, s.issued, next)
  {
    hide Named;
    hide ForeignName;
    hide Within;
    if s.issued < 0x1_0000_0000 {
      forall d | d in f.names
        ensures AtMostAt(f.base, next, d)
      {
        ForeignApart(e, s, d);
        assert AtMostAt(f.base, disk, d) && SameAt(disk, next, d);
      }
    }
  }

  // ---------- file operations ----------

  /** What the destinations hold after some uploads. */
  function Replay(start: Disk, installed: seq<(string, seq<Byte>)>): Disk {
    if installed == [] then start
    else
      var last := installed[|installed| - 1];
      Replay(start, installed[..|installed| - 1])[last.0 := File(last.1)]
  }

  lemma ReplayOne(start: Disk, installed: seq<(string, seq<Byte>)>, path: string, bytes: seq<Byte>)
    ensures Replay(start, installed + [(path, bytes)]) == Replay(start, installed)[path := File(bytes)]
  {
    assert (installed + [(path, bytes)])[..|installed|] == installed;
  }

  function Okays(sent: seq<Reply>): nat {
    if sent == [] then 0 else Okays(sent[..|sent| - 1]) + if sent[|sent| - 1].Okay? then 1 else 0
  }

  ghost predicate Kept(f: Frame, held: Disk, disk: Disk) {
    (f.whole ==> AllWhole(held, disk)) && RootOnly(f.start, disk)
  }

  /**
   All disks so far were kept; what is held is the start and then the uploads installed, among them one for
   every OKAY.
   */
  ghost predicate Safe(f: Frame, s: State) {
    && Kept(f, s.held, s.disk)
    && (forall k :: 0 <= k < |s.trace| ==> Kept(f, s.trace[k].held, s.trace[k].disk))
    && s.held == Replay(f.start, s.installed) && Okays(s.sent) <= |s.installed|
    && Guarded(f, s.issued, s.disk)
  }

  /** Safety speaks of the files and the history only. */
  lemma SafeSame(f: Frame, s: State, t: State)
    requires Safe(f, s) && t.disk == s.disk && t.held == s.held && t.trace == s.trace && t.installed == s.installed
    requires t.issued == s.issued && t.sent == s.sent
    ensures Safe(f, t)
  {
    hide Kept;
  }

  lemma SendSafe(e: Env, f: Frame, s: State, reply: Reply)
    requires Safe(f, s) && (reply.Okay? ==> Okays(s.sent) < |s.installed|)
    ensures Safe(f, Send(e, s, reply))
  {
    hide Kept;
    assert (s.sent + [reply])[..|s.sent|] == s.sent;
  }

  lemma DidSafe(f: Frame, s: State, disk: Disk)
    requires Safe(f, s) && Kept(f, s.held, disk) && Guarded(f, s.issued, disk)
    ensures Safe(f, Did(s, disk))
  {
    hide Kept;
  }

  lemma NothingDone(f: Frame, s: State)
    requires Safe(f, s)
    ensures Safe(f, Did(s, s.disk)) && Safe(f, Looked(s))
  {
    hide Kept;
  }

  lemma NamedFacts(e: Env, s: State)
    requires Named(e, s)
    ensures StartsWith(s.path, ROOT) && !IsSideName(s.path)
  {
  }

  /** The change from `disk` to `next` at the destination and its side names leaves the destination whole. */
  lemma EditSafe(e: Env, f: Frame, s: State, disk: Disk, next: Disk)
    requires Safe(f, s) && Named(e, s) && Clear(f, s) && Kept(f, s.held, disk) && Guarded(f, s.issued, disk)
    requires OnlyAt(disk, next, s.path, s.temporary, s.backup) && (f.whole ==> Whole(s.held, next, s.path))
    ensures Safe(f, Did(s, next))
  {
    hide AllWhole;
    hide OnlyAt;
    hide Whole;
    hide Clear;
    hide RootOnly;
    NamedFacts(e, s);
    if f.whole {
      Elsewhere(s.held, disk, s.held, next, s.path, Token(s.ordinal));
    }
    RootKept(f.start, disk, next, s.path, Token(s.ordinal));
    GuardKept(e, f, s, disk, next);
    DidSafe(f, s, next);
  }

  lemma PathWhole(e: Env, f: Frame, s: State)
    requires Safe(f, s) && Named(e, s)
    ensures f.whole ==> Whole(s.held, s.disk, s.path)
    ensures Apart(s.path, s.temporary) && Apart(s.path, s.backup) && Apart(s.temporary, s.backup)
  {
    hide Whole;
    NamedFacts(e, s);
    SyncDisk.NamesApart(s.path, Token(s.ordinal));
  }

  /** Creating, growing or removing the staging file. */
  lemma TemporarySafe(e: Env, f: Frame, s: State, next: Disk)
    requires Safe(f, s) && Named(e, s) && Clear(f, s) && forall d :: d != s.temporary ==> SameAt(s.disk, next, d)
    ensures Safe(f, Did(s, next))
  {
    hide Kept;
    hide Clear;
    hide Named;
    hide Whole;
    hide Within;
    PathWhole(e, f, s);
    forall u: U32
      ensures SameAt(s.disk, next, Backup(s.path, u))
    {
      BackupNotTemporary(e, s, u);
    }
    assert SameAt(s.disk, next, s.path) by { PathNotTemporary(e, s); }
    if f.whole {
      StaysWhole(s.held, s.disk, s.held, next, s.path);
    }
    EditSafe(e, f, s, s.disk, next);
  }

  lemma BackupNotTemporary(e: Env, s: State, u: U32)
    requires Named(e, s)
    ensures Backup(s.path, u) != s.temporary
  {
    SideNamesDiffer(s.path, s.path, Token(s.ordinal), u);
  }

  lemma PathNotTemporary(e: Env, s: State)
    requires Named(e, s)
    ensures s.path != s.temporary && s.path != s.backup
  {
  }

  // ---------- steps ----------

  /** Only the file operations, replies and flags of `t` differ from `s`. */
  predicate SameRequest(s: State, t: State) {
    && t.header == s.header && t.remaining == s.remaining && t.spec == s.spec && t.path == s.path
    && t.temporary == s.temporary && t.backup == s.backup && t.received == s.received
    && t.issued == s.issued && t.ordinal == s.ordinal
  }

  /** The disk of `t` is that of `s`, but the staging file may be gone. */
  ghost predicate AtMostUnstaged(s: State, t: State) {
    t.disk == s.disk || t.disk == s.disk - {s.temporary}
  }

  /** A live staging file is the stream's own. */
  ghost predicate Owned(e: Env, f: Frame, s: State) {
    s.temporaryLive ==> Named(e, s) && Clear(f, s)
  }

  lemma CleanupKeeps(e: Env, f: Frame, s: State)
    requires Safe(f, s) && Owned(e, f, s)
    ensures var c := CleanupPartial(e, s);
            && Safe(f, c) && SameRequest(s, c) && AtMostUnstaged(s, c) && c.phase == s.phase
            && !c.fileOpen && !c.temporaryLive && c.installed == s.installed && c.held == s.held
  {
    hide Kept;
    hide Named;
    hide ForeignName;
    var c := if s.fileOpen then Did(s, s.disk).(fileOpen := false) else s;
    NothingDone(f, s);
    assert Safe(f, c);
    if c.temporaryLive {
      assert Named(e, c) by { NamedSame(e, s, c); }
      TemporarySafe(e, f, c, c.disk - {c.temporary});
      NothingDone(f, c);
    }
  }

  lemma NamedSame(e: Env, s: State, t: State)
    requires Named(e, s) && t.path == s.path && t.temporary == s.temporary && t.backup == s.backup
    requires t.issued == s.issued && t.ordinal == s.ordinal
    ensures Named(e, t)
  {
  }

  lemma FailKeeps(e: Env, f: Frame, s: State, reason: string, drain: Phase)
    requires Safe(f, s) && Owned(e, f, s)
    ensures var r := FailTransfer(e, s, reason, drain); var t := r.state;
            && Safe(f, t) && SameRequest(s, t) && AtMostUnstaged(s, t)
            && t.phase == (if r.status == Ok then drain else s.phase) && !t.fileOpen && !t.temporaryLive
            && t.installed == s.installed && t.held == s.held
  {
    hide Kept;
    hide Owned;
    hide CleanupPartial;
    CleanupKeeps(e, f, s);
    SendSafe(e, f, CleanupPartial(e, s), Fail(reason));
  }

  /** Choosing names changes the names, the tokens and the count of operations only. */
  predicate Renamed(s: State, t: State) {
    && t == s.(issued := t.issued, ordinal := t.ordinal, temporary := t.temporary, backup := t.backup, ops := t.ops)
    && s.issued <= t.issued
  }

  lemma RenamedTrans(a: State, b: State, c: State)
    requires Renamed(a, b) && Renamed(b, c)
    ensures Renamed(a, c)
  {
  }

  lemma RenamedSelf(s: State)
    ensures Renamed(s, s)
  {
  }

  /** The names in `t` are those of a token issued after `s`. */
  predicate NewlyNamed(s: State, t: State) {
    && s.issued < t.ordinal <= t.issued
    && t.temporary == Temporary(s.path, Token(t.ordinal)) && t.backup == Backup(s.path, Token(t.ordinal))
  }

  lemma NextKeeps(s: State)
    ensures var t := NextNames(s); Renamed(s, t) && NewlyNamed(s, t)
    ensures var t := Looked(NextNames(s)); Renamed(s, t) && NewlyNamed(s, t)
    ensures var t := Looked(Looked(NextNames(s))); Renamed(s, t) && NewlyNamed(s, t)
  {
    hide Temporary;
    hide Backup;
    hide Token;
  }

  lemma TryKeeps(e: Env, s: State)
    ensures var r := TryNames(e, s); Renamed(s, r.state) && NewlyNamed(s, r.state)
  {
    hide NextNames;
    hide Looked;
    hide Renamed;
    hide NewlyNamed;
    hide Exists;
    NextKeeps(s);
  }

  lemma {:induction false} ChooseKeeps(e: Env, s: State, left: nat)
    ensures var r := ChooseSidePaths(e, s, left);
            Renamed(s, r.state) && (r.status == Ok ==> NewlyNamed(s, r.state))
    decreases left
  {
    hide TryNames;
    hide Temporary;
    hide Backup;
    hide Token;
    if left == 0 {
      RenamedSelf(s);
    } else {
      TryKeeps(e, s);
      var t := TryNames(e, s).state;
      ChooseKeeps(e, t, left - 1);
      RenamedTrans(s, t, ChooseSidePaths(e, t, left - 1).state);
    }
  }

  /** New names leave everything safe, and are the stream's own. */
  lemma RenamedSafe(e: Env, f: Frame, s: State, t: State)
    requires Safe(f, s) && Outside(f, s) && Renamed(s, t) && !InUpload(s.phase)
    ensures Safe(f, t) && Outside(f, t)
    ensures NewlyNamed(s, t) && Allowed(s.path, e.pathMax) ==> Named(e, t) && Clear(f, t)
  {
    hide Kept;
    hide Allowed;
    forall d | d in f.names
      ensures ForeignName(d, t.issued, false, t.ordinal)
      ensures NewlyNamed(s, t) ==> ForeignName(d, t.issued, true, t.ordinal)
    {
      var p: string, k: nat :| d == Temporary(p, Token(k)) && k <= s.issued;
      assert d == Temporary(p, Token(k)) && k <= t.issued;
    }
  }

  /** After a SEND request: an upload is staged, or it is refused and will be drained. */
  ghost predicate Started(e: Env, f: Frame, s: State, r: Outcome) {
    var t := r.state;
    && Safe(f, t) && Outside(f, t) && t.header == s.header && t.remaining == s.remaining && Handled(t)
    && |t.spec| == |s.spec|
    && (r.status != Ok ==> t.phase == s.phase)
    && (r.status == Ok ==> t.phase == DrainHeader || (t.phase == SendHeader && Staged(e, t)))
  }

  lemma OutsideSame(f: Frame, s: State, t: State)
    requires Outside(f, s) && t.issued == s.issued && t.ordinal == s.ordinal
    requires InUpload(t.phase) ==> InUpload(s.phase)
    ensures Outside(f, t)
  {
    forall d | d in f.names
      ensures ForeignName(d, t.issued, InUpload(t.phase), t.ordinal)
    {
      var p: string, k: nat :| d == Temporary(p, Token(k)) && k <= s.issued && !(InUpload(s.phase) && k == s.ordinal);
      assert d == Temporary(p, Token(k)) && k <= t.issued;
    }
  }

  lemma RefusedStarts(e: Env, f: Frame, s: State, reason: string)
    requires Safe(f, s) && Outside(f, s) && !s.fileOpen && !s.temporaryLive && !InUpload(s.phase)
    ensures Started(e, f, s, FailTransfer(e, s, reason, DrainHeader))
  {
    hide Kept;
    hide FailTransfer;
    FailKeeps(e, f, s, reason, DrainHeader);
    OutsideSame(f, s, FailTransfer(e, s, reason, DrainHeader).state);
  }

  lemma OpenedStarts(e: Env, f: Frame, s: State)
    requires Safe(f, s) && Named(e, s) && Clear(f, s) && !s.fileOpen && !s.temporaryLive
    ensures Started(e, f, s, Outcome(Opened(s), Ok))
  {
    hide Kept;
    hide Allowed;
    TemporarySafe(e, f, s, s.disk[s.temporary := File([])]);
  }

  lemma CreateStarts(e: Env, f: Frame, s: State)
    requires Safe(f, s) && Outside(f, s) && Named(e, s) && Clear(f, s)
    requires !s.fileOpen && !s.temporaryLive && !InUpload(s.phase)
    ensures Started(e, f, s, CreateStaging(e, s))
  {
    hide Kept;
    hide FailTransfer;
    hide Opened;
    hide ForeignName;
    var d := Looked(s);
    NothingDone(f, s);
    assert Named(e, d) by { NamedSame(e, s, d); }
    RefusedStarts(e, f, d, "destination is not a file");
    NothingDone(f, d);
    RefusedStarts(e, f, Did(d, d.disk), "cannot create partial file");
    OpenedStarts(e, f, d);
  }

  lemma StageKeeps(e: Env, f: Frame, s: State)
    requires Safe(f, s) && Outside(f, s) && Allowed(s.path, e.pathMax)
    requires !s.fileOpen && !s.temporaryLive && !InUpload(s.phase)
    ensures Started(e, f, s, StageUpload(e, s))
  {
    hide Kept;
    hide Allowed;
    hide ChooseSidePaths;
    hide FailTransfer;
    hide CreateStaging;
    hide NewlyNamed;
    hide Named;
    hide ForeignName;
    ChooseKeeps(e, s, 32);
    var r := ChooseSidePaths(e, s, 32);
    RenamedSafe(e, f, s, r.state);
    if r.status != Ok {
      RefusedStarts(e, f, r.state, if r.status == ENAMETOOLONG then "path too long" else "no free staging name");
    } else {
      CreateStarts(e, f, r.state);
    }
  }

  lemma StartedIsGood(e: Env, f: Frame, s: State, r: Outcome, left: seq<Byte>)
    requires Started(e, f, s, r) && s.phase == RequestSpec && s.header == [] && s.spec == [] && s.remaining == 0
    requires |left| < e.pathMax + 16
    ensures r.status == Ok ==> Good(e, f, r.state) && HeaderPhase(r.state.phase) && r.state.header == []
    ensures r.status != Ok ==> Good(e, f, r.state.(spec := left))
  {
    hide Kept;
    hide Staged;
  }

  lemma FaultFree(e: Env, text: string)
    requires SpecFault(e, text) == ""
    ensures 0 < LastComma(text) && Allowed(text[..LastComma(text)], e.pathMax)
  {
  }

  /** What every step keeps. */
  ghost predicate Good(e: Env, f: Frame, s: State) { Inv(e, s) && Safe(f, s) && Outside(f, s) }

  lemma StartKeeps(e: Env, f: Frame, s: State)
    requires Good(e, f, s) && Retrying(s)
    ensures Good(e, f, StartSend(e, s).state)
    ensures var r := StartSend(e, s); r.status == Ok ==> HeaderPhase(r.state.phase) && r.state.header == []
  {
    hide Kept;
    hide Allowed;
    hide StageUpload;
    hide FailTransfer;
    hide SpecFault;
    hide Started;
    hide LastComma;
    hide ForeignName;
    var text := Chars(s.spec);
    var k := LastComma(text);
    var left := if '\0' in text || k <= 0 || k + 1 == |text| then s.spec else s.spec[k := 0];
    var t := s.(spec := []);
    if SpecFault(e, text) == "" {
      FaultFree(e, text);
      var u := t.(path := text[..k]);
      StageKeeps(e, f, u);
      StartedIsGood(e, f, u, StageUpload(e, u), left);
    } else {
      RefusedStarts(e, f, t, SpecFault(e, text));
      StartedIsGood(e, f, t, FailTransfer(e, t, SpecFault(e, text), DrainHeader), left);
    }
  }

  // ---------- installing ----------

  /** What installing may do to the session, whether it succeeds or not. */
  ghost predicate Installing(s: State, t: State) {
    && SameRequest(s, t) && t.phase == s.phase && !t.fileOpen && (t.temporaryLive ==> s.temporaryLive)
    && t.sent == s.sent
    && (s.temporary in t.disk ==> SameAt(s.disk, t.disk, s.temporary))
  }

  ghost predicate Poised(e: Env, f: Frame, s: State) { Safe(f, s) && Staged(e, s) && Clear(f, s) }

  /** The install is about to move a folder aside: closing, looking and renaming work, and the backup is no folder. */
  predicate MovesFolder(e: Env, s: State) {
    && !(s.fileOpen && !e.ok(s.ops)) && e.ok(s.ops + 1) && e.ok(s.ops + 2)
    && s.path in s.disk && s.disk[s.path].Folder? && !(s.backup in s.disk && s.disk[s.backup].Folder?)
  }

  /** A folder is about to be moved aside although a destination below it is to hold something. */
  ghost predicate Buries(e: Env, s: State) {
    MovesFolder(e, s) && exists d :: d in s.held && !IsSideName(d) && Below(d, s.path)
  }

  lemma FileAsideKeeps(e: Env, f: Frame, s: State)
    requires Poised(e, f, s) && CanRename(e, s, s.path, s.backup) && s.disk[s.path].File?
    ensures Safe(f, TryRename(e, s, s.path, s.backup))
  {
    hide Kept;
    hide Allowed;
    hide Temporary;
    hide Backup;
    hide ForeignName;
    PathWhole(e, f, s);
    var next := Moved(s.disk, s.path, s.backup);
    assert Backup(s.path, Token(s.ordinal)) in next;
    EditSafe(e, f, s, s.disk, next);
  }

  /** A folder that is moved aside with no destination below it is itself whole, and so is the place it left. */
  lemma FolderWhole(e: Env, s: State, d: string)
    requires Named(e, s) && s.path in s.disk && s.disk[s.path].Folder? && Whole(s.held, s.disk, s.path)
    requires Within(d, s.path) && (Below(d, s.path) ==> d !in s.held)
    ensures Whole(s.held, Moved(s.disk, s.path, s.backup), d)
  {
    hide Backup;
    hide Temporary;
    hide Moved;
    SyncDisk.NamesApart(s.path, Token(s.ordinal));
    MovedAway(s.disk, s.path, s.backup, d);
    MovedThere(s.disk, s.path, s.backup);
    assert Backup(s.path, Token(s.ordinal)) in Moved(s.disk, s.path, s.backup);
  }

  lemma FolderGuard(e: Env, f: Frame, s: State)
    requires Named(e, s) && Clear(f, s) && Guarded(f, s.issued, s.disk) && s.path in s.disk && s.disk[s.path].Folder?
    ensures Guarded(f, s.issued, Moved(s.disk, s.path, s.backup))
  {
    hide ForeignName;
    hide Moved;
    hide Temporary;
    hide Backup;
    var next := Moved(s.disk, s.path, s.backup);
    SyncDisk.NamesApart(s.path, Token(s.ordinal));
    if s.issued < 0x1_0000_0000 {
      forall d | d in f.names
        ensures AtMostAt(f.base, next, d)
      {
        ForeignApart(e, s, d);
        if Below(d, s.path) {
          MovedAway(s.disk, s.path, s.backup, d);
        } else {
          MovedElsewhere(s.disk, s.path, s.backup, d);
        }
      }
    }
  }

  lemma FolderAsideKeeps(e: Env, f: Frame, s: State)
    requires Poised(e, f, s) && CanRename(e, s, s.path, s.backup) && s.disk[s.path].Folder?
    requires f.whole ==> forall d :: d in s.held && !IsSideName(d) ==> !Below(d, s.path)
    ensures Safe(f, TryRename(e, s, s.path, s.backup))
  {
    hide Named;
    hide ForeignName;
    hide Moved;
    hide Below;
    hide IsSideName;
    hide RootOnly;
    hide Whole;
    var next := Moved(s.disk, s.path, s.backup);
    PathWhole(e, f, s);
    NamedFacts(e, s);
    forall d | !Within(d, s.path) && !Within(d, s.backup)
      ensures SameAt(s.disk, next, d)
    {
      MovedElsewhere(s.disk, s.path, s.backup, d);
    }
    assert s.backup == Backup(s.path, Token(s.ordinal)) by { NamesOf(e, s); }
    if f.whole {
      forall d | !IsSideName(d) && Within(d, s.path)
        ensures Whole(s.held, next, d)
      {
        FolderWhole(e, s, d);
      }
      Beside(s.held, s.disk, next, s.path, Token(s.ordinal));
    }
    RootKept(f.start, s.disk, next, s.path, Token(s.ordinal));
    FolderGuard(e, f, s);
    DidSafe(f, s, next);
  }

  lemma NamesOf(e: Env, s: State)
    requires Named(e, s)
    ensures s.backup == Backup(s.path, Token(s.ordinal)) && s.temporary == Temporary(s.path, Token(s.ordinal))
  {
  }

  lemma AsideKeeps(e: Env, f: Frame, s: State)
    requires Poised(e, f, s) && CanRename(e, s, s.path, s.backup)
    requires f.whole && s.disk[s.path].Folder? ==> forall d :: d in s.held && !IsSideName(d) ==> !Below(d, s.path)
    ensures var t := TryRename(e, s, s.path, s.backup);
            && Poised(e, f, t) && SameRequest(s, t) && SameAt(s.disk, t.disk, s.temporary)
  {
    hide Safe;
    hide Named;
    hide ForeignName;
    hide Moved;
    hide Below;
    PathWhole(e, f, s);
    if s.disk[s.path].File? {
      FileAsideKeeps(e, f, s);
    } else {
      FolderAsideKeeps(e, f, s);
    }
    MovedElsewhere(s.disk, s.path, s.backup, s.temporary);
    NamedSame(e, s, TryRename(e, s, s.path, s.backup));
  }

  /** What was moved aside since `b` is moved back. */
  lemma BackKeeps(e: Env, f: Frame, b: State, s: State)
    requires Poised(e, f, s) && Safe(f, b) && SameRequest(b, s) && s.held == b.held
    requires s.path in b.disk && s.disk == Moved(b.disk, s.path, s.backup)
    ensures var t := TryRename(e, s, s.backup, s.path);
            Safe(f, t) && SameAt(s.disk, t.disk, s.temporary)
  {
    hide Kept;
    hide Named;
    hide ForeignName;
    hide Moved;
    hide Within;
    hide Whole;
    PathWhole(e, f, s);
    NamedSame(e, s, b);
    PathWhole(e, f, b);
    NothingDone(f, s);
    if CanRename(e, s, s.backup, s.path) {
      var next := Moved(s.disk, s.backup, s.path);
      forall d | !Within(d, s.backup)
        ensures SameAt(b.disk, next, d)
      {
        MovedBack(b.disk, s.path, s.backup, d);
      }
      if f.whole {
        StillWhole(b.held, b.disk, next, s.path);
      }
      MovedElsewhere(s.disk, s.backup, s.path, s.temporary);
      EditSafe(e, f, s, b.disk, next);
    }
  }

  lemma StillWhole(held: Disk, disk: Disk, next: Disk, d: string)
    requires Whole(held, disk, d) && d in disk && SameAt(disk, next, d)
    ensures Whole(held, next, d)
  {
  }

  /** The staging file becomes the destination: from this operation on it is what is held there. */
  lemma InKeeps(e: Env, f: Frame, s: State)
    requires Poised(e, f, s) && CanRename(e, s, s.temporary, s.path)
    ensures var n := s.(installed := s.installed + [(s.path, s.received)], held := s.held[s.path := File(s.received)]);
            var t := TryRename(e, n, s.temporary, s.path);
            && Poised(e, f, t) && s.temporary !in t.disk
            && s.path in t.disk && t.held == n.held && t.disk[s.path] == t.held[s.path]
  {
    hide AllWhole;
    hide Allowed;
    hide Temporary;
    hide Backup;
    hide ForeignName;
    hide RootOnly;
    PathWhole(e, f, s);
    NamedFacts(e, s);
    var next := Moved(s.disk, s.temporary, s.path);
    var n := s.(installed := s.installed + [(s.path, s.received)], held := s.held[s.path := File(s.received)]);
    ReplayOne(f.start, s.installed, s.path, s.received);
    if f.whole {
      Elsewhere(s.held, s.disk, n.held, next, s.path, Token(s.ordinal));
    }
    RootKept(f.start, s.disk, next, s.path, Token(s.ordinal));
    GuardKept(e, f, s, s.disk, next);
  }

  lemma DropKeeps(e: Env, f: Frame, s: State)
    requires Poised(e, f, s) && s.path in s.disk && s.path in s.held && s.disk[s.path] == s.held[s.path]
    ensures var t := TryUnlink(e, s, s.backup); Safe(f, t) && SameAt(s.disk, t.disk, s.temporary)
  {
    hide Kept;
    hide Named;
    hide ForeignName;
    hide Removable;
    PathWhole(e, f, s);
    NothingDone(f, s);
    EditSafe(e, f, s, s.disk, s.disk - {s.backup});
  }

  /** What an install has come to. */
  ghost predicate Concluded(f: Frame, s: State, r: Outcome) {
    && Safe(f, r.state) && Installing(s, r.state)
    && (r.status == Ok ==> !r.state.temporaryLive && |r.state.installed| == |s.installed| + 1)
  }

  /** With `had`, the destination of `b` was moved aside. */
  lemma InstallKeeps(e: Env, f: Frame, b: State, s: State, had: bool)
    requires Poised(e, f, s) && !s.fileOpen && Safe(f, b) && SameRequest(b, s) && s.held == b.held
    requires had ==> s.path in b.disk && s.disk == Moved(b.disk, s.path, s.backup)
    ensures Concluded(f, s, InstallStaged(e, s, had))
  {
    hide Kept;
    hide Named;
    hide ForeignName;
    NothingDone(f, s);
    if CanRename(e, s, s.temporary, s.path) {
      InKeeps(e, f, s);
      var n := s.(installed := s.installed + [(s.path, s.received)], held := s.held[s.path := File(s.received)]);
      DropKeeps(e, f, TryRename(e, n, s.temporary, s.path));
    } else if had {
      assert Named(e, Did(s, s.disk)) by { NamedSame(e, s, Did(s, s.disk)); }
      BackKeeps(e, f, b, Did(s, s.disk));
    }
  }

  lemma NotBuried(e: Env, s: State)
    requires MovesFolder(e, s) && !Buries(e, s)
    ensures forall d :: d in s.held && !IsSideName(d) ==> !Below(d, s.path)
  {
  }

  /**
   replace_destination keeps every destination whole after each of its operations, unless it moves a folder aside
   with a destination below it.
   */
  lemma ReplaceKeeps(e: Env, f: Frame, s: State)
    requires Poised(e, f, s) && (f.whole ==> !Buries(e, s))
    ensures Concluded(f, s, ReplaceDestination(e, s))
  {
    hide Safe;
    hide Named;
    hide ForeignName;
    hide InstallStaged;
    hide Buries;
    hide Moved;
    var closed := Did(s, s.disk).(fileOpen := false);
    var a := Looked(closed);
    NothingDone(f, s);
    SafeSame(f, Did(s, s.disk), closed);
    NothingDone(f, closed);
    NothingDone(f, a);
    assert Named(e, a) by { NamedSame(e, s, a); }
    var had := Exists(e, closed, s.path);
    if !(s.fileOpen && !e.ok(s.ops)) && (had ==> CanRename(e, a, s.path, s.backup)) {
      if had {
        if f.whole && s.disk[s.path].Folder? {
          NotBuried(e, s);
        }
        AsideKeeps(e, f, a);
        InstallKeeps(e, f, a, TryRename(e, a, s.path, s.backup), true);
      } else {
        InstallKeeps(e, f, a, a, false);
      }
    }
  }

  // ---------- steps of a session ----------

  lemma FailedUpload(e: Env, f: Frame, s: State, reason: string, drain: Phase)
    requires Poised(e, f, s) && Outside(f, s) && s.fileOpen == s.temporaryLive && InUpload(s.phase)
    requires s.header == [] && s.spec == [] && s.remaining <= e.dataMax
    requires drain == DrainHeader || drain == DiscardAndClose ==> s.remaining == 0
    requires s.phase == SendHeader ==> s.remaining == 0
    requires drain == DrainHeader || drain == DiscardAndClose || (drain == DrainData && s.remaining > 0)
    ensures Good(e, f, FailTransfer(e, s, reason, drain).state)
    ensures var t := FailTransfer(e, s, reason, drain).state; t.remaining == s.remaining && t.header == []
  {
    hide Kept;
    hide Allowed;
    hide Outside;
    hide FailTransfer;
    FailKeeps(e, f, s, reason, drain);
    OutsideSame(f, s, FailTransfer(e, s, reason, drain).state);
  }

  lemma GoodIsPoised(e: Env, f: Frame, s: State)
    requires Good(e, f, s) && InUpload(s.phase)
    ensures Poised(e, f, s)
  {
    hide Safe;
    hide Counted;
    hide ForeignName;
  }

  lemma FinishKeeps(e: Env, f: Frame, s: State)
    requires Good(e, f, s) && s.phase == SendHeader && s.header == [] && (f.whole ==> !Buries(e, s))
    ensures Good(e, f, FinishSend(e, s).state)
  {
    hide Safe;
    hide Outside;
    hide Clear;
    hide Allowed;
    hide Token;
    hide FailTransfer;
    hide ReplaceDestination;
    hide Send;
    GoodIsPoised(e, f, s);
    ReplaceKeeps(e, f, s);
    var r := ReplaceDestination(e, s);
    var t := FinishSend(e, s).state;
    if r.status == Ok {
      RoomForOkay(f, s, r.state);
      SendSafe(e, f, r.state, Okay);
      SendFrame(e, r.state, Okay);
      SafeSame(f, Send(e, r.state, Okay), t);
    } else {
      ClearSame(f, s, r.state);
      FailKeeps(e, f, r.state, "cannot install completed file", DrainHeader);
    }
    OutsideSame(f, s, t);
  }

  lemma RoomForOkay(f: Frame, s: State, t: State)
    requires Safe(f, s) && t.sent == s.sent && |t.installed| == |s.installed| + 1
    ensures Okays(t.sent) < |t.installed|
  {
    hide Kept;
  }

  lemma RecordKeeps(e: Env, f: Frame, s: State, id: U32, value: U32)
    requires Good(e, f, s) && s.phase == SendHeader && s.header == []
    requires f.whole && id == ID_DONE ==> !Buries(e, s)
    ensures Good(e, f, RecordArrived(e, s, id, value).state)
  {
    hide Kept;
    hide Allowed;
    hide ForeignName;
    hide FailTransfer;
    hide FinishSend;
    hide Safe;
    hide Outside;
    hide Token;
    GoodIsPoised(e, f, s);
    if id == ID_DONE {
      FinishKeeps(e, f, s);
      return;
    }
    FailedUpload(e, f, s, "invalid or oversized DATA", DiscardAndClose);
    var t := RecordArrived(e, s, id, value).state;
    if id != ID_DATA || value > e.dataMax {
      var u := FailTransfer(e, s, "invalid or oversized DATA", DiscardAndClose).state;
      SafeSame(f, u, t);
      OutsideSame(f, u, t);
    } else {
      SafeSame(f, s, t);
      OutsideSame(f, s, t);
    }
  }

  lemma SendFrame(e: Env, s: State, reply: Reply)
    ensures var t := Send(e, s, reply); t == s.(sends := s.sends + 1, sent := t.sent)
  {
  }

  lemma RequestKeeps(e: Env, f: Frame, s: State, id: U32, value: U32)
    requires Good(e, f, s) && s.phase == RequestHeader && s.header == []
    ensures Good(e, f, RequestArrived(e, s, id, value).state)
  {
    hide Kept;
    hide Allowed;
    hide Safe;
    hide Outside;
    hide Send;
    var t := Send(e, s, Fail("only bounded STAT and SEND are supported"));
    SendSafe(e, f, s, Fail("only bounded STAT and SEND are supported"));
    SendFrame(e, s, Fail("only bounded STAT and SEND are supported"));
    var u := RequestArrived(e, s, id, value).state;
    SafeSame(f, if u.sends == s.sends then s else t, u);
    OutsideSame(f, s, u);
  }

  lemma DrainKeeps(e: Env, f: Frame, s: State, id: U32, value: U32)
    requires Good(e, f, s) && s.phase == DrainHeader && s.header == []
    ensures Good(e, f, DrainArrived(e, s, id, value).state)
  {
    hide Safe;
    hide Outside;
    var t := DrainArrived(e, s, id, value).state;
    SafeSame(f, s, t);
    OutsideSame(f, s, t);
  }

  lemma SameBuries(e: Env, s: State)
    ensures Buries(e, s.(header := [])) == Buries(e, s)
  {
  }

  lemma HeaderKeeps(e: Env, f: Frame, s: State, h: seq<Byte>)
    requires Good(e, f, s.(header := [])) && HeaderPhase(s.phase) && |h| == 8
    requires f.whole && s.phase == SendHeader && Get32(h[..4]) == ID_DONE ==> !Buries(e, s)
    ensures Good(e, f, ProcessHeader(e, s, h).state)
  {
    hide Good;
    hide Buries;
    hide RecordArrived;
    hide RequestArrived;
    hide DrainArrived;
    hide Get32;
    var t := s.(header := []);
    SameBuries(e, s);
    if s.phase == SendHeader {
      RecordKeeps(e, f, t, Get32(h[..4]), Get32(h[4..]));
    } else if s.phase == RequestHeader {
      RequestKeeps(e, f, t, Get32(h[..4]), Get32(h[4..]));
    } else {
      DrainKeeps(e, f, t, Get32(h[..4]), Get32(h[4..]));
    }
  }

  // ---------- what spares the folders ----------

  /** This byte completes the header of an upload's end. */
  predicate Finishing(s: State, b: Byte) {
    s.phase == SendHeader && |s.header| == 7 && Get32((s.header + [b])[..4]) == ID_DONE
  }

  ghost predicate ByteSpares(e: Env, s: State, b: Byte) { Finishing(s, b) ==> !Buries(e, s) }

  /** The next byte does not end an upload to a folder with destinations below it. */
  ghost predicate StepSpares(e: Env, s: State, b: Byte) {
    Settle(e, s).status == Ok ==> ByteSpares(e, Settle(e, s).state, b)
  }

  /** No byte of the packet does. */
  ghost predicate FeedSpares(e: Env, s: State, packet: seq<Byte>)
    decreases packet
  {
    packet == [] ||
    var r := Step(e, s, packet[0], |packet| - 1);
    StepSpares(e, s, packet[0]) && (r.status == Ok ==> FeedSpares(e, r.state, packet[1..]))
  }

  ghost predicate ActSpares(e: Env, s: State, event: Event) { event.Packet? ==> FeedSpares(e, s, event.bytes) }

  /** No upload of the run ends at a folder that has destinations below it. */
  ghost predicate RunSpares(e: Env, s: State, events: seq<Event>) {
    events == [] ||
    var k := |events| - 1;
    RunSpares(e, s, events[..k]) && ActSpares(e, Run(e, s, events[..k]), events[k])
  }

  lemma HeaderByteKeeps(e: Env, f: Frame, s: State, b: Byte)
    requires Good(e, f, s) && HeaderPhase(s.phase) && (f.whole ==> ByteSpares(e, s, b))
    ensures Good(e, f, TakeHeaderByte(e, s, b).state)
  {
    hide Kept;
    hide Allowed;
    hide ForeignName;
    hide ProcessHeader;
    if |s.header| == 7 {
      HeaderKeeps(e, f, s, s.header + [b]);
    }
  }

  lemma StatKeeps(e: Env, f: Frame, s: State)
    requires Safe(f, s) && Outside(f, s) && Handled(s) && s.header == [] && s.phase == StatPath && s.remaining == 0
    ensures Good(e, f, SendStat(e, s).state)
  {
    hide Safe;
    hide Outside;
    hide Send;
    hide StatsOf;
    hide Chars;
    hide StatAllowed;
    var path := Chars(s.spec);
    var t := if '\0' in path || !StatAllowed(path, e.pathMax) then s else Looked(s);
    var u, reply := t.(spec := [], phase := RequestHeader), StatsOf(e, s, path);
    NothingDone(f, s);
    SafeSame(f, t, u);
    StatsIsNotOkay(e, s, path);
    SendSafe(e, f, u, reply);
    SendFrame(e, u, reply);
    OutsideSame(f, s, Send(e, u, reply));
  }

  lemma StatsIsNotOkay(e: Env, s: State, path: string)
    ensures StatsOf(e, s, path).Stats?
  {
  }

  lemma SpecByteKeeps(e: Env, f: Frame, s: State, b: Byte)
    requires Good(e, f, s) && SpecPhase(s.phase) && s.remaining > 0
    ensures Good(e, f, TakeSpecByte(e, s, b).state)
  {
    hide Kept;
    hide Allowed;
    hide ForeignName;
    hide StartSend;
    hide SendStat;
    var t := s.(spec := s.spec + [b], remaining := s.remaining - 1);
    if t.remaining == 0 {
      if s.phase == RequestSpec {
        StartKeeps(e, f, t);
      } else {
        StatKeeps(e, f, t);
      }
    }
  }

  /** One more byte in the staging file. */
  lemma TookKeeps(e: Env, f: Frame, s: State, b: Byte)
    requires Good(e, f, s) && s.phase == SendData && s.fileOpen && s.remaining > 0
    ensures Safe(f, Took(s, b)) && Staged(e, Took(s, b))
  {
    hide Kept;
    hide Allowed;
    hide Counted;
    hide ForeignName;
    GoodIsPoised(e, f, s);
    TemporarySafe(e, f, s, Grown(s, b));
  }

  lemma ClearSame(f: Frame, s: State, t: State)
    requires Clear(f, s) && t.issued == s.issued && t.ordinal == s.ordinal
    ensures Clear(f, t)
  {
  }

  lemma FailPhase(e: Env, s: State, reason: string, drain: Phase)
    ensures FailTransfer(e, s, reason, drain).status == Ok ==> FailTransfer(e, s, reason, drain).state.phase == drain
  {
    hide CleanupPartial;
  }

  /** The count of writes and what is left of a record play no part in being ready to install. */
  lemma PoisedSame(e: Env, f: Frame, s: State, left: nat, writes: nat)
    requires Poised(e, f, s)
    ensures Poised(e, f, s.(remaining := left, writes := writes))
  {
    hide Safe;
    hide ForeignName;
    SafeSame(f, s, s.(remaining := left, writes := writes));
    NamedSame(e, s, s.(remaining := left, writes := writes));
  }

  lemma WriteFailKeeps(e: Env, f: Frame, s: State, lost: nat)
    requires Good(e, f, s) && s.phase == SendData && lost <= s.remaining
    ensures Good(e, f, WriteFails(e, s, lost).state)
    ensures var r := WriteFails(e, s, lost); r.status == Ok && lost == s.remaining ==> r.state.phase == DrainHeader
  {
    hide FailTransfer;
    hide Safe;
    hide Outside;
    hide Poised;
    hide Staged;
    var left := s.remaining - lost;
    var t := s.(remaining := left);
    OutsideSame(f, s, t);
    GoodIsPoised(e, f, s);
    PoisedSame(e, f, s, left, s.writes);
    assert t == s.(remaining := left, writes := s.writes);
    if left == 0 {
      FailedUpload(e, f, t, "write failed", DrainHeader);
      FailPhase(e, t, "write failed", DrainHeader);
    } else {
      FailedUpload(e, f, t, "write failed", DrainData);
    }
  }

  lemma GoodWrites(e: Env, f: Frame, s: State, writes: nat)
    requires Good(e, f, s) && s.phase == SendData
    ensures Good(e, f, s.(writes := writes))
  {
    hide Safe;
    hide Outside;
    GoodIsPoised(e, f, s);
    PoisedSame(e, f, s, s.remaining, writes);
    OutsideSame(f, s, s.(writes := writes));
  }

  lemma TookGood(e: Env, f: Frame, s: State, b: Byte)
    requires Good(e, f, s) && s.phase == SendData && s.fileOpen && s.remaining > 0
    ensures var t := Took(s, b); Good(e, f, if t.remaining == 0 then t.(phase := SendHeader) else t)
  {
    hide Safe;
    hide Outside;
    hide Grown;
    hide Named;
    TookKeeps(e, f, s, b);
    var t := Took(s, b);
    var u := if t.remaining == 0 then t.(phase := SendHeader) else t;
    SafeSame(f, t, u);
    OutsideSame(f, s, u);
    NamedSame(e, t, u);
  }

  lemma DataByteKeeps(e: Env, f: Frame, s: State, b: Byte, behind: nat)
    requires Good(e, f, s) && s.phase == SendData && s.remaining > 0
    ensures Good(e, f, TakeDataByte(e, s, b, behind).state)
  {
    hide Safe;
    hide Outside;
    hide Staged;
    hide WriteFails;
    hide Took;
    if s.fileOpen && e.writeOk(s.writes) {
      TookGood(e, f, s, b);
    } else {
      var t := if s.fileOpen then s.(writes := s.writes + 1) else s;
      GoodWrites(e, f, s, s.writes + 1);
      WriteFailKeeps(e, f, t, 1);
      WriteFailKeeps(e, f, t, if 1 + behind <= s.remaining then 1 + behind else s.remaining);
    }
  }

  lemma SettleKeeps(e: Env, f: Frame, s: State)
    requires Good(e, f, s)
    ensures Good(e, f, Settle(e, s).state)
    ensures Settle(e, s).status == Ok ==> !Stalled(Settle(e, s).state) && !Retrying(Settle(e, s).state)
  {
    hide Kept;
    hide Allowed;
    hide ForeignName;
    hide WriteFails;
    hide StartSend;
    if Stalled(s) {
      WriteFailKeeps(e, f, s, 0);
    } else if Retrying(s) {
      StartKeeps(e, f, s);
    }
  }

  lemma DrainByteKeeps(e: Env, f: Frame, s: State)
    requires Good(e, f, s) && s.phase == DrainData
    ensures Good(e, f, TakeDrainByte(s))
  {
    hide Kept;
    hide ForeignName;
  }

  lemma StepKeeps(e: Env, f: Frame, s: State, b: Byte, behind: nat)
    requires Good(e, f, s) && (f.whole ==> StepSpares(e, s, b))
    ensures Good(e, f, Step(e, s, b, behind).state)
  {
    hide Safe;
    hide Outside;
    hide Staged;
    hide Handled;
    hide Settle;
    hide TakeHeaderByte;
    hide TakeDataByte;
    hide TakeSpecByte;
    hide TakeDrainByte;
    SettleKeeps(e, f, s);
    var t := Settle(e, s).state;
    if Settle(e, s).status == Ok {
      if HeaderPhase(t.phase) {
        HeaderByteKeeps(e, f, t, b);
      } else if t.phase == SendData {
        DataByteKeeps(e, f, t, b, behind);
      } else if t.phase == DrainData {
        DrainByteKeeps(e, f, t);
      } else if SpecPhase(t.phase) {
        SpecByteKeeps(e, f, t, b);
      }
    }
  }

  lemma {:induction false} FeedKeeps(e: Env, f: Frame, s: State, packet: seq<Byte>)
    requires Good(e, f, s) && (f.whole ==> FeedSpares(e, s, packet))
    ensures Good(e, f, Feed(e, s, packet).state)
    decreases packet
  {
    hide Good;
    hide Step;
    if packet != [] {
      StepKeeps(e, f, s, packet[0], |packet| - 1);
      var r := Step(e, s, packet[0], |packet| - 1);
      if r.status == Ok {
        FeedKeeps(e, f, r.state, packet[1..]);
      }
    }
  }

  lemma CloseKeeps(e: Env, f: Frame, s: State)
    requires Good(e, f, s)
    ensures Good(e, f, CloseSession(e, s))
  {
    hide Kept;
    hide Allowed;
    hide CleanupPartial;
    hide Named;
    hide ForeignName;
    CleanupKeeps(e, f, s);
    var c := CleanupPartial(e, s);
    OutsideSame(f, s, c);
    FreshOutside(f, c);
  }

  lemma FreshOutside(f: Frame, s: State)
    requires Outside(f, s)
    ensures Outside(f, Fresh(s))
  {
    forall d | d in f.names
      ensures ForeignName(d, s.issued, false, 0)
    {
      var p: string, k: nat :| d == Temporary(p, Token(k)) && k <= s.issued;
      assert d == Temporary(p, Token(k)) && k <= s.issued;
    }
  }

  lemma ActKeeps(e: Env, f: Frame, s: State, event: Event)
    requires Good(e, f, s) && (f.whole ==> ActSpares(e, s, event))
    ensures Good(e, f, Act(e, s, event))
  {
    hide Good;
    hide Feed;
    hide CloseSession;
    if event.Packet? {
      FeedKeeps(e, f, s, event.bytes);
    } else {
      CloseKeeps(e, f, s);
    }
  }

  lemma {:induction false} RunKeeps(e: Env, f: Frame, s: State, events: seq<Event>)
    requires Good(e, f, s) && (f.whole ==> RunSpares(e, s, events))
    ensures Good(e, f, Run(e, s, events))
  {
    hide Good;
    hide Act;
    if events != [] {
      var k := |events| - 1;
      RunKeeps(e, f, s, events[..k]);
      ActKeeps(e, f, Run(e, s, events[..k]), events[k]);
    }
  }

  /** What has to happen before the next byte happens first. */
  lemma SettleFirst(e: Env, f: Frame, s: State, packet: seq<Byte>)
    requires Good(e, f, s) && packet != []
    ensures var r := Settle(e, s); Feed(e, s, packet) == if r.status != Ok then r else Feed(e, r.state, packet)
  {
    hide Good;
    hide WriteFails;
    hide StartSend;
    hide TakeHeaderByte;
    hide TakeDataByte;
    hide TakeSpecByte;
    SettleKeeps(e, f, s);
    var t := Settle(e, s).state;
    if Settle(e, s).status == Ok {
      assert Settle(e, t) == Outcome(t, Ok);
      assert Step(e, t, packet[0], |packet| - 1) == Step(e, s, packet[0], |packet| - 1);
    }
  }
}
