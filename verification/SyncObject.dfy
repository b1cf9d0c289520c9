/**
 The upload service in the form of lib/adb/adb_sync.c: a context updated in place, buffers filled by slices
 of the packet, loops over attempts and over the packet. Every method is proved to do what the byte-wise
 functions of Sync say.
 */
module SyncObject {
  import opened Bytes
  import opened Errno
  import opened SyncDisk
  import opened SyncNames
  import opened Text
  import opened Sync
  import opened SyncFeed
  import opened SyncSafety

  /** The context of the stream is the record `c`; its two buffers are arrays beside it. */
  class SyncService {
    const e: Env
    const header: array<Byte>
    const spec: array<Byte>
    ghost const frame: Frame
    var headerUsed: nat
    var specUsed: nat
    var c: State

    ghost predicate Valid()
      reads this
    {
      && header.Length == 8 && headerUsed <= 8 && header != spec
      && spec.Length == e.pathMax + 16 && specUsed <= spec.Length
      && c.header == [] && c.spec == [] && !frame.whole
    }

    /** The value of the service; a request is kept only while it is read. */
    ghost function View(): State
      requires Valid()
      reads this, header, spec
    {
      c.(header := header[..headerUsed], spec := if SpecPhase(c.phase) then spec[..specUsed] else [])
    }

    constructor (e: Env, issued: nat, disk: Disk)
      ensures Valid() && this.e == e && this.frame == Frame(disk, {}, map[], 0, false) && fresh(header) && fresh(spec)
      ensures View() == Fresh(View()) && View().issued == issued && View().disk == disk && View().sent == []
      ensures Good(e, frame, View())
    {
      this.e := e;
      header := new Byte[8](_ => 0);
      spec := new Byte[e.pathMax + 16](_ => 0);
      headerUsed, specUsed := 0, 0;
      c := State(RequestHeader, [], 0, [], "", "", "", false, false, false, issued, disk, 0, 0, 0, [],
                 0, [], [], disk, []);
      frame := Frame(disk, {}, map[], 0, false);
      new;
      StartIsWhole(disk);
    }

    // ---------- file operations ----------

    /** One file operation, which left the disk as `next`. */
    method Operate(next: Disk)
      modifies this`c
      ensures c == Did(old(c), next)
    {
      c := c.(disk := next, ops := c.ops + 1, trace := c.trace + [Snapshot(next, c.held)]);
    }

    /** fs_stat */
    method Look(name: string) returns (found: bool)
      modifies this`c
      ensures c == Looked(old(c)) && found == Exists(e, old(c), name)
    {
      found := e.ok(c.ops) && name in c.disk;
      c := c.(ops := c.ops + 1);
    }

    /** fs_rename */
    method Rename(from: string, to: string) returns (ok: bool)
      modifies this`c
      ensures c == TryRename(e, old(c), from, to) && ok == CanRename(e, old(c), from, to)
    {
      ok := e.ok(c.ops) && from in c.disk && !(to in c.disk && c.disk[to].Folder?);
      Operate(if ok then Moved(c.disk, from, to) else c.disk);
    }

    /** fs_unlink */
    method Unlink(name: string)
      modifies this`c
      ensures c == TryUnlink(e, old(c), name)
    {
      Operate(if e.ok(c.ops) && Removable(c.disk, name) then c.disk - {name} else c.disk);
    }

    // ---------- replies and failures ----------

    /** send_status */
    method SendReply(reply: Reply) returns (status: Status)
      modifies this`c
      ensures c == Send(e, old(c), reply) && status == e.answer(old(c).sends)
    {
      status := e.answer(c.sends);
      c := c.(sends := c.sends + 1);
      if status == Ok {
        c := c.(sent := c.sent + [reply]);
      }
    }

    /** cleanup_partial */
    method Cleanup()
      modifies this`c
      ensures c == CleanupPartial(e, old(c))
    {
      if c.fileOpen {
        Operate(c.disk);
        c := c.(fileOpen := false);
      }
      if c.temporaryLive {
        Unlink(c.temporary);
        c := c.(temporaryLive := false);
      }
    }

    /** fail_transfer */
    method Refuse(reason: string, drain: Phase) returns (status: Status)
      modifies this`c
      ensures Outcome(c, status) == FailTransfer(e, old(c), reason, drain)
    {
      Cleanup();
      status := SendReply(Fail(reason));
      if status == Ok {
        c := c.(phase := drain);
      }
    }

    // ---------- starting an upload ----------

    /** One attempt of choose_side_paths */
    method Try() returns (status: Status)
      modifies this`c
      ensures Outcome(c, status) == TryNames(e, old(c))
    {
      hide Temporary;
      hide Backup;
      hide Token;
      c := c.(issued := c.issued + 1, ordinal := c.issued + 1);
      var token := Token(c.issued);
      c := c.(temporary := Temporary(c.path, token), backup := Backup(c.path, token));
      if |c.temporary| >= e.pathMax + SIDE_SUFFIX_LEN || |c.backup| >= e.pathMax + SIDE_SUFFIX_LEN {
        return ENAMETOOLONG;
      }
      var taken := Look(c.temporary);
      if !taken {
        taken := Look(c.backup);
      }
      status := if taken then EEXIST else Ok;
    }

    /** choose_side_paths */
    method ChooseNames() returns (status: Status)
      modifies this`c
      ensures Outcome(c, status) == ChooseSidePaths(e, old(c), 32)
    {
      hide TryNames;
      var attempt := 0;
      while attempt < 32
        invariant 0 <= attempt <= 32
        invariant ChooseSidePaths(e, c, 32 - attempt) == ChooseSidePaths(e, old(c), 32)
      {
        status := Try();
        if status != EEXIST {
          return;
        }
        attempt := attempt + 1;
      }
      return EEXIST;
    }

    /** start_send from the choice of names on */
    method Stage() returns (status: Status)
      modifies this`c
      ensures Outcome(c, status) == StageUpload(e, old(c))
    {
      hide ChooseSidePaths;
      hide FailTransfer;
      status := ChooseNames();
      if status != Ok {
        status := Refuse(if status == ENAMETOOLONG then "path too long" else "no free staging name", DrainHeader);
        return;
      }
      var found := Look(c.path);
      if found && c.disk[c.path].Folder? {
        status := Refuse("destination is not a file", DrainHeader);
        return;
      }
      if !(e.ok(c.ops) && !(c.temporary in c.disk && c.disk[c.temporary].Folder?)) {
        Operate(c.disk);
        status := Refuse("cannot create partial file", DrainHeader);
        return;
      }
      Operate(c.disk[c.temporary := File([])]);
      c := c.(fileOpen := true, temporaryLive := true, phase := SendHeader, received := []);
      status := Ok;
    }

    /** The checks of start_send on the text of the request */
    method CheckSpec(text: string) returns (fault: string, k: int)
      ensures fault == SpecFault(e, text) && k == LastComma(text)
    {
      k := LastComma(text);
      if '\0' in text {
        return "NUL in SEND path", k;
      }
      if k <= 0 || k + 1 == |text| {
        return "SEND requires path,mode", k;
      }
      var mode := e.parseMode(text[k + 1..]);
      if mode.BadMode? || mode.bits >= 0x1_0000_0000 {
        return "invalid SEND mode", k;
      }
      if mode.bits / 0x1000 % 16 != 0 && mode.bits / 0x1000 % 16 != 8 {
        return "only regular files supported", k;
      }
      var allowed := PathAllowed(text[..k], e.pathMax);
      return if allowed then "" else "path outside /STORAGE:", k;
    }

    /** The comma is overwritten where the request was split */
    method CutSpec(text: string, k: int)
      requires Valid() && |text| == specUsed && k < |text|
      modifies spec
      ensures spec[..specUsed] == CutAt(old(spec[..specUsed]), text, k)
    {
      if '\0' !in text && k > 0 && k + 1 < |text| {
        ghost var before := spec[..specUsed];
        spec[k] := 0;
        assert spec[..specUsed] == before[k := 0];
      }
    }

    /** start_send once the request is split at `k` */
    method Answer(text: string, fault: string, k: int) returns (status: Status)
      requires c.header == [] && c.spec == [] && c.phase == RequestSpec && (fault == "" ==> 0 <= k <= |text|)
      modifies this`c
      ensures Outcome(c, status) == if fault != "" then FailTransfer(e, old(c), fault, DrainHeader)
                                    else StageUpload(e, old(c).(path := text[..k]))
      ensures c.header == [] && c.spec == [] && if status == Ok then !SpecPhase(c.phase) else c.phase == RequestSpec
    {
      hide FailTransfer;
      hide StageUpload;
      if fault != "" {
        FailFrame(e, c, fault, DrainHeader);
        status := Refuse(fault, DrainHeader);
      } else {
        c := c.(path := text[..k]);
        StageFrame(e, c);
        status := Stage();
      }
    }

    /** start_send */
    method Start() returns (status: Status)
      requires Valid() && c.phase == RequestSpec && headerUsed == 0
      modifies this`c, spec
      ensures Valid() && Outcome(View(), status) == StartSend(e, old(View()))
    {
      hide FailTransfer;
      hide StageUpload;
      hide StartSend;
      hide SpecFault;
      hide LastComma;
      hide Chars;
      hide Allowed;
      hide CutAt;
      ghost var s := View();
      assert header[..0] == [] && s.(spec := []) == c;
      StartUnfolds(e, s);
      var text := Chars(spec[..specUsed]);
      var fault, k := CheckSpec(text);
      if fault == "" {
        FaultFree(e, text);
      }
      CutSpec(text, k);
      status := Answer(text, fault, k);
    }

    // ---------- STAT ----------

    /** The answer of send_stat */
    method Describe(name: string) returns (reply: Reply)
      modifies this`c
      ensures reply == StatsOf(e, old(c), name)
      ensures c == if '\0' in name || !StatAllowed(name, e.pathMax) then old(c) else Looked(old(c))
    {
      hide StatAllowed;
      reply := Stats(0, 0);
      var allowed := StatPathAllowed(name, e.pathMax);
      if '\0' !in name && allowed {
        var found := Look(name);
        if found {
          reply := if c.disk[name].Folder? then Stats(0x41ED, 0)
          else Stats(0x81A4, if |c.disk[name].bytes| < 0x1_0000_0000 then |c.disk[name].bytes| else 0xFFFF_FFFF);
        }
      }
    }

    /** send_stat */
    method Stat() returns (status: Status)
      requires Valid() && c.phase == StatPath && headerUsed == 0
      modifies this`c
      ensures Valid() && Outcome(View(), status) == SendStat(e, old(View()))
    {
      hide StatAllowed;
      hide Chars;
      hide StatsOf;
      hide Send;
      ghost var s := View();
      SameStats(e, c, s, Chars(s.spec));
      var reply := Describe(Chars(spec[..specUsed]));
      c := c.(phase := RequestHeader);
      SendFrame(e, c, reply);
      status := SendReply(reply);
    }

    // ---------- finishing an upload ----------

    /** replace_destination from the second rename on */
    method InstallFile(had: bool) returns (status: Status)
      modifies this`c
      ensures Outcome(c, status) == InstallStaged(e, old(c), had)
    {
      if CanRename(e, c, c.temporary, c.path) {
        c := c.(installed := c.installed + [(c.path, c.received)], held := c.held[c.path := File(c.received)]);
      }
      var ok := Rename(c.temporary, c.path);
      if !ok {
        if had {
          var _ := Rename(c.backup, c.path);
        }
        return EIO;
      }
      c := c.(temporaryLive := false);
      if had {
        Unlink(c.backup);
      }
      return Ok;
    }

    /** replace_destination */
    method Replace() returns (status: Status)
      modifies this`c
      ensures Outcome(c, status) == ReplaceDestination(e, old(c))
    {
      hide InstallStaged;
      var failed := c.fileOpen && !e.ok(c.ops);
      Operate(c.disk);
      c := c.(fileOpen := false);
      if failed {
        return EIO;
      }
      var had := Look(c.path);
      if had {
        var ok := Rename(c.path, c.backup);
        if !ok {
          return EIO;
        }
      }
      status := InstallFile(had);
    }

    /** finish_send */
    method Finish() returns (status: Status)
      modifies this`c
      ensures Outcome(c, status) == FinishSend(e, old(c))
    {
      hide ReplaceDestination;
      hide FailTransfer;
      status := Replace();
      if status != Ok {
        status := Refuse("cannot install completed file", DrainHeader);
        return;
      }
      status := SendReply(Okay);
      if status == Ok {
        c := c.(phase := RequestHeader);
      }
    }

    // ---------- headers ----------

    /** process_header while waiting for a request */
    method Request(id: U32, value: U32) returns (status: Status)
      requires Valid()
      modifies this`c, this`specUsed
      ensures Valid() && specUsed == (if SpecPhase(c.phase) && !SpecPhase(old(c).phase) then 0 else old(specUsed))
      ensures Outcome(c, status) == RequestArrived(e, old(c), id, value)
    {
      if id == ID_QUIT && value == 0 {
        c := c.(closing := true);
        return Ok;
      }
      if (id == ID_SEND || id == ID_STAT) && value != 0 && value < spec.Length {
        if !SpecPhase(c.phase) {
          specUsed := 0;
        }
        c := c.(remaining := value, phase := if id == ID_SEND then RequestSpec else StatPath);
        return Ok;
      }
      status := SendReply(Fail("only bounded STAT and SEND are supported"));
      if status != Ok {
        return EIO;
      }
      c := c.(phase := DiscardAndClose, remaining := 0, closing := true);
    }

    /** process_header during an upload */
    method Record(id: U32, value: U32) returns (status: Status)
      modifies this`c
      ensures Outcome(c, status) == RecordArrived(e, old(c), id, value)
    {
      hide FinishSend;
      hide FailTransfer;
      if id == ID_DONE {
        status := Finish();
        return;
      }
      if id != ID_DATA || value > e.dataMax {
        status := Refuse("invalid or oversized DATA", DiscardAndClose);
        c := c.(closing := true);
        return;
      }
      c := c.(remaining := value, phase := if value == 0 then SendHeader else SendData);
      return Ok;
    }

    /** process_header while an upload that failed is drained */
    method Drain(id: U32, value: U32)
      requires Valid() && c.phase == DrainHeader
      modifies this`c
      ensures Valid() && Outcome(c, Ok) == DrainArrived(e, old(c), id, value) && !SpecPhase(c.phase)
    {
      if id == ID_DONE {
        c := c.(phase := RequestHeader);
      } else if id != ID_DATA || value > e.dataMax {
        c := c.(closing := true);
      } else {
        c := c.(remaining := value, phase := if value == 0 then DrainHeader else DrainData);
      }
    }

    /** process_header */
    method Process() returns (status: Status)
      requires Valid() && headerUsed == 8 && HeaderPhase(c.phase)
      modifies this`c, this`headerUsed, this`specUsed
      ensures Valid() && Outcome(View(), status) == ProcessHeader(e, old(View()), old(header[..]))
    {
      hide RequestArrived;
      hide RecordArrived;
      hide DrainArrived;
      hide Get32;
      var id, value := Get32(header[..4]), Get32(header[4..]);
      headerUsed := 0;
      assert header[..][..4] == header[..4] && header[..][4..] == header[4..] && header[..0] == [];
      if c.phase == RequestHeader {
        RequestFrame(e, c, id, value);
        status := Request(id, value);
        assert spec[..0] == [];
      } else if c.phase == DrainHeader {
        Drain(id, value);
        status := Ok;
      } else {
        RecordFrame(e, c, id, value);
        status := Record(id, value);
      }
    }

    /** A slice of a header */
    method TakeHeader(x: seq<Byte>) returns (status: Status)
      requires Valid() && HeaderPhase(c.phase) && headerUsed + |x| <= 8
      modifies this`c, this`headerUsed, this`specUsed, header
      ensures Valid() && Outcome(View(), status) == HeaderTaken(e, old(View()), x)
    {
      hide ProcessHeader;
      ghost var s := View();
      ghost var h := s.header + x;
      Copy(header, headerUsed, x);
      headerUsed := headerUsed + |x|;
      assert header[..headerUsed] == h;
      if headerUsed == 8 {
        assert header[..] == h;
        HeaderForgotten(e, s, View(), h);
        status := Process();
      } else {
        status := Ok;
      }
    }

    /** A slice of a request */
    method TakeSpec(x: seq<Byte>) returns (status: Status)
      requires Valid() && SpecPhase(c.phase) && |x| <= c.remaining && specUsed + |x| <= spec.Length && headerUsed == 0
      modifies this`c, this`specUsed, spec
      ensures Valid() && Outcome(View(), status) == SpecTaken(e, old(View()), x)
    {
      hide StartSend;
      hide SendStat;
      ghost var s := View();
      Copy(spec, specUsed, x);
      specUsed := specUsed + |x|;
      c := c.(remaining := c.remaining - |x|);
      assert spec[..specUsed] == s.spec + x;
      if c.remaining > 0 {
        status := Ok;
      } else if c.phase == StatPath {
        status := Stat();
      } else {
        status := Start();
      }
    }

    /** fs_write: as many bytes as the file takes */
    method WriteFile(x: seq<Byte>) returns (n: nat)
      requires |x| <= c.remaining
      modifies this`c
      ensures n == if old(c).fileOpen then Accepted(e, old(c).writes, |x|) else 0
      ensures c == Written(old(c), x[..n])
    {
      hide Accepted;
      n := if c.fileOpen then Accepted(e, c.writes, |x|) else 0;
      ghost var t := Written(c, x[..n]);
      WrittenFrame(c, x[..n]);
      if c.fileOpen {
        WrittenAppends(c, x[..n]);
        c := c.(disk := Appended(c.disk, c.temporary, x[..n]), writes := c.writes + n, received := c.received + x[..n],
                trace := Written(c, x[..n]).trace, remaining := c.remaining - n);
      } else {
        assert x[..0] == [];
      }
    }

    /** A slice of a data record */
    method TakeData(x: seq<Byte>) returns (status: Status)
      requires Valid() && c.phase == SendData && |x| <= c.remaining && (c.fileOpen ==> x != [])
      modifies this`c
      ensures Valid() && !SpecPhase(c.phase)
      ensures Outcome(c, status) == if x == [] then WriteFails(e, old(c), 0) else DataTaken(e, old(c), x)
    {
      hide FailTransfer;
      hide Written;
      hide Accepted;
      ghost var s := c;
      var open, left := c.fileOpen, c.remaining - |x|;
      var n := WriteFile(x);
      WrittenFrame(s, x[..n]);
      if open && n == |x| {
        if c.remaining == 0 {
          c := c.(phase := SendHeader);
        }
        return Ok;
      }
      assert x == [] ==> x[..n] == [] && c == s by { WrittenNothing(s); }
      c := c.(writes := c.writes + if open then 1 else 0, remaining := left);
      FailFrame(e, c, "write failed", if left == 0 then DrainHeader else DrainData);
      status := Refuse("write failed", if left == 0 then DrainHeader else DrainData);
      if status != Ok {
        status := EIO;
      }
    }

    // ---------- packets ----------

    /** What one pass over the rest of a packet achieves: a stretch of it is dealt with. */
    ghost predicate Passed(s: State, rest: seq<Byte>, count: nat, status: Status)
      requires count <= |rest|
      reads this, header, spec
    {
      && Valid() && Good(e, frame, View())
      && (if status != Ok then Outcome(View(), status) == Feed(e, s, rest)
          else Feed(e, View(), rest[count..]) == Feed(e, s, rest))
      && (status == Ok && count == 0 ==> Unsettled(s) && !Unsettled(View()))
    }

    method PassHeader(rest: seq<Byte>) returns (count: nat, status: Status)
      requires Valid() && Good(e, frame, View()) && HeaderPhase(c.phase) && rest != []
      modifies this`c, this`headerUsed, this`specUsed, header
      ensures count <= |rest| && Passed(old(View()), rest, count, status)
    {
      hide Safe;
      hide Staged;
      hide HeaderTaken;
      ghost var s := View();
      count := if |rest| < 8 - headerUsed then |rest| else 8 - headerUsed;
      ghost var x := rest[..count];
      assert rest == x + rest[count..];
      FeedHeaderThen(e, s, x, rest[count..]);
      FeedHeader(e, s, x);
      FeedKeeps(e, frame, s, x);
      status := TakeHeader(rest[..count]);
    }

    method PassSpec(rest: seq<Byte>) returns (count: nat, status: Status)
      requires Valid() && Good(e, frame, View()) && SpecPhase(c.phase) && rest != []
      modifies this`c, this`specUsed, spec
      ensures count <= |rest| && Passed(old(View()), rest, count, status)
    {
      hide Safe;
      hide Staged;
      hide SendStat;
      hide StartSend;
      ghost var s := View();
      count := if |rest| < c.remaining then |rest| else c.remaining;
      ghost var x := rest[..count];
      assert rest == x + rest[count..];
      if count == 0 {
        SettleFirst(e, frame, s, rest);
        SettleKeeps(e, frame, s);
        status := Start();
      } else {
        FeedSpecThen(e, s, x, rest[count..]);
        FeedSpec(e, s, x);
        FeedKeeps(e, frame, s, x);
        status := TakeSpec(rest[..count]);
      }
    }

    method PassData(rest: seq<Byte>) returns (count: nat, status: Status)
      requires Valid() && Good(e, frame, View()) && c.phase == SendData && rest != []
      modifies this`c
      ensures count <= |rest| && Passed(old(View()), rest, count, status)
    {
      hide Safe;
      hide WriteFails;
      hide DataTaken;
      ghost var s := View();
      assert s == c;
      count := if |rest| < c.remaining then |rest| else c.remaining;
      ghost var x := rest[..count];
      assert rest == x + rest[count..];
      if count == 0 {
        SettleFirst(e, frame, s, rest);
        SettleKeeps(e, frame, s);
      } else {
        FeedDataThen(e, s, x, rest[count..]);
        FeedData(e, s, x);
        FeedKeeps(e, frame, s, x);
      }
      status := TakeData(rest[..count]);
      assert View() == c;
    }

    method PassDrain(rest: seq<Byte>) returns (count: nat, status: Status)
      requires Valid() && Good(e, frame, View()) && c.phase == DrainData && rest != []
      modifies this`c
      ensures count <= |rest| && Passed(old(View()), rest, count, status)
    {
      hide Safe;
      hide Staged;
      ghost var s := View();
      count := if |rest| < c.remaining then |rest| else c.remaining;
      ghost var x := rest[..count];
      assert rest == x + rest[count..];
      FeedDrain(e, s, x);
      FeedAppend(e, s, x, rest[count..]);
      FeedKeeps(e, frame, s, x);
      c := c.(remaining := c.remaining - count);
      if c.remaining == 0 {
        c := c.(phase := DrainHeader);
      }
      status := Ok;
      assert View() == DrainTaken(s, count);
    }

    /** sync_write. Every pass consumes input, reports an error or settles what an earlier error left. */
    method Write(data: seq<Byte>) returns (status: Status)
      requires Valid() && Good(e, frame, View())
      modifies this`c, this`headerUsed, this`specUsed, header, spec
      ensures Valid() && Good(e, frame, View()) && Outcome(View(), status) == Feed(e, old(View()), data)
    {
      hide Good;
      hide Feed;
      var pos := 0;
      assert data[0..] == data;
      while pos < |data|
        invariant 0 <= pos <= |data| && Valid() && Good(e, frame, View())
        invariant Feed(e, View(), data[pos..]) == Feed(e, old(View()), data)
        decreases |data| - pos, if Unsettled(View()) then 1 else 0
      {
        var rest := data[pos..];
        if c.phase == DiscardAndClose && c.remaining == 0 {
          DiscardIgnores(e, View(), rest);
          return Ok;
        }
        var count: nat;
        if HeaderPhase(c.phase) {
          count, status := PassHeader(rest);
        } else if c.phase == RequestSpec || c.phase == StatPath {
          count, status := PassSpec(rest);
        } else if c.phase == SendData {
          count, status := PassData(rest);
        } else {
          StillDraining(e, frame, View());
          count, status := PassDrain(rest);
        }
        if status != Ok {
          return;
        }
        assert rest[count..] == data[pos + count..];
        pos := pos + count;
      }
      assert data[pos..] == [];
      NothingFed(e, View());
      return Ok;
    }

    /** sync_close; the context is ready for another stream. */
    method Close()
      requires Valid() && Good(e, frame, View())
      modifies this`c, this`headerUsed, this`specUsed
      ensures Valid() && Good(e, frame, View()) && View() == CloseSession(e, old(View()))
    {
      hide Good;
      CloseKeeps(e, frame, View());
      ghost var s := View();
      CleanupBare(e, s);
      Cleanup();
      headerUsed, specUsed := 0, 0;
      c := c.(phase := RequestHeader, remaining := 0, path := "", temporary := "", backup := "",
              fileOpen := false, temporaryLive := false, closing := false, ordinal := 0, received := []);
    }
  }

  predicate Unsettled(s: State) { Stalled(s) || Retrying(s) }

  /** Buffers and phase are as before. */
  predicate SameBuffers(s: State, t: State) { t.header == s.header && t.spec == s.spec && t.phase == s.phase }

  lemma FailFrame(e: Env, s: State, reason: string, drain: Phase)
    ensures var r := FailTransfer(e, s, reason, drain);
            && r.state.header == s.header && r.state.spec == s.spec
            && r.state.phase == if r.status == Ok then drain else s.phase
  {
    hide CleanupPartial;
    CleanupFrame(e, s);
  }

  lemma CleanupFrame(e: Env, s: State)
    ensures SameBuffers(s, CleanupPartial(e, s))
  {
  }

  lemma InstallFrame(e: Env, s: State, had: bool)
    ensures SameBuffers(s, InstallStaged(e, s, had).state)
  {
  }

  lemma ReplaceFrame(e: Env, s: State)
    ensures SameBuffers(s, ReplaceDestination(e, s).state)
  {
    hide InstallStaged;
    var a := Looked(Did(s, s.disk).(fileOpen := false));
    InstallFrame(e, a, false);
    InstallFrame(e, TryRename(e, a, s.path, s.backup), true);
  }

  /** The request once its comma was overwritten. */
  function CutAt(spec: seq<Byte>, text: string, k: int): seq<Byte>
    requires |text| == |spec| && k < |text|
  {
    if '\0' in text || k <= 0 || k + 1 == |text| then spec else spec[k := 0]
  }

  lemma StartUnfolds(e: Env, s: State)
    ensures var text := Chars(s.spec); var k := LastComma(text); var fault := SpecFault(e, text);
            && |text| == |s.spec| && k < |text| && (fault == "" ==> 0 <= k)
            && var t := s.(spec := []);
               var r := if fault != "" then FailTransfer(e, t, fault, DrainHeader)
                        else StageUpload(e, t.(path := text[..k]));
               StartSend(e, s) == if r.status == Ok then r
                                  else Outcome(r.state.(spec := CutAt(s.spec, text, k)), r.status)
  {
    hide FailTransfer;
    hide StageUpload;
    hide LastComma;
  }

  lemma SameStats(e: Env, s: State, t: State, path: string)
    requires t.disk == s.disk && t.ops == s.ops
    ensures StatsOf(e, t, path) == StatsOf(e, s, path)
  {
  }

  lemma FinishFrame(e: Env, s: State)
    requires s.phase == SendHeader
    ensures var t := FinishSend(e, s).state; t.header == s.header && t.spec == s.spec && !SpecPhase(t.phase)
  {
    hide FailTransfer;
    hide ReplaceDestination;
    hide Send;
    ReplaceFrame(e, s);
    var u := ReplaceDestination(e, s).state;
    FailFrame(e, u, "cannot install completed file", DrainHeader);
    SendFrame(e, u, Okay);
  }

  lemma RecordFrame(e: Env, s: State, id: U32, value: U32)
    requires s.phase == SendHeader
    ensures var t := RecordArrived(e, s, id, value).state;
            t.header == s.header && t.spec == s.spec && !SpecPhase(t.phase)
  {
    hide FailTransfer;
    hide FinishSend;
    if id == ID_DONE {
      FinishFrame(e, s);
    } else {
      FailFrame(e, s, "invalid or oversized DATA", DiscardAndClose);
    }
  }

  lemma StageFrame(e: Env, s: State)
    ensures var r := StageUpload(e, s);
            && r.state.header == s.header && r.state.spec == s.spec
            && if r.status == Ok then !SpecPhase(r.state.phase) else r.state.phase == s.phase
  {
    hide ChooseSidePaths;
    hide FailTransfer;
    ChooseKeeps(e, s, 32);
    var r := ChooseSidePaths(e, s, 32);
    var d := Looked(r.state);
    FailFrame(e, r.state, if r.status == ENAMETOOLONG then "path too long" else "no free staging name", DrainHeader);
    FailFrame(e, d, "destination is not a file", DrainHeader);
    FailFrame(e, Did(d, d.disk), "cannot create partial file", DrainHeader);
  }

  /** sync_stat_path_allowed */
  method StatPathAllowed(path: string, pathMax: nat) returns (ok: bool)
    ensures ok <==> StatAllowed(path, pathMax)
  {
    if !(|ROOT| <= |path| < pathMax && StartsWith(path, ROOT)) {
      return false;
    }
    var t := path[|ROOT|..];
    var i := 0;
    while i < |t|
      invariant 0 <= i <= |t|
      invariant forall j :: 0 <= j < i ==> StatScanOk(t, j)
    {
      if !StatScanOk(t, i) {
        return false;
      }
      i := i + 1;
    }
    return true;
  }

  lemma RequestFrame(e: Env, s: State, id: U32, value: U32)
    requires s.header == [] && s.spec == []
    ensures RequestArrived(e, s, id, value).state.header == [] && RequestArrived(e, s, id, value).state.spec == []
  {
    hide Send;
    SendFrame(e, s, Fail("only bounded STAT and SEND are supported"));
  }

  lemma WrittenNothing(s: State)
    ensures Written(s, []) == s
  {
  }

  lemma {:induction false} DiscardIgnores(e: Env, s: State, packet: seq<Byte>)
    requires s.phase == DiscardAndClose
    ensures Feed(e, s, packet) == Outcome(s, Ok)
    decreases packet
  {
    if packet != [] {
      assert Step(e, s, packet[0], |packet| - 1) == Outcome(s, Ok);
      DiscardIgnores(e, s, packet[1..]);
    }
  }

  lemma NothingFed(e: Env, s: State)
    ensures Feed(e, s, []) == Outcome(s, Ok)
  {
  }

  lemma StillDraining(e: Env, frame: Frame, s: State)
    requires Good(e, frame, s) && !HeaderPhase(s.phase) && !SpecPhase(s.phase) && s.phase != SendData
    requires !(s.phase == DiscardAndClose && s.remaining == 0)
    ensures s.phase == DrainData
  {
  }

  lemma CleanupBare(e: Env, s: State)
    ensures Fresh(CleanupPartial(e, s.(header := [], spec := []))) == Fresh(CleanupPartial(e, s))
  {
    var b := s.(header := [], spec := []);
    var x := if s.fileOpen then Did(s, s.disk).(fileOpen := false) else s;
    var y := if b.fileOpen then Did(b, b.disk).(fileOpen := false) else b;
    assert y == x.(header := [], spec := []);
    assert TryUnlink(e, y, y.temporary) == TryUnlink(e, x, x.temporary).(header := [], spec := []);
  }
}
