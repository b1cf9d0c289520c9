/** A whole upload, SEND, DATA records and DONE in any packets, puts exactly the data at the destination. */
module SyncUpload {
  import opened Bytes
  import opened Errno
  import opened SyncDisk
  import opened SyncNames
  import opened Sync
  import opened SyncFeed
  import opened SyncSafety

  /** Every file operation works and the reply slot is free; data may still not be written. */
  ghost predicate Works(e: Env) {
    forall n :: e.ok(n) && e.answer(n) == Ok
  }

  /** The next `count` bytes of data can be written. */
  ghost predicate Writable(e: Env, writes: nat, count: nat) {
    forall n :: writes <= n < writes + count ==> e.writeOk(n)
  }

  function Header(id: U32, value: U32): (h: seq<Byte>)
    ensures |h| == 8
  {
    Put32(id) + Put32(value)
  }

  lemma HeaderFields(id: U32, value: U32)
    ensures Get32(Header(id, value)[..4]) == id && Get32(Header(id, value)[4..]) == value
  {
    assert Header(id, value)[..4] == Put32(id) && Header(id, value)[4..] == Put32(value);
  }

  /** The wire form of the data of an upload. */
  function Records(records: seq<seq<Byte>>): seq<Byte>
    requires forall d :: d in records ==> |d| < 0x1_0000_0000
  {
    if records == [] then [] else Header(ID_DATA, |records[0]|) + records[0] + Records(records[1..])
  }

  function UploadBytes(spec: seq<Byte>, records: seq<seq<Byte>>, stamp: U32): seq<Byte>
    requires |spec| < 0x1_0000_0000 && forall d :: d in records ==> |d| < 0x1_0000_0000
  {
    Header(ID_SEND, |spec|) + spec + Records(records) + Header(ID_DONE, stamp)
  }

  // ---------- staging names ----------

  predicate FreeAt(disk: Disk, path: string, token: U32) {
    Temporary(path, token) !in disk && Backup(path, token) !in disk
  }

  /** One of the `left` tokens after `issued` has free names. */
  ghost predicate FreeWithin(disk: Disk, path: string, issued: nat, left: nat) {
    exists n :: issued < n <= issued + left && FreeAt(disk, path, Token(n))
  }

  /** The search finds free names whenever there are some within its attempts. */
  lemma {:induction false} ChooseFinds(e: Env, s: State, left: nat)
    requires Works(e) && |s.path| < e.pathMax && FreeWithin(s.disk, s.path, s.issued, left)
    ensures var r := ChooseSidePaths(e, s, left);
            && r.status == Ok && r.state.temporary !in s.disk && r.state.backup !in s.disk
    decreases left
  {
    hide TryNames;
    hide FreeAt;
    hide FreeWithin;
    FreeSome(s.disk, s.path, s.issued, left);
    Tried(e, s);
    if !FreeAt(s.disk, s.path, Token(s.issued + 1)) {
      FreeLater(s.disk, s.path, s.issued, left);
      ChooseFinds(e, TryNames(e, s).state, left - 1);
    }
  }

  lemma Tried(e: Env, s: State)
    requires Works(e) && |s.path| < e.pathMax
    ensures var r := TryNames(e, s);
            && r.state.path == s.path && r.state.disk == s.disk && r.state.issued == s.issued + 1
            && r.status == (if FreeAt(s.disk, s.path, Token(s.issued + 1)) then Ok else EEXIST)
            && (r.status == Ok ==> r.state.temporary !in s.disk && r.state.backup !in s.disk)
  {
    hide Temporary;
    hide Backup;
    hide Token;
    hide NextNames;
    assert e.ok(s.ops) && e.ok(s.ops + 1);
    NextToken(s);
    SideNamesFit(s.path, e.pathMax, Token(s.issued + 1));
  }

  lemma FreeSome(disk: Disk, path: string, issued: nat, left: nat)
    requires FreeWithin(disk, path, issued, left)
    ensures left > 0
  {
  }

  lemma FreeLater(disk: Disk, path: string, issued: nat, left: nat)
    requires FreeWithin(disk, path, issued, left) && !FreeAt(disk, path, Token(issued + 1))
    ensures left > 0 && FreeWithin(disk, path, issued + 1, left - 1)
  {
  }

  lemma NextToken(s: State)
    ensures var t := NextNames(s); var token := Token(s.issued + 1);
            && t.issued == s.issued + 1 && t.path == s.path && t.disk == s.disk && t.ops == s.ops
            && t.temporary == Temporary(s.path, token) && t.backup == Backup(s.path, token)
  {
  }

  // ---------- the request ----------

  /** A request that can be served: an allowed path that is no folder, a regular mode, free staging names. */
  ghost predicate Servable(e: Env, s: State, path: string, mode: string) {
    && Allowed(path, e.pathMax) && '\0' !in path && ByteText(path)
    && mode != "" && ',' !in mode && '\0' !in mode && ByteText(mode) && RegularMode(e.parseMode(mode))
    && |path| + 1 + |mode| < e.pathMax + 16 < 0x1_0000_0000
    && (path in s.disk ==> s.disk[path].File?)
    && FreeWithin(s.disk, path, s.issued, 32)
  }

  function SpecOf(path: string, mode: string): seq<Byte>
    requires ByteText(path) && ByteText(mode)
  {
    Codes(path + "," + mode)
  }

  lemma {:induction false} CommaFound(path: string, mode: string)
    requires ',' !in mode
    ensures LastComma(path + "," + mode) == |path|
    decreases mode
  {
    var text := path + "," + mode;
    if mode != "" {
      var k := |mode| - 1;
      assert text[|text| - 1] == mode[k];
      assert text[..|text| - 1] == path + "," + mode[..k];
      CommaFound(path, mode[..k]);
    }
  }

  lemma NoFault(e: Env, s: State, path: string, mode: string)
    requires Servable(e, s, path, mode)
    ensures var text := path + "," + mode;
            LastComma(text) == |path| && SpecFault(e, text) == "" && text[..|path|] == path && path != ""
  {
    var text := path + "," + mode;
    CommaFound(path, mode);
    assert text[|path| + 1..] == mode && text[..|path|] == path;
    assert path != "";
  }

  /** Midway: `contents` has been staged, nothing else on the disk has changed. */
  ghost predicate Uploading(e: Env, s0: State, s: State, path: string, contents: seq<Byte>) {
    && s.phase == SendHeader && s.header == [] && s.remaining == 0 && s.spec == [] && s.fileOpen && s.temporaryLive
    && s.path == path && Named(e, s) && s.temporary !in s0.disk && s.backup !in s0.disk
    && s.disk == s0.disk[s.temporary := File(contents)] && s.sent == s0.sent && s.received == contents
    && s.writes == s0.writes + |contents|
  }

  ghost predicate Ready(s: State) {
    s.phase == RequestHeader && s.header == [] && s.remaining == 0 && s.spec == [] && !s.fileOpen && !s.temporaryLive
  }

  lemma Staging(e: Env, s0: State, s: State, path: string)
    requires Works(e) && Allowed(path, e.pathMax) && s.path == path
    requires s.header == [] && s.spec == [] && s.remaining == 0
    requires s.disk == s0.disk && s.sent == s0.sent && s.writes == s0.writes
    requires (path in s.disk ==> s.disk[path].File?) && FreeWithin(s.disk, path, s.issued, 32)
    ensures var r := StageUpload(e, s); r.status == Ok && Uploading(e, s0, r.state, path, [])
  {
    hide ChooseSidePaths;
    hide ScanAll;
    hide FreeWithin;
    hide FailTransfer;
    hide Token;
    ChooseKeeps(e, s, 32);
    ChooseFinds(e, s, 32);
  }

  lemma SendHeaderFed(e: Env, s: State, n: U32)
    requires Ready(s) && 0 < n < e.pathMax + 16
    ensures Feed(e, s, Header(ID_SEND, n)) == Outcome(s.(remaining := n, phase := RequestSpec), Ok)
  {
    hide Get32;
    hide Put32;
    HeaderFields(ID_SEND, n);
    FeedHeader(e, s, Header(ID_SEND, n));
    assert [] + Header(ID_SEND, n) == Header(ID_SEND, n);
  }

  lemma StartServes(e: Env, s0: State, t: State, path: string, mode: string)
    requires Works(e) && Servable(e, s0, path, mode) && Chars(t.spec) == path + "," + mode
    requires t.remaining == 0 && t.header == [] && t.disk == s0.disk && t.sent == s0.sent && t.issued == s0.issued
    requires t.writes == s0.writes
    ensures var r := StartSend(e, t); r.status == Ok && Uploading(e, s0, r.state, path, [])
  {
    hide Works;
    hide Allowed;
    hide StageUpload;
    hide SpecFault;
    hide FreeWithin;
    hide Uploading;
    hide LastComma;
    hide Chars;
    assert |t.spec| == |Chars(t.spec)| by { CharsLength(t.spec); }
    NoFault(e, s0, path, mode);
    NotEmpty(path, mode);
    Staging(e, s0, t.(spec := [], path := path), path);
  }

  lemma CharsLength(x: seq<Byte>)
    ensures |Chars(x)| == |x|
  {
  }

  lemma SpecFed(e: Env, s0: State, path: string, mode: string)
    requires Works(e) && Ready(s0) && Servable(e, s0, path, mode)
    ensures var spec := SpecOf(path, mode); var r := Feed(e, s0.(remaining := |spec|, phase := RequestSpec), spec);
            r.status == Ok && Uploading(e, s0, r.state, path, [])
  {
    hide Works;
    hide Allowed;
    hide StartSend;
    hide FreeWithin;
    hide Uploading;
    hide Step;
    hide Feed;
    hide Chars;
    CharsOfCodes(path + "," + mode);
    var spec := SpecOf(path, mode);
    var s1 := s0.(remaining := |spec|, phase := RequestSpec);
    FeedSpec(e, s1, spec);
    assert [] + spec == spec;
    StartServes(e, s0, s1.(spec := spec, remaining := 0), path, mode);
  }

  lemma NotEmpty(path: string, mode: string)
    requires '\0' !in path && '\0' !in mode && mode != ""
    ensures var text := path + "," + mode; '\0' !in text && |path| + 1 < |text|
  {
  }

  lemma RequestFed(e: Env, s0: State, path: string, mode: string)
    requires Works(e) && Ready(s0) && Servable(e, s0, path, mode)
    ensures var spec := SpecOf(path, mode); |spec| < 0x1_0000_0000
    ensures var spec := SpecOf(path, mode); var r := Feed(e, s0, Header(ID_SEND, |spec|) + spec);
            r.status == Ok && Uploading(e, s0, r.state, path, [])
  {
    hide Allowed;
    hide FreeWithin;
    hide Uploading;
    hide Feed;
    hide Header;
    CharsOfCodes(path + "," + mode);
    var spec := SpecOf(path, mode);
    SendHeaderFed(e, s0, |spec|);
    FeedAppend(e, s0, Header(ID_SEND, |spec|), spec);
    SpecFed(e, s0, path, mode);
  }

  // ---------- the data ----------

  lemma {:induction false} AllAccepted(e: Env, writes: nat, count: nat)
    ensures Accepted(e, writes, count) == count <==> Writable(e, writes, count)
    decreases count
  {
    if count > 0 {
      AllAccepted(e, writes + 1, count - 1);
    }
  }

  lemma DataHeaderFed(e: Env, s: State, n: U32)
    requires s.phase == SendHeader && s.header == [] && s.remaining == 0 && n <= e.dataMax
    ensures Feed(e, s, Header(ID_DATA, n)) ==
            Outcome(s.(remaining := n, phase := if n == 0 then SendHeader else SendData), Ok)
  {
    hide Get32;
    hide Put32;
    HeaderFields(ID_DATA, n);
    FeedHeader(e, s, Header(ID_DATA, n));
    assert [] + Header(ID_DATA, n) == Header(ID_DATA, n);
  }

  lemma DataFed(e: Env, s0: State, s: State, path: string, contents: seq<Byte>, d: seq<Byte>)
    requires Uploading(e, s0, s, path, contents) && d != [] && Writable(e, s.writes, |d|)
    ensures var r := Feed(e, s.(remaining := |d|, phase := SendData), d);
            r.status == Ok && Uploading(e, s0, r.state, path, contents + d)
  {
    hide Allowed;
    hide Written;
    hide Accepted;
    hide Feed;
    var t := s.(remaining := |d|, phase := SendData);
    FeedData(e, t, d);
    AllAccepted(e, t.writes, |d|);
    assert d[..|d|] == d;
    WrittenFrame(t, d);
    WrittenDisk(t, d, contents);
  }

  lemma RecordFed(e: Env, s0: State, s: State, path: string, contents: seq<Byte>, d: seq<Byte>)
    requires Uploading(e, s0, s, path, contents) && |d| <= e.dataMax && |d| < 0x1_0000_0000
    requires Writable(e, s.writes, |d|)
    ensures var r := Feed(e, s, Header(ID_DATA, |d|) + d);
            r.status == Ok && Uploading(e, s0, r.state, path, contents + d)
  {
    hide Works;
    hide Named;
    hide Header;
    hide Step;
    DataHeaderFed(e, s, |d|);
    FeedAppend(e, s, Header(ID_DATA, |d|), d);
    if d == [] {
      assert contents + d == contents;
      assert s.(remaining := 0, phase := SendHeader) == s;
    } else {
      DataFed(e, s0, s, path, contents, d);
    }
  }

  lemma WritableSplit(e: Env, writes: nat, a: nat, b: nat)
    ensures Writable(e, writes, a + b) <==> Writable(e, writes, a) && Writable(e, writes + a, b)
  {
  }

  /** Given up: the staging file is gone, the failure is reported and the rest of the upload will be drained. */
  ghost predicate Aborted(s0: State, s: State) {
    && s.phase == DrainHeader && s.header == [] && s.remaining == 0 && s.spec == [] && !s.fileOpen && !s.temporaryLive
    && s.disk == s0.disk && s.sent == s0.sent + [Fail("write failed")]
  }

  lemma LostUpload(e: Env, s0: State, s: State)
    requires Works(e) && s.phase == SendData && s.header == [] && s.spec == [] && s.temporaryLive
    requires s.temporary !in s0.disk && s.sent == s0.sent
    requires exists x: seq<Byte> :: s.disk == s0.disk[s.temporary := File(x)]
    ensures var r := WriteFails(e, s, s.remaining); r.status == Ok && Aborted(s0, r.state)
  {
    hide Below;
    assert s.disk - {s.temporary} == s0.disk;
  }

  lemma DataLost(e: Env, s0: State, s: State, path: string, contents: seq<Byte>, d: seq<Byte>)
    requires Works(e) && Uploading(e, s0, s, path, contents) && d != [] && !Writable(e, s.writes, |d|)
    ensures var r := Feed(e, s.(remaining := |d|, phase := SendData), d); r.status == Ok && Aborted(s0, r.state)
  {
    hide Named;
    hide Works;
    hide Written;
    hide Accepted;
    hide Feed;
    hide WriteFails;
    hide Aborted;
    var t := s.(remaining := |d|, phase := SendData);
    FeedData(e, t, d);
    AllAccepted(e, t.writes, |d|);
    var n := Accepted(e, t.writes, |d|);
    WrittenFrame(t, d[..n]);
    WrittenDisk(t, d[..n], contents);
    var u := Written(t, d[..n]);
    assert u.disk == s0.disk[s.temporary := File(contents + d[..n])];
    LostUpload(e, s0, u.(writes := u.writes + 1, remaining := |d|));
  }

  /** One record: taken, or the upload is given up. */
  lemma RecordFedOrLost(e: Env, s0: State, s: State, path: string, contents: seq<Byte>, d: seq<Byte>)
    requires Works(e) && Uploading(e, s0, s, path, contents) && |d| <= e.dataMax && |d| < 0x1_0000_0000
    ensures var r := Feed(e, s, Header(ID_DATA, |d|) + d);
            && r.status == Ok
            && if Writable(e, s.writes, |d|) then Uploading(e, s0, r.state, path, contents + d)
               else Aborted(s0, r.state)
  {
    hide Works;
    hide Named;
    hide Header;
    hide Step;
    hide Aborted;
    if Writable(e, s.writes, |d|) {
      RecordFed(e, s0, s, path, contents, d);
    } else {
      DataHeaderFed(e, s, |d|);
      FeedAppend(e, s, Header(ID_DATA, |d|), d);
      DataLost(e, s0, s, path, contents, d);
    }
  }

  lemma DrainFed(e: Env, s: State, d: seq<Byte>)
    requires s.phase == DrainHeader && s.header == [] && s.remaining == 0 && |d| <= e.dataMax && |d| < 0x1_0000_0000
    ensures Feed(e, s, Header(ID_DATA, |d|) + d) == Outcome(s, Ok)
  {
    hide Get32;
    hide Put32;
    hide Step;
    var h := Header(ID_DATA, |d|);
    HeaderFields(ID_DATA, |d|);
    FeedHeader(e, s, h);
    assert [] + h == h;
    FeedAppend(e, s, h, d);
    if d != [] {
      FeedDrain(e, s.(remaining := |d|, phase := DrainData), d);
    }
  }

  /** The rest of an upload that was given up or refused is read and forgotten. */
  lemma {:induction false} RecordsDrained(e: Env, s: State, records: seq<seq<Byte>>)
    requires s.phase == DrainHeader && s.header == [] && s.remaining == 0
    requires forall d :: d in records ==> |d| <= e.dataMax && |d| < 0x1_0000_0000
    ensures Feed(e, s, Records(records)) == Outcome(s, Ok)
    decreases records
  {
    hide Header;
    hide Step;
    if records != [] {
      var d := records[0];
      var x := Header(ID_DATA, |d|) + d;
      DrainFed(e, s, d);
      FeedAppend(e, s, x, Records(records[1..]));
      RecordsDrained(e, s, records[1..]);
    }
  }

  lemma WritesOf(e: Env, s0: State, s: State, path: string, contents: seq<Byte>)
    requires Uploading(e, s0, s, path, contents)
    ensures s.writes == s0.writes + |contents|
  {
  }

  lemma {:induction false} RecordsFed(e: Env, s0: State, s: State, path: string, contents: seq<Byte>,
                                      records: seq<seq<Byte>>)
    requires Works(e) && Uploading(e, s0, s, path, contents)
    requires forall d :: d in records ==> |d| <= e.dataMax && |d| < 0x1_0000_0000
    ensures var r := Feed(e, s, Records(records));
            && r.status == Ok
            && if Writable(e, s.writes, |Flatten(records)|) then
                 Uploading(e, s0, r.state, path, contents + Flatten(records))
               else Aborted(s0, r.state)
    decreases records
  {
    hide Works;
    hide Uploading;
    hide Writable;
    hide Header;
    hide Step;
    hide Aborted;
    if records == [] {
      assert contents + Flatten(records) == contents;
      assert Writable(e, s.writes, 0) by { NothingWritable(e, s.writes); }
    } else {
      hide Feed;
      var d, more := records[0], records[1..];
      var x := Header(ID_DATA, |d|) + d;
      RecordFedOrLost(e, s0, s, path, contents, d);
      FeedAppend(e, s, x, Records(more));
      assert Records(records) == x + Records(more);
      WritableSplit(e, s.writes, |d|, |Flatten(more)|);
      assert Flatten(records) == d + Flatten(more);
      var t := Feed(e, s, x).state;
      if Writable(e, s.writes, |d|) {
        WritesOf(e, s0, s, path, contents);
        WritesOf(e, s0, t, path, contents + d);
        RecordsFed(e, s0, t, path, contents + d, more);
        Assoc(contents, d, Flatten(more));
      } else {
        DrainedAborted(e, s0, t, more);
      }
    }
  }

  lemma DrainedAborted(e: Env, s0: State, s: State, records: seq<seq<Byte>>)
    requires Aborted(s0, s) && forall d :: d in records ==> |d| <= e.dataMax && |d| < 0x1_0000_0000
    ensures Feed(e, s, Records(records)) == Outcome(s, Ok)
  {
    RecordsDrained(e, s, records);
  }

  lemma NothingWritable(e: Env, writes: nat)
    ensures Writable(e, writes, 0)
  {
  }

  // ---------- the end ----------

  /** Where everything ends up when all operations work. */
  lemma InstallWorks(disk: Disk, path: string, temporary: string, backup: string, x: Item)
    requires path != temporary && path != backup && temporary != backup && temporary !in disk && backup !in disk
    requires x.File? && (path in disk ==> disk[path].File?)
    ensures var a := disk[temporary := x];
            && (path in disk ==>
                  var b := Moved(a, path, backup);
                  && temporary in b && backup in b
                  && var c := Moved(b, temporary, path); Removable(c, backup) && c - {backup} == disk[path := x])
            && (path !in disk ==> Moved(a, temporary, path) == disk[path := x])
  {
  }

  lemma Installed(e: Env, s0: State, s: State, path: string, contents: seq<Byte>)
    requires Works(e) && Uploading(e, s0, s, path, contents) && (path in s0.disk ==> s0.disk[path].File?)
    ensures var r := ReplaceDestination(e, s);
            && r.status == Ok && r.state.disk == s0.disk[path := File(contents)]
            && SameRequest(s, r.state) && !r.state.fileOpen && !r.state.temporaryLive && r.state.sent == s.sent
  {
    hide Named;
    hide Removable;
    assert path != s.temporary && path != s.backup && s.temporary != s.backup by { NamesDiffer(e, s); }
    InstallWorks(s0.disk, path, s.temporary, s.backup, File(contents));
  }

  lemma NamesDiffer(e: Env, s: State)
    requires Named(e, s)
    ensures s.path != s.temporary && s.path != s.backup && s.temporary != s.backup
  {
    NamesApart(s.path, Token(s.ordinal));
  }

  lemma DoneFed(e: Env, s0: State, s: State, path: string, contents: seq<Byte>, stamp: U32)
    requires Works(e) && Uploading(e, s0, s, path, contents) && (path in s0.disk ==> s0.disk[path].File?)
    ensures var r := Feed(e, s, Header(ID_DONE, stamp));
            && r.status == Ok && Ready(r.state) && r.state.sent == s0.sent + [Okay]
            && r.state.disk == s0.disk[path := File(contents)]
  {
    hide Allowed;
    hide Get32;
    hide Put32;
    hide ReplaceDestination;
    HeaderFields(ID_DONE, stamp);
    FeedHeader(e, s, Header(ID_DONE, stamp));
    assert [] + Header(ID_DONE, stamp) == Header(ID_DONE, stamp);
    Installed(e, s0, s, path, contents);
  }

  lemma DrainDone(e: Env, s: State, stamp: U32)
    requires s.phase == DrainHeader && s.header == [] && s.remaining == 0
    ensures Feed(e, s, Header(ID_DONE, stamp)) == Outcome(s.(phase := RequestHeader), Ok)
  {
    hide Get32;
    hide Put32;
    HeaderFields(ID_DONE, stamp);
    FeedHeader(e, s, Header(ID_DONE, stamp));
    assert [] + Header(ID_DONE, stamp) == Header(ID_DONE, stamp);
  }

  /** What a finished upload has come to: installed and OKAY, or nothing and FAIL. */
  ghost predicate Ended(s: State, t: State, path: string, contents: seq<Byte>, written: bool) {
    && Ready(t)
    && if written then t.sent == s.sent + [Okay] && t.disk == s.disk[path := File(contents)]
       else t.sent == s.sent + [Fail("write failed")] && t.disk == s.disk
  }

  lemma EndFed(e: Env, s0: State, s: State, path: string, contents: seq<Byte>, stamp: U32, written: bool)
    requires Works(e) && (path in s0.disk ==> s0.disk[path].File?)
    requires if written then Uploading(e, s0, s, path, contents) else Aborted(s0, s)
    ensures var r := Feed(e, s, Header(ID_DONE, stamp)); r.status == Ok && Ended(s0, r.state, path, contents, written)
  {
    hide Uploading;
    hide Feed;
    hide Header;
    if written {
      DoneFed(e, s0, s, path, contents, stamp);
    } else {
      DrainDone(e, s, stamp);
    }
  }

  lemma UploadFed(e: Env, s: State, path: string, mode: string, records: seq<seq<Byte>>, stamp: U32)
    requires Works(e) && Ready(s) && Servable(e, s, path, mode) && |SpecOf(path, mode)| < 0x1_0000_0000
    requires forall d :: d in records ==> |d| <= e.dataMax && |d| < 0x1_0000_0000
    ensures var r := Feed(e, s, UploadBytes(SpecOf(path, mode), records, stamp));
            r.status == Ok &&
            Ended(s, r.state, path, Flatten(records), Writable(e, s.writes, |Flatten(records)|))
  {
    hide Works;
    hide Uploading;
    hide Aborted;
    hide Ended;
    hide Feed;
    hide Header;
    hide SpecOf;
    hide Records;
    hide Writable;
    hide Allowed;
    hide FreeWithin;
    var spec := SpecOf(path, mode);
    var a, b, c := Header(ID_SEND, |spec|) + spec, Records(records), Header(ID_DONE, stamp);
    RequestFed(e, s, path, mode);
    var s1 := Feed(e, s, a).state;
    WritesOf(e, s, s1, path, []);
    RecordsFed(e, s, s1, path, [], records);
    assert [] + Flatten(records) == Flatten(records);
    EndFed(e, s, Feed(e, s1, b).state, path, Flatten(records), stamp, Writable(e, s.writes, |Flatten(records)|));
    FeedAppend(e, s, a, b);
    FeedAppend(e, s, a + b, c);
  }

  /**
   However the upload of `records` to an allowed `path` is cut into packets: if all the data can be written, it
   leaves the destination equal to the concatenated records, every other file as it was and no side file, and is
   answered with OKAY; otherwise it leaves every file as it was and no side file, and is answered with FAIL. Either way
   the service is ready for the next request.
   */
  lemma UploadInstalls(e: Env, s: State, packets: seq<seq<Byte>>, path: string, mode: string,
                       records: seq<seq<Byte>>, stamp: U32)
    requires Works(e) && Ready(s) && Servable(e, s, path, mode)
    requires forall d :: d in records ==> |d| <= e.dataMax && |d| < 0x1_0000_0000
    requires |SpecOf(path, mode)| < 0x1_0000_0000
    requires Flatten(packets) == UploadBytes(SpecOf(path, mode), records, stamp)
    ensures var r := FeedPackets(e, s, packets);
            && r.status == Ok && Ready(r.state)
            && if Writable(e, s.writes, |Flatten(records)|) then
                 r.state.sent == s.sent + [Okay] && r.state.disk == s.disk[path := File(Flatten(records))]
               else r.state.sent == s.sent + [Fail("write failed")] && r.state.disk == s.disk
  {
    hide Works;
    hide Feed;
    hide SpecOf;
    hide UploadBytes;
    hide Writable;
    hide Servable;
    UploadFed(e, s, path, mode, records, stamp);
    PacketsIrrelevant(e, s, packets);
  }
}
