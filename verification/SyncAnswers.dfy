/** What upload answers to the other requests: STAT, a SEND that is refused, QUIT and everything unknown. */
module SyncAnswers {
  import opened Bytes
  import opened Errno
  import opened SyncDisk
  import opened SyncNames
  import opened Sync
  import opened SyncFeed
  import opened SyncSafety
  import opened SyncUpload

  // ---------- STAT ----------

  function StatBytes(path: string): seq<Byte>
    requires ByteText(path) && |path| < 0x1_0000_0000
  {
    Header(ID_STAT, |path|) + Codes(path)
  }

  /** The path may be asked for and is found. */
  predicate Visible(e: Env, s: State, path: string) {
    '\0' !in path && StatAllowed(path, e.pathMax) && e.ok(s.ops) && path in s.disk
  }

  /**
   The reply tells what is at the path: type 8 and the length of a file, as far as 32 bits go, type 4 of a folder,
   and zeros for anything else.
   */
  predicate Describes(e: Env, s: State, path: string, reply: Reply) {
    && reply.Stats?
    && (reply.mode != 0 <==> Visible(e, s, path))
    && (reply.mode == 0 ==> reply.size == 0)
    && (Visible(e, s, path) ==>
          && (reply.mode / 0x1000 == 8 <==> s.disk[path].File?) && (reply.mode / 0x1000 == 4 <==> s.disk[path].Folder?)
          && match s.disk[path]
             case File(bytes) => reply.size <= |bytes| && (|bytes| < 0x1_0000_0000 ==> reply.size == |bytes|)
                                 && (|bytes| >= 0x1_0000_0000 ==> reply.size == 0xFFFF_FFFF)
             case Folder => reply.size == 0)
  }

  lemma StatsDescribe(e: Env, s: State, path: string)
    ensures Describes(e, s, path, StatsOf(e, s, path))
  {
    hide StatAllowed;
  }

  /** However a STAT request is cut into packets, its reply describes what is at the path, and nothing changes. */
  lemma StatAnswered(e: Env, s: State, packets: seq<seq<Byte>>, path: string)
    requires Ready(s) && e.answer(s.sends) == Ok && ByteText(path)
    requires 0 < |path| < e.pathMax + 16 && |path| < 0x1_0000_0000 && Flatten(packets) == StatBytes(path)
    ensures var r := FeedPackets(e, s, packets);
            && r.status == Ok && Ready(r.state) && r.state.disk == s.disk && |r.state.sent| == |s.sent| + 1
            && s.sent <= r.state.sent && Describes(e, s, path, r.state.sent[|s.sent|])
  {
    hide Feed;
    hide Get32;
    hide Put32;
    hide Describes;
    hide StatAllowed;
    hide StatsOf;
    hide Chars;
    var h, x := Header(ID_STAT, |path|), Codes(path);
    HeaderFields(ID_STAT, |path|);
    FeedHeader(e, s, h);
    assert [] + h == h;
    FeedAppend(e, s, h, x);
    var t := s.(remaining := |path|, phase := StatPath);
    FeedSpec(e, t, x);
    assert [] + x == x;
    CharsOfCodes(path);
    var u := t.(spec := x, remaining := 0);
    SameStat(e, s, u, path);
    StatsDescribe(e, s, path);
    PacketsIrrelevant(e, s, packets);
  }

  lemma SameStat(e: Env, s: State, t: State, path: string)
    requires t.disk == s.disk && t.ops == s.ops
    ensures StatsOf(e, t, path) == StatsOf(e, s, path)
  {
  }

  // ---------- SEND ----------

  /** A request that upload accepts: a path and a mode behind the last comma, regular, and an allowed path. */
  ghost predicate WellFormed(e: Env, text: string) {
    exists path: string, mode: string :: Splits(text, path, mode) && Acceptable(e, path, mode)
  }

  predicate Splits(text: string, path: string, mode: string) { text == path + "," + mode && ',' !in mode }

  predicate Acceptable(e: Env, path: string, mode: string) {
    && path != "" && mode != "" && '\0' !in path && '\0' !in mode && Allowed(path, e.pathMax)
    && match e.parseMode(mode)
       case BadMode => false
       case Mode(bits) => bits < 0x1_0000_0000 && (bits / 0x1000 % 16 == 8 || bits / 0x1000 % 16 == 0)
  }

  lemma {:induction false} CommaIsLast(text: string)
    ensures LastComma(text) < 0 <==> ',' !in text
    ensures LastComma(text) >= 0 ==> ',' !in text[LastComma(text) + 1..]
  {
    if text != "" && text[|text| - 1] != ',' {
      var n := |text| - 1;
      CommaIsLast(text[..n]);
      var k := LastComma(text[..n]);
      assert text == text[..n] + [text[n]];
      if k >= 0 {
        assert text[k + 1..] == text[..n][k + 1..] + [text[n]];
      }
    }
  }

  /** There is nothing wrong with a request exactly when it is well formed. */
  lemma FaultMeans(e: Env, text: string)
    ensures SpecFault(e, text) == "" <==> WellFormed(e, text)
  {
    hide Allowed;
    hide LastComma;
    var k := LastComma(text);
    CommaIsLast(text);
    if SpecFault(e, text) == "" {
      var path, mode := text[..k], text[k + 1..];
      assert text == path + "," + mode;
      assert Splits(text, path, mode) && Acceptable(e, path, mode);
    }
    if WellFormed(e, text) {
      var path: string, mode: string :| Splits(text, path, mode) && Acceptable(e, path, mode);
      CommaFound(path, mode);
      assert text[..|path|] == path && text[|path| + 1..] == mode;
    }
  }

  lemma RefusedStart(e: Env, s: State)
    requires SpecFault(e, Chars(s.spec)) != "" && e.answer(s.sends) == Ok && !s.fileOpen && !s.temporaryLive
    ensures var r := StartSend(e, s);
            && r.status == Ok
            && r.state == s.(spec := [], phase := DrainHeader, sends := s.sends + 1, sent := r.state.sent)
            && r.state.sent == s.sent + [Fail(SpecFault(e, Chars(s.spec)))]
  {
    hide SpecFault;
    hide LastComma;
  }

  /**
   However an upload with a malformed request is cut into packets: it is answered with FAIL and the reason, its data
   are read and forgotten, no file is touched, and the service is ready for the next request.
   */
  lemma UploadRefused(e: Env, s: State, packets: seq<seq<Byte>>, text: string, records: seq<seq<Byte>>, stamp: U32)
    requires Ready(s) && e.answer(s.sends) == Ok && !WellFormed(e, text) && ByteText(text)
    requires 0 < |text| < e.pathMax + 16 && |text| < 0x1_0000_0000
    requires forall d :: d in records ==> |d| <= e.dataMax && |d| < 0x1_0000_0000
    requires |Codes(text)| == |text| && Flatten(packets) == UploadBytes(Codes(text), records, stamp)
    ensures var r := FeedPackets(e, s, packets);
            && r.status == Ok && Ready(r.state) && r.state.disk == s.disk && r.state.trace == s.trace
            && SpecFault(e, text) != "" && r.state.sent == s.sent + [Fail(SpecFault(e, text))]
  {
    hide Feed;
    hide Header;
    hide Records;
    hide SpecFault;
    hide WellFormed;
    hide StartSend;
    hide Chars;
    FaultMeans(e, text);
    var x := Codes(text);
    var a, b, c := Header(ID_SEND, |x|) + x, Records(records), Header(ID_DONE, stamp);
    SendHeaderFed(e, s, |x|);
    FeedAppend(e, s, Header(ID_SEND, |x|), x);
    var s1 := s.(remaining := |x|, phase := RequestSpec);
    FeedSpec(e, s1, x);
    assert [] + x == x;
    CharsOfCodes(text);
    RefusedStart(e, s1.(spec := x, remaining := 0));
    var s2 := Feed(e, s, a).state;
    RecordsDrained(e, s2, records);
    DrainDone(e, s2, stamp);
    FeedAppend(e, s, a, b);
    FeedAppend(e, s, a + b, c);
    PacketsIrrelevant(e, s, packets);
  }

  // ---------- the rest ----------

  /** QUIT closes the stream; the service has nothing to say to it. */
  lemma QuitCloses(e: Env, s: State)
    requires Ready(s)
    ensures Feed(e, s, Header(ID_QUIT, 0)) == Outcome(s.(closing := true), Ok)
  {
    hide Get32;
    hide Put32;
    HeaderFields(ID_QUIT, 0);
    FeedHeader(e, s, Header(ID_QUIT, 0));
    assert [] + Header(ID_QUIT, 0) == Header(ID_QUIT, 0);
  }

  lemma {:induction false} Discarded(e: Env, s: State, rest: seq<Byte>)
    requires s.phase == DiscardAndClose
    ensures Feed(e, s, rest) == Outcome(s, Ok)
    decreases rest
  {
    if rest != [] {
      Discarded(e, s, rest[1..]);
    }
  }

  /** Any other request, or one of a wrong size, is answered with FAIL, closes the stream and is the last one read. */
  lemma UnknownRefused(e: Env, s: State, id: U32, value: U32, rest: seq<Byte>)
    requires Ready(s) && e.answer(s.sends) == Ok && !(id == ID_QUIT && value == 0)
    requires (id == ID_SEND || id == ID_STAT) ==> value == 0 || value >= e.pathMax + 16
    ensures var r := Feed(e, s, Header(id, value) + rest);
            && r.status == Ok && r.state.closing && r.state.disk == s.disk && r.state.trace == s.trace
            && |r.state.sent| == |s.sent| + 1 && s.sent <= r.state.sent && r.state.sent[|s.sent|].Fail?
  {
    hide Get32;
    hide Put32;
    hide Step;
    var h := Header(id, value);
    HeaderFields(id, value);
    FeedHeader(e, s, h);
    assert [] + h == h;
    FeedAppend(e, s, h, rest);
    Discarded(e, Feed(e, s, h).state, rest);
  }

  /**
   A record in the middle of an upload that is no DATA and no DONE, or too long: it is answered with FAIL, the staging
   file is removed and nothing else touched, the stream is closed, and whatever follows is discarded.
   */
  lemma BadRecordRefused(e: Env, s0: State, s: State, path: string, contents: seq<Byte>, id: U32, value: U32,
                         rest: seq<Byte>)
    requires Works(e) && Uploading(e, s0, s, path, contents)
    requires id != ID_DONE && (id != ID_DATA || value > e.dataMax)
    ensures var r := Feed(e, s, Header(id, value) + rest);
            && r.status == Ok && r.state.closing && r.state.disk == s0.disk && !r.state.fileOpen
            && |r.state.sent| == |s0.sent| + 1 && s0.sent <= r.state.sent && r.state.sent[|s0.sent|].Fail?
  {
    hide Get32;
    hide Put32;
    hide Step;
    hide Named;
    hide Below;
    var h := Header(id, value);
    HeaderFields(id, value);
    FeedHeader(e, s, h);
    assert [] + h == h;
    assert s.disk - {s.temporary} == s0.disk;
    FeedAppend(e, s, h, rest);
    Discarded(e, Feed(e, s, h).state, rest);
  }
}
