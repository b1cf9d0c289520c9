/** How whole stretches of input act on the upload service: headers, requests, data records. */
module SyncFeed {
  import opened Bytes
  import opened Errno
  import opened Sync
  import opened SyncDisk

  // ---------- packets ----------

  /** Only a failure that cannot be reported depends on what follows in the packet. */
  lemma StepBehind(e: Env, s: State, b: Byte, m: nat, n: nat)
    ensures Step(e, s, b, m).status == Step(e, s, b, n).status
    ensures Step(e, s, b, m).status == Ok ==> Step(e, s, b, m) == Step(e, s, b, n)
  {
    hide Settle;
    hide TakeHeaderByte;
    hide TakeSpecByte;
    var t := Settle(e, s).state;
    if t.phase == SendData && t.remaining > 0 {
      DataBehind(e, t, b, m, n);
    }
  }

  lemma CleanupCommutes(e: Env, s: State, n: nat)
    ensures CleanupPartial(e, s.(remaining := n)) == CleanupPartial(e, s).(remaining := n)
  {
    var c := if s.fileOpen then Did(s, s.disk).(fileOpen := false) else s;
    var d := if s.fileOpen then Did(s.(remaining := n), s.disk).(fileOpen := false) else s.(remaining := n);
    assert d == c.(remaining := n);
    assert TryUnlink(e, d, d.temporary) == TryUnlink(e, c, c.temporary).(remaining := n);
  }

  /** What a failing write comes to: the failure is reported, and `lost` bytes of the record are gone. */
  function Reported(e: Env, s: State): State {
    Send(e, CleanupPartial(e, s), Fail("write failed"))
  }

  function WriteFailed(e: Env, s: State, lost: nat): Outcome
    requires lost <= s.remaining
  {
    var left := s.remaining - lost;
    if e.answer(CleanupPartial(e, s).sends) != Ok then Outcome(Reported(e, s).(remaining := left), EIO)
    else Outcome(Reported(e, s).(remaining := left, phase := if left == 0 then DrainHeader else DrainData), Ok)
  }

  lemma WriteFailsIs(e: Env, s: State, lost: nat)
    requires lost <= s.remaining
    ensures WriteFails(e, s, lost) == WriteFailed(e, s, lost)
  {
    hide CleanupPartial;
    CleanupCommutes(e, s, s.remaining - lost);
    var c := CleanupPartial(e, s);
    assert Send(e, c.(remaining := s.remaining - lost), Fail("write failed")) ==
           Send(e, c, Fail("write failed")).(remaining := s.remaining - lost);
  }

  lemma DataBehind(e: Env, s: State, b: Byte, m: nat, n: nat)
    requires s.remaining > 0
    ensures TakeDataByte(e, s, b, m).status == TakeDataByte(e, s, b, n).status
    ensures TakeDataByte(e, s, b, m).status == Ok ==> TakeDataByte(e, s, b, m) == TakeDataByte(e, s, b, n)
  {
    hide Grown;
    hide WriteFails;
    if !(s.fileOpen && e.writeOk(s.writes)) {
      var t := if s.fileOpen then s.(writes := s.writes + 1) else s;
      LostStatus(e, t, 1, if 1 + m <= s.remaining then 1 + m else s.remaining);
      LostStatus(e, t, 1, if 1 + n <= s.remaining then 1 + n else s.remaining);
    }
  }

  lemma LostStatus(e: Env, s: State, m: nat, n: nat)
    requires m <= s.remaining && n <= s.remaining
    ensures WriteFails(e, s, m).status == WriteFails(e, s, n).status
  {
    hide CleanupPartial;
    WriteFailsIs(e, s, m);
    WriteFailsIs(e, s, n);
  }

  lemma {:induction false} FeedAppend(e: Env, s: State, a: seq<Byte>, b: seq<Byte>)
    requires Feed(e, s, a).status == Ok
    ensures Feed(e, s, a + b) == Feed(e, Feed(e, s, a).state, b)
    decreases a
  {
    hide Step;
    if a == [] {
      assert a + b == b;
    } else {
      StepBehind(e, s, a[0], |a| - 1, |a + b| - 1);
      var r := Step(e, s, a[0], |a| - 1);
      FeedAppend(e, r.state, a[1..], b);
      assert (a + b)[1..] == a[1..] + b;
    }
  }

  /** The rest of a packet is looked at only if nothing failed. */
  function Then(e: Env, r: Outcome, rest: seq<Byte>): Outcome {
    if r.status != Ok then r else Feed(e, r.state, rest)
  }

  lemma ThenNothing(e: Env, r: Outcome)
    ensures Then(e, r, []) == r
  {
  }

  /** If the first part already fails, nothing after it matters to the outcome. */
  lemma {:induction false} FailureIsFinal(e: Env, s: State, a: seq<Byte>, b: seq<Byte>)
    requires Feed(e, s, a).status != Ok
    ensures Feed(e, s, a + b).status != Ok
    decreases a
  {
    hide Step;
    StepBehind(e, s, a[0], |a| - 1, |a + b| - 1);
    var r := Step(e, s, a[0], |a| - 1);
    assert (a + b)[1..] == a[1..] + b;
    if r.status == Ok {
      FailureIsFinal(e, r.state, a[1..], b);
    }
  }

  /** One sync_write call per packet, up to the first failure. */
  function FeedPackets(e: Env, s: State, packets: seq<seq<Byte>>): Outcome
    decreases packets
  {
    if packets == [] then Outcome(s, Ok)
    else
      var r := Feed(e, s, packets[0]);
      if r.status != Ok then r else FeedPackets(e, r.state, packets[1..])
  }

  /** Where the input is cut into packets does not matter as long as nothing fails. */
  lemma {:induction false} PacketsIrrelevant(e: Env, s: State, packets: seq<seq<Byte>>)
    requires Feed(e, s, Flatten(packets)).status == Ok
    ensures FeedPackets(e, s, packets) == Feed(e, s, Flatten(packets))
    decreases packets
  {
    hide Step;
    if packets != [] {
      if Feed(e, s, packets[0]).status != Ok {
        FailureIsFinal(e, s, packets[0], Flatten(packets[1..]));
      } else {
        FeedAppend(e, s, packets[0], Flatten(packets[1..]));
        PacketsIrrelevant(e, Feed(e, s, packets[0]).state, packets[1..]);
      }
    }
  }

  // ---------- headers ----------

  /** What a stretch of header bytes does. */
  function HeaderTaken(e: Env, s: State, h: seq<Byte>): Outcome
    requires |s.header| + |h| <= 8
  {
    if |s.header| + |h| == 8 then ProcessHeader(e, s, s.header + h) else Outcome(s.(header := s.header + h), Ok)
  }

  lemma {:induction false} FeedHeaderThen(e: Env, s: State, h: seq<Byte>, rest: seq<Byte>)
    requires HeaderPhase(s.phase) && |s.header| + |h| <= 8 && h != []
    ensures Feed(e, s, h + rest) == Then(e, HeaderTaken(e, s, h), rest)
    decreases h
  {
    hide ProcessHeader;
    var all := h + rest;
    if |h| == 1 {
      assert all[0] == h[0] && all[1..] == rest && s.header + [h[0]] == s.header + h;
      assert Step(e, s, h[0], |all| - 1) == HeaderTaken(e, s, h);
    } else {
      var t := s.(header := s.header + [h[0]]);
      assert all[0] == h[0] && all[1..] == h[1..] + rest;
      assert Step(e, s, h[0], |all| - 1) == Outcome(t, Ok);
      FeedHeaderThen(e, t, h[1..], rest);
      AppendFirst(s.header, h);
      assert t.(header := s.header + h) == s.(header := s.header + h);
      HeaderForgotten(e, s, t, s.header + h);
    }
  }

  lemma FeedHeader(e: Env, s: State, h: seq<Byte>)
    requires HeaderPhase(s.phase) && |s.header| + |h| <= 8 && h != []
    ensures Feed(e, s, h) == HeaderTaken(e, s, h)
  {
    hide HeaderTaken;
    hide Step;
    FeedHeaderThen(e, s, h, []);
    ThenNothing(e, HeaderTaken(e, s, h));
    assert h + [] == h;
  }

  lemma HeaderForgotten(e: Env, s: State, t: State, h: seq<Byte>)
    requires t == s.(header := t.header) && |h| <= 8
    ensures |h| == 8 ==> ProcessHeader(e, s, h) == ProcessHeader(e, t, h)
  {
    assert s.(header := []) == t.(header := []);
  }

  // ---------- requests ----------

  function SpecTaken(e: Env, s: State, x: seq<Byte>): Outcome
    requires |x| <= s.remaining
  {
    var t := s.(spec := s.spec + x, remaining := s.remaining - |x|);
    if t.remaining > 0 then Outcome(t, Ok) else if s.phase == StatPath then SendStat(e, t) else StartSend(e, t)
  }

  lemma {:induction false} FeedSpecThen(e: Env, s: State, x: seq<Byte>, rest: seq<Byte>)
    requires (s.phase == RequestSpec || s.phase == StatPath) && 0 < |x| <= s.remaining
    ensures Feed(e, s, x + rest) == Then(e, SpecTaken(e, s, x), rest)
    decreases x
  {
    hide SendStat;
    hide StartSend;
    var all := x + rest;
    if |x| == 1 {
      assert all[0] == x[0] && all[1..] == rest && s.spec + [x[0]] == s.spec + x;
      assert Step(e, s, x[0], |all| - 1) == SpecTaken(e, s, x);
    } else {
      var t := s.(spec := s.spec + [x[0]], remaining := s.remaining - 1);
      assert all[0] == x[0] && all[1..] == x[1..] + rest;
      assert Step(e, s, x[0], |all| - 1) == Outcome(t, Ok);
      FeedSpecThen(e, t, x[1..], rest);
      AppendFirst(s.spec, x);
      assert t.(spec := s.spec + x, remaining := s.remaining - |x|) ==
             s.(spec := s.spec + x, remaining := s.remaining - |x|);
    }
  }

  lemma FeedSpec(e: Env, s: State, x: seq<Byte>)
    requires (s.phase == RequestSpec || s.phase == StatPath) && 0 < |x| <= s.remaining
    ensures Feed(e, s, x) == SpecTaken(e, s, x)
  {
    hide SpecTaken;
    hide Step;
    FeedSpecThen(e, s, x, []);
    ThenNothing(e, SpecTaken(e, s, x));
    assert x + [] == x;
  }

  // ---------- drained records ----------

  function DrainTaken(s: State, n: nat): State
    requires n <= s.remaining
  {
    s.(remaining := s.remaining - n, phase := if s.remaining == n then DrainHeader else DrainData)
  }

  lemma {:induction false} FeedDrain(e: Env, s: State, x: seq<Byte>)
    requires s.phase == DrainData && 0 < |x| <= s.remaining
    ensures Feed(e, s, x) == Outcome(DrainTaken(s, |x|), Ok)
    decreases x
  {
    if |x| == 1 {
      var r := Step(e, s, x[0], 0);
      assert Feed(e, r.state, x[1..]) == Outcome(r.state, Ok);
    } else {
      assert Step(e, s, x[0], |x| - 1) == Outcome(TakeDrainByte(s), Ok);
      FeedDrain(e, TakeDrainByte(s), x[1..]);
    }
  }

  // ---------- data records ----------

  /** How many of `count` bytes are written before one fails. */
  function Accepted(e: Env, writes: nat, count: nat): (n: nat)
    ensures n <= count
    decreases count
  {
    if count == 0 || !e.writeOk(writes) then 0 else 1 + Accepted(e, writes + 1, count - 1)
  }

  /** The state after `x` was written to the staging file. */
  function Written(s: State, x: seq<Byte>): State
    requires |x| <= s.remaining
    decreases x
  {
    if x == [] then s
    else Written(Took(s, x[0]), x[1..])
  }

  function DataTaken(e: Env, s: State, x: seq<Byte>): Outcome
    requires |x| <= s.remaining
  {
    var n := if s.fileOpen then Accepted(e, s.writes, |x|) else 0;
    var t := Written(s, x[..n]);
    if n == |x| then Outcome(if t.remaining == 0 then t.(phase := SendHeader) else t, Ok)
    else
      var u := (if s.fileOpen then t.(writes := t.writes + 1) else t).(remaining := s.remaining);
      WriteFails(e, u, |x|)
  }

  lemma {:induction false} WrittenFrame(s: State, x: seq<Byte>)
    requires |x| <= s.remaining
    ensures var t := Written(s, x);
            && t == s.(disk := t.disk, trace := t.trace, writes := t.writes, received := t.received,
                       remaining := t.remaining)
            && t.remaining == s.remaining - |x| && t.writes == s.writes + |x| && t.received == s.received + x
    decreases x
  {
    if x != [] {
      WrittenFrame(Took(s, x[0]), x[1..]);
      AppendFirst(s.received, x);
    }
  }

  lemma {:induction false} WrittenDisk(s: State, x: seq<Byte>, y: seq<Byte>)
    requires |x| <= s.remaining && s.temporary in s.disk && s.disk[s.temporary] == File(y)
    ensures Written(s, x).disk == s.disk[s.temporary := File(y + x)]
    decreases x
  {
    if x == [] {
      assert y + x == y;
    } else {
      WrittenDisk(Took(s, x[0]), x[1..], y + [x[0]]);
      AppendFirst(y, x);
    }
  }

  /** Data at the end of a file; a file whose name is gone shows nothing of it. */
  function Appended(disk: Disk, name: string, x: seq<Byte>): Disk {
    if name in disk && disk[name].File? then disk[name := File(disk[name].bytes + x)] else disk
  }

  lemma {:induction false} WrittenAppends(s: State, x: seq<Byte>)
    requires |x| <= s.remaining
    ensures Written(s, x).disk == Appended(s.disk, s.temporary, x)
    decreases x
  {
    if s.temporary in s.disk && s.disk[s.temporary].File? {
      WrittenDisk(s, x, s.disk[s.temporary].bytes);
    } else if x != [] {
      WrittenAppends(Took(s, x[0]), x[1..]);
    }
  }

  lemma StepFailing(e: Env, s: State, b: Byte, behind: nat)
    requires s.phase == SendData && s.remaining > 0 && !(s.fileOpen && e.writeOk(s.writes))
    ensures var t := if s.fileOpen then s.(writes := s.writes + 1) else s;
            && t.remaining == s.remaining
            && Step(e, s, b, behind) ==
               if WriteFails(e, t, 1).status == Ok then WriteFails(e, t, 1)
               else WriteFails(e, t, if 1 + behind <= s.remaining then 1 + behind else s.remaining)
  {
    hide WriteFails;
    hide Grown;
  }

  /** The write fails at the first byte of `x`; the rest of `x` is drained or dropped. */
  lemma FeedFailing(e: Env, s: State, x: seq<Byte>)
    requires s.phase == SendData && 0 < |x| <= s.remaining && !(s.fileOpen && e.writeOk(s.writes))
    ensures var t := if s.fileOpen then s.(writes := s.writes + 1) else s;
            Feed(e, s, x) == WriteFails(e, t, |x|)
  {
    hide Reported;
    hide WriteFails;
    hide CleanupPartial;
    hide Step;
    var t := if s.fileOpen then s.(writes := s.writes + 1) else s;
    WriteFailsIs(e, t, 1);
    WriteFailsIs(e, t, |x|);
    ReportedFrame(e, t);
    StepFailing(e, s, x[0], |x| - 1);
    var r := Step(e, s, x[0], |x| - 1);
    if r.status == Ok {
      if |x| > 1 {
        FeedDrain(e, r.state, x[1..]);
      } else {
        assert Feed(e, r.state, x[1..]) == Outcome(r.state, Ok);
      }
    }
  }

  lemma ReportedFrame(e: Env, s: State)
    ensures Reported(e, s).remaining == s.remaining && Reported(e, s).phase == s.phase
  {
  }

  lemma {:induction false} FeedData(e: Env, s: State, x: seq<Byte>)
    requires s.phase == SendData && 0 < |x| <= s.remaining
    ensures Feed(e, s, x) == DataTaken(e, s, x)
    decreases x
  {
    hide WriteFails;
    hide Grown;
    if s.fileOpen && e.writeOk(s.writes) {
      var t := Took(s, x[0]);
      var n := Accepted(e, s.writes, |x|);
      assert x[..n][1..] == x[1..][..n - 1];
      if |x| == 1 {
        assert n == 1 && x[..1] == x && x[1..] == [];
        assert Written(s, x) == t;
        assert Feed(e, Step(e, s, x[0], 0).state, x[1..]) == Outcome(Step(e, s, x[0], 0).state, Ok);
      } else {
        assert Step(e, s, x[0], |x| - 1) == Outcome(t, Ok);
        FeedData(e, t, x[1..]);
        FailAgain(e, s, t, x);
      }
    } else {
      FeedFailing(e, s, x);
      assert x[..0] == [];
    }
  }

  /** A failure later in the slice loses the same bytes, counted from either end. */
  lemma FailAgain(e: Env, s: State, t: State, x: seq<Byte>)
    requires 1 < |x| <= s.remaining && s.fileOpen && e.writeOk(s.writes)
    requires t == Took(s, x[0])
    ensures DataTaken(e, t, x[1..]) == DataTaken(e, s, x)
  {
    hide WriteFails;
    hide Grown;
    var n := Accepted(e, s.writes, |x|);
    assert x[..n][1..] == x[1..][..n - 1];
    var w := Written(s, x[..n]);
    assert w == Written(t, x[1..][..n - 1]);
    LostSame(e, w.(writes := w.writes + 1), t.remaining, |x| - 1, s.remaining, |x|);
  }

  lemma LostSame(e: Env, s: State, a: nat, m: nat, b: nat, n: nat)
    requires m <= a && n <= b && a - m == b - n
    ensures WriteFails(e, s.(remaining := a), m) == WriteFails(e, s.(remaining := b), n)
  {
    hide FailTransfer;
    assert s.(remaining := a).(remaining := a - m) == s.(remaining := b).(remaining := b - n);
  }

  /** A slice that ends its record or its packet: its failure does not depend on the rest. */
  lemma {:induction false} FeedDataThen(e: Env, s: State, x: seq<Byte>, rest: seq<Byte>)
    requires s.phase == SendData && 0 < |x| <= s.remaining && (rest == [] || |x| == s.remaining)
    ensures Feed(e, s, x + rest) == Then(e, DataTaken(e, s, x), rest)
  {
    hide DataTaken;
    hide Step;
    FeedData(e, s, x);
    if Feed(e, s, x).status == Ok {
      FeedAppend(e, s, x, rest);
    } else if rest == [] {
      assert x + rest == x;
    } else {
      DataErrorFinal(e, s, x, rest);
    }
  }

  lemma {:induction false} DataErrorFinal(e: Env, s: State, x: seq<Byte>, rest: seq<Byte>)
    requires s.phase == SendData && 0 < |x| == s.remaining && Feed(e, s, x).status != Ok
    ensures Feed(e, s, x + rest) == Feed(e, s, x)
    decreases x
  {
    hide WriteFails;
    hide Grown;
    var all := x + rest;
    assert all[0] == x[0] && all[1..] == x[1..] + rest;
    if s.fileOpen && e.writeOk(s.writes) {
      var t := Took(s, x[0]);
      if |x| > 1 {
        assert Step(e, s, x[0], |x| - 1) == Outcome(t, Ok) && Step(e, s, x[0], |all| - 1) == Outcome(t, Ok);
        DataErrorFinal(e, t, x[1..], rest);
      }
    } else {
      FailingError(e, s, x, |all| - 1);
    }
  }

  lemma FailingError(e: Env, s: State, x: seq<Byte>, behind: nat)
    requires s.phase == SendData && 0 < |x| == s.remaining && Feed(e, s, x).status != Ok && |x| - 1 <= behind
    requires !(s.fileOpen && e.writeOk(s.writes))
    ensures Step(e, s, x[0], behind) == Step(e, s, x[0], |x| - 1) == Feed(e, s, x)
  {
    hide WriteFails;
    hide Step;
    StepFailing(e, s, x[0], behind);
    StepFailing(e, s, x[0], |x| - 1);
    var t := if s.fileOpen then s.(writes := s.writes + 1) else s;
    FeedFailing(e, s, x);
    LostStatus(e, t, 1, |x|);
  }
}
