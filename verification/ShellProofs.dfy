/**
 Which commands an interactive shell session executes depends on the typed bytes alone: not on how they
 are cut into packets, not on when output is acknowledged.
 */
module ShellProofs {
  import opened Bytes
  import opened Errno
  import opened Shell

  // ---------- an editor that sees only the bytes ----------

  /**
   `echo` is how much this editor could have echoed since the last pause; `fits` says that every line so
   far left room for output, counting all its echo.
   */
  datatype Editor = Editor(command: seq<Byte>, escape: nat, sawReturn: bool, discard: bool, closed: bool,
                           echo: nat, fits: bool, executed: seq<seq<Byte>>)

  const FRESH := Editor([], 0, false, false, false, 0, true, [])

  function EndLine(e: Env, d: Editor, promptLen: nat): Editor {
    if d.command == EXIT then d.(command := [], closed := true)
    else if d.command == [] then d.(echo := 0)
    else d.(command := [], echo := 0, executed := d.executed + [d.command],
            fits := d.fits && !NoRoom(e, d.echo + 2, promptLen))
  }

  function TypePlain(e: Env, d: Editor, v: Byte): Editor {
    if LineEnd(v) then EndLine(e, d, |e.prompt|)
    else if v == CTRL_D then (if d.command == [] then d else EndLine(e, d, 0)).(closed := true)
    else if v == CTRL_C then d.(command := [], echo := 0)
    else if v == BACKSPACE || v == DELETE then
      if d.command == [] then d else d.(command := d.command[..|d.command| - 1], echo := d.echo + 3)
    else if v == TAB then d.(echo := d.echo + 1)
    else if v < 0x20 || v > 0x7e then d
    else if |d.command| + 1 >= e.commandSize then d.(command := [], discard := true, echo := 0)
    else d.(command := d.command + [v], echo := d.echo + 1)
  }

  function TypeVisible(e: Env, d: Editor, v: Byte): Editor {
    if v == ESC then d.(escape := 1)
    else if v == LF && d.sawReturn then d.(sawReturn := false)
    else
      var t := d.(sawReturn := v == CR);
      if !t.discard then TypePlain(e, t, v) else if LineEnd(v) then t.(discard := false, echo := 0) else t
  }

  function Type(e: Env, d: Editor, v: Byte): Editor {
    if d.closed then d
    else if d.escape == 1 then if v == 0x5b || v == 0x4f then d.(escape := 2) else TypeVisible(e, d.(escape := 0), v)
    else if d.escape == 2 then if 0x40 <= v <= 0x7e then d.(escape := 0) else d
    else TypeVisible(e, d, v)
  }

  /** The editor after all of `typed`. */
  function Typed(e: Env, typed: seq<Byte>): Editor {
    if typed == [] then FRESH else Type(e, Typed(e, typed[..|typed| - 1]), typed[|typed| - 1])
  }

  /** The commands in `typed`. */
  function Commands(e: Env, typed: seq<Byte>): seq<seq<Byte>> { Typed(e, typed).executed }

  lemma TypedOne(e: Env, typed: seq<Byte>, v: Byte)
    ensures Typed(e, typed + [v]) == Type(e, Typed(e, typed), v)
  {
    assert (typed + [v])[..|typed|] == typed;
  }

  lemma {:induction false} ClosedStays(e: Env, typed: seq<Byte>, more: seq<Byte>)
    requires Typed(e, typed).closed
    ensures Typed(e, typed + more) == Typed(e, typed)
    decreases |more|
  {
    if more == [] {
      assert typed + more == typed;
    } else {
      var k := |more| - 1;
      ClosedStays(e, typed, more[..k]);
      assert (typed + more)[..|typed| + k] == typed + more[..k];
    }
  }

  lemma TypeKeepsFit(e: Env, d: Editor, v: Byte)
    requires Type(e, d, v).fits
    ensures d.fits
  {
  }

  lemma {:induction false} FitStays(e: Env, typed: seq<Byte>, more: seq<Byte>)
    requires Typed(e, typed + more).fits
    ensures Typed(e, typed).fits
    decreases |more|
  {
    hide Type;
    if more == [] {
      assert typed + more == typed;
    } else {
      var k := |more| - 1;
      assert (typed + more)[..|typed| + k] == typed + more[..k];
      TypeKeepsFit(e, Typed(e, typed + more[..k]), more[k]);
      FitStays(e, typed, more[..k]);
    }
  }

  // ---------- the session follows the editor ----------

  /** Everything of the editor that the session has. */
  ghost predicate Follows(s: Session, d: Editor) {
    && s.command == d.command && s.escape == d.escape && s.sawReturn == d.sawReturn && s.discard == d.discard
    && s.closing == d.closed && s.executed == d.executed
  }

  /** In the middle of a pass, the output is no longer than the echo counted. */
  ghost predicate InPass(e: Env, s: Session, d: Editor) {
    Follows(s, d) && (!s.closing ==> |s.output| <= d.echo) && |s.output| <= e.outputSize
  }

  lemma AppendFacts(e: Env, s: Session, data: seq<Byte>)
    requires |s.output| <= e.outputSize
    ensures var t := Append(e, s, data);
            && t == s.(output := t.output, truncated := t.truncated)
            && |t.output| <= e.outputSize && |t.output| <= |s.output| + |data|
            && (data != [] && e.outputSize > 0 ==> t.output != [])
  {
  }

  lemma EndsAlike(e: Env, s: Session, d: Editor, addPrompt: bool)
    requires InPass(e, s, d) && !d.closed && EndLine(e, d, if addPrompt then |e.prompt| else 0).fits && e.outputSize > 0
    ensures var t := ExecuteLine(e, s, addPrompt);
            && Follows(t, EndLine(e, d, if addPrompt then |e.prompt| else 0))
            && t.output != [] && |t.output| <= e.outputSize
            && t.input == s.input && t.inFlight == s.inFlight
  {
  }

  /** What one byte must keep between the session and the editor. */
  ghost predicate Alike(e: Env, s: Session, r: Edited, d: Editor) {
    && Follows(r.session, d) && |r.session.output| <= e.outputSize
    && (r.stop ==> r.session.closing || r.session.output != [])
    && (!r.stop ==> InPass(e, r.session, d))
    && r.session.inFlight == s.inFlight
  }

  predicate LineKey(v: Byte) { LineEnd(v) || v == CTRL_D }

  lemma LineAlike(e: Env, s: Session, d: Editor, v: Byte)
    requires InPass(e, s, d) && !d.closed && TypePlain(e, d, v).fits && e.outputSize > 0 && LineKey(v)
    ensures Alike(e, s, EditPlain(e, s, v), TypePlain(e, d, v))
  {
    hide ExecuteLine;
    if LineEnd(v) {
      EndsAlike(e, s, d, true);
    } else if d.command != [] {
      EndsAlike(e, s, d, false);
    }
  }

  lemma KeyAlike(e: Env, s: Session, d: Editor, v: Byte)
    requires InPass(e, s, d) && !d.closed && e.outputSize > 0 && !LineKey(v)
    ensures Alike(e, s, EditPlain(e, s, v), TypePlain(e, d, v))
  {
    hide ExecuteLine;
    hide EndLine;
    hide Append;
    if v == CTRL_C {
      AppendFacts(e, s.(command := []), INTERRUPT + e.prompt);
    } else if v == BACKSPACE || v == DELETE {
      if s.command != [] {
        AppendFacts(e, s.(command := s.command[..|s.command| - 1]), RUBOUT);
      }
    } else if v == TAB {
      AppendFacts(e, s, [BELL]);
    } else if 0x20 <= v <= 0x7e {
      AppendFacts(e, s.(command := [], discard := true), TOO_LONG);
      AppendFacts(e, s.(command := s.command + [v]), [v]);
    }
  }

  lemma PlainAlike(e: Env, s: Session, d: Editor, v: Byte)
    requires InPass(e, s, d) && !d.closed && TypePlain(e, d, v).fits && e.outputSize > 0
    ensures Alike(e, s, EditPlain(e, s, v), TypePlain(e, d, v))
  {
    hide Alike;
    hide EditPlain;
    hide TypePlain;
    if LineKey(v) {
      LineAlike(e, s, d, v);
    } else {
      KeyAlike(e, s, d, v);
    }
  }

  /** One byte: the session does what the editor does, and a pass pauses only with output to send or at the end. */
  lemma ByteAlike(e: Env, s: Session, d: Editor, v: Byte)
    requires InPass(e, s, d) && !d.closed && Type(e, d, v).fits && e.outputSize > 0
    ensures Alike(e, s, EditByte(e, s, v), Type(e, d, v))
  {
    hide EditPlain;
    hide TypePlain;
    var s1, d1 := s.(escape := 0, sawReturn := v == CR), d.(escape := 0, sawReturn := v == CR);
    var s2, d2 := s.(sawReturn := v == CR), d.(sawReturn := v == CR);
    if !d.discard && !(v == LF && d.sawReturn) && v != ESC {
      if d.escape == 1 && v != 0x5b && v != 0x4f {
        PlainAlike(e, s1, d1, v);
      } else if d.escape != 1 && d.escape != 2 {
        PlainAlike(e, s2, d2, v);
      }
    }
  }

  lemma OneTaken(taken: seq<Byte>, input: seq<Byte>, j: nat)
    requires j < |input|
    ensures var more := taken + [input[0]];
            && more + input[1..] == taken + input && more + input[1..][..j] == taken + input[..j + 1]
            && input[1..][j..] == input[j + 1..] && taken + input[..1] == more
  {
    assert input[..1] == [input[0]];
  }

  /** What a pass from `taken` over `input` has done when it took `k` bytes. */
  ghost predicate Passed(e: Env, s: Session, t: Session, taken: seq<Byte>, input: seq<Byte>, k: nat) {
    && k <= |input| && (input != [] ==> k > 0)
    && Follows(t, Typed(e, taken + input[..k])) && |t.output| <= e.outputSize
    && t.input == (if t.closing then [] else input[k..])
    && (t.input != [] ==> t.output != []) && t.inFlight == s.inFlight
  }

  /** A pass that stops with its first byte. */
  lemma StopsAtOnce(e: Env, s: Session, taken: seq<Byte>, input: seq<Byte>)
    requires input != [] && EditByte(e, s, input[0]).stop
    requires Alike(e, s, EditByte(e, s, input[0]), Typed(e, taken + [input[0]]))
    ensures Passed(e, s, Process(e, s, input), taken, input, 1)
  {
    hide EditByte;
    hide Typed;
    OneTaken(taken, input, 0);
  }

  /** A pass over the input takes some bytes, does what the editor does with them and leaves the rest. */
  lemma {:induction false} PassAlike(e: Env, s: Session, taken: seq<Byte>, input: seq<Byte>) returns (k: nat)
    requires InPass(e, s, Typed(e, taken)) && !s.closing && Typed(e, taken + input).fits && e.outputSize > 0
    ensures Passed(e, s, Process(e, s, input), taken, input, k)
    decreases input
  {
    hide EditByte;
    hide Type;
    hide Typed;
    if input == [] {
      k := 0;
      assert taken + input[..0] == taken;
    } else {
      var v := input[0];
      OneTaken(taken, input, 0);
      TypedOne(e, taken, v);
      FitStays(e, taken + [v], input[1..]);
      ByteAlike(e, s, Typed(e, taken), v);
      ClosingStops(e, s, v);
      var r := EditByte(e, s, v);
      if r.stop {
        k := 1;
        StopsAtOnce(e, s, taken, input);
      } else {
        var j := PassAlike(e, r.session, taken + [v], input[1..]);
        k := j + 1;
        OneTaken(taken, input, j);
      }
    }
  }

  lemma ClosingStops(e: Env, s: Session, v: Byte)
    requires !s.closing
    ensures EditByte(e, s, v).session.closing ==> EditByte(e, s, v).stop
  {
  }

  // ---------- whole runs ----------

  /** `Retry` is the transport being ready again. */
  datatype Event = Packet(bytes: seq<Byte>) | Ack | Retry

  function Act(e: Env, l: Link, event: Event): Link {
    match event
    case Packet(bytes) => Deliver(e, l, bytes)
    case Ack => Acknowledge(e, l)
    case Retry => HangUp(e, l)
  }

  function Run(e: Env, l: Link, events: seq<Event>): Link {
    if events == [] then l else Act(e, Run(e, l, events[..|events| - 1]), events[|events| - 1])
  }

  /** All bytes that arrived. */
  function Arrived(events: seq<Event>): seq<Byte> {
    if events == [] then []
    else
      var last := events[|events| - 1];
      Arrived(events[..|events| - 1]) + if last.Packet? then last.bytes else []
  }

  /** Packets fit the input buffer. */
  ghost predicate Smooth(e: Env, l: Link, events: seq<Event>) {
    events == [] ||
    var before := Run(e, l, events[..|events| - 1]);
    var last := events[|events| - 1];
    && Smooth(e, l, events[..|events| - 1])
    && (last.Packet? ==> before.released || |last.bytes| + |before.session.input| <= e.inputSize)
  }

  /** The router takes every chunk and every CLSE. */
  ghost predicate Accepting(e: Env) { e.outputSize > 0 && forall n :: e.answer(n) == Ok && e.hangUp(n) }

  /** The session has dealt with all of `typed` but its buffered input. */
  ghost predicate Behind(e: Env, s: Session, typed: seq<Byte>) {
    && |s.input| <= |typed| && s.input == typed[|typed| - |s.input|..]
    && Follows(s, Typed(e, typed[..|typed| - |s.input|])) && |s.output| <= e.outputSize
  }

  /** It waits only while output is on its way; what arrives once it is closing is kept and never looked at. */
  ghost predicate Tracks(e: Env, s: Session, typed: seq<Byte>) {
    Behind(e, s, typed) && (!s.inFlight ==> s.output == [] && (s.closing || s.input == []))
  }

  /**
   A stream in use has a session that tracks the bytes; a released one has executed all that was typed before
   the end.
   */
  ghost predicate LinkTracks(e: Env, l: Link, typed: seq<Byte>) {
    if l.released then l.session.closing && Follows(l.session, Typed(e, typed)) && !l.engaged && l.session.output == []
    else
      && Tracks(e, l.session, typed) && l.engaged == l.session.inFlight && l.asked == l.session.closing
      && (l.session.closing ==> l.session.inFlight)
  }

  lemma QueueTracks(e: Env, s: Session, typed: seq<Byte>)
    requires Accepting(e) && Behind(e, s, typed)
    requires !s.inFlight && s.output == [] ==> s.closing || s.input == []
    ensures Tracks(e, QueueNextChunk(e, s).session, typed) && QueueNextChunk(e, s).status == Ok
    ensures QueueNextChunk(e, s).session.closing == s.closing && (s.inFlight ==> QueueNextChunk(e, s).session.inFlight)
  {
    hide Typed;
  }

  /** Nothing typed behind the end of the session matters. */
  lemma ClosingFollows(e: Env, s: Session, typed: seq<Byte>)
    requires Behind(e, s, typed) && s.closing
    ensures Follows(s, Typed(e, typed))
  {
    hide Typed;
    var n := |typed| - |s.input|;
    ClosedStays(e, typed[..n], typed[n..]);
    assert typed[..n] + typed[n..] == typed;
  }

  /** A pass that starts with nothing to send. */
  lemma ProcessTracks(e: Env, s: Session, typed: seq<Byte>)
    requires Accepting(e) && Behind(e, s, typed) && Typed(e, typed).fits
    requires s.output == [] && !s.inFlight && !s.closing
    ensures var r := QueueNextChunk(e, Process(e, s, s.input)); Tracks(e, r.session, typed) && r.status == Ok
    ensures s.input != [] ==> |Process(e, s, s.input).input| < |s.input|
  {
    hide Process;
    hide QueueNextChunk;
    hide Typed;
    var n := |typed| - |s.input|;
    var taken := typed[..n];
    assert taken + s.input == typed;
    var k := PassAlike(e, s, taken, s.input);
    var t := Process(e, s, s.input);
    assert taken + s.input[..k] == typed[..n + k];
    if t.closing {
      ClosedStays(e, typed[..n + k], typed[n + k..]);
      assert typed[..n + k] + typed[n + k..] == typed && typed[..|typed|] == typed && typed[|typed|..] == [];
    } else {
      assert s.input[k..] == typed[n + k..];
    }
    QueueTracks(e, t, typed);
  }

  lemma WriteTracks(e: Env, s: Session, typed: seq<Byte>, data: seq<Byte>)
    requires Accepting(e) && Tracks(e, s, typed) && (s.closing ==> s.inFlight) && |data| + |s.input| <= e.inputSize
    requires Typed(e, typed + data).fits
    ensures var r := Write(e, s, data);
            && Tracks(e, r.session, typed + data) && r.status == Ok
            && (s.inFlight ==> r.session.inFlight) && (s.closing ==> r.session.closing)
  {
    hide Process;
    hide QueueNextChunk;
    hide Typed;
    var all := typed + data;
    var t := s.(input := s.input + data);
    assert t.input == all[|all| - |t.input|..];
    assert all[..|all| - |t.input|] == typed[..|typed| - |s.input|];
    if !t.inFlight && t.output == [] {
      ProcessTracks(e, t, all);
    } else {
      QueueTracks(e, t, all);
    }
  }

  lemma AckTracks(e: Env, s: Session, typed: seq<Byte>)
    requires Accepting(e) && Tracks(e, s, typed) && Typed(e, typed).fits
    ensures var r := TxReady(e, s); Tracks(e, r.session, typed) && r.status == Ok && (s.closing ==> r.session.closing)
  {
    hide Process;
    hide QueueNextChunk;
    hide Typed;
    var t := s.(inFlight := false);
    if t.output == [] && t.input != [] && !t.closing {
      ProcessTracks(e, t, typed);
    } else {
      QueueTracks(e, t, typed);
    }
  }

  lemma OpenTracks(e: Env)
    requires Accepting(e)
    ensures LinkTracks(e, Linked(e), [])
  {
    QueueTracks(e, Opened(e), []);
  }

  /** At the end of every dispatch a session that is done is hung up. */
  lemma HangUpTracks(e: Env, l: Link, typed: seq<Byte>)
    requires Accepting(e) && Tracks(e, l.session, typed) && !l.released
    requires l.engaged == l.session.inFlight && l.asked == l.session.closing
    ensures LinkTracks(e, HangUp(e, l), typed)
  {
    hide Typed;
    if l.session.closing {
      ClosingFollows(e, l.session, typed);
    }
  }

  lemma DeliverTracks(e: Env, l: Link, typed: seq<Byte>, data: seq<Byte>)
    requires Accepting(e) && LinkTracks(e, l, typed) && Typed(e, typed + data).fits
    requires l.released || |data| + |l.session.input| <= e.inputSize
    ensures LinkTracks(e, Deliver(e, l, data), typed + data)
  {
    hide Typed;
    hide Write;
    hide Behind;
    hide HangUp;
    if l.released {
      ClosedStays(e, typed, data);
    } else {
      WriteTracks(e, l.session, typed, data);
      var s := Write(e, l.session, data).session;
      HangUpTracks(e, l.(session := s, asked := s.closing, engaged := s.inFlight), typed + data);
    }
  }

  lemma AcknowledgeTracks(e: Env, l: Link, typed: seq<Byte>)
    requires Accepting(e) && LinkTracks(e, l, typed) && Typed(e, typed).fits
    ensures LinkTracks(e, Acknowledge(e, l), typed)
  {
    hide Typed;
    hide TxReady;
    hide Behind;
    hide HangUp;
    if !l.released && l.engaged {
      AckTracks(e, l.session, typed);
      var s := TxReady(e, l.session).session;
      HangUpTracks(e, l.(session := s, asked := s.closing, engaged := s.inFlight), typed);
    }
  }

  lemma {:induction false} RunTracks(e: Env, events: seq<Event>)
    requires Accepting(e) && Smooth(e, Linked(e), events) && Typed(e, Arrived(events)).fits
    ensures LinkTracks(e, Run(e, Linked(e), events), Arrived(events))
  {
    hide Deliver;
    hide Acknowledge;
    hide Tracks;
    hide Typed;
    hide Linked;
    if events == [] {
      OpenTracks(e);
    } else {
      var k := |events| - 1;
      var last, before := events[k], Arrived(events[..k]);
      if last.Packet? {
        FitStays(e, before, last.bytes);
        RunTracks(e, events[..k]);
        DeliverTracks(e, Run(e, Linked(e), events[..k]), before, last.bytes);
      } else {
        assert before + [] == before;
        RunTracks(e, events[..k]);
        AcknowledgeTracks(e, Run(e, Linked(e), events[..k]), before);
      }
    }
  }

  /** The session is over or has no input waiting. */
  predicate Done(l: Link) { l.released || l.session.closing || l.session.input == [] }

  lemma DoneExecuted(e: Env, l: Link, typed: seq<Byte>)
    requires LinkTracks(e, l, typed) && Done(l)
    ensures l.session.executed == Commands(e, typed)
  {
    hide Typed;
    if !l.released {
      if l.session.closing {
        ClosingFollows(e, l.session, typed);
      } else {
        assert typed[..|typed|] == typed;
      }
    }
  }

  /**
   Two runs in which the same bytes arrive, cut and acknowledged in any two ways, before or after the end of the
   session, have executed the same commands as soon as neither has input waiting: the commands in the bytes.
   */
  lemma OnlyTheBytesMatter(e: Env, a: seq<Event>, b: seq<Event>)
    requires Accepting(e) && Smooth(e, Linked(e), a) && Smooth(e, Linked(e), b)
    requires Arrived(a) == Arrived(b) && Typed(e, Arrived(a)).fits
    requires Done(Run(e, Linked(e), a)) && Done(Run(e, Linked(e), b))
    ensures Run(e, Linked(e), a).session.executed == Run(e, Linked(e), b).session.executed == Commands(e, Arrived(a))
  {
    hide Run;
    hide Typed;
    hide Linked;
    hide Smooth;
    hide LinkTracks;
    RunTracks(e, a);
    RunTracks(e, b);
    DoneExecuted(e, Run(e, Linked(e), a), Arrived(a));
    DoneExecuted(e, Run(e, Linked(e), b), Arrived(b));
  }

  // ---------- draining ----------

  /** Nothing waits to be processed or sent. */
  ghost predicate AtRest(l: Link) {
    l.session.output == [] && !l.engaged && (l.released || l.session.input == [])
  }

  function Acks(e: Env, l: Link, n: nat): Link
    decreases n
  {
    if n == 0 then l else Acks(e, Acknowledge(e, l), n - 1)
  }

  lemma AckProgress(e: Env, s: Session, typed: seq<Byte>)
    requires Accepting(e) && e.maxPayload > 0 && Tracks(e, s, typed) && s.inFlight && Typed(e, typed).fits
    ensures var t := TxReady(e, s).session;
            !t.inFlight || |t.input| < |s.input| || (t.input == s.input && |t.output| < |s.output|)
  {
    hide Process;
    hide Typed;
    var t := s.(inFlight := false);
    if t.output == [] && t.input != [] && !t.closing {
      ProcessTracks(e, t, typed);
    }
  }

  lemma IdleAtRest(e: Env, l: Link, typed: seq<Byte>)
    requires LinkTracks(e, l, typed) && !l.engaged
    ensures AtRest(l) && l.session.executed == Commands(e, typed)
  {
    hide Behind;
    DoneExecuted(e, l, typed);
  }

  /** Acknowledgements alone bring every session to rest, with all input dealt with and all output sent. */
  lemma {:induction false} Drains(e: Env, l: Link, typed: seq<Byte>) returns (n: nat)
    requires Accepting(e) && e.maxPayload > 0 && LinkTracks(e, l, typed) && Typed(e, typed).fits
    ensures AtRest(Acks(e, l, n)) && Acks(e, l, n).session.executed == Commands(e, typed)
    decreases |l.session.input|, |l.session.output|
  {
    hide TxReady;
    hide Typed;
    hide Behind;
    if !l.engaged {
      n := 0;
      IdleAtRest(e, l, typed);
    } else {
      AcknowledgeTracks(e, l, typed);
      AckProgress(e, l.session, typed);
      var t := Acknowledge(e, l);
      if !t.engaged {
        n := 1;
        IdleAtRest(e, t, typed);
        assert Acks(e, t, 0) == t;
      } else {
        var m := Drains(e, t, typed);
        n := m + 1;
      }
    }
  }

  // ---------- output ----------

  /** All output so far: what was sent and what is buffered. */
  function Total(s: Session): seq<Byte> { Flatten(s.sent) + s.output }

  predicate Grows(s: Session, t: Session) { s.output <= t.output && t.sent == s.sent }

  lemma AppendGrows(e: Env, s: Session, data: seq<Byte>)
    ensures Grows(s, Append(e, s, data))
  {
  }

  lemma LineGrows(e: Env, s: Session, addPrompt: bool)
    ensures Grows(s, ExecuteLine(e, s, addPrompt))
  {
  }

  lemma PlainGrows(e: Env, s: Session, v: Byte)
    ensures Grows(s, EditPlain(e, s, v).session)
  {
    hide ExecuteLine;
    hide Append;
    if LineEnd(v) {
      LineGrows(e, s, true);
    } else if v == CTRL_D {
      LineGrows(e, s, false);
    } else if v == CTRL_C {
      AppendGrows(e, s.(command := []), INTERRUPT + e.prompt);
    } else if v == BACKSPACE || v == DELETE {
      if s.command != [] {
        AppendGrows(e, s.(command := s.command[..|s.command| - 1]), RUBOUT);
      }
    } else if v == TAB {
      AppendGrows(e, s, [BELL]);
    } else if 0x20 <= v <= 0x7e {
      AppendGrows(e, s.(command := [], discard := true), TOO_LONG);
      AppendGrows(e, s.(command := s.command + [v]), [v]);
    }
  }

  lemma VisibleGrows(e: Env, s: Session, v: Byte)
    ensures Grows(s, EditVisible(e, s, v).session)
  {
    hide EditPlain;
    hide Append;
    var t := s.(sawReturn := v == CR);
    PlainGrows(e, t, v);
    AppendGrows(e, t.(discard := false), NEWLINE + e.prompt);
  }

  lemma EditGrows(e: Env, s: Session, v: Byte)
    ensures Grows(s, EditByte(e, s, v).session)
  {
    hide EditVisible;
    VisibleGrows(e, s, v);
    VisibleGrows(e, s.(escape := 0), v);
  }

  lemma {:induction false} ProcessGrows(e: Env, s: Session, input: seq<Byte>)
    ensures Grows(s, Process(e, s, input))
    decreases input
  {
    hide EditByte;
    if input != [] {
      EditGrows(e, s, input[0]);
      ProcessGrows(e, EditByte(e, s, input[0]).session, input[1..]);
    }
  }

  /** Sending moves the front of the buffer to the wire. */
  lemma SendingMoves(e: Env, s: Session)
    ensures Total(QueueNextChunk(e, s).session) == Total(s)
  {
    var n := Min(|s.output|, e.maxPayload);
    FlattenSnoc(s.sent, s.output[..n]);
    Assoc(Flatten(s.sent), s.output[..n], s.output[n..]);
    assert s.output[..n] + s.output[n..] == s.output;
  }

  lemma GrowsTotal(s: Session, t: Session)
    requires Grows(s, t)
    ensures Total(s) <= Total(t)
  {
  }

  lemma WriteGrows(e: Env, s: Session, data: seq<Byte>)
    ensures Total(s) <= Total(Write(e, s, data).session)
  {
    hide Process;
    hide QueueNextChunk;
    var t := s.(input := s.input + data);
    ProcessGrows(e, t, t.input);
    GrowsTotal(s, Process(e, t, t.input));
    SendingMoves(e, t);
    SendingMoves(e, Process(e, t, t.input));
  }

  lemma ReadyGrows(e: Env, s: Session)
    ensures Total(s) <= Total(TxReady(e, s).session)
  {
    hide Process;
    hide QueueNextChunk;
    var t := s.(inFlight := false);
    ProcessGrows(e, t, t.input);
    GrowsTotal(s, Process(e, t, t.input));
    SendingMoves(e, t);
    SendingMoves(e, Process(e, t, t.input));
  }

  lemma ActGrows(e: Env, l: Link, event: Event)
    ensures Total(l.session) <= Total(Act(e, l, event).session)
  {
    hide Write;
    hide TxReady;
    hide Total;
    ReadyGrows(e, l.session);
    if event.Packet? {
      WriteGrows(e, l.session, event.bytes);
    }
  }

  /** In every run, whatever fails: output once buffered is sent or still buffered, complete and in order. */
  lemma {:induction false} OutputIsKept(e: Env, l: Link, events: seq<Event>)
    ensures Total(l.session) <= Total(Run(e, l, events).session)
  {
    hide Act;
    if events != [] {
      var k := |events| - 1;
      OutputIsKept(e, l, events[..k]);
      ActGrows(e, Run(e, l, events[..k]), events[k]);
    }
  }

  // ---------- the conditions are needed ----------

  ghost predicate Quiet(s: Session) { s.input == [] && s.output == [] && !s.inFlight }

  predicate Prompting(s: Session) { s.command == [] && s.escape == 0 && !s.discard && s.output == [] }

  const LETTER: Byte := 0x61

  lemma EndOfInput(e: Env, s: Session)
    requires Prompting(s)
    ensures EditByte(e, s, CTRL_D) == Edited(s.(sawReturn := false, closing := true), true)
  {
  }

  lemma LetterTyped(e: Env, s: Session)
    requires Prompting(s) && e.commandSize >= 3 && e.outputSize > 0
    ensures EditByte(e, s, LETTER) == Edited(s.(command := [LETTER], output := [LETTER], sawReturn := false), false)
  {
    var data: seq<Byte> := [LETTER];
    assert data[..1] == data && s.output + data == data && s.command + data == data;
    assert Append(e, s.(command := data, sawReturn := false), data) ==
           s.(command := data, output := data, sawReturn := false);
  }

  /** A line and a return, with `|output|` bytes of echo waiting, run unless the buffer is then too full. */
  lemma ReturnRuns(e: Env, s: Session)
    requires s.command != [] && s.command != EXIT && s.escape == 0 && !s.discard && |s.output| + 2 <= e.outputSize
    ensures EditByte(e, s, CR).stop
    ensures EditByte(e, s, CR).session.executed ==
            if NoRoom(e, |s.output| + 2, |e.prompt|) then s.executed else s.executed + [s.command]
  {
    var t := s.(sawReturn := true);
    assert |Append(e, t, NEWLINE).output| == |s.output| + 2;
    assert ExecuteLine(e, t, true).output != [];
  }

  lemma QueueKeeps(e: Env, s: Session)
    ensures QueueNextChunk(e, s).session.executed == s.executed
    ensures s.output == [] ==> QueueNextChunk(e, s) == Outcome(s, Ok)
  {
  }

  /** Characters that are echoed and put into the command. */
  predicate Printable(line: seq<Byte>) { forall i :: 0 <= i < |line| ==> 0x20 <= line[i] <= 0x7e }

  lemma CharacterTyped(e: Env, s: Session, v: Byte)
    requires s.escape == 0 && !s.discard && 0x20 <= v <= 0x7e
    requires |s.command| + 1 < e.commandSize && |s.output| < e.outputSize
    ensures EditByte(e, s, v) ==
            Edited(s.(command := s.command + [v], output := s.output + [v], sawReturn := false), false)
  {
    var data: seq<Byte> := [v];
    assert data[..1] == data;
  }

  /** The session after the characters of `line` were typed into it. */
  function AfterLine(s: Session, line: seq<Byte>): Session {
    if line == [] then s else s.(command := s.command + line, output := s.output + line, sawReturn := false)
  }

  lemma {:induction false} LineTyped(e: Env, s: Session, line: seq<Byte>, rest: seq<Byte>)
    requires s.escape == 0 && !s.discard && Printable(line)
    requires |s.command| + |line| < e.commandSize && |s.output| + |line| <= e.outputSize
    ensures Process(e, s, line + rest) == Process(e, AfterLine(s, line), rest)
    decreases line
  {
    hide EditByte;
    if line == [] {
      assert line + rest == rest;
    } else {
      var v, more := line[0], line[1..];
      CharacterTyped(e, s, v);
      var t := EditByte(e, s, v).session;
      LineTyped(e, t, more, rest);
      AppendFirst(s.command, line);
      AppendFirst(s.output, line);
      assert (line + rest)[0] == v && (line + rest)[1..] == more + rest;
      assert AfterLine(t, more) == AfterLine(s, line) by {
        if more == [] {
          assert line == [v];
        }
      }
    }
  }

  /** A line that the session executes when it is typed at once. */
  predicate Runnable(e: Env, line: seq<Byte>) {
    && line != [] && line != EXIT && Printable(line) && |line| < e.commandSize
    && !NoRoom(e, |line| + 2, |e.prompt|)
  }

  lemma LineRuns(e: Env, s: Session, line: seq<Byte>)
    requires Prompting(s) && Runnable(e, line)
    ensures Process(e, s, line + [CR]).executed == s.executed + [line]
  {
    hide EditByte;
    LineTyped(e, s, line, [CR]);
    var u := AfterLine(s, line);
    assert u.command == line && u.output == line;
    ReturnRuns(e, u);
    var one: seq<Byte> := [CR];
    assert one[1..] == [];
  }

  /** The end of input in a packet of its own, and what a further packet then does to a session that still gets it. */
  lemma LateSession(e: Env, s: Session, line: seq<Byte>)
    requires Quiet(s) && Prompting(s) && !s.closing && s.executed == []
    requires Runnable(e, line) && |line| + 2 <= e.inputSize
    ensures Write(e, s, [CTRL_D] + line + [CR]).session.executed == []
    ensures var r := Write(e, s, [CTRL_D]);
            && r.status == Ok && r.session.closing && !r.session.inFlight && r.session.executed == []
            && Write(e, r.session, line + [CR]).session.executed == [line]
  {
    hide EditByte;
    hide QueueNextChunk;
    var all: seq<Byte>, one: seq<Byte>, two: seq<Byte> := [CTRL_D] + line + [CR], [CTRL_D], line + [CR];
    assert s.input + all == all && s.input + one == one;
    EndOfInput(e, s.(input := all));
    EndOfInput(e, s.(input := one));
    var done := s.(sawReturn := false, closing := true);
    assert Process(e, s.(input := all), all) == done && Process(e, s.(input := one), one) == done;
    QueueKeeps(e, done);
    assert done.input + two == two;
    LineRuns(e, done.(input := two), line);
    QueueKeeps(e, Process(e, done.(input := two), two));
  }

  /**
   A line behind the end of input is executed exactly when it comes in a packet of its own and the transport
   could not take the CLSE in between.
   */
  lemma LatePacketsRun(e: Env, l: Link, line: seq<Byte>)
    requires !l.released && !l.engaged && Quiet(l.session) && Prompting(l.session)
    requires !l.session.closing && l.session.executed == []
    requires Runnable(e, line) && |line| + 2 <= e.inputSize
    ensures Deliver(e, l, [CTRL_D] + line + [CR]).session.executed == []
    ensures Deliver(e, Deliver(e, l, [CTRL_D]), line + [CR]).session.executed ==
            if e.hangUp(l.tries) then [] else [line]
  {
    hide Write;
    hide Runnable;
    LateSession(e, l.session, line);
  }

  lemma LetterSent(e: Env, s: Session)
    requires Accepting(e) && e.maxPayload > 0 && Quiet(s) && Prompting(s) && e.commandSize >= 3 && e.inputSize > 0
    ensures var t := TxReady(e, Write(e, s, [LETTER]).session).session;
            && Quiet(t) && t.command == [LETTER] && t.escape == 0 && !t.discard && t.executed == s.executed
  {
    hide EditByte;
    var one: seq<Byte> := [LETTER];
    assert s.input + one == one && one[1..] == [];
    LetterTyped(e, s.(input := one));
    var u := s.(command := one, output := one, sawReturn := false, input := []);
    assert Process(e, s.(input := one), one) == u;
    assert QueueNextChunk(e, u).session.output == one[1..];
  }

  /** With a buffer this small, a line typed at once is skipped and the same line typed in two packets is run. */
  lemma EchoCrowdsOutLine(e: Env, s: Session)
    requires Accepting(e) && e.maxPayload > 0 && Quiet(s) && Prompting(s) && !s.closing && s.executed == []
    requires e.commandSize >= 3 && e.inputSize >= 2 && e.outputSize == |e.prompt| + 4
    ensures Write(e, s, [LETTER, CR]).session.executed == []
    ensures Write(e, TxReady(e, Write(e, s, [LETTER]).session).session, [CR]).session.executed == [[LETTER]]
  {
    hide EditByte;
    hide QueueNextChunk;
    var two: seq<Byte>, one: seq<Byte> := [LETTER, CR], [CR];
    assert s.input + two == two && two[1..] == one && one[1..] == [];
    LetterTyped(e, s.(input := two));
    var u := s.(input := two, command := [LETTER], output := [LETTER], sawReturn := false);
    ReturnRuns(e, u);
    assert Process(e, s.(input := two), two) == Process(e, u, one);
    QueueKeeps(e, Process(e, u, one));
    LetterSent(e, s);
    var t := TxReady(e, Write(e, s, [LETTER]).session).session;
    assert t.input + one == one;
    ReturnRuns(e, t.(input := one));
    QueueKeeps(e, Process(e, t.(input := one), one));
  }
}
