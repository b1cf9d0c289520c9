/**
 What the user of an interactive shell sees, from the typed bytes alone: the prompt, the echo of every key, and for
 every line a newline, what its command prints and the prompt again. The session shows exactly that, cut only where
 its output buffer is full.
 */
module ShellTranscript {
  import opened Bytes
  import opened Errno
  import opened Shell
  import opened ShellProofs

  // ---------- the transcript ----------

  /** What the end of a line shows; `n` commands ran before it. */
  function LineShows(e: Env, n: nat, command: seq<Byte>, addPrompt: bool): seq<seq<Byte>> {
    if command == EXIT then [NEWLINE]
    else
      [NEWLINE] + (if command == [] then [] else [e.response(n, command)]) + if addPrompt then [e.prompt] else []
  }

  function PlainShows(e: Env, d: Editor, v: Byte): seq<seq<Byte>> {
    if LineEnd(v) then LineShows(e, |d.executed|, d.command, true)
    else if v == CTRL_D then if d.command == [] then [] else LineShows(e, |d.executed|, d.command, false)
    else if v == CTRL_C then [INTERRUPT + e.prompt]
    else if v == BACKSPACE || v == DELETE then if d.command == [] then [] else [RUBOUT]
    else if v == TAB then [[BELL]]
    else if v < 0x20 || v > 0x7e then []
    else if |d.command| + 1 >= e.commandSize then [TOO_LONG]
    else [[v]]
  }

  function VisibleShows(e: Env, d: Editor, v: Byte): seq<seq<Byte>> {
    if v == ESC || (v == LF && d.sawReturn) then []
    else if !d.discard then PlainShows(e, d, v)
    else if LineEnd(v) then [NEWLINE + e.prompt]
    else []
  }

  /** What typing `v` shows. */
  function KeyShows(e: Env, d: Editor, v: Byte): seq<seq<Byte>> {
    if d.closed || d.escape == 2 || (d.escape == 1 && (v == 0x5b || v == 0x4f)) then [] else VisibleShows(e, d, v)
  }

  /** Everything shown for `typed`, piece by piece. */
  function Shown(e: Env, typed: seq<Byte>): seq<seq<Byte>> {
    if typed == [] then [e.prompt]
    else
      var k := |typed| - 1;
      Shown(e, typed[..k]) + KeyShows(e, Typed(e, typed[..k]), typed[k])
  }

  function Transcript(e: Env, typed: seq<Byte>): seq<Byte> { Flatten(Shown(e, typed)) }

  /** All that a key shows fits the output buffer, on top of the echo since the last pause. */
  predicate KeyFits(e: Env, d: Editor, v: Byte) { d.echo + |Flatten(KeyShows(e, d, v))| <= e.outputSize }

  /** And so for every key, and the first prompt. */
  predicate Roomy(e: Env, typed: seq<Byte>) {
    if typed == [] then |e.prompt| <= e.outputSize
    else
      var k := |typed| - 1;
      Roomy(e, typed[..k]) && KeyFits(e, Typed(e, typed[..k]), typed[k])
  }

  lemma ShownOne(e: Env, typed: seq<Byte>, v: Byte)
    ensures Shown(e, typed + [v]) == Shown(e, typed) + KeyShows(e, Typed(e, typed), v)
    ensures Roomy(e, typed + [v]) <==> Roomy(e, typed) && KeyFits(e, Typed(e, typed), v)
  {
    hide KeyShows;
    hide KeyFits;
    hide Typed;
    assert (typed + [v])[..|typed|] == typed;
  }

  lemma {:induction false} ClosedShows(e: Env, typed: seq<Byte>, more: seq<Byte>)
    requires Typed(e, typed).closed
    ensures Shown(e, typed + more) == Shown(e, typed)
    decreases |more|
  {
    hide KeyFits;
    hide Shown;
    hide Typed;
    hide VisibleShows;
    if more == [] {
      assert typed + more == typed;
    } else {
      var k := |more| - 1;
      ClosedShows(e, typed, more[..k]);
      ClosedStays(e, typed, more[..k]);
      assert more == more[..k] + [more[k]];
      Assoc(typed, more[..k], [more[k]]);
      ShownOne(e, typed + more[..k], more[k]);
      assert Shown(e, typed) + [] == Shown(e, typed);
    }
  }

  lemma {:induction false} RoomyBefore(e: Env, typed: seq<Byte>, more: seq<Byte>)
    requires Roomy(e, typed + more)
    ensures Roomy(e, typed)
    decreases |more|
  {
    if more == [] {
      assert typed + more == typed;
    } else {
      hide Roomy;
      hide KeyFits;
      hide Shown;
      hide Typed;
      var k := |more| - 1;
      assert more == more[..k] + [more[k]];
      Assoc(typed, more[..k], [more[k]]);
      ShownOne(e, typed + more[..k], more[k]);
      RoomyBefore(e, typed, more[..k]);
    }
  }

  // ---------- cutting pieces ----------

  /** `x` is the concatenation of a front part of each piece. */
  ghost predicate CutOf(x: seq<Byte>, pieces: seq<seq<Byte>>)
    decreases |pieces|
  {
    if pieces == [] then x == []
    else
      var k := |pieces| - 1;
      exists n: nat :: n <= |x| && CutOf(x[..n], pieces[..k]) && x[n..] <= pieces[k]
  }

  lemma CutSnoc(x: seq<Byte>, pieces: seq<seq<Byte>>, y: seq<Byte>, p: seq<Byte>)
    requires CutOf(x, pieces) && y <= p
    ensures CutOf(x + y, pieces + [p])
  {
    var all := pieces + [p];
    assert all[..|pieces|] == pieces && (x + y)[..|x|] == x && (x + y)[|x|..] == y;
  }

  lemma CutLast(y: seq<Byte>, qs: seq<seq<Byte>>) returns (n: nat)
    requires CutOf(y, qs) && qs != []
    ensures n <= |y| && CutOf(y[..n], qs[..|qs| - 1]) && y[n..] <= qs[|qs| - 1]
  {
    n :| n <= |y| && CutOf(y[..n], qs[..|qs| - 1]) && y[n..] <= qs[|qs| - 1];
  }

  lemma CutNothing(y: seq<Byte>)
    requires CutOf(y, [])
    ensures y == []
  {
  }

  lemma {:induction false} CutAppend(x: seq<Byte>, ps: seq<seq<Byte>>, y: seq<Byte>, qs: seq<seq<Byte>>)
    requires CutOf(x, ps) && CutOf(y, qs)
    ensures CutOf(x + y, ps + qs)
    decreases |qs|
  {
    hide CutOf;
    if qs == [] {
      CutNothing(y);
      assert x + y == x && ps + qs == ps;
    } else {
      var k := |qs| - 1;
      var n := CutLast(y, qs);
      CutAppend(x, ps, y[..n], qs[..k]);
      CutSnoc(x + y[..n], ps + qs[..k], y[n..], qs[k]);
      assert qs == qs[..k] + [qs[k]] && y == y[..n] + y[n..];
      Assoc(ps, qs[..k], [qs[k]]);
      Assoc(x, y[..n], y[n..]);
    }
  }

  lemma CutOne(x: seq<Byte>, p: seq<Byte>)
    requires x <= p
    ensures CutOf(x, [p])
  {
    CutSnoc([], [], x, p);
    assert [] + x == x && [] + [p] == [p];
  }

  // ---------- what each operation adds ----------

  /**
   `t` has added the pieces to the output of `s`, cut where the buffer was full. Cutting is noted, and happens only
   if the pieces and `reserve` more bytes do not fit.
   */
  ghost predicate Adds(e: Env, s: Session, t: Session, pieces: seq<seq<Byte>>, reserve: nat) {
    && s.output <= t.output && |t.output| <= e.outputSize && t.sent == s.sent && (s.truncated ==> t.truncated)
    && CutOf(t.output[|s.output|..], pieces)
    && (!t.truncated ==> t.output == s.output + Flatten(pieces))
    && (|s.output| + |Flatten(pieces)| + reserve <= e.outputSize ==> t.truncated == s.truncated)
  }

  lemma AddsNothing(e: Env, s: Session, t: Session)
    requires t.output == s.output && t.sent == s.sent && t.truncated == s.truncated && |s.output| <= e.outputSize
    ensures Adds(e, s, t, [], 0)
  {
  }

  lemma OnePiece(p: seq<Byte>)
    ensures Flatten([p]) == p
  {
    assert [p][1..] == [] && p + [] == p;
  }

  lemma AddsThen(e: Env, s: Session, t: Session, u: Session, ps: seq<seq<Byte>>, qs: seq<seq<Byte>>, reserve: nat)
    requires Adds(e, s, t, ps, reserve) && Adds(e, t, u, qs, 0) && reserve <= |Flatten(qs)|
    ensures Adds(e, s, u, ps + qs, 0)
  {
    hide CutOf;
    hide Flatten;
    FlattenAppend(ps, qs);
    var x, y := t.output[|s.output|..], u.output[|t.output|..];
    CutAppend(x, ps, y, qs);
    assert u.output[|s.output|..] == x + y;
    Assoc(s.output, Flatten(ps), Flatten(qs));
  }

  lemma AppendAdds(e: Env, s: Session, data: seq<Byte>)
    requires |s.output| <= e.outputSize
    ensures Adds(e, s, Append(e, s, data), [data], 0)
  {
    OnePiece(data);
    CutOne(Append(e, s, data).output[|s.output|..], data);
    assert data[..|data|] == data;
  }

  lemma PerformAdds(e: Env, s: Session, promptLen: nat)
    requires |s.output| <= e.outputSize && !NoRoom(e, |s.output|, promptLen)
    ensures Adds(e, s, Perform(e, s, promptLen), [e.response(|s.executed|, s.command)], promptLen)
  {
    var text := e.response(|s.executed|, s.command);
    OnePiece(text);
    CutOne(Perform(e, s, promptLen).output[|s.output|..], text);
    assert text[..|text|] == text;
  }

  lemma AddsReserving(e: Env, s: Session, t: Session, pieces: seq<seq<Byte>>, reserve: nat)
    requires Adds(e, s, t, pieces, 0)
    ensures Adds(e, s, t, pieces, reserve)
  {
    hide CutOf;
    hide Flatten;
  }

  /** Only fields that are not output have changed. */
  lemma AddsSame(e: Env, s: Session, t: Session, u: Session, pieces: seq<seq<Byte>>, reserve: nat)
    requires Adds(e, s, t, pieces, reserve)
    requires u.output == t.output && u.sent == t.sent && u.truncated == t.truncated
    ensures Adds(e, s, u, pieces, reserve)
  {
    hide CutOf;
    hide Flatten;
  }

  lemma CommandAdds(e: Env, s: Session, promptLen: nat)
    requires |s.output| <= e.outputSize && (s.command == [] || !NoRoom(e, |s.output|, promptLen))
    ensures var mid := if s.command == [] then [] else [e.response(|s.executed|, s.command)];
            Adds(e, s, RunCommand(e, s, promptLen), mid, promptLen)
  {
    hide Adds;
    hide Perform;
    if s.command == [] {
      AddsNothing(e, s, s);
      AddsReserving(e, s, s, [], promptLen);
    } else {
      PerformAdds(e, s, promptLen);
    }
  }

  /** The end of a line whose command, if there is one, has room. */
  lemma LineAdds(e: Env, s: Session, addPrompt: bool)
    requires |s.output| <= e.outputSize
    requires s.command == [] || s.command == EXIT ||
             !NoRoom(e, |s.output| + 2, if addPrompt then |e.prompt| else 0)
    ensures Adds(e, s, ExecuteLine(e, s, addPrompt), LineShows(e, |s.executed|, s.command, addPrompt), 0)
  {
    hide Adds;
    hide RunCommand;
    hide Append;
    var promptLen := if addPrompt then |e.prompt| else 0;
    AppendAdds(e, s, NEWLINE);
    AppendFacts(e, s, NEWLINE);
    var t := Append(e, s, NEWLINE);
    if s.command == EXIT {
      AddsSame(e, s, t, t.(command := [], closing := true), [NEWLINE], 0);
    } else {
      var mid: seq<seq<Byte>> := if s.command == [] then [] else [e.response(|s.executed|, s.command)];
      var end: seq<seq<Byte>> := if addPrompt then [e.prompt] else [];
      CommandAdds(e, t, promptLen);
      var r := RunCommand(e, t, promptLen);
      var v := r.(command := []);
      AddsSame(e, t, r, v, mid, promptLen);
      AddsBounded(e, t, v, mid, promptLen);
      EndAdds(e, v, addPrompt);
      AddsThen(e, t, v, ExecuteLine(e, s, addPrompt), mid, end, promptLen);
      AddsThen(e, s, t, ExecuteLine(e, s, addPrompt), [NEWLINE], mid + end, 0);
      assert [NEWLINE] + (mid + end) == [NEWLINE] + mid + end;
    }
  }

  lemma AddsBounded(e: Env, s: Session, t: Session, pieces: seq<seq<Byte>>, reserve: nat)
    requires Adds(e, s, t, pieces, reserve)
    ensures |t.output| <= e.outputSize
  {
  }

  lemma EndAdds(e: Env, s: Session, addPrompt: bool)
    requires |s.output| <= e.outputSize
    ensures var end: seq<seq<Byte>> := if addPrompt then [e.prompt] else [];
            && Adds(e, s, if addPrompt then Append(e, s, e.prompt) else s, end, 0)
            && |Flatten(end)| == if addPrompt then |e.prompt| else 0
  {
    hide Adds;
    AppendAdds(e, s, e.prompt);
    AddsNothing(e, s, s);
    OnePiece(e.prompt);
  }

  /** The response of a line is cut exactly so that the prompt still fits behind it, and nothing else is cut. */
  lemma LineOutput(e: Env, s: Session)
    requires s.command != [] && s.command != EXIT && !NoRoom(e, |s.output| + 2, |e.prompt|)
    ensures var text := e.response(|s.executed|, s.command);
            var room := e.outputSize - |s.output| - 2 - |e.prompt|;
            && ExecuteLine(e, s, true).output == s.output + NEWLINE + text[..Min(|text|, room)] + e.prompt
            && (ExecuteLine(e, s, true).truncated <==> s.truncated || |text| > room)
  {
    var t := Append(e, s, NEWLINE);
    assert NEWLINE[..2] == NEWLINE && t.output == s.output + NEWLINE;
    var v := RunCommand(e, t, |e.prompt|).(command := []);
    assert e.prompt[..|e.prompt|] == e.prompt;
    assert Append(e, v, e.prompt).output == v.output + e.prompt;
  }

  // ---------- bytes ----------

  lemma PlainAdds(e: Env, s: Session, d: Editor, v: Byte)
    requires InPass(e, s, d) && !d.closed && TypePlain(e, d, v).fits
    ensures Adds(e, s, EditPlain(e, s, v).session, PlainShows(e, d, v), 0)
  {
    hide Adds;
    hide ExecuteLine;
    hide Append;
    hide LineShows;
    AddsNothing(e, s, s);
    if LineEnd(v) {
      LineAdds(e, s, true);
    } else if v == CTRL_D {
      if s.command != [] {
        LineAdds(e, s, false);
        var t := ExecuteLine(e, s, false);
        AddsSame(e, s, t, t.(closing := true), LineShows(e, |d.executed|, d.command, false), 0);
      } else {
        AddsSame(e, s, s, s.(closing := true), [], 0);
      }
    } else {
      KeyAdds(e, s, d, v);
    }
  }

  lemma AppendOther(e: Env, s: Session, t: Session, data: seq<Byte>)
    requires |s.output| <= e.outputSize
    requires t.output == s.output && t.sent == s.sent && t.truncated == s.truncated
    ensures Adds(e, s, Append(e, t, data), [data], 0)
  {
    AppendAdds(e, t, data);
  }

  lemma KeyAdds(e: Env, s: Session, d: Editor, v: Byte)
    requires InPass(e, s, d) && !LineKey(v)
    ensures Adds(e, s, EditPlain(e, s, v).session, PlainShows(e, d, v), 0)
  {
    hide Adds;
    hide Append;
    AddsNothing(e, s, s);
    if v == CTRL_C {
      AppendOther(e, s, s.(command := []), INTERRUPT + e.prompt);
    } else if v == BACKSPACE || v == DELETE {
      if s.command != [] {
        AppendOther(e, s, s.(command := s.command[..|s.command| - 1]), RUBOUT);
      }
    } else if v == TAB {
      AppendOther(e, s, s, [BELL]);
    } else if 0x20 <= v <= 0x7e {
      AppendOther(e, s, s.(command := [], discard := true), TOO_LONG);
      AppendOther(e, s, s.(command := s.command + [v]), [v]);
    }
  }

  lemma VisibleAdds(e: Env, s: Session, d: Editor, v: Byte)
    requires InPass(e, s, d) && !d.closed && TypeVisible(e, d, v).fits
    ensures Adds(e, s, EditVisible(e, s, v).session, VisibleShows(e, d, v), 0)
  {
    hide Adds;
    hide EditPlain;
    hide TypePlain;
    hide PlainShows;
    hide Append;
    var t, c := s.(sawReturn := v == CR), d.(sawReturn := v == CR);
    if v == ESC || (v == LF && d.sawReturn) {
      AddsNothing(e, s, EditVisible(e, s, v).session);
    } else if !d.discard {
      PlainAdds(e, t, c, v);
      SameShows(e, d, c, v);
      AddsFrom(e, t, s, EditPlain(e, t, v).session, PlainShows(e, c, v));
    } else if LineEnd(v) {
      AppendOther(e, s, t.(discard := false), NEWLINE + e.prompt);
    } else {
      AddsNothing(e, s, t);
    }
  }

  lemma SameShows(e: Env, d: Editor, c: Editor, v: Byte)
    requires c.command == d.command && c.executed == d.executed
    ensures PlainShows(e, c, v) == PlainShows(e, d, v)
  {
  }

  lemma AddsFrom(e: Env, s: Session, r: Session, t: Session, pieces: seq<seq<Byte>>)
    requires Adds(e, s, t, pieces, 0) && r.output == s.output && r.sent == s.sent && r.truncated == s.truncated
    ensures Adds(e, r, t, pieces, 0)
  {
    hide CutOf;
    hide Flatten;
  }

  /** What one byte adds to the output is what the editor shows for it. */
  lemma ByteAdds(e: Env, s: Session, d: Editor, v: Byte)
    requires InPass(e, s, d) && !d.closed && Type(e, d, v).fits
    ensures Adds(e, s, EditByte(e, s, v).session, KeyShows(e, d, v), 0)
  {
    hide Adds;
    hide EditVisible;
    hide TypeVisible;
    hide PlainShows;
    if d.escape == 2 || (d.escape == 1 && (v == 0x5b || v == 0x4f)) {
      AddsNothing(e, s, EditByte(e, s, v).session);
    } else if d.escape == 1 {
      var t, c := s.(escape := 0), d.(escape := 0);
      VisibleAdds(e, t, c, v);
      SameShows(e, d, c, v);
      AddsFrom(e, t, s, EditVisible(e, t, v).session, VisibleShows(e, c, v));
    } else {
      VisibleAdds(e, s, d, v);
    }
  }

  // ---------- the session shows the transcript ----------

  /**
   All output so far, sent or buffered, is the transcript cut piece by piece; it is the whole transcript unless
   cutting was noted, and nothing was cut if everything fits.
   */
  ghost predicate Echoes(e: Env, s: Session, typed: seq<Byte>) {
    && CutOf(Total(s), Shown(e, typed))
    && (!s.truncated && |e.prompt| <= e.outputSize ==> Total(s) == Transcript(e, typed))
    && (Roomy(e, typed) ==> !s.truncated && |e.prompt| <= e.outputSize)
  }

  lemma AddsEchoes(e: Env, s: Session, t: Session, typed: seq<Byte>, v: Byte)
    requires Echoes(e, s, typed) && Adds(e, s, t, KeyShows(e, Typed(e, typed), v), 0)
    requires |s.output| <= Typed(e, typed).echo
    ensures Echoes(e, t, typed + [v])
  {
    hide CutOf;
    hide Flatten;
    hide Shown;
    hide KeyShows;
    hide Typed;
    var pieces := KeyShows(e, Typed(e, typed), v);
    ShownOne(e, typed, v);
    var y := t.output[|s.output|..];
    assert t.output == s.output + y;
    Assoc(Flatten(s.sent), s.output, y);
    assert Total(t) == Total(s) + y;
    CutAppend(Total(s), Shown(e, typed), y, pieces);
    FlattenAppend(Shown(e, typed), pieces);
    assert !t.truncated ==> y == Flatten(pieces);
  }

  /** A byte of a pass. */
  lemma ByteEchoes(e: Env, s: Session, taken: seq<Byte>, v: Byte)
    requires Echoes(e, s, taken) && InPass(e, s, Typed(e, taken)) && !s.closing && Typed(e, taken + [v]).fits
    ensures Echoes(e, EditByte(e, s, v).session, taken + [v])
  {
    hide Echoes;
    hide Adds;
    hide EditByte;
    hide Type;
    hide Typed;
    hide KeyShows;
    TypedOne(e, taken, v);
    ByteAdds(e, s, Typed(e, taken), v);
    AddsEchoes(e, s, EditByte(e, s, v).session, taken, v);
  }

  lemma EchoesSame(e: Env, s: Session, t: Session, typed: seq<Byte>)
    requires Echoes(e, s, typed) && t.output == s.output && t.sent == s.sent && t.truncated == s.truncated
    ensures Echoes(e, t, typed)
  {
  }

  /** A pass: as before, and with its output. */
  lemma {:induction false} PassEchoes(e: Env, s: Session, taken: seq<Byte>, input: seq<Byte>) returns (k: nat)
    requires InPass(e, s, Typed(e, taken)) && !s.closing && Typed(e, taken + input).fits && e.outputSize > 0
    requires Echoes(e, s, taken)
    ensures Passed(e, s, Process(e, s, input), taken, input, k)
    ensures Echoes(e, Process(e, s, input), taken + input[..k])
    decreases input
  {
    hide EditByte;
    hide Type;
    hide Typed;
    hide Echoes;
    if input == [] {
      k := 0;
      assert taken + input[..0] == taken;
      EchoesSame(e, s, Process(e, s, input), taken);
    } else {
      var v := input[0];
      OneTaken(taken, input, 0);
      TypedOne(e, taken, v);
      FitStays(e, taken + [v], input[1..]);
      ByteAlike(e, s, Typed(e, taken), v);
      ByteEchoes(e, s, taken, v);
      ClosingStops(e, s, v);
      var r := EditByte(e, s, v);
      if r.stop {
        k := 1;
        StopsAtOnce(e, s, taken, input);
        EchoesSame(e, r.session, Process(e, s, input), taken + [v]);
      } else {
        var j := PassEchoes(e, r.session, taken + [v], input[1..]);
        k := j + 1;
        OneTaken(taken, input, j);
      }
    }
  }

  // ---------- whole runs ----------

  /** What of `typed` the session has dealt with. */
  function Handled(s: Session, typed: seq<Byte>): seq<Byte> {
    if |s.input| <= |typed| then typed[..|typed| - |s.input|] else []
  }

  ghost predicate LinkEchoes(e: Env, l: Link, typed: seq<Byte>) {
    Echoes(e, l.session, if l.released then typed else Handled(l.session, typed))
  }

  lemma QueueEchoes(e: Env, s: Session, typed: seq<Byte>)
    requires Echoes(e, s, typed)
    ensures Echoes(e, QueueNextChunk(e, s).session, typed) && QueueNextChunk(e, s).session.input == s.input
  {
    SendingMoves(e, s);
  }

  /** Behind the end of the session nothing is shown. */
  lemma EchoesStill(e: Env, s: Session, typed: seq<Byte>, more: seq<Byte>)
    requires Echoes(e, s, typed) && Typed(e, typed).closed
    ensures Echoes(e, s, typed + more)
  {
    hide Shown;
    hide Typed;
    hide CutOf;
    ClosedShows(e, typed, more);
    if Roomy(e, typed + more) {
      RoomyBefore(e, typed, more);
    }
  }

  /** A pass that starts with nothing to send. */
  lemma ProcessEchoes(e: Env, s: Session, typed: seq<Byte>)
    requires Accepting(e) && Behind(e, s, typed) && Typed(e, typed).fits && Echoes(e, s, Handled(s, typed))
    requires s.output == [] && !s.inFlight && !s.closing
    ensures var t := QueueNextChunk(e, Process(e, s, s.input)).session; Echoes(e, t, Handled(t, typed))
  {
    hide Process;
    hide QueueNextChunk;
    hide Typed;
    hide Echoes;
    var n := |typed| - |s.input|;
    var taken := typed[..n];
    assert taken + s.input == typed;
    var k := PassEchoes(e, s, taken, s.input);
    var t := Process(e, s, s.input);
    var done := taken + s.input[..k];
    assert done == typed[..n + k];
    QueueEchoes(e, t, done);
    var u := QueueNextChunk(e, t).session;
    if t.closing {
      EchoesStill(e, u, done, typed[n + k..]);
      assert done + typed[n + k..] == typed && typed[..|typed|] == typed;
    }
  }

  lemma WriteEchoes(e: Env, s: Session, typed: seq<Byte>, data: seq<Byte>)
    requires Accepting(e) && Tracks(e, s, typed) && (s.closing ==> s.inFlight) && |data| + |s.input| <= e.inputSize
    requires Typed(e, typed + data).fits && Echoes(e, s, Handled(s, typed))
    ensures var t := Write(e, s, data).session; Echoes(e, t, Handled(t, typed + data))
  {
    hide Process;
    hide QueueNextChunk;
    hide Typed;
    hide Echoes;
    var all := typed + data;
    var t := s.(input := s.input + data);
    assert t.input == all[|all| - |t.input|..];
    assert all[..|all| - |t.input|] == typed[..|typed| - |s.input|];
    EchoesSame(e, s, t, Handled(s, typed));
    if !t.inFlight && t.output == [] {
      ProcessEchoes(e, t, all);
    } else {
      QueueEchoes(e, t, Handled(t, all));
    }
  }

  lemma AckEchoes(e: Env, s: Session, typed: seq<Byte>)
    requires Accepting(e) && Tracks(e, s, typed) && Typed(e, typed).fits && Echoes(e, s, Handled(s, typed))
    ensures var t := TxReady(e, s).session; Echoes(e, t, Handled(t, typed))
  {
    hide Process;
    hide QueueNextChunk;
    hide Typed;
    hide Echoes;
    var t := s.(inFlight := false);
    EchoesSame(e, s, t, Handled(s, typed));
    if t.output == [] && t.input != [] && !t.closing {
      ProcessEchoes(e, t, typed);
    } else {
      QueueEchoes(e, t, Handled(t, typed));
    }
  }

  /** Hanging up changes no output; a session that is hung up has shown everything. */
  lemma HangUpEchoes(e: Env, l: Link, typed: seq<Byte>)
    requires Echoes(e, l.session, Handled(l.session, typed)) && !l.released
    requires Behind(e, l.session, typed) && l.asked == l.session.closing
    ensures LinkEchoes(e, HangUp(e, l), typed)
  {
    hide Typed;
    hide Echoes;
    if l.session.closing {
      var n := |typed| - |l.session.input|;
      EchoesStill(e, l.session, typed[..n], typed[n..]);
      assert typed[..n] + typed[n..] == typed;
    }
  }

  lemma DeliverEchoes(e: Env, l: Link, typed: seq<Byte>, data: seq<Byte>)
    requires Accepting(e) && LinkTracks(e, l, typed) && Typed(e, typed + data).fits && LinkEchoes(e, l, typed)
    requires l.released || |data| + |l.session.input| <= e.inputSize
    ensures LinkEchoes(e, Deliver(e, l, data), typed + data)
  {
    hide Typed;
    hide Write;
    hide Echoes;
    hide HangUp;
    if l.released {
      EchoesStill(e, l.session, typed, data);
    } else {
      WriteTracks(e, l.session, typed, data);
      WriteEchoes(e, l.session, typed, data);
      var s := Write(e, l.session, data).session;
      HangUpEchoes(e, l.(session := s, asked := s.closing, engaged := s.inFlight), typed + data);
    }
  }

  lemma AcknowledgeEchoes(e: Env, l: Link, typed: seq<Byte>)
    requires Accepting(e) && LinkTracks(e, l, typed) && Typed(e, typed).fits && LinkEchoes(e, l, typed)
    ensures LinkEchoes(e, Acknowledge(e, l), typed)
  {
    hide Typed;
    hide TxReady;
    hide Echoes;
    hide HangUp;
    if !l.released && l.engaged {
      AckTracks(e, l.session, typed);
      AckEchoes(e, l.session, typed);
      var s := TxReady(e, l.session).session;
      HangUpEchoes(e, l.(session := s, asked := s.closing, engaged := s.inFlight), typed);
    }
  }

  lemma OpenEchoes(e: Env)
    ensures LinkEchoes(e, Linked(e), [])
  {
    var s := Opened(e);
    var shown := e.prompt[..Min(|e.prompt|, e.outputSize)];
    assert Total(s) == shown;
    CutOne(shown, e.prompt);
    OnePiece(e.prompt);
    assert |e.prompt| <= e.outputSize ==> shown == e.prompt;
    assert Echoes(e, s, []);
    QueueEchoes(e, s, []);
  }

  lemma {:induction false} RunEchoes(e: Env, events: seq<Event>)
    requires Accepting(e) && Smooth(e, Linked(e), events) && Typed(e, Arrived(events)).fits
    ensures LinkEchoes(e, Run(e, Linked(e), events), Arrived(events))
  {
    hide Deliver;
    hide Acknowledge;
    hide LinkTracks;
    hide LinkEchoes;
    hide Typed;
    hide Linked;
    if events == [] {
      OpenEchoes(e);
    } else {
      var k := |events| - 1;
      var last, before := events[k], Arrived(events[..k]);
      var l := Run(e, Linked(e), events[..k]);
      if last.Packet? {
        FitStays(e, before, last.bytes);
        RunTracks(e, events[..k]);
        RunEchoes(e, events[..k]);
        DeliverEchoes(e, l, before, last.bytes);
      } else {
        assert before + [] == before;
        RunTracks(e, events[..k]);
        RunEchoes(e, events[..k]);
        if last.Ack? {
          AcknowledgeEchoes(e, l, before);
        } else {
          RetryEchoes(e, l, before);
        }
      }
    }
  }

  lemma RetryEchoes(e: Env, l: Link, typed: seq<Byte>)
    requires LinkTracks(e, l, typed) && LinkEchoes(e, l, typed)
    ensures LinkEchoes(e, HangUp(e, l), typed)
  {
    hide Typed;
    hide Echoes;
    if !l.released {
      HangUpEchoes(e, l, typed);
    }
  }

  /**
   In every run in which the router takes every chunk and every line has room for its command, once no input waits:
   all output, sent and buffered, is the transcript of the typed bytes with each piece cut at most, however they were
   cut into packets and acknowledged. If all of it fits the buffer, it is exactly the transcript.
   */
  lemma ShowsTheTranscript(e: Env, events: seq<Event>)
    requires Accepting(e) && Smooth(e, Linked(e), events) && Typed(e, Arrived(events)).fits
    requires Done(Run(e, Linked(e), events))
    ensures var s := Run(e, Linked(e), events).session; var typed := Arrived(events);
            && CutOf(Total(s), Shown(e, typed))
            && (!s.truncated && |e.prompt| <= e.outputSize ==> Total(s) == Transcript(e, typed))
            && (Roomy(e, typed) ==> Total(s) == Transcript(e, typed))
  {
    hide Typed;
    hide Run;
    hide Linked;
    hide Smooth;
    hide CutOf;
    hide Shown;
    hide Roomy;
    hide LinkTracks;
    hide LinkEchoes;
    RunTracks(e, events);
    RunEchoes(e, events);
    DoneEchoes(e, Run(e, Linked(e), events), Arrived(events));
  }

  lemma DoneEchoes(e: Env, l: Link, typed: seq<Byte>)
    requires LinkTracks(e, l, typed) && LinkEchoes(e, l, typed) && Done(l)
    ensures Echoes(e, l.session, typed)
  {
    hide Typed;
    hide Echoes;
    if !l.released {
      if l.session.closing {
        var n := |typed| - |l.session.input|;
        EchoesStill(e, l.session, typed[..n], typed[n..]);
        assert typed[..n] + typed[n..] == typed;
      } else {
        assert typed[..|typed|] == typed;
      }
    }
  }

  // ---------- chunks and overflow ----------

  /** No chunk is empty or longer than the router takes. */
  ghost predicate ChunksFit(e: Env, s: Session) {
    forall k :: 0 <= k < |s.sent| ==> 0 < |s.sent[k]| <= e.maxPayload
  }

  lemma SentKept(e: Env, s: Session, t: Session)
    requires ChunksFit(e, s) && t.sent == s.sent
    ensures ChunksFit(e, t)
  {
  }

  lemma QueueFits(e: Env, s: Session)
    requires ChunksFit(e, s) && e.maxPayload > 0
    ensures ChunksFit(e, QueueNextChunk(e, s).session)
  {
  }

  lemma ActFits(e: Env, l: Link, event: Event)
    requires ChunksFit(e, l.session) && e.maxPayload > 0
    ensures ChunksFit(e, Act(e, l, event).session)
  {
    hide ChunksFit;
    hide Process;
    hide QueueNextChunk;
    var s := l.session;
    if event.Packet? {
      var t := s.(input := s.input + event.bytes);
      ProcessGrows(e, t, t.input);
      SentKept(e, s, t);
      SentKept(e, s, Process(e, t, t.input));
      QueueFits(e, t);
      QueueFits(e, Process(e, t, t.input));
    } else if event.Ack? {
      var t := s.(inFlight := false);
      ProcessGrows(e, t, t.input);
      SentKept(e, s, t);
      SentKept(e, s, Process(e, t, t.input));
      QueueFits(e, t);
      QueueFits(e, Process(e, t, t.input));
    }
  }

  /** In every run, whatever fails: every chunk handed to the router has at least one byte and at most a payload. */
  lemma {:induction false} ChunksAlwaysFit(e: Env, events: seq<Event>)
    requires e.maxPayload > 0
    ensures ChunksFit(e, Run(e, Linked(e), events).session)
  {
    hide ChunksFit;
    hide Act;
    if events == [] {
      assert ChunksFit(e, Opened(e)) by { NoChunks(e, Opened(e)); }
      QueueFits(e, Opened(e));
    } else {
      var k := |events| - 1;
      ChunksAlwaysFit(e, events[..k]);
      ActFits(e, Run(e, Linked(e), events[..k]), events[k]);
    }
  }

  lemma NoChunks(e: Env, s: Session)
    requires s.sent == []
    ensures ChunksFit(e, s)
  {
  }

  /**
   A packet that does not fit behind the input waiting is refused as a whole: none of it is looked at, the chunk on
   its way is given up, and the stream is hung up on, at once if the transport takes the CLSE.
   */
  lemma OverflowHangsUp(e: Env, l: Link, data: seq<Byte>)
    requires !l.released && |data| + |l.session.input| > e.inputSize
    ensures var t := Deliver(e, l, data);
            t.session == l.session && t.asked && !t.engaged && (t.released <==> e.hangUp(l.tries))
  {
  }

  /** Output that waits and is not on its way has made the router ask for a close. */
  predicate NotStalled(l: Link) {
    && (!l.released && l.session.output != [] && !l.session.inFlight ==> l.asked)
    && (l.asked && !l.engaged && !l.released ==> l.tries > 0)
  }

  lemma QueueGoesOn(e: Env, s: Session)
    ensures var r := QueueNextChunk(e, s); r.status == Ok ==> r.session.output == [] || r.session.inFlight
  {
  }

  lemma ActGoesOn(e: Env, l: Link, event: Event)
    requires NotStalled(l)
    ensures NotStalled(Act(e, l, event))
  {
    hide Process;
    hide QueueNextChunk;
    var s := l.session;
    if event.Packet? {
      var t := s.(input := s.input + event.bytes);
      QueueGoesOn(e, t);
      QueueGoesOn(e, Process(e, t, t.input));
    } else if event.Ack? {
      var t := s.(inFlight := false);
      QueueGoesOn(e, t);
      QueueGoesOn(e, Process(e, t, t.input));
    }
  }

  /**
   In every run of a session that could be opened, whatever the router and the transport refuse: output never waits
   in silence. It is on its way, or a close has been asked for; and a close with nothing on its way has been tried.
   */
  lemma {:induction false} NothingStalls(e: Env, events: seq<Event>)
    requires Open(e).status == Ok
    ensures NotStalled(Run(e, Linked(e), events))
  {
    hide Act;
    if events == [] {
      QueueGoesOn(e, Opened(e));
    } else {
      var k := |events| - 1;
      NothingStalls(e, events[..k]);
      ActGoesOn(e, Run(e, Linked(e), events[..k]), events[k]);
    }
  }
}
