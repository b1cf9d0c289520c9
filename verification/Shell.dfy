/**
 The interactive shell service of lib/adb/adb_shell.c as functions on values: a line editor over buffered
 input, an output buffer sent in acknowledged chunks. The commands it executes are compared with those of
 an editor that sees the typed bytes and nothing else.
 */
module Shell {
  import opened Bytes
  import opened Errno

  const ESC: Byte := 0x1b
  const CR: Byte := 0x0d
  const LF: Byte := 0x0a
  const CTRL_C: Byte := 0x03
  const CTRL_D: Byte := 0x04
  const TAB: Byte := 0x09
  const BACKSPACE: Byte := 0x08
  const DELETE: Byte := 0x7f
  const BELL: Byte := 0x07

  const NEWLINE: seq<Byte> := [CR, LF]
  const RUBOUT: seq<Byte> := [BACKSPACE, 0x20, BACKSPACE]
  const INTERRUPT: seq<Byte> := [0x5e, 0x43, CR, LF]
  const TOO_LONG: seq<Byte> :=
    [CR, LF, 0x43, 0x6f, 0x6d, 0x6d, 0x61, 0x6e, 0x64, 0x20, 0x74, 0x6f, 0x6f, 0x20, 0x6c, 0x6f, 0x6e, 0x67]
  const EXIT: seq<Byte> := [0x65, 0x78, 0x69, 0x74]

  /**
   Buffer sizes, the prompt, what the n-th command prints, the router's answer to the n-th chunk, and whether the
   n-th attempt to send CLSE succeeds.
   */
  datatype Env = Env(commandSize: nat, outputSize: nat, inputSize: nat, maxPayload: nat, prompt: seq<Byte>,
                     response: (nat, seq<Byte>) -> seq<Byte>, answer: nat -> Status, hangUp: nat -> bool)

  /** `executed` and `sent` are history: the commands run and the chunks accepted, in order. */
  datatype Session = Session(command: seq<Byte>, escape: nat, sawReturn: bool, discard: bool, closing: bool,
                             input: seq<Byte>, output: seq<Byte>, inFlight: bool, truncated: bool, attempts: nat,
                             executed: seq<seq<Byte>>, sent: seq<seq<Byte>>)

  function Min(a: nat, b: nat): nat { if a < b then a else b }

  // ---------- output ----------

  /** append_output */
  function Append(e: Env, s: Session, data: seq<Byte>): Session {
    var room := if |s.output| < e.outputSize then e.outputSize - |s.output| else 0;
    var count := Min(|data|, room);
    s.(output := s.output + data[..count], truncated := s.truncated || count != |data|)
  }

  datatype Outcome = Outcome(session: Session, status: Status)

  /** queue_next_chunk of an interactive session */
  function QueueNextChunk(e: Env, s: Session): Outcome {
    if s.inFlight || s.output == [] then Outcome(s, Ok)
    else
      var n := Min(|s.output|, e.maxPayload);
      var t := s.(attempts := s.attempts + 1);
      var status := e.answer(s.attempts);
      if status != Ok then Outcome(t, status)
      else Outcome(t.(output := s.output[n..], inFlight := true, sent := s.sent + [s.output[..n]]), Ok)
  }

  // ---------- lines ----------

  /** Whether the line is skipped because its output would have no room. */
  predicate NoRoom(e: Env, used: nat, promptLen: nat) {
    e.outputSize <= used + promptLen + 1
  }

  /** webos_shell_execute into what is left of the output buffer */
  function Perform(e: Env, s: Session, promptLen: nat): Session
    requires !NoRoom(e, |s.output|, promptLen)
  {
    var text := e.response(|s.executed|, s.command);
    var room := e.outputSize - |s.output| - promptLen;
    s.(output := s.output + text[..Min(|text|, room)], truncated := s.truncated || |text| > room,
       executed := s.executed + [s.command])
  }

  /** The command of a line is executed if there is one and room for its output. */
  function RunCommand(e: Env, s: Session, promptLen: nat): Session {
    if s.command == [] then s
    else if NoRoom(e, |s.output|, promptLen) then s.(truncated := true)
    else Perform(e, s, promptLen)
  }

  /** execute_interactive_line */
  function ExecuteLine(e: Env, s: Session, addPrompt: bool): Session {
    var t := Append(e, s, NEWLINE);
    if t.command == EXIT then t.(command := [], closing := true)
    else
      var v := RunCommand(e, t, if addPrompt then |e.prompt| else 0).(command := []);
      if addPrompt then Append(e, v, e.prompt) else v
  }

  // ---------- bytes ----------

  /** A byte has been dealt with; `stop` ends the pass over the input. */
  datatype Edited = Edited(session: Session, stop: bool)

  predicate LineEnd(v: Byte) { v == CR || v == LF }

  /** A byte outside an escape sequence and outside a discarded line. */
  function EditPlain(e: Env, s: Session, v: Byte): Edited {
    if LineEnd(v) then
      var t := ExecuteLine(e, s, true);
      Edited(t, t.closing || t.output != [])
    else if v == CTRL_D then
      Edited((if s.command != [] then ExecuteLine(e, s, false) else s).(closing := true), true)
    else if v == CTRL_C then Edited(Append(e, s.(command := []), INTERRUPT + e.prompt), true)
    else if v == BACKSPACE || v == DELETE then
      Edited(if s.command == [] then s else Append(e, s.(command := s.command[..|s.command| - 1]), RUBOUT), false)
    else if v == TAB then Edited(Append(e, s, [BELL]), false)
    else if v < 0x20 || v > 0x7e then Edited(s, false)
    else if |s.command| + 1 >= e.commandSize then Edited(Append(e, s.(command := [], discard := true), TOO_LONG), true)
    else Edited(Append(e, s.(command := s.command + [v]), [v]), false)
  }

  function EditVisible(e: Env, s: Session, v: Byte): Edited {
    if v == ESC then Edited(s.(escape := 1), false)
    else if v == LF && s.sawReturn then Edited(s.(sawReturn := false), false)
    else
      var t := s.(sawReturn := v == CR);
      if !t.discard then EditPlain(e, t, v)
      else if LineEnd(v) then Edited(Append(e, t.(discard := false), NEWLINE + e.prompt), true)
      else Edited(t, false)
  }

  /** The body of the loop of process_interactive_input. */
  function EditByte(e: Env, s: Session, v: Byte): Edited {
    if s.escape == 1 then
      if v == 0x5b || v == 0x4f then Edited(s.(escape := 2), false) else EditVisible(e, s.(escape := 0), v)
    else if s.escape == 2 then Edited(if 0x40 <= v <= 0x7e then s.(escape := 0) else s, false)
    else EditVisible(e, s, v)
  }

  /** process_interactive_input on the bytes `input`; what is left of them stays in the session. */
  function Process(e: Env, s: Session, input: seq<Byte>): Session
    decreases input
  {
    if input == [] then s.(input := [])
    else
      var r := EditByte(e, s, input[0]);
      if !r.stop then Process(e, r.session, input[1..])
      else r.session.(input := if r.session.closing then [] else input[1..])
  }

  // ---------- events ----------

  /** adb_shell_write */
  function Write(e: Env, s: Session, data: seq<Byte>): Outcome {
    if |data| + |s.input| > e.inputSize then Outcome(s, ENOSPC)
    else
      var t := s.(input := s.input + data);
      QueueNextChunk(e, if !t.inFlight && t.output == [] then Process(e, t, t.input) else t)
  }

  /** adb_shell_tx_ready; an error asks the router to close the stream. */
  function TxReady(e: Env, s: Session): Outcome {
    var t := s.(inFlight := false);
    QueueNextChunk(e, if t.output == [] && t.input != [] && !t.closing then Process(e, t, t.input) else t)
  }

  /** adb_shell_open with an empty suffix, before the prompt is queued */
  function Opened(e: Env): Session {
    Session([], 0, false, false, false, [], e.prompt[..Min(|e.prompt|, e.outputSize)], false, false, 0, [], [])
  }

  /** adb_shell_open of an interactive session */
  function Open(e: Env): Outcome { QueueNextChunk(e, Opened(e)) }

  // ---------- the session behind the router ----------

  /**
   A session and what the router keeps for its stream: whether a close is pending, whether a chunk is pending or
   unacknowledged, whether the stream has been released, and how often CLSE was attempted.
   */
  datatype Link = Link(session: Session, asked: bool, engaged: bool, released: bool, tries: nat)

  /** The end of flush_stream: a pending close goes out once no chunk is on its way, and releases the stream. */
  function HangUp(e: Env, l: Link): Link {
    if l.asked && !l.engaged && !l.released then l.(released := e.hangUp(l.tries), tries := l.tries + 1) else l
  }

  /** handle_write: a released stream gets nothing; a failing callback drops the chunk and asks for a close. */
  function Deliver(e: Env, l: Link, data: seq<Byte>): Link {
    if l.released then l
    else
      var r := Write(e, l.session, data);
      HangUp(e, if r.status != Ok then l.(session := r.session, asked := true, engaged := false)
                else l.(session := r.session, asked := l.asked || r.session.closing,
                        engaged := l.engaged || (r.session.inFlight && !l.session.inFlight)))
  }

  /** handle_ready: only an acknowledgement of a chunk on its way counts. */
  function Acknowledge(e: Env, l: Link): Link {
    if l.released || !l.engaged then l
    else
      var r := TxReady(e, l.session);
      HangUp(e, l.(session := r.session, asked := l.asked || r.session.closing || r.status != Ok,
                   engaged := r.session.inFlight))
  }

  function Linked(e: Env): Link {
    var s := Open(e).session;
    Link(s, false, s.inFlight, false, 0)
  }
}
