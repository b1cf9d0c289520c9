/**
 The interactive shell service in the form of lib/adb/adb_shell.c: command, input and output buffers are
 arrays with their lengths, edited in place by the loop over the input. Every method is proved to do what
 the functions of Shell say.
 */
module ShellObject {
  import opened Bytes
  import opened Errno
  import opened Shell

  /** The flags of the context are the record `c`; its three buffers are arrays beside it. */
  class ShellSession {
    const e: Env
    const command: array<Byte>
    const input: array<Byte>
    const output: array<Byte>
    var commandLen: nat
    var inputLen: nat
    var outputLen: nat
    var c: Session

    ghost predicate Valid()
      reads this
    {
      && command != input && command != output && input != output
      && command.Length == e.commandSize && input.Length == e.inputSize && output.Length == e.outputSize
      && commandLen < command.Length && inputLen <= input.Length && outputLen <= output.Length
      && c.command == [] && c.input == [] && c.output == []
    }

    ghost function View(): Session
      requires Valid()
      reads this, command, input, output
    {
      c.(command := command[..commandLen], input := input[..inputLen], output := output[..outputLen])
    }

    /** adb_shell_open of an interactive session, up to queueing the prompt */
    constructor (e: Env)
      requires e.commandSize > 0
      ensures Valid() && this.e == e && View() == Opened(e) && fresh(command) && fresh(input) && fresh(output)
    {
      this.e := e;
      command, input := new Byte[e.commandSize](_ => 0), new Byte[e.inputSize](_ => 0);
      output := new Byte[e.outputSize](_ => 0);
      commandLen, inputLen, outputLen := 0, 0, 0;
      c := Session([], 0, false, false, false, [], [], false, false, 0, [], []);
      new;
      outputLen := Min(|e.prompt|, e.outputSize);
      Copy(output, 0, e.prompt[..outputLen]);
      assert output[..outputLen] == e.prompt[..outputLen];
    }

    /** append_output */
    method AppendOutput(data: seq<Byte>)
      requires Valid()
      modifies this`c, this`outputLen, output
      ensures Valid() && View() == Append(e, old(View()), data) && c.closing == old(c.closing)
    {
      ghost var s := View();
      var count := Min(|data|, output.Length - outputLen);
      Copy(output, outputLen, data[..count]);
      outputLen := outputLen + count;
      c := c.(truncated := c.truncated || count != |data|);
      assert output[..outputLen] == s.output + data[..count];
    }

    /** The part of execute_interactive_line that runs the command */
    method PerformLine(promptLen: nat)
      requires Valid() && !NoRoom(e, outputLen, promptLen)
      modifies this`c, this`outputLen, output
      ensures Valid() && View() == Perform(e, old(View()), promptLen)
    {
      ghost var s := View();
      var text := e.response(|c.executed|, command[..commandLen]);
      var room := output.Length - outputLen - promptLen;
      var count := Min(|text|, room);
      Copy(output, outputLen, text[..count]);
      outputLen := outputLen + count;
      c := c.(truncated := c.truncated || |text| > room, executed := c.executed + [command[..commandLen]]);
      assert output[..outputLen] == s.output + text[..count];
    }

    /** The command of the line, if there is one and room for its output */
    method PerformCommand(promptLen: nat)
      requires Valid()
      modifies this`c, this`outputLen, output
      ensures Valid() && commandLen == old(commandLen)
      ensures View() == RunCommand(e, old(View()), promptLen)
    {
      hide Perform;
      if commandLen != 0 {
        if output.Length <= outputLen + promptLen + 1 {
          c := c.(truncated := true);
        } else {
          PerformLine(promptLen);
        }
      }
    }

    /** execute_interactive_line */
    method RunLine(addPrompt: bool)
      requires Valid()
      modifies this`c, this`commandLen, this`outputLen, output, command
      ensures Valid() && View() == ExecuteLine(e, old(View()), addPrompt)
    {
      hide Append;
      hide RunCommand;
      AppendOutput(NEWLINE);
      ghost var t := View();
      command[commandLen] := 0;
      assert View() == t;
      if command[..commandLen] == EXIT {
        commandLen := 0;
        c := c.(closing := true);
        assert View() == t.(command := [], closing := true);
        return;
      }
      PerformCommand(if addPrompt then |e.prompt| else 0);
      ghost var u := View();
      commandLen := 0;
      assert View() == u.(command := []);
      if addPrompt {
        AppendOutput(e.prompt);
      }
    }

    /** A byte outside an escape sequence and outside a discarded line */
    method EditKey(v: Byte) returns (stop: bool)
      requires Valid()
      modifies this`c, this`commandLen, this`outputLen, output, command
      ensures Valid() && Edited(View(), stop) == EditPlain(e, old(View()), v)
    {
      hide Append;
      hide ExecuteLine;
      ghost var s := View();
      if LineEnd(v) {
        RunLine(true);
        return c.closing || outputLen != 0;
      }
      if v == CTRL_D {
        if commandLen != 0 {
          RunLine(false);
        }
        c := c.(closing := true);
        return true;
      }
      if v == CTRL_C || v == BACKSPACE || v == DELETE {
        stop := EditBack(v);
        return;
      }
      stop := EditCharacter(v);
    }

    /** A byte that takes back the line or its last character */
    method EditBack(v: Byte) returns (stop: bool)
      requires Valid() && (v == CTRL_C || v == BACKSPACE || v == DELETE)
      modifies this`c, this`commandLen, this`outputLen, output
      ensures Valid() && Edited(View(), stop) == EditPlain(e, old(View()), v)
    {
      hide Append;
      hide ExecuteLine;
      ghost var s := View();
      if v == CTRL_C {
        commandLen := 0;
        assert View() == s.(command := []);
        AppendOutput(INTERRUPT + e.prompt);
        return true;
      }
      if commandLen != 0 {
        commandLen := commandLen - 1;
        assert View() == s.(command := s.command[..|s.command| - 1]);
        AppendOutput(RUBOUT);
      }
      return false;
    }

    /** A byte that is typed into the line, or makes it too long */
    method EditCharacter(v: Byte) returns (stop: bool)
      requires Valid() && !LineEnd(v) && v != CTRL_D && v != CTRL_C && v != BACKSPACE && v != DELETE
      modifies this`c, this`commandLen, this`outputLen, output, command
      ensures Valid() && Edited(View(), stop) == EditPlain(e, old(View()), v)
    {
      hide Append;
      hide ExecuteLine;
      ghost var s := View();
      if v == TAB {
        AppendOutput([BELL]);
        return false;
      }
      if v < 0x20 || v > 0x7e {
        return false;
      }
      if commandLen + 1 >= command.Length {
        commandLen := 0;
        c := c.(discard := true);
        assert View() == s.(command := [], discard := true);
        AppendOutput(TOO_LONG);
        return true;
      }
      command[commandLen] := v;
      commandLen := commandLen + 1;
      assert command[..commandLen] == s.command + [v];
      assert View() == s.(command := s.command + [v]);
      AppendOutput([v]);
      return false;
    }

    /** A byte of a line that was too long */
    method EditDiscarded(v: Byte) returns (stop: bool)
      requires Valid()
      modifies this`c, this`outputLen, output
      ensures Valid() && stop == LineEnd(v)
      ensures View() == if stop then Append(e, old(View()).(discard := false), NEWLINE + e.prompt) else old(View())
    {
      hide Append;
      if !LineEnd(v) {
        return false;
      }
      ghost var s := View();
      c := c.(discard := false);
      assert View() == s.(discard := false);
      AppendOutput(NEWLINE + e.prompt);
      return true;
    }

    /** The loop body of process_interactive_input behind the escape sequences */
    method EditSeen(v: Byte) returns (stop: bool)
      requires Valid()
      modifies this`c, this`commandLen, this`outputLen, output, command
      ensures Valid() && Edited(View(), stop) == EditVisible(e, old(View()), v)
    {
      hide Append;
      hide EditPlain;
      ghost var s := View();
      if v == ESC {
        c := c.(escape := 1);
        return false;
      }
      if v == LF && c.sawReturn {
        c := c.(sawReturn := false);
        return false;
      }
      c := c.(sawReturn := v == CR);
      assert View() == s.(sawReturn := v == CR);
      if c.discard {
        stop := EditDiscarded(v);
        return;
      }
      stop := EditKey(v);
    }

    /** The loop body of process_interactive_input */
    method Edit(v: Byte) returns (stop: bool)
      requires Valid()
      modifies this`c, this`commandLen, this`outputLen, output, command
      ensures Valid() && Edited(View(), stop) == EditByte(e, old(View()), v)
    {
      hide EditVisible;
      ghost var s := View();
      if c.escape == 1 {
        if v == 0x5b || v == 0x4f {
          c := c.(escape := 2);
          return false;
        }
        c := c.(escape := 0);
        assert View() == s.(escape := 0);
      } else if c.escape == 2 {
        if 0x40 <= v <= 0x7e {
          c := c.(escape := 0);
        }
        return false;
      }
      stop := EditSeen(v);
    }

    /** process_interactive_input */
    method ProcessInput()
      requires Valid()
      modifies this`c, this`commandLen, this`outputLen, this`inputLen, output, command, input
      ensures Valid() && View() == Process(e, old(View()), old(View()).input)
    {
      hide EditByte;
      ghost var all := View().input;
      ghost var goal := Process(e, View(), all);
      var consumed, stop := 0, false;
      assert all[0..] == all;
      while consumed < inputLen && !stop
        invariant Valid() && 0 <= consumed <= inputLen == |all| && input[..inputLen] == all
        invariant goal == if stop then View().(input := if c.closing then [] else all[consumed..])
                          else Process(e, View(), all[consumed..])
        decreases inputLen - consumed
      {
        assert input[consumed] == all[consumed] && all[consumed..][1..] == all[consumed + 1..];
        var v := input[consumed];
        consumed := consumed + 1;
        stop := Edit(v);
      }
      ghost var s := View();
      var rest := input[consumed..inputLen];
      assert rest == all[consumed..];
      Copy(input, 0, rest);
      inputLen := inputLen - consumed;
      assert input[..inputLen] == rest;
      if c.closing {
        inputLen := 0;
      }
    }

    /** queue_next_chunk of an interactive session */
    method QueueChunk() returns (status: Status)
      requires Valid()
      modifies this`c, this`outputLen, output
      ensures Valid() && Outcome(View(), status) == QueueNextChunk(e, old(View()))
    {
      if c.inFlight || outputLen == 0 {
        return Ok;
      }
      ghost var s := View();
      var n := Min(outputLen, e.maxPayload);
      status := e.answer(c.attempts);
      c := c.(attempts := c.attempts + 1);
      if status == Ok {
        var chunk, rest := output[..n], output[n..outputLen];
        assert chunk == s.output[..n] && rest == s.output[n..];
        outputLen := outputLen - n;
        Copy(output, 0, rest);
        assert output[..outputLen] == rest;
        c := c.(inFlight := true, sent := c.sent + [chunk]);
      }
    }

    /** adb_shell_write */
    method Receive(data: seq<Byte>) returns (status: Status)
      requires Valid()
      modifies this`c, this`commandLen, this`outputLen, this`inputLen, output, command, input
      ensures Valid() && Outcome(View(), status) == Write(e, old(View()), data)
    {
      hide Process;
      hide QueueNextChunk;
      if |data| > input.Length - inputLen {
        return ENOSPC;
      }
      ghost var s := View();
      Copy(input, inputLen, data);
      inputLen := inputLen + |data|;
      assert input[..inputLen] == s.input + data;
      assert View() == s.(input := s.input + data);
      if !c.inFlight && outputLen == 0 {
        ProcessInput();
      }
      status := QueueChunk();
    }

    /** adb_shell_tx_ready; the router is asked to close the stream exactly when the next chunk is refused. */
    method Acknowledged() returns (askClose: bool)
      requires Valid()
      modifies this`c, this`commandLen, this`outputLen, this`inputLen, output, command, input
      ensures Valid() && View() == TxReady(e, old(View())).session
      ensures askClose <==> TxReady(e, old(View())).status != Ok
    {
      hide Process;
      hide QueueNextChunk;
      ghost var s := View();
      c := c.(inFlight := false);
      assert View() == s.(inFlight := false);
      if outputLen == 0 && inputLen != 0 && !c.closing {
        ProcessInput();
      }
      var status := QueueChunk();
      askClose := status != Ok;
    }
  }
}
