/**
 The string escaper and reader of app/src/utils/json/json.c: writing into and reading from buffers of any
 size, and how far reading undoes escaping (section 7 of RFC 8259).
 */
module Json {
  import opened Bytes
  import opened Errno
  import opened Text

  // ---------- escaping ----------

  /** The escape of one character. */
  function Escape(c: char): (s: string)
    ensures s != ""
  {
    if c == '\\' || c == '"' then ['\\', c]
    else if c == '\n' then "\\n"
    else if c == '\r' then "\\r"
    else if c == '\t' then "\\t"
    else if c < ' ' then "\\u" + Hex(c as int, 4)
    else [c]
  }

  function EscapeAll(src: string): string {
    if src == "" then "" else Escape(src[0]) + EscapeAll(src[1..])
  }

  /** A character that is written with snprintk, which puts a terminator behind it. */
  predicate Numbered(c: char) { c < ' ' && c != '\n' && c != '\r' && c != '\t' }

  /** The text in the buffer, and whether a terminator follows it. */
  datatype Filled = Filled(text: string, terminated: bool)

  /**
   What append_json_string leaves in a buffer of `len` when `pos` is used already; `nul` tells whether a
   terminator stands at `pos`.
   */
  function Fill(src: string, pos: nat, len: nat, nul: bool): Filled
    decreases src
  {
    if src == "" || pos + 1 >= len then Filled("", nul || pos < len)
    else
      var x := Escape(src[0]);
      if |x| > 1 && pos + |x| >= len then Filled("", nul)
      else
        var rest := Fill(src[1..], pos + |x|, len, Numbered(src[0]));
        Filled(x + rest.text, rest.terminated)
  }

  /** `done` is written, the rest of the buffer is as it was. */
  predicate WrittenTo(before: seq<char>, now: seq<char>, done: string) {
    |done| <= |before| == |now| && now == Overlay(before, 0, done)
  }

  function Ended(text: string, nul: bool): string { if nul then text + "\0" else text }

  lemma FillStep(src: string, i: nat, pos: nat, len: nat, nul: bool)
    requires i < |src|
    ensures var x := Escape(src[i]);
            Fill(src[i..], pos, len, nul) ==
            if pos + 1 >= len then Filled("", nul || pos < len)
            else if |x| > 1 && pos + |x| >= len then Filled("", nul)
            else
              var rest := Fill(src[i + 1..], pos + |x|, len, Numbered(src[i]));
              Filled(x + rest.text, rest.terminated)
  {
    assert src[i..][1..] == src[i + 1..];
  }

  /** Writing on replaces a terminator that was there. */
  lemma WriteMore(before: seq<char>, now: seq<char>, done: string, nul: bool, x: string)
    requires WrittenTo(before, now, Ended(done, nul)) && x != "" && |done| + |x| <= |before|
    ensures WrittenTo(before, Overlay(now, |done|, x), done + x)
  {
  }

  /** One escape, with the terminator that snprintk adds. */
  method WriteEscape(dst: array<char>, pos: nat, c: char, ghost before: seq<char>, ghost done: string, ghost nul: bool)
    requires pos == |done| && pos + |Escape(c)| < dst.Length && WrittenTo(before, dst[..], Ended(done, nul))
    modifies dst
    ensures WrittenTo(before, dst[..], Ended(done + Escape(c), Numbered(c)))
  {
    hide WrittenTo;
    var x := Escape(c);
    LengthKept(before, dst[..], Ended(done, nul));
    WriteMore(before, dst[..], done, nul, x);
    Copy(dst, pos, x);
    if Numbered(c) {
      WriteMore(before, dst[..], done + x, false, "\0");
      Copy(dst, pos + |x|, "\0");
    }
  }

  lemma LengthKept(before: seq<char>, now: seq<char>, done: string)
    requires WrittenTo(before, now, done)
    ensures |now| == |before|
  {
  }

  /**
   append_json_string. `overrun` tells whether the code stores a byte outside the buffer; it does so exactly for
   the empty buffer.
   */
  method AppendJsonString(dst: array<char>, src: string) returns (pos: nat, overrun: bool)
    modifies dst
    ensures overrun <==> dst.Length == 0
    ensures var f := Fill(src, 0, dst.Length, false);
            pos == |f.text| && WrittenTo(old(dst[..]), dst[..], Ended(f.text, f.terminated))
    ensures dst.Length > 0 ==> pos < dst.Length
  {
    hide Escape;
    hide WrittenTo;
    hide Numbered;
    ghost var before := dst[..];
    ghost var goal := Fill(src, 0, dst.Length, false);
    ghost var done, nul := "", false;
    pos, overrun := 0, false;
    var i := 0;
    assert src[0..] == src && "" + goal.text == goal.text;
    WroteNothing(before);
    while i < |src| && pos + 1 < dst.Length
      invariant 0 <= i <= |src| && pos == |done| && (dst.Length > 0 ==> pos < dst.Length)
      invariant WrittenTo(before, dst[..], Ended(done, nul))
      invariant var f := Fill(src[i..], pos, dst.Length, nul); goal == Filled(done + f.text, f.terminated)
    {
      FillStep(src, i, pos, dst.Length, nul);
      var x := Escape(src[i]);
      if |x| > 1 && pos + |x| >= dst.Length {
        assert done + "" == done;
        return;
      }
      Assoc(done, x, Fill(src[i + 1..], pos + |x|, dst.Length, Numbered(src[i])).text);
      WriteEscape(dst, pos, src[i], before, done, nul);
      done, nul := done + x, Numbered(src[i]);
      pos := pos + |x|;
      i := i + 1;
    }
    assert done + "" == done;
    if pos < dst.Length {
      LengthKept(before, dst[..], Ended(done, nul));
      WriteMore(before, dst[..], done, nul, "\0");
      Copy(dst, pos, "\0");
    } else {
      overrun := true;
    }
  }

  lemma WroteNothing(before: seq<char>)
    ensures WrittenTo(before, before, "")
  {
  }

  /** A buffer that is large enough gets all of it. */
  lemma {:induction false} FillsAll(src: string, pos: nat, len: nat, nul: bool)
    requires pos + |EscapeAll(src)| < len
    ensures Fill(src, pos, len, nul) == Filled(EscapeAll(src), true)
    decreases src
  {
    hide Escape;
    if src != "" {
      FillsAll(src[1..], pos + |Escape(src[0])|, len, Numbered(src[0]));
    }
  }

  /**
   Any buffer gets the escape of a prefix. The terminator is missing exactly when the next escape does not fit
   and the last one was not written with snprintk.
   */
  lemma {:induction false} FillsPrefix(src: string, pos: nat, len: nat, nul: bool) returns (n: nat)
    requires pos < len
    ensures n <= |src| && Fill(src, pos, len, nul).text == EscapeAll(src[..n])
    ensures var used := pos + |EscapeAll(src[..n])|;
            && (n < |src| ==> used + |Escape(src[n])| >= len || used + 1 >= len)
            && (!Fill(src, pos, len, nul).terminated <==>
                n < |src| && used + 1 < len && !(if n == 0 then nul else Numbered(src[n - 1])))
    decreases src
  {
    hide Escape;
    hide Numbered;
    if src == "" || pos + 1 >= len {
      n := 0;
      assert src[..0] == "";
    } else {
      var x := Escape(src[0]);
      if |x| > 1 && pos + |x| >= len {
        n := 0;
        assert src[..0] == "";
      } else {
        var m := FillsPrefix(src[1..], pos + |x|, len, Numbered(src[0]));
        n := m + 1;
        assert src[..n][1..] == src[1..][..m] && src[..n][0] == src[0];
        assert m > 0 ==> src[1..][m - 1] == src[n - 1];
      }
    }
  }

  /** A quote in a buffer of two is dropped and leaves the buffer without a terminator. */
  lemma UnterminatedExample()
    ensures Fill("\"", 0, 2, false) == Filled("", false)
  {
  }

  /** Behind a numeric escape the quote that does not fit leaves the buffer terminated. */
  lemma TerminatedExample()
    ensures Fill([1 as char, '"'], 0, 8, false) == Filled("\\u0001", true)
  {
    var src := [1 as char, '"'];
    assert src[1..] == ['"'];
    assert Hex(1, 4) == "0001";
    assert Escape(src[0]) == "\\u0001" && Numbered(src[0]);
    assert Fill(['"'], 6, 8, true) == Filled("", true);
  }

  // ---------- what escaped text may contain ----------

  predicate HexChar(c: char) { '0' <= c <= '9' || 'a' <= c <= 'f' || 'A' <= c <= 'F' }

  /** The inside of a string: no quote or control character but as part of an escape. */
  predicate StringBody(s: string)
    decreases |s|
  {
    if s == "" then true
    else if s[0] == '\\' then
      |s| >= 2 &&
      if s[1] == 'u' then
        |s| >= 6 && HexChar(s[2]) && HexChar(s[3]) && HexChar(s[4]) && HexChar(s[5]) && StringBody(s[6..])
      else s[1] in "\"\\/bfnrt" && StringBody(s[2..])
    else s[0] != '"' && s[0] >= ' ' && StringBody(s[1..])
  }

  lemma HexDigitIsHex(d: nat)
    requires d < 16
    ensures HexChar(HexDigit(d))
  {
  }

  lemma {:induction false} HexIsHex(n: nat, digits: nat, i: nat)
    requires i < digits
    ensures HexChar(Hex(n, digits)[i])
  {
    HexDigitIsHex(n % 16);
    if i < digits - 1 {
      HexIsHex(n / 16, digits - 1, i);
    }
  }

  lemma EscapeIsBody(c: char, rest: string)
    requires StringBody(rest)
    ensures StringBody(Escape(c) + rest)
  {
    var s := Escape(c) + rest;
    if c == '\\' || c == '"' || c == '\n' || c == '\r' || c == '\t' {
      assert s[2..] == rest;
    } else if c < ' ' {
      var h := Hex(c as int, 4);
      HexIsHex(c as int, 4, 0);
      HexIsHex(c as int, 4, 1);
      HexIsHex(c as int, 4, 2);
      HexIsHex(c as int, 4, 3);
      assert s[2] == h[0] && s[3] == h[1] && s[4] == h[2] && s[5] == h[3] && s[6..] == rest;
    } else {
      assert s[1..] == rest;
    }
  }

  /** Escaped text is always the inside of a JSON string. */
  lemma {:induction false} EscapedIsBody(src: string)
    ensures StringBody(EscapeAll(src))
  {
    if src != "" {
      EscapedIsBody(src[1..]);
      EscapeIsBody(src[0], EscapeAll(src[1..]));
    }
  }

  // ---------- reading ----------

  /** strstr: the first position, or -1. */
  function Find(s: string, x: string): (k: int)
    ensures -1 <= k && (k >= 0 ==> k + |x| <= |s| && s[k..k + |x|] == x)
  {
    if StartsWith(s, x) then 0
    else if s == "" then -1
    else
      var k := Find(s[1..], x);
      if k < 0 then -1 else assert s[k + 1..k + 1 + |x|] == s[1..][k..k + |x|]; k + 1
  }

  predicate Blank(c: char) { c == ' ' || c == '\t' || c == '\r' || c == '\n' }

  function SkipBlanks(s: string): (r: string)
    ensures |r| <= |s|
  {
    if s != "" && Blank(s[0]) then SkipBlanks(s[1..]) else s
  }

  datatype Got = Got(status: Status, text: string)

  /** What stands for the character behind a backslash. */
  function Unescape(c: char): char {
    if c == 'n' then '\n' else if c == 'r' then '\r' else if c == 't' then '\t' else c
  }

  function Prepend(c: char, g: Got): Got { Got(g.status, [c] + g.text) }

  /** The string up to its closing quote, into a buffer of `len` of which `used` is used; `text` is what was stored. */
  function Body(s: string, used: nat, len: nat): Got
    decreases |s|
  {
    if s == "" then Got(EINVAL, "")
    else if s[0] == '"' then Got(Ok, "")
    else if used + 1 >= len then Got(ENOMEM, "")
    else if s[0] != '\\' then Prepend(s[0], Body(s[1..], used + 1, len))
    else if |s| == 1 then Got(EINVAL, "")
    else Prepend(Unescape(s[1]), Body(s[2..], used + 1, len))
  }

  /** The text behind the key, the colon and the opening quote. */
  function Opening(json: string, pattern: string): Got {
    var k := Find(json, pattern);
    if k < 0 then Got(ENOENT, "")
    else
      var p := SkipBlanks(json[k + |pattern|..]);
      if p == "" || p[0] != ':' then Got(EINVAL, "")
      else
        var q := SkipBlanks(p[1..]);
        if q == "" || q[0] != '"' then Got(EINVAL, "") else Got(Ok, q[1..])
  }

  const PATTERN_SIZE := 32

  function Quoted(key: string): string { "\"" + key + "\"" }

  /** json_get_string */
  function GetString(json: string, key: string, len: nat): Got {
    if |Quoted(key)| >= PATTERN_SIZE then Got(EINVAL, "")
    else
      var o := Opening(json, Quoted(key));
      if o.status != Ok then Got(o.status, "") else Body(o.text, 0, len)
  }

  method Skip(s: string, from: nat) returns (p: nat)
    requires from <= |s|
    ensures from <= p <= |s| && s[p..] == SkipBlanks(s[from..])
  {
    p := from;
    while p < |s| && Blank(s[p])
      invariant from <= p <= |s| && SkipBlanks(s[p..]) == SkipBlanks(s[from..])
    {
      assert s[p..][1..] == s[p + 1..];
      p := p + 1;
    }
  }

  /** The part of json_get_string that finds where the value starts */
  method FindOpening(json: string, pattern: string) returns (status: Status, at: nat)
    ensures at <= |json| && Opening(json, pattern) == Got(status, if status == Ok then json[at..] else "")
  {
    hide SkipBlanks;
    hide Find;
    at := 0;
    var k := Find(json, pattern);
    if k < 0 {
      return ENOENT, 0;
    }
    var p := Skip(json, k + |pattern|);
    if p == |json| || json[p] != ':' {
      return EINVAL, 0;
    }
    assert json[p..][1..] == json[p + 1..];
    var q := Skip(json, p + 1);
    if q == |json| || json[q] != '"' {
      return EINVAL, 0;
    }
    assert json[q..][1..] == json[q + 1..];
    return Ok, q + 1;
  }

  lemma BodyStep(s: string, p: nat, used: nat, len: nat)
    requires p < |s| && s[p] != '"' && used + 1 < len
    ensures Body(s[p..], used, len) ==
            if s[p] != '\\' then Prepend(s[p], Body(s[p + 1..], used + 1, len))
            else if p + 1 == |s| then Got(EINVAL, "")
            else Prepend(Unescape(s[p + 1]), Body(s[p + 2..], used + 1, len))
  {
    assert s[p..][1..] == s[p + 1..];
    assert p + 1 < |s| ==> s[p..][2..] == s[p + 2..];
  }

  lemma BodyStops(s: string, p: nat, used: nat, len: nat)
    requires p <= |s| && (p == |s| || s[p] == '"' || used + 1 >= len)
    ensures Body(s[p..], used, len) == Got(if p == |s| then EINVAL else if s[p] == '"' then Ok else ENOMEM, "")
  {
  }

  /** json_get_string from the opening quote on; `overrun` as for the escaper. */
  method ReadBody(json: string, from: nat, out: array<char>) returns (status: Status, overrun: bool)
    requires from <= |json|
    modifies out
    ensures var g := Body(json[from..], 0, out.Length);
            && status == g.status && (overrun <==> out.Length == 0 && status == Ok)
            && WrittenTo(old(out[..]), out[..], Ended(g.text, status == Ok && !overrun))
  {
    hide WrittenTo;
    hide Body;
    hide Unescape;
    ghost var before := out[..];
    ghost var goal := Body(json[from..], 0, out.Length);
    ghost var done := "";
    var p, i := from, 0;
    overrun := false;
    assert "" + goal.text == goal.text;
    WroteNothing(before);
    while p < |json| && json[p] != '"'
      invariant from <= p <= |json| && i == |done|
      invariant (out.Length > 0 ==> i < out.Length) && (out.Length == 0 ==> i == 0)
      invariant WrittenTo(before, out[..], Ended(done, false))
      invariant var g := Body(json[p..], i, out.Length); goal == Got(g.status, done + g.text)
      decreases |json| - p
    {
      if i + 1 >= out.Length {
        BodyStops(json, p, i, out.Length);
        assert done + "" == done;
        return ENOMEM, false;
      }
      BodyStep(json, p, i, out.Length);
      var c := json[p];
      if c == '\\' {
        p := p + 1;
        if p == |json| {
          assert done + "" == done;
          return EINVAL, false;
        }
        c := Unescape(json[p]);
      }
      LengthKept(before, out[..], done);
      WriteMore(before, out[..], done, false, [c]);
      Copy(out, i, [c]);
      Assoc(done, [c], Body(json[p + 1..], i + 1, out.Length).text);
      done := done + [c];
      i := i + 1;
      p := p + 1;
    }
    BodyStops(json, p, i, out.Length);
    assert done + "" == done;
    if p == |json| {
      return EINVAL, false;
    }
    if i < out.Length {
      LengthKept(before, out[..], done);
      WriteMore(before, out[..], done, false, "\0");
      Copy(out, i, "\0");
    } else {
      overrun := true;
    }
    return Ok, overrun;
  }

  /**
   json_get_string. It stores a byte outside the buffer exactly when the buffer is empty and the value found is
   the empty string.
   */
  method JsonGetString(json: string, key: string, out: array<char>) returns (status: Status, overrun: bool)
    modifies out
    ensures var g := GetString(json, key, out.Length);
            && status == g.status && (overrun <==> out.Length == 0 && status == Ok)
            && WrittenTo(old(out[..]), out[..], Ended(g.text, status == Ok && !overrun))
  {
    hide WrittenTo;
    hide Opening;
    hide Body;
    WroteNothing(out[..]);
    if |Quoted(key)| >= PATTERN_SIZE {
      return EINVAL, false;
    }
    var at: nat;
    status, at := FindOpening(json, Quoted(key));
    if status != Ok {
      return status, false;
    }
    status, overrun := ReadBody(json, at, out);
  }

  /** Reading the empty string into the empty buffer succeeds, and so overruns it. */
  lemma EmptyBufferExample()
    ensures Body("\"", 0, 0) == Got(Ok, "")
  {
  }

  // ---------- reading what was escaped ----------

  /** What reading makes of an escaped character: only the \\u escapes are not undone. */
  function ReadBack(c: char): string {
    if c < ' ' && c != '\n' && c != '\r' && c != '\t' then "u" + Hex(c as int, 4) else [c]
  }

  function ReadBackAll(src: string): string {
    if src == "" then "" else ReadBack(src[0]) + ReadBackAll(src[1..])
  }

  predicate Restorable(src: string) {
    forall i :: 0 <= i < |src| ==> src[i] >= ' ' || src[i] == '\n' || src[i] == '\r' || src[i] == '\t'
  }

  lemma RestorableCons(c: char, rest: string)
    ensures Restorable([c] + rest) <==> Restorable([c]) && Restorable(rest)
  {
    var src := [c] + rest;
    assert src[0] == c;
    if Restorable(src) {
      assert forall i :: 0 <= i < |rest| ==> rest[i] == src[i + 1];
    }
    if Restorable([c]) && Restorable(rest) {
      assert [c][0] == c;
      assert forall i :: 1 <= i < |src| ==> src[i] == rest[i - 1];
    }
  }

  lemma ReadBackOne(c: char)
    ensures ReadBack(c) == [c] <==> Restorable([c])
    ensures ReadBack(c) != [c] ==> |ReadBack(c)| > 1
  {
    assert [c][0] == c;
  }

  lemma {:induction false} ReadBackLonger(src: string)
    ensures |ReadBackAll(src)| >= |src|
    ensures ReadBackAll(src) == src <==> Restorable(src)
  {
    if src != "" {
      hide ReadBack;
      hide Restorable;
      var c, rest := src[0], src[1..];
      ReadBackLonger(rest);
      ReadBackOne(c);
      RestorableCons(c, rest);
      assert src == [c] + rest;
      if ReadBack(c) == [c] {
        assert ([c] + ReadBackAll(rest))[1..] == ReadBackAll(rest);
      }
    }
  }

  lemma BodyOfPlain(c: char, s: string, used: nat, len: nat)
    requires c != '"' && c != '\\' && used + 1 < len
    ensures Body([c] + s, used, len) == Prepend(c, Body(s, used + 1, len))
  {
    assert ([c] + s)[1..] == s;
  }

  lemma Regroup(x: string, s: string)
    requires x != ""
    ensures x + s == [x[0]] + (x[1..] + s)
  {
  }

  /** The characters of `x`, none of them special, are read as they are. */
  lemma {:induction false} PlainBody(x: string, s: string, used: nat, len: nat)
    requires forall i :: 0 <= i < |x| ==> x[i] != '"' && x[i] != '\\'
    requires used + |x| < len
    ensures Body(x + s, used, len) == Got(Body(s, used + |x|, len).status, x + Body(s, used + |x|, len).text)
    decreases x
  {
    hide Body;
    var b := Body(s, used + |x|, len);
    if x == "" {
      assert x + s == s && x + b.text == b.text;
    } else {
      Regroup(x, s);
      Regroup(x, b.text);
      PlainBody(x[1..], s, used + 1, len);
      BodyOfPlain(x[0], x[1..] + s, used, len);
    }
  }

  lemma HexIsPlain(n: nat, digits: nat)
    ensures forall i :: 0 <= i < digits ==> Hex(n, digits)[i] != '"' && Hex(n, digits)[i] != '\\'
  {
    forall i | 0 <= i < digits
      ensures Hex(n, digits)[i] != '"' && Hex(n, digits)[i] != '\\'
    {
      HexIsHex(n, digits, i);
    }
  }

  lemma BodyOfPair(x: char, s: string, used: nat, len: nat)
    requires used + 1 < len
    ensures Body(['\\', x] + s, used, len) == Prepend(Unescape(x), Body(s, used + 1, len))
  {
    assert (['\\', x] + s)[2..] == s;
  }

  lemma BodyOfNumber(h: string, s: string, used: nat, len: nat)
    requires used + 1 + |h| < len && forall i :: 0 <= i < |h| ==> h[i] != '"' && h[i] != '\\'
    ensures var b := Body(s, used + 1 + |h|, len);
            Body("\\u" + h + s, used, len) == Got(b.status, "u" + h + b.text)
  {
    hide Body;
    assert "\\u" + h + s == ['\\', 'u'] + (h + s);
    BodyOfPair('u', h + s, used, len);
    PlainBody(h, s, used + 1, len);
    var b := Body(s, used + 1 + |h|, len);
    assert ['u'] + (h + b.text) == "u" + h + b.text;
  }

  lemma BodyOfEscape(c: char, s: string, used: nat, len: nat)
    requires used + |ReadBack(c)| < len
    ensures var b := Body(s, used + |ReadBack(c)|, len);
            Body(Escape(c) + s, used, len) == Got(b.status, ReadBack(c) + b.text)
  {
    if c == '\\' || c == '"' {
      BodyOfPair(c, s, used, len);
    } else if c == '\n' {
      BodyOfPair('n', s, used, len);
    } else if c == '\r' {
      BodyOfPair('r', s, used, len);
    } else if c == '\t' {
      BodyOfPair('t', s, used, len);
    } else if c < ' ' {
      HexIsPlain(c as int, 4);
      BodyOfNumber(Hex(c as int, 4), s, used, len);
    } else {
      assert ([c] + s)[1..] == s;
    }
  }

  lemma {:induction false} BodyOfEscaped(src: string, post: string, used: nat, len: nat)
    requires used + |ReadBackAll(src)| < len
    ensures Body(EscapeAll(src) + "\"" + post, used, len) == Got(Ok, ReadBackAll(src))
    decreases src
  {
    hide Escape;
    hide ReadBack;
    if src == "" {
      assert EscapeAll(src) + "\"" + post == "\"" + post;
    } else {
      var rest := EscapeAll(src[1..]) + "\"" + post;
      assert EscapeAll(src) + "\"" + post == Escape(src[0]) + rest;
      BodyOfEscape(src[0], rest, used, len);
      BodyOfEscaped(src[1..], post, used + |ReadBack(src[0])|, len);
    }
  }

  predicate AllBlank(s: string) { forall i :: 0 <= i < |s| ==> Blank(s[i]) }

  lemma {:induction false} BlanksSkipped(blanks: string, s: string)
    requires AllBlank(blanks) && (s == "" || !Blank(s[0]))
    ensures SkipBlanks(blanks + s) == s
  {
    if blanks == "" {
      assert blanks + s == s;
    } else {
      assert (blanks + s)[1..] == blanks[1..] + s;
      BlanksSkipped(blanks[1..], s);
    }
  }

  /** A value behind the first occurrence of its key. */
  lemma OpeningFound(json: string, pre: string, pattern: string, w: string, v: string, value: string)
    requires json == pre + (pattern + (w + (":" + (v + ("\"" + value))))) && Find(json, pattern) == |pre|
    requires AllBlank(w) && AllBlank(v)
    ensures Opening(json, pattern) == Got(Ok, value)
  {
    hide Find;
    var c := v + ("\"" + value);
    var b := w + (":" + c);
    assert json[|pre| + |pattern|..] == b;
    BlanksSkipped(w, ":" + c);
    assert (":" + c)[1..] == c;
    BlanksSkipped(v, "\"" + value);
    assert ("\"" + value)[1..] == value;
  }

  /**
   Reading the value of a first-occurring key gives back the string that was escaped there, except that
   control characters other than newline, return and tab come back as the digits of their escape.
   */
  lemma ReadsBack(json: string, pre: string, key: string, w: string, v: string, src: string, post: string, len: nat)
    requires json == pre + (Quoted(key) + (w + (":" + (v + ("\"" + (EscapeAll(src) + "\"" + post))))))
    requires Find(json, Quoted(key)) == |pre| && |Quoted(key)| < PATTERN_SIZE && AllBlank(w) && AllBlank(v)
    requires |ReadBackAll(src)| < len
    ensures GetString(json, key, len) == Got(Ok, ReadBackAll(src))
    ensures GetString(json, key, len) == Got(Ok, src) <==> Restorable(src)
  {
    hide Opening;
    hide Body;
    hide Find;
    hide Restorable;
    OpeningFound(json, pre, Quoted(key), w, v, EscapeAll(src) + "\"" + post);
    BodyOfEscaped(src, post, 0, len);
    ReadBackLonger(src);
  }

  /** The control character 1 is not restored. */
  lemma NotRestoredExample()
    ensures Body(Escape(1 as char) + "\"", 0, 32).text == "u0001"
  {
    var c := 1 as char;
    assert Hex(1, 4) == "0001";
    BodyOfEscape(c, "\"", 0, 32);
    assert Body("\"", 5, 32) == Got(Ok, "");
  }
}
