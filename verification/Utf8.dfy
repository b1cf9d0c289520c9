/**
 The UTF-8 check of app/src/services/app/app_context.c against section 3 of RFC 3629: a string is accepted
 exactly when it is a concatenation of encodings of Unicode scalar values.
 */
module Utf8 {
  import opened Bytes

  predicate Scalar(c: int) { 0 <= c <= 0x10FFFF && !(0xD800 <= c <= 0xDFFF) }

  /** The octets of a scalar value, shortest form. */
  function Encode(c: int): (s: seq<Byte>)
    requires Scalar(c)
    ensures s != []
  {
    if c < 0x80 then [c]
    else if c < 0x800 then [0xC0 + c / 64, 0x80 + c % 64]
    else if c < 0x10000 then [0xE0 + c / 64 / 64, 0x80 + c / 64 % 64, 0x80 + c % 64]
    else [0xF0 + c / 64 / 64 / 64, 0x80 + c / 64 / 64 % 64, 0x80 + c / 64 % 64, 0x80 + c % 64]
  }

  ghost predicate Scalars(cs: seq<int>) { forall i :: 0 <= i < |cs| ==> Scalar(cs[i]) }

  ghost function EncodeAll(cs: seq<int>): seq<Byte>
    requires Scalars(cs)
  {
    if cs == [] then [] else Encode(cs[0]) + EncodeAll(cs[1..])
  }

  ghost predicate IsUtf8(s: seq<Byte>) { exists cs :: Scalars(cs) && EncodeAll(cs) == s }

  // ---------- what the loop does ----------

  datatype Lead = BadLead | Lead(bits: int, continuation: nat)

  function LeadOf(first: Byte): Lead {
    if first < 0x80 then Lead(first, 0)
    else if 0xC2 <= first <= 0xDF then Lead(first - 0xC0, 1)
    else if 0xE0 <= first <= 0xEF then Lead(first - 0xE0, 2)
    else if 0xF0 <= first <= 0xF4 then Lead(first - 0xF0, 3)
    else BadLead
  }

  predicate Continues(b: Byte) { 0x80 <= b <= 0xBF }

  /** The code point from `code` and `n` continuation bytes; -1 if they are not all there. */
  function Gather(s: seq<Byte>, code: int, n: nat): int
    decreases n
  {
    if n == 0 then code
    else if s == [] || !Continues(s[0]) then -1
    else Gather(s[1..], code * 64 + (s[0] - 0x80), n - 1)
  }

  predicate GoodCode(code: int, first: Byte) {
    && code >= 0 && !(0xD800 <= code <= 0xDFFF) && code <= 0x10FFFF
    && !(code < 0x800 && first >= 0xE0) && !(code < 0x10000 && first >= 0xF0)
  }

  predicate GoodStart(s: seq<Byte>)
    requires s != []
  {
    var l := LeadOf(s[0]);
    l.Lead? && |s| > l.continuation && GoodCode(Gather(s[1..], l.bits, l.continuation), s[0])
  }

  predicate Accepts(s: seq<Byte>)
    decreases s
  {
    s == [] || (GoodStart(s) && Accepts(s[1 + LeadOf(s[0]).continuation..]))
  }

  lemma GatherStep(s: seq<Byte>, i: nat, code: int, n: nat)
    requires i < |s| && n > 0
    ensures Gather(s[i..], code, n) ==
            if Continues(s[i]) then Gather(s[i + 1..], code * 64 + (s[i] - 0x80), n - 1) else -1
  {
    assert s[i..][1..] == s[i + 1..];
  }

  /** The inner loop: the code point, or -1 at a byte that does not continue it. */
  method TakeContinuation(s: seq<Byte>, from: nat, bits: int, n: nat) returns (code: int)
    requires from + n <= |s|
    ensures code == Gather(s[from..], bits, n)
  {
    var i, left := from, n;
    code := bits;
    while left > 0
      invariant 0 <= left <= n && i == from + n - left
      invariant Gather(s[i..], code, left) == Gather(s[from..], bits, n)
      decreases left
    {
      GatherStep(s, i, code, left);
      if !Continues(s[i]) {
        return -1;
      }
      code := code * 64 + (s[i] as int - 0x80);
      i := i + 1;
      left := left - 1;
    }
  }

  /** valid_utf8 */
  method ValidUtf8(s: seq<Byte>) returns (ok: bool)
    ensures ok <==> Accepts(s)
  {
    hide Gather;
    hide GoodCode;
    var i := 0;
    assert s[0..] == s;
    while i < |s|
      invariant 0 <= i <= |s|
      invariant Accepts(s[i..]) <==> Accepts(s)
    {
      var l := LeadOf(s[i]);
      ghost var rest := s[i..];
      assert rest[0] == s[i] && rest[1..] == s[i + 1..];
      if l.BadLead? || l.continuation > |s| - i - 1 {
        return false;
      }
      assert rest[1 + l.continuation..] == s[i + 1 + l.continuation..];
      var code := TakeContinuation(s, i + 1, l.bits, l.continuation);
      if !GoodCode(code, s[i]) {
        return false;
      }
      i := i + 1 + l.continuation;
    }
    return true;
  }

  // ---------- accepted means well-formed ----------

  lemma SixBits(code: int, b: Byte)
    requires code >= 0 && Continues(b)
    ensures (code * 64 + (b - 0x80)) / 64 == code && (code * 64 + (b - 0x80)) % 64 == b - 0x80
  {
  }

  lemma GatherOne(s: seq<Byte>, code: int)
    ensures Gather(s, code, 1) == if s != [] && Continues(s[0]) then code * 64 + (s[0] - 0x80) else -1
  {
  }

  lemma GatherTwo(s: seq<Byte>, code: int)
    requires |s| >= 2
    ensures Gather(s, code, 2) ==
            if Continues(s[0]) && Continues(s[1]) then (code * 64 + (s[0] - 0x80)) * 64 + (s[1] - 0x80) else -1
  {
    GatherOne(s[1..], code * 64 + (s[0] as int - 0x80));
  }

  lemma GatherThree(s: seq<Byte>, code: int)
    requires |s| >= 3
    ensures Gather(s, code, 3) ==
            if Continues(s[0]) && Continues(s[1]) && Continues(s[2]) then
              ((code * 64 + (s[0] - 0x80)) * 64 + (s[1] - 0x80)) * 64 + (s[2] - 0x80)
            else -1
  {
    GatherTwo(s[1..], code * 64 + (s[0] as int - 0x80));
  }

  /** The code point at the start of an accepted string, and its encoding. */
  function CodeAt(s: seq<Byte>): int
    requires s != [] && LeadOf(s[0]).Lead?
  {
    Gather(s[1..], LeadOf(s[0]).bits, LeadOf(s[0]).continuation)
  }

  lemma TwoBytes(first: Byte, b: Byte)
    requires 0xC2 <= first <= 0xDF && Continues(b)
    ensures var c := (first - 0xC0) * 64 + (b - 0x80); Scalar(c) && Encode(c) == [first, b]
  {
    SixBits(first - 0xC0, b);
  }

  lemma ThreeBytes(first: Byte, a: Byte, b: Byte)
    requires 0xE0 <= first <= 0xEF && Continues(a) && Continues(b)
    ensures var c := ((first - 0xE0) * 64 + (a - 0x80)) * 64 + (b - 0x80);
            GoodCode(c, first) ==> Scalar(c) && Encode(c) == [first, a, b]
  {
    var c1 := (first - 0xE0) * 64 + (a - 0x80);
    SixBits(first - 0xE0, a);
    SixBits(c1, b);
  }

  lemma FourBytes(first: Byte, a: Byte, b: Byte, d: Byte)
    requires 0xF0 <= first <= 0xF4 && Continues(a) && Continues(b) && Continues(d)
    ensures var c := (((first - 0xF0) * 64 + (a - 0x80)) * 64 + (b - 0x80)) * 64 + (d - 0x80);
            GoodCode(c, first) ==> Scalar(c) && Encode(c) == [first, a, b, d]
  {
    var c1 := (first - 0xF0) * 64 + (a - 0x80);
    var c2 := c1 * 64 + (b - 0x80);
    SixBits(first - 0xF0, a);
    SixBits(c1, b);
    SixBits(c2, d);
  }

  lemma StartIsEncoding(s: seq<Byte>)
    requires s != [] && GoodStart(s)
    ensures var c := CodeAt(s);
            Scalar(c) && Encode(c) == s[..1 + LeadOf(s[0]).continuation]
  {
    var l := LeadOf(s[0]);
    var t := s[1..];
    if l.continuation == 1 {
      GatherOne(t, l.bits);
      TwoBytes(s[0], s[1]);
    } else if l.continuation == 2 {
      hide Gather;
      hide Encode;
      GatherTwo(t, l.bits);
      ThreeBytes(s[0], s[1], s[2]);
    } else if l.continuation == 3 {
      hide Gather;
      hide Encode;
      GatherThree(t, l.bits);
      FourBytes(s[0], s[1], s[2], s[3]);
    }
  }

  lemma {:induction false} AcceptedIsUtf8(s: seq<Byte>) returns (cs: seq<int>)
    requires Accepts(s)
    ensures Scalars(cs) && EncodeAll(cs) == s
    decreases s
  {
    if s == [] {
      cs := [];
    } else {
      var n := 1 + LeadOf(s[0]).continuation;
      StartIsEncoding(s);
      var rest := AcceptedIsUtf8(s[n..]);
      cs := [CodeAt(s)] + rest;
      assert cs[1..] == rest && s == s[..n] + s[n..];
    }
  }

  // ---------- well-formed is accepted ----------

  lemma EncodingStarts(c: int, rest: seq<Byte>)
    requires Scalar(c)
    ensures var s := Encode(c) + rest; GoodStart(s) && 1 + LeadOf(s[0]).continuation == |Encode(c)|
  {
    var s := Encode(c) + rest;
    var t := s[1..];
    if c < 0x80 {
    } else if c < 0x800 {
      GatherOne(t, c / 64);
    } else if c < 0x10000 {
      GatherTwo(t, c / 64 / 64);
    } else {
      GatherThree(t, c / 64 / 64 / 64);
    }
  }

  lemma {:induction false} Utf8IsAccepted(cs: seq<int>)
    requires Scalars(cs)
    ensures Accepts(EncodeAll(cs))
  {
    if cs != [] {
      var rest := EncodeAll(cs[1..]);
      EncodingStarts(cs[0], rest);
      Utf8IsAccepted(cs[1..]);
      var s := Encode(cs[0]) + rest;
      assert s[|Encode(cs[0])|..] == rest;
    }
  }

  /** valid_utf8 accepts exactly the concatenations of encodings of scalar values. */
  lemma AcceptsExactlyUtf8(s: seq<Byte>)
    ensures Accepts(s) <==> IsUtf8(s)
  {
    if Accepts(s) {
      var cs := AcceptedIsUtf8(s);
    }
    if IsUtf8(s) {
      var cs :| Scalars(cs) && EncodeAll(cs) == s;
      Utf8IsAccepted(cs);
    }
  }
}
