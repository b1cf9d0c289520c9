/** Bytes, 32-bit words and the sequence operations the rest of the model shares. */
module Bytes {

  type Byte = n: int | 0 <= n < 0x100
  type U32 = n: int | 0 <= n < 0x1_0000_0000

  /** sys_put_le32 */
  function Put32(n: U32): (s: seq<Byte>)
    ensures |s| == 4 && Get32(s) == n
  {
    var n1: int := n / 0x100;
    var n2: int := n1 / 0x100;
    [n % 0x100, n1 % 0x100, n2 % 0x100, n2 / 0x100]
  }

  /** sys_get_le32 */
  function Get32(s: seq<Byte>): U32
    requires |s| == 4
  {
    s[0] as int + 0x100 * (s[1] as int + 0x100 * (s[2] as int + 0x100 * s[3] as int))
  }

  lemma SplitByte(b: Byte, q: int)
    ensures (b as int + 0x100 * q) / 0x100 == q && (b as int + 0x100 * q) % 0x100 == b
  {
  }

  lemma PutGet32(s: seq<Byte>)
    requires |s| == 4
    ensures Put32(Get32(s)) == s
  {
    var n3: int := s[3];
    var n2 := s[2] as int + 0x100 * n3;
    var n1 := s[1] as int + 0x100 * n2;
    SplitByte(s[2], n3);
    SplitByte(s[1], n2);
    SplitByte(s[0], n1);
    var r := Put32(Get32(s));
    assert r == [r[0], r[1], r[2], r[3]] && s == [s[0], s[1], s[2], s[3]];
  }

  /** Consecutive little-endian words. */
  function PutWords(ws: seq<U32>): (s: seq<Byte>)
    ensures |s| == 4 * |ws|
  {
    if ws == [] then [] else Put32(ws[0]) + PutWords(ws[1..])
  }

  function GetWords(s: seq<Byte>): (ws: seq<U32>)
    ensures |ws| == |s| / 4
  {
    if |s| < 4 then [] else [Get32(s[..4])] + GetWords(s[4..])
  }

  lemma {:induction false} GetPutWords(ws: seq<U32>)
    ensures GetWords(PutWords(ws)) == ws
  {
    if ws != [] {
      GetPutWords(ws[1..]);
      assert PutWords(ws)[..4] == Put32(ws[0]) && PutWords(ws)[4..] == PutWords(ws[1..]);
    }
  }

  lemma {:induction false} PutGetWords(s: seq<Byte>)
    requires |s| % 4 == 0
    ensures PutWords(GetWords(s)) == s
  {
    if s != [] {
      PutGetWords(s[4..]);
      PutGet32(s[..4]);
      assert GetWords(s)[1..] == GetWords(s[4..]);
      assert s == s[..4] + s[4..];
    }
  }

  lemma Assoc<T>(a: seq<T>, b: seq<T>, c: seq<T>)
    ensures a + b + c == a + (b + c)
  {
  }

  lemma AppendFirst<T>(a: seq<T>, b: seq<T>)
    requires b != []
    ensures a + [b[0]] + b[1..] == a + b
  {
  }

  /** The concatenation of the parts. */
  function Flatten<T>(parts: seq<seq<T>>): seq<T> {
    if parts == [] then [] else parts[0] + Flatten(parts[1..])
  }

  lemma {:induction false} FlattenAppend<T>(a: seq<seq<T>>, b: seq<seq<T>>)
    ensures Flatten(a + b) == Flatten(a) + Flatten(b)
  {
    if a == [] {
      assert a + b == b;
    } else {
      FlattenAppend(a[1..], b);
      Assoc(a[0], Flatten(a[1..]), Flatten(b));
      assert (a + b)[1..] == a[1..] + b;
    }
  }

  lemma FlattenSnoc<T>(a: seq<seq<T>>, w: seq<T>)
    ensures Flatten(a + [w]) == Flatten(a) + w
  {
    FlattenAppend(a, [w]);
    assert Flatten([w]) == w + Flatten([w][1..]) == w;
  }

  /** `dst` with `src` written at `at`. */
  function Overlay<T>(dst: seq<T>, at: nat, src: seq<T>): (r: seq<T>)
    requires at + |src| <= |dst|
    ensures |r| == |dst|
  {
    dst[..at] + src + dst[at + |src|..]
  }

  /** memcpy */
  method Copy<T>(dst: array<T>, at: nat, src: seq<T>)
    requires at + |src| <= dst.Length
    modifies dst
    ensures dst[..] == Overlay(old(dst[..]), at, src)
  {
    for i := 0 to |src|
      invariant forall k :: 0 <= k < dst.Length ==> dst[k] == if at <= k < at + i then src[k - at] else old(dst[k])
    {
      dst[at + i] := src[i];
    }
  }

  // ---------- text ----------

  predicate ByteText(s: string) { forall i :: 0 <= i < |s| ==> s[i] as int < 0x100 }

  /** The bytes of a C string. */
  function Codes(s: string): seq<Byte>
    requires ByteText(s)
  {
    seq(|s|, i requires 0 <= i < |s| => s[i] as int)
  }

  function Chars(bytes: seq<Byte>): string { seq(|bytes|, i requires 0 <= i < |bytes| => bytes[i] as char) }

  lemma CharsOfCodes(s: string)
    requires ByteText(s)
    ensures |Codes(s)| == |s| && Chars(Codes(s)) == s
  {
  }
}
