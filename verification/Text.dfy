/** Searching, splitting and printing of C strings. */
module Text {

  predicate StartsWith(s: string, x: string) { |x| <= |s| && s[..|x|] == x }

  /** strstr(s, x) != NULL */
  predicate Contains(s: string, x: string) { StartsWith(s, x) || (s != "" && Contains(s[1..], x)) }

  lemma {:induction false} ContainsInside(a: string, x: string, b: string)
    ensures Contains(a + x + b, x)
  {
    if a == "" {
      assert a + x + b == x + b;
    } else {
      ContainsInside(a[1..], x, b);
      assert (a + x + b)[1..] == a[1..] + x + b;
    }
  }

  /** The position of the first slash, or the end. */
  function SlashAt(s: string): (k: nat)
    ensures k <= |s| && '/' !in s[..k] && (k < |s| ==> s[k] == '/')
  {
    if s == "" || s[0] == '/' then 0
    else
      var k := 1 + SlashAt(s[1..]);
      assert s[..k] == [s[0]] + s[1..][..k - 1];
      k
  }

  lemma {:induction false} FirstSlash(name: string, rest: string)
    requires '/' !in name && (rest == "" || rest[0] == '/')
    ensures SlashAt(name + rest) == |name|
  {
    if name != "" {
      assert (name + rest)[1..] == name[1..] + rest;
      FirstSlash(name[1..], rest);
    } else {
      assert name + rest == rest;
    }
  }

  /** The components between slashes. */
  function Components(t: string): (cs: seq<string>)
    ensures cs != []
    decreases |t|
  {
    var k := SlashAt(t);
    if k == |t| then [t] else [t[..k]] + Components(t[k + 1..])
  }

  // ---------- hexadecimal ----------

  function HexDigit(d: nat): char
    requires d < 16
  {
    "0123456789abcdef"[d]
  }

  /** The last `digits` hexadecimal digits of `n`. */
  function Hex(n: nat, digits: nat): (s: string)
    ensures |s| == digits
  {
    if digits == 0 then "" else Hex(n / 16, digits - 1) + [HexDigit(n % 16)]
  }

  lemma DigitInjective(d: nat, e: nat)
    requires d < 16 && e < 16
    ensures HexDigit(d) == HexDigit(e) ==> d == e
  {
  }

  function Power16(k: nat): nat { if k == 0 then 1 else 16 * Power16(k - 1) }

  lemma {:induction false} HexInjective(n: nat, m: nat, digits: nat)
    requires n < Power16(digits) && m < Power16(digits) && Hex(n, digits) == Hex(m, digits)
    ensures n == m
  {
    hide HexDigit;
    if digits > 0 {
      DigitInjective(n % 16, m % 16);
      var a, b := Hex(n, digits), Hex(m, digits);
      assert a[..digits - 1] == Hex(n / 16, digits - 1) && b[..digits - 1] == Hex(m / 16, digits - 1);
      assert a[digits - 1] == HexDigit(n % 16) && b[digits - 1] == HexDigit(m % 16);
      HexInjective(n / 16, m / 16, digits - 1);
    }
  }
}
