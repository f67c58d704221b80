/** The two string measures the handlers rely on: Go's strings.TrimSpace and the
    byte length of a string, which Go stores as UTF-8. */
module Text {

  /** unicode.IsSpace */
  predicate IsSpace(c: char) {
    var n := c as int;
    || 0x09 <= n <= 0x0D || n == 0x20 || n == 0x85 || n == 0xA0 || n == 0x1680
    || 0x2000 <= n <= 0x200A || n == 0x2028 || n == 0x2029 || n == 0x202F || n == 0x205F || n == 0x3000
  }

  function Utf8Length(c: char): nat {
    var n := c as int;
    if n < 0x80 then 1 else if n < 0x800 then 2 else if n < 0x10000 then 3 else 4
  }

  function ByteLength(s: string): nat {
    if s == "" then 0 else ByteLength(s[..|s| - 1]) + Utf8Length(s[|s| - 1])
  }

  // ---- bytes ----

  /** The UTF-8 bytes of a character (section 3 of RFC 3629). */
  function Utf8(c: char): seq<int> {
    var n := c as int;
    if n < 0x80 then [n]
    else if n < 0x800 then [0xC0 + n / 0x40, 0x80 + n % 0x40]
    else if n < 0x10000 then [0xE0 + n / 0x1000, 0x80 + n / 0x40 % 0x40, 0x80 + n % 0x40]
    else [0xF0 + n / 0x40000, 0x80 + n / 0x1000 % 0x40, 0x80 + n / 0x40 % 0x40, 0x80 + n % 0x40]
  }

  /** The code point a byte sequence denotes: what the lead byte carries, then six bits
      from each continuation byte. */
  function CodePoint(bytes: seq<int>): int {
    match |bytes|
    case 1 => bytes[0]
    case 2 => (bytes[0] - 0xC0) * 0x40 + (bytes[1] - 0x80)
    case 3 => ((bytes[0] - 0xE0) * 0x40 + (bytes[1] - 0x80)) * 0x40 + (bytes[2] - 0x80)
    case 4 => (((bytes[0] - 0xF0) * 0x40 + (bytes[1] - 0x80)) * 0x40 + (bytes[2] - 0x80)) * 0x40 + (bytes[3] - 0x80)
    case _ => -1
  }

  /** The encoding is one of bytes, only its first byte is no continuation byte, it has
      the length counted, and it denotes the character. */
  lemma Utf8Denotes(c: char)
    ensures |Utf8(c)| == Utf8Length(c) && CodePoint(Utf8(c)) == c as int
    ensures forall k :: 0 <= k < |Utf8(c)| ==> 0 <= Utf8(c)[k] < 0x100 && (k > 0 <==> 0x80 <= Utf8(c)[k] < 0xC0)
  {
    var n := c as int;
    assert n / 0x1000 == n / 0x40 / 0x40 && n / 0x40000 == n / 0x1000 / 0x40;
  }

  function Bytes(s: string): seq<int> {
    if s == "" then [] else Bytes(s[..|s| - 1]) + Utf8(s[|s| - 1])
  }

  /** The measure of a string is the number of bytes it is stored in. */
  lemma {:induction false} ByteLengthCounts(s: string)
    ensures |Bytes(s)| == ByteLength(s)
  {
    if s != "" {
      ByteLengthCounts(s[..|s| - 1]);
      Utf8Denotes(s[|s| - 1]);
    }
  }

  // ---- trimming ----

  function TrimLeft(s: string): string {
    if s != "" && IsSpace(s[0]) then TrimLeft(s[1..]) else s
  }

  function TrimRight(s: string): string {
    if s != "" && IsSpace(s[|s| - 1]) then TrimRight(s[..|s| - 1]) else s
  }

  function TrimSpace(s: string): string { TrimRight(TrimLeft(s)) }

  lemma {:induction false} TrimLeftDrops(s: string)
    ensures |TrimLeft(s)| <= |s| && TrimLeft(s) == s[|s| - |TrimLeft(s)|..]
    ensures forall k :: 0 <= k < |s| - |TrimLeft(s)| ==> IsSpace(s[k])
    ensures TrimLeft(s) != "" ==> !IsSpace(TrimLeft(s)[0])
  {
    if s != "" && IsSpace(s[0]) {
      TrimLeftDrops(s[1..]);
      assert forall k :: 1 <= k < |s| - |TrimLeft(s)| ==> s[k] == s[1..][k - 1];
    }
  }

  lemma {:induction false} TrimRightDrops(s: string)
    ensures |TrimRight(s)| <= |s| && TrimRight(s) == s[..|TrimRight(s)|]
    ensures forall k :: |TrimRight(s)| <= k < |s| ==> IsSpace(s[k])
    ensures TrimRight(s) != "" ==> !IsSpace(TrimRight(s)[|TrimRight(s)| - 1])
  {
    if s != "" && IsSpace(s[|s| - 1]) {
      var n := |s| - 1;
      TrimRightDrops(s[..n]);
      assert forall k :: |TrimRight(s)| <= k < n ==> s[k] == s[..n][k];
    }
  }

  /** A trimmed string is a fixed point, so measuring what was stored is measuring
      what was checked. */
  lemma TrimIsIdempotent(s: string)
    ensures TrimSpace(TrimSpace(s)) == TrimSpace(s)
  {
    TrimLeftDrops(s);
    TrimRightDrops(TrimLeft(s));
    var r := TrimSpace(s);
    if r != "" {
      assert r[0] == TrimLeft(s)[0];
    }
  }

  /** Trimming removes exactly the spaces at both ends. */
  lemma TrimSpaceDrops(s: string)
    ensures exists i, j :: 0 <= i <= j <= |s| && TrimSpace(s) == s[i..j] && Blank(s[..i]) && Blank(s[j..])
    ensures TrimSpace(s) != "" ==> !IsSpace(TrimSpace(s)[0]) && !IsSpace(TrimSpace(s)[|TrimSpace(s)| - 1])
  {
    TrimLeftDrops(s);
    TrimRightDrops(TrimLeft(s));
    var t := TrimLeft(s);
    var i := |s| - |t|;
    var j := i + |TrimSpace(s)|;
    assert TrimSpace(s) == s[i..j];
    assert forall k :: 0 <= k < |s[j..]| ==> s[j..][k] == t[j - i + k];
    assert Blank(s[..i]) && Blank(s[j..]);
    if TrimSpace(s) != "" { assert TrimSpace(s)[0] == t[0]; }
  }

  predicate Blank(s: string) { forall k :: 0 <= k < |s| ==> IsSpace(s[k]) }
}
