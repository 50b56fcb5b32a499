/**
 * Document identifiers as the document database uses them: twelve bytes,
 * written as 24 hexadecimal digits. `ToHex` is what `toString()` gives for an
 * identifier; `ParseObjectId` is the cast the store applies to an identifier
 * taken from a request path before a lookup (a string it cannot cast makes the
 * lookup throw).
 */
module ObjectIds {
  import opened Wrappers

  type Byte = b: int | 0 <= b < 256

  /** A document identifier: exactly twelve bytes. */
  type ObjectId = s: seq<Byte> | |s| == 12 witness [0, 0, 0, 0, 0, 0, 0, 0, 0, 0, 0, 0]

  const HexDigits: string := "0123456789abcdef"

  function HexDigit(n: int): (c: char)
    requires 0 <= n < 16
    ensures DigitValue(c) == Some(n)
  {
    HexDigits[n]
  }

  /** The value of one hexadecimal digit, upper or lower case. */
  function DigitValue(c: char): (v: Option<int>)
    ensures v.Some? ==> 0 <= v.value < 16
    ensures v.Some? <==> ('0' <= c <= '9' || 'a' <= c <= 'f' || 'A' <= c <= 'F')
  {
    if '0' <= c <= '9' then Some(c as int - '0' as int)
    else if 'a' <= c <= 'f' then Some(c as int - 'a' as int + 10)
    else if 'A' <= c <= 'F' then Some(c as int - 'A' as int + 10)
    else None
  }

  /** Lower-case hexadecimal text of a byte string, two digits per byte, high digit first. */
  function ToHex(bytes: seq<Byte>): (s: string)
    ensures |s| == 2 * |bytes|
  {
    if bytes == [] then ""
    else [HexDigit(bytes[0] / 16), HexDigit(bytes[0] % 16)] + ToHex(bytes[1..])
  }

  /** Reads hexadecimal text back into bytes; fails on an odd length or a non-digit. */
  function ParseHex(s: string): (r: Option<seq<Byte>>)
    ensures r.Some? ==> 2 * |r.value| == |s|
  {
    if s == "" then Some([])
    else if |s| == 1 then None
    else
      match (DigitValue(s[0]), DigitValue(s[1]), ParseHex(s[2..]))
      case (Some(hi), Some(lo), Some(rest)) => Some([hi * 16 + lo] + rest)
      case _ => None
  }

  /** The cast of a path parameter to an identifier: 24 hexadecimal digits, or nothing. */
  function ParseObjectId(s: string): (r: Option<ObjectId>)
    ensures r.Some? <==> |s| == 24 && forall i :: 0 <= i < |s| ==> DigitValue(s[i]).Some?
  {
    ParseHexAccepts(s);
    if |s| != 24 then None
    else match ParseHex(s)
      case Some(bytes) => Some(bytes)
      case None => None
  }

  /** Two identifiers compared the way the handlers compare them: as strings. */
  predicate SameUser(a: ObjectId, b: ObjectId)
  {
    ToHex(a) == ToHex(b)
  }

  /** Hexadecimal text parses exactly when its length is even and every character is a digit. */
  lemma {:induction false} ParseHexAccepts(s: string)
    ensures ParseHex(s).Some? <==> |s| % 2 == 0 && forall i :: 0 <= i < |s| ==> DigitValue(s[i]).Some?
  {
    if |s| >= 2 {
      ParseHexAccepts(s[2..]);
      assert forall i :: 2 <= i < |s| ==> s[i] == s[2..][i - 2];
    }
  }

  lemma {:induction false} ParseHexOfToHex(bytes: seq<Byte>)
    ensures ParseHex(ToHex(bytes)) == Some(bytes)
  {
    if bytes != [] {
      var b, rest := bytes[0], bytes[1..];
      var hi, lo := b / 16, b % 16;
      var tail := ToHex(rest);
      var s := [HexDigit(hi), HexDigit(lo)] + tail;
      assert ToHex(bytes) == s;
      assert s[0] == HexDigit(hi) && s[1] == HexDigit(lo) && s[2..] == tail;
      ParseHexOfToHex(rest);
      assert hi * 16 + lo == b;
      assert ParseHex(s) == Some([b] + rest);
      assert [b] + rest == bytes;
    }
  }

  /** Casting the text of an identifier gives the identifier back. */
  lemma ParseOfToHex(id: ObjectId)
    ensures ParseObjectId(ToHex(id)) == Some(id)
  {
    ParseHexOfToHex(id);
  }

  /** The string comparison of two identifiers is exactly identifier equality. */
  lemma SameUserIsEquality(a: ObjectId, b: ObjectId)
    ensures SameUser(a, b) <==> a == b
  {
    if SameUser(a, b) {
      ParseHexOfToHex(a);
      ParseHexOfToHex(b);
    }
  }
}
