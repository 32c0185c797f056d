/**
 * The subset of github.com/google/uuid the services rely on: `uuid.Parse`,
 * which accepts the canonical 36-character form, the same in braces (38; the
 * two outer characters are not inspected), with a case-insensitive `urn:uuid:`
 * prefix (45), or 32 bare hex digits; and `UUID.String()`, the lower-case
 * canonical form. Strings are read as byte strings.
 */
module Uuids {
  import opened Wrappers

  newtype byte = x: int | 0 <= x < 256

  type Uuid = s: seq<byte> | |s| == 16 witness [0, 0, 0, 0, 0, 0, 0, 0, 0, 0, 0, 0, 0, 0, 0, 0]

  const HexDigits: string := "0123456789abcdef"

  /** How many hyphens of the canonical form come before the digits of byte `j`. */
  function HyphensBefore(j: nat): nat {
    if j < 4 then 0 else if j < 6 then 1 else if j < 8 then 2 else if j < 10 then 3 else 4
  }

  /**
   * Where byte `j`'s two hex digits start: 0, 2, 4, 6, 9, 11, 14, ... 34 in the
   * canonical form, 0, 2, 4, ... 30 in the bare one.
   */
  function Position(j: nat, canonical: bool): nat {
    if canonical then 2 * j + HyphensBefore(j) else 2 * j
  }

  function HexVal(c: char): (r: Option<nat>)
    ensures r.Some? ==> r.value < 16
  {
    if '0' <= c <= '9' then Some(c as int - '0' as int)
    else if 'a' <= c <= 'f' then Some(c as int - 'a' as int + 10)
    else if 'A' <= c <= 'F' then Some(c as int - 'A' as int + 10)
    else None
  }

  /** `xtob`: two hex digits as one byte. */
  function Xtob(hi: char, lo: char): (r: Option<byte>)
    ensures r.Some? <==> HexVal(hi).Some? && HexVal(lo).Some?
  {
    match (HexVal(hi), HexVal(lo))
    case (Some(h), Some(l)) => Some((h * 16 + l) as byte)
    case _ => None
  }

  /** Bytes `j` to 15, or None at the first non-hex digit. */
  function Decode(s: string, j: nat, canonical: bool): (r: Option<seq<byte>>)
    requires j <= 16 && |s| >= (if canonical then 36 else 32)
    ensures r.Some? ==> |r.value| == 16 - j
    decreases 16 - j
  {
    if j == 16 then Some([])
    else
      var p := Position(j, canonical);
      match Xtob(s[p], s[p + 1])
      case None => None
      case Some(b) =>
        var rest := Decode(s, j + 1, canonical);
        if rest.Some? then Some([b] + rest.value) else None
  }

  predicate Hyphenated(s: string)
    requires |s| >= 36
  {
    s[8] == '-' && s[13] == '-' && s[18] == '-' && s[23] == '-'
  }

  function ParseCanonical(s: string): Option<Uuid>
    requires |s| >= 36
  {
    if !Hyphenated(s) then None
    else
      var bytes := Decode(s, 0, true);
      if bytes.Some? then Some(bytes.value) else None
  }

  function Lower(c: char): char {
    if 'A' <= c <= 'Z' then (c as int - 'A' as int + 'a' as int) as char else c
  }

  /** `uuid.Parse`. */
  function Parse(s: string): (r: Option<Uuid>)
    ensures r.Some? ==> |s| == 32 || |s| == 36 || |s| == 38 || |s| == 45
  {
    if |s| == 36 then ParseCanonical(s)
    else if |s| == 45 then
      (if seq(9, i requires 0 <= i < 9 => Lower(s[i])) == "urn:uuid:" then ParseCanonical(s[9..]) else None)
    else if |s| == 38 then ParseCanonical(s[1..])
    else if |s| == 32 then
      var bytes := Decode(s, 0, false);
      if bytes.Some? then Some(bytes.value) else None
    else None
  }

  /** The character at position `i` of `String()`. */
  function FormatChar(u: Uuid, i: nat): char
    requires i < 36
  {
    if i == 8 || i == 13 || i == 18 || i == 23 then '-'
    else
      var k := i - (if i < 8 then 0 else if i < 13 then 1 else if i < 18 then 2 else if i < 23 then 3 else 4);
      var b := u[k / 2] as int;
      HexDigits[if k % 2 == 0 then b / 16 else b % 16]
  }

  /** `UUID.String()`. */
  function Format(u: Uuid): (s: string)
    ensures |s| == 36
  {
    seq(36, i requires 0 <= i < 36 => FormatChar(u, i))
  }

  lemma HexDigitRoundTrip(n: nat)
    requires n < 16
    ensures HexVal(HexDigits[n]) == Some(n)
  {
  }

  /** The two digits at byte `j`'s position of `String()` are those of byte `j`. */
  lemma FormatAt(u: Uuid, j: nat)
    requires j < 16
    ensures Position(j, true) + 1 < 36
    ensures Format(u)[Position(j, true)] == HexDigits[u[j] as int / 16]
    ensures Format(u)[Position(j, true) + 1] == HexDigits[u[j] as int % 16]
  {
    var i := Position(j, true);
    assert FormatChar(u, i) == HexDigits[u[j] as int / 16];
    assert FormatChar(u, i + 1) == HexDigits[u[j] as int % 16];
  }

  /** A byte's two lower-case digits read back as that byte. */
  lemma XtobDigits(b: byte)
    ensures Xtob(HexDigits[b as int / 16], HexDigits[b as int % 16]) == Some(b)
  {
    var n := b as int;
    HexDigitRoundTrip(n / 16);
    HexDigitRoundTrip(n % 16);
    assert (n / 16) * 16 + n % 16 == n;
  }

  /** One byte of `Decode`: its two digits, then the bytes after it. */
  lemma DecodeStep(s: string, j: nat, b: byte, rest: seq<byte>)
    requires j < 16 && |s| >= 36
    requires Position(j, true) + 1 < |s| && Xtob(s[Position(j, true)], s[Position(j, true) + 1]) == Some(b)
    requires Decode(s, j + 1, true) == Some(rest)
    ensures Decode(s, j, true) == Some([b] + rest)
  {
  }

  lemma {:induction false} DecodeFormat(u: Uuid, j: nat)
    requires j <= 16
    ensures Decode(Format(u), j, true) == Some(u[j..])
    decreases 16 - j
  {
    var s := Format(u);
    if j < 16 {
      DecodeFormat(u, j + 1);
      FormatAt(u, j);
      XtobDigits(u[j]);
      DecodeStep(s, j, u[j], u[j + 1..]);
      assert u[j..] == [u[j]] + u[j + 1..];
    } else {
      assert u[j..] == [];
    }
  }

  /** Parsing what `String()` prints gives the same UUID back. */
  lemma ParseFormat(u: Uuid)
    ensures Parse(Format(u)) == Some(u)
  {
    var s := Format(u);
    assert s[8] == FormatChar(u, 8) && s[13] == FormatChar(u, 13);
    assert s[18] == FormatChar(u, 18) && s[23] == FormatChar(u, 23);
    assert Hyphenated(s);
    DecodeFormat(u, 0);
    assert u[0..] == u;
    assert ParseCanonical(s) == Some(u);
  }

  /** `String()` tells different identifiers apart. */
  lemma FormatInjective(a: Uuid, b: Uuid)
    ensures Format(a) == Format(b) ==> a == b
  {
    ParseFormat(a);
    ParseFormat(b);
  }
}
