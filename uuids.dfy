/**
 * The text forms of a 128-bit UUID, as the uuid crate writes them
 * (`to_string`, hyphenated lower case) and reads them (`Uuid::parse_str`:
 * the simple, hyphenated, braced and URN forms, either letter case).
 */
module Uuids {
  import opened Wrappers

  newtype Nibble = x: int | 0 <= x < 16

  /** A UUID as its 32 hexadecimal digits, most significant first. */
  type Uuid = s: seq<Nibble> | |s| == 32 witness Nil()

  function Nil(): (u: seq<Nibble>)
    ensures |u| == 32
  {
    seq(32, _ => 0)
  }

  /** Why `Uuid::parse_str` refused a string (the crate's wording is not modelled). */
  datatype UuidError = InvalidLength(len: nat) | InvalidCharacter | InvalidGroups

  function Describe(e: UuidError): string
  {
    match e
    case InvalidLength(_) => "invalid length"
    case InvalidCharacter => "invalid character"
    case InvalidGroups => "invalid group layout"
  }

  predicate IsHexChar(c: char)
  {
    ('0' <= c <= '9') || ('a' <= c <= 'f') || ('A' <= c <= 'F')
  }

  function HexValue(c: char): Nibble
    requires IsHexChar(c)
  {
    if '0' <= c <= '9' then (c as int - '0' as int) as Nibble
    else if 'a' <= c <= 'f' then (c as int - 'a' as int + 10) as Nibble
    else (c as int - 'A' as int + 10) as Nibble
  }

  /** The lower-case digit for a nibble, as `to_string` writes it. */
  function HexDigit(n: Nibble): (c: char)
    ensures IsHexChar(c) && HexValue(c) == n
    ensures !('A' <= c <= 'F')
  {
    if n < 10 then (n as int + '0' as int) as char else (n as int - 10 + 'a' as int) as char
  }

  /** Positions of the four hyphens in the 36-character hyphenated form 8-4-4-4-12. */
  predicate IsHyphenPos(j: int)
  {
    j == 8 || j == 13 || j == 18 || j == 23
  }

  /** The position in the hyphenated form of the digit for nibble `i`. */
  function CharIndex(i: int): (j: nat)
    requires 0 <= i < 32
    ensures j < 36 && !IsHyphenPos(j)
  {
    if i < 8 then i else if i < 12 then i + 1 else if i < 16 then i + 2 else if i < 20 then i + 3 else i + 4
  }

  /** The nibble written at a non-hyphen position `j` of the hyphenated form. */
  function NibbleIndex(j: int): (i: nat)
    requires 0 <= j < 36 && !IsHyphenPos(j)
    ensures i < 32 && CharIndex(i) == j
  {
    if j < 8 then j else if j < 13 then j - 1 else if j < 18 then j - 2 else if j < 23 then j - 3 else j - 4
  }

  /** `Uuid::to_string`: the hyphenated lower-case form, also what serde writes. */
  function ToString(u: Uuid): (s: string)
    ensures |s| == 36
    ensures forall j | 0 <= j < 36 :: s[j] == '-' <==> IsHyphenPos(j)
  {
    seq(36, j requires 0 <= j < 36 => if IsHyphenPos(j) then '-' else HexDigit(u[NibbleIndex(j)]))
  }

  predicate AllHex(s: string)
  {
    forall k | 0 <= k < |s| :: IsHexChar(s[k])
  }

  function FromHex(s: string): Uuid
    requires |s| == 32 && AllHex(s)
  {
    seq(32, i requires 0 <= i < 32 => HexValue(s[i]))
  }

  /** The 32 digit positions of a hyphenated form, read in order. */
  function Digits(s: string): (d: string)
    requires |s| == 36
    ensures |d| == 32
  {
    seq(32, i requires 0 <= i < 32 => s[CharIndex(i)])
  }

  function ParseHyphenated(s: string): Result<Uuid, UuidError>
    requires |s| == 36
  {
    if !(s[8] == '-' && s[13] == '-' && s[18] == '-' && s[23] == '-') then Err(InvalidGroups)
    else if !AllHex(Digits(s)) then Err(InvalidCharacter)
    else Ok(FromHex(Digits(s)))
  }

  /** `Uuid::parse_str`; its length decides which form it expects. */
  function Parse(s: string): (r: Result<Uuid, UuidError>)
    ensures r.Ok? ==> |s| == 32 || |s| == 36 || |s| == 38 || |s| == 45
    ensures !(|s| == 32 || |s| == 36 || |s| == 38 || |s| == 45) ==> r == Err(InvalidLength(|s|))
    ensures |s| == 36 && r.Ok? ==> forall j | 0 <= j < 36 && IsHyphenPos(j) :: s[j] == '-'
  {
    if |s| == 32 then
      if AllHex(s) then Ok(FromHex(s)) else Err(InvalidCharacter)
    else if |s| == 36 then
      ParseHyphenated(s)
    else if |s| == 38 then
      if s[0] == '{' && s[37] == '}' then ParseHyphenated(s[1..37]) else Err(InvalidCharacter)
    else if |s| == 45 then
      if s[..9] == "urn:uuid:" then ParseHyphenated(s[9..]) else Err(InvalidCharacter)
    else
      Err(InvalidLength(|s|))
  }

  /** Parsing what `to_string` wrote gives back the same UUID. */
  lemma ParseToString(u: Uuid)
    ensures Parse(ToString(u)) == Ok(u)
  {
    var s := ToString(u);
    var d := Digits(s);
    forall i | 0 <= i < 32
      ensures d[i] == HexDigit(u[i])
    {
      assert d[i] == s[CharIndex(i)];
    }
    assert AllHex(d);
    assert FromHex(d) == u;
  }
}
