/**
  Escaping text for a JSON string, against a strict reader of section 7 of RFC 8259.
 */
module JsonEscape {
  import opened Options

  newtype Byte = b: int | 0 <= b < 256

  const QUOTE: Byte := 34
  const BACKSLASH: Byte := 92

  function HexDigit(n: nat): Byte
    requires n < 16
  {
    if n < 10 then (48 + n) as Byte else (97 + n - 10) as Byte
  }

  function ShortEscape(c: Byte): Byte {
    match c
    case 8 => 98
    case 9 => 116
    case 10 => 110
    case 12 => 102
    case _ => 114
  }

  function EscapeByte(c: Byte): (r: seq<Byte>)
    ensures 1 <= |r| <= 6
  {
    if c == QUOTE || c == BACKSLASH then [BACKSLASH, c]
    else if c in {8, 9, 10, 12, 13} then [BACKSLASH, ShortEscape(c)]
    else if c < 32 then [BACKSLASH, 117, 48, 48, HexDigit((c / 16) as nat), HexDigit((c % 16) as nat)]
    else [c]
  }

  function Escape(text: seq<Byte>): (r: seq<Byte>)
    ensures |r| <= 6 * |text|
  {
    if text == [] then [] else Escape(text[..|text| - 1]) + EscapeByte(text[|text| - 1])
  }

  // ----- a reader of JSON string contents -----

  function HexValue(c: Byte): Option<nat> {
    if 48 <= c <= 57 then Some((c - 48) as nat)
    else if 97 <= c <= 102 then Some((c - 87) as nat)
    else if 65 <= c <= 70 then Some((c - 55) as nat)
    else None
  }

  function Unshort(c: Byte): Option<Byte> {
    match c
    case 34 => Some(34)
    case 92 => Some(92)
    case 47 => Some(47)
    case 98 => Some(8)
    case 102 => Some(12)
    case 110 => Some(10)
    case 114 => Some(13)
    case 116 => Some(9)
    case _ => None
  }

  function HexByte(s: seq<Byte>): Option<Byte>
    requires |s| >= 6
  {
    match (HexValue(s[2]), HexValue(s[3]), HexValue(s[4]), HexValue(s[5]))
    case (Some(a), Some(b), Some(c), Some(d)) =>
      if a == 0 && b == 0 && c < 8 then Some((c * 16 + d) as Byte) else None
    case _ => None
  }

  /** The bytes meant by the contents of a JSON string. A control byte, a quote that is not
      escaped, an unknown escape or a cut off one is refused; so is an escape of a character
      that is not one byte long. */
  function Unescape(s: seq<Byte>): Option<seq<Byte>>
    decreases |s|
  {
    if s == [] then Some([])
    else if s[0] < 32 || s[0] == QUOTE then None
    else if s[0] != BACKSLASH then Then([s[0]], Unescape(s[1..]))
    else if |s| < 2 then None
    else if s[1] == 117 then
      if |s| < 6 || HexByte(s).None? then None else Then([HexByte(s).value], Unescape(s[6..]))
    else if Unshort(s[1]).None? then None
    else Then([Unshort(s[1]).value], Unescape(s[2..]))
  }

  function Then(first: seq<Byte>, rest: Option<seq<Byte>>): Option<seq<Byte>> {
    if rest.None? then None else Some(first + rest.value)
  }

  // ----- the round trip -----

  lemma HexRoundTrip(n: nat)
    requires n < 16
    ensures HexValue(HexDigit(n)) == Some(n)
  {
  }

  lemma UnescapeOne(c: Byte, rest: seq<Byte>)
    ensures Unescape(EscapeByte(c) + rest) == Then([c], Unescape(rest))
  {
    var s := EscapeByte(c) + rest;
    if c == QUOTE || c == BACKSLASH || c in {8, 9, 10, 12, 13} {
      assert s[2..] == rest;
    } else if c < 32 {
      HexRoundTrip((c / 16) as nat);
      HexRoundTrip((c % 16) as nat);
      assert s[6..] == rest;
      assert s[2] == 48 && s[3] == 48 && HexValue(48) == Some(0);
      assert ((c / 16) as nat) * 16 + ((c % 16) as nat) == c as nat;
    } else {
      assert s[1..] == rest;
    }
  }

  lemma ThenThen(a: seq<Byte>, b: seq<Byte>, rest: Option<seq<Byte>>)
    ensures Then(a, Then(b, rest)) == Then(a + b, rest)
  {
    if rest.Some? { assert a + (b + rest.value) == a + b + rest.value; }
  }

  lemma EscapeLast(text: seq<Byte>, rest: seq<Byte>)
    requires text != []
    ensures Escape(text) + rest == Escape(text[..|text| - 1]) + (EscapeByte(text[|text| - 1]) + rest)
  {
  }

  lemma {:induction false} UnescapeAppended(text: seq<Byte>, rest: seq<Byte>)
    ensures Unescape(Escape(text) + rest) == Then(text, Unescape(rest))
    decreases |text|
  {
    hide EscapeByte, Unescape;
    if text == [] {
      assert Escape(text) + rest == rest;
      ThenNothing(rest);
    } else {
      hide Then, Escape;
      var n := |text| - 1;
      EscapeLast(text, rest);
      UnescapeAppended(text[..n], EscapeByte(text[n]) + rest);
      UnescapeOne(text[n], rest);
      ThenThen(text[..n], [text[n]], Unescape(rest));
      assert text[..n] + [text[n]] == text;
    }
  }

  lemma ThenNothing(rest: seq<Byte>)
    ensures Then([], Unescape(rest)) == Unescape(rest)
  {
    if Unescape(rest).Some? { assert [] + Unescape(rest).value == Unescape(rest).value; }
  }

  /** Reading back what was escaped gives the text, whatever its bytes are. That the strict
      reader accepts it says that no control byte and no bare quote is left. */
  lemma UnescapeEscape(text: seq<Byte>)
    ensures Unescape(Escape(text)) == Some(text)
  {
    UnescapeAppended(text, []);
    assert Escape(text) + [] == Escape(text);
    assert text + [] == text;
  }

  /** So different texts never look alike. */
  lemma EscapeIsInjective(a: seq<Byte>, b: seq<Byte>)
    requires Escape(a) == Escape(b)
    ensures a == b
  {
    UnescapeEscape(a);
    UnescapeEscape(b);
  }

  // ----- the buffer -----

  /** Fills a buffer of six bytes for each byte of the text and one for the terminator; no
      write is outside it. */
  method JsonAstEscape(text: seq<Byte>) returns (out: array<Byte>, pos: nat)
    ensures fresh(out) && out.Length == 6 * |text| + 1
    ensures pos < out.Length && out[..pos] == Escape(text) && out[pos] == 0
  {
    out := new Byte[6 * |text| + 1];
    pos := 0;
    for i := 0 to |text|
      invariant pos <= 6 * i && out[..pos] == Escape(text[..i])
    {
      var c := text[i];
      assert text[..i + 1][..i] == text[..i];
      pos := Put(out, pos, c);
    }
    assert text[..|text|] == text;
    out[pos] := 0;
  }

  method Put(out: array<Byte>, pos: nat, c: Byte) returns (pos': nat)
    requires pos + 6 <= out.Length
    modifies out
    ensures pos <= pos' <= pos + 6 && out[..pos'] == old(out[..pos]) + EscapeByte(c)
  {
    ghost var before := out[..pos];
    if c == QUOTE || c == BACKSLASH {
      out[pos] := BACKSLASH;
      out[pos + 1] := c;
      pos' := pos + 2;
    } else if c == 8 || c == 9 || c == 10 || c == 12 || c == 13 {
      out[pos] := BACKSLASH;
      out[pos + 1] := ShortEscape(c);
      pos' := pos + 2;
    } else if c < 32 {
      out[pos] := BACKSLASH;
      out[pos + 1] := 117;
      out[pos + 2] := 48;
      out[pos + 3] := 48;
      out[pos + 4] := HexDigit((c / 16) as nat);
      out[pos + 5] := HexDigit((c % 16) as nat);
      pos' := pos + 6;
    } else {
      out[pos] := c;
      pos' := pos + 1;
    }
    assert out[..pos] == before;
    assert out[..pos'] == out[..pos] + out[pos..pos'];
  }
}
