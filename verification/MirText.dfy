/**
  Finding and replacing tokens in the text of a line: the scanners look at characters,
  and what they find and replace are the whole words outside quoted strings.
 */
module MirText {
  import opened MirLines

  predicate NameChar(c: char) {
    'a' <= c <= 'z' || 'A' <= c <= 'Z' || '0' <= c <= '9' || c in {'_', '.', '%', '@'}
  }

  predicate NameText(w: string) {
    w != "" && forall i :: 0 <= i < |w| ==> NameChar(w[i])
  }

  // ----- a line as words, quoted strings and other characters -----

  /** The number of name characters that s starts with. */
  function WordLength(s: string): (n: nat)
    ensures n <= |s| && (forall i :: 0 <= i < n ==> NameChar(s[i])) && (n < |s| ==> !NameChar(s[n]))
  {
    if s != "" && NameChar(s[0]) then
      var n := WordLength(s[1..]);
      assert forall i :: 0 < i <= n ==> s[i] == s[1..][i - 1];
      n + 1
    else 0
  }

  /** The length of a quoted string from inside it, with its closing quote if it has one. */
  function QuoteLength(s: string, escaped: bool): (n: nat)
    ensures n <= |s| && (s != "" ==> n > 0)
  {
    if s == "" then 0
    else if !escaped && s[0] == '"' then 1
    else QuoteLength(s[1..], !escaped && s[0] == '\\') + 1
  }

  /** The length of the first piece. */
  function FirstLength(s: string): (n: nat)
    requires s != ""
    ensures 0 < n <= |s|
  {
    if s[0] == '"' then 1 + QuoteLength(s[1..], false)
    else if NameChar(s[0]) then WordLength(s)
    else 1
  }

  function FirstPiece(s: string): Piece
    requires s != ""
  {
    if s[0] == '"' then Quote(s[..FirstLength(s)])
    else if NameChar(s[0]) then Word(s[..FirstLength(s)])
    else Other(s[0])
  }

  function Lex(s: string): seq<Piece>
    decreases |s|
  {
    if s == "" then [] else [FirstPiece(s)] + Lex(s[FirstLength(s)..])
  }

  function TextOf(p: Piece): string {
    match p
    case Word(w) => w
    case Quote(q) => q
    case Gap => " "
    case Other(c) => [c]
  }

  function Render(ps: seq<Piece>): string {
    if ps == [] then "" else TextOf(ps[0]) + Render(ps[1..])
  }

  /** The text with every word `name` replaced and nothing else. */
  function RenderWith(ps: seq<Piece>, name: string, value: string): string {
    if ps == [] then ""
    else (if ps[0] == Word(name) then value else TextOf(ps[0])) + RenderWith(ps[1..], name, value)
  }

  /** Nothing is lost by looking at a line as pieces. */
  lemma {:induction false} RenderLex(s: string)
    ensures Render(Lex(s)) == s
    decreases |s|
  {
    if s != "" {
      var n := FirstLength(s);
      RenderLex(s[n..]);
      FirstText(s);
      RenderCons(FirstPiece(s), Lex(s[n..]));
      assert s == s[..n] + s[n..];
    }
  }

  lemma FirstText(s: string)
    requires s != ""
    ensures TextOf(FirstPiece(s)) == s[..FirstLength(s)]
  {
  }

  lemma RenderCons(p: Piece, ps: seq<Piece>)
    ensures Render([p] + ps) == TextOf(p) + Render(ps)
  {
    assert ([p] + ps)[1..] == ps;
  }

  lemma RenderWithCons(p: Piece, ps: seq<Piece>, name: string, value: string)
    ensures RenderWith([p] + ps, name, value) == (if p == Word(name) then value else TextOf(p)) + RenderWith(ps, name, value)
    ensures Contains([p] + ps, name) <==> p == Word(name) || Contains(ps, name)
  {
    assert ([p] + ps)[1..] == ps;
  }

  // ----- the scanners -----

  predicate TokenAt(s: string, pos: nat, name: string) {
    && pos + |name| <= |s| && s[pos..pos + |name|] == name
    && (pos > 0 && pos <= |s| ==> !NameChar(s[pos - 1]))
    && (pos + |name| < |s| ==> !NameChar(s[pos + |name|]))
  }

  /** What replacing gives from a position on, inside or outside a quoted string. */
  function ReplaceFrom(s: string, i: nat, quoted: bool, escaped: bool, name: string, value: string): string
    requires name != ""
    decreases |s| - i
  {
    if i >= |s| then ""
    else if !quoted && TokenAt(s, i, name) then value + ReplaceFrom(s, i + |name|, quoted, escaped, name, value)
    else
      [s[i]] +
      if quoted then
        ReplaceFrom(s, i + 1, escaped || s[i] != '"', !escaped && s[i] == '\\', name, value)
      else ReplaceFrom(s, i + 1, s[i] == '"', escaped, name, value)
  }

  predicate ContainsFrom(s: string, i: nat, quoted: bool, escaped: bool, name: string)
    decreases |s| - i
  {
    if i >= |s| then false
    else if quoted then ContainsFrom(s, i + 1, escaped || s[i] != '"', !escaped && s[i] == '\\', name)
    else if s[i] == '"' then ContainsFrom(s, i + 1, true, escaped, name)
    else TokenAt(s, i, name) || ContainsFrom(s, i + 1, false, escaped, name)
  }

  lemma ReplaceStep(s: string, i: nat, quoted: bool, escaped: bool, name: string, value: string)
    requires i < |s| && name != ""
    ensures !quoted && TokenAt(s, i, name) ==>
              ReplaceFrom(s, i, quoted, escaped, name, value) == value + ReplaceFrom(s, i + |name|, quoted, escaped, name, value)
    ensures !(!quoted && TokenAt(s, i, name)) ==>
              ReplaceFrom(s, i, quoted, escaped, name, value)
              == [s[i]] + ReplaceFrom(s, i + 1, if quoted then escaped || s[i] != '"' else s[i] == '"',
                                      if quoted then !escaped && s[i] == '\\' else escaped, name, value)
  {
    hide TokenAt;
  }

  lemma Reassociate(a: string, b: string, c: string)
    ensures a + (b + c) == a + b + c
  {
  }

  method MirReplaceTokenText(s: string, name: string, value: string) returns (out: string)
    requires name != ""
    ensures out == ReplaceFrom(s, 0, false, false, name, value)
  {
    hide ReplaceFrom;
    var quoted, escaped := false, false;
    out := "";
    var i := 0;
    while i < |s|
      invariant out + ReplaceFrom(s, i, quoted, escaped, name, value) == ReplaceFrom(s, 0, false, false, name, value)
    {
      ReplaceStep(s, i, quoted, escaped, name, value);
      if !quoted && TokenAt(s, i, name) {
        Reassociate(out, value, ReplaceFrom(s, i + |name|, quoted, escaped, name, value));
        out := out + value;
        i := i + |name|;
      } else {
        var c := s[i];
        ghost var before := out;
        out := out + [c];
        i := i + 1;
        if quoted {
          if escaped {
            escaped := false;
          } else if c == '\\' {
            escaped := true;
          } else if c == '"' {
            quoted := false;
          }
        } else if c == '"' {
          quoted := true;
        }
        Reassociate(before, [c], ReplaceFrom(s, i, quoted, escaped, name, value));
      }
    }
    NothingLeft(s, i, quoted, escaped, name, value);
  }

  lemma NothingLeft(s: string, i: nat, quoted: bool, escaped: bool, name: string, value: string)
    requires i >= |s| && name != ""
    ensures ReplaceFrom(s, i, quoted, escaped, name, value) == ""
  {
  }

  method MirContainsTokenText(s: string, name: string) returns (found: bool)
    ensures found == ContainsFrom(s, 0, false, false, name)
  {
    var quoted, escaped := false, false;
    for i := 0 to |s|
      invariant ContainsFrom(s, i, quoted, escaped, name) == ContainsFrom(s, 0, false, false, name)
    {
      if quoted {
        if escaped {
          escaped := false;
        } else if s[i] == '\\' {
          escaped := true;
        } else if s[i] == '"' {
          quoted := false;
        }
      } else if s[i] == '"' {
        quoted := true;
      } else if TokenAt(s, i, name) {
        return true;
      }
    }
    found := false;
  }

  // ----- scanners against pieces -----

  /** A place where a piece begins. */
  predicate Boundary(s: string, i: nat) {
    i <= |s| && (0 < i < |s| && NameChar(s[i]) ==> !NameChar(s[i - 1]))
  }

  lemma SliceCons(s: string, i: nat, j: nat, rest: string)
    requires i < j <= |s|
    ensures [s[i]] + (s[i + 1..j] + rest) == s[i..j] + rest
  {
    assert s[i..j] == [s[i]] + s[i + 1..j];
  }

  lemma QuotedStep(s: string, i: nat, escaped: bool, name: string, value: string)
    requires i < |s| && name != ""
    ensures ReplaceFrom(s, i, true, escaped, name, value)
            == [s[i]] + ReplaceFrom(s, i + 1, escaped || s[i] != '"', !escaped && s[i] == '\\', name, value)
    ensures ContainsFrom(s, i, true, escaped, name)
            == ContainsFrom(s, i + 1, escaped || s[i] != '"', !escaped && s[i] == '\\', name)
  {
  }

  lemma QuoteStep(s: string, i: nat, escaped: bool)
    requires i < |s|
    ensures QuoteLength(s[i..], escaped)
            == if !escaped && s[i] == '"' then 1 else QuoteLength(s[i + 1..], !escaped && s[i] == '\\') + 1
  {
    assert s[i..][1..] == s[i + 1..];
  }

  lemma {:induction false} ThroughQuote(s: string, i: nat, escaped: bool, name: string, value: string)
    requires i <= |s| && name != ""
    ensures var n := QuoteLength(s[i..], escaped);
            && ReplaceFrom(s, i, true, escaped, name, value) == s[i..i + n] + ReplaceFrom(s, i + n, false, false, name, value)
            && ContainsFrom(s, i, true, escaped, name) == ContainsFrom(s, i + n, false, false, name)
    decreases |s| - i
  {
    hide ReplaceFrom, ContainsFrom, QuoteLength;
    if i < |s| {
      QuoteStep(s, i, escaped);
      QuotedStep(s, i, escaped, name, value);
      var n := QuoteLength(s[i..], escaped);
      if escaped || s[i] != '"' {
        ThroughQuote(s, i + 1, !escaped && s[i] == '\\', name, value);
      }
      SliceCons(s, i, i + n, ReplaceFrom(s, i + n, false, false, name, value));
    } else {
      AtEnd(s, i, escaped, name, value);
    }
  }

  lemma AtEnd(s: string, i: nat, escaped: bool, name: string, value: string)
    requires i == |s| && name != ""
    ensures forall q, e :: ReplaceFrom(s, i, q, e, name, value) == "" && !ContainsFrom(s, i, q, e, name)
    ensures QuoteLength(s[i..], escaped) == 0
  {
  }

  lemma PlainStep(s: string, i: nat, name: string, value: string)
    requires i < |s| && s[i] != '"' && name != "" && !TokenAt(s, i, name)
    ensures ReplaceFrom(s, i, false, false, name, value) == [s[i]] + ReplaceFrom(s, i + 1, false, false, name, value)
    ensures ContainsFrom(s, i, false, false, name) == ContainsFrom(s, i + 1, false, false, name)
  {
  }

  /** Inside a word there is no token. */
  lemma {:induction false} ThroughWord(s: string, i: nat, n: nat, name: string, value: string)
    requires 0 < i <= i + n <= |s| && NameText(name) && NameChar(s[i - 1])
    requires forall k :: i <= k < i + n ==> NameChar(s[k])
    ensures ReplaceFrom(s, i, false, false, name, value) == s[i..i + n] + ReplaceFrom(s, i + n, false, false, name, value)
    ensures ContainsFrom(s, i, false, false, name) == ContainsFrom(s, i + n, false, false, name)
    decreases n
  {
    if n > 0 {
      hide ReplaceFrom, ContainsFrom;
      assert NameChar(s[i]) && !NameChar('"');
      PlainStep(s, i, name, value);
      ThroughWord(s, i + 1, n - 1, name, value);
      SliceCons(s, i, i + n, ReplaceFrom(s, i + n, false, false, name, value));
    } else {
      assert s[i..i] == "";
    }
  }

  lemma {:induction false} WordLengthIs(t: string, k: nat)
    requires k <= |t| && (forall j :: 0 <= j < k ==> NameChar(t[j])) && (k < |t| ==> !NameChar(t[k]))
    ensures WordLength(t) == k
    decreases k
  {
    if k > 0 {
      WordLengthIs(t[1..], k - 1);
    }
  }

  lemma WordAtBoundary(s: string, i: nat, name: string)
    requires Boundary(s, i) && i < |s| && NameChar(s[i]) && NameText(name)
    ensures var n := WordLength(s[i..]);
            n > 0 && (TokenAt(s, i, name) <==> s[i..][..n] == name)
  {
    hide WordLength;
    var t := s[i..];
    var n := WordLength(t);
    if TokenAt(s, i, name) {
      assert forall j :: 0 <= j < |name| ==> t[j] == name[j];
      assert |name| < |t| ==> t[|name|] == s[i + |name|];
      WordLengthIs(t, |name|);
    }
    assert t[..n] == s[i..i + n];
    assert n < |t| ==> t[n] == s[i + n];
    assert t[0] == s[i];
  }

  /** Replacing changes exactly the whole words outside quoted strings, and a token is
      found exactly when such a word is there. */
  lemma {:induction false} ScannersSeePieces(s: string, i: nat, name: string, value: string)
    requires Boundary(s, i) && NameText(name)
    ensures ReplaceFrom(s, i, false, false, name, value) == RenderWith(Lex(s[i..]), name, value)
    ensures ContainsFrom(s, i, false, false, name) == Contains(Lex(s[i..]), name)
    decreases |s| - i
  {
    hide ReplaceFrom, ContainsFrom, RenderWith, Contains, FirstPiece, FirstLength;
    if i < |s| {
      var t := s[i..];
      var n := FirstLength(t);
      FirstStep(s, i, name, value);
      assert t[n..] == s[i + n..];
      ScannersSeePieces(s, i + n, name, value);
      RenderWithCons(FirstPiece(t), Lex(t[n..]), name, value);
      assert Lex(t) == [FirstPiece(t)] + Lex(t[n..]);
    } else {
      AtEnd(s, i, false, name, value);
      NoPieces(name, value);
    }
  }

  lemma NoPieces(name: string, value: string)
    ensures RenderWith([], name, value) == "" && !Contains([], name)
  {
  }

  /** The scanners over one piece. */
  lemma FirstStep(s: string, i: nat, name: string, value: string)
    requires Boundary(s, i) && i < |s| && NameText(name)
    ensures var p := FirstPiece(s[i..]);
            var j := i + FirstLength(s[i..]);
            && Boundary(s, j)
            && ReplaceFrom(s, i, false, false, name, value)
               == (if p == Word(name) then value else TextOf(p)) + ReplaceFrom(s, j, false, false, name, value)
            && ContainsFrom(s, i, false, false, name) == (p == Word(name) || ContainsFrom(s, j, false, false, name))
  {
    if s[i] == '"' {
      QuotePiece(s, i, name, value);
    } else if NameChar(s[i]) {
      WordPiece(s, i, name, value);
    } else {
      OtherPiece(s, i, name, value);
    }
  }

  lemma OtherPiece(s: string, i: nat, name: string, value: string)
    requires Boundary(s, i) && i < |s| && NameText(name) && s[i] != '"' && !NameChar(s[i])
    ensures FirstPiece(s[i..]) == Other(s[i]) && FirstLength(s[i..]) == 1 && Boundary(s, i + 1)
    ensures ReplaceFrom(s, i, false, false, name, value) == [s[i]] + ReplaceFrom(s, i + 1, false, false, name, value)
    ensures ContainsFrom(s, i, false, false, name) == ContainsFrom(s, i + 1, false, false, name)
  {
    hide ReplaceFrom, ContainsFrom;
    assert NameChar(name[0]);
    assert !TokenAt(s, i, name) by { if i + |name| <= |s| { assert s[i..i + |name|][0] == s[i]; } }
    PlainStep(s, i, name, value);
  }

  lemma QuotePiece(s: string, i: nat, name: string, value: string)
    requires Boundary(s, i) && i < |s| && NameText(name) && s[i] == '"'
    ensures var n := FirstLength(s[i..]);
            && FirstPiece(s[i..]) == Quote(s[i..i + n]) && Boundary(s, i + n)
            && ReplaceFrom(s, i, false, false, name, value) == s[i..i + n] + ReplaceFrom(s, i + n, false, false, name, value)
            && ContainsFrom(s, i, false, false, name) == ContainsFrom(s, i + n, false, false, name)
  {
    hide ReplaceFrom, ContainsFrom, QuoteLength, Boundary, NameText;
    NameIsNotEmpty(name);
    var t := s[i..];
    assert t[1..] == s[i + 1..];
    var n := FirstLength(t);
    assert t[..n] == s[i..i + n];
    ThroughQuote(s, i + 1, false, name, value);
    QuoteEndsAtBoundary(s, i + 1, false);
    QuoteOpens(s, i, name, value);
    SliceCons(s, i, i + n, ReplaceFrom(s, i + n, false, false, name, value));
  }

  lemma QuoteOpens(s: string, i: nat, name: string, value: string)
    requires i < |s| && NameText(name) && s[i] == '"'
    ensures ReplaceFrom(s, i, false, false, name, value) == [s[i]] + ReplaceFrom(s, i + 1, true, false, name, value)
    ensures ContainsFrom(s, i, false, false, name) == ContainsFrom(s, i + 1, true, false, name)
  {
    assert NameChar(name[0]);
    assert !TokenAt(s, i, name) by { if i + |name| <= |s| { assert s[i..i + |name|][0] == s[i]; } }
  }

  lemma {:induction false} QuoteEndsAtBoundary(s: string, i: nat, escaped: bool)
    requires 0 < i <= |s|
    ensures Boundary(s, i + QuoteLength(s[i..], escaped))
    decreases |s| - i
  {
    if i < |s| {
      hide QuoteLength;
      QuoteStep(s, i, escaped);
      if escaped || s[i] != '"' { QuoteEndsAtBoundary(s, i + 1, !escaped && s[i] == '\\'); }
    }
  }

  lemma WordShape(s: string, i: nat)
    requires Boundary(s, i) && i < |s| && NameChar(s[i])
    ensures var n := FirstLength(s[i..]);
            && n == WordLength(s[i..]) && s[i..][..n] == s[i..i + n] && FirstPiece(s[i..]) == Word(s[i..i + n])
            && Boundary(s, i + n) && forall k :: i <= k < i + n ==> NameChar(s[k])
  {
    hide WordLength, NameChar;
    var t := s[i..];
    assert t[0] == s[i];
    QuoteIsNoName(s[i]);
    var n := WordLength(t);
    assert n < |t| ==> t[n] == s[i + n];
    assert forall k :: i <= k < i + n ==> s[k] == t[k - i];
  }

  lemma WordPiece(s: string, i: nat, name: string, value: string)
    requires Boundary(s, i) && i < |s| && NameChar(s[i]) && NameText(name)
    ensures var n := FirstLength(s[i..]);
            var w := s[i..i + n];
            && FirstPiece(s[i..]) == Word(w) && Boundary(s, i + n)
            && ReplaceFrom(s, i, false, false, name, value)
               == (if w == name then value else w) + ReplaceFrom(s, i + n, false, false, name, value)
            && ContainsFrom(s, i, false, false, name) == (w == name || ContainsFrom(s, i + n, false, false, name))
  {
    hide WordLength, NameChar, ReplaceFrom, ContainsFrom, FirstLength, FirstPiece, Boundary, TokenAt, NameText;
    WordShape(s, i);
    QuoteIsNoName(s[i]);
    var n := FirstLength(s[i..]);
    WordAtBoundary(s, i, name);
    NameIsNotEmpty(name);
    if s[i..i + n] == name {
      TokenStep(s, i, name, value);
    } else {
      PlainStep(s, i, name, value);
      ThroughWord(s, i + 1, n - 1, name, value);
      SliceCons(s, i, i + n, ReplaceFrom(s, i + n, false, false, name, value));
    }
  }

  lemma NameIsNotEmpty(name: string)
    requires NameText(name)
    ensures name != ""
  {
  }

  lemma QuoteIsNoName(c: char)
    requires NameChar(c)
    ensures c != '"'
  {
  }

  lemma TokenStep(s: string, i: nat, name: string, value: string)
    requires i < |s| && s[i] != '"' && name != "" && TokenAt(s, i, name)
    ensures ReplaceFrom(s, i, false, false, name, value) == value + ReplaceFrom(s, i + |name|, false, false, name, value)
    ensures ContainsFrom(s, i, false, false, name)
  {
  }

  // ----- the main result -----

  /** On a whole line: the result reads like the line with every whole word `name` outside
      quoted strings replaced by the value, and nothing else. */
  lemma ReplacingWholeTokens(s: string, name: string, value: string)
    requires NameText(name)
    ensures ReplaceFrom(s, 0, false, false, name, value) == RenderWith(Lex(s), name, value)
    ensures ContainsFrom(s, 0, false, false, name) == Contains(Lex(s), name)
    ensures Render(Lex(s)) == s
  {
    ScannersSeePieces(s, 0, name, value);
    RenderLex(s);
    assert s[0..] == s;
  }
}
