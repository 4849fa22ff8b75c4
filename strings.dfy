/** The parts of Go's `strings` and `fmt` packages the core relies on, over
    `seq<char>`. Whitespace and letter case follow the ASCII subset of Go's
    Unicode tables. */
module Strings {
  import opened Wrappers

  /** The ASCII characters `unicode.IsSpace` accepts. */
  predicate IsSpace(c: char) {
    c == ' ' || c == '\t' || c == '\n' || c == '\r' || c == '\U{000B}' || c == '\U{000C}'
  }

  predicate AllSpace(s: string) {
    forall i :: 0 <= i < |s| ==> IsSpace(s[i])
  }

  /** Neither end of `s` is whitespace. */
  predicate Trimmed(s: string) {
    s == [] || (!IsSpace(s[0]) && !IsSpace(s[|s| - 1]))
  }

  function TrimLeft(s: string): (r: string)
    ensures |r| <= |s| && r == s[|s| - |r|..]
    ensures AllSpace(s[..|s| - |r|])
    ensures r == [] || !IsSpace(r[0])
  {
    if s != [] && IsSpace(s[0]) then TrimLeft(s[1..]) else s
  }

  function TrimRight(s: string): (r: string)
    ensures |r| <= |s| && r == s[..|r|]
    ensures AllSpace(s[|r|..])
    ensures r == [] || !IsSpace(r[|r| - 1])
  {
    if s != [] && IsSpace(s[|s| - 1]) then TrimRight(s[..|s| - 1]) else s
  }

  /** `strings.TrimSpace`: the infix of `s` left after dropping leading and
      trailing whitespace. */
  function TrimSpace(s: string): (r: string)
    ensures Trimmed(r)
    ensures exists i, j :: 0 <= i <= j <= |s| && r == s[i..j] && AllSpace(s[..i]) && AllSpace(s[j..])
  {
    var l := TrimLeft(s);
    var r := TrimRight(l);
    var i := |s| - |l|;
    var j := i + |r|;
    assert r == s[i..j];
    assert AllSpace(s[j..]) by {
      assert s[j..] == l[|r|..];
    }
    r
  }

  /** Only whitespace is dropped: a string that is already trimmed is kept. */
  lemma {:induction false} TrimSpaceKeepsTrimmed(s: string)
    requires Trimmed(s)
    ensures TrimSpace(s) == s
  {
  }

  lemma {:induction false} TrimLeftSpaces(pad: string, t: string)
    requires AllSpace(pad)
    requires t == [] || !IsSpace(t[0])
    ensures TrimLeft(pad + t) == t
    decreases |pad|
  {
    if pad != [] {
      assert (pad + t)[1..] == pad[1..] + t;
      TrimLeftSpaces(pad[1..], t);
    } else {
      assert pad + t == t;
    }
  }

  lemma {:induction false} TrimRightSpaces(t: string, pad: string)
    requires AllSpace(pad)
    requires t == [] || !IsSpace(t[|t| - 1])
    ensures TrimRight(t + pad) == t
    decreases |pad|
  {
    if pad != [] {
      assert (t + pad)[..|t + pad| - 1] == t + pad[..|pad| - 1];
      TrimRightSpaces(t, pad[..|pad| - 1]);
    } else {
      assert t + pad == t;
    }
  }

  /** Padding a trimmed string with whitespace on either side does not
      change what `TrimSpace` returns. */
  lemma TrimSpacePadded(pre: string, t: string, post: string)
    requires AllSpace(pre) && AllSpace(post) && Trimmed(t) && t != []
    ensures TrimSpace(pre + t + post) == t
  {
    assert pre + t + post == pre + (t + post);
    TrimLeftSpaces(pre, t + post);
    TrimRightSpaces(t, post);
  }

  lemma {:induction false} TrimLeftAppendSpace(s: string, c: char)
    requires IsSpace(c)
    ensures TrimLeft(s + [c]) == if AllSpace(s) then [] else TrimLeft(s) + [c]
    decreases |s|
  {
    if s == [] {
      assert TrimLeft([c]) == TrimLeft([]);
    } else if IsSpace(s[0]) {
      assert (s + [c])[1..] == s[1..] + [c];
      TrimLeftAppendSpace(s[1..], c);
      assert AllSpace(s) <==> AllSpace(s[1..]) by {
        if AllSpace(s[1..]) {
          forall i | 0 <= i < |s| ensures IsSpace(s[i]) {
            if i > 0 { assert s[i] == s[1..][i - 1]; }
          }
        }
      }
    } else {
      assert !AllSpace(s);
    }
  }

  /** A whitespace character at the end, such as a line's newline, makes no
      difference to `TrimSpace`. */
  lemma TrimSpaceAppendSpace(s: string, c: char)
    requires IsSpace(c)
    ensures TrimSpace(s + [c]) == TrimSpace(s)
  {
    TrimLeftAppendSpace(s, c);
    var l := TrimLeft(s);
    assert TrimSpace(s) == TrimRight(l);
    assert TrimSpace(s + [c]) == TrimRight(TrimLeft(s + [c]));
    if AllSpace(s) {
      assert l == [];
    } else {
      assert (l + [c])[..|l|] == l;
      assert TrimRight(l + [c]) == TrimRight(l);
    }
  }

  /** `strings.ReplaceAll(s, pat, "")`: every occurrence of `pat`, found left
      to right without overlap, is deleted. */
  function RemoveAll(s: string, pat: string): (r: string)
    requires pat != []
    ensures |r| <= |s|
    decreases |s|
  {
    if |s| < |pat| then s
    else if s[..|pat|] == pat then RemoveAll(s[|pat|..], pat)
    else [s[0]] + RemoveAll(s[1..], pat)
  }

  /** A string in which the pattern's first character never appears is left
      as it is. */
  lemma {:induction false} RemoveAllAbsent(s: string, pat: string)
    requires pat != [] && pat[0] !in s
    ensures RemoveAll(s, pat) == s
    decreases |s|
  {
    if |s| >= |pat| {
      assert s[0] != pat[0];
      assert s[..|pat|] != pat;
      RemoveAllAbsent(s[1..], pat);
      assert [s[0]] + s[1..] == s;
    }
  }

  predicate HasPrefix(s: string, p: string) {
    |p| <= |s| && s[..|p|] == p
  }

  predicate HasSuffix(s: string, p: string) {
    |p| <= |s| && s[|s| - |p|..] == p
  }

  /** `strings.TrimPrefix`: drops one copy of `p` from the front, if there. */
  function TrimPrefix(s: string, p: string): (r: string)
    ensures HasPrefix(s, p) ==> s == p + r
    ensures !HasPrefix(s, p) ==> r == s
  {
    if HasPrefix(s, p) then s[|p|..] else s
  }

  /** `strings.TrimSuffix`: drops one copy of `p` from the end, if there. */
  function TrimSuffix(s: string, p: string): (r: string)
    ensures HasSuffix(s, p) ==> s == r + p
    ensures !HasSuffix(s, p) ==> r == s
  {
    if HasSuffix(s, p) then s[..|s| - |p|] else s
  }

  /** `strings.Contains`. */
  predicate Contains(s: string, sub: string)
    decreases |s|
  {
    HasPrefix(s, sub) || (s != [] && Contains(s[1..], sub))
  }

  lemma {:induction false} ContainsInfix(pre: string, sub: string, post: string)
    ensures Contains(pre + sub + post, sub)
    decreases |pre|
  {
    if pre == [] {
      assert pre + sub + post == sub + post;
      assert (sub + post)[..|sub|] == sub;
    } else {
      assert (pre + sub + post)[1..] == pre[1..] + sub + post;
      ContainsInfix(pre[1..], sub, post);
    }
  }

  function ToLowerChar(c: char): char {
    if 'A' <= c <= 'Z' then (c as int + 32) as char else c
  }

  /** `strings.ToLower` on ASCII letters. */
  function ToLower(s: string): (r: string)
    ensures |r| == |s|
    ensures forall i :: 0 <= i < |s| ==> r[i] == ToLowerChar(s[i])
  {
    seq(|s|, i requires 0 <= i < |s| => ToLowerChar(s[i]))
  }

  predicate IsDigit(c: char) {
    '0' <= c <= '9'
  }

  function Digit(d: nat): (c: char)
    requires d < 10
    ensures IsDigit(c)
  {
    ('0' as int + d) as char
  }

  /** Decimal digits of `n`, most significant first, without leading zeros. */
  function NatToString(n: nat): (r: string)
    ensures r != [] && forall i :: 0 <= i < |r| ==> IsDigit(r[i])
    decreases n
  {
    if n < 10 then [Digit(n)] else NatToString(n / 10) + [Digit(n % 10)]
  }

  /** `fmt.Sprintf("%d", n)`. */
  function FormatInt(n: int): (r: string)
    ensures r != [] && forall i :: 0 <= i < |r| ==> IsDigit(r[i]) || r[i] == '-'
  {
    if n < 0 then "-" + NatToString(-n) else NatToString(n)
  }

  // ---------------------------------------------------------------------
  // `%q`: Go's quoting of a string, for the ASCII part of `strconv.Quote`.

  const LowerHex := "0123456789abcdef"

  /** An ASCII control character: below the space, or DEL. */
  predicate IsControl(c: char) {
    c as int < 0x20 || c as int == 0x7F
  }

  /** The letter of the one-letter escape for `c`, if it has one. */
  function ShortEscape(c: char): Option<char> {
    match c as int
    case 0x07 => Some('a')
    case 0x08 => Some('b')
    case 0x0C => Some('f')
    case 0x0A => Some('n')
    case 0x0D => Some('r')
    case 0x09 => Some('t')
    case 0x0B => Some('v')
    case _ => None
  }

  /** The control character a one-letter escape stands for. */
  function ShortUnescape(l: char): Option<char> {
    match l
    case 'a' => Some(0x07 as char)
    case 'b' => Some(0x08 as char)
    case 'f' => Some(0x0C as char)
    case 'n' => Some(0x0A as char)
    case 'r' => Some(0x0D as char)
    case 't' => Some(0x09 as char)
    case 'v' => Some(0x0B as char)
    case _ => None
  }

  /** How `%q` writes one character: a backslash before `"` and `\`, a
      one-letter escape or `\xNN` (lower-case hex) for a control character,
      the character itself otherwise. */
  function EscapeChar(c: char): (r: string)
    ensures r != [] && (r[0] == '\\' <==> c == '"' || c == '\\' || IsControl(c))
    ensures forall i :: 0 <= i < |r| ==> !IsControl(r[i])
  {
    if c == '"' || c == '\\' then ['\\', c]
    else if !IsControl(c) then [c]
    else if ShortEscape(c).Some? then ['\\', ShortEscape(c).value]
    else ['\\', 'x', LowerHex[c as int / 16], LowerHex[c as int % 16]]
  }

  function EscapeAll(s: string): (r: string)
    ensures forall i :: 0 <= i < |r| ==> !IsControl(r[i])
    decreases |s|
  {
    if s == [] then [] else EscapeChar(s[0]) + EscapeAll(s[1..])
  }

  /** `fmt.Sprintf("%q", s)`: the quoted text is a single line without
      control characters. */
  function Quote(s: string): (r: string)
    ensures |r| >= 2 && r[0] == '"' && r[|r| - 1] == '"'
    ensures forall i :: 0 <= i < |r| ==> !IsControl(r[i])
  {
    "\"" + EscapeAll(s) + "\""
  }

  function HexValue(c: char): Option<nat> {
    if '0' <= c <= '9' then Some(c as int - '0' as int)
    else if 'a' <= c <= 'f' then Some(c as int - 'a' as int + 10)
    else None
  }

  /** The inverse of `EscapeAll` (the body of `strconv.Unquote` for the
      escapes `EscapeAll` writes): `None` for a bare `"` or `\` or an
      unknown escape. */
  function UnescapeAll(t: string): (r: Option<string>)
    decreases |t|
  {
    if t == [] then Some([])
    else if t[0] == '"' then None
    else if t[0] != '\\' then Prepend(t[0], UnescapeAll(t[1..]))
    else if |t| < 2 then None
    else if t[1] == '"' || t[1] == '\\' then Prepend(t[1], UnescapeAll(t[2..]))
    else if ShortUnescape(t[1]).Some? then Prepend(ShortUnescape(t[1]).value, UnescapeAll(t[2..]))
    else if t[1] == 'x' && |t| >= 4 && HexValue(t[2]).Some? && HexValue(t[3]).Some? then
      Prepend((HexValue(t[2]).value * 16 + HexValue(t[3]).value) as char, UnescapeAll(t[4..]))
    else None
  }

  function Prepend(c: char, o: Option<string>): Option<string> {
    match o
    case None => None
    case Some(s) => Some([c] + s)
  }

  /** Reading one escaped character back gives the character. */
  lemma UnescapeChar(c: char, rest: string)
    ensures UnescapeAll(EscapeChar(c) + rest) == Prepend(c, UnescapeAll(rest))
  {
    var t := EscapeChar(c) + rest;
    if c == '"' || c == '\\' {
      assert t[2..] == rest;
    } else if !IsControl(c) {
      assert t[1..] == rest;
    } else if ShortEscape(c).Some? {
      assert t[2..] == rest;
    } else {
      var n := c as int;
      assert t[1] == 'x' && t[2] == LowerHex[n / 16] && t[3] == LowerHex[n % 16];
      assert HexValue(LowerHex[n / 16]) == Some(n / 16);
      assert HexValue(LowerHex[n % 16]) == Some(n % 16);
      assert t[4..] == rest;
    }
  }

  /** `%q` loses nothing: unescaping the quoted text gives the string back. */
  lemma {:induction false} UnescapeEscapeAll(s: string)
    ensures UnescapeAll(EscapeAll(s)) == Some(s)
    decreases |s|
  {
    if s != [] {
      UnescapeChar(s[0], EscapeAll(s[1..]));
      UnescapeEscapeAll(s[1..]);
      assert [s[0]] + s[1..] == s;
    }
  }

  /** Text with no `"`, `\` or control character is quoted as it is. */
  lemma {:induction false} EscapeAllPlain(s: string)
    requires forall i :: 0 <= i < |s| ==> s[i] != '"' && s[i] != '\\' && !IsControl(s[i])
    ensures EscapeAll(s) == s
    decreases |s|
  {
    if s != [] {
      EscapeAllPlain(s[1..]);
      assert [s[0]] + s[1..] == s;
    }
  }

  /** Reading the quoted text between its quotes gives the string back. */
  lemma QuoteReadsBack(s: string)
    ensures UnescapeAll(Quote(s)[1..|Quote(s)| - 1]) == Some(s)
  {
    assert Quote(s)[1..|Quote(s)| - 1] == EscapeAll(s);
    UnescapeEscapeAll(s);
  }
}
