/** Percent-encoding of section 2.1 of RFC 3986 as the HTTP library does it, with '+' for a blank. */
module UrlCodec {
  import opened Bytes
  import opened CStrings

  const BLANK: U8 := 32
  const PERCENT: U8 := 37
  const AMPERSAND: U8 := 38
  const PLUS: U8 := 43
  const EQUALS: U8 := 61

  /** isAcceptable, under the mask the escaper uses: blank * - . / 0-9 @ A-Z _ a-z. */
  predicate Acceptable(a: U8) {
    a == 32 || a == 42 || 45 <= a <= 57 || 64 <= a <= 90 || a == 95 || 97 <= a <= 122
  }

  function HexDigit(n: U8): (d: U8)
    requires n < 16
  {
    if n < 10 then 48 + n else 55 + n
  }

  function EscapeChar(a: U8): seq<U8> {
    if Acceptable(a) then [a] else [PERCENT, HexDigit(a / 16), HexDigit(a % 16)]
  }

  function Escape(s: seq<U8>): seq<U8> {
    if s == [] then [] else Escape(s[..|s| - 1]) + EscapeChar(s[|s| - 1])
  }

  function BlanksToPlus(s: seq<U8>): (r: seq<U8>)
    ensures |r| == |s|
    ensures forall i :: 0 <= i < |s| ==> r[i] == if s[i] == BLANK then PLUS else s[i]
  {
    seq(|s|, i requires 0 <= i < |s| => if s[i] == BLANK then PLUS else s[i])
  }

  function UrlEncode(s: seq<U8>): seq<U8> {
    BlanksToPlus(Escape(s))
  }

  /** _httpd_from_hex, as a char: small letters, and whatever other characters come to. */
  function FromHex(c: U8): (v: U8) {
    if 48 <= c <= 57 then c - 48
    else if 65 <= c <= 70 then c - 55
    else (c - 87) % 256
  }

  /** The char after its first digit, and after its second. */
  function High(c: U8): U8 { FromHex(c) * 16 % 256 }

  function Low(high: U8, c: U8): U8 { (high + FromHex(c)) % 256 }

  /**
   * What unescaping makes of s from position p on, when q characters are out.  After '%' one
   * digit may be missing, or both: then the character stays that the buffer holds at position q.
   */
  function Unescape(s: seq<U8>, p: nat, q: nat): (r: seq<U8>)
    requires q <= p <= |s|
    ensures q + |r| <= |s|
    decreases |s| - p
  {
    if p == |s| then []
    else if s[p] != PERCENT then [if s[p] == PLUS then BLANK else s[p]] + Unescape(s, p + 1, q + 1)
    else if p + 1 == |s| then [s[q]]
    else if p + 2 == |s| then [High(s[p + 1])]
    else [Low(High(s[p + 1]), s[p + 2])] + Unescape(s, p + 3, q + 1)
  }

  // ----- escaping

  lemma {:induction false} EscapeConcat(a: seq<U8>, b: seq<U8>)
    ensures Escape(a + b) == Escape(a) + Escape(b)
    decreases |b|
  {
    hide EscapeChar;
    if b == [] {
      assert a + b == a;
    } else {
      assert (a + b)[..|a + b| - 1] == a + b[..|b| - 1];
      EscapeConcat(a, b[..|b| - 1]);
    }
  }

  /** Characters that need escaping. */
  function Unacceptable(s: seq<U8>): nat {
    if s == [] then 0 else Unacceptable(s[..|s| - 1]) + if Acceptable(s[|s| - 1]) then 0 else 1
  }

  lemma {:induction false} EscapeLength(s: seq<U8>)
    ensures |Escape(s)| == |s| + 2 * Unacceptable(s)
    decreases |s|
  {
    hide Acceptable;
    if s != [] {
      EscapeLength(s[..|s| - 1]);
    }
  }

  lemma EscapeStep(s: seq<U8>, p: nat)
    requires p <= |s|
    ensures Escape(s[..0]) == [] && Unacceptable(s[..0]) == 0
    ensures p < |s| ==> Escape(s[..p + 1]) == Escape(s[..p]) + EscapeChar(s[p])
    ensures p < |s| ==> Unacceptable(s[..p + 1]) == Unacceptable(s[..p]) + if Acceptable(s[p]) then 0 else 1
  {
    hide Acceptable, EscapeChar;
    if p < |s| {
      assert s[..p + 1][..p] == s[..p];
    }
  }

  lemma EscapeBound(s: seq<U8>, p: nat)
    requires p < |s|
    ensures |Escape(s[..p])| + |EscapeChar(s[p])| <= |Escape(s)|
  {
    hide EscapeChar, Escape;
    EscapeStep(s, p);
    assert s == s[..p + 1] + s[p + 1..];
    EscapeConcat(s[..p + 1], s[p + 1..]);
  }

  /** One round of the second loop. */
  method PutEscaped(result: array<U8>, at: nat, a: U8)
    requires at + |EscapeChar(a)| <= result.Length
    modifies result
    ensures result[..at + |EscapeChar(a)|] == old(result[..at]) + EscapeChar(a)
  {
    if !Acceptable(a) {
      result[at] := PERCENT;
      result[at + 1] := HexDigit(a / 16);
      result[at + 2] := HexDigit(a % 16);
    } else {
      result[at] := a;
    }
  }

  /** _httpd_escape: the first loop computes the allocation, the second fills all of it. */
  method EscapeString(str: seq<U8>) returns (result: array<U8>)
    ensures fresh(result) && result[..] == Escape(str) + [0]
  {
    hide Acceptable, Escape, Unacceptable, EscapeChar;
    var p, unacceptable := 0, 0;
    EscapeStep(str, 0);
    while p < |str|
      invariant 0 <= p <= |str| && unacceptable == 2 * Unacceptable(str[..p])
    {
      EscapeStep(str, p);
      if !Acceptable(str[p]) {
        unacceptable := unacceptable + 2;
      }
      p := p + 1;
    }
    assert str[..p] == str;
    EscapeLength(str);
    result := new U8[p + unacceptable + 1](_ => 0);
    ghost var full := Escape(str);
    p := 0;
    var q := 0;
    while p < |str|
      invariant 0 <= p <= |str| && q == |Escape(str[..p])| <= |full| == result.Length - 1
      invariant result[..q] == Escape(str[..p])
    {
      EscapeStep(str, p);
      EscapeBound(str, p);
      PutEscaped(result, q, str[p]);
      q := q + |EscapeChar(str[p])|;
      p := p + 1;
    }
    assert str[..p] == str;
    result[q] := 0;
  }

  lemma {:induction false} EscapedNoNul(s: seq<U8>)
    requires 0 !in s
    ensures 0 !in Escape(s)
    decreases |s|
  {
    if s != [] {
      assert s[|s| - 1] in s;
      EscapedNoNul(s[..|s| - 1]);
    }
  }

  /** httpdUrlEncode */
  method UrlEncodeString(str: seq<U8>) returns (escaped: array<U8>)
    requires 0 !in str
    ensures fresh(escaped) && escaped[..] == UrlEncode(str) + [0]
  {
    hide Escape;
    escaped := EscapeString(str);
    ghost var e := Escape(str);
    EscapedNoNul(str);
    var cp := 0;
    while escaped[cp] != 0
      invariant 0 <= cp <= |e|
      invariant forall i :: 0 <= i < escaped.Length ==>
                  escaped[i] == if i < cp && e[i] == BLANK then PLUS else (e + [0])[i]
      decreases |e| - cp
    {
      if escaped[cp] == BLANK {
        escaped[cp] := PLUS;
      }
      cp := cp + 1;
    }
  }

  // ----- unescaping

  /** What unescaping is given: the string s starts at str[at], and from index q on it is still there. */
  ghost predicate Holds(str: array<U8>, at: nat, q: nat, s: seq<U8>)
    reads str
  {
    && 0 !in s && at <= q <= at + |s| < str.Length && str[at + |s|] == 0
    && forall i :: q <= i < at + |s| ==> str[i] == s[i - at]
  }

  /** One round of the loop in _httpd_unescape. */
  method UnescapeOne(str: array<U8>, p: nat, q: nat, ghost at: nat, ghost s: seq<U8>) returns (r: nat)
    requires Holds(str, at, q, s) && q <= p < at + |s|
    modifies str
    ensures p < r <= at + |s| && Holds(str, at, q + 1, s)
    ensures Unescape(s, p - at, q - at) == [str[q]] + Unescape(s, r - at, q + 1 - at)
    ensures forall i :: 0 <= i < str.Length && i != q ==> str[i] == old(str[i])
  {
    hide High, Low;
    r := p;
    assert str[p] == s[p - at] && str[q] == s[q - at];
    assert p + 1 < at + |s| ==> str[p + 1] == s[p + 1 - at];
    assert p + 2 < at + |s| ==> str[p + 2] == s[p + 2 - at];
    if str[r] == PERCENT {
      r := r + 1;
      if str[r] != 0 {
        str[q] := High(str[r]);
        r := r + 1;
        if str[r] != 0 {
          str[q] := Low(str[q], str[r]);
          r := r + 1;
        }
      }
    } else {
      str[q] := if str[r] == PLUS then BLANK else str[r];
      r := r + 1;
    }
  }

  lemma Regroup(a: seq<U8>, b: U8, c: seq<U8>)
    ensures a + ([b] + c) == (a + [b]) + c
  {
  }

  lemma UnescapeEnd(s: seq<U8>)
    ensures forall q :: 0 <= q <= |s| ==> Unescape(s, |s|, q) == []
  {
  }

  /** _httpd_unescape, in place on the string that starts at str[at]. */
  method UnescapeString(str: array<U8>, at: nat)
    requires at <= str.Length && 0 in str[at..]
    modifies str
    ensures var s := CString(old(str[at..]), 0);
            var r := Unescape(s, 0, 0);
            && at + |s| < str.Length
            && str[at..at + |r|] == r && str[at + |r|] == 0
            && forall i :: 0 <= i < at || at + |s| < i < str.Length ==> str[i] == old(str[i])
  {
    hide CString, Unescape;
    ghost var s := CString(str[at..], 0);
    ghost var r := Unescape(s, 0, 0);
    assert str[at..][|s|] == 0 && Holds(str, at, at, s);
    var p: nat, q: nat := at, at;
    assert str[at..at] + r == r;
    while str[p] != 0
      invariant Holds(str, at, q, s) && q <= p <= at + |s|
      invariant str[at..q] + Unescape(s, p - at, q - at) == r
      invariant forall i :: 0 <= i < at || q <= i < str.Length ==> str[i] == old(str[i])
      decreases at + |s| - p
    {
      ghost var done := str[at..q];
      p := UnescapeOne(str, p, q, at, s);
      q := q + 1;
      assert str[at..q] == done + [str[q - 1]];
      Regroup(done, str[q - 1], Unescape(s, p - at, q - at));
    }
    UnescapeEnd(s);
    str[q] := 0;
  }

  // ----- the code of one character

  /** One character's code. */
  function Code(a: U8): (c: seq<U8>)
    ensures c != []
  {
    if a == BLANK then [PLUS]
    else if Acceptable(a) then [a]
    else [PERCENT, HexDigit(a / 16), HexDigit(a % 16)]
  }

  lemma CodeOf(a: U8)
    ensures BlanksToPlus(EscapeChar(a)) == Code(a)
  {
  }

  lemma EncodeFirst(v: seq<U8>)
    requires v != []
    ensures UrlEncode(v) == Code(v[0]) + UrlEncode(v[1..])
  {
    hide EscapeChar, Code;
    assert v == [v[0]] + v[1..];
    EscapeConcat([v[0]], v[1..]);
    assert [v[0]][..0] == [];
    assert Escape([v[0]]) == EscapeChar(v[0]);
    CodeOf(v[0]);
  }

  /** The code of a text is made of letters, digits, "*-./@_", '+' and '%'. */
  lemma {:induction false} EncodedSafe(v: seq<U8>)
    ensures forall c :: c in UrlEncode(v) ==> c != BLANK && (Acceptable(c) || c == PLUS || c == PERCENT)
    decreases |v|
  {
    if v != [] {
      EncodeFirst(v);
      EncodedSafe(v[1..]);
      hide UrlEncode;
    }
  }

  // ----- what a text with percent signs means

  /** The hexadecimal digits, "0123456789ABCDEF" and "0123456789abcdef". */
  const CAPITALS: seq<U8> := [48, 49, 50, 51, 52, 53, 54, 55, 56, 57, 65, 66, 67, 68, 69, 70]
  const SMALL: seq<U8> := [48, 49, 50, 51, 52, 53, 54, 55, 56, 57, 97, 98, 99, 100, 101, 102]

  /** The character is the digit n, as a capital or a small letter. */
  predicate IsDigit(c: U8, n: nat) {
    n < 16 && (c == CAPITALS[n] || c == SMALL[n])
  }

  /** The text spells the bytes: each as itself, '+' for a blank, or '%' and its two digits in either case. */
  ghost predicate Spells(data: seq<U8>, text: seq<U8>)
    decreases |data|
  {
    if data == [] || text == [] then data == [] && text == []
    else if text[0] == 37 then
      |text| >= 3 && IsDigit(text[1], data[0] / 16) && IsDigit(text[2], data[0] % 16) && Spells(data[1..], text[3..])
    else data[0] == (if text[0] == 43 then 32 else text[0]) && Spells(data[1..], text[1..])
  }

  lemma DigitBack(c: U8, n: nat)
    requires IsDigit(c, n)
    ensures FromHex(c) == n
  {
  }

  lemma DigitsBack(a: U8, high: U8, low: U8)
    requires IsDigit(high, a / 16) && IsDigit(low, a % 16)
    ensures Low(High(high), low) == a
  {
    hide IsDigit, FromHex;
    DigitBack(high, a / 16);
    DigitBack(low, a % 16);
  }

  lemma {:induction false} UnescapeSpelt(s: seq<U8>, p: nat, q: nat, data: seq<U8>)
    requires q <= p <= |s| && Spells(data, s[p..])
    ensures Unescape(s, p, q) == data
    decreases |data|
  {
    hide IsDigit, High, Low;
    if data == [] {
      UnescapeEnd(s);
    } else {
      var text := s[p..];
      assert text[0] == s[p];
      if text[0] == PERCENT {
        assert text[1] == s[p + 1] && text[2] == s[p + 2] && text[3..] == s[p + 3..];
        DigitsBack(data[0], s[p + 1], s[p + 2]);
        UnescapeSpelt(s, p + 3, q + 1, data[1..]);
      } else {
        assert text[1..] == s[p + 1..];
        UnescapeSpelt(s, p + 1, q + 1, data[1..]);
      }
    }
  }

  /** Unescaping gives back what a text spells, in whichever case its digits are. */
  lemma UnescapesSpelling(data: seq<U8>, text: seq<U8>)
    requires Spells(data, text)
    ensures Unescape(text, 0, 0) == data
  {
    assert text[0..] == text;
    UnescapeSpelt(text, 0, 0, data);
  }

  /** "%2F" and "%2f" are both a slash. */
  lemma SlashEitherCase()
    ensures Unescape([37, 50, 70], 0, 0) == Unescape([37, 50, 102], 0, 0) == [47]
  {
    assert [37, 50, 70][3..] == [] && [37, 50, 102][3..] == [];
    assert Spells([47], [37, 50, 70]) && Spells([47], [37, 50, 102]);
    UnescapesSpelling([47], [37, 50, 70]);
    UnescapesSpelling([47], [37, 50, 102]);
  }

  /** The code of a byte spells it, with capital digits when there are any. */
  lemma CodeSpells(a: U8, v: seq<U8>, rest: seq<U8>)
    requires Spells(v, rest)
    ensures Spells([a] + v, Code(a) + rest)
    ensures |Code(a)| == 3 ==> Code(a) == [PERCENT, CAPITALS[a / 16], CAPITALS[a % 16]]
  {
    var text := Code(a) + rest;
    assert ([a] + v)[1..] == v && text[|Code(a)|..] == rest;
  }

  lemma EmptyEncoded()
    ensures Spells([], UrlEncode([]))
  {
  }

  /** So the encoding spells its text. */
  lemma {:induction false} EncodeSpells(v: seq<U8>)
    ensures Spells(v, UrlEncode(v))
    decreases |v|
  {
    hide UrlEncode, Code, Spells;
    if v == [] {
      EmptyEncoded();
    } else {
      EncodeFirst(v);
      EncodeSpells(v[1..]);
      CodeSpells(v[0], v[1..], UrlEncode(v[1..]));
      assert v == [v[0]] + v[1..];
    }
  }

  // ----- the round trip

  /** Unescaping undoes the encoding, for every string. */
  lemma RoundTrip(v: seq<U8>)
    ensures Unescape(UrlEncode(v), 0, 0) == v
  {
    hide UrlEncode, Spells;
    EncodeSpells(v);
    UnescapesSpelling(v, UrlEncode(v));
  }
}
