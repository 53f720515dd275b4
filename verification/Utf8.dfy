/**
 * UTF-8 over 16-bit units, bit layout as in section 3 of RFC 3629.  A surrogate is encoded like
 * any other unit.  Characters are kept as 16-bit words below 256.
 */
module Utf8 {
  import opened CStrings

  type unit = bv16
  type octet = b: bv16 | b < 0x100

  // ----- the layout

  lemma Shapes(u: unit)
    ensures u < 0x800 ==> 0xc0 | (u >> 6) < 0x100
    ensures 0xe0 | (u >> 12) < 0x100
    ensures 0x80 | ((u >> 6) & 0x3f) < 0x100
    ensures 0x80 | (u & 0x3f) < 0x100
  {
  }

  function EncodeUnit(u: unit): (r: seq<octet>)
    ensures 1 <= |r| <= 3
  {
    Shapes(u);
    if u < 0x80 then [u]
    else if u < 0x800 then [0xc0 | (u >> 6), 0x80 | (u & 0x3f)]
    else [0xe0 | (u >> 12), 0x80 | ((u >> 6) & 0x3f), 0x80 | (u & 0x3f)]
  }

  function Encode(units: seq<unit>): seq<octet> {
    if units == [] then [] else Encode(units[..|units| - 1]) + EncodeUnit(units[|units| - 1])
  }

  /** The longest prefix whose encoding fits. */
  function Longest(units: seq<unit>, room: int): (k: nat)
    ensures k <= |units|
  {
    if units == [] || |EncodeUnit(units[0])| > room then 0
    else 1 + Longest(units[1..], room - |EncodeUnit(units[0])|)
  }

  lemma {:induction false} EncodeConcat(a: seq<unit>, b: seq<unit>)
    ensures Encode(a + b) == Encode(a) + Encode(b)
    decreases |b|
  {
    hide EncodeUnit;
    if b == [] {
      assert a + b == a;
    } else {
      assert (a + b)[..|a + b| - 1] == a + b[..|b| - 1];
      EncodeConcat(a, b[..|b| - 1]);
    }
  }

  lemma EncodeFirst(units: seq<unit>)
    requires units != []
    ensures Encode(units) == EncodeUnit(units[0]) + Encode(units[1..])
  {
    hide EncodeUnit;
    assert units == [units[0]] + units[1..];
    EncodeConcat([units[0]], units[1..]);
    assert [units[0]][..0] == [];
  }

  lemma UnitAnswers()
    ensures EncodeUnit(0x41) == [0x41] && EncodeUnit(0x2262) == [0xe2, 0x89, 0xa2] && EncodeUnit(0x391) == [0xce, 0x91]
  {
  }

  lemma UnitSizes(u: unit)
    ensures |EncodeUnit(u)| == if u < 0x80 then 1 else if u < 0x800 then 2 else 3
  {
  }

  lemma NothingEncoded()
    ensures Encode([]) == []
  {
  }

  /** "A", U+2262 and U+0391, as in section 7 of RFC 3629; and how many bytes a unit takes. */
  lemma KnownAnswers(u: unit)
    ensures Encode([0x41, 0x2262, 0x391]) == [0x41, 0xe2, 0x89, 0xa2, 0xce, 0x91]
    ensures |EncodeUnit(u)| == if u < 0x80 then 1 else if u < 0x800 then 2 else 3
  {
    EncodeFirst([0x41, 0x2262, 0x391]);
    EncodeFirst([0x2262, 0x391]);
    EncodeFirst([0x391]);
    UnitAnswers();
    UnitSizes(u);
    NothingEncoded();
    hide EncodeUnit, Encode;
  }

  /** It fits, and no longer prefix does. */
  lemma {:induction false} LongestFits(units: seq<unit>, room: int, k: nat)
    requires k <= |units|
    ensures (k == 0 || |Encode(units[..k])| <= room) <==> k <= Longest(units, room)
    decreases k
  {
    hide EncodeUnit;
    if k > 0 {
      var head := EncodeUnit(units[0]);
      LongestFits(units[1..], room - |head|, k - 1);
      EncodeFirst(units[..k]);
      assert units[..k][1..] == units[1..][..k - 1];
    }
  }

  // ----- the encoder

  /** What the encoder is asked to encode: without a positive length, a zero-terminated string. */
  function Input(uc: seq<unit>, len: int): seq<unit>
    requires len <= |uc|
  {
    if len <= 0 then CString(uc, 0) else uc[..len]
  }

  /** strlen16bit */
  method Strlen16(uc: seq<unit>) returns (len: nat)
    requires 0 in uc
    ensures len == |CString(uc, 0)|
  {
    len := 0;
    while uc[len] != 0
      invariant len <= |CString(uc, 0)| < |uc|
      decreases |uc| - len
    {
      len := len + 1;
    }
  }

  // The encoder's own arithmetic, on the two halves of a unit.

  lemma Small(x: unit, y: unit)
    ensures x & 0xff < 0x100 && y & 0xff < 0x100 && ((x << 2) | (y >> 6)) & 0xff < 0x100
    ensures x < 0x100 ==> 0xc0 | x < 0x100 && 0xe0 | (x >> 4) < 0x100
    ensures 0x80 | (x & 0x3f) < 0x100
  {
  }

  function Row(u: unit): octet { Small(u >> 8, u); (u >> 8) & 0xff }

  function Cell(u: unit): octet { Small(0, u); u & 0xff }

  /** The byte that straddles the halves. */
  function Middle(row: octet, cell: octet): octet { Small(row, cell); ((row << 2) | (cell >> 6)) & 0xff }

  function Lead2(b: octet): octet { Small(b, b); 0xc0 | b }

  function Lead3(row: octet): octet { Small(row, row); 0xe0 | (row >> 4) }

  function Trail(b: octet): octet { Small(b, b); 0x80 | (b & 0x3f) }

  lemma HalfBits(u: unit)
    ensures var row, cell := Row(u), Cell(u);
            var b := Middle(row, cell);
            && (row == 0 && cell < 0x80 <==> u < 0x80) && (u < 0x80 ==> cell == u)
            && (row < 0x08 <==> u < 0x800) && (u < 0x800 ==> Lead2(b) == 0xc0 | (u >> 6))
            && Lead3(row) == 0xe0 | (u >> 12)
            && Trail(b) == 0x80 | ((u >> 6) & 0x3f) && Trail(cell) == 0x80 | (u & 0x3f)
  {
  }

  /** The arithmetic gives the layout. */
  lemma Halves(u: unit)
    ensures var row, cell := Row(u), Cell(u);
            var b := Middle(row, cell);
            EncodeUnit(u) == if row == 0 && cell < 0x80 then [cell]
                             else if row < 0x08 then [Lead2(b), Trail(cell)]
                             else [Lead3(row), Trail(b), Trail(cell)]
  {
    HalfBits(u);
    hide Row, Cell, Middle, Lead2, Lead3, Trail;
  }

  /** The body of the encoder's loop: writes one unit's bytes, unless they do not fit before the final zero. */
  method PutUnit(u: unit, out: array<octet>, at: nat, lenOut: int) returns (fits: bool, p: nat)
    requires lenOut <= out.Length && at < out.Length
    modifies out
    ensures fits <==> at + |EncodeUnit(u)| <= lenOut - 1
    ensures p == (if fits then at + |EncodeUnit(u)| else at) < out.Length
    ensures out[..p] == old(out[..at]) + (if fits then EncodeUnit(u) else [])
    ensures forall j :: p <= j < out.Length ==> out[j] == old(out[j])
  {
    Halves(u);
    hide EncodeUnit, Row, Cell, Middle, Lead2, Lead3, Trail;
    p := at;
    var row, cell := Row(u), Cell(u);
    if row == 0 && cell < 0x80 {
      if p >= lenOut - 1 {
        return false, p;
      }
      out[p] := cell;
      p := p + 1;
    } else {
      var b := Middle(row, cell);
      if row < 0x08 {
        if p >= lenOut - 2 {
          return false, p;
        }
        out[p] := Lead2(b);
        p := p + 1;
      } else {
        if p >= lenOut - 3 {
          return false, p;
        }
        out[p] := Lead3(row);
        out[p + 1] := Trail(b);
        p := p + 2;
      }
      out[p] := Trail(cell);
      p := p + 1;
    }
    fits := true;
  }

  lemma EncodeNone(units: seq<unit>)
    ensures Encode(units[..0]) == [] && units[0..] == units
  {
  }

  lemma EncodeAll(units: seq<unit>, i: nat, room: int)
    requires i == |units|
    ensures Longest(units[i..], room) == 0
  {
  }

  lemma LongestStep(units: seq<unit>, i: nat, room: int)
    requires i < |units|
    ensures Encode(units[..i + 1]) == Encode(units[..i]) + EncodeUnit(units[i])
    ensures Longest(units[i..], room) ==
            if |EncodeUnit(units[i])| > room then 0 else 1 + Longest(units[i + 1..], room - |EncodeUnit(units[i])|)
  {
    hide EncodeUnit;
    assert units[..i + 1][..i] == units[..i];
    assert units[i..][1..] == units[i + 1..];
  }

  /** The loop of unicode_to_utf8. */
  method EncodeUnits(units: seq<unit>, out: array<octet>, lenOut: int) returns (p: nat)
    requires lenOut <= out.Length && out.Length > 0
    modifies out
    ensures p < out.Length && out[..p] == Encode(units[..Longest(units, lenOut - 1)])
    ensures forall i :: p <= i < out.Length ==> out[i] == old(out[i])
  {
    hide Encode, Longest, EncodeUnit;
    var i, fits := 0, true;
    p := 0;
    EncodeNone(units);
    while i < |units| && fits
      invariant 0 <= i <= |units| && p < out.Length
      invariant out[..p] == Encode(units[..i])
      invariant Longest(units, lenOut - 1) == i + if fits then Longest(units[i..], lenOut - 1 - p) else 0
      invariant forall j :: p <= j < out.Length ==> out[j] == old(out[j])
      decreases |units| - i, fits
    {
      LongestStep(units, i, lenOut - 1 - p);
      fits, p := PutUnit(units[i], out, p, lenOut);
      if fits {
        i := i + 1;
      }
    }
    if i == |units| {
      EncodeAll(units, i, lenOut - 1 - p);
    }
  }

  /**
   * unicode_to_utf8: the encoding of the longest prefix that leaves room for the final zero.
   */
  method UnicodeToUtf8(uc: seq<unit>, len: int, out: array<octet>, lenOut: int) returns (p: nat)
    requires len <= |uc| && (len <= 0 ==> 0 in uc)
    requires lenOut <= out.Length && out.Length > 0
    modifies out
    ensures var units := Input(uc, len);
            var r := Encode(units[..Longest(units, lenOut - 1)]);
            p == |r| < out.Length && out[..p] == r && out[p] == 0
    ensures forall i :: p < i < out.Length ==> out[i] == old(out[i])
  {
    hide Encode, Longest, EncodeUnit;
    var n := len;
    if n <= 0 {
      n := Strlen16(uc);
    }
    assert Input(uc, len) == uc[..n];
    p := EncodeUnits(uc[..n], out, lenOut);
    out[p] := 0;
  }

  // ----- the decoder

  predicate IsTrail(ch: octet) { ch & 0xc0 == 0x80 }

  predicate IsLead2(ch: octet) { ch & 0xe0 == 0xc0 }

  predicate IsLead3(ch: octet) { ch & 0xf0 == 0xe0 }

  function Push(uc: unit, ch: octet): unit { (uc << 6) | (ch & 0x3f) }

  function Low5(ch: octet): unit { ch & 0x1f }

  function Low4(ch: octet): unit { ch & 0x0f }

  const BAD: unit := 0xfffd

  /**
   * The units decoded from here on: `need` trail bytes are missing from `uc`, and p units are
   * already out.  Only a unit of several bytes is checked against the room, and the first one
   * that has none ends the decoding.
   */
  function Decode(chars: seq<octet>, uc: unit, need: nat, p: nat, lenOut: int): seq<unit>
    decreases |chars|
  {
    if chars == [] then []
    else
      var ch, rest := chars[0], chars[1..];
      if need > 0 then
        if !IsTrail(ch) then [BAD] + Decode(rest, uc, 0, p + 1, lenOut)
        else if need > 1 then Decode(rest, Push(uc, ch), need - 1, p, lenOut)
        else if p >= lenOut - 1 then []
        else [Push(uc, ch)] + Decode(rest, Push(uc, ch), 0, p + 1, lenOut)
      else if ch < 128 then [ch] + Decode(rest, uc, 0, p + 1, lenOut)
      else if IsLead2(ch) then Decode(rest, Low5(ch), 1, p, lenOut)
      else if IsLead3(ch) then Decode(rest, Low4(ch), 2, p, lenOut)
      else Decode(rest, uc, 0, p, lenOut)
  }

  /** A unit goes behind those written so far. */
  method Store(result: array<unit>, at: nat, u: unit) returns (p: nat)
    requires at < result.Length
    modifies result
    ensures p == at + 1 && result[..p] == old(result[..at]) + [u]
    ensures forall j :: p <= j < result.Length ==> result[j] == old(result[j])
  {
    result[at] := u;
    p := at + 1;
  }

  lemma DecodeEnd(s: seq<octet>, i: nat, uc: unit, need: nat, p: nat, lenOut: int)
    requires i == |s|
    ensures Decode(s[i..], uc, need, p, lenOut) == []
  {
  }

  lemma DecodeStep(s: seq<octet>, i: nat, uc: unit, need: nat, p: nat, lenOut: int, done: seq<unit>)
    requires i < |s|
    ensures var ch, rest := s[i], s[i + 1..];
            done + Decode(s[i..], uc, need, p, lenOut) ==
            if need > 0 then
              if !IsTrail(ch) then (done + [BAD]) + Decode(rest, uc, 0, p + 1, lenOut)
              else if need > 1 then done + Decode(rest, Push(uc, ch), need - 1, p, lenOut)
              else if p >= lenOut - 1 then done
              else (done + [Push(uc, ch)]) + Decode(rest, Push(uc, ch), 0, p + 1, lenOut)
            else if ch < 128 then (done + [ch]) + Decode(rest, uc, 0, p + 1, lenOut)
            else if IsLead2(ch) then done + Decode(rest, Low5(ch), 1, p, lenOut)
            else if IsLead3(ch) then done + Decode(rest, Low4(ch), 2, p, lenOut)
            else done + Decode(rest, uc, 0, p, lenOut)
  {
    hide IsTrail, IsLead2, IsLead3, Push, Low5, Low4;
    assert s[i..][1..] == s[i + 1..];
  }

  /** utf8_to_unicode; the caller must have room for what comes out. */
  method Utf8ToUnicode(chars: seq<octet>, len: int, result: array<unit>, lenOut: int) returns (p: nat)
    requires len <= |chars|
    requires |Decode(chars[..if len < 0 then 0 else len], 0, 0, 0, lenOut)| <= result.Length
    modifies result
    ensures var r := Decode(chars[..if len < 0 then 0 else len], 0, 0, 0, lenOut);
            p == |r| && result[..p] == r
    ensures forall i :: p <= i < result.Length ==> result[i] == old(result[i])
  {
    hide Decode, IsTrail, IsLead2, IsLead3, Push, Low5, Low4;
    ghost var s := chars[..if len < 0 then 0 else len];
    ghost var all := Decode(s, 0, 0, 0, lenOut);
    var uc: unit, need: nat, i: nat := 0, 0, 0;
    p := 0;
    assert s[0..] == s && [] + all == all;
    while i < len
      invariant i <= |s| && p <= result.Length
      invariant result[..p] + Decode(s[i..], uc, need, p, lenOut) == all
      invariant forall j :: p <= j < result.Length ==> result[j] == old(result[j])
    {
      var ch := chars[i];
      ghost var done := result[..p];
      DecodeStep(s, i, uc, need, p, lenOut, done);
      if need > 0 {
        if IsTrail(ch) {
          uc := Push(uc, ch);
          need := need - 1;
          if need == 0 {
            if p >= lenOut - 1 {
              return;
            }
            p := Store(result, p, uc);
          }
        } else {
          p := Store(result, p, BAD);
          need := 0;
        }
      } else {
        if ch < 128 {
          p := Store(result, p, ch);
        } else if IsLead2(ch) {
          uc := Low5(ch);
          need := 1;
        } else if IsLead3(ch) {
          uc := Low4(ch);
          need := 2;
        }
      }
      i := i + 1;
    }
    DecodeEnd(s, i, uc, need, p, lenOut);
  }

  // ----- the round trip

  /** How many units a decoder with p units out takes: up to the first one of several bytes for which there is no room. */
  function Accepted(units: seq<unit>, p: nat, lenOut: int): (k: nat)
    ensures k <= |units|
  {
    if units == [] || (units[0] >= 0x80 && p >= lenOut - 1) then 0
    else 1 + Accepted(units[1..], p + 1, lenOut)
  }

  /** The decoder's arithmetic on the bytes of a unit. */
  lemma UnitBits(u: unit)
    ensures var c := EncodeUnit(u);
            && (|c| == 1 <==> u < 0x80) && (|c| == 1 ==> c[0] == u)
            && (|c| == 2 ==> c[0] >= 128 && IsLead2(c[0]) && IsTrail(c[1]) && Push(Low5(c[0]), c[1]) == u)
            && (|c| == 3 ==> c[0] >= 128 && !IsLead2(c[0]) && IsLead3(c[0]) && IsTrail(c[1]) && IsTrail(c[2]))
            && (|c| == 3 ==> Push(Push(Low4(c[0]), c[1]), c[2]) == u)
  {
    Shapes(u);
    assert u < 0x800 ==> Push(Low5(0xc0 | (u >> 6)), 0x80 | (u & 0x3f)) == u;
    assert Push(Push(Low4(0xe0 | (u >> 12)), 0x80 | ((u >> 6) & 0x3f)), 0x80 | (u & 0x3f)) == u;
  }

  /** One unit, with anything after it; what is left in `uc` does not matter. */
  lemma DecodeUnit(u: unit, rest: seq<octet>, uc: unit, p: nat, lenOut: int) returns (uc': unit)
    ensures Decode(EncodeUnit(u) + rest, uc, 0, p, lenOut) ==
            if u >= 0x80 && p >= lenOut - 1 then [] else [u] + Decode(rest, uc', 0, p + 1, lenOut)
  {
    UnitBits(u);
    hide EncodeUnit, IsTrail, IsLead2, IsLead3, Push, Low5, Low4;
    var c := EncodeUnit(u);
    var s := c + rest;
    uc' := if |c| == 1 then uc else u;
    if |c| == 1 {
      assert s[1..] == rest && c == [u];
    } else if |c| == 2 {
      assert s[1..] == [c[1]] + rest;
      assert Decode(s, uc, 0, p, lenOut) == Decode([c[1]] + rest, Low5(c[0]), 1, p, lenOut);
      assert ([c[1]] + rest)[1..] == rest;
    } else {
      assert s[1..] == [c[1], c[2]] + rest;
      assert Decode(s, uc, 0, p, lenOut) == Decode([c[1], c[2]] + rest, Low4(c[0]), 2, p, lenOut);
      assert ([c[1], c[2]] + rest)[1..] == [c[2]] + rest;
      assert Decode(s, uc, 0, p, lenOut) == Decode([c[2]] + rest, Push(Low4(c[0]), c[1]), 1, p, lenOut);
      assert ([c[2]] + rest)[1..] == rest;
    }
  }

  lemma {:induction false} RoundTrip(units: seq<unit>, uc: unit, p: nat, lenOut: int)
    ensures Decode(Encode(units), uc, 0, p, lenOut) == units[..Accepted(units, p, lenOut)]
    decreases |units|
  {
    hide Decode, EncodeUnit;
    if units == [] {
      DecodeEnd([], 0, uc, 0, p, lenOut);
    } else {
      EncodeFirst(units);
      var uc' := DecodeUnit(units[0], Encode(units[1..]), uc, p, lenOut);
      RoundTrip(units[1..], uc', p + 1, lenOut);
    }
  }

  lemma {:induction false} AcceptsAll(units: seq<unit>, p: nat, lenOut: int)
    ensures Accepted(units, p, lenOut) == |units| <==>
            forall j :: 0 <= j < |units| && units[j] >= 0x80 ==> p + j < lenOut - 1
    decreases |units|
  {
    if units != [] {
      AcceptsAll(units[1..], p + 1, lenOut);
      assert forall j :: 0 <= j < |units| - 1 ==> units[1..][j] == units[j + 1];
      assert forall j :: 1 <= j < |units| ==> units[j] == units[1..][j - 1];
    }
  }

  /**
   * Decoding the encoder's output gives back the prefix it encoded, iff the decoder has room for
   * every unit of several bytes - for any surrogates and other 16-bit units.
   */
  lemma DecodesPrefix(units: seq<unit>, room: int, lenOut: int)
    ensures var sent := units[..Longest(units, room)];
            Decode(Encode(sent), 0, 0, 0, lenOut) == sent <==>
            forall j :: 0 <= j < |sent| && sent[j] >= 0x80 ==> j < lenOut - 1
  {
    hide Decode, Encode, Longest;
    var sent := units[..Longest(units, room)];
    RoundTrip(sent, 0, 0, lenOut);
    AcceptsAll(sent, 0, lenOut);
    assert |sent[..Accepted(sent, 0, lenOut)]| == Accepted(sent, 0, lenOut);
    assert sent[..|sent|] == sent;
  }

  // ----- the stated room

  /** Where the decoder stops: at the first unit of several bytes from the last place on. */
  lemma {:induction false} AcceptedStops(units: seq<unit>, p: nat, lenOut: int)
    ensures var k := Accepted(units, p, lenOut);
            && (forall j :: 0 <= j < k ==> units[j] < 0x80 || p + j < lenOut - 1)
            && (k < |units| ==> units[k] >= 0x80 && p + k >= lenOut - 1)
    decreases |units|
  {
    if units != [] && !(units[0] >= 0x80 && p >= lenOut - 1) {
      AcceptedStops(units[1..], p + 1, lenOut);
      assert forall j :: 1 <= j < |units| ==> units[j] == units[1..][j - 1];
    }
  }

  /**
   * The decoder stays within the room it is told iff the text does, or one of the two units around
   * the end of the room takes several bytes: only those are checked.
   */
  lemma StaysInRoom(units: seq<unit>, lenOut: nat)
    ensures |Decode(Encode(units), 0, 0, 0, lenOut)| <= lenOut <==>
            || |units| <= lenOut
            || units[lenOut] >= 0x80
            || (lenOut > 0 && units[lenOut - 1] >= 0x80)
  {
    hide Decode, Encode, Accepted;
    RoundTrip(units, 0, 0, lenOut);
    AcceptedStops(units, 0, lenOut);
    var k := Accepted(units, 0, lenOut);
    assert |units[..k]| == k;
  }

  /** For every room there is an ASCII text that exceeds it. */
  lemma AsciiExceedsRoom(lenOut: nat)
    ensures var units := seq(lenOut + 1, _ => 0x41);
            |Decode(Encode(units), 0, 0, 0, lenOut)| == lenOut + 1
  {
    hide Decode, Encode, Accepted;
    var units: seq<unit> := seq(lenOut + 1, _ => 0x41);
    RoundTrip(units, 0, 0, lenOut);
    AcceptedStops(units, 0, lenOut);
  }

  // ----- the same for all bytes

  /** A unit that the decoder makes; a wide one, of several bytes, is checked against the room. */
  datatype Made = Made(u: unit, wide: bool)

  /** All units that bytes stand for, well formed or not, if there is room. */
  function Units(chars: seq<octet>, uc: unit, need: nat): seq<Made>
    decreases |chars|
  {
    if chars == [] then []
    else
      var ch, rest := chars[0], chars[1..];
      if need > 0 then
        if !IsTrail(ch) then [Made(BAD, false)] + Units(rest, uc, 0)
        else if need > 1 then Units(rest, Push(uc, ch), need - 1)
        else [Made(Push(uc, ch), true)] + Units(rest, Push(uc, ch), 0)
      else if ch < 128 then [Made(ch, false)] + Units(rest, uc, 0)
      else if IsLead2(ch) then Units(rest, Low5(ch), 1)
      else if IsLead3(ch) then Units(rest, Low4(ch), 2)
      else Units(rest, uc, 0)
  }

  /** How many of them are taken with p units out: up to the first wide one for which there is no room. */
  function Taken(made: seq<Made>, p: nat, lenOut: int): (k: nat)
    ensures k <= |made|
    ensures forall j :: 0 <= j < k ==> !made[j].wide || p + j < lenOut - 1
    ensures k < |made| ==> made[k].wide && p + k >= lenOut - 1
  {
    if made == [] || (made[0].wide && p >= lenOut - 1) then 0 else 1 + Taken(made[1..], p + 1, lenOut)
  }

  /** The units given are the ones taken. */
  ghost predicate Gives(r: seq<unit>, made: seq<Made>, p: nat, lenOut: int) {
    |r| == Taken(made, p, lenOut) && forall j :: 0 <= j < |r| ==> r[j] == made[j].u
  }

  lemma GivesFirst(x: Made, r: seq<unit>, made: seq<Made>, p: nat, lenOut: int)
    requires Gives(r, made, p + 1, lenOut)
    ensures Gives(if x.wide && p >= lenOut - 1 then [] else [x.u] + r, [x] + made, p, lenOut)
  {
    assert ([x] + made)[1..] == made;
  }

  lemma GivesNone(p: nat, lenOut: int)
    ensures Gives([], [], p, lenOut)
  {
  }

  /** The decoder gives a prefix of the units. */
  lemma {:induction false} DecodesTaken(chars: seq<octet>, uc: unit, need: nat, p: nat, lenOut: int)
    ensures Gives(Decode(chars, uc, need, p, lenOut), Units(chars, uc, need), p, lenOut)
    decreases |chars|
  {
    hide IsTrail, IsLead2, IsLead3, Push, Low5, Low4, Gives;
    if chars == [] {
      GivesNone(p, lenOut);
    } else {
      var ch, rest := chars[0], chars[1..];
      if need > 0 {
        if !IsTrail(ch) {
          DecodesTaken(rest, uc, 0, p + 1, lenOut);
          GivesFirst(Made(BAD, false), Decode(rest, uc, 0, p + 1, lenOut), Units(rest, uc, 0), p, lenOut);
        } else if need > 1 {
          DecodesTaken(rest, Push(uc, ch), need - 1, p, lenOut);
        } else {
          var u := Push(uc, ch);
          DecodesTaken(rest, u, 0, p + 1, lenOut);
          GivesFirst(Made(u, true), Decode(rest, u, 0, p + 1, lenOut), Units(rest, u, 0), p, lenOut);
        }
      } else if ch < 128 {
        DecodesTaken(rest, uc, 0, p + 1, lenOut);
        GivesFirst(Made(ch, false), Decode(rest, uc, 0, p + 1, lenOut), Units(rest, uc, 0), p, lenOut);
      } else if IsLead2(ch) {
        DecodesTaken(rest, Low5(ch), 1, p, lenOut);
      } else if IsLead3(ch) {
        DecodesTaken(rest, Low4(ch), 2, p, lenOut);
      } else {
        DecodesTaken(rest, uc, 0, p, lenOut);
      }
    }
  }

  /** On any bytes the decoder stays within the room iff their units do, or one of the two around its end is wide. */
  lemma BytesStayInRoom(chars: seq<octet>, lenOut: nat)
    ensures var made := Units(chars, 0, 0);
            |Decode(chars, 0, 0, 0, lenOut)| <= lenOut <==>
            || |made| <= lenOut
            || made[lenOut].wide
            || (lenOut > 0 && made[lenOut - 1].wide)
  {
    DecodesTaken(chars, 0, 0, 0, lenOut);
    hide Decode, Units;
    var made := Units(chars, 0, 0);
    assert Taken(made, 0, lenOut) <= |made|;
  }
}
