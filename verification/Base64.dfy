/** Base64 decoding, against the encoding of section 4 of RFC 4648. */
module Base64 {
  import opened Bytes

  const PAD: byte := 61  // '='

  /** b64_decode_table; None stands for -1. */
  function Value(c: byte): (v: Option<byte>)
    ensures v.Some? ==> v.value < 64
  {
    if 65 <= c <= 90 then Some(c - 65)
    else if 97 <= c <= 122 then Some(c - 71)
    else if 48 <= c <= 57 then Some(c + 4)
    else if c == 43 then Some(62)
    else if c == 47 then Some(63)
    else None
  }

  /** The alphabet of RFC 4648, table 1. */
  function Digit(v: byte): (c: byte)
    requires v < 64
  {
    if v < 26 then v + 65
    else if v < 52 then v + 71
    else if v < 62 then v - 4
    else if v == 62 then 43
    else 47
  }

  function First(p: byte, d: byte): byte { (p << 2) | ((d & 0x30) >> 4) }

  function Second(p: byte, d: byte): byte { ((p & 0xf) << 4) | ((d & 0x3c) >> 2) }

  function Third(p: byte, d: byte): byte { ((p & 0x03) << 6) | d }

  /** The sextets of a text: its alphabet characters, everything else left out. */
  function Sextets(s: seq<byte>): (q: seq<byte>)
    ensures |q| <= |s|
  {
    if s == [] then []
    else Sextets(s[..|s| - 1]) + if Value(s[|s| - 1]).Some? then [Value(s[|s| - 1]).value] else []
  }

  /** Four sextets are three octets; a group of two or three gives one or two, one alone gives none. */
  function Octets(q: seq<byte>): seq<byte> {
    if |q| < 2 then []
    else [First(q[0], q[1])]
         + if |q| < 3 then []
           else [Second(q[1], q[2])]
                + if |q| < 4 then []
                  else [Third(q[2], q[3])] + Octets(q[4..])
  }

  /** The characters for sextets; a value above 63 does not occur and gets the padding character. */
  function Digits(v: seq<byte>): (r: seq<byte>)
    ensures |r| == |v|
  {
    if v == [] then []
    else Digits(v[..|v| - 1]) + [if v[|v| - 1] < 64 then Digit(v[|v| - 1]) else PAD]
  }

  /** The sextets of up to three octets. */
  function Group(data: seq<byte>): (v: seq<byte>)
    requires 1 <= |data| <= 3
    ensures |v| == |data| + 1
  {
    if |data| == 1 then [data[0] >> 2, (data[0] & 0x03) << 4]
    else if |data| == 2 then [data[0] >> 2, ((data[0] & 0x03) << 4) | (data[1] >> 4), (data[1] & 0x0f) << 2]
    else [data[0] >> 2, ((data[0] & 0x03) << 4) | (data[1] >> 4),
          ((data[1] & 0x0f) << 2) | (data[2] >> 6), data[2] & 0x3f]
  }

  /** Section 4 of RFC 4648: groups of 24 bits, the last one padded to four characters. */
  function Encode(data: seq<byte>): seq<byte> {
    if data == [] then []
    else if |data| == 1 then Digits(Group(data)) + [PAD, PAD]
    else if |data| == 2 then Digits(Group(data)) + [PAD]
    else Digits(Group(data[..3])) + Encode(data[3..])
  }

  // ----- decoding one character after another

  /** The octet a further sextet completes, if it completes one. */
  function Completed(q: seq<byte>, d: byte): seq<byte> {
    if |q| % 4 == 0 then []
    else var p := q[|q| - 1];
         [if |q| % 4 == 1 then First(p, d) else if |q| % 4 == 2 then Second(p, d) else Third(p, d)]
  }

  lemma Three(a: byte, b: byte, c: byte, rest: seq<byte>)
    ensures [a] + ([b] + ([c] + rest)) == [a, b, c] + rest
  {
  }

  lemma OctetsStep(q: seq<byte>)
    requires |q| >= 4
    ensures Octets(q) == [First(q[0], q[1]), Second(q[1], q[2]), Third(q[2], q[3])] + Octets(q[4..])
  {
    hide First, Second, Third;
    Three(First(q[0], q[1]), Second(q[1], q[2]), Third(q[2], q[3]), Octets(q[4..]));
  }

  /** Only the position within the group counts. */
  lemma CompletedShift(q: seq<byte>, d: byte)
    requires |q| >= 4
    ensures Completed(q[4..], d) == Completed(q, d)
  {
    hide First, Second, Third;
  }

  lemma {:induction false} OctetsNext(q: seq<byte>, d: byte)
    ensures Octets(q + [d]) == Octets(q) + Completed(q, d)
    decreases |q|
  {
    hide First, Second, Third;
    if |q| >= 4 {
      hide Octets, Completed;
      OctetsNext(q[4..], d);
      OctetsStep(q);
      OctetsStep(q + [d]);
      assert (q + [d])[4..] == q[4..] + [d];
      CompletedShift(q, d);
    } else if |q| == 3 {
      assert (q + [d])[4..] == [];
    }
  }

  /** The number of octets for k sextets. */
  lemma {:induction false} OctetsLength(q: seq<byte>)
    ensures |Octets(q)| == 3 * |q| / 4
    decreases |q|
  {
    if |q| >= 4 {
      OctetsLength(q[4..]);
    }
  }

  lemma SextetsNext(s: seq<byte>, i: nat)
    requires i < |s|
    ensures Sextets(s[..i + 1]) == Sextets(s[..i]) + if Value(s[i]).Some? then [Value(s[i]).value] else []
  {
    assert s[..i + 1][..i] == s[..i];
  }

  function Least(size: int, n: nat): (r: nat) {
    if size < 0 then 0 else if size < n then size else n
  }

  lemma Empty()
    ensures Sextets([]) == [] && Octets([]) == []
  {
  }

  /** _httpd_decode: the octets, as many as fit; `size` is the room the caller states. */
  method Decode(str: seq<byte>, space: array<byte>, size: int) returns (spaceIdx: nat)
    requires size <= space.Length && 0 !in str
    modifies space
    ensures spaceIdx == Least(size, |Octets(Sextets(str))|)
    ensures space[..spaceIdx] == Octets(Sextets(str))[..spaceIdx]
    ensures forall i :: spaceIdx <= i < space.Length ==> space[i] == old(space[i])
  {
    hide Value, Octets, Sextets, First, Second, Third;
    var phase, prev: byte, cp := 0, 0, 0;
    ghost var q: seq<byte> := [];
    spaceIdx := 0;
    Empty();
    assert str[..0] == [];
    while cp < |str|
      invariant 0 <= cp <= |str| && q == Sextets(str[..cp]) && phase == |q| % 4
      invariant phase > 0 ==> prev == q[|q| - 1]
      invariant spaceIdx == Least(size, |Octets(q)|) <= space.Length
      invariant space[..spaceIdx] == Octets(q)[..spaceIdx]
      invariant forall i :: spaceIdx <= i < space.Length ==> space[i] == old(space[i])
    {
      SextetsNext(str, cp);
      var d := Value(str[cp]);
      if d.Some? {
        OctetsNext(q, d.value);
        if phase == 0 {
          phase := 1;
        } else {
          var c := if phase == 1 then First(prev, d.value)
                   else if phase == 2 then Second(prev, d.value) else Third(prev, d.value);
          assert Octets(q + [d.value]) == Octets(q) + [c];
          if spaceIdx < size {
            space[spaceIdx] := c;
            spaceIdx := spaceIdx + 1;
            assert space[..spaceIdx] == Octets(q) + [c];
          }
          phase := if phase == 3 then 0 else phase + 1;
        }
        prev := d.value;
        q := q + [d.value];
      }
      cp := cp + 1;
    }
    assert str[..cp] == str;
  }

  // ----- the inverse of encoding

  lemma DigitValue(v: byte)
    requires v < 64
    ensures Value(Digit(v)) == Some(v) && Value(PAD).None?
  {
  }

  /** Only alphabet characters have a value. */
  lemma ValueDigit(c: byte)
    ensures Value(c).Some? ==> Digit(Value(c).value) == c
  {
  }

  lemma GroupSmall(data: seq<byte>)
    requires 1 <= |data| <= 3
    ensures forall i :: 0 <= i < |Group(data)| ==> Group(data)[i] < 64
  {
  }

  lemma Pieces(a: byte, b: byte, c: byte)
    ensures First(a >> 2, (a & 0x03) << 4) == a
    ensures First(a >> 2, ((a & 0x03) << 4) | (b >> 4)) == a
    ensures Second(((a & 0x03) << 4) | (b >> 4), (b & 0x0f) << 2) == b
    ensures Second(((a & 0x03) << 4) | (b >> 4), ((b & 0x0f) << 2) | (c >> 6)) == b
    ensures Third(((b & 0x0f) << 2) | (c >> 6), c & 0x3f) == c
  {
  }

  /** A group of sextets decodes to its octets. */
  lemma LastOctets(data: seq<byte>)
    requires 1 <= |data| <= 2
    ensures Octets(Group(data)) == data
  {
    Pieces(data[0], if |data| > 1 then data[1] else 0, 0);
    hide First, Second, Third;
  }

  lemma OctetsFour(q: seq<byte>, more: seq<byte>)
    requires |q| == 4
    ensures Octets(q + more) == [First(q[0], q[1]), Second(q[1], q[2]), Third(q[2], q[3])] + Octets(more)
  {
    hide First, Second, Third;
    assert (q + more)[4..] == more;
  }

  lemma FullOctets(data: seq<byte>, more: seq<byte>)
    requires |data| == 3
    ensures Octets(Group(data) + more) == data + Octets(more)
  {
    OctetsFour(Group(data), more);
    Pieces(data[0], data[1], data[2]);
    hide First, Second, Third, Octets;
  }

  lemma {:induction false} SextetsConcat(a: seq<byte>, b: seq<byte>)
    ensures Sextets(a + b) == Sextets(a) + Sextets(b)
    decreases |b|
  {
    hide Value;
    if b == [] {
      assert a + b == a;
    } else {
      assert (a + b)[..|a + b| - 1] == a + b[..|b| - 1];
      SextetsConcat(a, b[..|b| - 1]);
    }
  }

  lemma {:induction false} NoSextets(junk: seq<byte>)
    requires forall c :: c in junk ==> Value(c).None?
    ensures Sextets(junk) == []
    decreases |junk|
  {
    if junk != [] {
      NoSextets(junk[..|junk| - 1]);
    }
  }

  /** Characters outside the alphabet change nothing, wherever they are put. */
  lemma JunkIgnored(a: seq<byte>, junk: seq<byte>, b: seq<byte>)
    requires forall c :: c in junk ==> Value(c).None?
    ensures Sextets(a + junk + b) == Sextets(a + b)
  {
    hide Value;
    NoSextets(junk);
    SextetsConcat(a + junk, b);
    SextetsConcat(a, junk);
    SextetsConcat(a, b);
  }

  lemma {:induction false} SextetsDigits(v: seq<byte>)
    requires forall i :: 0 <= i < |v| ==> v[i] < 64
    ensures Sextets(Digits(v)) == v
    decreases |v|
  {
    hide Value, Digit;
    if v != [] {
      var n := |v| - 1;
      SextetsDigits(v[..n]);
      DigitValue(v[n]);
      assert Digits(v)[..n] == Digits(v[..n]);
    }
  }

  lemma PadIgnored(v: seq<byte>, pad: seq<byte>)
    requires forall i :: 0 <= i < |v| ==> v[i] < 64
    requires forall c :: c in pad ==> c == PAD
    ensures Sextets(Digits(v) + pad) == v
  {
    DigitValue(0);
    hide Value;
    SextetsDigits(v);
    JunkIgnored(Digits(v), pad, []);
    assert Digits(v) + pad + [] == Digits(v) + pad && Digits(v) + [] == Digits(v);
  }

  /** Decoding inverts encoding, for every byte string. */
  lemma {:induction false} RoundTrip(data: seq<byte>)
    ensures Octets(Sextets(Encode(data))) == data
    decreases |data|
  {
    hide Value, Octets, Group, Digits, Sextets;
    if data == [] {
      Empty();
    } else if |data| < 3 {
      var pad := if |data| == 1 then [PAD, PAD] else [PAD];
      GroupSmall(data);
      PadIgnored(Group(data), pad);
      LastOctets(data);
    } else {
      var head := data[..3];
      GroupSmall(head);
      SextetsDigits(Group(head));
      SextetsConcat(Digits(Group(head)), Encode(data[3..]));
      FullOctets(head, Sextets(Encode(data[3..])));
      RoundTrip(data[3..]);
      assert head + data[3..] == data;
    }
  }

  /** So with enough room the decoder gives back any byte string, with any non-alphabet characters strewn in. */
  lemma DecodesEncoded(data: seq<byte>, a: seq<byte>, junk: seq<byte>, b: seq<byte>, size: int)
    requires a + b == Encode(data) && size >= |data|
    requires forall c :: c in junk ==> Value(c).None?
    ensures var octets := Octets(Sextets(a + junk + b));
            octets[..Least(size, |octets|)] == data
  {
    hide Value, Octets, Sextets, Encode;
    JunkIgnored(a, junk, b);
    RoundTrip(data);
  }

  // ----- known answers

  /** "A" to "Z", "a" to "z", "0" to "9", "+" and "/". */
  lemma Alphabet()
    ensures [
      Digit(0), Digit(1), Digit(2), Digit(3), Digit(4), Digit(5), Digit(6), Digit(7), Digit(8), Digit(9), Digit(10), Digit(11), Digit(12), Digit(13), Digit(14), Digit(15),
      Digit(16), Digit(17), Digit(18), Digit(19), Digit(20), Digit(21), Digit(22), Digit(23), Digit(24), Digit(25), Digit(26), Digit(27), Digit(28), Digit(29), Digit(30), Digit(31),
      Digit(32), Digit(33), Digit(34), Digit(35), Digit(36), Digit(37), Digit(38), Digit(39), Digit(40), Digit(41), Digit(42), Digit(43), Digit(44), Digit(45), Digit(46), Digit(47),
      Digit(48), Digit(49), Digit(50), Digit(51), Digit(52), Digit(53), Digit(54), Digit(55), Digit(56), Digit(57), Digit(58), Digit(59), Digit(60), Digit(61), Digit(62), Digit(63)] == [
      65, 66, 67, 68, 69, 70, 71, 72, 73, 74, 75, 76, 77, 78, 79, 80,
      81, 82, 83, 84, 85, 86, 87, 88, 89, 90, 97, 98, 99, 100, 101, 102,
      103, 104, 105, 106, 107, 108, 109, 110, 111, 112, 113, 114, 115, 116, 117, 118,
      119, 120, 121, 122, 48, 49, 50, 51, 52, 53, 54, 55, 56, 57, 43, 47]
  {
  }

  lemma WholeGroup(a: byte, b: byte, c: byte, rest: seq<byte>)
    ensures Encode([a, b, c] + rest) == Digits(Group([a, b, c])) + Encode(rest)
  {
    var data := [a, b, c] + rest;
    assert data[..3] == [a, b, c] && data[3..] == rest;
  }

  lemma DigitsAppend(v: seq<byte>, d: byte)
    requires d < 64
    ensures Digits(v + [d]) == Digits(v) + [Digit(d)]
  {
    hide Digit;
    assert (v + [d])[..|v|] == v;
  }

  lemma DigitsOfTwo(a: byte, b: byte)
    requires a < 64 && b < 64
    ensures Digits([a, b]) == [Digit(a), Digit(b)]
  {
    DigitsAppend([], a);
    DigitsAppend([a], b);
    assert [] + [a] == [a] && [a] + [b] == [a, b];
    hide Digit;
  }

  lemma DigitsOfThree(a: byte, b: byte, c: byte)
    requires a < 64 && b < 64 && c < 64
    ensures Digits([a, b, c]) == [Digit(a), Digit(b), Digit(c)]
  {
    hide Digit, Digits;
    DigitsOfTwo(a, b);
    DigitsAppend([a, b], c);
    assert [a, b] + [c] == [a, b, c];
  }

  lemma DigitsOfFour(a: byte, b: byte, c: byte, d: byte)
    requires a < 64 && b < 64 && c < 64 && d < 64
    ensures Digits([a, b, c, d]) == [Digit(a), Digit(b), Digit(c), Digit(d)]
  {
    hide Digit, Digits;
    DigitsOfThree(a, b, c);
    DigitsAppend([a, b, c], d);
    assert [a, b, c] + [d] == [a, b, c, d];
  }

  /** Test vectors of section 10 of RFC 4648: "f", "fo" and "foobar"; and three bytes whose code is "+/+/". */
  lemma KnownAnswers()
    ensures Encode([102]) == [90, 103, 61, 61]
    ensures Encode([102, 111]) == [90, 109, 56, 61]
    ensures Encode([102, 111, 111, 98, 97, 114]) == [90, 109, 57, 118, 89, 109, 70, 121]
    ensures Encode([0xfb, 0xff, 0xbf]) == [43, 47, 43, 47]
  {
    hide Digits;
    DigitsOfTwo(25, 32);
    DigitsOfThree(25, 38, 60);
    WholeGroup(102, 111, 111, [98, 97, 114]);
    WholeGroup(98, 97, 114, []);
    assert [102, 111, 111] + [98, 97, 114] == [102, 111, 111, 98, 97, 114] && [98, 97, 114] + [] == [98, 97, 114];
    DigitsOfFour(25, 38, 61, 47);
    DigitsOfFour(24, 38, 5, 50);
    WholeGroup(0xfb, 0xff, 0xbf, []);
    assert [0xfb, 0xff, 0xbf] + [] == [0xfb as byte, 0xff, 0xbf];
    DigitsOfFour(62, 63, 62, 63);
  }
}
