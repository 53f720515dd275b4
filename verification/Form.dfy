/** Parsing form data: name=value pairs joined by '&', values percent-encoded. */
module Form {
  import opened Bytes
  import opened CStrings
  import opened UrlCodec
  import opened FormVars

  const ROOM: nat := 50  // sizeof(var)
  const DOT: U8 := 46
  const DOT_WORD: text := [95, 100, 111, 116, 95]  // "_dot_"

  // ----- _httpd_storeData on values

  /** A write into the name buffer; one that does not fit is outside this model. */
  function Put(buf: text, at: nat, data: text): (r: text)
    ensures |r| == |buf|
  {
    if at + |data| <= |buf| then Splice(buf, at, data) else buf
  }

  /** A name's character as the buffer gets it. */
  function Spell(c: U8): (r: text)
    ensures r != []
  {
    if c == DOT then DOT_WORD else [c]
  }

  /** strcpy adds a NUL after the spelled-out dot; a plain character is stored without one. */
  function PutChar(buf: text, at: nat, c: U8): (r: text)
    ensures |r| == |buf|
  {
    Put(buf, at, if c == DOT then DOT_WORD + [0] else [c])
  }

  /** The value of a pair: without '=' the empty string, else what unescaping leaves before the first NUL. */
  function Finish(val: Option<text>): text {
    match val
    case None => []
    case Some(raw) => CString(Unescape(raw, 0, 0), 0)
  }

  /**
   * The variables after the rest s of a query: `buf` is the name buffer, `at` the place for the
   * next character of the name, `val` the value read so far.
   */
  function Scan(s: text, buf: text, at: nat, val: Option<text>, vars: seq<Var>): seq<Var>
    decreases |s|
  {
    if s == [] then Add(vars, CString(buf, 0), Finish(val))
    else if s[0] == EQUALS then Scan(s[1..], Put(buf, at, [0]), at, Some([]), vars)
    else if s[0] == AMPERSAND then Scan(s[1..], buf, 0, None, Add(vars, CString(buf, 0), Finish(val)))
    else if val.Some? then Scan(s[1..], buf, at, Some(val.value + [s[0]]), vars)
    else Scan(s[1..], PutChar(buf, at, s[0]), at + |Spell(s[0])|, None, vars)
  }

  /** Every name of the query, its dots spelled out, leaves room for a NUL in the buffer. */
  predicate NamesFit(s: text, at: nat, inValue: bool)
    decreases |s|
  {
    if s == [] then true
    else if s[0] == EQUALS then NamesFit(s[1..], at, true)
    else if s[0] == AMPERSAND then NamesFit(s[1..], 0, false)
    else if inValue then NamesFit(s[1..], at, true)
    else at + |Spell(s[0])| < ROOM && NamesFit(s[1..], at + |Spell(s[0])|, false)
  }

  /** Every access to the name buffer on the way through a query stays inside it: the writes, and the reads up to a NUL. */
  predicate InBounds(s: text, buf: text, at: nat, inValue: bool)
    decreases |s|
  {
    if s == [] then 0 in buf
    else if s[0] == EQUALS then at < |buf| && InBounds(s[1..], Put(buf, at, [0]), at, true)
    else if s[0] == AMPERSAND then 0 in buf && InBounds(s[1..], buf, 0, false)
    else if inValue then InBounds(s[1..], buf, at, true)
    else
      var n := if s[0] == DOT then |DOT_WORD| + 1 else 1;
      at + n <= |buf| && InBounds(s[1..], PutChar(buf, at, s[0]), at + |Spell(s[0])|, false)
  }

  /** A name that fills the buffer leaves no room for its NUL. */
  lemma NoRoomLeft(s: text, buf: text)
    requires 0 !in buf
    ensures !InBounds(s, buf, |buf|, false)
  {
  }

  lemma PutChars(buf: text, at: nat, c: U8)
    requires |buf| == ROOM && at + |Spell(c)| < ROOM
    ensures PutChar(buf, at, c)[..at + |Spell(c)|] == buf[..at] + Spell(c)
    ensures var r, n := PutChar(buf, at, c), at + |Spell(c)|;
            r[n] == (if c == DOT then 0 else buf[n]) && forall i :: n < i < ROOM ==> r[i] == buf[i]
  {
  }

  lemma PutKeepsNul(buf: text, at: nat, c: U8)
    requires |buf| == ROOM && buf[ROOM - 1] == 0 && at < ROOM && c != 0 && 0 !in buf[..at]
    ensures var r, n := PutChar(buf, at, c), at + |Spell(c)|;
            n < ROOM ==> r[ROOM - 1] == 0 && 0 !in r[..n]
    ensures at == ROOM - 1 && c != DOT ==> 0 !in PutChar(buf, at, c)
  {
    var r, n := PutChar(buf, at, c), at + |Spell(c)|;
    if n < ROOM {
      PutChars(buf, at, c);
    }
    if at == ROOM - 1 && c != DOT {
      assert r == buf[..at] + [c];
    }
  }

  lemma PutLast(buf: text, at: nat)
    requires |buf| == ROOM && buf[ROOM - 1] == 0
    ensures Put(buf, at, [0])[ROOM - 1] == 0
  {
  }

  /** The condition on names is exact: the parser stays inside its buffer iff they fit. */
  lemma {:induction false} FitsIffInBounds(s: text, buf: text, at: nat, inValue: bool)
    requires 0 !in s && |buf| == ROOM && buf[ROOM - 1] == 0 && at < ROOM && (!inValue ==> 0 !in buf[..at])
    ensures InBounds(s, buf, at, inValue) <==> NamesFit(s, at, inValue)
    decreases |s|
  {
    hide PutChar, Put;
    if s != [] {
      var c, more := s[0], s[1..];
      assert c in s && buf[..0] == [];
      if c == EQUALS {
        PutLast(buf, at);
        FitsIffInBounds(more, Put(buf, at, [0]), at, true);
      } else if c == AMPERSAND {
        FitsIffInBounds(more, buf, 0, false);
      } else if inValue {
        FitsIffInBounds(more, buf, at, true);
      } else {
        PutKeepsNul(buf, at, c);
        if at + |Spell(c)| < ROOM {
          FitsIffInBounds(more, PutChar(buf, at, c), at + |Spell(c)|, false);
        } else if c != DOT {
          NoRoomLeft(more, PutChar(buf, at, c));
        }
      }
    }
  }

  /** A query of any NUL-free bytes is parsed within the buffer's bounds iff its names fit. */
  lemma QueryFits(query: text)
    requires 0 !in query
    ensures InBounds(query, seq(ROOM, _ => 0), 0, false) <==> NamesFit(query, 0, false)
  {
    FitsIffInBounds(query, seq(ROOM, _ => 0), 0, false);
  }

  /** A name as the parser keeps it. */
  function Dotted(name: text): text {
    if name == [] then [] else Spell(name[0]) + Dotted(name[1..])
  }

  /** A name without dots and without a leading blank or tab is kept as it is. */
  lemma {:induction false} PlainName(name: text)
    requires DOT !in name
    ensures Dotted(name) == name
    ensures name == [] || (name[0] != BLANK && name[0] != 9) ==> Strip(Dotted(name)) == name
    decreases |name|
  {
    if name != [] {
      assert name[0] in name;
      PlainName(name[1..]);
    }
  }

  lemma {:induction false} NameFits(name: text, rest: text, at: nat)
    requires EQUALS !in name && AMPERSAND !in name && at < ROOM && NamesFit(name + rest, at, false)
    ensures at + |Dotted(name)| < ROOM
    decreases |name|
  {
    if name != [] {
      assert (name + rest)[1..] == name[1..] + rest && name[0] in name;
      NameFits(name[1..], rest, at + |Spell(name[0])|);
    }
  }

  /** A name of 50 characters leaves the buffer. */
  lemma LongNameLeaves(c: U8)
    requires c !in {0, DOT, EQUALS, AMPERSAND}
    ensures !InBounds(seq(ROOM, _ => c), seq(ROOM, _ => 0), 0, false)
  {
    var query := seq(ROOM, _ => c);
    assert query + [] == query;
    QueryFits(query);
    PlainName(query);
    if NamesFit(query, 0, false) {
      NameFits(query, [], 0);
    }
  }

  function Stored(vars: seq<Var>, query: text): seq<Var> {
    Scan(query, seq(ROOM, _ => 0), 0, None, vars)
  }

  // ----- printing and parsing

  datatype Pair = Pair(name: text, value: text)

  function PrintPair(p: Pair): text {
    p.name + [EQUALS] + UrlEncode(p.value)
  }

  function Print(pairs: seq<Pair>): text
    requires pairs != []
  {
    if |pairs| == 1 then PrintPair(pairs[0])
    else PrintPair(pairs[0]) + [AMPERSAND] + Print(pairs[1..])
  }

  predicate Good(p: Pair) {
    && EQUALS !in p.name && AMPERSAND !in p.name && 0 !in p.name && |Dotted(p.name)| < ROOM
    && 0 !in p.value
  }

  function AddAll(vars: seq<Var>, pairs: seq<Pair>): seq<Var>
    decreases |pairs|
  {
    if pairs == [] then vars else AddAll(Add(vars, Dotted(pairs[0].name), pairs[0].value), pairs[1..])
  }

  /** The values printed under a name, in order. */
  function ValuesOf(pairs: seq<Pair>, name: text): seq<text> {
    if pairs == [] then []
    else (if Strip(Dotted(pairs[0].name)) == name then [pairs[0].value] else []) + ValuesOf(pairs[1..], name)
  }

  predicate EndsInDot(name: text) {
    name != [] && name[|name| - 1] == DOT
  }

  /** What is in the buffer after a name was written from `at` on. */
  ghost predicate NameWritten(name: text, buf: text, at: nat, r: text) {
    var n := at + |Dotted(name)|;
    && |r| == ROOM == |buf| && n < ROOM && r[..n] == buf[..at] + Dotted(name)
    && r[n] == (if EndsInDot(name) then 0 else buf[n])
    && forall i :: n < i < ROOM ==> r[i] == buf[i]
  }

  lemma Regroup3(a: text, b: text, c: text)
    ensures a + b + c == a + (b + c)
  {
  }

  lemma DottedFirst(name: text)
    requires name != []
    ensures Dotted(name) == Spell(name[0]) + Dotted(name[1..])
  {
  }

  /** Behind the name's end the buffer is as it was, and at its end too unless the name ends in a dot. */
  lemma WrittenTail(name: text, buf: text, at: nat, r: text)
    requires name != [] && |buf| == ROOM && at + |Dotted(name)| < ROOM
    requires NameWritten(name[1..], PutChar(buf, at, name[0]), at + |Spell(name[0])|, r)
    ensures var n := at + |Dotted(name)|;
            r[n] == (if EndsInDot(name) then 0 else buf[n]) && forall i :: n < i < ROOM ==> r[i] == buf[i]
  {
    var more := name[1..];
    DottedFirst(name);
    PutChars(buf, at, name[0]);
    if more != [] {
      DottedFirst(more);
    }
    hide PutChar, Spell;
    assert more == [] ==> Dotted(more) == [];
    assert more != [] ==> EndsInDot(name) == EndsInDot(more);
  }

  lemma WrittenNext(name: text, buf: text, at: nat, r: text)
    requires name != [] && |buf| == ROOM && at + |Dotted(name)| < ROOM
    requires NameWritten(name[1..], PutChar(buf, at, name[0]), at + |Spell(name[0])|, r)
    ensures NameWritten(name, buf, at, r)
  {
    var c, d := name[0], Dotted(name[1..]);
    DottedFirst(name);
    PutChars(buf, at, c);
    Regroup3(buf[..at], Spell(c), d);
    WrittenTail(name, buf, at, r);
    hide PutChar, Spell, Dotted, EndsInDot;
  }

  /** A name's characters go to the buffer. */
  lemma {:induction false} ScanName(name: text, rest: text, buf: text, at: nat, vars: seq<Var>) returns (r: text)
    requires EQUALS !in name && AMPERSAND !in name && |buf| == ROOM && at + |Dotted(name)| < ROOM
    ensures NameWritten(name, buf, at, r)
    ensures Scan(name + rest, buf, at, None, vars) == Scan(rest, r, at + |Dotted(name)|, None, vars)
    ensures NamesFit(name + rest, at, false) == NamesFit(rest, at + |Dotted(name)|, false)
    decreases |name|
  {
    hide Add, Finish, CString, Spell, PutChar;
    if name == [] {
      assert name + rest == rest;
      r := buf;
    } else {
      hide NameWritten;
      var c := name[0];
      assert (name + rest)[1..] == name[1..] + rest && c in name;
      r := ScanName(name[1..], rest, PutChar(buf, at, c), at + |Spell(c)|, vars);
      WrittenNext(name, buf, at, r);
    }
  }

  /** A value's characters are collected. */
  lemma {:induction false} ScanValue(code: text, rest: text, buf: text, at: nat, raw: text, vars: seq<Var>)
    requires EQUALS !in code && AMPERSAND !in code
    ensures Scan(code + rest, buf, at, Some(raw), vars) == Scan(rest, buf, at, Some(raw + code), vars)
    ensures NamesFit(code + rest, at, true) == NamesFit(rest, at, true)
    decreases |code|
  {
    hide Add, Finish, CString;
    if code == [] {
      assert code + rest == rest && raw + code == raw;
    } else {
      assert (code + rest)[1..] == code[1..] + rest && code[0] in code;
      assert raw + [code[0]] + code[1..] == raw + code;
      ScanValue(code[1..], rest, buf, at, raw + [code[0]], vars);
    }
  }

  lemma {:induction false} DottedNoNul(name: text)
    requires 0 !in name
    ensures 0 !in Dotted(name)
    decreases |name|
  {
    if name != [] {
      assert name[0] in name;
      DottedNoNul(name[1..]);
    }
  }

  lemma NameEnded(name: text, buf: text, written: text)
    requires 0 !in name && NameWritten(name, buf, 0, written)
    ensures var n := |Dotted(name)|;
            var r := Put(written, n, [0]);
            |r| == ROOM && CString(r, 0) == Dotted(name) && forall i :: n < i < ROOM ==> r[i] == buf[i]
  {
    DottedNoNul(name);
    hide Dotted, CString;
    var n := |Dotted(name)|;
    var r := Put(written, n, [0]);
    assert r[..n] == written[..n] == Dotted(name);
    TerminatedAt(r, 0, n);
  }

  /** One printed pair: its name is in the buffer, terminated, and its encoded value is collected. */
  lemma ScanPair(p: Pair, rest: text, buf: text, vars: seq<Var>) returns (r: text)
    requires Good(p) && |buf| == ROOM
    ensures |r| == ROOM && CString(r, 0) == Dotted(p.name)
    ensures var n := |Dotted(p.name)|; forall i :: n < i < ROOM ==> r[i] == buf[i]
    ensures var n := |Dotted(p.name)|;
            && Scan(PrintPair(p) + rest, buf, 0, None, vars) == Scan(rest, r, n, Some(UrlEncode(p.value)), vars)
            && NamesFit(PrintPair(p) + rest, 0, false) == NamesFit(rest, n, true)
  {
    hide Add, Finish, Dotted, CString, UrlEncode, NameWritten;
    var name, code := p.name, UrlEncode(p.value);
    var n := |Dotted(name)|;
    EncodedSafe(p.value);
    var tail := [EQUALS] + (code + rest);
    assert PrintPair(p) + rest == name + tail;
    var buf' := ScanName(name, tail, buf, 0, vars);
    assert tail[1..] == code + rest;
    r := Put(buf', n, [0]);
    ScanValue(code, rest, r, n, [], vars);
    assert [] + code == code;
    NameEnded(name, buf, buf');
  }

  lemma FinishEncoded(value: text)
    requires 0 !in value
    ensures Finish(Some(UrlEncode(value))) == value
  {
    hide UrlEncode;
    RoundTrip(value);
  }

  lemma FinishGood(p: Pair)
    requires Good(p)
    ensures Finish(Some(UrlEncode(p.value))) == p.value
  {
    FinishEncoded(p.value);
  }

  /** Parsing a printed form adds exactly its pairs, in order. */
  lemma {:induction false} ScanPrinted(pairs: seq<Pair>, buf: text, vars: seq<Var>)
    requires pairs != [] && |buf| == ROOM && forall p :: p in pairs ==> Good(p)
    ensures NamesFit(Print(pairs), 0, false)
    ensures Scan(Print(pairs), buf, 0, None, vars) == AddAll(vars, pairs)
    decreases |pairs|
  {
    hide Add, Dotted, CString, UrlEncode, Finish, PrintPair, Good;
    var p, more := pairs[0], pairs[1..];
    assert p in pairs;
    FinishGood(p);
    if |pairs| == 1 {
      assert PrintPair(p) + [] == PrintPair(p) && more == [];
      var r := ScanPair(p, [], buf, vars);
    } else {
      var tail := [AMPERSAND] + Print(more);
      assert PrintPair(p) + [AMPERSAND] + Print(more) == PrintPair(p) + tail;
      var r := ScanPair(p, tail, buf, vars);
      assert tail[1..] == Print(more);
      ScanPrinted(more, r, Add(vars, Dotted(p.name), p.value));
    }
  }

  lemma {:induction false} AddAllValues(vars: seq<Var>, pairs: seq<Pair>, name: text)
    requires Distinct(vars)
    ensures Distinct(AddAll(vars, pairs))
    ensures Values(AddAll(vars, pairs), name) == Values(vars, name) + ValuesOf(pairs, name)
    decreases |pairs|
  {
    hide Distinct, Values, Strip, Dotted, Append;
    if pairs == [] {
      assert Values(vars, name) + [] == Values(vars, name);
    } else {
      var key, value := Strip(Dotted(pairs[0].name)), pairs[0].value;
      AppendValues(vars, key, value, name);
      var next := Append(vars, key, value);
      AddAllValues(next, pairs[1..], name);
      var one := if key == name then [value] else [];
      assert Values(next, name) + ValuesOf(pairs[1..], name) == Values(vars, name) + (one + ValuesOf(pairs[1..], name));
    }
  }

  /** The round trip: after parsing a printed form every name has exactly its values, in order, and names are distinct. */
  lemma FormRoundTrip(pairs: seq<Pair>, name: text)
    requires pairs != [] && forall p :: p in pairs ==> Good(p)
    ensures NamesFit(Print(pairs), 0, false)
    ensures var r := Stored([], Print(pairs));
            Distinct(r) && Values(r, name) == ValuesOf(pairs, name)
  {
    hide Scan, Add, Print, Good, NamesFit;
    ScanPrinted(pairs, seq(ROOM, _ => 0), []);
    AddAllValues([], pairs, name);
    assert Values([], name) == [];
  }

  // ----- any query

  /** What stands between two separators: a name, and after the first '=' anything. */
  datatype Piece = Piece(name: text, tail: Option<text>)

  /** The characters of a piece are what its place allows. */
  predicate Formed(p: Piece) {
    && EQUALS !in p.name && AMPERSAND !in p.name && 0 !in p.name
    && (p.tail.Some? ==> AMPERSAND !in p.tail.value && 0 !in p.tail.value)
  }

  /** And its name, dots spelled out, leaves room for a NUL. */
  predicate Fits(p: Piece) {
    Formed(p) && |Dotted(p.name)| < ROOM
  }

  function PrintPiece(p: Piece): text {
    p.name + if p.tail.Some? then [EQUALS] + p.tail.value else []
  }

  function Query(ps: seq<Piece>): text
    requires ps != []
  {
    if |ps| == 1 then PrintPiece(ps[0]) else PrintPiece(ps[0]) + ([AMPERSAND] + Query(ps[1..]))
  }

  function PieceOf(s: text): Piece {
    var name := CString(s, EQUALS);
    if |name| == |s| then Piece(name, None) else Piece(name, Some(s[|name| + 1..]))
  }

  /** The pieces of a query. */
  function Pieces(s: text): (ps: seq<Piece>)
    ensures ps != []
    decreases |s|
  {
    var first := CString(s, AMPERSAND);
    [PieceOf(first)] + if |first| == |s| then [] else Pieces(s[|first| + 1..])
  }

  lemma PieceOfFormed(s: text)
    requires AMPERSAND !in s && 0 !in s
    ensures Formed(PieceOf(s)) && PrintPiece(PieceOf(s)) == s
  {
    var name := CString(s, EQUALS);
    if |name| < |s| {
      assert s == s[..|name|] + ([s[|name|]] + s[|name| + 1..]);
    }
  }

  /** Every query without a NUL is made of formed pieces. */
  lemma {:induction false} QueryOfPieces(s: text)
    requires 0 !in s
    ensures Query(Pieces(s)) == s && forall p :: p in Pieces(s) ==> Formed(p)
    decreases |s|
  {
    hide PieceOf, PrintPiece, Formed;
    var first := CString(s, AMPERSAND);
    PieceOfFormed(first);
    if |first| < |s| {
      var more := s[|first| + 1..];
      QueryOfPieces(more);
      assert s == first + ([AMPERSAND] + more);
      assert Pieces(s)[1..] == Pieces(more);
    } else {
      assert first == s;
    }
  }

  /** The value read so far, starting anew at each further '='. */
  function Restarted(raw: text, tail: text): text
    decreases |tail|
  {
    if tail == [] then raw
    else if tail[0] == EQUALS then Restarted([], tail[1..])
    else Restarted(raw + [tail[0]], tail[1..])
  }

  function ValueRead(p: Piece): Option<text> {
    if p.tail.Some? then Some(Restarted([], p.tail.value)) else None
  }

  /** A NUL was written behind the name. */
  predicate Ended(p: Piece) {
    p.tail.Some? || EndsInDot(p.name)
  }

  /** What stands at position n of the name buffer after the pieces: the last one that reached there wrote it. */
  function At(ps: seq<Piece>, n: nat): U8 {
    if ps == [] then 0
    else
      var p := ps[|ps| - 1];
      var l := |Dotted(p.name)|;
      if n < l then Dotted(p.name)[n] else if n == l && Ended(p) then 0 else At(ps[..|ps| - 1], n)
  }

  function Buffer(ps: seq<Piece>): (b: text)
    ensures |b| == ROOM
  {
    seq(ROOM, n requires 0 <= n < ROOM => At(ps, n))
  }

  /** The name that a piece is stored under, after others. */
  function Key(before: seq<Piece>, p: Piece): text {
    CString(Buffer(before + [p]), 0)
  }

  /** The variables after some more pieces. */
  function AddPieces(before: seq<Piece>, ps: seq<Piece>, vars: seq<Var>): seq<Var>
    decreases |ps|
  {
    if ps == [] then vars
    else AddPieces(before + [ps[0]], ps[1..], Add(vars, Key(before, ps[0]), Finish(ValueRead(ps[0]))))
  }

  lemma PutAgain(buf: text, at: nat)
    requires at < |buf| && buf[at] == 0
    ensures Put(buf, at, [0]) == buf
  {
  }

  /** Everything after '=', up to the next separator. */
  lemma {:induction false} ScanTail(tail: text, rest: text, buf: text, at: nat, raw: text, vars: seq<Var>)
    requires AMPERSAND !in tail && at < |buf| && buf[at] == 0
    ensures Scan(tail + rest, buf, at, Some(raw), vars) == Scan(rest, buf, at, Some(Restarted(raw, tail)), vars)
    ensures NamesFit(tail + rest, at, true) == NamesFit(rest, at, true)
    decreases |tail|
  {
    hide Add, Finish, CString, Put;
    if tail == [] {
      assert tail + rest == rest;
    } else {
      assert (tail + rest)[1..] == tail[1..] + rest && tail[0] in tail;
      if tail[0] == EQUALS {
        PutAgain(buf, at);
        ScanTail(tail[1..], rest, buf, at, [], vars);
      } else {
        ScanTail(tail[1..], rest, buf, at, raw + [tail[0]], vars);
      }
    }
  }

  /** What a name leaves in the buffer is what At says. */
  lemma WrittenBuffer(before: seq<Piece>, p: Piece, r: text)
    requires Fits(p) && NameWritten(p.name, Buffer(before), 0, r)
    ensures (if p.tail.Some? then Put(r, |Dotted(p.name)|, [0]) else r) == Buffer(before + [p])
  {
    hide Dotted;
    var ps, n := before + [p], |Dotted(p.name)|;
    assert ps[..|ps| - 1] == before && Buffer(before)[..0] + Dotted(p.name) == Dotted(p.name);
    var b := if p.tail.Some? then Put(r, n, [0]) else r;
    assert forall i :: 0 <= i < n ==> r[i] == r[..n][i];
    forall i | 0 <= i < ROOM ensures b[i] == At(ps, i) {
    }
  }

  lemma AtEnd(before: seq<Piece>, p: Piece)
    requires Fits(p) && p.tail.Some?
    ensures Buffer(before + [p])[|Dotted(p.name)|] == 0
  {
    hide Dotted;
  }

  /** One piece, from its first character to what ends it. */
  lemma ScanPiece(before: seq<Piece>, p: Piece, rest: text, vars: seq<Var>)
    requires Fits(p)
    ensures var n := |Dotted(p.name)|;
            && Scan(PrintPiece(p) + rest, Buffer(before), 0, None, vars) == Scan(rest, Buffer(before + [p]), n, ValueRead(p), vars)
            && NamesFit(PrintPiece(p) + rest, 0, false) == NamesFit(rest, n, p.tail.Some?)
  {
    hide Add, Finish, Dotted, CString, NameWritten, Buffer, Put;
    var n, buf := |Dotted(p.name)|, Buffer(before);
    if p.tail.None? {
      assert PrintPiece(p) + rest == p.name + rest;
      var r := ScanName(p.name, rest, buf, 0, vars);
      WrittenBuffer(before, p, r);
    } else {
      var more := p.tail.value + rest;
      assert PrintPiece(p) + rest == p.name + ([EQUALS] + more);
      var r := ScanName(p.name, [EQUALS] + more, buf, 0, vars);
      WrittenBuffer(before, p, r);
      assert ([EQUALS] + more)[1..] == more;
      AtEnd(before, p);
      ScanTail(p.tail.value, rest, Buffer(before + [p]), n, [], vars);
    }
  }

  /** The parser on pieces whose names fit, after others. */
  lemma {:induction false} ScanPieces(before: seq<Piece>, ps: seq<Piece>, vars: seq<Var>)
    requires ps != [] && forall p :: p in ps ==> Fits(p)
    ensures Scan(Query(ps), Buffer(before), 0, None, vars) == AddPieces(before, ps, vars)
    ensures NamesFit(Query(ps), 0, false)
    decreases |ps|
  {
    hide Add, Finish, Dotted, CString, Buffer, Fits, PrintPiece, ValueRead;
    var p, more := ps[0], ps[1..];
    assert p in ps;
    if |ps| == 1 {
      assert PrintPiece(p) + [] == PrintPiece(p) && more == [];
      ScanPiece(before, p, [], vars);
    } else {
      var rest := [AMPERSAND] + Query(more);
      ScanPiece(before, p, rest, vars);
      assert rest[1..] == Query(more);
      ScanPieces(before + [p], more, Add(vars, Key(before, p), Finish(ValueRead(p))));
    }
  }

  lemma NothingBefore()
    ensures Buffer([]) == seq(ROOM, _ => 0)
  {
  }

  /** The names of a query fit iff those of all its pieces do. */
  lemma {:induction false} PiecesFit(ps: seq<Piece>)
    requires ps != [] && forall p :: p in ps ==> Formed(p)
    ensures NamesFit(Query(ps), 0, false) <==> forall p :: p in ps ==> Fits(p)
    decreases |ps|
  {
    hide Dotted, Buffer;
    if NamesFit(Query(ps), 0, false) {
      var p, more := ps[0], ps[1..];
      assert p in ps;
      var rest := if |ps| == 1 then [] else [AMPERSAND] + Query(more);
      var tail := if p.tail.Some? then [EQUALS] + p.tail.value else [];
      assert Query(ps) == PrintPiece(p) + rest && PrintPiece(p) + rest == p.name + (tail + rest);
      NameFits(p.name, tail + rest, 0);
      ScanPiece([], p, rest, []);
      if |ps| > 1 {
        assert rest[1..] == Query(more);
        PiecesFit(more);
        assert forall q :: q in ps ==> q == p || q in more;
      }
    } else if forall p :: p in ps ==> Fits(p) {
      ScanPieces([], ps, []);
    }
  }

  /** The parser on every query without a NUL whose names fit: piece by piece. */
  lemma QueryStored(query: text, vars: seq<Var>)
    requires 0 !in query && NamesFit(query, 0, false)
    ensures Query(Pieces(query)) == query && forall p :: p in Pieces(query) ==> Fits(p)
    ensures Stored(vars, query) == AddPieces([], Pieces(query), vars)
  {
    QueryOfPieces(query);
    PiecesFit(Pieces(query));
    ScanPieces([], Pieces(query), vars);
    NothingBefore();
  }

  /**
   * Position n of the buffer, behind a name of that length, holds no NUL: of the pieces that wrote
   * there, the last one wrote a character of its name.
   */
  predicate Trailed(ps: seq<Piece>, n: nat) {
    ps != [] &&
      var p := ps[|ps| - 1];
      var l := |Dotted(p.name)|;
      l > n || (!(l == n && Ended(p)) && Trailed(ps[..|ps| - 1], n))
  }

  lemma {:induction false} TrailedAt(ps: seq<Piece>, n: nat)
    requires forall p :: p in ps ==> Formed(p)
    ensures At(ps, n) != 0 <==> Trailed(ps, n)
    decreases |ps|
  {
    hide Dotted, Ended;
    if ps != [] {
      var p := ps[|ps| - 1];
      assert p in ps;
      DottedNoNul(p.name);
      if n < |Dotted(p.name)| {
        assert Dotted(p.name)[n] in Dotted(p.name);
      }
      TrailedAt(ps[..|ps| - 1], n);
    }
  }

  lemma LongerThan(r: text, n: nat)
    requires n < |r| && 0 !in r[..n] && r[n] != 0
    ensures |CString(r, 0)| > n && CString(r, 0)[..n] == r[..n]
  {
    var s := CString(r, 0);
    assert forall i :: 0 <= i <= n ==> r[i] != 0 by {
      assert forall i :: 0 <= i < n ==> r[..n][i] == r[i];
    }
  }

  /**
   * Where a piece is stored: under a name that starts with its own, and under exactly that iff it has
   * '=', or ends in a dot, or no earlier piece trails behind it.
   */
  lemma NameKept(before: seq<Piece>, p: Piece)
    requires Fits(p) && forall q :: q in before ==> Formed(q)
    ensures var name, key := Dotted(p.name), Key(before, p);
            name <= key && (key == name <==> Ended(p) || !Trailed(before, |name|))
  {
    var ps, n := before + [p], |Dotted(p.name)|;
    var r := Buffer(ps);
    assert ps[..|ps| - 1] == before;
    DottedNoNul(p.name);
    TrailedAt(before, n);
    hide Dotted, Ended, Trailed, Formed;
    assert r[..n] == Dotted(p.name);
    hide Buffer;
    if r[n] == 0 {
      TerminatedAt(r, 0, n);
    } else {
      LongerThan(r, n);
    }
  }

  // ----- pairs without '='

  /** Pieces, each with its separator after it. */
  function Front(ps: seq<Piece>): text {
    if ps == [] then [] else PrintPiece(ps[0]) + ([AMPERSAND] + Front(ps[1..]))
  }

  lemma {:induction false} FrontQuery(ps: seq<Piece>, more: seq<Piece>)
    requires more != []
    ensures Query(ps + more) == Front(ps) + Query(more)
    decreases |ps|
  {
    hide PrintPiece;
    if ps == [] {
      assert ps + more == more;
    } else {
      assert (ps + more)[1..] == ps[1..] + more;
      FrontQuery(ps[1..], more);
      assert PrintPiece(ps[0]) + ([AMPERSAND] + (Front(ps[1..]) + Query(more))) == Front(ps) + Query(more);
    }
  }

  lemma {:induction false} AddPiecesConcat(before: seq<Piece>, ps: seq<Piece>, more: seq<Piece>, vars: seq<Var>)
    ensures AddPieces(before, ps + more, vars) == AddPieces(before + ps, more, AddPieces(before, ps, vars))
    decreases |ps|
  {
    hide Add, Key, Finish, ValueRead;
    if ps == [] {
      assert ps + more == more && before + ps == before;
    } else {
      assert (ps + more)[1..] == ps[1..] + more;
      assert before + [ps[0]] + ps[1..] == before + ps;
      AddPiecesConcat(before + [ps[0]], ps[1..], more, Add(vars, Key(before, ps[0]), Finish(ValueRead(ps[0]))));
    }
  }

  /** A name without '=' and '&' that fits the buffer. */
  predicate BareFits(name: text) {
    EQUALS !in name && AMPERSAND !in name && 0 !in name && |Dotted(name)| < ROOM
  }

  lemma AddedOne(before: seq<Piece>, p: Piece, vars: seq<Var>)
    ensures AddPieces(before, [p], vars) == Add(vars, Key(before, p), Finish(ValueRead(p)))
  {
    hide Add, Key, Finish, ValueRead;
    assert AddPieces(before + [p], [p][1..], Add(vars, Key(before, p), Finish(ValueRead(p))))
        == Add(vars, Key(before, p), Finish(ValueRead(p)));
  }

  lemma FinishNone()
    ensures Finish(None) == []
  {
  }

  /**
   * A pair without '=' at the end of a query, after any others, is stored with the value "" under
   * its own name iff the name ends in a dot or no earlier one trails behind it; otherwise under a
   * longer name.
   */
  lemma BareName(ps: seq<Piece>, name: text, vars: seq<Var>) returns (key: text)
    requires BareFits(name) && forall p :: p in ps ==> Fits(p)
    ensures var query := Front(ps) + name;
            NamesFit(query, 0, false) && Stored(vars, query) == Add(AddPieces([], ps, vars), key, [])
    ensures Dotted(name) <= key && (key == Dotted(name) <==> EndsInDot(name) || !Trailed(ps, |Dotted(name)|))
  {
    var bare := Piece(name, None);
    key := Key(ps, bare);
    NameKept(ps, bare);
    hide Key, Trailed, EndsInDot, Dotted, Add, Finish, Buffer;
    FrontQuery(ps, [bare]);
    assert Query([bare]) == name + [] == name;
    ScanPieces([], ps + [bare], vars);
    NothingBefore();
    AddPiecesConcat([], ps, [bare], vars);
    assert [] + ps == ps;
    AddedOne(ps, bare, AddPieces([], ps, vars));
    FinishNone();
  }

  /** The same for one before a separator, with any pieces after it, which find it among those before them. */
  lemma BareNameInside(ps: seq<Piece>, name: text, more: seq<Piece>, vars: seq<Var>) returns (key: text)
    requires BareFits(name) && more != [] && forall p :: p in ps + more ==> Fits(p)
    ensures var query := Front(ps) + (name + ([AMPERSAND] + Query(more)));
            && NamesFit(query, 0, false)
            && Stored(vars, query) == AddPieces(ps + [Piece(name, None)], more, Add(AddPieces([], ps, vars), key, []))
    ensures Dotted(name) <= key && (key == Dotted(name) <==> EndsInDot(name) || !Trailed(ps, |Dotted(name)|))
  {
    var bare := Piece(name, None);
    var rest := [bare] + more;
    assert forall p :: p in ps ==> p in ps + more;
    assert forall p :: p in more ==> p in ps + more;
    key := Key(ps, bare);
    NameKept(ps, bare);
    hide Key, Trailed, EndsInDot, Dotted, Add, Finish, Buffer;
    FrontQuery(ps, rest);
    assert rest[1..] == more && PrintPiece(bare) == name + [] == name;
    ScanPieces([], ps + rest, vars);
    NothingBefore();
    AddPiecesConcat([], ps, rest, vars);
    assert [] + ps == ps;
    AddPiecesConcat(ps, [bare], more, AddPieces([], ps, vars));
    AddedOne(ps, bare, AddPieces([], ps, vars));
    FinishNone();
  }

  const ABC: text := [97, 98, 99]
  const X: text := [120]
  const XY: text := [120, 121]
  const PQ: text := [112, 113]

  lemma Written()
    ensures Dotted(ABC) == ABC && Dotted(X) == X && Dotted(XY) == XY && Dotted(PQ) == PQ
  {
    PlainName(ABC);
    PlainName(X);
    PlainName(XY);
    PlainName(PQ);
  }

  lemma LastOf(before: seq<Piece>, p: Piece)
    ensures var l := |Dotted(p.name)|;
            forall n: nat :: At(before + [p], n) == (if n < l then Dotted(p.name)[n] else if n == l && Ended(p) then 0 else At(before, n))
  {
    assert (before + [p])[..|before|] == before;
  }

  lemma EndsAtThree(ps: seq<Piece>, key: text)
    requires |key| == 3 && 0 !in key && At(ps, 3) == 0 && forall n :: 0 <= n < 3 ==> At(ps, n) == key[n]
    ensures CString(Buffer(ps), 0) == key
  {
    hide At;
    assert Buffer(ps)[..3] == key;
    TerminatedAt(Buffer(ps), 0, 3);
  }

  /** After "abc=", a shorter name without '=' keeps its end, and so does one after that. */
  lemma KeysTakeTail(abc: Piece)
    requires abc.name == ABC && abc.tail.Some?
    ensures Key([], abc) == ABC && Key([abc], Piece(X, None)) == X + ABC[1..]
    ensures Key([abc], Piece(XY, None)) == XY + ABC[2..]
    ensures Key([abc, Piece(XY, None)], Piece(PQ, None)) == PQ + ABC[2..]
  {
    Written();
    hide Dotted;
    var x, xy, pq := Piece(X, None), Piece(XY, None), Piece(PQ, None);
    LastOf([], abc);
    LastOf([abc], x);
    LastOf([abc], xy);
    LastOf([abc, xy], pq);
    assert [] + [abc] == [abc] && [abc] + [xy] == [abc, xy];
    EndsAtThree([abc], ABC);
    EndsAtThree([abc] + [x], X + ABC[1..]);
    EndsAtThree([abc] + [xy], XY + ABC[2..]);
    EndsAtThree([abc, xy] + [pq], PQ + ABC[2..]);
  }

  lemma OneDigit()
    ensures Finish(Some(Restarted([], [49]))) == [49]
  {
    assert Restarted([], [49]) == [49];
  }

  lemma TwoStored(p: Piece, q: Piece)
    requires Fits(p) && Fits(q)
    ensures Stored([], PrintPiece(p) + ([AMPERSAND] + PrintPiece(q))) ==
            Add(Add([], Key([], p), Finish(ValueRead(p))), Key([p], q), Finish(ValueRead(q)))
  {
    hide PrintPiece, Key, Finish, Add, ValueRead, Fits, Buffer;
    assert [p, q][1..] == [q] && [] + [p] == [p];
    AddedOne([p], q, Add([], Key([], p), Finish(ValueRead(p))));
    ScanPieces([], [p, q], []);
    NothingBefore();
  }

  lemma TwoVars(name: text)
    requires name != ABC && name != [] && name[0] != BLANK && name[0] != 9
    ensures Add(Add([], ABC, [49]), name, []) == [Var(ABC, [[49]]), Var(name, [[]])]
  {
  }

  /** "abc=1&x" stores its second pair under "xbc". */
  lemma BareNameTakesTail()
    ensures Stored([], ABC + [EQUALS, 49] + ([AMPERSAND] + X)) == [Var(ABC, [[49]]), Var(X + ABC[1..], [[]])]
  {
    var abc, x := Piece(ABC, Some([49])), Piece(X, None);
    assert PrintPiece(abc) == ABC + [EQUALS, 49] && PrintPiece(x) == X;
    Written();
    assert Fits(abc) && Fits(x);
    OneDigit();
    FinishNone();
    TwoVars(X + ABC[1..]);
    hide Dotted, Key, Finish, Restarted, Add, Stored, PrintPiece, Fits;
    KeysTakeTail(abc);
    TwoStored(abc, x);
  }

  lemma ThreeVars(name: text, other: text)
    requires name != ABC && name != [] && name[0] != BLANK && name[0] != 9
    requires other != ABC && other != name && other != [] && other[0] != BLANK && other[0] != 9
    ensures Add([Var(ABC, [[49]]), Var(name, [[]])], other, []) == [Var(ABC, [[49]]), Var(name, [[]]), Var(other, [[]])]
  {
  }

  lemma ThreeStored(p: Piece, q: Piece, r: Piece)
    requires Fits(p) && Fits(q) && Fits(r)
    ensures Stored([], PrintPiece(p) + ([AMPERSAND] + (PrintPiece(q) + ([AMPERSAND] + PrintPiece(r))))) ==
            Add(Add(Add([], Key([], p), Finish(ValueRead(p))), Key([p], q), Finish(ValueRead(q))),
                Key([p, q], r), Finish(ValueRead(r)))
  {
    hide PrintPiece, Key, Finish, Add, ValueRead, Fits, Buffer;
    assert [p, q, r][1..] == [q, r] && [q, r][1..] == [r];
    assert [] + [p] == [p] && [p] + [q] == [p, q];
    assert Query([q, r]) == PrintPiece(q) + ([AMPERSAND] + Query([r]));
    assert Query([p, q, r]) == PrintPiece(p) + ([AMPERSAND] + Query([q, r]));
    var vars := Add(Add([], Key([], p), Finish(ValueRead(p))), Key([p], q), Finish(ValueRead(q)));
    AddedOne([p, q], r, vars);
    ScanPieces([], [p, q, r], []);
    NothingBefore();
  }

  /** "abc=1&xy&pq" stores its third pair under "pqc", though the second has no NUL and no longer name. */
  lemma BareNamesTakeTails()
    ensures Stored([], ABC + [EQUALS, 49] + ([AMPERSAND] + (XY + ([AMPERSAND] + PQ)))) ==
            [Var(ABC, [[49]]), Var(XY + ABC[2..], [[]]), Var(PQ + ABC[2..], [[]])]
  {
    var abc, xy, pq := Piece(ABC, Some([49])), Piece(XY, None), Piece(PQ, None);
    assert PrintPiece(abc) == ABC + [EQUALS, 49] && PrintPiece(xy) == XY && PrintPiece(pq) == PQ;
    Written();
    assert Fits(abc) && Fits(xy) && Fits(pq);
    OneDigit();
    FinishNone();
    TwoVars(XY + ABC[2..]);
    ThreeVars(XY + ABC[2..], PQ + ABC[2..]);
    hide Dotted, Key, Finish, Restarted, Add, Stored, PrintPiece, Fits;
    KeysTakeTail(abc);
    ThreeStored(abc, xy, pq);
  }

  // ----- _httpd_storeData in place

  /** A character of a name: strcpy for a dot, a plain store otherwise.  The buffer's last byte stays NUL. */
  method StoreChar(buf: array<U8>, at: nat, c: U8) returns (next: nat)
    requires buf.Length == ROOM && at + |Spell(c)| < ROOM && buf[ROOM - 1] == 0
    modifies buf
    ensures buf[..] == PutChar(old(buf[..]), at, c) && next == at + |Spell(c)| && buf[ROOM - 1] == 0
  {
    buf[at] := c;
    next := at + 1;
    if c == DOT {
      ghost var was := buf[..];
      forall i | 0 <= i < 5 {
        buf[at + i] := DOT_WORD[i];
      }
      buf[at + 5] := 0;
      next := at + 5;
    }
  }

  /** A string written with a NUL after it is read up to its own first NUL. */
  lemma EndsAt(buf: text, r: text)
    requires |r| < |buf| && buf[..|r|] == r && buf[|r|] == 0
    ensures CString(buf, 0) == CString(r, 0)
  {
    var n := |CString(r, 0)|;
    assert buf[..n] == r[..n];
    TerminatedAt(buf, 0, n);
  }

  /** At the end of a pair: the value is unescaped in place and the variable added. */
  method AddPair(server: Httpd, query: array<U8>, name: text, val: Option<nat>)
    requires server.Valid()
    requires val.Some? ==> val.value <= query.Length && 0 in query[val.value..]
    modifies server, server.place.Keys, query
    ensures server.Valid() && server.place.Keys >= old(server.place.Keys) && fresh(server.place.Keys - old(server.place.Keys))
    ensures var raw := match val case None => None case Some(at) => Some(CString(old(query[at..]), 0));
            server.View() == Add(old(server.View()), name, Finish(raw))
    ensures forall i :: 0 <= i < query.Length ==>
              (match val case None => true case Some(at) => i < at || i > at + |CString(old(query[at..]), 0)|) ==>
              query[i] == old(query[i])
  {
    hide Add, Unescape;
    var tmpVal: text := [];
    if val.Some? {
      var at := val.value;
      ghost var r := Unescape(CString(query[at..], 0), 0, 0);
      UnescapeString(query, at);
      assert query[at..][..|r|] == r;
      EndsAt(query[at..], r);
      tmpVal := CString(query[at..], 0);
    }
    server.AddVariable(name, tmpVal);
  }

  /** The part of the value of a pair that was read, still in the query. */
  ghost predicate Reading(query: array<U8>, cp: nat, val: Option<nat>, raw: Option<text>)
    reads query
  {
    match val
    case None => raw == None
    case Some(start) => start <= cp <= query.Length && raw.Some? && raw.value == query[start..cp] && 0 !in raw.value
  }

  lemma ReadDone(query: array<U8>, cp: nat, val: Option<nat>, raw: Option<text>)
    requires Reading(query, cp, val, raw) && cp < query.Length && query[cp] == 0
    ensures val.Some? ==> val.value <= cp && 0 in query[val.value..] && CString(query[val.value..], 0) == raw.value
    ensures val.Some? ==> val.value + |CString(query[val.value..], 0)| == cp
    ensures val.Some? == raw.Some?
  {
    if val.Some? {
      var buf := query[val.value..];
      assert buf[cp - val.value] == 0;
      assert buf[..cp - val.value] == query[val.value..cp];
      TerminatedAt(buf, 0, cp - val.value);
    }
  }

  lemma ScanStep(s: text, i: nat, buf: text, at: nat, val: Option<text>, vars: seq<Var>)
    requires i < |s|
    ensures Scan(s[i..], buf, at, val, vars) ==
            if s[i] == EQUALS then Scan(s[i + 1..], Put(buf, at, [0]), at, Some([]), vars)
            else if s[i] == AMPERSAND then Scan(s[i + 1..], buf, 0, None, Add(vars, CString(buf, 0), Finish(val)))
            else if val.Some? then Scan(s[i + 1..], buf, at, Some(val.value + [s[i]]), vars)
            else Scan(s[i + 1..], PutChar(buf, at, s[i]), at + |Spell(s[i])|, None, vars)
    ensures NamesFit(s[i..], at, val.Some?) ==
            if s[i] == EQUALS then NamesFit(s[i + 1..], at, true)
            else if s[i] == AMPERSAND then NamesFit(s[i + 1..], 0, false)
            else if val.Some? then NamesFit(s[i + 1..], at, true)
            else at + |Spell(s[i])| < ROOM && NamesFit(s[i + 1..], at + |Spell(s[i])|, false)
  {
    hide Add, Put, PutChar, CString, Finish, Spell;
    assert s[i..][1..] == s[i + 1..];
  }

  lemma ScanEnd(s: text, buf: text, at: nat, val: Option<text>, vars: seq<Var>)
    ensures Scan(s[|s|..], buf, at, val, vars) == Add(vars, CString(buf, 0), Finish(val))
  {
  }

  lemma ReadNone(query: array<U8>, cp: nat)
    requires cp <= query.Length
    ensures Reading(query, cp, None, None) && Reading(query, cp, Some(cp), Some([]))
  {
    assert query[cp..cp] == [];
  }

  lemma ReadSame(query: array<U8>, cp: nat, val: Option<nat>, raw: Option<text>)
    requires Reading(query, cp, val, raw)
    ensures val.Some? <==> raw.Some?
  {
  }

  lemma PutOne(buf: text, at: nat, c: U8)
    requires at < |buf|
    ensures Put(buf, at, [c]) == buf[at := c]
  {
  }

  lemma ReadMore(query: array<U8>, cp: nat, val: Option<nat>, raw: Option<text>)
    requires Reading(query, cp, val, raw) && cp < query.Length && query[cp] != 0 && val.Some?
    ensures Reading(query, cp + 1, val, Some(raw.value + [query[cp]]))
  {
    assert query[val.value..cp + 1] == query[val.value..cp] + [query[cp]];
  }

  /** The value is terminated and the pair that ends there is added. */
  method EndPair(server: Httpd, query: array<U8>, name: text, cp: nat, val: Option<nat>, ghost raw: Option<text>)
    requires server.Valid() && cp < query.Length && Reading(query, cp, val, raw)
    modifies server, server.place.Keys, query
    ensures server.Valid() && server.place.Keys >= old(server.place.Keys) && fresh(server.place.Keys - old(server.place.Keys))
    ensures server.View() == Add(old(server.View()), name, Finish(raw))
    ensures forall i :: cp < i < query.Length ==> query[i] == old(query[i])
  {
    hide Add, Finish;
    query[cp] := 0;
    ReadDone(query, cp, val, raw);
    AddPair(server, query, name, val);
  }

  /** From position cp on the query is as it was given. */
  ghost predicate Unread(query: array<U8>, cp: nat, s: text)
    reads query
  {
    cp <= |s| < query.Length && query[|s|] == 0 && 0 !in s && forall i :: cp <= i < |s| ==> query[i] == s[i]
  }

  ghost predicate NameBuffer(name: array<U8>, cp2: nat)
    reads name
  {
    name.Length == ROOM && name[ROOM - 1] == 0 && cp2 < ROOM
  }

  /** One round of the loop in _httpd_storeData. */
  method StoreNext(server: Httpd, query: array<U8>, name: array<U8>, cp: nat, at: nat, start: Option<nat>,
                   ghost read: Option<text>, ghost s: text)
    returns (cp2: nat, val: Option<nat>, ghost raw: Option<text>)
    requires server.Valid() && Unread(query, cp, s) && cp < |s| && NameBuffer(name, at) && name != query
    requires Reading(query, cp, start, read) && NamesFit(s[cp..], at, read.Some?)
    modifies server, server.place.Keys, query, name
    ensures server.Valid() && server.place.Keys >= old(server.place.Keys) && fresh(server.place.Keys - old(server.place.Keys))
    ensures Unread(query, cp + 1, s) && NameBuffer(name, cp2)
    ensures Reading(query, cp + 1, val, raw) && NamesFit(s[cp + 1..], cp2, raw.Some?)
    ensures Scan(s[cp + 1..], name[..], cp2, raw, server.View()) == Scan(s[cp..], old(name[..]), at, read, old(server.View()))
  {
    hide Add, Scan, NamesFit, CString, Finish, PutChar, Put, Reading, Spell, Shape, Httpd.Valid, Httpd.View;
    ScanStep(s, cp, name[..], at, read, server.View());
    ReadSame(query, cp, start, read);
    ReadNone(query, cp + 1);
    cp2, val, raw := at, start, read;
    if query[cp] == EQUALS {
      PutOne(name[..], cp2, 0);
      name[cp2] := 0;
      val, raw := Some(cp + 1), Some([]);
    } else if query[cp] == AMPERSAND {
      EndPair(server, query, CString(name[..], 0), cp, val, raw);
      ReadNone(query, cp + 1);
      cp2, val, raw := 0, None, None;
    } else if val.Some? {
      ReadMore(query, cp, val, raw);
      raw := Some(raw.value + [query[cp]]);
    } else {
      cp2 := StoreChar(name, cp2, query[cp]);
    }
  }

  /** _httpd_storeData */
  method StoreData(server: Httpd, query: array?<U8>)
    requires server.Valid()
    requires query != null ==> 0 in query[..] && NamesFit(CString(query[..], 0), 0, false)
    modifies server, server.place.Keys, query
    ensures server.Valid()
    ensures server.View() == if query == null then old(server.View()) else Stored(old(server.View()), CString(old(query[..]), 0))
  {
    if query == null {
      return;
    }
    hide Add, Scan, NamesFit, CString, Finish, Reading, Httpd.Valid, Httpd.View;
    ghost var s := CString(query[..], 0);
    ghost var all := Stored(server.View(), s);
    var name := new U8[50](_ => 0);
    assert name[..] == seq(ROOM, _ => 0) && s[0..] == s;
    var cp: nat, cp2: nat, val: Option<nat> := 0, 0, None;
    ghost var raw: Option<text> := None;
    ReadNone(query, 0);
    while query[cp] != 0
      invariant server.Valid() && server.place.Keys >= old(server.place.Keys)
      invariant fresh(server.place.Keys - old(server.place.Keys))
      invariant Unread(query, cp, s) && NameBuffer(name, cp2)
      invariant Reading(query, cp, val, raw) && NamesFit(s[cp..], cp2, raw.Some?)
      invariant Scan(s[cp..], name[..], cp2, raw, server.View()) == all
      decreases |s| - cp
    {
      cp2, val, raw := StoreNext(server, query, name, cp, cp2, val, raw, s);
      cp := cp + 1;
    }
    ScanEnd(s, name[..], cp2, raw, server.View());
    EndPair(server, query, CString(name[..], 0), cp, val, raw);
  }
}
