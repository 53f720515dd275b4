/** The STUN encoder, with its write pointer moving over the caller's buffer, and the parser's loop. */
module StunCodec {
  import opened Bytes
  import opened Stun
  import opened StunBounds

  // ----- the encoder

  /** A buffer before and after `data` was written from ptr up to r, and nothing after it. */
  ghost predicate Wrote(before: octets, after: octets, ptr: nat, r: nat, data: octets) {
    && r == ptr + |data| <= |before| == |after|
    && after[..r] == before[..ptr] + data
    && forall i :: r <= i < |after| ==> after[i] == before[i]
  }

  lemma WroteBoth(a: octets, b: octets, c: octets, p: nat, q: nat, r: nat, first: octets, second: octets)
    requires Wrote(a, b, p, q, first) && Wrote(b, c, q, r, second)
    ensures Wrote(a, c, p, r, first + second)
  {
    assert c[..r] == a[..p] + first + second;
    assert a[..p] + first + second == a[..p] + (first + second);
  }

  method Encode(buf: array<U8>, ptr: nat, data: octets) returns (r: nat)
    requires ptr + |data| <= buf.Length
    modifies buf
    ensures Wrote(old(buf[..]), buf[..], ptr, r, data)
  {
    forall i | 0 <= i < |data| {
      buf[ptr + i] := data[i];
    }
    r := ptr + |data|;
  }

  method Encode16(buf: array<U8>, ptr: nat, data: U16) returns (r: nat)
    requires ptr + 2 <= buf.Length
    modifies buf
    ensures Wrote(old(buf[..]), buf[..], ptr, r, Put16(data))
  {
    r := Encode(buf, ptr, Put16(data));
  }

  method Encode32(buf: array<U8>, ptr: nat, data: U32) returns (r: nat)
    requires ptr + 4 <= buf.Length
    modifies buf
    ensures Wrote(old(buf[..]), buf[..], ptr, r, Put32(data))
  {
    r := Encode(buf, ptr, Put32(data));
  }

  lemma Ends(before: octets, after: octets, ptr: nat, r: nat, data: octets)
    requires Wrote(before, after, ptr, r, data)
    ensures r == ptr + |data| <= |before| == |after|
  {
  }

  lemma WroteNothing(buf: octets, ptr: nat)
    requires ptr <= |buf|
    ensures Wrote(buf, buf, ptr, ptr, [])
  {
  }

  /** The type and the length every attribute starts with. */
  method EncodeHead(buf: array<U8>, ptr: nat, atrType: U16, length: U16) returns (r: nat)
    requires ptr + 4 <= buf.Length
    modifies buf
    ensures Wrote(old(buf[..]), buf[..], ptr, r, Put16(atrType) + Put16(length))
  {
    hide Wrote, Put16;
    ghost var b0 := buf[..];
    r := Encode16(buf, ptr, atrType);
    ghost var b1, p := buf[..], r;
    Ends(b0, b1, ptr, p, Put16(atrType));
    r := Encode16(buf, r, length);
    WroteBoth(b0, b1, buf[..], ptr, p, r, Put16(atrType), Put16(length));
  }

  method EncodeAtrAddress4(buf: array<U8>, ptr: nat, atrType: U16, a: Address) returns (r: nat)
    requires ptr + 12 <= buf.Length
    modifies buf
    ensures Wrote(old(buf[..]), buf[..], ptr, r, PrintAttr(AddressAttr(atrType, a)))
  {
    hide Wrote, Put16, Put32;
    ghost var b0 := buf[..];
    r := EncodeHead(buf, ptr, atrType, 8);
    ghost var b1, p1, d1 := buf[..], r, Put16(atrType) + Put16(8);
    Ends(b0, b1, ptr, p1, d1);
    r := Encode(buf, r, [a.pad, IPV4_FAMILY]);
    ghost var b2, p2, d2 := buf[..], r, d1 + [a.pad, IPV4_FAMILY];
    WroteBoth(b0, b1, b2, ptr, p1, p2, d1, [a.pad, IPV4_FAMILY]);
    Ends(b0, b2, ptr, p2, d2);
    r := Encode16(buf, r, a.port);
    ghost var b3, p3, d3 := buf[..], r, d2 + Put16(a.port);
    WroteBoth(b0, b2, b3, ptr, p2, p3, d2, Put16(a.port));
    Ends(b0, b3, ptr, p3, d3);
    r := Encode32(buf, r, a.addr);
    WroteBoth(b0, b3, buf[..], ptr, p3, r, d3, Put32(a.addr));
    assert d3 + Put32(a.addr) == PrintAttr(AddressAttr(atrType, a));
  }

  method EncodeAtrChangeRequest(buf: array<U8>, ptr: nat, value: U32) returns (r: nat)
    requires ptr + 8 <= buf.Length
    modifies buf
    ensures Wrote(old(buf[..]), buf[..], ptr, r, PrintAttr(Attr(CHANGE_REQUEST, 4, Put32(value))))
  {
    hide Wrote, Put16, Put32;
    ghost var b0 := buf[..];
    r := EncodeHead(buf, ptr, CHANGE_REQUEST, 4);
    ghost var b1, p1, d1 := buf[..], r, Put16(CHANGE_REQUEST) + Put16(4);
    Ends(b0, b1, ptr, p1, d1);
    r := Encode32(buf, r, value);
    WroteBoth(b0, b1, buf[..], ptr, p1, r, d1, Put32(value));
  }

  method EncodeAtrError(buf: array<U8>, ptr: nat, e: ErrorInfo) returns (r: nat)
    requires |e.reason| < MAX_STRING && ptr + 8 + |e.reason| <= buf.Length
    modifies buf
    ensures Wrote(old(buf[..]), buf[..], ptr, r, PrintAttr(ErrorAttr(e)))
  {
    hide Wrote, Put16;
    ghost var b0 := buf[..];
    r := EncodeHead(buf, ptr, ERROR_CODE, 6 + |e.reason|);
    ghost var b1, p1, d1 := buf[..], r, Put16(ERROR_CODE) + Put16(6 + |e.reason|);
    Ends(b0, b1, ptr, p1, d1);
    r := Encode16(buf, r, e.pad);
    ghost var b2, p2, d2 := buf[..], r, d1 + Put16(e.pad);
    WroteBoth(b0, b1, b2, ptr, p1, p2, d1, Put16(e.pad));
    Ends(b0, b2, ptr, p2, d2);
    r := Encode(buf, r, [e.errorClass, e.number]);
    ghost var b3, p3, d3 := buf[..], r, d2 + [e.errorClass, e.number];
    WroteBoth(b0, b2, b3, ptr, p2, p3, d2, [e.errorClass, e.number]);
    Ends(b0, b3, ptr, p3, d3);
    r := Encode(buf, r, e.reason);
    WroteBoth(b0, b3, buf[..], ptr, p3, r, d3, e.reason);
    assert d3 + e.reason == PrintAttr(ErrorAttr(e));
  }

  lemma TypesNext(types: seq<U16>, i: nat)
    requires i <= |types|
    ensures PrintTypes(types[..0]) == []
    ensures i < |types| ==> PrintTypes(types[..i + 1]) == PrintTypes(types[..i]) + Put16(types[i])
  {
    if i < |types| {
      assert types[..i + 1][..i] == types[..i];
    }
  }

  method EncodeAtrUnknown(buf: array<U8>, ptr: nat, types: seq<U16>) returns (r: nat)
    requires |types| <= MAX_UNKNOWN && ptr + 4 + 2 * |types| <= buf.Length
    modifies buf
    ensures Wrote(old(buf[..]), buf[..], ptr, r, PrintAttr(UnknownAttr(types)))
  {
    hide Wrote, Put16, PrintTypes;
    ghost var b0 := buf[..];
    r := EncodeHead(buf, ptr, UNKNOWN_ATTRIBUTE, 2 + 2 * |types|);
    ghost var head := Put16(UNKNOWN_ATTRIBUTE) + Put16(2 + 2 * |types|);
    Ends(b0, buf[..], ptr, r, head);
    TypesNext(types, 0);
    assert head + PrintTypes(types[..0]) == head;
    for i := 0 to |types|
      invariant Wrote(b0, buf[..], ptr, r, head + PrintTypes(types[..i]))
      invariant r == ptr + 4 + 2 * i
    {
      ghost var b, p, d := buf[..], r, head + PrintTypes(types[..i]);
      r := Encode16(buf, r, types[i]);
      WroteBoth(b0, b, buf[..], ptr, p, r, d, Put16(types[i]));
      TypesNext(types, i);
      Ends(b, buf[..], p, r, Put16(types[i]));
      assert d + Put16(types[i]) == head + (PrintTypes(types[..i]) + Put16(types[i]));
    }
    assert types[..|types|] == types;
  }

  method EncodeAtrString(buf: array<U8>, ptr: nat, atrType: U16, s: octets) returns (r: nat)
    requires |s| < MAX_STRING && ptr + 4 + |s| <= buf.Length
    modifies buf
    ensures Wrote(old(buf[..]), buf[..], ptr, r, PrintAttr(StringAttr(atrType, s)))
  {
    hide Wrote, Put16;
    ghost var b0 := buf[..];
    r := EncodeHead(buf, ptr, atrType, |s|);
    ghost var b1, p1, d1 := buf[..], r, Put16(atrType) + Put16(|s|);
    Ends(b0, b1, ptr, p1, d1);
    r := Encode(buf, r, s);
    WroteBoth(b0, b1, buf[..], ptr, p1, r, d1, s);
  }

  method EncodeAtrIntegrity(buf: array<U8>, ptr: nat, hash: Digest) returns (r: nat)
    requires ptr + 24 <= buf.Length
    modifies buf
    ensures Wrote(old(buf[..]), buf[..], ptr, r, PrintAttr(Attr(MESSAGE_INTEGRITY, 20, hash)))
  {
    hide Wrote, Put16;
    ghost var b0 := buf[..];
    r := EncodeHead(buf, ptr, MESSAGE_INTEGRITY, 20);
    ghost var b1, p1, d1 := buf[..], r, Put16(MESSAGE_INTEGRITY) + Put16(20);
    Ends(b0, b1, ptr, p1, d1);
    r := Encode(buf, r, hash);
    WroteBoth(b0, b1, buf[..], ptr, p1, r, d1, hash);
  }

  // The has-flags: an absent part writes nothing.

  method MaybeAddress(buf: array<U8>, ptr: nat, atrType: U16, a: Option<Address>) returns (r: nat)
    requires ptr + |PrintAttrs(OfAddress(atrType, a))| <= buf.Length
    modifies buf
    ensures Wrote(old(buf[..]), buf[..], ptr, r, PrintAttrs(OfAddress(atrType, a)))
  {
    OnePrinted(OfAddress(atrType, a));
    hide Wrote, PrintAttrs;
    WroteNothing(buf[..], ptr);
    r := ptr;
    if a.Some? {
      r := EncodeAtrAddress4(buf, ptr, atrType, a.value);
    }
  }

  method MaybeChange(buf: array<U8>, ptr: nat, c: Option<U32>) returns (r: nat)
    requires ptr + |PrintAttrs(OfChange(c))| <= buf.Length
    modifies buf
    ensures Wrote(old(buf[..]), buf[..], ptr, r, PrintAttrs(OfChange(c)))
  {
    OnePrinted(OfChange(c));
    hide Wrote, PrintAttrs;
    WroteNothing(buf[..], ptr);
    r := ptr;
    if c.Some? {
      r := EncodeAtrChangeRequest(buf, ptr, c.value);
    }
  }

  method MaybeString(buf: array<U8>, ptr: nat, atrType: U16, s: Option<octets>) returns (r: nat)
    requires s.Some? ==> |s.value| < MAX_STRING
    requires ptr + |PrintAttrs(OfString(atrType, s))| <= buf.Length
    modifies buf
    ensures Wrote(old(buf[..]), buf[..], ptr, r, PrintAttrs(OfString(atrType, s)))
  {
    OnePrinted(OfString(atrType, s));
    hide Wrote, PrintAttrs;
    WroteNothing(buf[..], ptr);
    r := ptr;
    if s.Some? {
      r := EncodeAtrString(buf, ptr, atrType, s.value);
    }
  }

  method MaybeError(buf: array<U8>, ptr: nat, e: Option<ErrorInfo>) returns (r: nat)
    requires e.Some? ==> |e.value.reason| < MAX_STRING
    requires ptr + |PrintAttrs(OfError(e))| <= buf.Length
    modifies buf
    ensures Wrote(old(buf[..]), buf[..], ptr, r, PrintAttrs(OfError(e)))
  {
    OnePrinted(OfError(e));
    hide Wrote, PrintAttrs;
    WroteNothing(buf[..], ptr);
    r := ptr;
    if e.Some? {
      r := EncodeAtrError(buf, ptr, e.value);
    }
  }

  method MaybeUnknown(buf: array<U8>, ptr: nat, u: Option<seq<U16>>) returns (r: nat)
    requires u.Some? ==> |u.value| <= MAX_UNKNOWN
    requires ptr + |PrintAttrs(OfUnknown(u))| <= buf.Length
    modifies buf
    ensures Wrote(old(buf[..]), buf[..], ptr, r, PrintAttrs(OfUnknown(u)))
  {
    OnePrinted(OfUnknown(u));
    hide Wrote, PrintAttrs;
    WroteNothing(buf[..], ptr);
    r := ptr;
    if u.Some? {
      TypesLength(u.value);
      r := EncodeAtrUnknown(buf, ptr, u.value);
    }
  }

  lemma Extended(a: octets, b: octets, c: octets, p: nat, q: nat, r: nat, d: octets, x: octets) returns (e: octets)
    requires Wrote(a, b, p, q, d) && Wrote(b, c, q, r, x)
    ensures e == d + x && Wrote(a, c, p, r, e) && r == p + |e| <= |a| == |c|
  {
    WroteBoth(a, b, c, p, q, r, d, x);
    e := d + x;
  }

  /** All attributes of a message but the hash. */
  method EncodeAttributes(buf: array<U8>, ptr: nat, m: Message) returns (r: nat)
    requires Fits(m) && ptr + |PrintAttrs(Attrs(m))| <= buf.Length
    modifies buf
    ensures Wrote(old(buf[..]), buf[..], ptr, r, PrintAttrs(Attrs(m)))
  {
    AttrsPrinted(m);
    hide Wrote, PrintAttrs, Attrs, OfAddress, OfChange, OfString, OfError, OfUnknown;
    ghost var b0 := buf[..];
    ghost var d: octets := PrintAttrs(OfAddress(MAPPED_ADDRESS, m.mappedAddress));
    r := MaybeAddress(buf, ptr, MAPPED_ADDRESS, m.mappedAddress);
    Ends(b0, buf[..], ptr, r, d);
    ghost var b, p, x := buf[..], r, PrintAttrs(OfAddress(RESPONSE_ADDRESS, m.responseAddress));
    r := MaybeAddress(buf, r, RESPONSE_ADDRESS, m.responseAddress);
    d := Extended(b0, b, buf[..], ptr, p, r, d, x);
    b, p, x := buf[..], r, PrintAttrs(OfChange(m.changeRequest));
    r := MaybeChange(buf, r, m.changeRequest);
    d := Extended(b0, b, buf[..], ptr, p, r, d, x);
    b, p, x := buf[..], r, PrintAttrs(OfAddress(SOURCE_ADDRESS, m.sourceAddress));
    r := MaybeAddress(buf, r, SOURCE_ADDRESS, m.sourceAddress);
    d := Extended(b0, b, buf[..], ptr, p, r, d, x);
    b, p, x := buf[..], r, PrintAttrs(OfAddress(CHANGED_ADDRESS, m.changedAddress));
    r := MaybeAddress(buf, r, CHANGED_ADDRESS, m.changedAddress);
    d := Extended(b0, b, buf[..], ptr, p, r, d, x);
    b, p, x := buf[..], r, PrintAttrs(OfString(USERNAME, m.username));
    r := MaybeString(buf, r, USERNAME, m.username);
    d := Extended(b0, b, buf[..], ptr, p, r, d, x);
    b, p, x := buf[..], r, PrintAttrs(OfString(PASSWORD, m.password));
    r := MaybeString(buf, r, PASSWORD, m.password);
    d := Extended(b0, b, buf[..], ptr, p, r, d, x);
    b, p, x := buf[..], r, PrintAttrs(OfError(m.errorCode));
    r := MaybeError(buf, r, m.errorCode);
    d := Extended(b0, b, buf[..], ptr, p, r, d, x);
    b, p, x := buf[..], r, PrintAttrs(OfUnknown(m.unknownAttributes));
    r := MaybeUnknown(buf, r, m.unknownAttributes);
    d := Extended(b0, b, buf[..], ptr, p, r, d, x);
    b, p, x := buf[..], r, PrintAttrs(OfAddress(REFLECTED_FROM, m.reflectedFrom));
    r := MaybeAddress(buf, r, REFLECTED_FROM, m.reflectedFrom);
    d := Extended(b0, b, buf[..], ptr, p, r, d, x);
  }

  /** Filling in the length afterwards. */
  lemma Patched(a: octets, b: octets, c: octets, r: nat, t: U16, length: U16, id: octets, body: octets)
    requires Wrote(a, b, 0, r, Header(t, 0, id) + body)
    requires Wrote(b, c, 2, 4, Put16(length))
    ensures Wrote(a, c, 0, r, Header(t, length, id) + body)
  {
    hide Put16;
    assert b[..r] == Header(t, 0, id) + body;
    assert c[..4] == b[..2] + Put16(length);
    assert b[..2] == Put16(t) by {
      assert b[..2] == b[..r][..2];
    }
    assert c[4..r] == id + body by {
      assert b[..r][4..] == id + body;
      assert c[4..r] == b[4..r] == b[..r][4..];
    }
    assert c[..r] == c[..4] + c[4..r];
  }

  /** The hash, if there is a password, over what is printed so far. */
  method MaybeIntegrity(buf: array<U8>, ptr: nat, m: Message, password: octets, hmac: Hmac) returns (r: nat)
    requires Fits(m) && ptr + |PrintAttrs(Integrity(m, password, hmac))| <= buf.Length
    requires buf[..ptr] == Header(m.msgType, 0, m.id) + PrintAttrs(Attrs(m))
    modifies buf
    ensures Wrote(old(buf[..]), buf[..], ptr, r, PrintAttrs(Integrity(m, password, hmac)))
  {
    OnePrinted(Integrity(m, password, hmac));
    hide Wrote, PrintAttrs, Attrs;
    WroteNothing(buf[..], ptr);
    r := ptr;
    if password != [] {
      r := EncodeAtrIntegrity(buf, ptr, hmac(buf[..ptr], password));
    }
  }

  /** The header, with a length of zero for now. */
  method EncodeHeader(buf: array<U8>, msgType: U16, id: octets) returns (n: nat)
    requires |id| == 16 && HEADER <= buf.Length
    modifies buf
    ensures Wrote(old(buf[..]), buf[..], 0, n, Header(msgType, 0, id))
  {
    hide Wrote, Put16;
    ghost var b0, d := buf[..], Put16(msgType) + Put16(0);
    n := EncodeHead(buf, 0, msgType, 0);
    ghost var b, p := buf[..], n;
    Ends(b0, b, 0, n, d);
    n := Encode(buf, n, id);
    WroteBoth(b0, b, buf[..], 0, p, n, d, id);
  }

  lemma Prefix(before: octets, after: octets, r: nat, data: octets)
    requires Wrote(before, after, 0, r, data)
    ensures r == |data| <= |after| == |before| && after[..r] == data
    ensures forall i :: r <= i < |after| ==> after[i] == before[i]
  {
    assert before[..0] + data == data;
  }

  /** Everything but the length. */
  method EncodeParts(m: Message, buf: array<U8>, password: octets, hmac: Hmac) returns (n: nat)
    requires Fits(m) && HEADER + |Body(m, password, hmac)| <= buf.Length
    modifies buf
    ensures Wrote(old(buf[..]), buf[..], 0, n, Header(m.msgType, 0, m.id) + Body(m, password, hmac))
  {
    PrintConcat(Attrs(m), Integrity(m, password, hmac));
    hide Wrote, PrintAttrs, Attrs, Integrity;
    ghost var b0, head := buf[..], Header(m.msgType, 0, m.id);
    ghost var attrs, last := PrintAttrs(Attrs(m)), PrintAttrs(Integrity(m, password, hmac));
    assert |head| == HEADER;
    hide Header;
    n := EncodeHeader(buf, m.msgType, m.id);
    ghost var b1 := buf[..];
    Ends(b0, b1, 0, n, head);
    ghost var p1 := n;
    n := EncodeAttributes(buf, n, m);
    ghost var b2, p2 := buf[..], n;
    ghost var d := Extended(b0, b1, b2, 0, p1, p2, head, attrs);
    Prefix(b0, b2, n, d);
    n := MaybeIntegrity(buf, n, m, password, hmac);
    WroteBoth(b1, b2, buf[..], p1, p2, n, attrs, last);
    WroteBoth(b0, b1, buf[..], 0, p1, n, head, attrs + last);
  }

  /** stunEncodeMessage; its buffer check looks at the header's size only, so the room is the caller's to provide. */
  method EncodeMessage(m: Message, buf: array<U8>, password: octets, hmac: Hmac) returns (n: nat)
    requires Fits(m) && |Print(m, password, hmac)| <= buf.Length
    modifies buf
    ensures n == |Print(m, password, hmac)| && buf[..n] == Print(m, password, hmac)
    ensures forall i :: n <= i < buf.Length ==> buf[i] == old(buf[i])
  {
    BodySize(m, password, hmac);
    hide Wrote, Put16, Body;
    ghost var b0, body := buf[..], Body(m, password, hmac);
    n := EncodeParts(m, buf, password, hmac);
    ghost var b := buf[..];
    Ends(b0, b, 0, n, Header(m.msgType, 0, m.id) + body);
    var _ := Encode16(buf, 2, n - HEADER);
    Ends(b, buf[..], 2, 4, Put16(n - HEADER));
    Patched(b0, b, buf[..], n, m.msgType, n - HEADER, m.id, body);
    Prefix(b0, buf[..], n, Print(m, password, hmac));
  }

  // ----- the parser

  /** The fixed arrays of the message. */
  class Fields {
    const username: array<U8>
    const password: array<U8>
    const reason: array<U8>
    const hash: array<U8>

    ghost predicate Valid() {
      && username.Length == MAX_STRING && password.Length == MAX_STRING && reason.Length == MAX_STRING && hash.Length == 20
    }

    constructor ()
      ensures Valid() && fresh(username) && fresh(password) && fresh(reason) && fresh(hash)
    {
      username := new U8[MAX_STRING](_ => 0);
      password := new U8[MAX_STRING](_ => 0);
      reason := new U8[MAX_STRING](_ => 0);
      hash := new U8[20](_ => 0);
    }
  }

  /** n bytes of the message from position `from` on go to the front of an array. */
  method CopyBytes(dst: array<U8>, buf: octets, from: nat, n: nat)
    requires n <= dst.Length && from + n <= |buf|
    modifies dst
    ensures dst[..n] == buf[from..from + n]
  {
    for i := 0 to n
      invariant forall j :: 0 <= j < i ==> dst[j] == buf[from + j]
    {
      dst[i] := buf[from + i];
    }
  }

  lemma SliceGet16(buf: octets, from: nat, to: nat, i: nat)
    requires from + i + 2 <= to <= |buf|
    ensures Get16(buf[from..to], i) == Get16(buf, from + i)
  {
  }

  lemma SliceGet32(buf: octets, from: nat, to: nat, i: nat)
    requires from + i + 4 <= to <= |buf|
    ensures Get32(buf[from..to], i) == Get32(buf, from + i)
  {
  }

  /** stunParseAtrAddress */
  method ParseAtrAddress(buf: octets, body: nat, hdrLen: nat) returns (a: Option<Address>)
    requires body + hdrLen <= |buf|
    ensures a == ParseAddress(buf[body..body + hdrLen])
  {
    hide Get16, Get32;
    if hdrLen != 8 {
      return None;
    }
    SliceGet16(buf, body, body + 8, 2);
    SliceGet32(buf, body, body + 8, 4);
    var p: nat := body;
    var pad := buf[p];
    p := p + 1;
    var family := buf[p];
    p := p + 1;
    if family != IPV4_FAMILY {
      return None;
    }
    var port := Get16(buf, p);
    p := p + 2;
    var addr := Get32(buf, p);
    a := Some(Address(pad, family, port, addr));
  }

  /** stunParseAtrChangeRequest */
  method ParseAtrChangeRequest(buf: octets, body: nat, hdrLen: nat) returns (c: Option<U32>)
    requires body + hdrLen <= |buf|
    ensures c == ParseChangeRequest(buf[body..body + hdrLen])
  {
    hide Get32;
    if hdrLen != 4 {
      return None;
    }
    SliceGet32(buf, body, body + 4, 0);
    c := Some(Get32(buf, body));
  }

  /** stunParseAtrString: the value, with a zero behind it, stays in its array. */
  method ParseAtrString(buf: octets, body: nat, hdrLen: nat, value: array<U8>) returns (ok: bool)
    requires body + hdrLen <= |buf| && value.Length == MAX_STRING
    modifies value
    ensures ok <==> ParseString(buf[body..body + hdrLen]).Some?
    ensures ok ==> hdrLen < value.Length && value[..hdrLen] == buf[body..body + hdrLen] && value[hdrLen] == 0
  {
    if hdrLen >= MAX_STRING {
      return false;
    }
    if hdrLen % 4 != 0 {
      return false;
    }
    CopyBytes(value, buf, body, hdrLen);
    ghost var copied := value[..hdrLen];
    value[hdrLen] := 0;
    assert value[..hdrLen] == copied;
    ok := true;
  }

  /** stunParseAtrIntegrity */
  method ParseAtrIntegrity(buf: octets, body: nat, hdrLen: nat, hash: array<U8>) returns (ok: bool)
    requires body + hdrLen <= |buf| && hash.Length == 20
    modifies hash
    ensures ok <==> ParseIntegrity(buf[body..body + hdrLen]).Some?
    ensures ok ==> hash[..] == buf[body..body + hdrLen]
  {
    if hdrLen != 20 {
      return false;
    }
    CopyBytes(hash, buf, body, hdrLen);
    assert hash[..] == hash[..20];
    ok := true;
  }

  /** stunParseAtrError: for the sizes it is defined for, the reason and its zero stay in their array. */
  method ParseAtrError(buf: octets, body: nat, hdrLen: U16, reason: array<U8>) returns (e: Option<ErrorInfo>)
    requires body + hdrLen <= |buf| && reason.Length == MAX_STRING && ErrorDefined(hdrLen)
    modifies reason
    ensures e == ParseError(buf[body..body + hdrLen])
  {
    if hdrLen >= 262 {
      return None;
    }
    ErrorStays(hdrLen, hdrLen);
    hide Get16;
    SliceGet16(buf, body, body + hdrLen, 0);
    SliceOfSlice(buf, body, body + hdrLen, 4, hdrLen);
    var p: nat := body;
    var pad := Get16(buf, p);
    p := p + 2;
    var errorClass := buf[p];
    p := p + 1;
    var number := buf[p];
    p := p + 1;
    var sizeReason := ReasonSize(hdrLen);
    CopyBytes(reason, buf, p, sizeReason);
    ghost var copied := reason[..sizeReason];
    reason[sizeReason] := 0;
    assert reason[..sizeReason] == copied;
    e := Some(ErrorInfo(pad, errorClass, number, reason[..sizeReason]));
  }

  /** stunParseAtrUnknown: two bytes are read for every four the attribute has. */
  method ParseAtrUnknown(buf: octets, body: nat, hdrLen: nat) returns (r: Option<seq<U16>>)
    requires body + hdrLen <= |buf|
    ensures r == ParseUnknown(buf[body..body + hdrLen])
  {
    hide Get16;
    if hdrLen >= 18 {
      return None;
    }
    if hdrLen % 4 != 0 {
      return None;
    }
    ghost var s := buf[body..body + hdrLen];
    var types: seq<U16>, p := [], body;
    for i := 0 to hdrLen / 4
      invariant p == body + 2 * i && |types| == i
      invariant forall j :: 0 <= j < i ==> types[j] == Get16(s, 2 * j)
    {
      SliceGet16(buf, body, body + hdrLen, 2 * i);
      types := types + [Get16(buf, p)];
      p := p + 2;
    }
    r := Some(types);
    assert types == ParseUnknown(s).value;
  }

  /** The switch of the attribute loop. */
  method ParseAtr(m: Message, fields: Fields, atrType: U16, buf: octets, body: nat, attrLen: U16) returns (r: Option<Message>)
    requires fields.Valid()
    requires body + attrLen <= |buf| && (atrType == ERROR_CODE ==> ErrorDefined(attrLen))
    modifies fields.username, fields.password, fields.reason, fields.hash
    ensures r == ParseAttribute(m, atrType, buf[body..body + attrLen])
  {
    hide ParseAddress, ParseChangeRequest, ParseError, ParseUnknown, ErrorDefined;
    r := None;
    if atrType in {MAPPED_ADDRESS, RESPONSE_ADDRESS, SOURCE_ADDRESS, CHANGED_ADDRESS, REFLECTED_FROM} {
      var a := ParseAtrAddress(buf, body, attrLen);
      if a == None {
        return None;
      }
      if atrType == MAPPED_ADDRESS {
        r := Some(m.(mappedAddress := a));
      } else if atrType == RESPONSE_ADDRESS {
        r := Some(m.(responseAddress := a));
      } else if atrType == SOURCE_ADDRESS {
        r := Some(m.(sourceAddress := a));
      } else if atrType == CHANGED_ADDRESS {
        r := Some(m.(changedAddress := a));
      } else {
        r := Some(m.(reflectedFrom := a));
      }
    } else if atrType == CHANGE_REQUEST {
      var c := ParseAtrChangeRequest(buf, body, attrLen);
      r := if c.Some? then Some(m.(changeRequest := c)) else None;
    } else if atrType == USERNAME {
      var ok := ParseAtrString(buf, body, attrLen, fields.username);
      if ok {
        r := Some(m.(username := Some(fields.username[..attrLen])));
      }
    } else if atrType == PASSWORD {
      var ok := ParseAtrString(buf, body, attrLen, fields.password);
      if ok {
        r := Some(m.(password := Some(fields.password[..attrLen])));
      }
    } else if atrType == MESSAGE_INTEGRITY {
      var ok := ParseAtrIntegrity(buf, body, attrLen, fields.hash);
      if ok {
        r := Some(m.(messageIntegrity := Some(fields.hash[..])));
      }
    } else if atrType == ERROR_CODE {
      var e := ParseAtrError(buf, body, attrLen, fields.reason);
      r := if e.Some? then Some(m.(errorCode := e)) else None;
    } else if atrType == UNKNOWN_ATTRIBUTE {
      var u := ParseAtrUnknown(buf, body, attrLen);
      r := if u.Some? then Some(m.(unknownAttributes := u)) else None;
    } else if atrType > 0x7FFF {
      r := Some(m);
    }
  }

  /** The header is read in the buffer itself. */
  lemma HeaderOf(buf: octets, bufLen: nat)
    requires HEADER <= bufLen <= |buf| && MessageDefined(buf[..bufLen], |buf| - bufLen)
    ensures var n := Get16(buf, 2);
            var m := Bare(Get16(buf, 0), n, buf[4..HEADER]);
            if n + HEADER != bufLen then Parse(buf[..bufLen]) == None
            else Parse(buf[..bufLen]) == ParseBody(buf[HEADER..bufLen], m) && Defined(buf[HEADER..bufLen], m, |buf| - bufLen)
  {
    SliceGet16(buf, 0, bufLen, 0);
    SliceGet16(buf, 0, bufLen, 2);
    SliceOfSlice(buf, 0, bufLen, 4, HEADER);
    SliceOfSlice(buf, 0, bufLen, HEADER, bufLen);
    assert buf[0..bufLen] == buf[..bufLen];
    hide ParseBody, Defined, Get16;
  }

  lemma BodyEnd(buf: octets, body: nat, end: nat, m: Message)
    requires body == end <= |buf|
    ensures ParseBody(buf[body..end], m) == Some(m)
  {
  }

  /** One round of the loop, in terms of positions in the buffer. */
  lemma BodyStep(buf: octets, body: nat, end: nat, m: Message)
    requires body < end <= |buf| && Defined(buf[body..end], m, |buf| - end)
    ensures body + 4 <= |buf|
    ensures var n, t := Get16(buf, body + 2), Get16(buf, body);
            if n + 4 > end - body then ParseBody(buf[body..end], m) == None
            else
              (t == ERROR_CODE ==> ErrorDefined(n))
              && match ParseAttribute(m, t, buf[body + 4..body + 4 + n])
                 case None => ParseBody(buf[body..end], m) == None
                 case Some(m') => ParseBody(buf[body..end], m) == ParseBody(buf[body + 4 + n..end], m')
                                  && Defined(buf[body + 4 + n..end], m', |buf| - end)
  {
    hide ParseAttribute;
    var s := buf[body..end];
    if end - body >= 4 {
      SliceGet16(buf, body, end, 0);
      SliceGet16(buf, body, end, 2);
      hide Get16;
      var n := Get16(s, 2);
      if n + 4 <= |s| {
        SliceOfSlice(buf, body, end, 4, 4 + n);
        SliceOfSlice(buf, body, end, 4 + n, end - body);
      }
    }
  }

  /** The loop over the attributes. */
  method ParseAttributes(buf: octets, end: nat, m: Message) returns (r: Option<Message>)
    requires HEADER <= end <= |buf| && Defined(buf[HEADER..end], m, |buf| - end)
    ensures r == ParseBody(buf[HEADER..end], m)
  {
    hide ParseBody, Defined, ParseAttribute, Get16;
    var msg := m;
    var fields := new Fields();
    var body: nat, size: nat := HEADER, end - HEADER;
    ghost var result := ParseBody(buf[HEADER..end], m);
    while size > 0
      invariant body + size == end && fields.Valid() && fresh(fields)
      invariant fresh(fields.username) && fresh(fields.password) && fresh(fields.reason) && fresh(fields.hash)
      invariant ParseBody(buf[body..end], msg) == result
      invariant Defined(buf[body..end], msg, |buf| - end)
      decreases size
    {
      BodyStep(buf, body, end, msg);
      var attrLen: U16, atrType: U16 := Get16(buf, body + 2), Get16(buf, body);
      if attrLen + 4 > size {
        return None;
      }
      body := body + 4;
      size := size - 4;
      r := ParseAtr(msg, fields, atrType, buf, body, attrLen);
      if r == None {
        return None;
      }
      msg := r.value;
      body := body + attrLen;
      size := size - attrLen;
    }
    BodyEnd(buf, body, end, msg);
    r := Some(msg);
  }

  /**
   * stunParseMessage on the first bufLen bytes of a buffer.  It is required to be defined, which
   * StunBounds shows to be exactly that every access stays in bounds; the loop then terminates,
   * because each attribute takes at least the four bytes of its header.
   */
  method ParseMessage(buf: octets, bufLen: nat) returns (r: Option<Message>)
    requires bufLen <= |buf| && MessageDefined(buf[..bufLen], |buf| - bufLen)
    ensures r == Parse(buf[..bufLen])
  {
    if HEADER > bufLen {
      return None;
    }
    HeaderOf(buf, bufLen);
    hide Parse, MessageDefined, Defined, ParseBody, Get16;
    var msg := Bare(Get16(buf, 0), Get16(buf, 2), buf[4..HEADER]);
    if msg.msgLength + HEADER != bufLen {
      return None;
    }
    r := ParseAttributes(buf, bufLen, msg);
  }
}
