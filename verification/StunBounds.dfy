/** The memory the STUN parser touches: the copies into the message's arrays, and the bytes read from the message. */
module StunBounds {
  import opened Bytes
  import opened Stun

  /** A copy into an array of the message: its room, how much of it is written, and how many bytes of the body are read. */
  datatype Copy = Copy(room: nat, written: nat, read: nat)

  /** Into fields of fixed size. */
  function Fields(read: nat): Copy {
    Copy(read, read, read)
  }

  const REJECTED := Fields(0)

  /** sizeReason is the declared size less four, in 16 bits; the reason gets a zero behind it. */
  function ReasonSize(n: U16): U16 {
    (n as int - 4) % 0x1_0000
  }

  /** What parsing the body of an attribute of declared size n does; a size that is rejected is rejected before any copy. */
  function CopyOf(atrType: U16, n: U16): Copy {
    if atrType in {MAPPED_ADDRESS, RESPONSE_ADDRESS, SOURCE_ADDRESS, CHANGED_ADDRESS, REFLECTED_FROM} then
      if n != 8 then REJECTED else Fields(8)
    else if atrType == CHANGE_REQUEST then
      if n != 4 then REJECTED else Fields(4)
    else if atrType == USERNAME || atrType == PASSWORD then
      if n >= MAX_STRING || n % 4 != 0 then REJECTED else Copy(MAX_STRING, n + 1, n)
    else if atrType == MESSAGE_INTEGRITY then
      if n != 20 then REJECTED else Copy(20, 20, n)
    else if atrType == ERROR_CODE then
      if n >= 262 then REJECTED else Copy(MAX_STRING, ReasonSize(n) + 1, 4 + ReasonSize(n))
    else if atrType == UNKNOWN_ATTRIBUTE then
      if n >= 18 || n % 4 != 0 then REJECTED else Copy(MAX_UNKNOWN, n / 4, 2 * (n / 4))
    else REJECTED
  }

  predicate AttributeStays(atrType: U16, n: U16, available: nat) {
    var c := CopyOf(atrType, n);
    c.written <= c.room && c.read <= available
  }

  /** Every access of the attribute loop stays in its array, and in the message and the `slack` bytes after it. */
  predicate Stays(s: octets, m: Message, slack: nat)
    decreases |s|
  {
    if s == [] then true
    else if |s| + slack < 4 then false
    else if |s| < 4 || Get16(s, 2) + 4 > |s| then true
    else
      var n := Get16(s, 2);
      AttributeStays(Get16(s, 0), n, |s| - 4 + slack)
      && match ParseAttribute(m, Get16(s, 0), s[4..4 + n])
         case None => true
         case Some(m') => Stays(s[4 + n..], m', slack)
  }

  /** The copy of a reason and its zero stay in the array of 256 bytes for exactly these sizes. */
  lemma ErrorStays(n: U16, available: nat)
    requires n <= available
    ensures AttributeStays(ERROR_CODE, n, available) <==> ErrorDefined(n)
    ensures n < 4 ==> ReasonSize(n) >= 0xFFFC
  {
    if n < 4 {
      assert ReasonSize(n) == n + 0xFFFC;
    } else {
      assert ReasonSize(n) == n - 4;
    }
  }

  /** No other attribute leaves its array or reads beyond its body. */
  lemma OthersStay(atrType: U16, n: U16, available: nat)
    requires n <= available && atrType != ERROR_CODE
    ensures AttributeStays(atrType, n, available)
  {
  }

  /** A whole parse stays in bounds iff it is defined, for every sequence of bytes. */
  lemma {:induction false} StaysIffDefined(s: octets, m: Message, slack: nat)
    ensures Stays(s, m, slack) <==> Defined(s, m, slack)
    decreases |s|
  {
    hide ParseAttribute, AttributeStays, ErrorDefined;
    if |s| >= 4 && Get16(s, 2) + 4 <= |s| {
      var n, t := Get16(s, 2), Get16(s, 0);
      if t == ERROR_CODE {
        ErrorStays(n, |s| - 4 + slack);
      } else {
        OthersStay(t, n, |s| - 4 + slack);
      }
      match ParseAttribute(m, t, s[4..4 + n])
      case None =>
      case Some(m') => StaysIffDefined(s[4 + n..], m', slack);
    }
  }

  /** A datagram of 24 bytes whose one attribute is an empty ErrorCode leaves the array of its reason. */
  lemma EmptyErrorLeaves(msgType: U16, id: octets, slack: nat)
    requires |id| == 16
    ensures var buf := Header(msgType, 4, id) + [0, 9, 0, 0];
            |buf| == 24 && !MessageDefined(buf, slack) && !Stays(buf[HEADER..], Bare(msgType, 4, id), slack)
  {
    var body: octets := [0, 9, 0, 0];
    DefinedFrame(msgType, id, body, slack);
    HeaderParts(msgType, 4, id, body);
    assert !Defined(body, Bare(msgType, 4, id), slack);
    StaysIffDefined(body, Bare(msgType, 4, id), slack);
    hide Defined, Stays, MessageDefined, Header;
  }

  /** A single byte after the header is rejected, but only after three bytes beyond it were read. */
  lemma StrayByteReadsOn(msgType: U16, id: octets, b: U8, slack: nat)
    requires |id| == 16
    ensures MessageDefined(Header(msgType, 1, id) + [b], slack) <==> slack >= 3
  {
    DefinedFrame(msgType, id, [b], slack);
    hide MessageDefined, Header;
  }
}
