/** The greeting line a device sends: a tag, its id, a newline. */
module Header {
  import opened Bytes
  import opened CStrings

  const NEWLINE: byte := 10
  const RADMIN_TAG: seq<byte> := [82, 65, 68, 77, 73, 78, 58, 32]  // "RADMIN: "
  const RLOGIN_TAG: seq<byte> := [82, 76, 79, 71, 73, 78, 58, 32]  // "RLOGIN: "
  const TELNET_TAG: seq<byte> := [84, 69, 76, 78, 69, 84, 58, 32]  // "TELNET: "

  /** The kinds of service, numbered as in radmsrv/radm.h. */
  datatype Kind = Radmin | Rlogin | Telnet

  /** sizeof the header buffers on both sides. */
  const HEADERSIZE: nat := 256

  /** An id a device can announce: a C string without newline that leaves room for tag, newline and NUL. */
  ghost predicate GoodId(id: seq<byte>) {
    0 !in id && NEWLINE !in id && 8 + |id| + 1 < HEADERSIZE
  }

  /** The plain text of the greeting, as radmc_reconnect prints it. */
  function Greeting(isRadmin: bool, id: seq<byte>): seq<byte> {
    (if isRadmin then RADMIN_TAG else TELNET_TAG) + id + [NEWLINE]
  }

  /** What the server reads from a received line (the last byte is the newline, overwritten by NUL). */
  function Parse(line: seq<byte>): (r: Option<(Kind, seq<byte>)>)
    requires line != []
  {
    var text := line[..|line| - 1];
    if RADMIN_TAG <= text then Some((Radmin, CString(text[8..], 0)))
    else if RLOGIN_TAG <= text then Some((Rlogin, CString(text[8..], 0)))
    else if TELNET_TAG <= text then Some((Telnet, CString(text[8..], 0)))
    else None
  }

  /** What the server makes of the bytes it has so far. */
  datatype Verdict = More | Refuse | Accept(kind: Kind, id: seq<byte>)

  function Judge(line: seq<byte>): Verdict
    requires line != []
  {
    if line[|line| - 1] != NEWLINE then More
    else match Parse(line)
         case None => Refuse
         case Some(found) => Accept(found.0, found.1)
  }

  /** The eight bytes that name a kind of service: "RADMIN: ", "RLOGIN: " or "TELNET: ". */
  function Tag(kind: Kind): seq<byte> {
    match kind
    case Radmin => [82, 65, 68, 77, 73, 78, 58, 32]
    case Rlogin => [82, 76, 79, 71, 73, 78, 58, 32]
    case Telnet => [84, 69, 76, 78, 69, 84, 58, 32]
  }

  /** Of lines without NUL the server accepts exactly those made of a tag, an id and a newline at the end. */
  lemma LineMeans(line: seq<byte>, kind: Kind, id: seq<byte>)
    requires line != [] && 0 !in line
    ensures Judge(line) == Accept(kind, id) <==> line == Tag(kind) + id + [10]
    ensures Judge(line) == More <==> line[|line| - 1] != 10
  {
    var text := line[..|line| - 1];
    assert line == text + [line[|line| - 1]];
    if Tag(kind) <= text {
      assert text == Tag(kind) + text[8..];
      assert CString(text[8..], 0) == text[8..];
      assert RADMIN_TAG[1] != RLOGIN_TAG[1] && RADMIN_TAG[0] != TELNET_TAG[0] && RLOGIN_TAG[0] != TELNET_TAG[0];
    }
    if line == Tag(kind) + id + [10] {
      assert text == Tag(kind) + id;
    }
  }

  /** The server understands every greeting of a device. */
  lemma ParseGreeting(isRadmin: bool, id: seq<byte>)
    requires GoodId(id)
    ensures Parse(Greeting(isRadmin, id)) == Some((if isRadmin then Radmin else Telnet, id))
  {
    var tag := if isRadmin then RADMIN_TAG else TELNET_TAG;
    var line := Greeting(isRadmin, id);
    var text := line[..|line| - 1];
    assert text == tag + id && text[8..] == id && text[..8] == tag;
    assert RADMIN_TAG[1] != TELNET_TAG[1] && RLOGIN_TAG[1] != TELNET_TAG[1];
    assert CString(id, 0) == id;
  }

  /** No proper prefix of a greeting ends in a newline, so the server keeps reading. */
  lemma GreetingPrefix(isRadmin: bool, id: seq<byte>, n: nat)
    requires GoodId(id) && 0 < n <= |Greeting(isRadmin, id)|
    ensures Greeting(isRadmin, id)[n - 1] == NEWLINE <==> n == |Greeting(isRadmin, id)|
  {
    var tag := if isRadmin then RADMIN_TAG else TELNET_TAG;
    var line := Greeting(isRadmin, id);
    if n <= 8 {
      assert line[n - 1] == tag[n - 1];
    } else if n < |line| {
      assert line[n - 1] == id[n - 9];
    }
  }
}
