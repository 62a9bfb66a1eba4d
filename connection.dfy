/**
 * The host side of an ADB server connection (adb/connection.go): length-prefixed commands,
 * the four-byte status reply, hex size fields and little-endian integers. The socket is
 * replaced by two byte sequences: what the client has written and what the server sends,
 * with a read cursor into the latter.
 */
module AdbConnection {
  import opened Wrappers
  import opened Bytes
  import Strconv
  import GoText

  /** The buffer size of a default `bufio.Writer`. */
  const BUFIO_SIZE: nat := 4096

  const OKAY: string := "OKAY"
  const UNKNOWN_CODE: string := "UNKN"
  const WRITE_ERROR: string := "Could not write to ADB server"
  const READ_ERROR: string := "Could not read from ADB server"
  const EOF: string := "EOF"
  /** What the socket reports for a write after it was closed or broke. */
  const SOCKET_WRITE_ERROR: string := "use of closed network connection"
  /** What the socket reports for a read after it was closed. */
  const SOCKET_READ_ERROR: string := "use of closed network connection"

  /** A transport selection: the `Transport` constants Any, Emulator, Usb, or one device's serial. */
  datatype Transport = Any | Emulator | Usb | Serial(serial: string)

  function TransportCommand(t: Transport): string {
    match t
    case Any => "host:transport-any"
    case Emulator => "host:transport-local"
    case Usb => "host:transport-usb"
    case Serial(s) => "host:transport:" + s
  }

  function ShellCommand(args: seq<string>): string {
    "shell:" + GoText.JoinWords(args)
  }

  function LogCommand(args: seq<string>): string {
    "log:" + GoText.JoinWords(args)
  }

  /** A request on the wire: `%04x` of the command's byte length, then the command. */
  function Frame(cmd: string): seq<byte> {
    Ascii(Strconv.Hex04(|cmd|) + cmd)
  }

  /** How the server reads a request: four hex digits of length, then that many bytes. */
  function Unframe(wire: seq<byte>): Option<(string, seq<byte>)> {
    if |wire| < 4 then None
    else
      var n := Strconv.ParseUint(Text(wire[..4]), 16);
      if n.err.Some? || |wire| - 4 < n.value then None
      else Some((Text(wire[4..4 + n.value]), wire[4 + n.value..]))
  }

  /** The server reads back exactly the command that was framed, and nothing of what follows. */
  lemma UnframeFrame(cmd: string, rest: seq<byte>)
    requires |cmd| < 65536 && IsByteString(cmd)
    ensures Unframe(Frame(cmd) + rest) == Some((cmd, rest))
  {
    var h := Strconv.Hex04(|cmd|);
    Strconv.Hex04Width(|cmd|);
    Strconv.ParseHex04(|cmd|);
    AsciiConcat(h, cmd);
    var wire := Frame(cmd) + rest;
    assert wire[..4] == Ascii(h);
    assert IsByteString(h) by {
      forall i | 0 <= i < |h| ensures (h[i] as int) < 256 {
        assert Strconv.IsDigit(h[i], 16);
      }
    }
    TextAscii(h);
    assert wire[4..4 + |cmd|] == Ascii(cmd);
    TextAscii(cmd);
    assert wire[4 + |cmd|..] == rest;
  }

  /** A request is the four-digit prefix plus the command for every command below 65536 bytes. */
  lemma FrameLength(cmd: string)
    ensures |Frame(cmd)| >= 4 + |cmd|
    ensures |Frame(cmd)| == 4 + |cmd| <==> |cmd| < 65536
  {
    Strconv.Hex04Width(|cmd|);
  }

  /** What a `bufio.Reader.Read(p)` delivers: the available bytes up to `|p|`, over the front of `p`. */
  datatype ReadOutcome = ReadOutcome(buf: seq<byte>, n: nat, eof: bool)

  function ReadFrom(inbound: seq<byte>, cursor: nat, p: seq<byte>): (r: ReadOutcome)
    requires cursor <= |inbound|
    ensures |r.buf| == |p| && cursor + r.n <= |inbound|
    ensures r.n == if |p| <= |inbound| - cursor then |p| else |inbound| - cursor
  {
    var k := if |p| <= |inbound| - cursor then |p| else |inbound| - cursor;
    ReadOutcome(inbound[cursor..cursor + k] + p[k..], k, |p| > 0 && k == 0)
  }

  /**
   * A read through the connection's reader: `ReadFrom` while the socket is open; once it is
   * closed nothing is delivered and any non-empty read fails (the reader buffers nothing ahead).
   */
  function SocketRead(inbound: seq<byte>, cursor: nat, open: bool, p: seq<byte>): (r: ReadOutcome)
    requires cursor <= |inbound|
    ensures |r.buf| == |p| && cursor + r.n <= |inbound|
    ensures open ==> r == ReadFrom(inbound, cursor, p)
    ensures !open ==> r.buf == p && r.n == 0 && (r.eof <==> |p| > 0)
  {
    if open then ReadFrom(inbound, cursor, p) else ReadOutcome(p, 0, |p| > 0)
  }

  function Zeros(n: nat): (r: seq<byte>)
    ensures |r| == n && forall i :: 0 <= i < n ==> r[i] == 0
  {
    if n == 0 then [] else [0] + Zeros(n - 1)
  }

  /** `ReadCode`: the next four bytes as text, or `UNKN` with the read error. */
  function CodeAt(inbound: seq<byte>, cursor: nat, open: bool): (Result<string>, nat)
    requires cursor <= |inbound|
  {
    var r := SocketRead(inbound, cursor, open, Zeros(4));
    if r.eof then (Err(if open then EOF else SOCKET_READ_ERROR), cursor) else (Ok(Text(r.buf)), cursor + r.n)
  }

  function CodeText(code: Result<string>): string {
    if code.Ok? then code.value else UNKNOWN_CODE
  }

  /** `VerifyOk`: nothing when the code read is `OKAY`, otherwise the invalid-code error. */
  function StatusAt(inbound: seq<byte>, cursor: nat, open: bool): Option<string>
    requires cursor <= |inbound|
  {
    var code := CodeAt(inbound, cursor, open).0;
    if code.Ok? && code.value == OKAY then None
    else Some("Invalid connection CODE: " + CodeText(code))
  }

  /**
   * The status check passes exactly when the socket is open and the next four bytes are `OKAY`;
   * a short reply never passes, and neither does a closed socket.
   */
  lemma StatusOkay(inbound: seq<byte>, cursor: nat, open: bool)
    requires cursor <= |inbound|
    ensures StatusAt(inbound, cursor, open) == None <==>
      open && cursor + 4 <= |inbound| && inbound[cursor..cursor + 4] == Ascii(OKAY)
  {
    var r := ReadFrom(inbound, cursor, Zeros(4));
    if open && cursor + 4 <= |inbound| && inbound[cursor..cursor + 4] == Ascii(OKAY) {
      assert r.buf == Ascii(OKAY);
      TextAscii(OKAY);
    }
    if StatusAt(inbound, cursor, open) == None {
      assert Text(r.buf) == OKAY;
      assert r.buf == Ascii(OKAY) by { AsciiText(r.buf); }
      assert r.buf[3] != 0;
      assert r.n == 4;
      assert inbound[cursor..cursor + 4] == r.buf;
    }
  }

  /** The result of one `WriteCmd`: new outbound bytes and cursor, the count returned, the error. */
  datatype Exchange = Exchange(outbound: seq<byte>, cursor: nat, written: int, err: Option<string>)

  /**
   * Whether the framed command overflows the 4096-byte `bufio.Writer`, so that the writer passes
   * bytes on to the connection while the command is still being written.
   */
  predicate Spills(cmd: string) {
    4 + |cmd| > BUFIO_SIZE || |Strconv.Hex04(|cmd|)| + |cmd| > BUFIO_SIZE
  }

  /**
   * `WriteCmd` on a connection whose socket accepts writes when `open`. The request goes through a
   * 4096-byte `bufio.Writer`: a socket failure is reported only when the command overflows that
   * buffer; otherwise the failed flush is ignored and the status is read regardless.
   */
  function CommandExchange(cmd: string, open: bool, outbound: seq<byte>, inbound: seq<byte>, cursor: nat): Exchange
    requires cursor <= |inbound|
  {
    if Spills(cmd) && !open then Exchange(outbound, cursor, 0, Some(WRITE_ERROR))
    else
      Exchange(outbound + (if open then Frame(cmd) else []), CodeAt(inbound, cursor, open).1,
               |cmd|, StatusAt(inbound, cursor, open))
  }

  /**
   * A command succeeds exactly when the socket is open and its status reply is `OKAY`; an open
   * socket receives exactly the framed command, and a closed one nothing. On a closed socket the
   * error is the write error when the command overflows the buffer and the status error otherwise,
   * and the cursor does not move.
   */
  lemma CommandSucceeds(cmd: string, open: bool, outbound: seq<byte>, inbound: seq<byte>, cursor: nat)
    requires cursor <= |inbound|
    ensures var e := CommandExchange(cmd, open, outbound, inbound, cursor);
      (e.err == None <==>
        open && cursor + 4 <= |inbound| && inbound[cursor..cursor + 4] == Ascii(OKAY)) &&
      (open ==> e.outbound == outbound + Frame(cmd)) &&
      (!open ==> e.outbound == outbound && e.cursor == cursor &&
                 e.err == Some(if |cmd| > BUFIO_SIZE - 4 then WRITE_ERROR else "Invalid connection CODE: " + UNKNOWN_CODE))
  {
    StatusOkay(inbound, cursor, open);
    Strconv.Hex04Width(|cmd|);
  }

  /**
   * An ADB connection (`AdbConn`): `hasConn` is `conn != nil`, `hasReader` is `r != nil`,
   * `open` says whether the socket still accepts writes.
   */
  class AdbConn {
    var hasConn: bool
    var hasReader: bool
    var open: bool
    var outbound: seq<byte>
    var inbound: seq<byte>
    var cursor: nat

    ghost predicate Valid()
      reads this
    {
      cursor <= |inbound| && (hasReader ==> hasConn) && (!hasConn ==> !open)
    }

    /** The connection `Dial` returns, over a server that will send `inbound`. */
    constructor (inbound: seq<byte>)
      ensures Valid() && hasConn && hasReader && open
      ensures outbound == [] && this.inbound == inbound && cursor == 0
    {
      hasConn, hasReader, open := true, true, true;
      outbound, this.inbound, cursor := [], inbound, 0;
    }

    /** The zero `AdbConn{}`: no socket and no reader. */
    constructor Detached()
      ensures Valid() && !hasConn && !hasReader && !open
      ensures outbound == [] && inbound == [] && cursor == 0
    {
      hasConn, hasReader, open := false, false, false;
      outbound, inbound, cursor := [], [], 0;
    }

    method ReadCode() returns (code: string, err: Option<string>)
      requires Valid() && hasConn
      modifies this
      ensures Valid() && hasReader
      ensures outbound == old(outbound) && inbound == old(inbound) && open == old(open) && hasConn == old(hasConn)
      ensures var (c, cur) := CodeAt(old(inbound), old(cursor), old(open));
        cursor == cur && code == CodeText(c) && (err == None <==> c.Ok?)
    {
      var status, n;
      status, n, err := Read(this, Zeros(4));
      if err != None {
        return UNKNOWN_CODE, err;
      }
      code := Text(status);
    }

    method VerifyOk() returns (err: Option<string>)
      requires Valid() && hasConn
      modifies this
      ensures Valid() && hasReader
      ensures outbound == old(outbound) && inbound == old(inbound) && open == old(open) && hasConn == old(hasConn)
      ensures cursor == CodeAt(old(inbound), old(cursor), old(open)).1
      ensures err == StatusAt(old(inbound), old(cursor), old(open))
    {
      var code, e := ReadCode();
      if e != None || code != OKAY {
        return Some("Invalid connection CODE: " + code);
      }
      return None;
    }

    /**
     * `WriteCmd`: send the framed command (through a 4096-byte buffered writer), then verify OKAY.
     * Without a socket only a command that overflows the buffer can be sent: it fails before the
     * status is read.
     */
    method WriteCmd(cmd: string) returns (i: int, err: Option<string>)
      requires Valid() && (hasConn || Spills(cmd))
      modifies this
      ensures Valid() && (old(hasReader) ==> hasReader)
      ensures inbound == old(inbound) && open == old(open) && hasConn == old(hasConn)
      ensures Exchange(outbound, cursor, i, err) ==
              CommandExchange(cmd, old(open), old(outbound), old(inbound), old(cursor))
    {
      if Spills(cmd) {
        // the buffered writer flushes while the command is being written: a failure surfaces here
        var n, e := Write(this, Frame(cmd));
        if e != None {
          return 0, Some(WRITE_ERROR);
        }
      } else {
        // everything fits the buffer; the error of the final flush is ignored
        var n, e := Write(this, Frame(cmd));
      }
      i := |cmd|;
      err := VerifyOk();
    }

    method TransportAny() returns (err: Option<string>)
      requires Valid() && (hasConn || Spills(TransportCommand(Any)))
      modifies this
      ensures Valid() && inbound == old(inbound) && open == old(open) && hasConn == old(hasConn)
      ensures old(hasReader) ==> hasReader
      ensures var e := CommandExchange(TransportCommand(Any), old(open), old(outbound), old(inbound), old(cursor));
        outbound == e.outbound && cursor == e.cursor && err == e.err
    {
      var _, e := WriteCmd("host:transport-any");
      return e;
    }

    method TransportEmulator() returns (err: Option<string>)
      requires Valid() && (hasConn || Spills(TransportCommand(Emulator)))
      modifies this
      ensures Valid() && inbound == old(inbound) && open == old(open) && hasConn == old(hasConn)
      ensures old(hasReader) ==> hasReader
      ensures var e := CommandExchange(TransportCommand(Emulator), old(open), old(outbound), old(inbound), old(cursor));
        outbound == e.outbound && cursor == e.cursor && err == e.err
    {
      var _, e := WriteCmd("host:transport-local");
      return e;
    }

    method TransportUsb() returns (err: Option<string>)
      requires Valid() && (hasConn || Spills(TransportCommand(Usb)))
      modifies this
      ensures Valid() && inbound == old(inbound) && open == old(open) && hasConn == old(hasConn)
      ensures old(hasReader) ==> hasReader
      ensures var e := CommandExchange(TransportCommand(Usb), old(open), old(outbound), old(inbound), old(cursor));
        outbound == e.outbound && cursor == e.cursor && err == e.err
    {
      var _, e := WriteCmd("host:transport-usb");
      return e;
    }

    method TransportSerial(ser: string) returns (err: Option<string>)
      requires Valid() && (hasConn || Spills(TransportCommand(Serial(ser))))
      modifies this
      ensures Valid() && inbound == old(inbound) && open == old(open) && hasConn == old(hasConn)
      ensures old(hasReader) ==> hasReader
      ensures var e := CommandExchange(TransportCommand(Serial(ser)), old(open), old(outbound), old(inbound), old(cursor));
        outbound == e.outbound && cursor == e.cursor && err == e.err
    {
      var _, e := WriteCmd("host:transport:" + ser);
      return e;
    }

    method Shell(args: seq<string>) returns (err: Option<string>)
      requires Valid() && (hasConn || Spills(ShellCommand(args)))
      modifies this
      ensures Valid() && inbound == old(inbound) && open == old(open) && hasConn == old(hasConn)
      ensures old(hasReader) ==> hasReader
      ensures var e := CommandExchange(ShellCommand(args), old(open), old(outbound), old(inbound), old(cursor));
        outbound == e.outbound && cursor == e.cursor && err == e.err
    {
      var _, e := WriteCmd("shell:" + GoText.JoinWords(args));
      return e;
    }

    method Log(args: seq<string>) returns (err: Option<string>)
      requires Valid() && (hasConn || Spills(LogCommand(args)))
      modifies this
      ensures Valid() && inbound == old(inbound) && open == old(open) && hasConn == old(hasConn)
      ensures old(hasReader) ==> hasReader
      ensures var e := CommandExchange(LogCommand(args), old(open), old(outbound), old(inbound), old(cursor));
        outbound == e.outbound && cursor == e.cursor && err == e.err
    {
      var _, e := WriteCmd("log:" + GoText.JoinWords(args));
      return e;
    }

    /** `readSize`: the next `bcount` bytes (zeros where the stream ran short) parsed as base 16. */
    method ReadSize(bcount: nat) returns (size: Strconv.Num)
      requires Valid() && hasReader
      modifies this
      ensures Valid() && hasReader == old(hasReader) && hasConn == old(hasConn)
      ensures outbound == old(outbound) && inbound == old(inbound) && open == old(open)
      ensures var r := SocketRead(old(inbound), old(cursor), old(open), Zeros(bcount));
        cursor == old(cursor) + r.n && size == Strconv.ParseUint(Text(r.buf), 16)
    {
      var buf, n, e := Read(this, Zeros(bcount));
      size := Strconv.ParseUint(Text(buf), 16);
    }

    /** `readUint32`: the next four bytes, little-endian. */
    method ReadUint32() returns (v: uint32)
      requires Valid() && hasReader
      modifies this
      ensures Valid() && hasReader == old(hasReader) && hasConn == old(hasConn)
      ensures outbound == old(outbound) && inbound == old(inbound) && open == old(open)
      ensures var r := SocketRead(old(inbound), old(cursor), old(open), Zeros(4));
        cursor == old(cursor) + r.n && v == DecodeLE32(r.buf)
    {
      var buf, n, e := Read(this, Zeros(4));
      v := DecodeLE32(buf);
    }

    /** `Close`: closes the socket if there is one; a second close reports the socket's error. */
    method Close() returns (err: Option<string>)
      requires Valid()
      modifies this
      ensures Valid() && !open
      ensures outbound == old(outbound) && inbound == old(inbound) && cursor == old(cursor)
      ensures hasConn == old(hasConn) && hasReader == old(hasReader)
      ensures err == if old(hasConn) && !old(open) then Some(SOCKET_WRITE_ERROR) else None
    {
      if hasConn {
        if open {
          open := false;
          return None;
        }
        return Some(SOCKET_WRITE_ERROR);
      }
      return None;
    }
  }

  /** The `Transport` call of a `Transporter`: the verb that selects `t` on this connection. */
  method SelectTransport(conn: AdbConn, t: Transport) returns (err: Option<string>)
    requires conn.Valid() && (conn.hasConn || Spills(TransportCommand(t)))
    modifies conn
    ensures conn.Valid() && conn.inbound == old(conn.inbound) && conn.open == old(conn.open)
    ensures conn.hasConn == old(conn.hasConn) && (old(conn.hasReader) ==> conn.hasReader)
    ensures var e := CommandExchange(TransportCommand(t), old(conn.open), old(conn.outbound), old(conn.inbound), old(conn.cursor));
      conn.outbound == e.outbound && conn.cursor == e.cursor && err == e.err
  {
    match t
    case Any => err := conn.TransportAny();
    case Emulator => err := conn.TransportEmulator();
    case Usb => err := conn.TransportUsb();
    case Serial(s) => err := conn.TransportSerial(s);
  }

  /** `(*AdbConn).Write`: refused without a connection or socket; otherwise the socket's write. */
  method Write(a: AdbConn?, b: seq<byte>) returns (n: int, err: Option<string>)
    requires a != null ==> a.Valid()
    modifies a
    ensures a != null ==> a.Valid()
    ensures a != null ==> a.inbound == old(a.inbound) && a.cursor == old(a.cursor) && a.open == old(a.open)
    ensures a != null ==> a.hasConn == old(a.hasConn) && a.hasReader == old(a.hasReader)
    ensures a == null || !old(a.hasConn) ==> n == 0 && err == Some(WRITE_ERROR)
    ensures a != null && old(a.hasConn) && !old(a.open) ==>
      n == 0 && err == Some(SOCKET_WRITE_ERROR) && a.outbound == old(a.outbound)
    ensures a != null && old(a.open) ==> n == |b| && err == None && a.outbound == old(a.outbound) + b
    ensures a != null && !old(a.open) ==> a.outbound == old(a.outbound)
  {
    if a == null || !a.hasConn {
      return 0, Some(WRITE_ERROR);
    }
    if !a.open {
      return 0, Some(SOCKET_WRITE_ERROR);
    }
    a.outbound := a.outbound + b;
    return |b|, None;
  }

  /**
   * `(*AdbConn).Read`: refused on a nil receiver; creates the reader when it is missing; then
   * delivers what is available up to `|p|` over the front of `p`, and EOF when nothing is. Once
   * the socket is closed, a read delivers nothing and fails.
   */
  method Read(a: AdbConn?, p: seq<byte>) returns (q: seq<byte>, n: nat, err: Option<string>)
    requires a != null ==> a.Valid() && a.hasConn
    modifies a
    ensures a == null ==> q == p && n == 0 && err == Some(READ_ERROR)
    ensures a != null ==> a.Valid() && a.hasReader && a.hasConn == old(a.hasConn)
    ensures a != null ==> a.outbound == old(a.outbound) && a.inbound == old(a.inbound) && a.open == old(a.open)
    ensures a != null ==> var r := SocketRead(old(a.inbound), old(a.cursor), old(a.open), p);
      q == r.buf && n == r.n && a.cursor == old(a.cursor) + r.n && (err == None <==> !r.eof)
  {
    if a == null {
      return p, 0, Some(READ_ERROR);
    } else if !a.hasReader {
      a.hasReader := true;
    }
    var r := SocketRead(a.inbound, a.cursor, a.open, p);
    a.cursor := a.cursor + r.n;
    q, n := r.buf, r.n;
    err := if !r.eof then None else if a.open then Some(EOF) else Some(SOCKET_READ_ERROR);
  }
}
