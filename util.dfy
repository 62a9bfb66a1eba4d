/**
 * The server-side helpers of adb/util.go: sending one host request over a raw socket and reading
 * a hex size field through a buffered reader. The socket and its reader are an `AdbConn`.
 */
module AdbUtil {
  import opened Wrappers
  import opened Bytes
  import Strconv
  import opened AdbConnection

  const INVALID_CONNECTION: string := "invalid connection"

  /**
   * `Send`: one formatted write of the framed command (its error is not looked at), then a
   * four-byte status read; the reader is handed back only when that status is `OKAY`.
   */
  method Send(conn: AdbConn, cmd: string) returns (err: Option<string>)
    requires conn.Valid() && conn.hasConn
    modifies conn
    ensures conn.Valid() && conn.hasReader && conn.hasConn && conn.open == old(conn.open)
    ensures conn.inbound == old(conn.inbound)
    ensures conn.outbound == old(conn.outbound) + (if old(conn.open) then Frame(cmd) else [])
    ensures conn.cursor == CodeAt(old(conn.inbound), old(conn.cursor), old(conn.open)).1
    ensures err == None <==> StatusAt(old(conn.inbound), old(conn.cursor), old(conn.open)) == None
    ensures err != None ==> err == Some(INVALID_CONNECTION)
  {
    var _, _ := Write(conn, Frame(cmd));
    var status, n, e := Read(conn, Zeros(4));
    if e != None || Text(status) != OKAY {
      return Some(INVALID_CONNECTION);
    }
    return None;
  }

  /**
   * `Send` and `WriteCmd` put the same bytes on the wire and accept the same replies, over an open
   * socket or a closed one.
   */
  lemma SendAgreesWithWriteCmd(cmd: string, open: bool, outbound: seq<byte>, inbound: seq<byte>, cursor: nat)
    requires cursor <= |inbound|
    ensures var e := CommandExchange(cmd, open, outbound, inbound, cursor);
      e.outbound == outbound + (if open then Frame(cmd) else []) &&
      (e.err == None <==> StatusAt(inbound, cursor, open) == None) &&
      (e.err == None <==> open && cursor + 4 <= |inbound| && inbound[cursor..cursor + 4] == Ascii(OKAY))
  {
    CommandSucceeds(cmd, open, outbound, inbound, cursor);
    StatusOkay(inbound, cursor, open);
  }

  /** `readSize`: `bcount` bytes from the reader, parsed as an unsigned base-16 number. */
  method ReadSize(reader: AdbConn, bcount: nat) returns (size: Strconv.Num)
    requires reader.Valid() && reader.hasReader
    modifies reader
    ensures reader.Valid() && reader.hasReader && reader.hasConn == old(reader.hasConn)
    ensures reader.outbound == old(reader.outbound) && reader.inbound == old(reader.inbound)
    ensures reader.open == old(reader.open)
    ensures var r := SocketRead(old(reader.inbound), old(reader.cursor), old(reader.open), Zeros(bcount));
      reader.cursor == old(reader.cursor) + r.n && size == Strconv.ParseUint(Text(r.buf), 16)
  {
    var buf, n, e := Read(reader, Zeros(bcount));
    size := Strconv.ParseUint(Text(buf), 16);
  }

  /** A size field sent as four hex digits reads back as the size, and takes exactly four bytes. */
  lemma ReadSizeHex04(n: nat, rest: seq<byte>, inbound: seq<byte>, cursor: nat)
    requires n < 65536 && cursor <= |inbound|
    requires inbound[cursor..] == Ascii(Strconv.Hex04(n)) + rest
    ensures var r := ReadFrom(inbound, cursor, Zeros(4));
      r.n == 4 && Strconv.ParseUint(Text(r.buf), 16) == Strconv.Num(n, None)
  {
    var h := Strconv.Hex04(n);
    Strconv.Hex04Width(n);
    Strconv.ParseHex04(n);
    var r := ReadFrom(inbound, cursor, Zeros(4));
    assert inbound[cursor..cursor + 4] == inbound[cursor..][..4];
    assert r.buf == Ascii(h);
    assert IsByteString(h) by {
      forall i | 0 <= i < |h| ensures (h[i] as int) < 256 {
        assert Strconv.IsDigit(h[i], 16);
      }
    }
    TextAscii(h);
  }
}
