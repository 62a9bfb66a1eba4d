/**
 * The `sync:` sub-protocol of adb/sync.go: the SEND/DATA/DONE push frames, the LIST/DENT/DONE
 * listing exchange, and the `SectionedMultiWriter` that cuts a stream into DATA sections of at
 * most 65536 bytes and sends every section to all destinations.
 */
module AdbSync {
  import opened Wrappers
  import opened Bytes
  import opened AdbConnection

  const BUFFER_SIZE: nat := 65536
  /** The size in which the buffered writers of `PushAll` hand the file on. */
  const CHUNK: nat := 4096

  /** The four-byte sync tags, spelled as bytes (see `TagSpelling`). */
  const DATA: seq<byte> := [68, 65, 84, 65]
  const SEND: seq<byte> := [83, 69, 78, 68]
  const DONE: seq<byte> := [68, 79, 78, 69]
  const LIST: seq<byte> := [76, 73, 83, 84]
  const DENT: seq<byte> := [68, 69, 78, 84]

  lemma TagSpelling()
    ensures DATA == Ascii("DATA") && SEND == Ascii("SEND") && DONE == Ascii("DONE")
    ensures LIST == Ascii("LIST") && DENT == Ascii("DENT")
  {
  }

  /** Go's `string(b) == "DENT"` (or `"DONE"`) on a 4-byte buffer is byte equality with the tag. */
  lemma TagCompare(b: seq<byte>)
    ensures Text(b) == "DENT" <==> b == DENT
    ensures Text(b) == "DONE" <==> b == DONE
  {
    if b == DENT { assert Text(b) == "DENT"; }
    if b == DONE { assert Text(b) == "DONE"; }
    if Text(b) == "DENT" || Text(b) == "DONE" {
      AsciiText(b);
    }
  }

  /** `DATA` ++ LE32(length) ++ payload. */
  function DataFrame(payload: seq<byte>): seq<byte> {
    DATA + LE32(ToUint32(|payload|)) + payload
  }

  /** `SEND` ++ LE32(len(remote)+5) ++ remote ++ `,` ++ LE32(perm). */
  function SendHeader(remote: string, perm: uint32): seq<byte> {
    SEND + LE32(ToUint32(|remote| + 5)) + Ascii(remote) + Ascii(",") + LE32(perm)
  }

  /** `DONE` ++ LE32(mtime), the modification time cut to 32 bits. */
  function DoneFrame(mtime: int): seq<byte> {
    DONE + LE32(ToUint32(mtime))
  }

  /** `LIST` ++ LE32(len(remote)) ++ remote. */
  function ListRequest(remote: string): seq<byte> {
    LIST + LE32(ToUint32(|remote|)) + Ascii(remote)
  }

  /** One directory entry as the device sends it. */
  datatype Dent = Dent(mode: uint32, size: uint32, mtime: uint32, name: seq<byte>)

  function DentFrame(d: Dent): seq<byte> {
    DENT + (LE32(d.mode) + (LE32(d.size) + (LE32(d.mtime) + (LE32(ToUint32(|d.name|)) + d.name))))
  }

  function DentFrames(ds: seq<Dent>): seq<byte> {
    if ds == [] then [] else DentFrame(ds[0]) + DentFrames(ds[1..])
  }

  function Names(ds: seq<Dent>): (r: seq<seq<byte>>)
    ensures |r| == |ds| && forall i :: 0 <= i < |ds| ==> r[i] == ds[i].name
  {
    if ds == [] then [] else [ds[0].name] + Names(ds[1..])
  }

  function Concat(fs: seq<seq<byte>>): seq<byte> {
    if fs == [] then [] else fs[0] + Concat(fs[1..])
  }

  function DataFrames(fs: seq<seq<byte>>): seq<byte> {
    if fs == [] then [] else DataFrame(fs[0]) + DataFrames(fs[1..])
  }

  lemma {:induction false} ConcatAppend(fs: seq<seq<byte>>, f: seq<byte>)
    ensures Concat(fs + [f]) == Concat(fs) + f
  {
    if fs != [] {
      assert (fs + [f])[1..] == fs[1..] + [f];
      ConcatAppend(fs[1..], f);
    }
  }

  lemma {:induction false} DataFramesAppend(fs: seq<seq<byte>>, f: seq<byte>)
    ensures DataFrames(fs + [f]) == DataFrames(fs) + DataFrame(f)
  {
    if fs != [] {
      assert (fs + [f])[1..] == fs[1..] + [f];
      DataFramesAppend(fs[1..], f);
    }
  }

  // ---- decoders, as the device reads the frames ----

  /** One DATA frame off the front of `b`: its payload and what follows. */
  function ParseData(b: seq<byte>): (r: Option<(seq<byte>, seq<byte>)>)
    ensures r.Some? ==> |r.value.1| < |b|
  {
    if |b| < 8 || b[..4] != DATA then None
    else
      var n := DecodeLE32(b[4..8]);
      if |b| - 8 < n then None else Some((b[8..8 + n], b[8 + n..]))
  }

  /** A stream made only of DATA frames, decoded into its payloads. */
  function ParseDataStream(b: seq<byte>): Option<seq<seq<byte>>>
    decreases |b|
  {
    if b == [] then Some([])
    else
      match ParseData(b)
      case None => None
      case Some((p, rest)) =>
        match ParseDataStream(rest)
        case None => None
        case Some(ps) => Some([p] + ps)
  }

  lemma DataFrameSplit(p: seq<byte>, rest: seq<byte>)
    requires |p| < TWO_32
    ensures ParseData(DataFrame(p) + rest) == Some((p, rest))
  {
    var b := DataFrame(p) + rest;
    assert b[..4] == DATA;
    assert b[4..8] == LE32(|p|);
    DecodeEncode(|p|);
    assert b[8..8 + |p|] == p;
    assert b[8 + |p|..] == rest;
  }

  /** Every DATA frame sequence decodes back into the payloads it was made of. */
  lemma {:induction false} DataStreamRoundTrip(fs: seq<seq<byte>>)
    requires forall i :: 0 <= i < |fs| ==> |fs[i]| < TWO_32
    ensures ParseDataStream(DataFrames(fs)) == Some(fs)
  {
    if fs != [] {
      DataFrameSplit(fs[0], DataFrames(fs[1..]));
      DataStreamRoundTrip(fs[1..]);
      assert DataFrame(fs[0]) + DataFrames(fs[1..]) != [];
      assert [fs[0]] + fs[1..] == fs;
    }
  }

  /** The device side of SEND: the path bytes and the permission word. */
  function ParseSend(b: seq<byte>): Option<(seq<byte>, uint32, seq<byte>)> {
    if |b| < 8 || b[..4] != SEND then None
    else
      var n := DecodeLE32(b[4..8]);
      if n < 5 || |b| - 8 < n || b[8 + n - 5] != (',' as int) then None
      else Some((b[8..8 + n - 5], DecodeLE32(b[8 + n - 4..8 + n]), b[8 + n..]))
  }

  /** The length the SEND header declares is exactly the number of bytes after it, path and permission come back. */
  lemma SendRoundTrip(remote: string, perm: uint32, rest: seq<byte>)
    requires |remote| + 5 < TWO_32
    ensures var h := SendHeader(remote, perm);
      DecodeLE32(h[4..8]) == |h| - 8 &&
      ParseSend(h + rest) == Some((Ascii(remote), perm, rest))
  {
    var h := SendHeader(remote, perm);
    var b := h + rest;
    var n := |remote| + 5;
    assert h[4..8] == LE32(n);
    DecodeEncode(n);
    assert b[..4] == SEND;
    assert b[4..8] == LE32(n);
    assert b[8 + n - 5] == (',' as int);
    assert b[8..8 + n - 5] == Ascii(remote);
    assert b[8 + n - 4..8 + n] == LE32(perm);
    DecodeEncode(perm);
    assert b[8 + n..] == rest;
  }

  /** The device side of DONE: the modification time modulo 2^32. */
  function ParseDone(b: seq<byte>): Option<uint32> {
    if |b| < 8 || b[..4] != DONE then None else Some(DecodeLE32(b[4..8]))
  }

  lemma DoneRoundTrip(mtime: int, rest: seq<byte>)
    ensures ParseDone(DoneFrame(mtime) + rest) == Some(ToUint32(mtime))
    ensures 0 <= mtime < TWO_32 ==> ParseDone(DoneFrame(mtime) + rest) == Some(mtime)
  {
    var b := DoneFrame(mtime) + rest;
    assert b[..4] == DONE;
    assert b[4..8] == LE32(ToUint32(mtime));
    DecodeEncode(ToUint32(mtime));
  }

  /** The device side of LIST: the path. */
  function ParseList(b: seq<byte>): Option<(seq<byte>, seq<byte>)> {
    if |b| < 8 || b[..4] != LIST then None
    else
      var n := DecodeLE32(b[4..8]);
      if |b| - 8 < n then None else Some((b[8..8 + n], b[8 + n..]))
  }

  lemma ListRoundTrip(remote: string, rest: seq<byte>)
    requires |remote| < TWO_32
    ensures ParseList(ListRequest(remote) + rest) == Some((Ascii(remote), rest))
  {
    var b := ListRequest(remote) + rest;
    assert b[..4] == LIST;
    assert b[4..8] == LE32(|remote|);
    DecodeEncode(|remote|);
    assert b[8..8 + |remote|] == Ascii(remote);
    assert b[8 + |remote|..] == rest;
  }

  // ---- the sections a push produces ----

  /** The payloads of a push of `data`: full 65536-byte sections, then the remainder (possibly empty). */
  function Sections(data: seq<byte>): seq<seq<byte>>
    decreases |data|
  {
    if |data| < BUFFER_SIZE then [data] else [data[..BUFFER_SIZE]] + Sections(data[BUFFER_SIZE..])
  }

  /**
   * The sections give the data back in order; every frame but the last is full, the last is short;
   * so a push of a multiple of 65536 bytes (the empty file included) ends with an empty DATA frame.
   */
  lemma {:induction false} SectionsShape(data: seq<byte>)
    ensures var s := Sections(data);
      |s| >= 1 && Concat(s) == data &&
      (forall i :: 0 <= i < |s| - 1 ==> |s[i]| == BUFFER_SIZE) &&
      |s[|s| - 1]| < BUFFER_SIZE &&
      |s[|s| - 1]| == |data| % BUFFER_SIZE &&
      |s| == |data| / BUFFER_SIZE + 1
    decreases |data|
  {
    if |data| >= BUFFER_SIZE {
      SectionsShape(data[BUFFER_SIZE..]);
      assert data[..BUFFER_SIZE] + data[BUFFER_SIZE..] == data;
    }
  }

  /** Full sections followed by one short remainder can only be the sections of their concatenation. */
  lemma {:induction false} SectionsUnique(fs: seq<seq<byte>>, rest: seq<byte>)
    requires forall i :: 0 <= i < |fs| ==> |fs[i]| == BUFFER_SIZE
    requires |rest| < BUFFER_SIZE
    ensures Sections(Concat(fs) + rest) == fs + [rest]
  {
    if fs == [] {
      assert Concat(fs) + rest == rest;
    } else {
      SectionsUnique(fs[1..], rest);
      var d := Concat(fs) + rest;
      assert d == fs[0] + (Concat(fs[1..]) + rest);
      assert d[..BUFFER_SIZE] == fs[0];
      assert d[BUFFER_SIZE..] == Concat(fs[1..]) + rest;
      assert Sections(d) == [fs[0]] + Sections(Concat(fs[1..]) + rest);
      assert [fs[0]] + fs[1..] == fs;
    }
  }

  /**
   * `SectionedMultiWriter`. The destinations are the byte sequences of the connections the push
   * writes to; `start` is what each held before the writer existed, and the ghost state records
   * every byte accepted and every section emitted.
   */
  class SectionedMultiWriter {
    const buffer: array<byte>
    var bufferIdx: nat
    var section: nat
    var dests: seq<seq<byte>>
    ghost var start: seq<seq<byte>>
    ghost var accepted: seq<byte>
    ghost var frames: seq<seq<byte>>

    /** The state at every call, including inside `Write` just before a flush of a full buffer. */
    ghost predicate Sound()
      reads this, buffer
    {
      buffer.Length == BUFFER_SIZE && bufferIdx <= BUFFER_SIZE &&
      Concat(frames) + buffer[..bufferIdx] == accepted &&
      (forall i :: 0 <= i < |frames| ==> |frames[i]| <= BUFFER_SIZE) &&
      |dests| == |start| &&
      (forall j :: 0 <= j < |dests| ==> dests[j] == start[j] + DataFrames(frames))
    }

    /** Between calls the buffer is never full. */
    ghost predicate Valid()
      reads this, buffer
    {
      Sound() && bufferIdx < BUFFER_SIZE
    }

    ghost function Pending(): seq<byte>
      reads this, buffer
      requires bufferIdx <= buffer.Length
    {
      buffer[..bufferIdx]
    }

    /** `NewSectionedMultiWriter`. */
    constructor (dests: seq<seq<byte>>)
      ensures Valid() && fresh(buffer)
      ensures this.dests == dests && start == dests
      ensures bufferIdx == 0 && section == 0 && accepted == [] && frames == []
    {
      buffer := new byte[BUFFER_SIZE];
      bufferIdx, section := 0, 0;
      this.dests, start := dests, dests;
      accepted, frames := [], [];
      new;
      assert forall j :: 0 <= j < |dests| ==> dests[j] == dests[j] + [];
    }

    /**
     * `Write`: copies as much of `b` as fits and reports that count; a copy that fills the
     * buffer flushes it as one full section and counts one more section.
     */
    method Write(b: seq<byte>) returns (n: nat)
      requires Valid()
      modifies this, buffer
      ensures Valid()
      ensures n == if |b| <= BUFFER_SIZE - old(bufferIdx) then |b| else BUFFER_SIZE - old(bufferIdx)
      ensures accepted == old(accepted) + b[..n] && start == old(start)
      ensures var filled := old(bufferIdx) + n == BUFFER_SIZE;
        (filled ==> frames == old(frames) + [old(Pending()) + b[..n]] && bufferIdx == 0 &&
                    section == old(section) + 1) &&
        (!filled ==> frames == old(frames) && Pending() == old(Pending()) + b[..n] &&
                     section == old(section) && dests == old(dests))
    {
      var i := if |b| <= BUFFER_SIZE - bufferIdx then |b| else BUFFER_SIZE - bufferIdx;
      ghost var was := buffer[..bufferIdx];
      forall k | 0 <= k < i {
        buffer[bufferIdx + k] := b[k];
      }
      assert buffer[..bufferIdx + i] == was + b[..i];
      bufferIdx := bufferIdx + i;
      accepted := accepted + b[..i];
      var atmax := bufferIdx == BUFFER_SIZE;
      if i < |b| || atmax {
        section := section + 1;
        Flush();
        if !atmax {
          // copy fills the buffer whenever it cannot take all of b
          assert false;
        }
      }
      return i;
    }

    /** `Flush`: one DATA frame of the buffered bytes to every destination; the buffer empties. */
    method Flush()
      requires Sound()
      modifies this
      ensures Valid() && bufferIdx == 0
      ensures section == old(section) && accepted == old(accepted) && start == old(start)
      ensures frames == old(frames) + [old(Pending())]
      ensures |dests| == |old(dests)| &&
        forall j :: 0 <= j < |dests| ==> dests[j] == old(dests[j]) + DataFrame(old(Pending()))
    {
      var payload := buffer[..bufferIdx];
      var frame := DataFrame(payload);
      var ds := dests;
      dests := seq(|ds|, j requires 0 <= j < |ds| => ds[j] + frame);
      ConcatAppend(frames, payload);
      DataFramesAppend(frames, payload);
      frames := frames + [payload];
      bufferIdx := 0;
    }

    /** `Close` tests the buffer's capacity, which is never zero, so it always flushes. */
    method Close() returns (err: Option<string>)
      requires Valid()
      modifies this
      ensures Valid() && bufferIdx == 0 && err == None
      ensures section == old(section) && accepted == old(accepted) && start == old(start)
      ensures frames == old(frames) + [old(Pending())]
    {
      if buffer.Length != 0 {
        Flush();
      }
      return None;
    }
  }

  /**
   * Every section the writer emits declares at most 65536 bytes, and they add up to what it
   * accepted. Both facts are part of `Valid()`, which the constructor establishes and `Write`,
   * `Flush` and `Close` preserve; this lemma only reads them back out of the invariant.
   */
  lemma WriterConserves(w: SectionedMultiWriter)
    requires w.Valid()
    ensures forall i :: 0 <= i < |w.frames| ==> |w.frames[i]| <= BUFFER_SIZE
    ensures Concat(w.frames) + w.Pending() == w.accepted
  {
  }

  // ---- push ----

  /** A `Transporter`: how it selects its device, and what the server will send on a fresh connection. */
  datatype Target = Target(transport: Transport, server: seq<byte>)

  /** Where the handshake leaves the read cursor: after the transport reply, after the `sync:` reply. */
  function AfterTransport(server: seq<byte>): nat {
    CodeAt(server, 0, true).1
  }

  function SyncStatus(server: seq<byte>): Option<string> {
    StatusAt(server, AfterTransport(server), true)
  }

  function AfterSync(server: seq<byte>): nat {
    CodeAt(server, AfterTransport(server), true).1
  }

  /** The bytes of the push handshake: transport selection, `sync:`, the SEND header. */
  function PushHandshake(t: Transport, remote: string, perm: uint32): seq<byte> {
    Frame(TransportCommand(t)) + Frame("sync:") + SendHeader(remote, perm)
  }

  /**
   * `GetPushWriter` on the connection dialed for `t`: selects the transport (its error does not
   * stop the push), requires OKAY to `sync:`, then writes the SEND header.
   */
  method GetPushWriter(t: Target, remote: string, perm: uint32) returns (conn: AdbConn?, err: Option<string>)
    ensures err == SyncStatus(t.server)
    ensures err == None <==> conn != null
    ensures conn != null ==> (fresh(conn) && conn.Valid() && conn.hasConn && conn.open &&
      conn.inbound == t.server && conn.cursor == AfterSync(t.server) &&
      conn.outbound == PushHandshake(t.transport, remote, perm))
  {
    var e;
    conn, e := OpenSync(t);
    if e != None {
      return null, e;
    }
    var _, _ := Write(conn, SendHeader(remote, perm));
    return conn, None;
  }

  /** Dial, select the transport (its error does not stop the caller), and send `sync:`. */
  method OpenSync(t: Target) returns (conn: AdbConn, err: Option<string>)
    ensures fresh(conn) && conn.Valid() && conn.hasConn && conn.open
    ensures conn.inbound == t.server && conn.cursor == AfterSync(t.server)
    ensures conn.outbound == Frame(TransportCommand(t.transport)) + Frame("sync:")
    ensures err == SyncStatus(t.server)
  {
    conn := new AdbConn(t.server);
    var _ := SelectTransport(conn, t.transport);
    var _, e := conn.WriteCmd("sync:");
    return conn, e;
  }

  /**
   * `PushAll` of a file with contents `data`, permission `perm` and modification time `mtime`:
   * all handshakes first (the first failure ends the push), then the file through one
   * `SectionedMultiWriter`, its close, and the DONE trailer. On success the result is what each
   * device receives. On a failure the result holds no wires, although every device before the
   * failing one has already been sent its handshake (`Handshakes` describes those bytes).
   */
  method PushAll(targets: seq<Target>, data: seq<byte>, remote: string, perm: uint32, mtime: int)
    returns (wires: seq<seq<byte>>, err: Option<string>)
    ensures err == FirstError(Statuses(targets))
    ensures err == None ==> (|wires| == |targets| &&
      forall j :: 0 <= j < |targets| ==>
        wires[j] == PushHandshake(targets[j].transport, remote, perm) + DataFrames(Sections(data)) + DoneFrame(mtime))
  {
    var dests;
    dests, err := OpenAll(targets, remote, perm);
    if err != None {
      return [], err;
    }
    var w := new SectionedMultiWriter(dests);
    Stream(w, data);
    var ws := w.dests;
    wires := seq(|ws|, k requires 0 <= k < |ws| => ws[k] + DoneFrame(mtime));
    forall j | 0 <= j < |targets|
      ensures wires[j] == PushHandshake(targets[j].transport, remote, perm) + DataFrames(Sections(data)) + DoneFrame(mtime)
    {
      HandshakesAt(targets, remote, perm, j);
    }
  }

  /** `GetPushWriter`, seen as the bytes its connection carries so far. */
  method PushWriterBytes(t: Target, remote: string, perm: uint32) returns (out: seq<byte>, err: Option<string>)
    ensures err == SyncStatus(t.server)
    ensures err == None ==> out == PushHandshake(t.transport, remote, perm)
  {
    var conn;
    conn, err := GetPushWriter(t, remote, perm);
    out := if conn != null then conn.outbound else [];
  }

  /** The `sync:` status of each target, in order. */
  function Statuses(ts: seq<Target>): (r: seq<Option<string>>)
    ensures |r| == |ts|
  {
    if ts == [] then [] else [SyncStatus(ts[0].server)] + Statuses(ts[1..])
  }

  lemma {:induction false} StatusesAt(ts: seq<Target>, j: nat)
    requires j < |ts|
    ensures Statuses(ts)[j] == SyncStatus(ts[j].server)
  {
    if j > 0 {
      StatusesAt(ts[1..], j - 1);
    }
  }

  /** The first error of a sequence of results, if any. */
  function FirstError(ss: seq<Option<string>>): Option<string> {
    if ss == [] then None
    else if ss[0] != None then ss[0]
    else FirstError(ss[1..])
  }

  /** The first error is nothing exactly when every result is fine, and otherwise the earliest error. */
  lemma {:induction false} FirstErrorMeaning(ss: seq<Option<string>>)
    ensures FirstError(ss) == None <==> forall j :: 0 <= j < |ss| ==> ss[j] == None
    ensures FirstError(ss) != None ==>
      exists j :: 0 <= j < |ss| && FirstError(ss) == ss[j] && forall k :: 0 <= k < j ==> ss[k] == None
  {
    if ss != [] && ss[0] == None {
      FirstErrorMeaning(ss[1..]);
      assert forall j :: 1 <= j < |ss| ==> ss[j] == ss[1..][j - 1];
      if FirstError(ss[1..]) != None {
        var j :| 0 <= j < |ss| - 1 && FirstError(ss[1..]) == ss[1..][j] &&
                 forall k :: 0 <= k < j ==> ss[1..][k] == None;
        assert ss[j + 1] == ss[1..][j];
        assert forall k :: 0 <= k < j + 1 ==> ss[k] == None;
      }
    } else if ss != [] {
      assert FirstError(ss) == ss[0];
    }
  }

  /** The handshake bytes of each target, in order. */
  function Handshakes(ts: seq<Target>, remote: string, perm: uint32): (r: seq<seq<byte>>)
    ensures |r| == |ts|
  {
    if ts == [] then []
    else Handshakes(ts[..|ts| - 1], remote, perm) + [PushHandshake(ts[|ts| - 1].transport, remote, perm)]
  }

  lemma {:induction false} HandshakesAt(ts: seq<Target>, remote: string, perm: uint32, j: nat)
    requires j < |ts|
    ensures Handshakes(ts, remote, perm)[j] == PushHandshake(ts[j].transport, remote, perm)
  {
    if j < |ts| - 1 {
      HandshakesAt(ts[..|ts| - 1], remote, perm, j);
    }
  }

  /** `GetPushWriter` for every target in order; the first failure is the result. */
  method OpenAll(targets: seq<Target>, remote: string, perm: uint32) returns (dests: seq<seq<byte>>, err: Option<string>)
    ensures err == FirstError(Statuses(targets))
    ensures err == None ==> dests == Handshakes(targets, remote, perm)
  {
    dests := [];
    var j := 0;
    while j < |targets|
      invariant 0 <= j <= |targets|
      invariant FirstError(Statuses(targets)) == FirstError(Statuses(targets[j..]))
      invariant dests == Handshakes(targets[..j], remote, perm)
    {
      var out, e := PushWriterBytes(targets[j], remote, perm);
      FirstErrorStep(targets, j);
      if e != None {
        return [], e;
      }
      HandshakesStep(targets, remote, perm, j);
      dests := dests + [out];
      j := j + 1;
    }
    assert targets[..j] == targets;
    return dests, None;
  }

  lemma FirstErrorStep(ts: seq<Target>, j: nat)
    requires j < |ts|
    ensures FirstError(Statuses(ts[j..])) ==
      if SyncStatus(ts[j].server) != None then SyncStatus(ts[j].server) else FirstError(Statuses(ts[j + 1..]))
  {
    assert ts[j..][1..] == ts[j + 1..];
  }

  lemma HandshakesStep(ts: seq<Target>, remote: string, perm: uint32, j: nat)
    requires j < |ts|
    ensures Handshakes(ts[..j + 1], remote, perm) == Handshakes(ts[..j], remote, perm) + [PushHandshake(ts[j].transport, remote, perm)]
  {
    assert ts[..j + 1][..j] == ts[..j];
  }

  /**
   * The file through the writer in 4096-byte writes (the buffered writers between the file and
   * the sections), then `Close`: the sections emitted are exactly `Sections(data)`.
   */
  method Stream(w: SectionedMultiWriter, data: seq<byte>)
    requires w.Valid() && w.bufferIdx == 0 && w.accepted == [] && w.frames == []
    modifies w, w.buffer
    ensures w.Valid() && w.start == old(w.start) && w.frames == Sections(data)
    ensures |w.dests| == |w.start| && forall j :: 0 <= j < |w.dests| ==> w.dests[j] == w.start[j] + DataFrames(Sections(data))
  {
    Feed(w, data);
    ghost var full := w.frames;
    ghost var rest := w.Pending();
    var _ := w.Close();
    SectionsUnique(full, rest);
  }

  /** The 4096-byte writes of the whole file: every section emitted on the way is full. */
  method Feed(w: SectionedMultiWriter, data: seq<byte>)
    requires w.Valid() && w.bufferIdx == 0 && w.accepted == [] && w.frames == []
    modifies w, w.buffer
    ensures w.Valid() && w.start == old(w.start) && w.accepted == data
    ensures forall i :: 0 <= i < |w.frames| ==> |w.frames[i]| == BUFFER_SIZE
  {
    var pos := 0;
    while pos < |data|
      invariant 0 <= pos <= |data|
      invariant w.Valid() && w.start == old(w.start) && w.accepted == data[..pos]
      invariant pos < |data| ==> w.bufferIdx % CHUNK == 0
      invariant forall i :: 0 <= i < |w.frames| ==> |w.frames[i]| == BUFFER_SIZE
      decreases |data| - pos
    {
      var end := if |data| - pos < CHUNK then |data| else pos + CHUNK;
      ChunkFits(w.bufferIdx);
      var n := w.Write(data[pos..end]);
      assert data[..pos] + data[pos..end] == data[..end];
      pos := end;
    }
    assert data[..|data|] == data;
  }

  /** A buffer filled by whole chunks always has room for one more, and stays a whole number of chunks. */
  lemma ChunkFits(idx: nat)
    requires idx % CHUNK == 0 && idx < BUFFER_SIZE
    ensures idx + CHUNK <= BUFFER_SIZE && (idx + CHUNK) % CHUNK == 0
  {
  }

  /** Every device of a push receives the same DATA frames, and they decode to the file's contents. */
  lemma PushDelivers(data: seq<byte>)
    ensures ParseDataStream(DataFrames(Sections(data))) == Some(Sections(data))
    ensures Concat(Sections(data)) == data
  {
    SectionsShape(data);
    DataStreamRoundTrip(Sections(data));
  }

  // ---- listing ----

  datatype Listing = Listed(tag: seq<byte>, names: seq<seq<byte>>) | Failed(err: string) | Hang

  /**
   * `parseDent` after its tag: mode, size and mtime are read and dropped, then the name length,
   * then a name buffer of that length (the part the stream cannot fill stays zero).
   */
  function DentAt(inbound: seq<byte>, cursor: nat): (r: (seq<byte>, nat))
    requires cursor <= |inbound|
    ensures cursor <= r.1 <= |inbound|
  {
    var c1 := U32At(inbound, cursor).1;
    var c2 := U32At(inbound, c1).1;
    var c3 := U32At(inbound, c2).1;
    var (len, c4) := U32At(inbound, c3);
    var name := ReadFrom(inbound, c4, Zeros(len));
    (name.buf, c4 + name.n)
  }

  /** `readUInt32`: the value of the next four bytes (zeros where the stream ran short) and the new position. */
  function U32At(inbound: seq<byte>, cursor: nat): (r: (uint32, nat))
    requires cursor <= |inbound|
    ensures cursor <= r.1 <= |inbound|
  {
    var b := ReadFrom(inbound, cursor, Zeros(4));
    (DecodeLE32(b.buf), cursor + b.n)
  }

  /** What one turn of the `Ls` loop finds. */
  datatype Step = EndOfStream | Entry(buf: seq<byte>, name: seq<byte>, next: nat) | Done(buf: seq<byte>)
                | Skipped(buf: seq<byte>, next: nat)

  /**
   * One turn of the `Ls` loop at read position `cursor` with tag buffer `b`: 4 bytes are read over
   * `b`; a DENT tag is followed by its entry, DONE ends the listing, any other tag is skipped.
   */
  function NextTag(inbound: seq<byte>, cursor: nat, b: seq<byte>): (s: Step)
    requires cursor <= |inbound| && |b| == 4
    ensures s.Entry? ==> cursor < s.next <= |inbound| && |s.buf| == 4
    ensures s.Skipped? ==> cursor < s.next <= |inbound| && |s.buf| == 4
  {
    if cursor == |inbound| then EndOfStream
    else
      var r := ReadFrom(inbound, cursor, b);
      if r.buf == DENT then
        var (name, c) := DentAt(inbound, cursor + r.n);
        Entry(r.buf, name, c)
      else if r.buf == DONE then Done(r.buf)
      else Skipped(r.buf, cursor + r.n)
  }

  /**
   * The `Ls` loop run to its end. At the end of the stream the Go loop re-reads the same buffer
   * and never leaves, which is `Hang`.
   */
  function ListFrom(inbound: seq<byte>, cursor: nat, b: seq<byte>, names: seq<seq<byte>>): Listing
    requires cursor <= |inbound| && |b| == 4
    decreases |inbound| - cursor
  {
    match NextTag(inbound, cursor, b)
    case EndOfStream => Hang
    case Done(buf) => Listed(buf, names)
    case Entry(buf, name, c) => ListFrom(inbound, c, buf, names + [name])
    case Skipped(buf, c) => ListFrom(inbound, c, buf, names)
  }

  /** Splitting the unread stream at a known prefix. */
  lemma Skip(inbound: seq<byte>, cursor: nat, x: seq<byte>, y: seq<byte>)
    requires cursor <= |inbound| && inbound[cursor..] == x + y
    ensures cursor + |x| <= |inbound| && inbound[cursor..cursor + |x|] == x && inbound[cursor + |x|..] == y
  {
    assert inbound[cursor..][..|x|] == x;
    assert inbound[cursor..][|x|..] == y;
  }

  /** Reading a field whose bytes are all present takes exactly those bytes. */
  lemma ReadExact(inbound: seq<byte>, cursor: nat, x: seq<byte>, p: seq<byte>)
    requires cursor + |x| <= |inbound| && inbound[cursor..cursor + |x|] == x && |p| == |x|
    ensures ReadFrom(inbound, cursor, p) == ReadOutcome(x, |x|, false)
  {
    assert p[|x|..] == [];
    assert x + [] == x;
  }

  lemma U32Exact(inbound: seq<byte>, cursor: nat, n: uint32, y: seq<byte>)
    requires cursor <= |inbound| && inbound[cursor..] == LE32(n) + y
    ensures U32At(inbound, cursor) == (n, cursor + 4) && inbound[cursor + 4..] == y
  {
    Skip(inbound, cursor, LE32(n), y);
    ReadExact(inbound, cursor, LE32(n), Zeros(4));
    DecodeEncode(n);
  }

  /** `parseDent` over a complete entry body reads exactly that entry's name. */
  lemma DentExact(inbound: seq<byte>, c0: nat, d: Dent, tail: seq<byte>)
    requires |d.name| < TWO_32 && c0 <= |inbound|
    requires inbound[c0..] == LE32(d.mode) + (LE32(d.size) + (LE32(d.mtime) + (LE32(|d.name|) + (d.name + tail))))
    ensures DentAt(inbound, c0) == (d.name, c0 + 16 + |d.name|) && inbound[c0 + 16 + |d.name|..] == tail
  {
    var t5 := d.name + tail;
    var t4 := LE32(|d.name|) + t5;
    var t3 := LE32(d.mtime) + t4;
    var t2 := LE32(d.size) + t3;
    U32Exact(inbound, c0, d.mode, t2);
    U32Exact(inbound, c0 + 4, d.size, t3);
    U32Exact(inbound, c0 + 8, d.mtime, t4);
    U32Exact(inbound, c0 + 12, |d.name|, t5);
    Skip(inbound, c0 + 16, d.name, tail);
    ReadExact(inbound, c0 + 16, d.name, Zeros(|d.name|));
  }

  lemma DentFrameTail(d: Dent, tail: seq<byte>)
    ensures DentFrame(d) + tail ==
      DENT + (LE32(d.mode) + (LE32(d.size) + (LE32(d.mtime) + (LE32(ToUint32(|d.name|)) + (d.name + tail)))))
  {
    var n := LE32(ToUint32(|d.name|));
    assert (n + d.name) + tail == n + (d.name + tail);
    var m := LE32(d.mtime);
    assert (m + (n + d.name)) + tail == m + (n + (d.name + tail));
    var z := LE32(d.size);
    assert (z + (m + (n + d.name))) + tail == z + (m + (n + (d.name + tail)));
    var o := LE32(d.mode);
    assert (o + (z + (m + (n + d.name)))) + tail == o + (z + (m + (n + (d.name + tail))));
  }

  /** One turn of the loop over a complete DENT entry finds that entry. */
  lemma NextDent(inbound: seq<byte>, cursor: nat, b: seq<byte>, d: Dent, tail: seq<byte>)
    requires cursor <= |inbound| && |b| == 4 && |d.name| < TWO_32
    requires inbound[cursor..] == DentFrame(d) + tail
    ensures cursor + 20 + |d.name| <= |inbound| && inbound[cursor + 20 + |d.name|..] == tail
    ensures NextTag(inbound, cursor, b) == Entry(DENT, d.name, cursor + 20 + |d.name|)
  {
    var t1 := LE32(d.mode) + (LE32(d.size) + (LE32(d.mtime) + (LE32(|d.name|) + (d.name + tail))));
    DentFrameTail(d, tail);
    Skip(inbound, cursor, DENT, t1);
    ReadExact(inbound, cursor, DENT, b);
    DentExact(inbound, cursor + 4, d, tail);
  }

  /** A turn that finds an entry records its name and continues after it. */
  lemma ListEntry(inbound: seq<byte>, cursor: nat, b: seq<byte>, names: seq<seq<byte>>,
                  buf: seq<byte>, name: seq<byte>, next: nat)
    requires cursor <= |inbound| && |b| == 4
    requires NextTag(inbound, cursor, b) == Entry(buf, name, next)
    ensures next <= |inbound| && |buf| == 4
    ensures ListFrom(inbound, cursor, b, names) == ListFrom(inbound, next, buf, names + [name])
  {
  }

  /** The DONE tag ends the listing with the names collected so far. */
  lemma ListDone(inbound: seq<byte>, cursor: nat, b: seq<byte>, names: seq<seq<byte>>, rest: seq<byte>)
    requires cursor <= |inbound| && |b| == 4
    requires inbound[cursor..] == DONE + rest
    ensures ListFrom(inbound, cursor, b, names) == Listed(DONE, names)
  {
    Skip(inbound, cursor, DONE, rest);
    ReadExact(inbound, cursor, DONE, b);
  }

  /** A well-formed listing, DENT entries then DONE, yields exactly the entries' names in order. */
  lemma {:induction false} ListDecodes(inbound: seq<byte>, cursor: nat, b: seq<byte>, names: seq<seq<byte>>,
                                       ds: seq<Dent>, rest: seq<byte>)
    requires cursor <= |inbound| && |b| == 4
    requires forall i :: 0 <= i < |ds| ==> |ds[i].name| < TWO_32
    requires inbound[cursor..] == DentFrames(ds) + DONE + rest
    ensures ListFrom(inbound, cursor, b, names) == Listed(DONE, names + Names(ds))
    decreases |ds|, 1
  {
    if ds == [] {
      assert inbound[cursor..] == DONE + rest;
      ListDone(inbound, cursor, b, names, rest);
      assert names + Names(ds) == names;
    } else {
      ListDecodesEntry(inbound, cursor, b, names, ds, rest);
    }
  }

  lemma {:induction false} ListDecodesEntry(inbound: seq<byte>, cursor: nat, b: seq<byte>, names: seq<seq<byte>>,
                                            ds: seq<Dent>, rest: seq<byte>)
    requires cursor <= |inbound| && |b| == 4 && ds != []
    requires forall i :: 0 <= i < |ds| ==> |ds[i].name| < TWO_32
    requires inbound[cursor..] == DentFrames(ds) + DONE + rest
    ensures ListFrom(inbound, cursor, b, names) == Listed(DONE, names + Names(ds))
    decreases |ds|, 0
  {
    var d := ds[0];
    var next := cursor + 20 + |d.name|;
    var tail := DentFrames(ds[1..]) + DONE + rest;
    DentFramesCons(ds, rest);
    NextDent(inbound, cursor, b, d, tail);
    ListEntry(inbound, cursor, b, names, DENT, d.name, next);
    ListDecodes(inbound, next, DENT, names + [d.name], ds[1..], rest);
    NamesCons(names, ds);
  }

  lemma DentFramesCons(ds: seq<Dent>, rest: seq<byte>)
    requires ds != []
    ensures DentFrames(ds) + DONE + rest == DentFrame(ds[0]) + (DentFrames(ds[1..]) + DONE + rest)
  {
    var x, y := DentFrame(ds[0]), DentFrames(ds[1..]);
    assert (x + y) + DONE + rest == x + (y + DONE + rest);
  }

  lemma NamesCons(names: seq<seq<byte>>, ds: seq<Dent>)
    requires ds != []
    ensures names + [ds[0].name] + Names(ds[1..]) == names + Names(ds)
  {
    assert Names(ds) == [ds[0].name] + Names(ds[1..]);
  }

  /**
   * `Ls`: dial, select the transport (its error is ignored), require OKAY to `sync:`, send LIST,
   * then run the tag loop. The second result is what was written to the server.
   */
  method Ls(t: Target, remote: string) returns (r: Listing, sent: seq<byte>)
    ensures SyncStatus(t.server) != None ==> r == Failed(SyncStatus(t.server).value)
    ensures SyncStatus(t.server) == None ==>
      r == ListFrom(t.server, AfterSync(t.server), Zeros(4), []) &&
      sent == Frame(TransportCommand(t.transport)) + Frame("sync:") + ListRequest(remote)
  {
    var conn, e := OpenSync(t);
    if e != None {
      var _ := conn.Close();
      return Failed(e.value), conn.outbound;
    }
    var _, _ := Write(conn, ListRequest(remote));
    sent := conn.outbound;
    r := ListTags(conn);
    var _ := conn.Close();
  }

  /**
   * The tag loop of `Ls`, from a fresh zero tag buffer. On a closed socket every read fails and
   * leaves the zero tag in place, so the loop never ends.
   */
  method ListTags(conn: AdbConn) returns (r: Listing)
    requires conn.Valid() && conn.hasConn
    modifies conn
    ensures conn.Valid() && conn.hasConn && conn.open == old(conn.open) && conn.outbound == old(conn.outbound)
    ensures r == if old(conn.open) then ListFrom(old(conn.inbound), old(conn.cursor), Zeros(4), []) else Hang
  {
    if !conn.open {
      return Hang;
    }
    ghost var inb, start := conn.inbound, conn.cursor;
    var b := Zeros(4);
    var names: seq<seq<byte>> := [];
    while true
      invariant conn.Valid() && conn.hasConn && conn.open && conn.inbound == inb && |b| == 4
      invariant conn.open == old(conn.open) && conn.outbound == old(conn.outbound)
      invariant ListFrom(inb, conn.cursor, b, names) == ListFrom(inb, start, Zeros(4), [])
      decreases |conn.inbound| - conn.cursor
    {
      if conn.cursor == |conn.inbound| {
        // the read at the end of the stream leaves the buffer as it was, forever
        return Hang;
      }
      var s := ReadTag(conn, b);
      match s
      case Entry(buf, name, _) =>
        b, names := buf, names + [name];
      case Done(buf) =>
        return Listed(buf, names);
      case Skipped(buf, _) =>
        b := buf;
    }
  }

  /** One turn of the tag loop: read a tag over `b`, and the entry after it when it is DENT. */
  method ReadTag(conn: AdbConn, b: seq<byte>) returns (s: Step)
    requires conn.Valid() && conn.hasConn && conn.open && conn.cursor < |conn.inbound| && |b| == 4
    modifies conn
    ensures conn.Valid() && conn.hasConn && conn.inbound == old(conn.inbound)
    ensures conn.open == old(conn.open) && conn.outbound == old(conn.outbound)
    ensures s == NextTag(old(conn.inbound), old(conn.cursor), b)
    ensures (s.Entry? || s.Skipped?) ==> conn.cursor == s.next
  {
    var q, _, _ := Read(conn, b);
    // `string(b) == "DENT"` and `== "DONE"`, compared as bytes (TagCompare)
    if q == DENT {
      var name := ParseDent(conn);
      s := Entry(q, name, conn.cursor);
    } else if q == DONE {
      s := Done(q);
    } else {
      s := Skipped(q, conn.cursor);
    }
  }

  /** `readUInt32` over the connection; on a closed socket the failed read leaves the zero word. */
  method ReadUInt32(a: AdbConn) returns (v: uint32)
    requires a.Valid() && a.hasConn
    modifies a
    ensures a.Valid() && a.hasConn && a.inbound == old(a.inbound) && a.outbound == old(a.outbound)
    ensures a.open == old(a.open)
    ensures (v, a.cursor) == if old(a.open) then U32At(old(a.inbound), old(a.cursor)) else (0, old(a.cursor))
  {
    var b, _, _ := Read(a, Zeros(4));
    v := DecodeLE32(b);
  }

  /** `parseDent`: the entry's name, which the source prints and the model returns. */
  method ParseDent(a: AdbConn) returns (name: seq<byte>)
    requires a.Valid() && a.hasConn
    modifies a
    ensures a.Valid() && a.hasConn && a.inbound == old(a.inbound) && a.outbound == old(a.outbound)
    ensures a.open == old(a.open)
    ensures old(a.open) ==> name == DentAt(old(a.inbound), old(a.cursor)).0
    ensures old(a.open) ==> a.cursor == DentAt(old(a.inbound), old(a.cursor)).1
    ensures !old(a.open) ==> name == [] && a.cursor == old(a.cursor)
  {
    ghost var inb, c0 := a.inbound, a.cursor;
    var _ := ReadUInt32(a); // mode
    var _ := ReadUInt32(a); // size
    var _ := ReadUInt32(a); // modified time
    var length := ReadUInt32(a);
    var b, _, _ := Read(a, Zeros(length));
    name := b;
  }
}
