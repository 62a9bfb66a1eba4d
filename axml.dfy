/**
 * `apk/xml.go`: the decoder of Android's binary XML (AXML). It walks the chunks of the file,
 * checks the header, the size and each chunk's marker, collects the string table offsets and
 * prints start and end tags as indented XML text. The final `xml.Unmarshal` of that text into
 * a manifest is not part of this model: the result is the text.
 *
 * Every read is `binary.Read` of a little-endian uint32 from a `bytes.Reader`. When fewer than
 * four bytes remain the read fails, the error is ignored and the target keeps the value it had.
 * Once one read of a chunk comes up short every later read of that chunk does too, so the
 * reads of a chunk are taken at fixed 4-byte steps from its start.
 */
module Axml {
  import opened Bytes
  import opened GoText
  import Strconv

  const CHUNK_AXML_FILE: uint32 := 0x00080003
  const CHUNK_RESOURCEIDS: uint32 := 0x00080180
  const CHUNK_STRINGS: uint32 := 0x001C0001
  const CHUNK_XML_END_NAMESPACE: uint32 := 0x00100101
  const CHUNK_XML_END_TAG: uint32 := 0x00100103
  const CHUNK_XML_START_NAMESPACE: uint32 := 0x00100100
  const CHUNK_XML_START_TAG: uint32 := 0x00100102
  const CHUNK_XML_TEXT: uint32 := 0x00100104
  const SKIP_BLOCK: uint32 := 0xFFFF_FFFF
  /** The flag word every start tag must carry. */
  const START_TAG_FLAG: uint32 := 0x0014_0014
  /** The string index that stands for no string. */
  const NO_INDEX: uint32 := 0xFFFF_FFFF
  /** The length of the spaces literal of `computeIndent`. */
  const INDENT_LIMIT: nat := 45

  datatype Fail = WrongHeader | WrongSize | ExpectedSkip | UnknownChunk(blocktype: uint32) | BadFlag(flag: uint32, at: uint32)

  /**
   * What decoding comes to: a value, an error return, a Go panic (`Crash`), a loop that never
   * ends (`Hang`), or a walk still going when the fuel ran out (`Exhausted`).
   */
  datatype Outcome<T> = Done(value: T) | Failed(err: Fail) | Crash | Hang | Exhausted

  /** The same non-value outcome at another type. */
  function Fwd<A, B>(o: Outcome<A>): (r: Outcome<B>)
    requires !o.Done?
    ensures r.Failed? == o.Failed? && r.Crash? == o.Crash? && r.Hang? == o.Hang?
    ensures o.Failed? ==> r.err == o.err
  {
    match o
    case Failed(e) => Failed(e)
    case Crash => Crash
    case Hang => Hang
    case Exhausted => Exhausted
  }

  /** `stringsMeta`. */
  datatype Meta = Meta(nstrings: uint32, styleOffsetCount: uint32, flags: uint32, stringDataOffset: uint32,
                       stylesOffset: uint32, dataOffset: seq<uint32>)

  const NO_STRINGS := Meta(0, 0, 0, 0, 0, [])

  /** The variables that live across chunks: the last block type and size read, the indent and the text. */
  datatype State = State(blocktype: uint32, size: uint32, indent: uint32, output: string, meta: Meta)

  const START := State(0, 0, 0, "", NO_STRINGS)

  /** `binary.Read` of a uint32 at position `p`: the value there, or `prev` when fewer than 4 bytes remain. */
  function WordOr(b: seq<byte>, p: nat, prev: uint32): uint32
  {
    if p + 4 <= |b| then DecodeLE32(b[p..p + 4]) else prev
  }

  /** `computeIndent`: `min(2·indent, 45)` spaces, `2·indent` taken as a uint32. */
  function ComputeIndent(indent: uint32): (r: string)
    ensures |r| == if ToUint32(2 * indent) < INDENT_LIMIT then ToUint32(2 * indent) else INDENT_LIMIT
  {
    var twice := ToUint32(2 * indent);
    Spaces(if twice < INDENT_LIMIT then twice else INDENT_LIMIT)
  }

  lemma IndentWidth(indent: uint32)
    ensures AllSpace(ComputeIndent(indent))
    ensures indent <= 22 ==> |ComputeIndent(indent)| == 2 * indent
    ensures 23 <= indent < 0x8000_0000 ==> |ComputeIndent(indent)| == INDENT_LIMIT
  {
  }

  /** The non-zero bytes of `s`, in order. */
  function NonZero(s: seq<byte>): (r: seq<byte>)
    decreases |s|
  {
    if s == [] then []
    else NonZero(s[..|s| - 1]) + (if s[|s| - 1] != 0 then [s[|s| - 1]] else [])
  }

  lemma {:induction false} NonZeroAppend(s: seq<byte>, t: seq<byte>)
    ensures NonZero(s + t) == NonZero(s) + NonZero(t)
    decreases |t|
  {
    if t == [] {
      assert s + t == s;
    } else {
      NonZeroAppend(s, t[..|t| - 1]);
      assert (s + t)[..|s + t| - 1] == s + t[..|t| - 1];
    }
  }

  /**
   * `compXmlStringAt`: the entry `idx` of the string table. Index `0xffffffff` is the empty
   * string; an index past the offsets read makes Go index out of range. The length is the low
   * byte of the 16-bit prefix (`length[1] << 8` is a byte shift, always 0); the string is that
   * many non-zero bytes after the prefix, zero bytes being skipped. A read past the end leaves a
   * zero byte, so when too few non-zero bytes remain the loop never ends.
   */
  function StringAt(b: seq<byte>, meta: Meta, idx: uint32): (r: Outcome<string>)
    ensures r.Done? || r.Crash? || r.Hang?
    ensures r.Crash? <==> idx != NO_INDEX && idx as int >= |meta.dataOffset|
    ensures idx == NO_INDEX ==> r == Done("")
  {
    if idx == NO_INDEX then Done("")
    else if idx as int >= |meta.dataOffset| then Crash
    else TableText(b, ToUint32(meta.stringDataOffset + meta.dataOffset[idx]))
  }

  /** The string whose length byte is at `off`, its bytes starting two bytes further on. */
  function TableText(b: seq<byte>, off: nat): (r: Outcome<string>)
    ensures r.Done? || r.Hang?
  {
    var strLen := if off < |b| then b[off] else 0;
    var chars := TableChars(b, Min(off + 2, |b|), strLen);
    if chars.Done? then Done(Chars(chars.value)) else Hang
  }

  /**
   * The byte loop of `compXmlStringAt` from position `pos` with `need` bytes still to find: a
   * NUL byte is skipped, and past the end every read gives a NUL, so the loop never ends there.
   */
  function TableChars(b: seq<byte>, pos: nat, need: nat): (r: Outcome<seq<byte>>)
    ensures r.Done? || r.Hang?
    decreases |b| - pos
  {
    if need == 0 then Done([])
    else if pos >= |b| then Hang
    else
      var rest := TableChars(b, pos + 1, if b[pos] != 0 then need - 1 else need);
      if rest.Done? && b[pos] != 0 then Done([b[pos]] + rest.value) else rest
  }

  /** The loop finds the first `need` non-zero bytes from `pos` on, and hangs when there are fewer. */
  lemma {:induction false} TableCharsNonZero(b: seq<byte>, pos: nat, need: nat)
    requires pos <= |b|
    ensures var nz := NonZero(b[pos..]);
      TableChars(b, pos, need) == if |nz| < need then Hang else Done(nz[..need])
    decreases |b| - pos
  {
    if pos < |b| && need > 0 {
      var next := if b[pos] != 0 then need - 1 else need;
      TableCharsNonZero(b, pos + 1, next);
      assert b[pos..] == [b[pos]] + b[pos + 1..];
      NonZeroAppend([b[pos]], b[pos + 1..]);
      assert [b[pos]][..0] == [];
      var nz := NonZero(b[pos + 1..]);
      if b[pos] != 0 {
        assert NonZero(b[pos..]) == [b[pos]] + nz;
        if |nz| >= next {
          assert ([b[pos]] + nz)[..need] == [b[pos]] + nz[..next];
        }
      } else {
        assert NonZero(b[pos..]) == nz;
      }
    }
  }

  /** A string read from the table never holds a NUL byte. */
  lemma StringAtNoNul(b: seq<byte>, meta: Meta, idx: uint32)
    requires StringAt(b, meta, idx).Done?
    ensures forall i :: 0 <= i < |StringAt(b, meta, idx).value| ==> StringAt(b, meta, idx).value[i] != 0 as char
  {
    if idx != NO_INDEX {
      var off: nat := ToUint32(meta.stringDataOffset + meta.dataOffset[idx]);
      var strLen := if off < |b| then b[off] else 0;
      var chars := NonZero(b[Min(off + 2, |b|)..]);
      TableCharsNonZero(b, Min(off + 2, |b|), strLen);
      NonZeroNoNul(b[Min(off + 2, |b|)..]);
      CharsEach(chars[..strLen]);
    }
  }

  lemma {:induction false} NonZeroNoNul(s: seq<byte>)
    ensures |NonZero(s)| <= |s| && forall i :: 0 <= i < |NonZero(s)| ==> NonZero(s)[i] != 0
    decreases |s|
  {
    if s != [] {
      NonZeroNoNul(s[..|s| - 1]);
    }
  }

  lemma {:induction false} CharsEach(b: seq<byte>)
    ensures |Chars(b)| == |b| && forall i :: 0 <= i < |b| ==> Chars(b)[i] == b[i] as char
    decreases |b|
  {
    if b != [] {
      CharsEach(b[..|b| - 1]);
    }
  }

  /** Go's `string(b)`: one char per byte. */
  function Chars(b: seq<byte>): string
    decreases |b|
  {
    if b == [] then "" else Chars(b[..|b| - 1]) + [b[|b| - 1] as char]
  }

  function Min(x: int, y: int): int {
    if x < y then x else y
  }

  /** `compXmlStringAt`. */
  method CompXmlStringAt(b: seq<byte>, meta: Meta, idx: uint32) returns (r: Outcome<string>)
    ensures r == StringAt(b, meta, idx)
  {
    if idx == NO_INDEX {
      return Done("");
    }
    if idx as int >= |meta.dataOffset| {
      return Crash;
    }
    var off := ToUint32(meta.stringDataOffset + meta.dataOffset[idx]);
    r := ReadTableText(b, off);
  }

  lemma NonZeroStep(s: seq<byte>, k: nat)
    requires k < |s|
    ensures NonZero(s[..k + 1]) == NonZero(s[..k]) + (if s[k] != 0 then [s[k]] else [])
  {
    assert s[..k + 1][..k] == s[..k];
  }

  /** The loop of `compXmlStringAt`, reading one byte at a time into a buffer of the declared length. */
  method ReadTableText(b: seq<byte>, off: nat) returns (r: Outcome<string>)
    ensures r == TableText(b, off)
  {
    var strLen: nat := if off < |b| then b[off] else 0;
    var chars := new byte[strLen];
    var start := Min(off + 2, |b|);
    ghost var rest := b[start..];
    var i, ii := 0, 0;
    while i < strLen && start + ii < |b|
      invariant 0 <= ii <= |rest| && i <= strLen
      invariant chars[..i] == NonZero(rest[..ii])
      decreases |rest| - ii
    {
      var c := b[start + ii];
      assert c == rest[ii];
      NonZeroStep(rest, ii);
      if c != 0 {
        chars[i] := c;
        i := i + 1;
      }
      ii := ii + 1;
    }
    assert rest == rest[..ii] + rest[ii..];
    NonZeroAppend(rest[..ii], rest[ii..]);
    TableCharsNonZero(b, start, strLen);
    if i < strLen {
      assert rest[ii..] == [] && rest[..ii] == rest;
      return Hang;
    }
    assert chars[..] == chars[..i];
    r := Done(Chars(chars[..]));
  }

  /** The `n` words read from `p` on, a failed read giving 0 (a fresh variable each time). */
  function Offsets(b: seq<byte>, p: nat, n: nat): (r: seq<uint32>)
    ensures |r| == n
  {
    if n == 0 then [] else Offsets(b, p, n - 1) + [WordOr(b, p + 4 * (n - 1), 0)]
  }

  /** Offset `i` is the word at `p + 4·i`. */
  lemma {:induction false} OffsetsAt(b: seq<byte>, p: nat, n: nat)
    ensures forall i :: 0 <= i < n ==> Offsets(b, p, n)[i] == WordOr(b, p + 4 * i, 0)
  {
    if n > 0 {
      OffsetsAt(b, p, n - 1);
      assert forall i :: 0 <= i < n - 1 ==> Offsets(b, p, n)[i] == Offsets(b, p, n - 1)[i];
    }
  }

  /**
   * The strings chunk at `o`: five header words (keeping their old values on a short read), then
   * one data offset per string appended to those of earlier tables, and `StringDataOffset` set to
   * `0x24 + 4·Nstrings`.
   */
  function Strings(b: seq<byte>, o: nat, m: Meta): Meta
  {
    var n := WordOr(b, o + 8, m.nstrings);
    Meta(n, WordOr(b, o + 12, m.styleOffsetCount), WordOr(b, o + 16, m.flags), ToUint32(0x24 + 4 * n),
         WordOr(b, o + 24, m.stylesOffset), m.dataOffset + Offsets(b, o + 28, n))
  }

  /**
   * The strings chunk appends one data offset per string, the word at `o + 28 + 4·i`, and the
   * string data is taken to start right after them, at `0x24 + 4·n`, whatever the stored field says.
   */
  lemma StringsFields(b: seq<byte>, o: nat, m: Meta)
    ensures var r := Strings(b, o, m);
      r.nstrings == WordOr(b, o + 8, m.nstrings) &&
      |r.dataOffset| == |m.dataOffset| + r.nstrings as int && r.dataOffset[..|m.dataOffset|] == m.dataOffset &&
      (forall i :: 0 <= i < r.nstrings ==> r.dataOffset[|m.dataOffset| + i] == WordOr(b, o + 28 + 4 * i, 0)) &&
      r.stringDataOffset == ToUint32(0x24 + 4 * r.nstrings)
  {
    var r := Strings(b, o, m);
    var extra := Offsets(b, o + 28, r.nstrings as int);
    OffsetsAt(b, o + 28, r.nstrings as int);
    assert r.dataOffset == m.dataOffset + extra;
    forall i | 0 <= i < r.nstrings
      ensures r.dataOffset[|m.dataOffset| + i] == WordOr(b, o + 28 + 4 * i, 0)
    {
      assert r.dataOffset[|m.dataOffset| + i] == extra[i];
    }
  }

  /** The strings chunk, read field by field. */
  method ReadStrings(b: seq<byte>, o: nat, m: Meta) returns (r: Meta)
    ensures r == Strings(b, o, m)
  {
    var n := WordOr(b, o + 8, m.nstrings);
    var styleOffsetCount := WordOr(b, o + 12, m.styleOffsetCount);
    var flags := WordOr(b, o + 16, m.flags);
    var stringDataOffset := WordOr(b, o + 20, m.stringDataOffset);
    var stylesOffset := WordOr(b, o + 24, m.stylesOffset);
    var dataOffset := m.dataOffset;
    var i: nat := 0;
    while i < n
      invariant i <= n
      invariant dataOffset == m.dataOffset + Offsets(b, o + 28, i)
    {
      var offset := WordOr(b, o + 28 + 4 * i, 0);
      dataOffset := dataOffset + [offset];
      i := i + 1;
    }
    stringDataOffset := ToUint32(0x24 + 4 * (n as int));
    r := Meta(n, styleOffsetCount, flags, stringDataOffset, stylesOffset, dataOffset);
  }

  /** One attribute at `p`: ` name="value"`, the value being the decimal resource id when it has no string. */
  function Attr(b: seq<byte>, p: nat, meta: Meta): (r: Outcome<string>)
    ensures r.Done? || r.Crash? || r.Hang?
  {
    var nameIdx := WordOr(b, p + 4, 0);
    var valueIdx := WordOr(b, p + 8, 0);
    var resId := WordOr(b, p + 16, 0);
    var name := StringAt(b, meta, nameIdx);
    if !name.Done? then Fwd(name)
    else
      var value := if valueIdx != NO_INDEX then StringAt(b, meta, valueIdx) else Done(Strconv.Decimal(resId));
      if value.Done? then Done(AttrText(name.value, value.value)) else Fwd(value)
  }

  /** ` name="value"`. */
  function AttrText(name: string, value: string): string {
    " " + name + "=\"" + value + "\""
  }

  /** The first `n` attributes from `p` on, 20 bytes each, in order; the first failing one stops. */
  function Attrs(b: seq<byte>, p: nat, meta: Meta, n: nat): (r: Outcome<string>)
    ensures r.Done? || r.Crash? || r.Hang?
  {
    if n == 0 then Done("")
    else match Attrs(b, p, meta, n - 1)
      case Done(att) =>
        var a := Attr(b, p + 20 * (n - 1), meta);
        if a.Done? then Done(att + a.value) else a
      case _ => Attrs(b, p, meta, n - 1)
  }

  /** Once an attribute fails, every longer run of attributes fails the same way. */
  lemma {:induction false} AttrsStop(b: seq<byte>, p: nat, meta: Meta, i: nat, n: nat)
    requires i <= n && !Attrs(b, p, meta, i).Done?
    ensures Attrs(b, p, meta, n) == Attrs(b, p, meta, i)
    decreases n - i
  {
    if i < n {
      AttrsStop(b, p, meta, i, n - 1);
    }
  }

  /** The attribute loop of a start tag. */
  method Attributes(b: seq<byte>, p: nat, meta: Meta, count: nat) returns (r: Outcome<string>)
    ensures r == Attrs(b, p, meta, count)
  {
    var att := "";
    var i: nat := 0;
    while i < count
      invariant i <= count
      invariant Attrs(b, p, meta, i) == Done(att)
    {
      var q := p + 20 * i;
      var attrNameSi := WordOr(b, q + 4, 0);
      var attrValueSi := WordOr(b, q + 8, 0);
      var attrResId := WordOr(b, q + 16, 0);
      var attrName := CompXmlStringAt(b, meta, attrNameSi);
      if !attrName.Done? {
        assert Attrs(b, p, meta, i + 1) == Attr(b, q, meta) == Fwd(attrName);
        AttrsStop(b, p, meta, i + 1, count);
        return Fwd(attrName);
      }
      var attrValue;
      if attrValueSi != NO_INDEX {
        attrValue := CompXmlStringAt(b, meta, attrValueSi);
        if !attrValue.Done? {
          assert Attrs(b, p, meta, i + 1) == Attr(b, q, meta) == Fwd(attrValue);
          AttrsStop(b, p, meta, i + 1, count);
          return Fwd(attrValue);
        }
      } else {
        attrValue := Done(Strconv.Decimal(attrResId));
      }
      var one := AttrText(attrName.value, attrValue.value);
      assert Attr(b, q, meta) == Done(one);
      assert Attrs(b, p, meta, i + 1) == Done(att + one);
      att := att + one;
      i := i + 1;
    }
    r := Done(att);
  }

  /** A start tag at `o` with name index `nameIdx`: `<name attrs>` at the current indent, then one level deeper. */
  function StartTag(b: seq<byte>, o: nat, st: State, nameIdx: uint32): Outcome<State>
  {
    var name := StringAt(b, st.meta, nameIdx);
    if !name.Done? then Fwd(name) else OpenTag(b, o, st, name.value)
  }

  /** The attributes of the start tag at `o` and the text of the tag named `name`. */
  function OpenTag(b: seq<byte>, o: nat, st: State, name: string): Outcome<State>
  {
    var count := WordOr(b, o + 28, 0);
    var att := Attrs(b, o + 36, st.meta, count);
    if att.Done? then
      var text := st.output + ComputeIndent(st.indent) + "<" + name + att.value + ">\n";
      Done(st.(output := text, indent := ToUint32(st.indent + 1)))
    else Fwd(att)
  }

  /** An end tag: one level up first, then `</name>` at the new indent. */
  function EndTag(b: seq<byte>, st: State, nameIdx: uint32): Outcome<State>
  {
    var indent := ToUint32(st.indent - 1);
    var name := StringAt(b, st.meta, nameIdx);
    if !name.Done? then Fwd(name)
    else
      var text := st.output + ComputeIndent(indent) + "</" + name.value + ">\n";
      Done(st.(indent := indent, output := text))
  }

  /** A start tag appends its opening, indented, to the text and goes one level deeper. */
  lemma StartTagText(b: seq<byte>, o: nat, st: State, nameIdx: uint32)
    ensures var r := StartTag(b, o, st, nameIdx);
      r.Done? ==> r.value.indent == ToUint32(st.indent + 1) && r.value.meta == st.meta &&
                  st.output + ComputeIndent(st.indent) + "<" <= r.value.output
  {
    var r := StartTag(b, o, st, nameIdx);
    if r.Done? {
      var name := StringAt(b, st.meta, nameIdx).value;
      var att := Attrs(b, o + 36, st.meta, WordOr(b, o + 28, 0)).value;
      var head := st.output + ComputeIndent(st.indent) + "<";
      assert r.value.output == head + (name + att + ">\n");
    }
  }

  /** An end tag goes one level up and appends its closing, indented at the new level, to the text. */
  lemma EndTagText(b: seq<byte>, st: State, nameIdx: uint32)
    ensures var r := EndTag(b, st, nameIdx);
      r.Done? ==> r.value.indent == ToUint32(st.indent - 1) && r.value.meta == st.meta &&
                  st.output + ComputeIndent(ToUint32(st.indent - 1)) + "</" <= r.value.output
  {
    var r := EndTag(b, st, nameIdx);
    if r.Done? {
      var name := StringAt(b, st.meta, nameIdx).value;
      var head := st.output + ComputeIndent(ToUint32(st.indent - 1)) + "</";
      assert r.value.output == head + (name + ">\n");
    }
  }

  /** Block types that carry no `SKIP_BLOCK` marker. */
  predicate Unmarked(blocktype: uint32) {
    blocktype == CHUNK_RESOURCEIDS || blocktype == CHUNK_STRINGS
  }

  /** Block types decoding passes over. */
  predicate Passed(blocktype: uint32) {
    blocktype == CHUNK_RESOURCEIDS || blocktype == CHUNK_XML_END_NAMESPACE ||
    blocktype == CHUNK_XML_START_NAMESPACE || blocktype == CHUNK_XML_TEXT
  }

  /**
   * The chunk at `o`: its type and size, then for every chunk but a resource-id or strings chunk
   * the line number, the marker, the namespace, the name and the flag.
   */
  function ChunkStep(b: seq<byte>, o: nat, st: State): Outcome<State>
  {
    var blocktype := WordOr(b, o, st.blocktype);
    var size := WordOr(b, o + 4, st.size);
    var next := st.(blocktype := blocktype, size := size);
    if !Unmarked(blocktype) && WordOr(b, o + 12, 0) != SKIP_BLOCK then Failed(ExpectedSkip)
    else
      var nameIdx := if Unmarked(blocktype) then 0 else WordOr(b, o + 20, 0);
      var flag := if Unmarked(blocktype) then 0 else WordOr(b, o + 24, 0);
      if Passed(blocktype) then Done(next)
      else if blocktype == CHUNK_STRINGS then Done(next.(meta := Strings(b, o, st.meta)))
      else if blocktype == CHUNK_XML_END_TAG then EndTag(b, next, nameIdx)
      else if blocktype == CHUNK_XML_START_TAG then
        if flag != START_TAG_FLAG then Failed(BadFlag(flag, ToUint32(o + 24)))
        else StartTag(b, o, next, nameIdx)
      else Failed(UnknownChunk(blocktype))
  }

  /** What each kind of chunk does: the errors it reports, and the state it leaves. */
  lemma ChunkChecks(b: seq<byte>, o: nat, st: State)
    ensures var r := ChunkStep(b, o, st); r.Done? ==> r.value.blocktype == WordOr(b, o, st.blocktype) && r.value.size == WordOr(b, o + 4, st.size)
    ensures var r := ChunkStep(b, o, st); var t := WordOr(b, o, st.blocktype);
      (!Unmarked(t) && WordOr(b, o + 12, 0) != SKIP_BLOCK ==> r == Failed(ExpectedSkip)) &&
      ((!Unmarked(t) && WordOr(b, o + 12, 0) == SKIP_BLOCK && !Passed(t) && t != CHUNK_XML_START_TAG &&
        t != CHUNK_XML_END_TAG) ==> r == Failed(UnknownChunk(t))) &&
      (t == CHUNK_XML_START_TAG && WordOr(b, o + 12, 0) == SKIP_BLOCK && WordOr(b, o + 24, 0) != START_TAG_FLAG ==>
         r == Failed(BadFlag(WordOr(b, o + 24, 0), ToUint32(o + 24)))) &&
      (Passed(t) && (t == CHUNK_RESOURCEIDS || WordOr(b, o + 12, 0) == SKIP_BLOCK) ==>
         r == Done(st.(blocktype := t, size := WordOr(b, o + 4, st.size)))) &&
      (t == CHUNK_STRINGS ==>
         r == Done(st.(blocktype := t, size := WordOr(b, o + 4, st.size), meta := Strings(b, o, st.meta))))
    ensures var r := ChunkStep(b, o, st); r.Done? ==> var t := r.value.blocktype;
      (t == CHUNK_XML_START_TAG ==> r.value.indent == ToUint32(st.indent + 1)) &&
      (t == CHUNK_XML_END_TAG ==> r.value.indent == ToUint32(st.indent - 1)) &&
      (t != CHUNK_XML_START_TAG && t != CHUNK_XML_END_TAG ==> r.value.indent == st.indent && r.value.output == st.output)
  {
  }

  /** The end-tag branch of the `Unmarshal` loop. */
  method ReadEndTag(b: seq<byte>, st: State, nameIdx: uint32) returns (r: Outcome<State>)
    ensures r == EndTag(b, st, nameIdx)
  {
    var indent := ToUint32(st.indent - 1);
    var name := CompXmlStringAt(b, st.meta, nameIdx);
    if !name.Done? {
      return Fwd(name);
    }
    r := Done(st.(indent := indent, output := st.output + ComputeIndent(indent) + "</" + name.value + ">\n"));
  }

  /** The start-tag branch of the `Unmarshal` loop, after the flag check. */
  method ReadStartTag(b: seq<byte>, o: nat, st: State, nameIdx: uint32) returns (r: Outcome<State>)
    ensures r == StartTag(b, o, st, nameIdx)
  {
    var name := CompXmlStringAt(b, st.meta, nameIdx);
    if !name.Done? {
      return Fwd(name);
    }
    r := ReadOpenTag(b, o, st, name.value);
  }

  /** The attribute loop of a start tag and the text of the tag. */
  method ReadOpenTag(b: seq<byte>, o: nat, st: State, name: string) returns (r: Outcome<State>)
    ensures r == OpenTag(b, o, st, name)
  {
    var attributeCount := WordOr(b, o + 28, 0);
    var att := Attributes(b, o + 36, st.meta, attributeCount);
    if !att.Done? {
      return Fwd(att);
    }
    r := Done(st.(output := st.output + ComputeIndent(st.indent) + "<" + name + att.value + ">\n",
                  indent := ToUint32(st.indent + 1)));
  }

  /** One turn of the `Unmarshal` loop. */
  method Chunk(b: seq<byte>, offset: uint32, st: State) returns (r: Outcome<State>)
    ensures r == ChunkStep(b, offset, st)
  {
    var blocktype := WordOr(b, offset, st.blocktype);
    var size := WordOr(b, offset + 4, st.size);
    var nameIdx, flag := 0, 0;
    if blocktype != CHUNK_RESOURCEIDS && blocktype != CHUNK_STRINGS {
      var skip := WordOr(b, offset + 12, 0);
      if skip != SKIP_BLOCK {
        return Failed(ExpectedSkip);
      }
      nameIdx := WordOr(b, offset + 20, 0);
      flag := WordOr(b, offset + 24, 0);
    }
    var next := st.(blocktype := blocktype, size := size);
    if blocktype == CHUNK_RESOURCEIDS || blocktype == CHUNK_XML_END_NAMESPACE ||
       blocktype == CHUNK_XML_START_NAMESPACE || blocktype == CHUNK_XML_TEXT {
      r := Done(next);
    } else if blocktype == CHUNK_STRINGS {
      var meta := ReadStrings(b, offset, st.meta);
      r := Done(next.(meta := meta));
    } else if blocktype == CHUNK_XML_END_TAG {
      r := ReadEndTag(b, next, nameIdx);
    } else if blocktype == CHUNK_XML_START_TAG {
      if flag != START_TAG_FLAG {
        return Failed(BadFlag(flag, ToUint32(offset + 24)));
      }
      r := ReadStartTag(b, offset, next, nameIdx);
    } else {
      r := Failed(UnknownChunk(blocktype));
    }
  }

  /**
   * The chunk walk from offset `o`: done once `o` reaches the file size, otherwise the chunk at
   * `o` and then the walk from `o + size` (a uint32 sum). A size 0 or a sum that wraps can send
   * the walk round for ever, so it takes at most `fuel` chunks.
   */
  function Walk(b: seq<byte>, o: uint32, st: State, fuel: nat): Outcome<string>
    decreases fuel
  {
    if o as int >= |b| then Done(st.output)
    else if fuel == 0 then Exhausted
    else match ChunkStep(b, o, st)
      case Done(next) => Walk(b, ToUint32(o + next.size), next, fuel - 1)
      case _ => Fwd(ChunkStep(b, o, st))
  }

  /** `Unmarshal` up to the XML text: the header and size checks, then the walk from offset 8. */
  function Decode(b: seq<byte>, fuel: nat): (r: Outcome<string>)
    ensures r == Failed(WrongHeader) <==> WordOr(b, 0, 0) != CHUNK_AXML_FILE
    ensures WordOr(b, 0, 0) == CHUNK_AXML_FILE ==>
      (r == Failed(WrongSize) <==> |b| < 8 || WordOr(b, 4, 0) as int != |b|)
  {
    if WordOr(b, 0, 0) != CHUNK_AXML_FILE then Failed(WrongHeader)
    else if WordOr(b, 4, CHUNK_AXML_FILE) as int != |b| then Failed(WrongSize)
    else
      WalkNotHeader(b, 8, START, fuel);
      Walk(b, 8, START, fuel)
  }

  /** The walk never reports a header or size error. */
  lemma {:induction false} WalkNotHeader(b: seq<byte>, o: uint32, st: State, fuel: nat)
    ensures Walk(b, o, st, fuel) != Failed(WrongHeader) && Walk(b, o, st, fuel) != Failed(WrongSize)
    decreases fuel
  {
    if o as int < |b| && fuel > 0 {
      var c := ChunkStep(b, o, st);
      WalkStep(b, o, st, fuel, c);
      if c.Done? {
        WalkNotHeader(b, ToUint32(o + c.value.size), c.value, fuel - 1);
      }
    }
  }

  /** One chunk of the walk. */
  lemma WalkStep(b: seq<byte>, o: uint32, st: State, fuel: nat, c: Outcome<State>)
    requires o as int < |b| && fuel > 0 && c == ChunkStep(b, o, st)
    ensures Walk(b, o, st, fuel) == if c.Done? then Walk(b, ToUint32(o + c.value.size), c.value, fuel - 1) else Fwd(c)
  {
  }

  /** `Unmarshal`: the loop over chunk offsets up to the file size. */
  method Unmarshal(b: seq<byte>, fuel: nat) returns (r: Outcome<string>)
    ensures r == Decode(b, fuel)
  {
    var header := WordOr(b, 0, 0);
    if header != CHUNK_AXML_FILE {
      return Failed(WrongHeader);
    }
    header := WordOr(b, 4, header);
    if header as int != |b| {
      return Failed(WrongSize);
    }
    var st := START;
    var offset: uint32 := 8;
    var left := fuel;
    ghost var total := Walk(b, 8, START, fuel);
    assert total == Decode(b, fuel);
    while offset < header
      invariant header as int == |b|
      invariant Walk(b, offset, st, left) == total
      decreases left
    {
      var stop;
      stop, r, offset, st, left := Advance(b, offset, st, left);
      if stop {
        return;
      }
    }
    r := Done(st.output);
  }

  /**
   * One pass of the `Unmarshal` loop at an offset inside the file: the chunk there, then either
   * the result (on an error, or with no fuel left) or the offset and state to go on from.
   */
  method Advance(b: seq<byte>, offset: uint32, st: State, left: nat)
    returns (stop: bool, r: Outcome<string>, offset': uint32, st': State, left': nat)
    requires offset as int < |b|
    ensures stop ==> r == Walk(b, offset, st, left)
    ensures !stop ==> left' < left && Walk(b, offset', st', left') == Walk(b, offset, st, left)
  {
    offset', st', left' := offset, st, left;
    if left == 0 {
      return true, Exhausted, offset', st', left';
    }
    var next := Chunk(b, offset, st);
    WalkStep(b, offset, st, left, next);
    if !next.Done? {
      return true, Fwd(next), offset', st', left';
    }
    stop, r := false, Exhausted;
    st' := next.value;
    offset' := ToUint32(offset + st'.size);
    left' := left - 1;
  }

  /** A file holding only its header decodes to no text. */
  lemma HeaderOnly(fuel: nat)
    ensures Decode(LE32(CHUNK_AXML_FILE) + LE32(8), fuel) == Done("")
  {
    var b := LE32(CHUNK_AXML_FILE) + LE32(8);
    assert b[0..4] == LE32(CHUNK_AXML_FILE) && b[4..8] == LE32(8);
    DecodeEncode(CHUNK_AXML_FILE);
    DecodeEncode(8);
  }

  /** A marked namespace chunk of declared size 0 is read again and again: the walk never finishes. */
  lemma {:induction false} ZeroSizeNeverEnds(b: seq<byte>, o: uint32, st: State, fuel: nat)
    requires o as int + 16 <= |b|
    requires WordOr(b, o, 0) == CHUNK_XML_START_NAMESPACE && WordOr(b, o + 4, 0) == 0
    requires WordOr(b, o + 12, 0) == SKIP_BLOCK
    ensures Walk(b, o, st, fuel) == Exhausted
    decreases fuel
  {
    if fuel > 0 {
      var next := st.(blocktype := CHUNK_XML_START_NAMESPACE, size := 0);
      assert ChunkStep(b, o, st) == Done(next);
      assert ToUint32(o + 0) == o;
      ZeroSizeNeverEnds(b, o, next, fuel - 1);
    }
  }

  /** The change of indent over a run of start (`true`) and end (`false`) tags, in uint32 arithmetic. */
  function IndentAfter(indent: uint32, tags: seq<bool>): uint32
    decreases |tags|
  {
    if tags == [] then indent
    else IndentAfter(if tags[0] then ToUint32(indent + 1) else ToUint32(indent - 1), tags[1..])
  }

  function Opens(tags: seq<bool>): nat
    decreases |tags|
  {
    if tags == [] then 0 else (if tags[0] then 1 else 0) + Opens(tags[1..])
  }

  /** The indent moves by the number of start tags less the number of end tags, modulo 2^32. */
  lemma {:induction false} IndentCount(indent: uint32, tags: seq<bool>)
    ensures IndentAfter(indent, tags) == ToUint32(indent + 2 * Opens(tags) - |tags|)
    decreases |tags|
  {
    if tags != [] {
      var next := if tags[0] then ToUint32(indent + 1) else ToUint32(indent - 1);
      IndentCount(next, tags[1..]);
      var d := 2 * Opens(tags[1..]) - |tags[1..]|;
      ModShift(next, indent + (if tags[0] then 1 else -1), d);
    }
  }

  /** Values equal modulo 2^32 stay equal modulo 2^32 after adding the same amount. */
  lemma ModShift(x: int, y: int, d: int)
    requires x % TWO_32 == y % TWO_32
    ensures (x + d) % TWO_32 == (y + d) % TWO_32
  {
    var qx, qy := x / TWO_32, y / TWO_32;
    assert x == qx * TWO_32 + x % TWO_32;
    assert y == qy * TWO_32 + y % TWO_32;
    assert x + d == (qx - qy) * TWO_32 + (y + d);
    ModMultiple(y + d, qx - qy);
  }

  lemma ModMultiple(z: int, k: int)
    ensures (k * TWO_32 + z) % TWO_32 == z % TWO_32
  {
  }

  /** As many end tags as start tags bring the indent back to where it was, in any order. */
  lemma Balanced(indent: uint32, tags: seq<bool>)
    requires 2 * Opens(tags) == |tags|
    ensures IndentAfter(indent, tags) == indent
  {
    IndentCount(indent, tags);
  }

  /** The tag a chunk of this block type contributes to the indent: a start, an end, or none. */
  function TagOf(blocktype: uint32): seq<bool> {
    if blocktype == CHUNK_XML_START_TAG then [true]
    else if blocktype == CHUNK_XML_END_TAG then [false]
    else []
  }

  /**
   * The walk of `Walk`, keeping what it leaves behind: the state after the last chunk (or the
   * outcome that stopped it) and the start and end tags of the chunks it decoded, in order.
   */
  function Run(b: seq<byte>, o: uint32, st: State, fuel: nat): (Outcome<State>, seq<bool>)
    decreases fuel
  {
    if o as int >= |b| then (Done(st), [])
    else if fuel == 0 then (Exhausted, [])
    else match ChunkStep(b, o, st)
      case Done(next) =>
        var rest := Run(b, ToUint32(o + next.size), next, fuel - 1);
        (rest.0, TagOf(next.blocktype) + rest.1)
      case _ => (Fwd(ChunkStep(b, o, st)), [])
  }

  /** `Walk` is the text of the state `Run` ends in, or the same outcome when the walk stops early. */
  lemma {:induction false} RunWalk(b: seq<byte>, o: uint32, st: State, fuel: nat)
    ensures var r := Run(b, o, st, fuel).0;
      Walk(b, o, st, fuel) == if r.Done? then Done(r.value.output) else Fwd(r)
    decreases fuel
  {
    if o as int < |b| && fuel > 0 {
      var c := ChunkStep(b, o, st);
      if c.Done? {
        RunWalk(b, ToUint32(o + c.value.size), c.value, fuel - 1);
      } else {
        var r: Outcome<State> := Fwd(c);
        assert Fwd<State, string>(r) == Fwd<State, string>(c) by {
          match c
          case Failed(e) =>
          case Crash =>
          case Hang =>
          case Exhausted =>
        }
      }
    }
  }

  /** One decoded chunk moves the indent as its own tag says. */
  lemma ChunkIndent(b: seq<byte>, o: nat, st: State)
    ensures var c := ChunkStep(b, o, st);
      c.Done? ==> c.value.indent == IndentAfter(st.indent, TagOf(c.value.blocktype))
  {
    ChunkChecks(b, o, st);
  }

  lemma IndentAfterTag(indent: uint32, t: uint32, rest: seq<bool>)
    ensures IndentAfter(indent, TagOf(t) + rest) == IndentAfter(IndentAfter(indent, TagOf(t)), rest)
  {
    var tags := TagOf(t) + rest;
    if TagOf(t) != [] {
      assert tags[0] == TagOf(t)[0] && tags[1..] == rest;
      assert IndentAfter(indent, TagOf(t)) == IndentAfter(if tags[0] then ToUint32(indent + 1) else ToUint32(indent - 1), []);
    } else {
      assert tags == rest;
    }
  }

  /** One chunk of `Run`. */
  lemma RunStep(b: seq<byte>, o: uint32, st: State, fuel: nat, c: Outcome<State>)
    requires o as int < |b| && fuel > 0 && c == ChunkStep(b, o, st)
    ensures c.Done? ==> var rest := Run(b, ToUint32(o + c.value.size), c.value, fuel - 1);
      Run(b, o, st, fuel) == (rest.0, TagOf(c.value.blocktype) + rest.1)
    ensures !c.Done? ==> !Run(b, o, st, fuel).0.Done?
  {
  }

  /**
   * Through a whole walk of `Unmarshal`, the indent ends where the start and end tag chunks it
   * decoded take it: one level deeper per start tag, one up per end tag, in uint32 arithmetic.
   */
  lemma {:induction false} RunIndent(b: seq<byte>, o: uint32, st: State, fuel: nat)
    ensures var r := Run(b, o, st, fuel);
      r.0.Done? ==> r.0.value.indent == IndentAfter(st.indent, r.1)
    decreases fuel
  {
    if o as int < |b| && fuel > 0 {
      var c := ChunkStep(b, o, st);
      RunStep(b, o, st, fuel, c);
      if c.Done? {
        var next := c.value;
        var rest := Run(b, ToUint32(o + next.size), next, fuel - 1);
        ChunkIndent(b, o, st);
        RunIndent(b, ToUint32(o + next.size), next, fuel - 1);
        IndentJoin(st.indent, next, rest, Run(b, o, st, fuel));
      }
    }
  }

  /** The indent after one chunk and then the rest of the walk is the indent after the whole walk. */
  lemma IndentJoin(indent: uint32, next: State, rest: (Outcome<State>, seq<bool>), whole: (Outcome<State>, seq<bool>))
    requires next.indent == IndentAfter(indent, TagOf(next.blocktype))
    requires whole == (rest.0, TagOf(next.blocktype) + rest.1)
    requires rest.0.Done? ==> rest.0.value.indent == IndentAfter(next.indent, rest.1)
    ensures whole.0.Done? ==> whole.0.value.indent == IndentAfter(indent, whole.1)
  {
    IndentAfterTag(indent, next.blocktype, rest.1);
  }

  /** So the indent a walk ends at counts its start tags up and its end tags down, modulo 2^32. */
  lemma RunIndentCount(b: seq<byte>, o: uint32, st: State, fuel: nat)
    ensures var r := Run(b, o, st, fuel);
      r.0.Done? ==> r.0.value.indent == ToUint32(st.indent + 2 * Opens(r.1) - |r.1|)
  {
    RunIndent(b, o, st, fuel);
    IndentCount(st.indent, Run(b, o, st, fuel).1);
  }

  /** A decoded file with as many end tags as start tags ends at the indent it started from. */
  lemma RunBalanced(b: seq<byte>, o: uint32, st: State, fuel: nat)
    requires Run(b, o, st, fuel).0.Done?
    requires 2 * Opens(Run(b, o, st, fuel).1) == |Run(b, o, st, fuel).1|
    ensures Run(b, o, st, fuel).0.value.indent == st.indent
  {
    RunIndent(b, o, st, fuel);
    Balanced(st.indent, Run(b, o, st, fuel).1);
  }
}
