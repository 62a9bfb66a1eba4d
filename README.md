# android: the ADB client, pidcat and the AXML decoder, in Dafny

This project models the core of the `wmbest2/android` Go library and proves properties of that model.
The core has five parts.

- **The ADB host client** (`adb/connection.go`, `adb/util.go`). A request is framed as four hex
  digits of length followed by the command, and the server answers with a four-byte status.
  `AdbConn` is a class whose fields are the bytes sent so far, the bytes the server will send,
  a read cursor, and whether the socket is open or a reader exists. Every method states the new
  state in terms of the old one. `WriteCmd` keeps the 4096-byte `bufio.Writer` behaviour: a
  broken socket is reported as "Could not write" only when the command overflows that buffer.
- **The sync sub-protocol** (`adb/sync.go`). It covers the `SEND`/`DATA`/`DONE` frames of a push
  and the `LIST`/`DENT`/`DONE` exchange of a listing. The `SectionedMultiWriter` is a class over
  a 65536-byte `array`. A push to several devices is modelled too, and so is the `Ls` loop; past
  the end of the stream that loop never stops.
- **Devices** (`adb/device.go`, `adb/adb.go`, and the older `device.go` and `adb.go` at the
  root). This covers:
  - the filter predicate;
  - the `getprop` line matcher `\[(.*)\]: \[(.*)\]`, written out as the greedy backtracking
    search the regex engine performs;
  - the property map and the fields `Update` derives from it;
  - device discovery from `adb devices` output, and the output collection of `ExecSync`.

  The older revision's filter tests `Sdk < MinSdk && Sdk > MaxSdk`. That test can reject only
  when `MinSdk > MaxSdk + 1`, so in practice only the serial decides (`AdbLegacy.SdkTestVacuous`).
  Its `LATEST` is 12, not KITKAT (`AdbLegacy.LatestValue`). Both are modelled as written.
- **pidcat** (`pidcat/log.go`, `pidcat/main.go`). `LOG_LINE` is matched by hand, with its lazy
  tag group. The `PidCat` filter state is a class, and the colour rotation of `getColor` is a
  class holding the shared `LastUsed`.
- **The AXML decoder** (`apk/xml.go`). It walks the chunks with Go's lenient
  `binary.Read`: a short read keeps the old value. It reports every error the source returns,
  and it tells apart a panic (`Crash`), a loop that never ends (`Hang`) and a walk that ran out
  of fuel (`Exhausted`).

Three shared modules model the parts of Go's standard library the core relies on:

- `GoText`: `strings.Split`, `Join`, `TrimSpace`, `Contains`, `Repeat`;
- `Strconv`: `ParseUint`, `ParseInt`, `%x`, `%04x`, `%d`;
- `Bytes`: little-endian `uint32` and `uint32(x)` truncation.

Go strings are Dafny strings with one char per byte. Wire bytes are `seq<byte>`.

Things the code does outside the program are inputs to the model:

- the network peer is the byte sequence the server will send;
- the output of a shell command is a sequence of lines;
- the output of the adb binary is a function of its arguments;
- the regexes other than `LOG_LINE` and `BUG_LINE` are functions from text to capture groups;
- colouring is a painter function.

In three places the code behaves in a way that is easy to misread; the model follows the code:

- The `SEND` header carries the file permission as a binary little-endian `uint32` after the
  comma, not as decimal digits. Its length field is `len(remote) + 5`.
- `SectionedMultiWriter.Write` accepts only as many bytes as fit in the buffer and returns that
  count. Its recursive branch can never run: the buffer is full whenever it takes fewer bytes
  than it was given.
- `Close` checks the buffer's capacity, which is never zero, so it always flushes. A push whose size is
  a multiple of 65536 is therefore followed by an empty `DATA` frame (`AdbSync.SectionsShape`).

## Model

| member | source | states |
|---|---|---|
| AdbConnection.UnframeFrame | adb/connection.go:91-95 | the server reads back exactly the framed command, and nothing of the bytes after it, for every command below 65536 bytes |
| AdbConnection.FrameLength | adb/connection.go:92 | the `%04x` prefix is exactly four bytes precisely when the command is shorter than 65536 bytes, and longer otherwise |
| AdbConnection.ReadFrom | adb/connection.go:136-144 | a read on an open socket delivers min(requested, available) bytes and keeps the buffer's length |
| AdbConnection.SocketRead | adb/connection.go:136-144 | a read on an open socket is `ReadFrom`; on a closed one it delivers nothing and a non-empty read fails |
| AdbConnection.StatusOkay | adb/connection.go:121-127 | the status check passes if and only if the socket is open and the next four bytes are `OKAY`; a short reply never passes, nor does a closed socket |
| AdbConnection.CommandSucceeds | adb/connection.go:91-104 | `WriteCmd` succeeds if and only if the socket is open and the reply is `OKAY`; an open socket receives exactly the frame; a closed one receives nothing, the cursor stays, and the error is "Could not write to ADB server" when the frame overflows the 4096-byte buffer and "Invalid connection CODE: UNKN" otherwise |
| AdbConnection.AdbConn.constructor | adb/connection.go:46 | a dialled connection has a socket and a reader, nothing sent and nothing read |
| AdbConnection.AdbConn.Detached | adb/connection.go:31-34 | the zero `AdbConn` has no socket and no reader |
| AdbConnection.AdbConn.ReadCode | adb/connection.go:112-119 | the next four bytes as text, or `UNKN` with the read error (at the end of the stream or on a closed socket); only the cursor moves |
| AdbConnection.AdbConn.VerifyOk | adb/connection.go:121-127 | the error is nothing exactly when the code read is `OKAY`; the cursor moves past the code |
| AdbConnection.AdbConn.WriteCmd | adb/connection.go:91-104 | the new outbound bytes, cursor, count and error are those of the exchange `CommandSucceeds` characterises |
| AdbConnection.AdbConn.TransportAny | adb/connection.go:49-53 | sends `host:transport-any` and reports the exchange's error |
| AdbConnection.AdbConn.TransportEmulator | adb/connection.go:55-59 | sends `host:transport-local` and reports the exchange's error |
| AdbConnection.AdbConn.TransportUsb | adb/connection.go:61-65 | sends `host:transport-usb` and reports the exchange's error |
| AdbConnection.AdbConn.TransportSerial | adb/connection.go:67-71 | sends `host:transport:<serial>` and reports the exchange's error |
| AdbConnection.AdbConn.Shell | adb/connection.go:73-77 | sends `shell:` then the arguments joined by spaces |
| AdbConnection.AdbConn.Log | adb/connection.go:79-83 | sends `log:` then the arguments joined by spaces |
| AdbConnection.AdbConn.ReadSize | adb/connection.go:85-89 | reads `bcount` bytes as `SocketRead` delivers them (zeros where the stream runs short or the socket is closed) and parses them as base-16 `ParseUint` |
| AdbConnection.AdbConn.ReadUint32 | adb/connection.go:106-110 | the next four bytes as `SocketRead` delivers them, decoded little-endian; the cursor moves by the bytes delivered |
| AdbConnection.AdbConn.Close | adb/connection.go:146-151 | the socket is closed and nothing else changes; a second close reports the socket's error, and a connection without a socket reports none |
| AdbConnection.SelectTransport | adb/connection.go:21-24 | a `Transporter`'s `Transport` sends the verb that selects its device |
| AdbConnection.Write | adb/connection.go:129-134 | a nil connection or one without a socket refuses with "Could not write"; an open socket takes every byte; a closed one takes none and reports its error |
| AdbConnection.Read | adb/connection.go:136-144 | a nil connection refuses with "Could not read"; otherwise a reader is made if missing and the read delivers as `SocketRead` states, failing on a closed socket |
| AdbUtil.Send | adb/util.go:22-33 | puts the framed command on an open socket; the error is nothing exactly when the status read succeeds with `OKAY`, and otherwise "invalid connection" |
| AdbUtil.SendAgreesWithWriteCmd | adb/util.go:22-33 | on an open or a closed socket `Send` and `WriteCmd` send the same bytes and accept the same replies |
| AdbUtil.ReadSize | adb/util.go:16-20 | `bcount` bytes from the reader parsed as base-16 |
| AdbUtil.ReadSizeHex04 | adb/util.go:16-20 | a length sent as `%04x` reads back as itself and uses exactly four bytes |
| Bytes.ToUint32 | adb/sync.go:95 | `uint32(x)` leaves values below 2^32 unchanged |
| Bytes.ToUint32Wraps | adb/sync.go:95 | `uint32(x)` differs from `x` by a multiple of 2^32 |
| Bytes.DecodeLE32Ends | adb/sync.go:11-15 | little-endian: the first byte is the lowest, the fourth the highest |
| Bytes.DecodeEncode | adb/sync.go:44 | decoding an encoded `uint32` gives it back |
| Bytes.EncodeDecode | adb/sync.go:14 | encoding a decoded four-byte word gives the bytes back |
| Bytes.TextAscii | adb/connection.go:118 | `string(b)` of the bytes of a byte string is that string |
| Bytes.AsciiText | adb/connection.go:88 | the bytes of `string(b)` are `b` |
| AdbSync.TagSpelling | adb/sync.go:43 | the byte tags spell `DATA`, `SEND`, `DONE`, `LIST`, `DENT` |
| AdbSync.TagCompare | adb/sync.go:51-54 | `string(b) == "DENT"` (or `"DONE"`) is byte equality with the tag |
| AdbSync.DataStreamRoundTrip | adb/sync.go:154-162 | a sequence of DATA frames decodes back into exactly the payloads it was made of |
| AdbSync.DataFrameSplit | adb/sync.go:156-158 | one DATA frame parses to its payload and leaves what follows |
| AdbSync.SendRoundTrip | adb/sync.go:116-122 | the SEND header's length field equals the bytes after it, and the device side recovers the path and the permission word |
| AdbSync.DoneRoundTrip | adb/sync.go:93-96 | the DONE frame carries the modification time modulo 2^32, exactly when it is below 2^32 |
| AdbSync.ListRoundTrip | adb/sync.go:42-46 | the LIST request carries the path, length-prefixed |
| AdbSync.SectionsShape | adb/sync.go:138-169 | the sections of a push are full 65536-byte sections followed by one shorter remainder, possibly empty, and add up to the file |
| AdbSync.SectionsUnique | adb/sync.go:138-169 | full sections followed by one short remainder are the only way to section their concatenation |
| AdbSync.SectionedMultiWriter.constructor | adb/sync.go:134-136 | an empty 65536-byte buffer over the given destinations |
| AdbSync.SectionedMultiWriter.Write | adb/sync.go:138-152 | copies as much of `b` as fits and returns that count; a buffer that fills is flushed as one full section and the section count goes up, otherwise the bytes wait in the buffer |
| AdbSync.SectionedMultiWriter.Flush | adb/sync.go:154-162 | one DATA frame of the buffered bytes goes to every destination, and the buffer empties |
| AdbSync.SectionedMultiWriter.Close | adb/sync.go:164-169 | always flushes, even an empty buffer, and never fails |
| AdbSync.WriterConserves | adb/sync.go:138-162 | no frame the writer emits declares more than 65536 bytes, and the frames plus the pending bytes are exactly the bytes accepted; it reads these facts out of `Valid()`, the invariant that `Write`, `Flush` and `Close` preserve |
| AdbSync.GetPushWriter | adb/sync.go:104-125 | fails exactly when the `sync:` reply is not `OKAY`; otherwise the connection carries the transport selection, `sync:` and the SEND header |
| AdbSync.OpenSync | adb/sync.go:105-114 | dials, selects the transport (its error is ignored) and sends `sync:` |
| AdbSync.PushAll | adb/sync.go:71-98 | the first failing device's error, and otherwise every device receives its handshake, the DATA frames of the file's sections and the DONE frame |
| AdbSync.OpenAll | adb/sync.go:77-84 | `GetPushWriter` for every device in order; the first failure is the result |
| AdbSync.FirstErrorMeaning | adb/sync.go:79-82 | the first error is nothing exactly when every device succeeds, and otherwise it is the earliest failure |
| AdbSync.Stream | adb/sync.go:86-91 | copying the file through the writer and closing it emits exactly the file's sections to every destination |
| AdbSync.Feed | adb/sync.go:86-90 | the 4096-byte writes of the whole file leave every emitted section full and accept the whole file |
| AdbSync.PushDelivers | adb/sync.go:86-91 | the frames every device receives decode to the sections, which add up to the file's contents |
| AdbSync.DentAt | adb/sync.go:17-27 | `parseDent` never moves the cursor backwards or past the end |
| AdbSync.U32At | adb/sync.go:11-15 | `readUInt32` never moves the cursor backwards or past the end |
| AdbSync.DentExact | adb/sync.go:17-27 | over a complete entry, `parseDent` reads exactly the three words, the length and the name |
| AdbSync.NextDent | adb/sync.go:49-54 | one turn of the loop over a complete DENT entry finds that entry and continues after it |
| AdbSync.ListDone | adb/sync.go:54-55 | the DONE tag ends the listing with the names collected so far |
| AdbSync.ListDecodes | adb/sync.go:48-59 | a well-formed listing of DENT entries then DONE yields exactly the entries' names in order |
| AdbSync.Ls | adb/sync.go:29-60 | fails with the `sync:` error, or sends the transport selection, `sync:` and the LIST request, and the listing is what the tag loop reads |
| AdbSync.ListTags | adb/sync.go:48-57 | on an open socket the tag loop from a zero buffer gives the listing `ListFrom` defines; on a closed one it never ends |
| AdbSync.ReadTag | adb/sync.go:50-56 | one turn of the tag loop reads a tag, and the entry after it when that tag is DENT |
| AdbSync.ReadUInt32 | adb/sync.go:11-15 | the value of the next four bytes, zeros where the stream ran short; 0 on a closed socket, with the cursor unmoved |
| AdbSync.ParseDent | adb/sync.go:17-27 | the entry's name and the cursor after it; on a closed socket an empty name and the cursor unmoved |
| AdbDevice.FoundIff | adb/device.go:160-165 | the loop of `stringInSlice` finds `a` exactly when it is in the list |
| AdbDevice.StringInSliceIff | adb/device.go:160-167 | an empty list admits every serial; otherwise the serial must be in the list |
| AdbDevice.MatchFilterMeaning | adb/device.go:169-184 | no filter admits every device; otherwise a device matches if and only if its SDK level is at least the minimum, at most the maximum (0 for none), its serial is listed (any, for an empty list) and its density equals the filter's (0 for any) |
| AdbDevice.RunEnd | adb/device.go:189 | the run `.` can match ends at the next newline or the end of the line |
| AdbDevice.LastClose | adb/device.go:189 | the greedy `(.*)\]` stops at the last `]`, or finds none |
| AdbDevice.LastSep | adb/device.go:189 | the greedy first group ends at the last place where the rest of the pattern can match |
| AdbDevice.MatchWhole | adb/device.go:189-198 | a line `[k]: [v]` with one newline-free run matches with groups `k` and `v` |
| AdbDevice.PropLineExact | adb/device.go:196-201 | a getprop line `[k]: [v]` gives back exactly `k` and `v` when neither holds `]` or a newline |
| AdbDevice.NoBracketNoMatch | adb/device.go:198-199 | a line without `[` never matches, so it sets no property |
| AdbDevice.PropsKeys | adb/device.go:186-204 | a key is in the property map exactly when some getprop line sets it |
| AdbDevice.PropsLastWins | adb/device.go:196-201 | the last line that sets a key decides its value |
| AdbDevice.PropValueSet | adb/device.go:206-208 | a property read from its last getprop line `[key]: [value]` is that value |
| AdbDevice.PropNumberSet | adb/device.go:264-269 | a numeric property printed as `[key]: [n]` reads back as `n` |
| AdbDevice.PropNumberUnset | adb/device.go:264-269 | a numeric property no line sets reads as 0 |
| AdbDevice.Device.constructor | adb/device.go:138 | a device with the given serial and every other field zero |
| AdbDevice.Device.Of | adb/adb.go:83 | a copy of a device value |
| AdbDevice.Device.RefreshProps | adb/device.go:186-204 | the property map is replaced by the map of the getprop lines, and nothing else changes |
| AdbDevice.Device.GetProp | adb/device.go:206-208 | the property's value, or "" when it is absent |
| AdbDevice.Device.Update | adb/device.go:246-270 | the device becomes the description of its serial from its getprop output |
| AdbDevice.Device.FindValue | adb/device.go:221-233 | true exactly when some output line contains the value |
| AdbDevice.Device.HasPackage | adb/device.go:210-212 | true exactly when some line of the package list contains the name |
| AdbDevice.Device.SetScreenOn | adb/device.go:214-219 | sends the power key once exactly when the screen's state differs from the one asked for, and nothing otherwise |
| AdbDevice.Device.Unlock | adb/device.go:239-244 | sends the menu key exactly when the lock screen shows |
| AdbDevice.DeviceWordNotBlank | adb/device.go:135 | a line containing "device" is never blank |
| AdbDevice.SerialBeforeTab | adb/device.go:136 | the serial of `serial\t...` is the text before the tab |
| AdbDevice.SerialsIff | adb/device.go:134-147 | every selected line yields its serial, and every serial comes from a selected line |
| AdbDevice.DescribesAt | adb/device.go:138-145 | the device listed for each serial is the one `Update` makes of that serial |
| AdbDevice.KeptIff | adb/device.go:151-156 | a device is kept if and only if it was discovered and passes the filter |
| AdbDevice.KeptAll | adb/device.go:151-156 | when every device passes, all are kept in their discovery order |
| AdbDevice.Discover | adb/device.go:134-149 | one new, updated device per selected line, in order |
| AdbDevice.NewDevice | adb/device.go:136-145 | a fresh device described from the serial of its line |
| AdbDevice.FilterDevices | adb/device.go:151-156 | the devices that pass the filter, in their original order |
| AdbDevice.ParseDevices | adb/device.go:127-158 | the updated devices of the lines containing "device", filtered, in order |
| AdbHost.ExecSync | adb/adb.go:57-77 | the output is the string items concatenated in order, and the error is the last error item |
| AdbHost.OutputAppend | adb/adb.go:72-73 | the output of two runs of items is the two outputs concatenated |
| AdbHost.StderrIgnored | adb/adb.go:69-74 | the `[]byte` stderr item (adb/adb.go:37) reaches neither the output nor the error; the stderr text sent as a string after a failed `Wait` is a `Line` and is appended |
| AdbHost.LastErrorMeaning | adb/adb.go:70-71 | there is no error exactly when no item is an error; otherwise it is an error item after which none follows |
| AdbHost.ListDevices | adb/adb.go:95-135 | fatal exactly when `adb devices` reports an error; otherwise the updated devices of the non-blank lines after the first, filtered, in order |
| AdbHost.HeadingSkipped | adb/adb.go:103-104 | the heading line of `adb devices` is never a device |
| AdbHost.FindFilterMatches | adb/adb.go:88-93 | `FindDevices` keeps devices with SDK level 0 to 21 among the serials asked for (any, when none) |
| AdbHost.FindDevices | adb/adb.go:88-93 | `ListDevices` with that filter |
| AdbHost.FindDevice | adb/adb.go:79-86 | a copy of the first device found, or the zero device |
| AdbLegacy.LatestValue | device.go:19-34 | `LATEST` is 12, below KITKAT |
| AdbLegacy.MatchFilterMeaning | device.go:92-103 | no filter admits every device; otherwise a device is rejected only when its level is both below the minimum and above the maximum, or its serial is not listed |
| AdbLegacy.SdkTestVacuous | device.go:97-98 | when the minimum is at most one above the maximum, only the serial decides |
| AdbLegacy.DeviceArgs | device.go:78-81 | the arguments become `-s <serial>` followed by the original ones |
| AdbLegacy.Prop | device.go:105-114 | the trimmed getprop output, or "" when the run fails |
| AdbLegacy.SdkRead | device.go:134-135 | the SDK level is the number getprop prints, surrounding white space ignored |
| AdbLegacy.SdkOnError | device.go:105-114 | a failed getprop leaves the SDK level 0 |
| AdbLegacy.Device.constructor | adb.go:49 | a device with the given serial and every other field zero |
| AdbLegacy.Device.Of | adb.go:19 | a copy of a device value |
| AdbLegacy.Device.Update | device.go:116-136 | the device becomes the description of its serial from the four getprop runs |
| AdbLegacy.KeptIff | adb.go:59-64 | a device is kept if and only if it was discovered and passes the filter |
| AdbLegacy.AdbDevices | adb.go:31-67 | fatal exactly when `adb devices` fails; otherwise the updated devices of the non-blank lines after the first, filtered, in order |
| AdbLegacy.NewDevices | adb.go:45-57 | one new, updated device per non-blank line, in order |
| AdbLegacy.NewDevice | adb.go:46-53 | a fresh device described from the serial of its line |
| AdbLegacy.Matching | adb.go:59-64 | the devices that pass the filter, in their original order |
| AdbLegacy.FindFilterIgnoresSdk | adb.go:24-29 | `FindDevices`' filter keeps every listed serial whatever its SDK level |
| AdbLegacy.FindDevices | adb.go:24-29 | `AdbDevices` with that filter |
| AdbLegacy.FindDevice | adb.go:15-22 | a copy of the first device found, or the zero device |
| GoText.TrimLeftShape | adb/device.go:135 | trimming drops exactly a leading run of white space, and what is left does not start with white space |
| GoText.TrimRightShape | adb/device.go:135 | trimming drops exactly a trailing run of white space, and what is left does not end with white space |
| GoText.TrimSpaceEmpty | adb/adb.go:111 | a line is blank exactly when it is all white space |
| GoText.TrimSpaceShape | pidcat/log.go:89 | the trimmed text sits inside the original and neither starts nor ends with white space |
| GoText.ContainsAt | adb/device.go:135 | `Contains` holds exactly when the text occurs at some position |
| GoText.SplitPieces | adb/device.go:128 | no piece of a split holds the separator |
| GoText.SplitRejoins | adb/device.go:128 | joining the pieces gives back the text |
| GoText.SplitJoin | adb/device.go:128 | splitting undoes joining when no part contains the separator |
| GoText.FirstPiece | adb/device.go:136 | the first piece is the text before the first separator |
| GoText.HeaderDropped | adb/adb.go:103-104 | dropping the first piece drops exactly the first line |
| GoText.Spaces | pidcat/main.go:194 | `strings.Repeat(" ", n)` is `n` spaces |
| Strconv.Scan | adb/connection.go:88 | the digit loop never exceeds the uint64 range and only grows its value |
| Strconv.ParseInt | adb/device.go:264 | the value stays in the int64 range, and is 0 on a syntax error |
| Strconv.ParseFormat | adb/connection.go:88 | `ParseUint` inverts `%x` and `%d` |
| Strconv.ParseHex04 | adb/connection.go:92 | `ParseUint` inverts `%04x` on every value |
| Strconv.Hex04Width | adb/connection.go:92 | `%04x` is exactly four hex digits for every value below 65536 and longer from there on |
| Strconv.HexWidth | adb/connection.go:92 | `%x` of `n` has at most `k` digits exactly when `n < 16^k` |
| Strconv.ScanZeros | adb/connection.go:88 | leading zeros do not change what `ParseUint` reads |
| Strconv.HexParseIff | adb/connection.go:85-89 | up to 16 characters parse without error exactly when they are non-empty and all hex digits |
| Strconv.ParseIntDecimal | adb/device.go:264 | `ParseInt` reads back every non-negative `%d` in the int64 range |
| Strconv.DecimalChars | apk/xml.go:159 | `%d` writes only the digits 0 to 9 |
| PidcatLog.SpacesEndAll | pidcat/log.go:23 | everything up to the end of the ` *` run is a space, and the run is maximal |
| PidcatLog.DigitsEndAll | pidcat/log.go:23 | everything up to the end of the `\d+` run is a digit, and the run is maximal |
| PidcatLog.FirstTailFirst | pidcat/log.go:23 | the lazy tag group ends at the first place where the rest of the line matches, and nowhere earlier |
| PidcatLog.LogMatchShape | pidcat/log.go:23 | a match is a newline-free line of an upper-case level, `/`, a non-empty tag and a tail `( pid): msg`, with no shorter tag leaving a matching tail |
| PidcatLog.TailOfLogText | pidcat/log.go:23 | the tail of a printed line matches with its pid and message |
| PidcatLog.LogMatchText | pidcat/log.go:23 | a printed logcat line whose tag holds no `(` gives back its level, tag, pid and message |
| PidcatLog.FirstTailSkips | pidcat/log.go:23 | no tail can start inside a tag holding no `(` |
| PidcatLog.Death | pidcat/log.go:37-62 | only an ActivityManager line yields a death; KILL, LEAVE and DEATH are tried in that order, and the result is (pid, package) with KILL's groups swapped |
| PidcatLog.ParseLine | pidcat/log.go:64-96 | nothing for a bug line or a line that does not match; otherwise a process start, else a process stop, else a log line with the trimmed tag |
| PidcatLog.ParseLogText | pidcat/log.go:64-96 | parsing a printed non-ActivityManager line that no start pattern matches gives back its fields |
| Pidcat.Rotate | pidcat/main.go:148 | a rotation keeps the length |
| Pidcat.RotatePermutes | pidcat/main.go:148 | a rotation neither loses nor adds a colour |
| Pidcat.RotatedShape | pidcat/main.go:148 | after `k` rotations (at most one full turn) the first `k` colours have moved to the back |
| Pidcat.RotatedAdd | pidcat/main.go:148 | `a` rotations then `b` are `a + b` rotations |
| Pidcat.RotationCycle | pidcat/main.go:148 | the colours come round again after one rotation per colour |
| Pidcat.TurnColor | pidcat/main.go:42-44 | the `k`-th colour handed out for unknown tags is `PALETTE[k % 6]` |
| Pidcat.UsedAfter | pidcat/main.go:142-150 | `LastUsed` after `getColor` is unchanged for a known tag and rotated otherwise, always a permutation |
| Pidcat.Palette.constructor | pidcat/main.go:42-44 | the rotation starts as red, green, yellow, blue, magenta, cyan |
| Pidcat.Palette.GetColor | pidcat/main.go:142-150 | a known tag's fixed colour, or the front colour of the rotation, which then turns |
| Pidcat.MatchesPid | pidcat/main.go:97-103 | every pid matches when there is no app filter (nil or empty); otherwise only filtered pids match |
| Pidcat.MatchesPackage | pidcat/main.go:105-111 | every package matches when there is no app filter; otherwise only filtered ones match |
| Pidcat.ParseDeath | pidcat/main.go:113-140 | the (pid, package) of a recognised death whose package and pid pass the filters, and ("", "") otherwise |
| Pidcat.FiltersChange | pidcat/main.go:159-172 | a pid joins the filter only from a start line of a filtered package, and leaves it only through a recognised death of that pid |
| Pidcat.TagColumn | pidcat/main.go:189-194 | the tag column is exactly the tag width: the tag left-padded with spaces, or cut |
| Pidcat.PsPidsIff | pidcat/main.go:85-92 | a pid is taken exactly when some `ps` line names a filtered app with that pid |
| Pidcat.ParsedPrefix | pidcat/main.go:85-87 | the `ps` lines taken are those before the first line `PID_PARSER` does not match |
| Pidcat.PidCat.constructor | pidcat/main.go:56-61 | empty, non-nil app and pid filters with the given settings |
| Pidcat.PidCat.SetAppFilters | pidcat/main.go:67-76 | a single empty name clears the filter to nil; otherwise the filter is the set of names given |
| Pidcat.PidCat.UpdateAppFilters | pidcat/main.go:78-95 | without a filter nothing happens; otherwise the pids of the `ps` lines naming filtered apps are added, and a line the parser does not match panics |
| Pidcat.PidCat.Track | pidcat/main.go:159-176 | the pid filter after a matching process start and then a recognised death |
| Pidcat.PidCat.Render | pidcat/main.go:185-199 | a new tag is painted in the next colour and becomes the last tag; a repeated tag is blanked |
| Pidcat.PidCat.Sprint | pidcat/main.go:152-202 | nothing for ignored lines; otherwise the filter update, then the ended message, the raw line, nothing, or the pretty line, as the source's branches decide |
| Axml.Fwd | apk/xml.go:58-170 | a non-value outcome carried to another type unchanged |
| Axml.ComputeIndent | apk/xml.go:174-178 | the indent is `min(2·indent, 45)` spaces, with `2·indent` wrapping as a uint32 |
| Axml.IndentWidth | apk/xml.go:174-178 | the indent is all spaces: twice the depth up to depth 22, and 45 from there to 2^31 |
| Axml.StringAt | apk/xml.go:183-207 | index `0xffffffff` is ""; an index past the offsets read panics; otherwise the table text or a hang |
| Axml.TableCharsNonZero | apk/xml.go:190-204 | the byte loop collects the first `need` non-zero bytes, and never ends when there are fewer |
| Axml.StringAtNoNul | apk/xml.go:198-202 | a string read from the table never holds a NUL byte |
| Axml.CompXmlStringAt | apk/xml.go:183-207 | the loop computes `StringAt` |
| Axml.ReadTableText | apk/xml.go:187-206 | the byte loop computes the table text |
| Axml.OffsetsAt | apk/xml.go:99-103 | offset `i` is the word at four times `i` past the first offset |
| Axml.StringsFields | apk/xml.go:93-104 | the strings chunk sets the count, appends that many offsets read in order, and recomputes the data offset as `0x24 + 4·count` |
| Axml.ReadStrings | apk/xml.go:93-104 | the read loop computes `Strings` |
| Axml.Attr | apk/xml.go:146-161 | an attribute is text, a panic or a hang, never an error |
| Axml.Attrs | apk/xml.go:145-162 | an attribute run is text, a panic or a hang, never an error |
| Axml.AttrsStop | apk/xml.go:145-162 | once an attribute fails, every longer run fails the same way |
| Axml.Attributes | apk/xml.go:145-162 | the loop computes `Attrs` |
| Axml.StartTagText | apk/xml.go:138-165 | a start tag appends its indented opening to the text and goes one level deeper |
| Axml.EndTagText | apk/xml.go:106-109 | an end tag goes one level up and appends its closing, indented at the new level |
| Axml.ChunkChecks | apk/xml.go:59-169 | what each kind of chunk does: the missing marker error, the unknown-chunk error, the flag error and its offset, the chunks passed over, the strings chunk, and the indent moves |
| Axml.ReadEndTag | apk/xml.go:106-109 | the end-tag branch computes `EndTag` |
| Axml.ReadStartTag | apk/xml.go:131-165 | the start-tag branch computes `StartTag` |
| Axml.ReadOpenTag | apk/xml.go:140-165 | the attribute loop and tag text compute `OpenTag` |
| Axml.Chunk | apk/xml.go:59-167 | one turn of the loop computes `ChunkStep` |
| Axml.Decode | apk/xml.go:44-54 | a wrong header word is the header error and nothing else is; past it the size error comes exactly when the declared size is not the length |
| Axml.WalkNotHeader | apk/xml.go:58-170 | the chunk walk never reports the header or size errors |
| Axml.WalkStep | apk/xml.go:58-170 | one chunk of the walk, then the walk from the offset advanced by the chunk's size as a uint32 |
| Axml.Unmarshal | apk/xml.go:37-170 | the loop computes `Decode` |
| Axml.Advance | apk/xml.go:58-170 | one turn of the loop either ends with the walk's outcome or continues it with less fuel |
| Axml.HeaderOnly | apk/xml.go:44-58 | a file holding only its header decodes to no text |
| Axml.ZeroSizeNeverEnds | apk/xml.go:58-168 | a marked namespace chunk of declared size 0 is read again and again, so the walk never finishes |
| Axml.IndentCount | apk/xml.go:107-165 | the indent moves by the start tags less the end tags, modulo 2^32 |
| Axml.Balanced | apk/xml.go:107-165 | as many end tags as start tags bring the indent back, in any order |
| Axml.ChunkIndent | apk/xml.go:107-165 | a decoded start-tag chunk goes one level deeper, an end-tag chunk one up, and any other chunk leaves the indent alone |
| Axml.RunWalk | apk/xml.go:58-170 | the walk's text is the output of the state the chunk walk ends in, and it stops with the same error, panic or hang |
| Axml.RunIndent | apk/xml.go:58-170 | after a decoded walk the indent is the start indent moved by the walk's own start and end tag chunks, in order |
| Axml.RunIndentCount | apk/xml.go:58-170 | after a decoded walk the indent is the start indent plus its start tags less its end tags, modulo 2^32 |
| Axml.RunBalanced | apk/xml.go:58-170 | a decoded file with as many end tags as start tags ends at the indent it started from |

## Left out

- `Dial` and `getConnection` open TCP sockets. They are not modelled: a connection is built over the bytes the server will send.
- The goroutines and channels of `Exec`, `Shell`, `ShellSync`, `WaitFor` and the `WaitGroup` of device discovery are sequentialised. Channel lines are given as sequences; a nil channel line is not modelled.
- Running processes (`exec.Command`, `adb` on the `PATH`) is not modelled: its output is a parameter.
- `Device.Type` uses floating point and the screen size; `Height` and `Width` are never set by the core. Neither is modelled.
- `Device.Transport`, `Device.String` and `SdkVersion.String` only format text, and are not modelled.
- The regexes `PID_START`, `PID_KILL`, `PID_LEAVE`, `PID_DEATH` and `PID_PARSER` are parameters, not matchers; `BACKTRACE_LINE` is unused by the core.
- `fatih/color` output is a painter parameter; terminal escape codes are not modelled.
- `PushAll`'s `os.File.Stat` becomes the permission word and the modification time as parameters; the file's contents are a byte sequence.
- `PushAll` hands the file to the writer through `bufio.Writer.ReadFrom`, which passes only full 4096-byte buffers on and the rest at the final `Flush`, whatever sizes the file's reads come in; the model feeds those 4096-byte pieces directly (`AdbSync.Feed`) and leaves the individual reads of the file out.
- Write errors on the individual destinations of `io.MultiWriter` are not modelled: every destination takes every byte.
- `parseDent` prints the entry's name; the model returns it instead.
- `Ls` at the end of the stream loops forever in the source; the model reports this as `Hang` rather than looping.
- `fmt.Println` of the output before `log.Fatal` in `ListDevices` is not modelled; `log.Fatal` is the `fatal` result.
- The final `xml.Unmarshal` into a manifest in `apk/xml.go` is not modelled: the result is the XML text. `apk/apk.go` and `apk/example/parse.go` are not part of this model.
- The stray token `manifest` after the offsets loop in `apk/xml.go:103` would not compile in Go; the model reads it as if absent.
- AXML text chunks and namespace chunks are passed over, as the source does; no Unicode (UTF-16) decoding is modelled, as the source reads single bytes.
- Axml.Decode: the chunk walk takes a fuel bound, because an offset that does not grow (size 0, or wrap-around) loops forever in the source; a walk that runs out of fuel is `Exhausted`.
- Pidcat.PidCat.constructor: the tag width is a `nat`; a negative width, on which Go's `strings.Repeat` panics, is not modelled.
- `TagFilters` and `HeaderOffset` are declared but never read by the core, and are not modelled.
- The start message that `Sprint` formats in pretty mode is discarded by the source, and the newline written to its buffer is never returned; the model omits both.
- `unicode.IsSpace` beyond ASCII white space is not modelled; strings are one char per byte.
- AdbConnection.Read: a connection with no socket is required to have one; in the source a read without a socket dereferences a nil reader.
- AdbConnection.Read: a closed socket delivers nothing in the model. In the source, bytes that the `bufio.Reader` had already buffered before the close would still be delivered; since every model read takes exactly what it asks for, nothing is ever buffered ahead.
- AdbConnection.ReadFrom: a read delivers `min(|p|, bytes left)`, so it comes up short only at the end of the stream. A socket may hand `bufio.Reader.Read` a partial segment at any point, and the source would then misread a status, a size, a sync header or a directory entry. Those mid-stream short reads are not modelled.
- AdbConnection.AdbConn.WriteCmd: requires a socket unless the framed command overflows the 4096-byte buffer, and so do `TransportAny`, `TransportEmulator`, `TransportUsb`, `TransportSerial`, `Shell`, `Log` and `SelectTransport`. When the command overflows it, a connection without a socket fails with "Could not write to ADB server", as the source does. A shorter command on a connection without a socket goes on to read the status through a reader over a nil socket, which panics in the source and is not modelled.
- AdbConnection.AdbConn.ReadCode: requires a socket, as `VerifyOk` does, because of the same nil-reader panic.
