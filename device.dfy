/**
 * The device model of `adb/device.go`: device filters, the getprop property parser, the
 * key-event helpers and the discovery of devices from `adb devices` output.
 */
module AdbDevice {
  import opened Wrappers
  import opened GoText
  import Strconv

  // ---- SDK levels: ECLAIR is iota + 7 and each following name one more ----

  const ECLAIR := 7
  const KITKAT := 19
  const WEAR := 20
  const LOLLIPOP := 21
  const LATEST := LOLLIPOP

  /** `DeviceFilter`; a nil filter is `None`. A zero `maxSdk` or `density` places no bound. */
  datatype DeviceFilter = DeviceFilter(kind: int, serials: seq<string>, density: int, minSdk: int, maxSdk: int)

  /** `AllDevices`. */
  const ALL_DEVICES := DeviceFilter(0, [], 0, 0, LATEST)

  /** The fields of a `Device` that the core reads and writes. */
  datatype DeviceInfo = DeviceInfo(serial: string, manufacturer: string, model: string, version: string,
                                   sdk: int, density: int, properties: map<string, string>)

  /** The zero `Device`. */
  const ZERO_DEVICE := DeviceInfo("", "", "", "", 0, 0, map[])

  // ---- filters ----

  /** The loop of `stringInSlice`: it stops with true at the first element equal to `a`. */
  predicate Found(a: string, list: seq<string>)
    decreases |list|
  {
    list != [] && (list[0] == a || Found(a, list[1..]))
  }

  /** `stringInSlice`: found in the list, or the list is empty. */
  predicate StringInSlice(a: string, list: seq<string>) {
    Found(a, list) || |list| == 0
  }

  lemma {:induction false} FoundIff(a: string, list: seq<string>)
    ensures Found(a, list) <==> a in list
    decreases |list|
  {
    if list != [] {
      FoundIff(a, list[1..]);
      assert list == [list[0]] + list[1..];
    }
  }

  /** An empty list admits every serial; otherwise the serial must be one of the list. */
  lemma StringInSliceIff(a: string, list: seq<string>)
    ensures StringInSlice(a, list) <==> list == [] || a in list
  {
    FoundIff(a, list);
  }

  /** `MatchFilter`: the four tests in the source's order, each able to reject. */
  function MatchFilter(d: DeviceInfo, filter: Option<DeviceFilter>): bool {
    if filter == None then true
    else
      var f := filter.value;
      if d.sdk < f.minSdk then false
      else if f.maxSdk != 0 && d.sdk > f.maxSdk then false
      else if !StringInSlice(d.serial, f.serials) then false
      else if f.density != 0 && f.density != d.density then false
      else true
  }

  /**
   * No filter admits every device; a filter admits a device exactly when its SDK level is within
   * the bounds (a maximum of 0 meaning none), its serial is one of the list (any, for an empty
   * list) and its density is the one asked for (any, for 0).
   */
  lemma MatchFilterMeaning(d: DeviceInfo, filter: Option<DeviceFilter>)
    ensures filter == None ==> MatchFilter(d, filter)
    ensures filter != None ==> (MatchFilter(d, filter) <==>
      var f := filter.value;
      f.minSdk <= d.sdk && (f.maxSdk == 0 || d.sdk <= f.maxSdk) &&
      (f.serials == [] || d.serial in f.serials) && (f.density == 0 || f.density == d.density))
  {
    if filter != None {
      StringInSliceIff(d.serial, filter.value.serials);
    }
  }

  // ---- the getprop line pattern \[(.*)\]: \[(.*)\] ----

  /** Where the run of chars `.` can match from `p` ends: at the next newline or the end of the line. */
  function RunEnd(line: string, p: nat): (e: nat)
    requires p <= |line|
    ensures p <= e <= |line| && (e == |line| || line[e] == '\n')
    ensures forall m :: p <= m < e ==> line[m] != '\n'
    decreases |line| - p
  {
    if p == |line| || line[p] == '\n' then p else RunEnd(line, p + 1)
  }

  /** The last `]` in `line[lo..hi]`: where a greedy `(.*)\]` stops. */
  function LastClose(line: string, lo: nat, hi: nat): (r: Option<nat>)
    requires lo <= hi <= |line|
    ensures r.Some? ==> lo <= r.value < hi && line[r.value] == ']'
    ensures r.Some? ==> forall m :: r.value < m < hi ==> line[m] != ']'
    ensures r.None? ==> forall m :: lo <= m < hi ==> line[m] != ']'
    decreases hi
  {
    if hi == lo then None
    else if line[hi - 1] == ']' then Some(hi - 1)
    else LastClose(line, lo, hi - 1)
  }

  const SEPARATOR := "]: ["

  /** The first group may end at `j`: the separator follows there, and a `]` after it, before `e`. */
  predicate SepAt(line: string, j: nat, e: nat)
    requires e <= |line|
  {
    j + 4 <= e && line[j..j + 4] == SEPARATOR && LastClose(line, j + 4, e).Some?
  }

  /** The greedy first group: the last end in `lo..j` that lets the rest of the pattern match. */
  function LastSep(line: string, lo: nat, j: int, e: nat): (r: Option<nat>)
    requires e <= |line|
    ensures r.Some? ==> lo <= r.value <= j && SepAt(line, r.value, e)
    ensures r.Some? ==> forall m :: r.value < m <= j ==> !SepAt(line, m, e)
    ensures r.None? ==> forall m :: lo <= m <= j ==> !SepAt(line, m, e)
    decreases if j < lo then 0 else j - lo + 1
  {
    if j < lo then None
    else if SepAt(line, j, e) then Some(j)
    else LastSep(line, lo, j - 1, e)
  }

  /** A match of the pattern starting at `i`, with its two groups, as a backtracking matcher finds it. */
  function MatchAt(line: string, i: nat): Option<(string, string)>
    requires i < |line|
  {
    if line[i] != '[' then None
    else
      var e := RunEnd(line, i + 1);
      match LastSep(line, i + 1, e - 4, e)
      case None => None
      case Some(j) =>
        var k := LastClose(line, j + 4, e).value;
        Some((line[i + 1..j], line[j + 4..k]))
  }

  /** The leftmost match at or after `i`. */
  function FirstMatch(line: string, i: nat): Option<(string, string)>
    requires i <= |line|
    decreases |line| - i
  {
    if i == |line| then None
    else
      match MatchAt(line, i)
      case Some(g) => Some(g)
      case None => FirstMatch(line, i + 1)
  }

  /** `proprx.FindSubmatch(line)` reduced to its two groups, or `None` when the line does not match. */
  function PropLine(line: string): Option<(string, string)> {
    FirstMatch(line, 0)
  }

  /**
   * A line that opens with `[`, has no newline, has the separator at `j0` and no `]` after it but
   * the final char matches with the groups around the separator.
   */
  lemma MatchWhole(line: string, j0: nat)
    requires j0 + 5 <= |line| && line[0] == '[' && line[j0..j0 + 4] == SEPARATOR && line[|line| - 1] == ']'
    requires forall m :: 1 <= m < |line| ==> line[m] != '\n'
    requires forall m :: j0 + 4 <= m < |line| - 1 ==> line[m] != ']'
    ensures MatchAt(line, 0) == Some((line[1..j0], line[j0 + 4..|line| - 1]))
  {
    var n := |line|;
    assert RunEnd(line, 1) == n;
    assert LastClose(line, j0 + 4, n) == Some(n - 1);
    assert LastSep(line, 1, n - 4, n) == Some(j0) by {
      forall m | j0 < m <= n - 4
        ensures !SepAt(line, m, n)
      {
        if m < j0 + 4 {
          assert line[m] == SEPARATOR[m - j0] != ']';
        }
        assert line[m..m + 4][0] != ']';
      }
      LastSepAt(line, 1, n - 4, n, j0);
    }
    assert MatchAt(line, 0) == Some((line[1..j0], line[j0 + 4..n - 1]));
  }

  /** The greedy search finds `j0` once no later end fits. */
  lemma {:induction false} LastSepAt(line: string, lo: nat, j: int, e: nat, j0: nat)
    requires e <= |line| && lo <= j0 <= j && SepAt(line, j0, e)
    requires forall m :: j0 < m <= j ==> !SepAt(line, m, e)
    ensures LastSep(line, lo, j, e) == Some(j0)
    decreases j - j0
  {
    if j > j0 {
      LastSepAt(line, lo, j - 1, e, j0);
    }
  }

  /** A getprop line `[k]: [v]` gives back exactly `k` and `v` when neither holds a `]` or a newline. */
  lemma PropLineExact(k: string, v: string)
    requires ']' !in k && '\n' !in k && ']' !in v && '\n' !in v
    ensures PropLine("[" + k + SEPARATOR + v + "]") == Some((k, v))
  {
    var line := "[" + k + SEPARATOR + v + "]";
    var n := |line|;
    var j0 := |k| + 1;
    assert line[1..j0] == k;
    assert line[j0..j0 + 4] == SEPARATOR;
    assert line[j0 + 4..n - 1] == v;
    forall m | 1 <= m < n
      ensures line[m] != '\n'
    {
      if m < j0 {
        assert line[m] == line[1..j0][m - 1];
      } else if j0 + 4 <= m < n - 1 {
        assert line[m] == line[j0 + 4..n - 1][m - j0 - 4];
      } else if m < j0 + 4 {
        assert line[m] == line[j0..j0 + 4][m - j0];
      }
    }
    forall m | j0 + 4 <= m < n - 1
      ensures line[m] != ']'
    {
      assert line[m] == line[j0 + 4..n - 1][m - j0 - 4];
    }
    MatchWhole(line, j0);
  }

  /** A line without `[` never matches. */
  lemma {:induction false} NoBracketNoMatch(line: string, i: nat)
    requires i <= |line| && '[' !in line
    ensures FirstMatch(line, i) == None
    decreases |line| - i
  {
    if i < |line| {
      assert line[i] != '[';
      NoBracketNoMatch(line, i + 1);
    }
  }

  // ---- properties ----

  /** The line sets property `key`. */
  predicate SetsKey(line: string, key: string) {
    PropLine(line).Some? && PropLine(line).value.0 == key
  }

  /** The map `RefreshProps` builds from the getprop output, line by line. */
  function PropsOf(lines: seq<string>): map<string, string>
    decreases |lines|
  {
    if lines == [] then map[]
    else
      var m := PropsOf(lines[..|lines| - 1]);
      match PropLine(lines[|lines| - 1])
      case Some((k, v)) => m[k := v]
      case None => m
  }

  /** A key is present exactly when some line sets it. */
  lemma {:induction false} PropsKeys(lines: seq<string>, key: string)
    ensures key in PropsOf(lines) <==> exists i :: 0 <= i < |lines| && SetsKey(lines[i], key)
    decreases |lines|
  {
    if lines != [] {
      var init := lines[..|lines| - 1];
      PropsKeys(init, key);
      assert forall i :: 0 <= i < |init| ==> init[i] == lines[i];
    }
  }

  /** The last line that sets a key decides its value. */
  lemma {:induction false} PropsLastWins(lines: seq<string>, i: nat, key: string, value: string)
    requires i < |lines| && PropLine(lines[i]) == Some((key, value))
    requires forall j :: i < j < |lines| ==> !SetsKey(lines[j], key)
    ensures key in PropsOf(lines) && PropsOf(lines)[key] == value
    decreases |lines|
  {
    var init := lines[..|lines| - 1];
    if i < |lines| - 1 {
      assert !SetsKey(lines[|lines| - 1], key);
      assert forall j :: i < j < |init| ==> init[j] == lines[j];
      PropsLastWins(init, i, key, value);
    }
  }

  /** A map lookup with Go's zero value for a missing key. */
  function Lookup(m: map<string, string>, key: string): string {
    if key in m then m[key] else ""
  }

  const MANUFACTURER := "ro.product.manufacturer"
  const MODEL := "ro.product.model"
  const RELEASE := "ro.build.version.release"
  const SDK := "ro.build.version.sdk"
  const DENSITY := "ro.sf.lcd_density"

  /** `strconv.ParseInt(GetProp(key), 10, 0)` with its error dropped. */
  function PropNumber(props: map<string, string>, key: string): int {
    Strconv.ParseInt(Lookup(props, key)).value
  }

  /** What `Update` leaves in the device with this serial, from its getprop output. */
  function Describe(serial: string, out: seq<string>): DeviceInfo {
    var p := PropsOf(out);
    DeviceInfo(serial, Lookup(p, MANUFACTURER), Lookup(p, MODEL), Lookup(p, RELEASE),
               PropNumber(p, SDK), PropNumber(p, DENSITY), p)
  }

  /** A property read from its last getprop line `[key]: [value]`. */
  lemma PropValueSet(out: seq<string>, i: nat, key: string, value: string)
    requires ']' !in key && '\n' !in key && ']' !in value && '\n' !in value
    requires i < |out| && out[i] == "[" + key + SEPARATOR + value + "]"
    requires forall j :: i < j < |out| ==> !SetsKey(out[j], key)
    ensures Lookup(PropsOf(out), key) == value
  {
    PropLineExact(key, value);
    PropsLastWins(out, i, key, value);
  }

  /** A number property read from its last getprop line `[key]: [n]`. */
  lemma PropNumberSet(out: seq<string>, i: nat, key: string, n: nat)
    requires ']' !in key && '\n' !in key && n <= Strconv.MAX_INT64
    requires i < |out| && out[i] == "[" + key + SEPARATOR + Strconv.Decimal(n) + "]"
    requires forall j :: i < j < |out| ==> !SetsKey(out[j], key)
    ensures PropNumber(PropsOf(out), key) == n
  {
    var d := Strconv.Decimal(n);
    assert Lookup(PropsOf(out), key) == d by {
      assert ']' !in d && '\n' !in d by {
        Strconv.DecimalChars(n);
      }
      PropValueSet(out, i, key, d);
    }
    assert Strconv.ParseInt(d) == Strconv.Num(n, None) by {
      Strconv.ParseIntDecimal(n);
    }
  }

  /** A number property no line sets is 0. */
  lemma PropNumberUnset(out: seq<string>, key: string)
    requires forall j :: 0 <= j < |out| ==> !SetsKey(out[j], key)
    ensures PropNumber(PropsOf(out), key) == 0
  {
    PropsKeys(out, key);
  }

  // ---- devices ----

  /** `Device`, with the fields the core updates. */
  class Device {
    var serial: string
    var manufacturer: string
    var model: string
    var version: string
    var sdk: int
    var density: int
    var properties: map<string, string>

    function Info(): DeviceInfo
      reads this
    {
      DeviceInfo(serial, manufacturer, model, version, sdk, density, properties)
    }

    /** `&Device{Serial: serial}`: every other field at its zero value. */
    constructor (serial: string)
      ensures Info() == ZERO_DEVICE.(serial := serial)
    {
      this.serial := serial;
      manufacturer, model, version := "", "", "";
      sdk, density := 0, 0;
      properties := map[];
    }

    /** A copy of a device value, as `*devices[0]`. */
    constructor Of(info: DeviceInfo)
      ensures Info() == info
    {
      serial, manufacturer, model, version := info.serial, info.manufacturer, info.model, info.version;
      sdk, density, properties := info.sdk, info.density, info.properties;
    }

    /** `RefreshProps` over the output lines of `getprop`: a new map, one entry per matching line. */
    method RefreshProps(out: seq<string>)
      modifies this
      ensures Info() == old(Info()).(properties := PropsOf(out))
    {
      properties := map[];
      var i := 0;
      while i < |out|
        invariant 0 <= i <= |out|
        invariant Info() == old(Info()).(properties := PropsOf(out[..i]))
      {
        var matches := PropLine(out[i]);
        if matches.Some? {
          properties := properties[matches.value.0 := matches.value.1];
        }
        assert out[..i + 1][..i] == out[..i];
        i := i + 1;
      }
      assert out[..|out|] == out;
    }

    /** `GetProp`: the property's value; an absent key reads as "". */
    function GetProp(prop: string): (r: string)
      reads this
      ensures prop in properties ==> r == properties[prop]
      ensures prop !in properties ==> r == ""
    {
      Lookup(properties, prop)
    }

    /** `Update` with the device's getprop output: properties, then the five derived fields. */
    method Update(out: seq<string>)
      modifies this
      ensures Info() == Describe(old(serial), out)
    {
      RefreshProps(out);
      var fields := [GetProp(MANUFACTURER), GetProp(MODEL), GetProp(RELEASE), GetProp(SDK), GetProp(DENSITY)];
      manufacturer := fields[0];
      model := fields[1];
      version := fields[2];
      sdk := Strconv.ParseInt(fields[3]).value;
      density := Strconv.ParseInt(fields[4]).value;
    }

    /** `findValue` over the output lines of the shell command: whether some line contains `val`. */
    method FindValue(val: string, out: seq<string>) returns (current: bool)
      ensures current <==> Shows(out, val)
    {
      current := false;
      var i := 0;
      while i < |out|
        invariant 0 <= i <= |out| && !current
        invariant forall j :: 0 <= j < i ==> !Contains(out[j], val)
      {
        current := Contains(out[i], val);
        if current {
          break;
        }
        i := i + 1;
      }
    }

    /** `HasPackage` over the output of `pm list packages -3`. */
    method HasPackage(pack: string, out: seq<string>) returns (r: bool)
      ensures r <==> Shows(out, pack)
    {
      r := FindValue(pack, out);
    }

    /**
     * `SetScreenOn` over the output of `dumpsys input_method`: the shell commands it runs.
     * The power key is sent when the screen-off marker's presence equals `on`.
     */
    method SetScreenOn(on: bool, out: seq<string>) returns (sent: seq<seq<string>>)
      ensures sent == if Shows(out, SCREEN_OFF) == on then [KeyCommand(POWER_KEY)] else []
    {
      var current := FindValue(SCREEN_OFF, out);
      sent := [];
      if (current && on) || (!current && !on) {
        sent := [KeyCommand(POWER_KEY)];
      }
    }

    /** `Unlock` over the output of `dumpsys activity`: the menu key when the lock screen shows. */
    method Unlock(out: seq<string>) returns (sent: seq<seq<string>>)
      ensures sent == if Shows(out, LOCK_SHOWN) then [KeyCommand(MENU_KEY)] else []
    {
      var current := FindValue(LOCK_SHOWN, out);
      sent := [];
      if current {
        sent := [KeyCommand(MENU_KEY)];
      }
    }
  }

  /** Some output line contains `val`. */
  predicate Shows(out: seq<string>, val: string) {
    exists i :: 0 <= i < |out| && Contains(out[i], val)
  }

  const SCREEN_OFF := "mScreenOn=false"
  const LOCK_SHOWN := "mLockScreenShown true"
  const POWER_KEY := 26
  const MENU_KEY := 82

  /** The shell command of `SendKey`. */
  function KeyCommand(key: nat): seq<string> {
    ["input", "keyevent", Strconv.Decimal(key)]
  }

  // ---- discovery ----

  /**
   * A line of `adb devices` output that yields a device: not blank, and for `ParseDevices`
   * (`needWord`) also containing "device".
   */
  predicate Candidate(line: string, needWord: bool) {
    (!needWord || Contains(line, "device")) && TrimSpace(line) != ""
  }

  /** `strings.Split(line, "\t")[0]`. */
  function SerialOf(line: string): string {
    Split(line, '\t')[0]
  }

  /** The line test of `ParseDevices` (`needWord`) or of `ListDevices`. */
  function Selects(needWord: bool): string -> bool {
    line => Candidate(line, needWord)
  }

  /** The serials of the lines that pass `keep`, in order. */
  function Serials(lines: seq<string>, keep: string -> bool): seq<string>
    decreases |lines|
  {
    if lines == [] then []
    else
      var last := lines[|lines| - 1];
      Serials(lines[..|lines| - 1], keep) + (if keep(last) then [SerialOf(last)] else [])
  }

  /** The devices after `Update`, one per serial, with the getprop output `props` gives for it. */
  function Describes(serials: seq<string>, props: string -> seq<string>): (r: seq<DeviceInfo>)
    ensures |r| == |serials|
    decreases |serials|
  {
    if serials == [] then []
    else
      var last := serials[|serials| - 1];
      Describes(serials[..|serials| - 1], props) + [Describe(last, props(last))]
  }

  lemma DescribesAppend(serials: seq<string>, s: string, props: string -> seq<string>)
    ensures Describes(serials + [s], props) == Describes(serials, props) + [Describe(s, props(s))]
  {
    assert (serials + [s])[..|serials|] == serials;
  }

  /** The device described for each serial is the one `Update` gives that serial. */
  lemma {:induction false} DescribesAt(serials: seq<string>, props: string -> seq<string>, i: nat)
    requires i < |serials|
    ensures Describes(serials, props)[i] == Describe(serials[i], props(serials[i]))
    decreases |serials|
  {
    if i < |serials| - 1 {
      DescribesAt(serials[..|serials| - 1], props, i);
    }
  }

  /** The devices that pass the filter, in order. */
  function Kept(ds: seq<DeviceInfo>, filter: Option<DeviceFilter>): seq<DeviceInfo>
    decreases |ds|
  {
    if ds == [] then []
    else
      var last := ds[|ds| - 1];
      Kept(ds[..|ds| - 1], filter) + (if MatchFilter(last, filter) then [last] else [])
  }

  ghost function Infos(ds: seq<Device>): seq<DeviceInfo>
    reads ds
    decreases |ds|
  {
    if ds == [] then [] else Infos(ds[..|ds| - 1]) + [ds[|ds| - 1].Info()]
  }

  /** A line containing "device" is never blank, so `ParseDevices`' blank test never decides. */
  lemma DeviceWordNotBlank(line: string)
    requires Contains(line, "device")
    ensures TrimSpace(line) != ""
  {
    ContainsAt(line, "device");
    var i :| OccursAt(line, "device", i);
    assert line[i..i + 6][0] == line[i] == 'd';
    TrimSpaceEmpty(line);
  }

  /** The serial of a line `serial\t...` is the text before the tab. */
  lemma SerialBeforeTab(serial: string, rest: string)
    requires '\t' !in serial
    ensures SerialOf(serial + "\t" + rest) == serial
  {
    var s := serial + "\t" + rest;
    FirstPiece(s, '\t');
    var p := Split(s, '\t')[0];
    assert s[|serial|] == '\t';
    assert forall m :: 0 <= m < |serial| ==> s[m] == serial[m];
    assert p == s[..|p|] == serial;
  }

  /** Every kept device passes the filter, and every device that passes it is kept. */
  lemma {:induction false} KeptIff(ds: seq<DeviceInfo>, filter: Option<DeviceFilter>, d: DeviceInfo)
    ensures d in Kept(ds, filter) <==> d in ds && MatchFilter(d, filter)
    decreases |ds|
  {
    if ds != [] {
      var init := ds[..|ds| - 1];
      KeptIff(init, filter, d);
      assert ds == init + [ds[|ds| - 1]];
    }
  }

  /** The filter keeps the devices in their discovery order and drops none that pass. */
  lemma {:induction false} KeptAll(ds: seq<DeviceInfo>, filter: Option<DeviceFilter>)
    requires forall i :: 0 <= i < |ds| ==> MatchFilter(ds[i], filter)
    ensures Kept(ds, filter) == ds
    decreases |ds|
  {
    if ds != [] {
      KeptAll(ds[..|ds| - 1], filter);
    }
  }

  /** Every candidate line yields its serial, and every serial comes from a candidate line. */
  lemma {:induction false} SerialsIff(lines: seq<string>, keep: string -> bool, s: string)
    ensures s in Serials(lines, keep) <==>
      exists i :: 0 <= i < |lines| && keep(lines[i]) && SerialOf(lines[i]) == s
    decreases |lines|
  {
    if lines != [] {
      var init := lines[..|lines| - 1];
      var last := lines[|lines| - 1];
      SerialsIff(init, keep, s);
      if s in Serials(init, keep) {
        var i :| 0 <= i < |init| && keep(init[i]) && SerialOf(init[i]) == s;
        assert lines[i] == init[i];
      }
      if exists i :: 0 <= i < |lines| && keep(lines[i]) && SerialOf(lines[i]) == s {
        var i :| 0 <= i < |lines| && keep(lines[i]) && SerialOf(lines[i]) == s;
        if i < |init| {
          assert init[i] == lines[i];
        }
      }
    }
  }

  lemma SerialsStep(lines: seq<string>, i: nat, keep: string -> bool)
    requires i < |lines|
    ensures Serials(lines[..i + 1], keep) ==
      Serials(lines[..i], keep) + (if keep(lines[i]) then [SerialOf(lines[i])] else [])
  {
    assert lines[..i + 1][..i] == lines[..i];
  }

  lemma {:induction false} InfosAt(ds: seq<Device>, i: nat)
    requires i < |ds|
    ensures |Infos(ds)| == |ds| && Infos(ds)[i] == ds[i].Info()
    decreases |ds|
  {
    InfosLength(ds[..|ds| - 1]);
    if i < |ds| - 1 {
      InfosAt(ds[..|ds| - 1], i);
    }
  }

  lemma {:induction false} InfosLength(ds: seq<Device>)
    ensures |Infos(ds)| == |ds|
    decreases |ds|
  {
    if ds != [] {
      InfosLength(ds[..|ds| - 1]);
    }
  }

  lemma InfosAppend(ds: seq<Device>, d: Device)
    ensures Infos(ds + [d]) == Infos(ds) + [d.Info()]
  {
    assert (ds + [d])[..|ds|] == ds;
  }

  /**
   * The discovery loop shared by `ParseDevices` and `ListDevices`: one new device per candidate
   * line, updated with its getprop output (sequentially, where the source uses goroutines).
   */
  method Discover(lines: seq<string>, needWord: bool, props: string -> seq<string>) returns (devices: seq<Device>)
    ensures forall d :: d in devices ==> fresh(d)
    ensures Infos(devices) == Describes(Serials(lines, Selects(needWord)), props)
  {
    devices := [];
    var i := 0;
    while i < |lines|
      invariant 0 <= i <= |lines|
      invariant forall d :: d in devices ==> fresh(d)
      invariant Infos(devices) == Describes(Serials(lines[..i], Selects(needWord)), props)
    {
      var line := lines[i];
      SerialsStep(lines, i, Selects(needWord));
      if Candidate(line, needWord) {
        var d := NewDevice(line, props);
        DescribesAppend(Serials(lines[..i], Selects(needWord)), SerialOf(line), props);
        InfosAppend(devices, d);
        devices := devices + [d];
        assert Infos(devices) == Describes(Serials(lines[..i], Selects(needWord)), props) + [Describe(SerialOf(line), props(SerialOf(line)))];
        assert Serials(lines[..i + 1], Selects(needWord)) == Serials(lines[..i], Selects(needWord)) + [SerialOf(line)];
      } else {
        assert Serials(lines[..i + 1], Selects(needWord)) == Serials(lines[..i], Selects(needWord));
      }
      assert Infos(devices) == Describes(Serials(lines[..i + 1], Selects(needWord)), props);
      i := i + 1;
    }
    assert lines[..|lines|] == lines;
  }

  /** The body of the discovery loop for one selected line: `&Device{Serial: ...}`, then `Update`. */
  method NewDevice(line: string, props: string -> seq<string>) returns (d: Device)
    ensures fresh(d) && d.Info() == Describe(SerialOf(line), props(SerialOf(line)))
  {
    d := new Device(SerialOf(line));
    d.Update(props(d.serial));
  }

  /** The second loop: the devices that pass the filter, in order. */
  method FilterDevices(devices: seq<Device>, filter: Option<DeviceFilter>) returns (result: seq<Device>)
    ensures forall d :: d in result ==> d in devices
    ensures Infos(result) == Kept(Infos(devices), filter)
  {
    result := [];
    var i := 0;
    while i < |devices|
      invariant 0 <= i <= |devices|
      invariant forall d :: d in result ==> d in devices
      invariant Infos(result) == Kept(Infos(devices[..i]), filter)
    {
      var d := devices[i];
      var info := d.Info();
      var keep := MatchFilter(info, filter);
      InfosStep(devices, i);
      KeptAppend(Infos(devices[..i]), info, filter, keep);
      if keep {
        InfosAppend(result, d);
        result := result + [d];
      }
      i := i + 1;
    }
    assert devices[..|devices|] == devices;
  }

  lemma InfosStep(ds: seq<Device>, i: nat)
    requires i < |ds|
    ensures Infos(ds[..i + 1]) == Infos(ds[..i]) + [ds[i].Info()]
  {
    assert ds[..i + 1][..i] == ds[..i];
  }

  lemma KeptAppend(ds: seq<DeviceInfo>, d: DeviceInfo, filter: Option<DeviceFilter>, keep: bool)
    requires keep == MatchFilter(d, filter)
    ensures Kept(ds + [d], filter) == Kept(ds, filter) + (if keep then [d] else [])
  {
    assert (ds + [d])[..|ds|] == ds;
  }

  /** `ParseDevices` over `adb devices` output, with the getprop output of each serial. */
  method ParseDevices(filter: Option<DeviceFilter>, input: string, props: string -> seq<string>)
    returns (result: seq<Device>)
    ensures forall d :: d in result ==> fresh(d)
    ensures Infos(result) == Kept(Describes(Serials(Split(input, '\n'), Selects(true)), props), filter)
  {
    var lines := Split(input, '\n');
    var devices := Discover(lines, true, props);
    result := FilterDevices(devices, filter);
  }
}
