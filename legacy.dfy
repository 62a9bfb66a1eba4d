/**
 * The older revision of the device model at the repository root (`device.go`, `adb.go`):
 * properties come from one `adb -s <serial> shell getprop <key>` run each, and its filter
 * differs from the newer one. The adb binary is a parameter: the combined output, or the
 * error, of a run with the given arguments.
 */
module AdbLegacy {
  import opened Wrappers
  import opened GoText
  import Strconv
  import AdbDevice

  /** A run of the adb binary with these arguments. */
  type Exec = seq<string> -> Result<string>

  const KITKAT := 19
  /**
   * `LATEST SdkVersion = iota - 1` is the line after KITKAT, where iota is 13 (ECLAIR was
   * iota 0 with value 7): the constant is 12, not KITKAT.
   */
  const LATEST := 13 - 1

  lemma LatestValue()
    ensures LATEST == 12 && LATEST < KITKAT
  {
  }

  /** `DeviceFilter` of this revision; a nil filter is `None`. */
  datatype DeviceFilter = DeviceFilter(kind: int, serials: seq<string>, version: string, minSdk: int, maxSdk: int)

  datatype DeviceInfo = DeviceInfo(serial: string, manufacturer: string, model: string, sdk: int, version: string)

  const ZERO_DEVICE := DeviceInfo("", "", "", 0, "")

  /** `MatchFilter`: the SDK test, then the serial test. */
  function MatchFilter(d: DeviceInfo, filter: Option<DeviceFilter>): bool {
    if filter == None then true
    else
      var f := filter.value;
      if d.sdk < f.minSdk && d.sdk > f.maxSdk then false
      else if !AdbDevice.StringInSlice(d.serial, f.serials) then false
      else true
  }

  /**
   * No filter admits every device; the SDK test rejects only a level below the minimum and above
   * the maximum at once, and the serial must be one of the list (any, for an empty list).
   */
  lemma MatchFilterMeaning(d: DeviceInfo, filter: Option<DeviceFilter>)
    ensures filter == None ==> MatchFilter(d, filter)
    ensures filter != None ==> (MatchFilter(d, filter) <==>
      var f := filter.value;
      !(d.sdk < f.minSdk && d.sdk > f.maxSdk) && (f.serials == [] || d.serial in f.serials))
  {
    if filter != None {
      AdbDevice.StringInSliceIff(d.serial, filter.value.serials);
    }
  }

  /** Whenever the bounds leave no gap, the SDK test never rejects: only the serial decides. */
  lemma SdkTestVacuous(d: DeviceInfo, f: DeviceFilter)
    requires f.minSdk <= f.maxSdk + 1
    ensures MatchFilter(d, Some(f)) <==> AdbDevice.StringInSlice(d.serial, f.serials)
  {
  }

  /** `Device.AdbExec`: the arguments after `-s` and the serial. */
  function DeviceArgs(serial: string, args: seq<string>): (r: seq<string>)
    ensures |r| == |args| + 2 && r[..2] == ["-s", serial] && r[2..] == args
  {
    ["-s", serial] + args
  }

  const MANUFACTURER := "ro.product.manufacturer"
  const MODEL := "ro.product.model"
  const RELEASE := "ro.build.version.release"
  const SDK := "ro.build.version.sdk"

  /** `GetProp`: the trimmed output of `getprop`, or "" when the run fails. */
  function Prop(serial: string, prop: string, exec: Exec): (r: string)
    ensures r == "" || (!IsSpace(r[0]) && !IsSpace(r[|r| - 1]))
  {
    match exec(DeviceArgs(serial, ["shell", "getprop", prop]))
    case Ok(p) => TrimSpaceShape(p); TrimSpace(p)
    case Err(_) => ""
  }

  /** What `Update` leaves in the device with this serial. */
  function Describe(serial: string, exec: Exec): DeviceInfo {
    DeviceInfo(serial, Prop(serial, MANUFACTURER, exec), Prop(serial, MODEL, exec),
               Strconv.ParseInt(Prop(serial, SDK, exec)).value, Prop(serial, RELEASE, exec))
  }

  /** The SDK level is the number `getprop` prints, white space around it ignored. */
  lemma SdkRead(serial: string, exec: Exec, text: string, n: nat)
    requires exec(DeviceArgs(serial, ["shell", "getprop", SDK])) == Ok(text)
    requires TrimSpace(text) == Strconv.Decimal(n) && n <= Strconv.MAX_INT64
    ensures Describe(serial, exec).sdk == n
  {
    Strconv.ParseIntDecimal(n);
  }

  /** A failed `getprop` leaves the SDK level 0. */
  lemma SdkOnError(serial: string, exec: Exec)
    requires exec(DeviceArgs(serial, ["shell", "getprop", SDK])).Err?
    ensures Describe(serial, exec).sdk == 0
  {
  }

  class Device {
    var serial: string
    var manufacturer: string
    var model: string
    var sdk: int
    var version: string

    function Info(): DeviceInfo
      reads this
    {
      DeviceInfo(serial, manufacturer, model, sdk, version)
    }

    /** `&Device{Serial: serial}`. */
    constructor (serial: string)
      ensures Info() == ZERO_DEVICE.(serial := serial)
    {
      this.serial := serial;
      manufacturer, model, sdk, version := "", "", 0, "";
    }

    /** A copy of a device value, as `*devices[0]`. */
    constructor Of(info: DeviceInfo)
      ensures Info() == info
    {
      serial, manufacturer, model, sdk, version := info.serial, info.manufacturer, info.model, info.sdk, info.version;
    }

    /** `Update`, with the four `getprop` runs in sequence where the source runs them concurrently. */
    method Update(exec: Exec)
      modifies this
      ensures Info() == Describe(old(serial), exec)
    {
      var mf := Prop(serial, MANUFACTURER, exec);
      var md := Prop(serial, MODEL, exec);
      var vr := Prop(serial, RELEASE, exec);
      var sdkText := Prop(serial, SDK, exec);
      manufacturer := mf;
      model := md;
      version := vr;
      sdk := Strconv.ParseInt(sdkText).value;
    }
  }

  ghost function Infos(ds: seq<Device>): (r: seq<DeviceInfo>)
    reads ds
    ensures |r| == |ds|
    decreases |ds|
  {
    if ds == [] then [] else Infos(ds[..|ds| - 1]) + [ds[|ds| - 1].Info()]
  }

  function Describes(serials: seq<string>, exec: Exec): (r: seq<DeviceInfo>)
    ensures |r| == |serials|
    decreases |serials|
  {
    if serials == [] then []
    else Describes(serials[..|serials| - 1], exec) + [Describe(serials[|serials| - 1], exec)]
  }

  function Kept(ds: seq<DeviceInfo>, filter: Option<DeviceFilter>): seq<DeviceInfo>
    decreases |ds|
  {
    if ds == [] then []
    else
      var last := ds[|ds| - 1];
      Kept(ds[..|ds| - 1], filter) + (if MatchFilter(last, filter) then [last] else [])
  }

  /** Every kept device passes the filter, and every device that passes it is kept. */
  lemma {:induction false} KeptIff(ds: seq<DeviceInfo>, filter: Option<DeviceFilter>, d: DeviceInfo)
    ensures d in Kept(ds, filter) <==> d in ds && MatchFilter(d, filter)
    decreases |ds|
  {
    if ds != [] {
      var init := ds[..|ds| - 1];
      KeptIff(init, filter, d);
      assert ds == init + [ds[|ds| - 1]];
    }
  }

  /** The device lines of `adb devices` output: the non-blank lines after the first. */
  function ListedSerials(output: string): seq<string> {
    AdbDevice.Serials(Split(output, '\n')[1..], AdbDevice.Selects(false))
  }

  lemma InfosAppend(ds: seq<Device>, d: Device)
    ensures Infos(ds + [d]) == Infos(ds) + [d.Info()]
  {
    assert (ds + [d])[..|ds|] == ds;
  }

  lemma DescribesAppend(serials: seq<string>, s: string, exec: Exec)
    ensures Describes(serials + [s], exec) == Describes(serials, exec) + [Describe(s, exec)]
  {
    assert (serials + [s])[..|serials|] == serials;
  }

  lemma KeptAppend(ds: seq<DeviceInfo>, d: DeviceInfo, filter: Option<DeviceFilter>)
    ensures Kept(ds + [d], filter) == Kept(ds, filter) + (if MatchFilter(d, filter) then [d] else [])
  {
    assert (ds + [d])[..|ds|] == ds;
  }

  /**
   * `AdbDevices`: run `adb devices`; an error exits the program (`log.Fatal`), which is `fatal`;
   * otherwise one updated device per non-blank line after the first, then those passing the filter.
   */
  method AdbDevices(filter: Option<DeviceFilter>, exec: Exec) returns (result: seq<Device>, fatal: bool)
    ensures fatal <==> exec(["devices"]).Err?
    ensures fatal ==> result == []
    ensures forall d :: d in result ==> fresh(d)
    ensures !fatal ==>
      Infos(result) == Kept(Describes(ListedSerials(exec(["devices"]).value), exec), filter)
  {
    var out := exec(["devices"]);
    if out.Err? {
      return [], true;
    }
    fatal := false;
    var lines := Split(out.value, '\n');
    lines := lines[1..];
    var devices := NewDevices(lines, exec);
    result := Matching(devices, filter);
  }

  /** The first loop of `AdbDevices`: one updated device per non-blank line. */
  method NewDevices(lines: seq<string>, exec: Exec) returns (devices: seq<Device>)
    ensures forall d :: d in devices ==> fresh(d)
    ensures Infos(devices) == Describes(AdbDevice.Serials(lines, AdbDevice.Selects(false)), exec)
  {
    devices := [];
    var i := 0;
    assert lines[..0] == [];
    while i < |lines|
      invariant 0 <= i <= |lines|
      invariant forall d :: d in devices ==> fresh(d)
      invariant Infos(devices) == Describes(AdbDevice.Serials(lines[..i], AdbDevice.Selects(false)), exec)
    {
      var line := lines[i];
      ghost var before := AdbDevice.Serials(lines[..i], AdbDevice.Selects(false));
      ghost var after := AdbDevice.Serials(lines[..i + 1], AdbDevice.Selects(false));
      assert after == before + (if TrimSpace(line) != "" then [AdbDevice.SerialOf(line)] else []) by {
        AdbDevice.SerialsStep(lines, i, AdbDevice.Selects(false));
      }
      if TrimSpace(line) != "" {
        var d := NewDevice(line, exec);
        assert Infos(devices + [d]) == Describes(after, exec) by {
          DescribesAppend(before, AdbDevice.SerialOf(line), exec);
          InfosAppend(devices, d);
        }
        devices := devices + [d];
      } else {
        assert after == before;
      }
      assert Infos(devices) == Describes(after, exec);
      i := i + 1;
    }
    assert lines[..|lines|] == lines;
  }

  /** The body of the first loop for one line: `&Device{Serial: ...}`, then `Update`. */
  method NewDevice(line: string, exec: Exec) returns (d: Device)
    ensures fresh(d) && d.Info() == Describe(AdbDevice.SerialOf(line), exec)
  {
    d := new Device(AdbDevice.SerialOf(line));
    d.Update(exec);
  }

  /** The second loop of `AdbDevices`: the devices passing the filter, in order. */
  method Matching(devices: seq<Device>, filter: Option<DeviceFilter>) returns (result: seq<Device>)
    ensures forall d :: d in result ==> d in devices
    ensures Infos(result) == Kept(Infos(devices), filter)
  {
    result := [];
    var j := 0;
    while j < |devices|
      invariant 0 <= j <= |devices|
      invariant forall d :: d in result ==> d in devices
      invariant Infos(result) == Kept(Infos(devices[..j]), filter)
    {
      InfosAppend(devices[..j], devices[j]);
      assert devices[..j + 1] == devices[..j] + [devices[j]];
      KeptAppend(Infos(devices[..j]), devices[j].Info(), filter);
      if MatchFilter(devices[j].Info(), filter) {
        InfosAppend(result, devices[j]);
        result := result + [devices[j]];
      }
      j := j + 1;
    }
    assert devices[..|devices|] == devices;
  }

  /** The filter of `FindDevices`: the serials asked for, and the maximum `LATEST`. */
  function FindFilter(serials: seq<string>): DeviceFilter {
    DeviceFilter(0, serials, "", 0, LATEST)
  }

  /** With the minimum 0 and the maximum 12, this revision's lookup never rejects on the SDK level. */
  lemma FindFilterIgnoresSdk(d: DeviceInfo, serials: seq<string>)
    ensures MatchFilter(d, Some(FindFilter(serials))) <==> serials == [] || d.serial in serials
  {
    MatchFilterMeaning(d, Some(FindFilter(serials)));
  }

  method FindDevices(serials: seq<string>, exec: Exec) returns (result: seq<Device>, fatal: bool)
    ensures fatal <==> exec(["devices"]).Err?
    ensures forall d :: d in result ==> fresh(d)
    ensures !fatal ==>
      Infos(result) == Kept(Describes(ListedSerials(exec(["devices"]).value), exec), Some(FindFilter(serials)))
  {
    result, fatal := AdbDevices(Some(FindFilter(serials)), exec);
  }

  /** `FindDevice`: a copy of the first device found, or the zero device. */
  method FindDevice(serial: string, exec: Exec) returns (dev: Device, fatal: bool)
    ensures fatal <==> exec(["devices"]).Err?
    ensures !fatal ==>
      var found := Kept(Describes(ListedSerials(exec(["devices"]).value), exec), Some(FindFilter([serial])));
      dev.Info() == if found == [] then ZERO_DEVICE else found[0]
  {
    var devices;
    devices, fatal := FindDevices([serial], exec);
    if |devices| > 0 {
      InfosFirst(devices);
      dev := new Device.Of(devices[0].Info());
    } else {
      dev := new Device("");
    }
  }

  lemma {:induction false} InfosFirst(ds: seq<Device>)
    requires ds != []
    ensures Infos(ds)[0] == ds[0].Info()
    decreases |ds|
  {
    if |ds| > 1 {
      InfosFirst(ds[..|ds| - 1]);
    }
  }
}
