/**
 * `adb/adb.go`: collecting the output of the adb binary (`ExecSync`) and listing and looking up
 * devices from `adb devices`. The process itself is not modelled: what it sends on its channel
 * is given as a sequence of items, and the getprop output of each serial as a function.
 */
module AdbHost {
  import opened Wrappers
  import opened Bytes
  import opened GoText
  import opened AdbDevice

  /**
   * A value `Exec` sends: a string (a stdout line, or the stderr text sent after a failed `Wait`),
   * an error, or the raw stderr bytes sent when the start fails.
   */
  datatype Item = Line(text: string) | Failure(err: string) | Stderr(data: seq<byte>)

  /** The string items, concatenated in order. */
  function Output(items: seq<Item>): string
    decreases |items|
  {
    if items == [] then ""
    else
      var last := items[|items| - 1];
      Output(items[..|items| - 1]) + (if last.Line? then last.text else "")
  }

  /** The last error item, if any. */
  function LastError(items: seq<Item>): Option<string>
    decreases |items|
  {
    if items == [] then None
    else if items[|items| - 1].Failure? then Some(items[|items| - 1].err)
    else LastError(items[..|items| - 1])
  }

  /** `ExecSync`: receive until the channel closes, appending strings and keeping the last error. */
  method ExecSync(items: seq<Item>) returns (output: string, err: Option<string>)
    ensures output == Output(items) && err == LastError(items)
  {
    output, err := "", None;
    var i := 0;
    while i < |items|
      invariant 0 <= i <= |items|
      invariant output == Output(items[..i]) && err == LastError(items[..i])
    {
      assert items[..i + 1][..i] == items[..i];
      var v := items[i];
      if v.Failure? {
        err := Some(v.err);
      } else if v.Line? {
        output := output + v.text;
      }
      i := i + 1;
    }
    assert items[..|items|] == items;
  }

  lemma {:induction false} OutputAppend(a: seq<Item>, b: seq<Item>)
    ensures Output(a + b) == Output(a) + Output(b)
    decreases |b|
  {
    if b == [] {
      assert a + b == a;
    } else {
      var init, last := b[..|b| - 1], b[|b| - 1];
      var text := if last.Line? then last.text else "";
      OutputAppend(a, init);
      assert (a + b)[..|a + b| - 1] == a + init;
      assert (a + b)[|a + b| - 1] == last;
      calc {
        Output(a + b);
        Output(a + init) + text;
        (Output(a) + Output(init)) + text;
        Output(a) + (Output(init) + text);
        Output(a) + Output(b);
      }
    }
  }

  /** The raw stderr bytes (a `[]byte` item) never reach the output or the error. */
  lemma StderrIgnored(a: seq<Item>, data: seq<byte>, b: seq<Item>)
    ensures Output(a + [Stderr(data)] + b) == Output(a + b)
    ensures LastError(a + [Stderr(data)] + b) == LastError(a + b)
  {
    OutputAppend(a + [Stderr(data)], b);
    OutputAppend(a, [Stderr(data)]);
    OutputAppend(a, b);
    assert Output([Stderr(data)]) == "";
    LastErrorAppend(a + [Stderr(data)], b);
    LastErrorAppend(a, b);
    assert (a + [Stderr(data)])[..|a|] == a;
  }

  lemma {:induction false} LastErrorAppend(a: seq<Item>, b: seq<Item>)
    ensures LastError(a + b) == if LastError(b).Some? then LastError(b) else LastError(a)
    decreases |b|
  {
    if b == [] {
      assert a + b == a;
    } else {
      var init := b[..|b| - 1];
      LastErrorAppend(a, init);
      assert (a + b)[..|a + b| - 1] == a + init;
      assert (a + b)[|a + b| - 1] == b[|b| - 1];
    }
  }

  /** The error is the last error item, and there is none exactly when no item is an error. */
  lemma {:induction false} LastErrorMeaning(items: seq<Item>)
    ensures LastError(items) == None <==> forall i :: 0 <= i < |items| ==> !items[i].Failure?
    ensures LastError(items).Some? ==>
      (exists i :: 0 <= i < |items| && items[i] == Failure(LastError(items).value) &&
                   forall j :: i < j < |items| ==> !items[j].Failure?)
    decreases |items|
  {
    if items != [] {
      var init := items[..|items| - 1];
      LastErrorMeaning(init);
      assert forall i :: 0 <= i < |init| ==> init[i] == items[i];
      if !items[|items| - 1].Failure? && LastError(init).Some? {
        var i :| 0 <= i < |init| && init[i] == Failure(LastError(init).value) &&
          forall j :: i < j < |init| ==> !init[j].Failure?;
        assert items[i] == init[i];
      }
    }
  }

  /** The device lines of `adb devices` output: all after the first, as `ListDevices` selects them. */
  function ListedSerials(output: string): seq<string> {
    Serials(Split(output, '\n')[1..], Selects(false))
  }

  /**
   * `ListDevices`: run `adb devices`; on an error the program exits (`log.Fatal`), which is
   * `fatal`; otherwise one device per non-blank line after the first, updated, then filtered.
   */
  method ListDevices(filter: Option<DeviceFilter>, items: seq<Item>, props: string -> seq<string>)
    returns (result: seq<Device>, fatal: bool)
    ensures fatal <==> LastError(items) != None
    ensures fatal ==> result == []
    ensures forall d :: d in result ==> fresh(d)
    ensures !fatal ==> Infos(result) == Kept(Describes(ListedSerials(Output(items)), props), filter)
  {
    var output, err := ExecSync(items);
    if err != None {
      return [], true;
    }
    var lines := Split(output, '\n');
    lines := lines[1..];
    var devices := Discover(lines, false, props);
    result := FilterDevices(devices, filter);
    fatal := false;
  }

  /** The heading line of `adb devices` is never a device line. */
  lemma HeadingSkipped(heading: string, body: string)
    requires '\n' !in heading
    ensures ListedSerials(heading + "\n" + body) == Serials(Split(body, '\n'), Selects(false))
  {
    HeaderDropped(heading, body, '\n');
  }

  /** The filter of `FindDevices`. */
  function FindFilter(serials: seq<string>): DeviceFilter {
    DeviceFilter(0, serials, 0, 0, LATEST)
  }

  /** `FindDevices` keeps the devices with SDK level 0 to 21 among the serials asked for (any, when none). */
  lemma FindFilterMatches(d: DeviceInfo, serials: seq<string>)
    ensures MatchFilter(d, Some(FindFilter(serials))) <==>
      0 <= d.sdk <= LOLLIPOP && (serials == [] || d.serial in serials)
  {
    MatchFilterMeaning(d, Some(FindFilter(serials)));
  }

  /** `FindDevices`. */
  method FindDevices(serials: seq<string>, items: seq<Item>, props: string -> seq<string>)
    returns (result: seq<Device>, fatal: bool)
    ensures fatal <==> LastError(items) != None
    ensures fatal ==> result == []
    ensures forall d :: d in result ==> fresh(d)
    ensures !fatal ==>
      Infos(result) == Kept(Describes(ListedSerials(Output(items)), props), Some(FindFilter(serials)))
  {
    result, fatal := ListDevices(Some(FindFilter(serials)), items, props);
  }

  /** `FindDevice`: a copy of the first device found, or the zero device. */
  method FindDevice(serial: string, items: seq<Item>, props: string -> seq<string>)
    returns (dev: Device, fatal: bool)
    ensures fatal <==> LastError(items) != None
    ensures !fatal ==>
      var found := Kept(Describes(ListedSerials(Output(items)), props), Some(FindFilter([serial])));
      dev.Info() == if found == [] then ZERO_DEVICE else found[0]
  {
    var devices;
    devices, fatal := FindDevices([serial], items, props);
    if |devices| > 0 {
      assert Infos(devices)[0] == devices[0].Info() by {
        InfosAt(devices, 0);
      }
      dev := new Device.Of(devices[0].Info());
    } else {
      dev := new Device("");
    }
  }
}
