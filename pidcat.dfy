/**
 * `pidcat/main.go`: the `PidCat` filter state and the colour rotation of `getColor`. The
 * `fatih/color` styling is a painter function given at construction; the regexes are the ones
 * of `PidcatLog`, and `PID_PARSER` (a `ps` line to its pid and name) is a parameter.
 */
module Pidcat {
  import opened Wrappers
  import opened GoText
  import opened PidcatLog

  datatype Color = Black | Red | Green | Yellow | Blue | Magenta | Cyan | White

  /** A foreground colour, or the foreground and background of a level badge. */
  datatype Style = Fg(color: Color) | Badge(fg: Color, bg: Color)

  /** The colouring `fatih/color` applies to a text. */
  type Painter = (Style, string) -> string

  /** The initial `LastUsed` rotation. */
  const PALETTE: seq<Color> := [Red, Green, Yellow, Blue, Magenta, Cyan]

  /** `KnownTags`: tags with a fixed colour. */
  const KNOWN_TAGS: map<string, Color> := map["dalvikvm" := White]

  /** `LastUsed = append(LastUsed[1:], LastUsed[0])`. */
  function Rotate(s: seq<Color>): (r: seq<Color>)
    requires |s| > 0
    ensures |r| == |s|
  {
    s[1..] + [s[0]]
  }

  /** A rotation moves the colours without losing or adding any. */
  lemma RotatePermutes(s: seq<Color>)
    requires |s| > 0
    ensures multiset(Rotate(s)) == multiset(s)
  {
    assert s == [s[0]] + s[1..];
  }

  /** `s` after `k` rotations. */
  function Rotated(s: seq<Color>, k: nat): (r: seq<Color>)
    requires |s| > 0
    ensures |r| == |s|
  {
    if k == 0 then s else Rotate(Rotated(s, k - 1))
  }

  /** After `k` rotations, at most one full turn, the first `k` colours have moved to the back. */
  lemma {:induction false} RotatedShape(s: seq<Color>, k: nat)
    requires 0 < |s| && k <= |s|
    ensures Rotated(s, k) == s[k..] + s[..k]
  {
    if k > 0 {
      RotatedShape(s, k - 1);
      var p := Rotated(s, k - 1);
      assert p[0] == s[k - 1];
      assert p[1..] == s[k..] + s[..k - 1];
      assert s[..k] == s[..k - 1] + [s[k - 1]];
    }
  }

  lemma {:induction false} RotatedAdd(s: seq<Color>, a: nat, b: nat)
    requires |s| > 0
    ensures Rotated(s, a + b) == Rotated(Rotated(s, a), b)
    decreases b
  {
    if b > 0 {
      RotatedAdd(s, a, b - 1);
      assert Rotated(s, a + b) == Rotate(Rotated(s, a + (b - 1)));
    }
  }

  /** The colours come round again after one rotation per colour. */
  lemma RotationCycle(s: seq<Color>)
    requires |s| > 0
    ensures Rotated(s, |s|) == s
  {
    RotatedShape(s, |s|);
    assert s[|s|..] + s[..|s|] == s;
  }

  /** The `k`-th colour handed out for unknown tags, from the initial rotation, is `PALETTE[k % 6]`. */
  lemma {:induction false} TurnColor(k: nat)
    ensures Rotated(PALETTE, k)[0] == PALETTE[k % |PALETTE|]
    decreases k
  {
    var n := |PALETTE|;
    if k < n {
      RotatedShape(PALETTE, k);
      assert k % n == k;
    } else {
      TurnColor(k - n);
      RotatedAdd(PALETTE, n, k - n);
      RotationCycle(PALETTE);
      assert Rotated(PALETTE, k) == Rotated(PALETTE, k - n) by {
        assert k == n + (k - n);
      }
      assert (k - n) % n == k % n;
    }
  }

  /** The colour `getColor` returns. */
  function ColorOf(tag: string, used: seq<Color>): Color
    requires |used| > 0
  {
    if tag in KNOWN_TAGS then KNOWN_TAGS[tag] else used[0]
  }

  /** `LastUsed` after `getColor`: rotated unless the tag has a fixed colour. */
  function UsedAfter(tag: string, used: seq<Color>): (r: seq<Color>)
    requires |used| > 0
    ensures multiset(r) == multiset(used)
    ensures tag in KNOWN_TAGS ==> r == used
    ensures tag !in KNOWN_TAGS ==> r == Rotate(used)
  {
    if tag in KNOWN_TAGS then used
    else
      RotatePermutes(used);
      Rotate(used)
  }

  /** The package-level `LastUsed` slice, shared by every `PidCat`. */
  class Palette {
    var lastUsed: seq<Color>

    /** The rotation always holds the six colours it started with. */
    predicate Valid()
      reads this
    {
      multiset(lastUsed) == multiset(PALETTE)
    }

    constructor()
      ensures lastUsed == PALETTE && Valid()
    {
      lastUsed := PALETTE;
    }

    /** `getColor`. */
    method GetColor(tag: string) returns (c: Color)
      requires Valid()
      modifies this
      ensures Valid()
      ensures |old(lastUsed)| > 0
      ensures c == ColorOf(tag, old(lastUsed)) && lastUsed == UsedAfter(tag, old(lastUsed))
    {
      assert |lastUsed| == |multiset(lastUsed)|;
      c := ColorOf(tag, lastUsed);
      if tag !in KNOWN_TAGS {
        RotatePermutes(lastUsed);
        lastUsed := Rotate(lastUsed);
      }
    }
  }

  /** `len(AppFilters) == 0`: a nil map and an empty one both count as no filter. */
  predicate Unfiltered(apps: Option<set<string>>) {
    apps == None || apps == Some({})
  }

  /** `matches`: every pid matches when there is no app filter; otherwise the pid filter decides. */
  function MatchesPid(apps: Option<set<string>>, pids: set<string>, pid: string): (r: bool)
    ensures r <==> Unfiltered(apps) || pid in pids
  {
    match apps
    case None => true
    case Some(a) => |a| == 0 || pid in pids
  }

  /** `matchesPackage`: every package matches when there is no app filter. */
  function MatchesPackage(apps: Option<set<string>>, pack: string): (r: bool)
    ensures r <==> Unfiltered(apps) || (apps.Some? && pack in apps.value)
  {
    match apps
    case None => true
    case Some(a) => |a| == 0 || pack in a
  }

  /**
   * `parseDeath` of `main.go`: the (pid, package) of a recognised death whose package and pid both
   * pass the filters, and ("", "") otherwise.
   */
  function ParseDeath(apps: Option<set<string>>, pids: set<string>, tag: string, msg: string, p: Patterns)
    : (r: (string, string))
    ensures r != ("", "") ==> tag == ACTIVITY_MANAGER
    ensures (Death(tag, msg, p).Some? && MatchesPackage(apps, Death(tag, msg, p).value.1) &&
             MatchesPid(apps, pids, Death(tag, msg, p).value.0)) ==> r == Death(tag, msg, p).value
    ensures (Death(tag, msg, p).None? || !MatchesPackage(apps, Death(tag, msg, p).value.1) ||
             !MatchesPid(apps, pids, Death(tag, msg, p).value.0)) ==> r == ("", "")
  {
    match Death(tag, msg, p)
    case Some(d) => if MatchesPackage(apps, d.1) && MatchesPid(apps, pids, d.0) then d else ("", "")
    case None => ("", "")
  }

  /** The pid filter after the process-start check of `Sprint`. */
  function AfterStart(apps: Option<set<string>>, pids: set<string>, msg: string, p: Patterns): set<string> {
    match p.start(msg)
    case Some(s) => if MatchesPackage(apps, s.proc) then pids + {s.pid} else pids
    case None => pids
  }

  /** The pid filter after `Sprint` has seen a log line with groups `g`. */
  function FiltersAfter(apps: Option<set<string>>, pids: set<string>, g: LogGroups, p: Patterns): set<string> {
    var started := AfterStart(apps, pids, g.msg, p);
    var dead := ParseDeath(apps, started, g.tag, g.msg, p).0;
    if dead != "" then started - {dead} else started
  }

  /**
   * A pid joins the filter only from a start line of a package that passes the app filter, and
   * leaves it only through a recognised ActivityManager death of that pid.
   */
  lemma FiltersChange(apps: Option<set<string>>, pids: set<string>, g: LogGroups, p: Patterns, x: string)
    ensures x in FiltersAfter(apps, pids, g, p) && x !in pids ==>
      p.start(g.msg).Some? && p.start(g.msg).value.pid == x && MatchesPackage(apps, p.start(g.msg).value.proc)
    ensures x in pids && x !in FiltersAfter(apps, pids, g, p) ==>
      g.tag == ACTIVITY_MANAGER && Death(g.tag, g.msg, p).Some? && Death(g.tag, g.msg, p).value.0 == x
  {
    var started := AfterStart(apps, pids, g.msg, p);
    var d := ParseDeath(apps, started, g.tag, g.msg, p);
    if x in pids && x !in FiltersAfter(apps, pids, g, p) {
      assert x in started;
      assert d.0 == x && d != ("", "");
    }
  }

  /** The tag column: left-padded with spaces to `width`, or cut to `width`. */
  function TagColumn(tag: string, width: nat): (r: string)
    ensures |r| == width
    ensures |tag| <= width ==> r[width - |tag|..] == tag && AllSpace(r[..width - |tag|])
    ensures |tag| > width ==> r == tag[..width]
  {
    var count := width - |tag|;
    if |tag| > width then tag[..width]
    else
      var r := Spaces(count) + tag;
      assert r[..count] == Spaces(count);
      r
  }

  /** `TagTypes[level]`: the painted badge of a known level, and "" (the map's zero value) otherwise. */
  function LevelBadge(level: string, paint: Painter): string {
    if level == "V" then paint(Badge(White, Black), " V ")
    else if level == "D" then paint(Badge(Black, Blue), " D ")
    else if level == "I" then paint(Badge(Black, Green), " I ")
    else if level == "W" then paint(Badge(Black, Yellow), " W ")
    else if level == "E" then paint(Badge(Black, Red), " E ")
    else if level == "F" then paint(Badge(Black, Red), " F ")
    else ""
  }

  /** `fmt.Sprintln(head, " ", badge, " ", msg)`: operands separated by a space, then a newline. */
  function PrettyLine(head: string, badge: string, msg: string): string {
    head + " " + " " + " " + badge + " " + " " + " " + msg + "\n"
  }

  /** A line `Sprint` prints nothing for and that leaves the state alone. */
  predicate Ignored(line: string) {
    BugLine(line) || LogMatch(line) == None
  }

  /** The pids of the `ps` lines whose process name is among `apps`. */
  function PsPids(lines: seq<(string, string)>, apps: set<string>): set<string>
    decreases |lines|
  {
    if lines == [] then {}
    else
      var last := lines[|lines| - 1];
      PsPids(lines[..|lines| - 1], apps) + (if last.1 in apps then {last.0} else {})
  }

  /** A pid is taken exactly when some parsed line names a filtered app with that pid. */
  lemma {:induction false} PsPidsIff(lines: seq<(string, string)>, apps: set<string>, x: string)
    ensures x in PsPids(lines, apps) <==> exists i :: 0 <= i < |lines| && lines[i].0 == x && lines[i].1 in apps
    decreases |lines|
  {
    if lines != [] {
      var init := lines[..|lines| - 1];
      PsPidsIff(init, apps, x);
      assert forall i :: 0 <= i < |init| ==> init[i] == lines[i];
    }
  }

  /** The groups of the `ps` lines before the first one `PID_PARSER` does not match. */
  function ParsedPrefix(lines: seq<string>, parse: string -> Option<(string, string)>): (r: seq<(string, string)>)
    ensures |r| <= |lines|
    ensures forall i :: 0 <= i < |r| ==> parse(lines[i]) == Some(r[i])
    ensures |r| < |lines| ==> parse(lines[|r|]) == None
    decreases |lines|
  {
    if lines == [] then []
    else match parse(lines[0])
      case None => []
      case Some(g) => [g] + ParsedPrefix(lines[1..], parse)
  }

  class PidCat {
    var appFilters: Option<set<string>>
    var pidFilters: set<string>
    var lastTag: string
    const prettyPrint: bool
    const tagWidth: nat
    const paint: Painter
    const patterns: Patterns
    const palette: Palette

    predicate Valid()
      reads this, palette
    {
      palette.Valid()
    }

    /** `NewPidCat`: empty (non-nil) app and pid filters. */
    constructor(pretty: bool, width: nat, paint: Painter, patterns: Patterns, palette: Palette)
      requires palette.Valid()
      ensures Valid()
      ensures appFilters == Some({}) && pidFilters == {} && lastTag == ""
      ensures prettyPrint == pretty && tagWidth == width && this.paint == paint
      ensures this.patterns == patterns && this.palette == palette
    {
      prettyPrint, tagWidth, this.paint, this.patterns, this.palette := pretty, width, paint, patterns, palette;
      appFilters := Some({});
      pidFilters := {};
      lastTag := "";
    }

    /** `SetAppFilters`: a single empty name clears the filter to nil; otherwise the names given. */
    method SetAppFilters(filters: seq<string>)
      modifies this
      ensures appFilters == if |filters| == 1 && filters[0] == "" then None else Some(set f | f in filters)
      ensures pidFilters == old(pidFilters) && lastTag == old(lastTag)
    {
      if |filters| == 1 && filters[0] == "" {
        appFilters := None;
        return;
      }
      appFilters := Some({});
      for i := 0 to |filters|
        invariant appFilters.Some? && forall f :: f in appFilters.value <==> f in filters[..i]
        invariant pidFilters == old(pidFilters) && lastTag == old(lastTag)
      {
        assert filters[..i + 1] == filters[..i] + [filters[i]];
        appFilters := Some(appFilters.value + {filters[i]});
      }
      assert filters[..|filters|] == filters;
      assert appFilters.value == set f | f in filters;
    }

    /**
     * `UpdateAppFilters` over the lines `ps` prints: with a filter, the pid of every line whose
     * name is a filtered app is added. A line `PID_PARSER` does not match makes Go index a nil
     * slice, which is `panicked`; the lines before it have been taken.
     */
    method UpdateAppFilters(ps: seq<string>, parse: string -> Option<(string, string)>) returns (panicked: bool)
      modifies this
      ensures appFilters == old(appFilters) && lastTag == old(lastTag)
      ensures old(appFilters) == None ==> !panicked && pidFilters == old(pidFilters)
      ensures old(appFilters).Some? ==>
        (panicked <==> |ParsedPrefix(ps, parse)| < |ps|) &&
        pidFilters == old(pidFilters) + PsPids(ParsedPrefix(ps, parse), old(appFilters).value)
    {
      if appFilters == None {
        return false;
      }
      ghost var done := ParsedPrefix(ps, parse);
      var i := 0;
      while i < |ps|
        invariant 0 <= i <= |done|
        invariant appFilters == old(appFilters) && lastTag == old(lastTag)
        invariant pidFilters == old(pidFilters) + PsPids(done[..i], appFilters.value)
      {
        var groups := parse(ps[i]);
        if groups == None {
          assert i == |done| && done[..i] == done;
          return true;
        }
        assert i < |done| && done[i] == groups.value;
        assert done[..i + 1][..i] == done[..i];
        if groups.value.1 in appFilters.value {
          pidFilters := pidFilters + {groups.value.0};
        }
        i := i + 1;
      }
      assert done[..i] == done;
      panicked := false;
    }

    /** The pid-filter updates of `Sprint`: a matching process start, then a recognised death. */
    method Track(g: LogGroups) returns (dead: (string, string))
      modifies this
      ensures appFilters == old(appFilters) && lastTag == old(lastTag)
      ensures dead == ParseDeath(appFilters, AfterStart(appFilters, old(pidFilters), g.msg, patterns), g.tag, g.msg, patterns)
      ensures pidFilters == FiltersAfter(appFilters, old(pidFilters), g, patterns)
    {
      match patterns.start(g.msg) {
        case Some(s) =>
          if MatchesPackage(appFilters, s.proc) {
            pidFilters := pidFilters + {s.pid};
          }
        case None =>
      }
      dead := ParseDeath(appFilters, pidFilters, g.tag, g.msg, patterns);
      if dead.0 != "" {
        pidFilters := pidFilters - {dead.0};
      }
    }

    /** The pretty-printed line of a message whose pid passes: a new tag is painted, a repeated one blanked. */
    method Render(tag: string, level: string, msg: string) returns (out: string)
      requires Valid()
      modifies this, palette
      ensures Valid() && appFilters == old(appFilters) && pidFilters == old(pidFilters)
      ensures tag != old(lastTag) ==>
        |old(palette.lastUsed)| > 0 && lastTag == tag &&
        out == PrettyLine(paint(Fg(ColorOf(tag, old(palette.lastUsed))), TagColumn(tag, tagWidth)), LevelBadge(level, paint), msg) &&
        palette.lastUsed == UsedAfter(tag, old(palette.lastUsed))
      ensures tag == old(lastTag) ==>
        out == PrettyLine(Spaces(tagWidth), LevelBadge(level, paint), msg) && lastTag == old(lastTag) &&
        palette.lastUsed == old(palette.lastUsed)
    {
      if tag != lastTag {
        lastTag := tag;
        var colorize := palette.GetColor(tag);
        out := PrettyLine(paint(Fg(colorize), TagColumn(tag, tagWidth)), LevelBadge(level, paint), msg);
      } else {
        out := PrettyLine(Spaces(tagWidth), LevelBadge(level, paint), msg);
      }
    }

    /**
     * `Sprint`: the text printed for one logcat line, updating the pid filter from process starts
     * and deaths and, in pretty mode, the last tag and the colour rotation.
     */
    method Sprint(line: string) returns (out: string)
      requires Valid()
      modifies this, palette
      ensures Valid() && appFilters == old(appFilters)
      ensures Ignored(line) ==>
        out == "" && pidFilters == old(pidFilters) && lastTag == old(lastTag) &&
        palette.lastUsed == old(palette.lastUsed)
      ensures !Ignored(line) ==>
        pidFilters == FiltersAfter(appFilters, old(pidFilters), LogMatch(line).value, patterns)
      ensures !Ignored(line) && !prettyPrint ==>
        out == (if MatchesPid(appFilters, pidFilters, LogMatch(line).value.pid) then line + "\n" else "") &&
        lastTag == old(lastTag) && palette.lastUsed == old(palette.lastUsed)
      ensures !Ignored(line) && prettyPrint ==>
        var g := LogMatch(line).value;
        var dead := ParseDeath(appFilters, AfterStart(appFilters, old(pidFilters), g.msg, patterns), g.tag, g.msg, patterns);
        var tag := TrimSpace(g.tag);
        var badge := LevelBadge(g.level, paint);
        if dead.0 != "" then
          out == EndedMessage(dead.0, dead.1) && lastTag == old(lastTag) && palette.lastUsed == old(palette.lastUsed)
        else if !MatchesPid(appFilters, pidFilters, g.pid) then
          out == "" && lastTag == old(lastTag) && palette.lastUsed == old(palette.lastUsed)
        else if tag != old(lastTag) then
          |old(palette.lastUsed)| > 0 && lastTag == tag &&
          out == PrettyLine(paint(Fg(ColorOf(tag, old(palette.lastUsed))), TagColumn(tag, tagWidth)), badge, g.msg) &&
          palette.lastUsed == UsedAfter(tag, old(palette.lastUsed))
        else
          out == PrettyLine(Spaces(tagWidth), badge, g.msg) && lastTag == old(lastTag) &&
          palette.lastUsed == old(palette.lastUsed)
    {
      if BugLine(line) || LogMatch(line) == None {
        return "";
      }
      var g := LogMatch(line).value;
      var dead := Track(g);
      if dead.0 != "" && prettyPrint {
        return EndedMessage(dead.0, dead.1);
      }
      var inPid := MatchesPid(appFilters, pidFilters, g.pid);
      if inPid && !prettyPrint {
        return line + "\n";
      } else if !inPid {
        return "";
      }
      out := Render(TrimSpace(g.tag), g.level, g.msg);
    }
  }
}
