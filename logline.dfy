/**
 * `pidcat/log.go`: classifying one logcat line. The line pattern `LOG_LINE` and the bug-line
 * pattern are matched by hand here; the four ActivityManager patterns are given as functions
 * from the message to their capture groups (or `None` when they do not match).
 */
module PidcatLog {
  import opened Wrappers
  import opened GoText

  /** The capture groups of `PID_START`: process, kind, pid, uid, gids. */
  datatype StartGroups = StartGroups(proc: string, kind: string, pid: string, uid: string, gids: string)

  /**
   * The ActivityManager patterns: `start` is `PID_START`; `kill`, `leave` and `death` give
   * their capture groups 1 and 2.
   */
  datatype Patterns = Patterns(
    start: string -> Option<StartGroups>,
    kill: string -> Option<(string, string)>,
    leave: string -> Option<(string, string)>,
    death: string -> Option<(string, string)>)

  datatype LineType = ProcessStart | ProcessStop | Log | Backtrace

  /** A classified line; a byte slice Go leaves nil is the empty string. */
  datatype Line = Line(kind: LineType, pid: string, package: string, level: string, tag: string, message: string)

  /** The four capture groups of `LOG_LINE`. */
  datatype LogGroups = LogGroups(level: string, tag: string, pid: string, msg: string)

  const BUG_MARK := "nativeGetEnabledTags"
  const ACTIVITY_MANAGER := "ActivityManager"

  /** `BUG_LINE` (`.*nativeGetEnabledTags.*`, unanchored) matches exactly the lines containing the mark. */
  predicate BugLine(line: string) {
    Contains(line, BUG_MARK)
  }

  predicate IsUpper(c: char) {
    'A' <= c <= 'Z'
  }

  predicate IsDecimal(c: char) {
    '0' <= c <= '9'
  }

  /** The end of the run of spaces starting at `p`. */
  function SpacesEnd(line: string, p: nat): (e: nat)
    requires p <= |line|
    ensures p <= e <= |line| && (e == |line| || line[e] != ' ')
    decreases |line| - p
  {
    if p == |line| || line[p] != ' ' then p else SpacesEnd(line, p + 1)
  }

  /** Everything from `p` up to `SpacesEnd` is a space. */
  lemma {:induction false} SpacesEndAll(line: string, p: nat)
    requires p <= |line|
    ensures forall m :: p <= m < SpacesEnd(line, p) ==> line[m] == ' '
    decreases |line| - p
  {
    if p < |line| && line[p] == ' ' {
      SpacesEndAll(line, p + 1);
    }
  }

  /** The end of the run of decimal digits starting at `p`. */
  function DigitsEnd(line: string, p: nat): (e: nat)
    requires p <= |line|
    ensures p <= e <= |line| && (e == |line| || !IsDecimal(line[e]))
    decreases |line| - p
  {
    if p == |line| || !IsDecimal(line[p]) then p else DigitsEnd(line, p + 1)
  }

  /** Everything from `p` up to `DigitsEnd` is a decimal digit. */
  lemma {:induction false} DigitsEndAll(line: string, p: nat)
    requires p <= |line|
    ensures forall m :: p <= m < DigitsEnd(line, p) ==> IsDecimal(line[m])
    decreases |line| - p
  {
    if p < |line| && IsDecimal(line[p]) {
      DigitsEndAll(line, p + 1);
    }
  }

  /**
   * The part of `LOG_LINE` after the tag, tried with the tag ending at `j`:
   * `\( *(\d+)\): (.*?)$`. Both runs are maximal because the character after each cannot
   * belong to it, so there is at most one way to match; the result is the pid and the message.
   */
  function TailAt(line: string, j: nat): Option<(string, string)>
    requires j <= |line|
  {
    if j < |line| && line[j] == '(' then
      var k := SpacesEnd(line, j + 1);
      var m := DigitsEnd(line, k);
      if k < m && m + 3 <= |line| && line[m..m + 3] == "): " then Some((line[k..m], line[m + 3..]))
      else None
    else None
  }

  /** The first tag end from `j` on where the rest of the line matches: the lazy `(.+?)`. */
  function FirstTail(line: string, j: nat): (r: Option<nat>)
    requires j <= |line|
    ensures r.Some? ==> j <= r.value < |line| && TailAt(line, r.value).Some?
    decreases |line| - j
  {
    if j == |line| then None
    else if TailAt(line, j).Some? then Some(j)
    else FirstTail(line, j + 1)
  }

  /** There is no tag end where the rest matches before the one `FirstTail` finds, or at all when it finds none. */
  lemma {:induction false} FirstTailFirst(line: string, j: nat)
    requires j <= |line|
    ensures var r := FirstTail(line, j);
      (r.Some? ==> forall k :: j <= k < r.value ==> TailAt(line, k) == None) &&
      (r.None? ==> forall k :: j <= k <= |line| ==> TailAt(line, k) == None)
    decreases |line| - j
  {
    if j < |line| && TailAt(line, j).None? {
      FirstTailFirst(line, j + 1);
      var r := FirstTail(line, j + 1);
      assert FirstTail(line, j) == r;
      forall k | j <= k < (if r.Some? then r.value else |line| + 1)
        ensures TailAt(line, k) == None
      {
      }
    }
  }

  /**
   * `LOG_LINE.FindSubmatch`: `^([A-Z])/(.+?)\( *(\d+)\): (.*?)$`. No `.` matches a newline and
   * `$` is the end of the text, so a line holding a newline never matches.
   */
  function LogMatch(line: string): Option<LogGroups> {
    if |line| >= 3 && IsUpper(line[0]) && line[1] == '/' && '\n' !in line then
      match FirstTail(line, 3)
      case None => None
      case Some(j) =>
        var t := TailAt(line, j).value;
        Some(LogGroups(line[..1], line[2..j], t.0, t.1))
    else None
  }

  /**
   * A match is a newline-free line of an upper-case level, `/`, a non-empty tag, and a tail
   * `( pid): msg` right after the tag, where no shorter tag leaves a matching tail.
   */
  lemma LogMatchShape(line: string)
    ensures var r := LogMatch(line);
      r.Some? ==>
        '\n' !in line && |line| >= 3 && IsUpper(line[0]) && line[1] == '/' &&
        r.value.level == line[..1] && r.value.tag != [] && 2 + |r.value.tag| < |line| &&
        line[2..2 + |r.value.tag|] == r.value.tag &&
        TailAt(line, 2 + |r.value.tag|) == Some((r.value.pid, r.value.msg)) &&
        forall k :: 3 <= k < 2 + |r.value.tag| ==> TailAt(line, k) == None
  {
    if |line| >= 3 {
      FirstTailFirst(line, 3);
    }
  }

  /** The line `logcat` prints for one message, with the pid padded by `pad` spaces. */
  function LogText(level: char, tag: string, pad: nat, pid: string, msg: string): string {
    [level] + "/" + tag + "(" + Spaces(pad) + pid + ("): " + msg)
  }

  lemma TailOfLogText(level: char, tag: string, pad: nat, pid: string, msg: string)
    requires pid != [] && forall i :: 0 <= i < |pid| ==> IsDecimal(pid[i])
    ensures var line := LogText(level, tag, pad, pid, msg);
      TailAt(line, 2 + |tag|) == Some((pid, msg))
  {
    TailOfParts([level] + "/" + tag + "(", pad, pid, msg);
  }

  /** The tail `(<spaces><pid>): <msg>` matches from its `(` on, whatever comes before it. */
  lemma TailOfParts(head: string, pad: nat, pid: string, msg: string)
    requires head != [] && head[|head| - 1] == '('
    requires pid != [] && forall i :: 0 <= i < |pid| ==> IsDecimal(pid[i])
    ensures TailAt(head + Spaces(pad) + pid + ("): " + msg), |head| - 1) == Some((pid, msg))
  {
    var sp, tail := Spaces(pad), "): " + msg;
    var line := head + sp + pid + tail;
    var j := |head| - 1;
    var k := |head| + pad;
    var m := k + |pid|;
    assert line[..k] == head + sp && line[k..m] == pid && line[m..] == tail by {
      ThreeParts(head + sp, pid, tail);
    }
    assert line[j] == '(' by {
      assert line[..k][j] == head[j];
    }
    assert SpacesEnd(line, j + 1) == k by {
      forall i | j + 1 <= i < k
        ensures line[i] == ' '
      {
        assert line[i] == line[..k][i] == sp[i - j - 1];
      }
      assert line[k] == line[k..m][0] == pid[0];
      SpacesRun(line, j + 1, k);
    }
    assert DigitsEnd(line, k) == m by {
      forall i | k <= i < m
        ensures IsDecimal(line[i])
      {
        assert line[i] == line[k..m][i - k] == pid[i - k];
      }
      assert line[m] == line[m..][0] == tail[0];
      DigitsRun(line, k, m);
    }
    assert line[m..m + 3] == "): " && line[m + 3..] == msg by {
      assert line[m..m + 3] == line[m..][..3];
      assert line[m + 3..] == line[m..][3..];
    }
  }

  lemma ThreeParts(a: string, b: string, c: string)
    ensures (a + b + c)[..|a|] == a && (a + b + c)[|a|..|a| + |b|] == b && (a + b + c)[|a| + |b|..] == c
  {
    assert a + b + c == a + (b + c);
    assert (b + c)[..|b|] == b;
  }

  lemma {:induction false} SpacesRun(line: string, p: nat, e: nat)
    requires p <= e < |line| && line[e] != ' '
    requires forall i :: p <= i < e ==> line[i] == ' '
    ensures SpacesEnd(line, p) == e
    decreases e - p
  {
    if p < e {
      SpacesRun(line, p + 1, e);
    }
  }

  lemma {:induction false} DigitsRun(line: string, p: nat, e: nat)
    requires p <= e < |line| && !IsDecimal(line[e])
    requires forall i :: p <= i < e ==> IsDecimal(line[i])
    ensures DigitsEnd(line, p) == e
    decreases e - p
  {
    if p < e {
      DigitsRun(line, p + 1, e);
    }
  }

  /** No tail can start inside a tag holding no `(`. */
  lemma {:induction false} FirstTailSkips(line: string, j: nat, e: nat)
    requires j <= e < |line|
    requires forall i :: j <= i < e ==> line[i] != '('
    ensures FirstTail(line, j) == FirstTail(line, e)
    decreases e - j
  {
    if j < e {
      FirstTailSkips(line, j + 1, e);
    }
  }

  /**
   * Matching the line `logcat` prints gives back its level, tag, pid and message, when the tag
   * is non-empty and has no `(`, the pid is decimal and no part holds a newline.
   */
  lemma LogMatchText(level: char, tag: string, pad: nat, pid: string, msg: string)
    requires IsUpper(level) && tag != [] && '(' !in tag && '\n' !in tag && '\n' !in msg
    requires pid != [] && forall i :: 0 <= i < |pid| ==> IsDecimal(pid[i])
    ensures LogMatch(LogText(level, tag, pad, pid, msg)) == Some(LogGroups([level], tag, pid, msg))
  {
    var line := LogText(level, tag, pad, pid, msg);
    var j := 2 + |tag|;
    assert line == [level] + "/" + tag + ("(" + Spaces(pad) + pid + "): " + msg);
    assert |line| >= 3 && IsUpper(line[0]) && line[1] == '/';
    assert '\n' !in line by {
      assert '\n' !in Spaces(pad);
      assert '\n' !in pid by {
        assert forall i :: 0 <= i < |pid| ==> pid[i] != '\n';
      }
    }
    assert FirstTail(line, 3) == Some(j) by {
      assert forall i :: 2 <= i < j ==> line[i] == tag[i - 2];
      FirstTailSkips(line, 3, j);
      TailOfLogText(level, tag, pad, pid, msg);
    }
    assert line[..1] == [level] && line[2..j] == tag;
    TailOfLogText(level, tag, pad, pid, msg);
  }

  /**
   * `parseDeath` of `log.go`: only an ActivityManager line (the tag exactly as captured); the
   * patterns are tried as KILL, LEAVE, DEATH. KILL captures pid then package, the other two
   * package then pid. The result is (pid, package).
   */
  function Death(tag: string, msg: string, p: Patterns): (r: Option<(string, string)>)
    ensures r.Some? ==> tag == ACTIVITY_MANAGER
    ensures tag == ACTIVITY_MANAGER ==>
      (p.kill(msg).Some? ==> r == p.kill(msg)) &&
      (p.kill(msg).None? && p.leave(msg).Some? ==> r == Some((p.leave(msg).value.1, p.leave(msg).value.0))) &&
      (p.kill(msg).None? && p.leave(msg).None? && p.death(msg).Some? ==>
         r == Some((p.death(msg).value.1, p.death(msg).value.0))) &&
      (p.kill(msg).None? && p.leave(msg).None? && p.death(msg).None? ==> r == None)
  {
    if tag != ACTIVITY_MANAGER then None
    else if p.kill(msg).Some? then
      var g := p.kill(msg).value;
      Some((g.0, g.1))
    else if p.leave(msg).Some? then
      var g := p.leave(msg).value;
      Some((g.1, g.0))
    else if p.death(msg).Some? then
      var g := p.death(msg).value;
      Some((g.1, g.0))
    else None
  }

  function StartedMessage(pid: string, proc: string): string {
    "\nProcess: " + pid + " (PID: " + proc + ") started\n"
  }

  function EndedMessage(pack: string, pid: string): string {
    "\nProcess: " + pack + " (PID: " + pid + ") ended\n"
  }

  /** `ParseLine`. */
  function ParseLine(line: string, p: Patterns): (r: Option<Line>)
    ensures r == None <==> BugLine(line) || LogMatch(line) == None
    ensures r.Some? ==>
      var g := LogMatch(line).value;
      match p.start(g.msg)
      case Some(s) =>
        r.value == Line(ProcessStart, s.pid, s.proc, "", "", StartedMessage(s.pid, s.proc))
      case None =>
        match Death(g.tag, g.msg, p)
        case Some(d) => r.value == Line(ProcessStop, d.0, d.1, "", "", EndedMessage(d.1, d.0))
        case None => r.value == Line(Log, g.pid, "", g.level, TrimSpace(g.tag), g.msg)
  {
    if BugLine(line) then None
    else match LogMatch(line)
      case None => None
      case Some(g) =>
        match p.start(g.msg)
        case Some(s) => Some(Line(ProcessStart, s.pid, s.proc, "", "", StartedMessage(s.pid, s.proc)))
        case None =>
          match Death(g.tag, g.msg, p)
          case Some(d) => Some(Line(ProcessStop, d.0, d.1, "", "", EndedMessage(d.1, d.0)))
          case None => Some(Line(Log, g.pid, "", g.level, TrimSpace(g.tag), g.msg))
  }

  /** Parsing a printed non-ActivityManager line that no pattern matches gives back its fields. */
  lemma ParseLogText(level: char, tag: string, pad: nat, pid: string, msg: string, p: Patterns)
    requires IsUpper(level) && tag != [] && '(' !in tag && '\n' !in tag && '\n' !in msg
    requires pid != [] && forall i :: 0 <= i < |pid| ==> IsDecimal(pid[i])
    requires !BugLine(LogText(level, tag, pad, pid, msg))
    requires p.start(msg) == None && tag != ACTIVITY_MANAGER
    ensures ParseLine(LogText(level, tag, pad, pid, msg), p) == Some(Line(Log, pid, "", [level], TrimSpace(tag), msg))
  {
    LogMatchText(level, tag, pad, pid, msg);
  }
}
