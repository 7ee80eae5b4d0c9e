/** What the watchdog sends, over any run of passes and maintenance windows. */
module Watchdog {
  import opened Basics

  datatype Level = Ok | Warn | Fail

  datatype Check = Check(key: string, level: Level)

  datatype Report = Report(checks: seq<Check>, reboot: Option<int>)

  datatype Policy = Policy(repeatAfter: int, reportHour: int, force: bool, alertOnWarn: bool)

  /** The clock of a pass: seconds, and the local hour. */
  datatype Clock = Clock(now: int, hour: int)

  const MINUTE := 60
  const REPORT_GAP := 23 * 3600

  datatype Memory = Memory(failing: map<string, Level>, lastAlert: Option<int>, lastReport: Option<int>,
                           lastBoot: Option<int>, lastRun: Option<int>, consecutive: nat, mutedUntil: Option<int>,
                           mutedAlerts: nat)

  const EMPTY := Memory(map[], None, None, None, None, 0, None, 0)

  datatype Decision = Decision(sendAlert: bool, sendRecovery: bool, sendReport: bool, news: set<string>,
                               fixed: set<string>, rebooted: bool, muted: bool, justUnmuted: bool)

  // ---- the problems of a report ----

  predicate Reports(checks: seq<Check>, key: string, level: Level) {
    exists i :: 0 <= i < |checks| && checks[i].key == key && checks[i].level == level
  }

  predicate Alertable(checks: seq<Check>, onWarn: bool, key: string) {
    Reports(checks, key, Fail) || (onWarn && Reports(checks, key, Warn))
  }

  function KeysOf(checks: seq<Check>): set<string> {
    set i | 0 <= i < |checks| :: checks[i].key
  }

  /** The problems worth an alert; a key reported at both levels counts at the lower one. */
  ghost function Problems(checks: seq<Check>, onWarn: bool): map<string, Level> {
    map k | k in KeysOf(checks) && Alertable(checks, onWarn, k) ::
      if onWarn && Reports(checks, k, Warn) then Warn else Fail
  }

  // ---- one pass ----

  predicate Elapsed(last: Option<int>, now: int, gap: int) {
    last.None? || now - last.value >= gap
  }

  predicate IsMuted(m: Memory, now: int) {
    m.mutedUntil.Some? && now < m.mutedUntil.value
  }

  predicate Rebooted(m: Memory, r: Report) {
    r.reboot.Some? && m.lastBoot.Some? && r.reboot.value - m.lastBoot.value > MINUTE
  }

  function News(failing: map<string, Level>, current: map<string, Level>): set<string> {
    set k | k in current && (k !in failing || failing[k] != current[k])
  }

  predicate AlertDue(m: Memory, r: Report, current: map<string, Level>, p: Policy, now: int) {
    || News(m.failing, current) != {}
    || (current != map[] && p.repeatAfter > 0 && Elapsed(m.lastAlert, now, p.repeatAfter))
    || Rebooted(m, r)
  }

  predicate RecoveryDue(m: Memory, current: map<string, Level>) {
    current == map[] && m.failing != map[]
  }

  predicate ReportDue(m: Memory, p: Policy, c: Clock) {
    p.force || (p.reportHour >= 0 && c.hour == p.reportHour
      && (m.lastReport.None? || c.now - m.lastReport.value > REPORT_GAP))
  }

  /** The decision of a pass and what is remembered after it. */
  ghost function Pass(m: Memory, r: Report, p: Policy, c: Clock): (Memory, Decision) {
    var current := Problems(r.checks, p.alertOnWarn);
    var alert, recovery, report := AlertDue(m, r, current, p, c.now), RecoveryDue(m, current), ReportDue(m, p, c);
    var news, fixed := News(m.failing, current), m.failing.Keys - current.Keys;
    var ran := m.(lastRun := Some(c.now), lastBoot := r.reboot,
                  lastReport := if report then Some(c.now) else m.lastReport);
    if IsMuted(m, c.now) then
      (ran.(mutedAlerts := m.mutedAlerts + if alert || recovery then 1 else 0),
       Decision(false, false, report, news, fixed, Rebooted(m, r), true, false))
    else
      (ran.(failing := current, consecutive := if current != map[] then m.consecutive + 1 else 0,
            lastAlert := if alert || recovery then Some(c.now) else m.lastAlert,
            mutedUntil := None, mutedAlerts := if m.mutedUntil.Some? then 0 else m.mutedAlerts),
       Decision(alert, recovery, report, news, fixed, Rebooted(m, r), false, m.mutedUntil.Some?))
  }

  // ---- runs ----

  datatype Event = Ran(report: Report, policy: Policy, clock: Clock) | Mute(until: Option<int>)

  ghost function Next(m: Memory, e: Event): Memory {
    match e
    case Ran(r, p, c) => Pass(m, r, p, c).0
    case Mute(until) => m.(mutedUntil := until, mutedAlerts := if until.Some? then 0 else m.mutedAlerts)
  }

  ghost function After(run: seq<Event>): Memory {
    if run == [] then EMPTY else Next(After(run[..|run| - 1]), run[|run| - 1])
  }

  /** What the i-th event of the run sent. */
  ghost function Sent(run: seq<Event>, i: nat): Decision
    requires i < |run|
  {
    match run[i]
    case Ran(r, p, c) => Pass(After(run[..i]), r, p, c).1
    case Mute(_) => Decision(false, false, false, {}, {}, false, false, false)
  }

  ghost predicate Unmuted(run: seq<Event>, i: nat)
    requires i < |run|
  {
    run[i].Ran? && !IsMuted(After(run[..i]), run[i].clock.now)
  }

  /** The problems seen by the last pass that was not muted. */
  ghost function LastSeen(run: seq<Event>): map<string, Level> {
    if run == [] then map[]
    else if Unmuted(run, |run| - 1) then Problems(run[|run| - 1].report.checks, run[|run| - 1].policy.alertOnWarn)
    else LastSeen(run[..|run| - 1])
  }

  /** Unmuted passes in a row, up to now, that saw a problem. */
  ghost function DirtyPasses(run: seq<Event>): nat {
    if run == [] then 0
    else if Unmuted(run, |run| - 1) then
      if LastSeen(run) != map[] then DirtyPasses(run[..|run| - 1]) + 1 else 0
    else DirtyPasses(run[..|run| - 1])
  }

  /** The memory is what the last unmuted pass saw: a mute neither adds to it nor takes from it. */
  lemma {:induction false} RemembersLastSeen(run: seq<Event>)
    ensures After(run).failing == LastSeen(run) && After(run).consecutive == DirtyPasses(run)
  {
    if run != [] {
      RemembersLastSeen(run[..|run| - 1]);
    }
  }

  /** A problem that is new since the last unmuted pass, or has changed level, alerts in the first unmuted
      pass that sees it; in particular one that began during a mute. */
  lemma NewProblemAlerts(run: seq<Event>, i: nat, key: string)
    requires i < |run| && Unmuted(run, i)
    requires var seen := Problems(run[i].report.checks, run[i].policy.alertOnWarn);
      key in seen && (key !in LastSeen(run[..i]) || LastSeen(run[..i])[key] != seen[key])
    ensures Sent(run, i).sendAlert && key in Sent(run, i).news
  {
    RemembersLastSeen(run[..i]);
    assert key in News(After(run[..i]).failing, Problems(run[i].report.checks, run[i].policy.alertOnWarn));
  }

  /** An alert has gone out with no recovery since. */
  ghost predicate Owed(run: seq<Event>, n: nat)
    requires n <= |run|
  {
    exists j :: 0 <= j < n && Sent(run, j).sendAlert && forall k | j <= k < n :: !Sent(run, k).sendRecovery
  }

  /** While something is remembered as failing, an alert is owed its recovery. */
  lemma {:induction false} FailingMeansAlerted(run: seq<Event>, n: nat)
    requires n <= |run|
    ensures After(run[..n]).failing != map[] ==> Owed(run, n)
  {
    if n > 0 {
      FailingMeansAlerted(run, n - 1);
      if After(run[..n]).failing != map[] {
        FailingStep(run, n - 1);
      }
      if After(run[..n]).failing != map[] && After(run[..n - 1]).failing != map[] {
        var j :| 0 <= j < n - 1 && Sent(run, j).sendAlert && forall k | j <= k < n - 1 :: !Sent(run, k).sendRecovery;
        assert !Sent(run, n - 1).sendRecovery;
      }
    }
  }

  /** An event after which something is remembered sent no recovery, and an alert when nothing was remembered before. */
  lemma FailingStep(run: seq<Event>, k: nat)
    requires k < |run| && After(run[..k + 1]).failing != map[]
    ensures !Sent(run, k).sendRecovery
    ensures After(run[..k]).failing == map[] ==> Sent(run, k).sendAlert
  {
    assert run[..k + 1][..k] == run[..k];
    if After(run[..k]).failing == map[] {
      NewsFromNothing(After(run[..k + 1]).failing);
    }
  }

  lemma NewsFromNothing(current: map<string, Level>)
    requires current != map[]
    ensures News(map[], current) != {}
  {
    var k :| k in current;
    assert k in News(map[], current);
  }

  /** From an empty memory, every recovery is preceded by an alert with no recovery in between. */
  lemma RecoveryAfterAlert(run: seq<Event>, i: nat)
    requires i < |run| && Sent(run, i).sendRecovery
    ensures Owed(run, i)
  {
    FailingMeansAlerted(run, i);
  }

  /** The first pass after a window: with no reboot and no repeat due, what is still broken alerts exactly
      when some of it was not already remembered, at the same level, from before the window. */
  lemma AfterWindowIff(run: seq<Event>, i: nat)
    requires i < |run| && Unmuted(run, i)
    requires !Rebooted(After(run[..i]), run[i].report)
    requires !(run[i].policy.repeatAfter > 0
      && Elapsed(After(run[..i]).lastAlert, run[i].clock.now, run[i].policy.repeatAfter))
    ensures var broken := Problems(run[i].report.checks, run[i].policy.alertOnWarn);
      Sent(run, i).sendAlert
      <==> exists k :: k in broken && (k !in LastSeen(run[..i]) || LastSeen(run[..i])[k] != broken[k])
  {
    RemembersLastSeen(run[..i]);
    var broken := Problems(run[i].report.checks, run[i].policy.alertOnWarn);
    var news := News(LastSeen(run[..i]), broken);
    if exists k :: k in broken && (k !in LastSeen(run[..i]) || LastSeen(run[..i])[k] != broken[k]) {
      var k :| k in broken && (k !in LastSeen(run[..i]) || LastSeen(run[..i])[k] != broken[k]);
      assert k in news;
    } else {
      assert news == {};
    }
  }

  /** Scheduled reports are more than 23 hours after the last report of any kind. */
  lemma ReportsSpaced(run: seq<Event>, i: nat, j: nat)
    requires i < j < |run| && Sent(run, i).sendReport && Sent(run, j).sendReport && !run[j].policy.force
    requires forall k | i < k < j :: !Sent(run, k).sendReport
    ensures run[i].Ran? && run[j].clock.now - run[i].clock.now > REPORT_GAP
  {
    LastReportKept(run, i, j);
  }

  lemma {:induction false} LastReportKept(run: seq<Event>, i: nat, j: nat)
    requires i < j <= |run| && Sent(run, i).sendReport && forall k | i < k < j :: !Sent(run, k).sendReport
    ensures run[i].Ran? && After(run[..j]).lastReport == Some(run[i].clock.now)
  {
    assert run[..j][..j - 1] == run[..j - 1];
    if j > i + 1 {
      LastReportKept(run, i, j - 1);
      assert !Sent(run, j - 1).sendReport;
    }
  }

  // ---- what makes a pass send ----

  /** A key is a problem exactly when some check reports it as failed, or as a warning when warnings count. */
  lemma ProblemIff(checks: seq<Check>, onWarn: bool, key: string)
    ensures key in Problems(checks, onWarn) <==>
      exists i ::
        0 <= i < |checks| && checks[i].key == key && (checks[i].level == Fail || (onWarn && checks[i].level == Warn))
    ensures key in Problems(checks, onWarn) ==>
      (Problems(checks, onWarn)[key] == Warn <==>
         onWarn && exists i :: 0 <= i < |checks| && checks[i].key == key && checks[i].level == Warn)
  {
    if Alertable(checks, onWarn, key) {
      var i :| 0 <= i < |checks| && checks[i].key == key
        && (checks[i].level == Fail || (onWarn && checks[i].level == Warn));
      assert checks[i].key in KeysOf(checks);
    }
  }

  /** The pass that sent the last mail about problems before event i. */
  ghost function LastMail(run: seq<Event>, i: nat): (j: Option<nat>)
    requires i <= |run|
    ensures j.Some? ==> j.value < i && run[j.value].Ran?
  {
    if i == 0 then None
    else if Sent(run, i - 1).sendAlert || Sent(run, i - 1).sendRecovery then Some(i - 1)
    else LastMail(run, i - 1)
  }

  lemma {:induction false} LastMailKept(run: seq<Event>, i: nat)
    requires i <= |run|
    ensures var j := LastMail(run, i);
      After(run[..i]).lastAlert == if j.Some? then Some(run[j.value].clock.now) else None
  {
    if i > 0 {
      LastMailKept(run, i - 1);
      assert run[..i][..i - 1] == run[..i - 1];
    }
  }

  /** The last pass before event i. */
  function LastPass(run: seq<Event>, i: nat): (k: Option<nat>)
    requires i <= |run|
    ensures k.Some? ==> k.value < i && run[k.value].Ran?
  {
    if i == 0 then None else if run[i - 1].Ran? then Some(i - 1) else LastPass(run, i - 1)
  }

  lemma {:induction false} LastBootKept(run: seq<Event>, i: nat)
    requires i <= |run|
    ensures var k := LastPass(run, i);
      After(run[..i]).lastBoot == if k.Some? then run[k.value].report.reboot else None
  {
    if i > 0 {
      LastBootKept(run, i - 1);
      assert run[..i][..i - 1] == run[..i - 1];
    }
  }

  /** The machine started again since the last pass: both passes know the boot time, more than a minute apart. */
  predicate Restarted(run: seq<Event>, i: nat)
    requires i < |run| && run[i].Ran?
  {
    var k, now := LastPass(run, i), run[i].report.reboot;
    && k.Some? && run[k.value].report.reboot.Some? && now.Some?
    && now.value > run[k.value].report.reboot.value + 60
  }

  /** Nothing was mailed yet, or the repeat time since the last mail is over. */
  ghost predicate MayRepeat(run: seq<Event>, i: nat)
    requires i < |run| && run[i].Ran?
  {
    var j, gap := LastMail(run, i), run[i].policy.repeatAfter;
    gap > 0 && (j.Some? ==> run[i].clock.now - run[j.value].clock.now >= gap)
  }

  /** An unmuted pass alerts exactly when it sees something the last unmuted pass did not see at that level, or
      something at all when it may repeat, or a restart. */
  lemma AlertIff(run: seq<Event>, i: nat)
    requires i < |run| && Unmuted(run, i)
    ensures var seen, was := Problems(run[i].report.checks, run[i].policy.alertOnWarn), LastSeen(run[..i]);
      Sent(run, i).sendAlert <==>
        || (exists key :: key in seen && (key !in was || was[key] != seen[key]))
        || (seen != map[] && MayRepeat(run, i))
        || Restarted(run, i)
  {
    LastMailKept(run, i);
    LastBootKept(run, i);
    RemembersLastSeen(run[..i]);
    var seen, was := Problems(run[i].report.checks, run[i].policy.alertOnWarn), LastSeen(run[..i]);
    if exists key :: key in seen && (key !in was || was[key] != seen[key]) {
      var key :| key in seen && (key !in was || was[key] != seen[key]);
      assert key in News(was, seen);
    } else {
      assert News(was, seen) == {};
    }
  }

  /** An unmuted pass sends a recovery exactly when it sees nothing and the last unmuted pass saw something. */
  lemma RecoveryIff(run: seq<Event>, i: nat)
    requires i < |run| && Unmuted(run, i)
    ensures Sent(run, i).sendRecovery
       <==> Problems(run[i].report.checks, run[i].policy.alertOnWarn) == map[] && LastSeen(run[..i]) != map[]
  {
    RemembersLastSeen(run[..i]);
  }

  /** With an earlier report at j, a pass reports exactly when forced, or at the hour when 23 hours are over. */
  lemma ReportIff(run: seq<Event>, j: nat, i: nat)
    requires j < i < |run| && run[i].Ran? && Sent(run, j).sendReport && forall k | j < k < i :: !Sent(run, k).sendReport
    ensures run[j].Ran?
    ensures Sent(run, i).sendReport <==>
      || run[i].policy.force
      || (run[i].policy.reportHour >= 0 && run[i].clock.hour == run[i].policy.reportHour
          && run[i].clock.now - run[j].clock.now > 23 * 3600)
  {
    LastReportKept(run, j, i);
  }

  /** Without an earlier report, exactly when forced or at the hour. */
  lemma FirstReportIff(run: seq<Event>, i: nat)
    requires i < |run| && run[i].Ran? && forall k | 0 <= k < i :: !Sent(run, k).sendReport
    ensures Sent(run, i).sendReport <==>
      run[i].policy.force || (run[i].policy.reportHour >= 0 && run[i].clock.hour == run[i].policy.reportHour)
  {
    NoReportYet(run, i);
  }

  lemma {:induction false} NoReportYet(run: seq<Event>, i: nat)
    requires i <= |run| && forall k | 0 <= k < i :: !Sent(run, k).sendReport
    ensures After(run[..i]).lastReport == None
  {
    if i > 0 {
      assert run[..i][..i - 1] == run[..i - 1];
      NoReportYet(run, i - 1);
      assert !Sent(run, i - 1).sendReport;
    }
  }

  /** A mute lasts until its time: the passes before it are muted, and the first one after it is not. */
  lemma {:induction false} MuteHolds(run: seq<Event>, j: nat, i: nat, until: int)
    requires j < i < |run| && run[j] == Mute(Some(until)) && run[i].Ran?
    requires forall k | j < k < i :: run[k].Ran? && run[k].clock.now < until
    ensures Unmuted(run, i) <==> run[i].clock.now >= until
  {
    MuteKept(run, j, i, until);
  }

  lemma {:induction false} MuteKept(run: seq<Event>, j: nat, i: nat, until: int)
    requires j < i <= |run| && run[j] == Mute(Some(until))
    requires forall k | j < k < i :: run[k].Ran? && run[k].clock.now < until
    ensures After(run[..i]).mutedUntil == Some(until)
  {
    assert run[..i][..i - 1] == run[..i - 1];
    if i > j + 1 {
      MuteKept(run, j, i - 1, until);
      assert run[i - 1].Ran?;
    }
  }

  /** A muted pass sends no alert and no recovery. */
  lemma MutedIsSilent(run: seq<Event>, i: nat)
    requires i < |run| && !Unmuted(run, i)
    ensures !Sent(run, i).sendAlert && !Sent(run, i).sendRecovery
  {
  }

  /** What a pass says of itself: muted exactly when a window is open, just unmuted exactly when one has run out, the
      problems that are new, those that are gone, and a restart. */
  lemma PassSays(run: seq<Event>, i: nat)
    requires i < |run| && run[i].Ran?
    ensures var d, seen := Sent(run, i), Problems(run[i].report.checks, run[i].policy.alertOnWarn);
      var was := LastSeen(run[..i]);
      && (d.muted <==> !Unmuted(run, i))
      && (d.justUnmuted <==> Unmuted(run, i) && After(run[..i]).mutedUntil.Some?)
      && (forall key :: key in d.news <==> key in seen && (key !in was || was[key] != seen[key]))
      && (forall key :: key in d.fixed <==> key in was && key !in seen)
      && (d.rebooted <==> Restarted(run, i))
  {
    LastBootKept(run, i);
    RemembersLastSeen(run[..i]);
  }

  /** A window that has run out is closed by the first pass behind it. */
  lemma WindowCloses(run: seq<Event>, i: nat)
    requires i < |run| && Unmuted(run, i)
    ensures After(run[..i + 1]).mutedUntil == None
    ensures After(run[..i]).mutedUntil.Some? ==> After(run[..i + 1]).mutedAlerts == 0
  {
    assert run[..i + 1][..i] == run[..i];
  }

  /** The pass would mail if no window were open. */
  ghost predicate WouldMail(run: seq<Event>, i: nat)
    requires i < |run| && run[i].Ran?
  {
    var open := After(run[..i]).(mutedUntil := None);
    var d := Pass(open, run[i].report, run[i].policy, run[i].clock).1;
    d.sendAlert || d.sendRecovery
  }

  /** How many passes of the window would have mailed. */
  ghost function Withheld(run: seq<Event>, j: nat, i: nat): nat
    requires i <= |run| && forall k | j < k < i :: run[k].Ran?
  {
    if i <= j + 1 then 0 else Withheld(run, j, i - 1) + if WouldMail(run, i - 1) then 1 else 0
  }

  lemma MutedPassCounts(run: seq<Event>, k: nat)
    requires k < |run| && run[k].Ran? && !Unmuted(run, k)
    ensures After(run[..k + 1]).mutedAlerts == After(run[..k]).mutedAlerts + if WouldMail(run, k) then 1 else 0
  {
    assert run[..k + 1][..k] == run[..k];
  }

  /** A window counts the mails it withholds. */
  lemma {:induction false} WithheldCounted(run: seq<Event>, j: nat, i: nat, until: int)
    requires j < i <= |run| && run[j] == Mute(Some(until))
    requires forall k | j < k < i :: run[k].Ran? && run[k].clock.now < until
    ensures After(run[..i]).mutedAlerts == Withheld(run, j, i)
  {
    if i > j + 1 {
      WithheldCounted(run, j, i - 1, until);
      MuteHolds(run, j, i - 1, until);
      MutedPassCounts(run, i - 1);
    } else {
      assert run[..i][..j] == run[..j];
    }
  }

  // ---- a problem that outlives a window in silence ----

  function Broken(now: int): Event {
    Ran(Report([Check("Services/freeswitch", Fail)], None), Policy(0, -1, false, false), Clock(now, 0))
  }

  /** Broken before, during and after the window. */
  function WindowRun(): seq<Event> {
    [Broken(0), Mute(Some(100)), Broken(50), Broken(200)]
  }

  /** The problem is not new again when the window closes: the last pass sees it and sends nothing. */
  lemma StillBrokenStaysQuiet()
    ensures Unmuted(WindowRun(), 3) && !Unmuted(WindowRun(), 2) && !Sent(WindowRun(), 3).sendAlert
  {
    var run := WindowRun();
    var key, seen := "Services/freeswitch", Problems([Check("Services/freeswitch", Fail)], false);
    assert seen == map[key := Fail] by {
      assert Reports([Check(key, Fail)], key, Fail) by { assert [Check(key, Fail)][0].key == key; }
      assert KeysOf([Check(key, Fail)]) == {key};
    }
    assert run[..1] == [run[0]] && run[..2] == run[..1] + [run[1]] && run[..3] == run[..2] + [run[2]];
    assert run[..1][..0] == [] && run[..1][0] == run[0];
    var first := Next(EMPTY, run[0]);
    assert After(run[..1]) == first;
    assert first.failing == seen && first.mutedUntil == None && first.lastBoot == None;
    assert run[..2][..1] == run[..1] && run[..3][..2] == run[..2];
    assert After(run[..2]) == first.(mutedUntil := Some(100), mutedAlerts := 0);
    assert After(run[..3]).failing == seen && After(run[..3]).mutedUntil == Some(100);
    assert News(seen, seen) == {};
  }

  // ---- the pass as the watchdog computes it ----

  function AtLevel(checks: seq<Check>, level: Level): (out: seq<Check>)
    ensures forall i | 0 <= i < |out| :: out[i].level == level
    ensures forall key: string :: Reports(out, key, level) <==> Reports(checks, key, level)
  {
    if checks == [] then []
    else
      var rest, c := AtLevel(checks[..|checks| - 1], level), checks[|checks| - 1];
      ReportsNext(checks[..|checks| - 1], c, level);
      ReportsNext(rest, c, level);
      assert checks == checks[..|checks| - 1] + [c];
      if c.level == level then rest + [c] else rest
  }

  lemma ReportsNext(checks: seq<Check>, c: Check, level: Level)
    ensures forall key: string ::
      Reports(checks + [c], key, level) <==> Reports(checks, key, level) || (c.key == key && c.level == level)
  {
    forall key: string
      ensures Reports(checks + [c], key, level) <==> Reports(checks, key, level) || (c.key == key && c.level == level)
    {
      if Reports(checks, key, level) {
        var i :| 0 <= i < |checks| && checks[i].key == key && checks[i].level == level;
        assert (checks + [c])[i] == checks[i];
      }
      if c.key == key && c.level == level {
        assert (checks + [c])[|checks|] == c;
      }
    }
  }

  lemma ReportsBoth(a: seq<Check>, b: seq<Check>, key: string, level: Level)
    ensures Reports(a + b, key, level) <==> Reports(a, key, level) || Reports(b, key, level)
  {
    if Reports(a, key, level) {
      var i :| 0 <= i < |a| && a[i].key == key && a[i].level == level;
      assert (a + b)[i] == a[i];
    }
    if Reports(b, key, level) {
      var i :| 0 <= i < |b| && b[i].key == key && b[i].level == level;
      assert (a + b)[|a| + i] == b[i];
    }
  }

  /** Take the problems worst first; a later one with the same key replaces an earlier one. */
  method Collect(checks: seq<Check>, onWarn: bool) returns (current: map<string, Level>)
    ensures current == Problems(checks, onWarn)
  {
    var fails := AtLevel(checks, Fail);
    var list := fails + AtLevel(checks, Warn);
    current := map[];
    for i := 0 to |list|
      invariant forall k :: k in current <==> Reports(list[..i], k, Fail) || (onWarn && Reports(list[..i], k, Warn))
      invariant forall k :: k in current ==> current[k] == if onWarn && Reports(list[..i], k, Warn) then Warn else Fail
    {
      assert list[..i + 1] == list[..i] + [list[i]];
      ReportsNext(list[..i], list[i], Fail);
      ReportsNext(list[..i], list[i], Warn);
      if list[i].level == Warn && !onWarn {
        continue;
      }
      if list[i].level == Fail {
        assert i < |fails|;
        assert forall k: string :: !Reports(list[..i], k, Warn);
      }
      current := current[list[i].key := list[i].level];
    }
    assert list[..|list|] == list;
    forall k: string
      ensures k in current <==> k in Problems(checks, onWarn)
      ensures k in current ==> current[k] == Problems(checks, onWarn)[k]
    {
      ReportsBoth(fails, AtLevel(checks, Warn), k, Fail);
      ReportsBoth(fails, AtLevel(checks, Warn), k, Warn);
    }
  }

  class Dog {
    var failing: map<string, Level>
    var lastAlert: Option<int>
    var lastReport: Option<int>
    var lastBoot: Option<int>
    var lastRun: Option<int>
    var consecutive: nat
    var mutedUntil: Option<int>
    var mutedAlerts: nat

    ghost function State(): Memory
      reads this
    {
      Memory(failing, lastAlert, lastReport, lastBoot, lastRun, consecutive, mutedUntil, mutedAlerts)
    }

    constructor ()
      ensures State() == EMPTY
    {
      failing, lastAlert, lastReport, lastBoot, lastRun, consecutive, mutedUntil, mutedAlerts :=
        map[], None, None, None, None, 0, None, 0;
    }

    /** The keys not remembered at their present level, and the remembered keys that are gone. */
    method Compare(current: map<string, Level>) returns (news: set<string>, fixed: set<string>)
      ensures news == News(failing, current) && fixed == failing.Keys - current.Keys
    {
      news, fixed := {}, {};
      var todo := current.Keys;
      while todo != {}
        invariant todo <= current.Keys
        invariant news == set k | k in News(failing, current) && k !in todo
        decreases todo
      {
        var k :| k in todo;
        if k !in failing || failing[k] != current[k] {
          news := news + {k};
        }
        todo := todo - {k};
      }
      todo := failing.Keys;
      while todo != {}
        invariant todo <= failing.Keys
        invariant fixed == set k | k in failing.Keys - current.Keys && k !in todo
        decreases todo
      {
        var k :| k in todo;
        if k !in current {
          fixed := fixed + {k};
        }
        todo := todo - {k};
      }
    }

    /** What the pass would send if nothing is muted. */
    method Due(current: map<string, Level>, news: set<string>, r: Report, p: Policy, c: Clock)
      returns (sendAlert: bool, sendRecovery: bool, sendReport: bool, rebooted: bool)
      requires news == News(failing, current)
      ensures sendAlert == AlertDue(State(), r, current, p, c.now)
      ensures sendRecovery == RecoveryDue(State(), current)
      ensures sendReport == ReportDue(State(), p, c)
      ensures rebooted == Rebooted(State(), r)
    {
      sendAlert, sendRecovery, sendReport, rebooted := false, false, false, false;
      if |news| > 0 {
        sendAlert := true;
      } else if |current| > 0 && p.repeatAfter > 0 && Elapsed(lastAlert, c.now, p.repeatAfter) {
        sendAlert := true;
      }
      if |current| == 0 && |failing| > 0 {
        sendRecovery := true;
      }
      if r.reboot.Some? && lastBoot.Some? && r.reboot.value - lastBoot.value > MINUTE {
        sendAlert, rebooted := true, true;
      }
      if p.force {
        sendReport := true;
      } else if p.reportHour >= 0 && c.hour == p.reportHour
        && (lastReport.None? || c.now - lastReport.value > REPORT_GAP) {
        sendReport := true;
      }
    }

    /** Compare this pass with the memory, decide what to send, and remember. */
    method Decide(r: Report, p: Policy, c: Clock) returns (d: Decision)
      modifies this
      ensures (State(), d) == Pass(old(State()), r, p, c)
    {
      var current := Collect(r.checks, p.alertOnWarn);
      var news, fixed := Compare(current);
      var sendAlert, sendRecovery, sendReport, rebooted := Due(current, news, r, p, c);
      lastRun, lastBoot := Some(c.now), r.reboot;
      if sendReport {
        lastReport := Some(c.now);
      }
      if mutedUntil.Some? && c.now < mutedUntil.value {
        if sendAlert || sendRecovery {
          mutedAlerts := mutedAlerts + 1;
        }
        return Decision(false, false, sendReport, news, fixed, rebooted, true, false);
      }
      d := Decision(sendAlert, sendRecovery, sendReport, news, fixed, rebooted, false, mutedUntil.Some?);
      Remember(current, sendAlert || sendRecovery, c.now);
    }

    /** What an unmuted pass leaves behind: a mute that ran out is cleared. */
    method Remember(current: map<string, Level>, mailed: bool, now: int)
      modifies this
      ensures State() == old(State()).(
        failing := current, consecutive := if current != map[] then old(consecutive) + 1 else 0,
        lastAlert := if mailed then Some(now) else old(lastAlert),
        mutedUntil := None, mutedAlerts := if old(mutedUntil).Some? then 0 else old(mutedAlerts))
    {
      if mutedUntil.Some? {
        mutedUntil, mutedAlerts := None, 0;
      }
      failing := current;
      consecutive := if current != map[] then consecutive + 1 else 0;
      if mailed {
        lastAlert := Some(now);
      }
    }
  }
}
