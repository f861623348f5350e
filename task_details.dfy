/**
  The session view of a subtask: the one-second tick of the session clock
  and of today's time, the tracking switch (start, pause, stop, break), and
  the three ways the clocks are written out.
 */
module TaskDetails {
  import opened Wrappers
  import opened Decimal
  import opened Strings

  datatype SessionTime = SessionTime(hours: nat, minutes: nat, seconds: nat)
  datatype TodayTime = TodayTime(hours: nat, minutes: nat)

  const ZeroSession: SessionTime := SessionTime(0, 0, 0)
  const ZeroToday: TodayTime := TodayTime(0, 0)

  function TotalSeconds(t: SessionTime): nat {
    t.hours * 3600 + t.minutes * 60 + t.seconds
  }

  function TotalMinutes(t: TodayTime): nat {
    t.hours * 60 + t.minutes
  }

  /** Seconds and minutes below 60, as every clock reached from zero. */
  predicate SessionNormal(t: SessionTime) {
    t.seconds < 60 && t.minutes < 60
  }

  predicate TodayNormal(t: TodayTime) {
    t.minutes < 60
  }

  /** The setSessionTime updater: one more second, carrying seconds and then minutes at exactly 60. */
  function TickSession(t: SessionTime): (r: SessionTime)
    ensures TotalSeconds(r) == TotalSeconds(t) + 1
    ensures SessionNormal(t) ==> SessionNormal(r)
  {
    var seconds := t.seconds + 1;
    var minutes := if seconds == 60 then t.minutes + 1 else t.minutes;
    var seconds' := if seconds == 60 then 0 else seconds;
    var hours := if minutes == 60 then t.hours + 1 else t.hours;
    var minutes' := if minutes == 60 then 0 else minutes;
    SessionTime(hours, minutes', seconds')
  }

  /** The setTodayTime updater: one more minute, carrying at exactly 60. */
  function TickToday(t: TodayTime): (r: TodayTime)
    ensures TotalMinutes(r) == TotalMinutes(t) + 1
    ensures TodayNormal(t) ==> TodayNormal(r)
  {
    var minutes := t.minutes + 1;
    if minutes == 60 then TodayTime(t.hours + 1, 0) else TodayTime(t.hours, minutes)
  }

  /** The guard on today's update: `sessionTime.seconds % 60 === 0 && sessionTime.seconds > 0`. */
  predicate TodayGuard(session: SessionTime) {
    session.seconds % 60 == 0 && session.seconds > 0
  }

  /** A normal clock is determined by its total: the tick's result is the only normal clock one second on. */
  lemma NormalUnique(a: SessionTime, b: SessionTime)
    requires SessionNormal(a) && SessionNormal(b)
    requires TotalSeconds(a) == TotalSeconds(b)
    ensures a == b
  {
    var m1, m2 := a.minutes * 60 + a.seconds, b.minutes * 60 + b.seconds;
    assert (a.hours - b.hours) * 3600 == m2 - m1;
    MultipleInOpenInterval(a.hours - b.hours, 3600, m2 - m1);
    assert (a.minutes - b.minutes) * 60 == b.seconds - a.seconds;
    MultipleInOpenInterval(a.minutes - b.minutes, 60, b.seconds - a.seconds);
  }

  lemma MultipleInOpenInterval(k: int, d: nat, x: int)
    requires d > 0 && k * d == x && -(d as int) < x < d
    ensures k == 0
  {
  }

  /** The reference clock for a number of elapsed seconds. */
  function FromSeconds(n: nat): (t: SessionTime)
    ensures SessionNormal(t) && TotalSeconds(t) == n
  {
    SessionTime(n / 3600, (n % 3600) / 60, n % 60)
  }

  /** n ticks from zero. */
  function TickSessionTimes(t: SessionTime, n: nat): SessionTime
    decreases n
  {
    if n == 0 then t else TickSessionTimes(TickSession(t), n - 1)
  }

  /** Ticking n times from a normal clock agrees with the reference clock for the advanced total. */
  lemma {:induction false} TicksMatchReference(t: SessionTime, n: nat)
    requires SessionNormal(t)
    ensures TickSessionTimes(t, n) == FromSeconds(TotalSeconds(t) + n)
    decreases n
  {
    if n == 0 {
      NormalUnique(t, FromSeconds(TotalSeconds(t)));
    } else {
      TicksMatchReference(TickSession(t), n - 1);
    }
  }

  /** With seconds kept below 60 the guard never holds, so today's time never moves. */
  lemma TodayGuardNeverFires(session: SessionTime)
    requires SessionNormal(session)
    ensures !TodayGuard(session)
  {
  }

  /**
    The tracking state of the view: the tracking flag and the two clocks.
    Toasts are returned as their description text.
   */
  class Tracker {
    var isTracking: bool
    var session: SessionTime
    var today: TodayTime

    ghost predicate Valid()
      reads this
    {
      SessionNormal(session) && TodayNormal(today)
    }

    constructor ()
      ensures !isTracking && session == ZeroSession && today == ZeroToday
      ensures Valid()
    {
      isTracking := false;
      session := ZeroSession;
      today := ZeroToday;
    }

    /** One firing of the one-second interval, which exists only while tracking. */
    method Tick()
      requires isTracking
      modifies this
      ensures isTracking
      ensures session == TickSession(old(session))
      ensures TotalSeconds(session) == TotalSeconds(old(session)) + 1
      ensures today == if TodayGuard(old(session)) then TickToday(old(today)) else old(today)
      ensures old(Valid()) ==> Valid() && today == old(today)
    {
      var fire := TodayGuard(session);
      session := TickSession(session);
      if fire {
        today := TickToday(today);
      }
    }

    method StartTracking() returns (notice: Option<string>)
      modifies this`isTracking
      ensures isTracking
      ensures notice.Some? <==> !old(isTracking)
      ensures notice.Some? ==> notice.value == "Your session has started. Activity is now being monitored."
    {
      notice := None;
      if !isTracking {
        isTracking := true;
        notice := Some("Your session has started. Activity is now being monitored.");
      }
    }

    method PauseTracking() returns (notice: Option<string>)
      modifies this`isTracking
      ensures !isTracking
      ensures notice.Some? <==> old(isTracking)
      ensures notice.Some? ==> notice.value == "Your session has been paused."
    {
      notice := None;
      if isTracking {
        isTracking := false;
        notice := Some("Your session has been paused.");
      }
    }

    /** Stops tracking and reports the session; the clock itself is not reset. */
    method StopTracking() returns (notice: Option<string>)
      modifies this`isTracking
      ensures !isTracking
      ensures notice.Some? <==> old(isTracking)
      ensures notice.Some? ==> notice.value == "Session completed: " + StopSummary(session)
    {
      notice := None;
      if isTracking {
        isTracking := false;
        notice := Some("Session completed: " + StopSummary(session));
      }
    }

    method TakeBreak() returns (notice: string)
      modifies this`isTracking
      ensures !isTracking
      ensures notice == if old(isTracking) then "Your tracking has been paused during your break."
                        else "Break started. Timer is not running."
    {
      var wasTracking := isTracking;
      isTracking := false;
      notice := if wasTracking then "Your tracking has been paused during your break."
                else "Break started. Timer is not running.";
    }
  }

  /** The stop summary: "Hh " when there are hours, "Mm " when there are minutes or hours, then "Ss". */
  function StopSummary(t: SessionTime): string {
    var h := if t.hours > 0 then DecimalString(t.hours) + "h " else "";
    var m := if t.minutes > 0 || t.hours > 0 then DecimalString(t.minutes) + "m " else "";
    h + m + DecimalString(t.seconds) + "s"
  }

  /** formatSessionTime: H:MM:SS with hours, M:SS with minutes only, 0:SS otherwise. */
  function FormatSessionTime(t: SessionTime): string {
    if t.hours > 0 then DecimalString(t.hours) + ":" + Pad2(t.minutes) + ":" + Pad2(t.seconds)
    else if t.minutes > 0 then DecimalString(t.minutes) + ":" + Pad2(t.seconds)
    else "0:" + Pad2(t.seconds)
  }

  /** formatTodayTime: "H:MM hrs" with hours, "M mins" otherwise. */
  function FormatTodayTime(t: TodayTime): string {
    if t.hours > 0 then DecimalString(t.hours) + ":" + Pad2(t.minutes) + " hrs"
    else DecimalString(t.minutes) + " mins"
  }

  /** Reads a field followed by a one-letter unit. */
  function ParseUnit(token: string, unit: char): Option<nat> {
    if |token| >= 1 && token[|token| - 1] == unit then ParseNat(token[..|token| - 1]) else None
  }

  /** Reads a stop summary back into the clock it describes. */
  function ParseStopSummary(s: string): Option<SessionTime> {
    var parts := Split(s, ' ');
    if |parts| == 3 then
      match (ParseUnit(parts[0], 'h'), ParseUnit(parts[1], 'm'), ParseUnit(parts[2], 's'))
      case (Some(h), Some(m), Some(sec)) => if h > 0 then Some(SessionTime(h, m, sec)) else None
      case _ => None
    else if |parts| == 2 then
      match (ParseUnit(parts[0], 'm'), ParseUnit(parts[1], 's'))
      case (Some(m), Some(sec)) => if m > 0 then Some(SessionTime(0, m, sec)) else None
      case _ => None
    else
      match ParseUnit(parts[0], 's')
      case Some(sec) => Some(SessionTime(0, 0, sec))
      case None => None
  }

  /** Reads a session display back into the clock it shows. */
  function ParseSessionDisplay(s: string): Option<SessionTime> {
    var parts := Split(s, ':');
    if |parts| == 3 then
      match (ParseNat(parts[0]), ParseNat(parts[1]), ParseNat(parts[2]))
      case (Some(h), Some(m), Some(sec)) => Some(SessionTime(h, m, sec))
      case _ => None
    else if |parts| == 2 then
      match (ParseNat(parts[0]), ParseNat(parts[1]))
      case (Some(m), Some(sec)) => Some(SessionTime(0, m, sec))
      case _ => None
    else None
  }

  /** Reads today's display back into the time it shows. */
  function ParseTodayDisplay(s: string): Option<TodayTime> {
    var words := Split(s, ' ');
    if |words| != 2 then None
    else if words[1] == "hrs" then
      var fields := Split(words[0], ':');
      if |fields| == 2 then
        match (ParseNat(fields[0]), ParseNat(fields[1]))
        case (Some(h), Some(m)) => Some(TodayTime(h, m))
        case _ => None
      else None
    else if words[1] == "mins" then
      match ParseNat(words[0])
      case Some(m) => Some(TodayTime(0, m))
      case None => None
    else None
  }

  lemma DigitsFree(s: string, c: char)
    requires AllDigits(s) && !IsDigit(c)
    ensures Free(s, c)
  {
  }

  lemma ParseUnitOf(n: nat, unit: char)
    requires !IsDigit(unit)
    ensures ParseUnit(DecimalString(n) + [unit], unit) == Some(n)
  {
    var d := DecimalString(n);
    assert (d + [unit])[..|d + [unit]| - 1] == d;
    ParseDecimalString(n);
  }

  lemma UnitTokenFree(n: nat, unit: char, c: char)
    requires !IsDigit(unit) && unit != c && !IsDigit(c)
    ensures Free(DecimalString(n) + [unit], c)
  {
  }

  /** The fields of a stop summary, separated by single spaces. */
  lemma StopSummaryFields(t: SessionTime)
    ensures Split(StopSummary(t), ' ') ==
      (if t.hours > 0 then [DecimalString(t.hours) + "h"] else []) +
      (if t.minutes > 0 || t.hours > 0 then [DecimalString(t.minutes) + "m"] else []) +
      [DecimalString(t.seconds) + "s"]
  {
    var h, m, s := DecimalString(t.hours) + "h", DecimalString(t.minutes) + "m", DecimalString(t.seconds) + "s";
    UnitTokenFree(t.hours, 'h', ' ');
    UnitTokenFree(t.minutes, 'm', ' ');
    UnitTokenFree(t.seconds, 's', ' ');
    if t.hours > 0 {
      assert [h, m, s][1..] == [m, s];
      assert [m, s][1..] == [s];
      assert Join([m, s], ' ') == m + " " + s;
      assert Join([h, m, s], ' ') == h + " " + (m + " " + s);
      assert StopSummary(t) == Join([h, m, s], ' ');
      SplitJoin([h, m, s], ' ');
    } else if t.minutes > 0 {
      assert Join([m, s], ' ') == m + " " + s;
      assert StopSummary(t) == Join([m, s], ' ');
      SplitJoin([m, s], ' ');
    } else {
      assert StopSummary(t) == Join([s], ' ');
      SplitJoin([s], ' ');
    }
  }

  /**
    The stop summary is read back as the clock it was made from, for every
    clock: the hour field is there exactly when hours > 0, the minute field
    exactly when minutes > 0 or hours > 0, and the seconds always end it.
   */
  lemma StopSummaryRoundTrip(t: SessionTime)
    ensures ParseStopSummary(StopSummary(t)) == Some(t)
    ensures |Split(StopSummary(t), ' ')| == if t.hours > 0 then 3 else if t.minutes > 0 then 2 else 1
  {
    StopSummaryFields(t);
    ParseUnitOf(t.hours, 'h');
    ParseUnitOf(t.minutes, 'm');
    ParseUnitOf(t.seconds, 's');
  }

  /**
    The ':'-separated fields of the session display: H, MM, SS when hours > 0,
    M, SS when only minutes are set, and the literal 0, SS otherwise.
   */
  lemma SessionDisplayFields(t: SessionTime)
    ensures Split(FormatSessionTime(t), ':') ==
      if t.hours > 0 then [DecimalString(t.hours), Pad2(t.minutes), Pad2(t.seconds)]
      else if t.minutes > 0 then [DecimalString(t.minutes), Pad2(t.seconds)]
      else ["0", Pad2(t.seconds)]
  {
    var hs, ms, ss := DecimalString(t.hours), Pad2(t.minutes), Pad2(t.seconds);
    Pad2RoundTrip(t.minutes);
    Pad2RoundTrip(t.seconds);
    DigitsFree(hs, ':');
    DigitsFree(ms, ':');
    DigitsFree(ss, ':');
    DigitsFree(DecimalString(t.minutes), ':');
    if t.hours > 0 {
      assert [hs, ms, ss][1..] == [ms, ss];
      assert [ms, ss][1..] == [ss];
      assert Join([ms, ss], ':') == ms + ":" + ss;
      assert Join([hs, ms, ss], ':') == hs + ":" + (ms + ":" + ss);
      assert FormatSessionTime(t) == Join([hs, ms, ss], ':');
      SplitJoin([hs, ms, ss], ':');
    } else if t.minutes > 0 {
      assert FormatSessionTime(t) == Join([DecimalString(t.minutes), ss], ':');
      SplitJoin([DecimalString(t.minutes), ss], ':');
    } else {
      assert FormatSessionTime(t) == Join(["0", ss], ':');
      SplitJoin(["0", ss], ':');
    }
  }

  /**
    The session display is read back as the clock it shows, for every clock,
    with three fields exactly when hours > 0. Every field is made of digits,
    and each after the first is zero-padded, so on a normal clock it has
    exactly two.
   */
  lemma SessionDisplayRoundTrip(t: SessionTime)
    ensures ParseSessionDisplay(FormatSessionTime(t)) == Some(t)
    ensures |Split(FormatSessionTime(t), ':')| == if t.hours > 0 then 3 else 2
    ensures var parts := Split(FormatSessionTime(t), ':');
      && (forall k :: 0 <= k < |parts| ==> |parts[k]| >= 1 && AllDigits(parts[k]))
      && (SessionNormal(t) ==> forall k :: 1 <= k < |parts| ==> |parts[k]| == 2)
  {
    SessionDisplayFields(t);
    Pad2RoundTrip(t.minutes);
    Pad2RoundTrip(t.seconds);
    ParseDecimalString(t.hours);
    ParseDecimalString(t.minutes);
    assert DecimalString(0) == "0";
  }

  /**
    Today's display is read back as the time it shows. With hours it is
    "H:MM hrs", the minutes zero-padded (two digits on a normal time);
    otherwise "M mins".
   */
  lemma TodayDisplayRoundTrip(t: TodayTime)
    ensures ParseTodayDisplay(FormatTodayTime(t)) == Some(t)
    ensures (Split(FormatTodayTime(t), ' ')[1] == "hrs") <==> t.hours > 0
    ensures Split(FormatTodayTime(t), ' ') ==
      if t.hours > 0 then [DecimalString(t.hours) + ":" + Pad2(t.minutes), "hrs"]
      else [DecimalString(t.minutes), "mins"]
    ensures t.hours > 0 ==>
      Split(Split(FormatTodayTime(t), ' ')[0], ':') == [DecimalString(t.hours), Pad2(t.minutes)]
    ensures |Pad2(t.minutes)| >= 2 && AllDigits(Pad2(t.minutes))
    ensures TodayNormal(t) ==> |Pad2(t.minutes)| == 2
  {
    var hs, ms := DecimalString(t.hours), Pad2(t.minutes);
    Pad2RoundTrip(t.minutes);
    ParseDecimalString(t.hours);
    ParseDecimalString(t.minutes);
    DigitsFree(hs, ':');
    DigitsFree(ms, ':');
    DigitsFree(hs, ' ');
    DigitsFree(ms, ' ');
    DigitsFree(DecimalString(t.minutes), ' ');
    if t.hours > 0 {
      var clock := hs + ":" + ms;
      assert Free(clock, ' ');
      assert FormatTodayTime(t) == Join([clock, "hrs"], ' ');
      SplitJoin([clock, "hrs"], ' ');
      assert clock == Join([hs, ms], ':');
      SplitJoin([hs, ms], ':');
    } else {
      assert FormatTodayTime(t) == Join([DecimalString(t.minutes), "mins"], ' ');
      SplitJoin([DecimalString(t.minutes), "mins"], ' ');
    }
  }
}
