/**
 The proximity reminder of the driver's screen: when it alerts, how a dismissal silences it, and
 how the escalation level follows the time spent near the delivery point.
 */
module ProximityReminder {
  import opened Wrappers

  const PROXIMITY_REMINDER_MS: int := 300000
  const SNOOZE_MS: int := 300000
  const ESCALATION_AFTER_MS: int := 900000
  const ESCALATION_SNOOZE_MS: int := 120000

  // Where a position is: no delivery with coordinates, farther than 300 m, or within 300 m.
  datatype Place = NoTarget | Away | Near

  // `shown` is the escalation level of the alert on the screen, if there is one that carries it.
  datatype Event =
    | Check(now: int, place: Place)
    | Dismiss(now: int, shown: Option<int>)
    | NewDelivery

  datatype Happening =
    | Alert(at: int, level: int)
    | Snooze(at: int, level: int, until: int)
    | Restart

  datatype State = State(
    enterTime: int,
    level: int,
    snoozedUntil: int,
    lastAlert: int,
    log: seq<Happening>
  )

  function Init(): State {
    State(0, 0, 0, 0, [])
  }

  function Level(timeInZone: int): int {
    if timeInZone > ESCALATION_AFTER_MS then 2
    else if timeInZone > ESCALATION_AFTER_MS / 2 then 1
    else 0
  }

  function SnoozeTime(level: int): int {
    if level >= 2 then ESCALATION_SNOOZE_MS else SNOOZE_MS
  }

  function DoNear(s: State, now: int): State {
    var enter := if s.enterTime == 0 then now else s.enterTime;
    var level := Level(now - enter);
    var s' := s.(enterTime := enter, level := level);
    if now < s.snoozedUntil || now - s.lastAlert <= PROXIMITY_REMINDER_MS then s'
    else s'.(lastAlert := now, log := s.log + [Alert(now, level)])
  }

  function DoDismiss(s: State, now: int, shown: Option<int>): State {
    var level := if shown.Some? then shown.value else s.level;
    var until := now + SnoozeTime(level);
    s.(snoozedUntil := until, lastAlert := 0, log := s.log + [Snooze(now, level, until)])
  }

  function Apply(s: State, ev: Event): State {
    match ev
    case Check(now, NoTarget) => s
    case Check(now, Away) => s.(enterTime := 0, level := 0)
    case Check(now, Near) => DoNear(s, now)
    case Dismiss(now, shown) => DoDismiss(s, now, shown)
    case NewDelivery => State(0, 0, 0, 0, s.log + [Restart])
  }

  function Run(s: State, evs: seq<Event>): State {
    if evs == [] then s else Apply(Run(s, evs[..|evs| - 1]), evs[|evs| - 1])
  }

  // -------------------------------------------------- the callbacks, as they run

  class Watch {
    var enterTime: int
    var level: int
    var snoozedUntil: int
    var lastAlert: int
    ghost var log: seq<Happening>

    ghost function Abs(): State
      reads this
    {
      State(enterTime, level, snoozedUntil, lastAlert, log)
    }

    constructor ()
      ensures Abs() == Init()
    {
      enterTime, level, snoozedUntil, lastAlert, log := 0, 0, 0, 0, [];
    }

    /** checkProximity; the result is the escalation level of the alert raised, if any. */
    method CheckProximity(now: int, place: Place) returns (alert: Option<int>)
      modifies this
      ensures Abs() == Apply(old(Abs()), Check(now, place))
      ensures alert.Some? ==> log == old(log) + [Alert(now, alert.value)]
      ensures alert.None? ==> log == old(log)
      ensures snoozedUntil == old(snoozedUntil)
      ensures place.NoTarget? ==> enterTime == old(enterTime) && level == old(level)
      ensures place.Away? ==> enterTime == 0 && level == 0
      ensures place.Near? ==> enterTime == if old(enterTime) == 0 then now else old(enterTime)
      ensures place.Near? ==>
                level == if now - enterTime > 900000 then 2 else if now - enterTime > 450000 then 1 else 0
      ensures alert == (if place.Near? && now >= old(snoozedUntil) && now - old(lastAlert) > 300000 then Some(level)
                        else None)
      ensures lastAlert == if alert.Some? then now else old(lastAlert)
    {
      alert := None;
      if place.NoTarget? {
        return;
      }
      if place.Away? {
        enterTime := 0;
        level := 0;
        return;
      }
      if enterTime == 0 {
        enterTime := now;
      }
      var timeInZone := now - enterTime;
      level := if timeInZone > ESCALATION_AFTER_MS then 2 else if timeInZone > ESCALATION_AFTER_MS / 2 then 1 else 0;
      if now < snoozedUntil {
        return;
      }
      if now - lastAlert > PROXIMITY_REMINDER_MS {
        lastAlert := now;
        alert := Some(level);
        log := log + [Alert(now, level)];
      }
    }

    /** dismissAlert for a proximity alert. */
    method DismissAlert(now: int, shown: Option<int>)
      modifies this
      ensures Abs() == Apply(old(Abs()), Dismiss(now, shown))
      ensures shown.Some? ==> snoozedUntil == now + if shown.value >= 2 then 120000 else 300000
      ensures shown.None? ==> snoozedUntil == now + if level >= 2 then 120000 else 300000
      ensures lastAlert == 0 && enterTime == old(enterTime) && level == old(level)
    {
      var escalation := if shown.Some? then shown.value else level;
      var snoozeTime := if escalation >= 2 then ESCALATION_SNOOZE_MS else SNOOZE_MS;
      snoozedUntil := now + snoozeTime;
      lastAlert := 0;
      log := log + [Snooze(now, escalation, now + snoozeTime)];
    }

    /** The reset when another delivery becomes the active one. */
    method ActiveDeliveryChanged()
      modifies this
      ensures Abs() == Apply(old(Abs()), NewDelivery)
      ensures enterTime == 0 && level == 0 && snoozedUntil == 0 && lastAlert == 0
    {
      lastAlert := 0;
      snoozedUntil := 0;
      level := 0;
      enterTime := 0;
      log := log + [Restart];
    }
  }

  // --------------------------------------------------- reminders of one delivery

  /** When the last dismissal of the current delivery stops silencing it; 0 if there was none. */
  function SilentUntil(log: seq<Happening>): int {
    if log == [] then 0
    else
      var last := log[|log| - 1];
      match last
      case Restart => 0
      case Snooze(_, _, until) => until
      case Alert(_, _) => SilentUntil(log[..|log| - 1])
  }

  /** The alert not yet dismissed, at the end of the history; 0 if there is none. */
  function PendingAlert(log: seq<Happening>): int {
    if log != [] && log[|log| - 1].Alert? then log[|log| - 1].at else 0
  }

  predicate Due(log: seq<Happening>, now: int) {
    now >= SilentUntil(log) && now - PendingAlert(log) > 300000
  }

  ghost predicate LogInv(log: seq<Happening>) {
    forall k :: 0 <= k < |log| ==>
      match log[k]
      case Alert(at, _) => Due(log[..k], at)
      case Snooze(at, level, until) => until == at + SnoozeTime(level)
      case Restart => true
  }

  ghost predicate Inv(s: State) {
    LogInv(s.log) && s.snoozedUntil == SilentUntil(s.log) && s.lastAlert == PendingAlert(s.log)
  }

  lemma LogSnoc(log: seq<Happening>, h: Happening)
    requires LogInv(log)
    requires h.Alert? ==> Due(log, h.at)
    requires h.Snooze? ==> h.until == h.at + SnoozeTime(h.level)
    ensures LogInv(log + [h])
    ensures SilentUntil(log + [h]) == if h.Restart? then 0 else if h.Snooze? then h.until else SilentUntil(log)
  {
    var more := log + [h];
    assert more[..|log|] == log;
    forall k | 0 <= k < |log| ensures more[..k] == log[..k] {}
  }

  lemma StepKeepsInv(s: State, ev: Event)
    requires Inv(s)
    ensures Inv(Apply(s, ev))
  {
    var s' := Apply(s, ev);
    if s'.log != s.log {
      LogSnoc(s.log, s'.log[|s.log|]);
    }
  }

  lemma {:induction false} RunKeepsInv(evs: seq<Event>)
    ensures Inv(Run(Init(), evs))
  {
    if evs != [] {
      RunKeepsInv(evs[..|evs| - 1]);
      StepKeepsInv(Run(Init(), evs[..|evs| - 1]), evs[|evs| - 1]);
    }
  }

  /**
   Two successive alerts of one delivery: with no dismissal between them they are more than 5
   minutes apart; otherwise the later one waits for the end of the last dismissal's snooze, which
   lasts 2 minutes at escalation level 2 and 5 minutes below it.
   */
  lemma {:induction false} RemindersAreSpaced(evs: seq<Event>, i: nat, j: nat)
    requires var log := Run(Init(), evs).log;
             && i < j < |log| && log[i].Alert? && log[j].Alert?
             && forall k :: i < k < j ==> log[k].Snooze?
    ensures var log := Run(Init(), evs).log;
            && (j == i + 1 ==> log[j].at - log[i].at > 300000)
            && (j > i + 1 ==>
                  && log[j].at >= log[j - 1].until
                  && log[j - 1].until - log[j - 1].at == (if log[j - 1].level >= 2 then 120000 else 300000))
  {
    RunKeepsInv(evs);
    var log := Run(Init(), evs).log;
    assert Due(log[..j], log[j].at);
    assert log[..j][j - 1] == log[j - 1];
  }

  /** After any run, a position near the point raises an alert exactly when one is due. */
  lemma {:induction false} AlertsExactlyWhenDue(evs: seq<Event>, now: int)
    ensures var s := Run(Init(), evs);
            Apply(s, Check(now, Near)).log ==
              (if Due(s.log, now) then s.log + [Alert(now, Apply(s, Check(now, Near)).level)] else s.log)
  {
    RunKeepsInv(evs);
  }

  lemma RunSnoc(s: State, evs: seq<Event>, ev: Event)
    ensures Run(s, evs + [ev]) == Apply(Run(s, evs), ev)
  {
    assert (evs + [ev])[..|evs|] == evs;
  }

  /** No position near the point is seen before the snooze ends. */
  ghost predicate SnoozedThrough(checks: seq<Event>, until: int) {
    forall k :: 0 <= k < |checks| ==> checks[k].Check? && (checks[k].place.Near? ==> checks[k].now < until)
  }

  lemma {:induction false} SnoozeHolds(s: State, checks: seq<Event>)
    requires SnoozedThrough(checks, s.snoozedUntil)
    ensures var s' := Run(s, checks);
            s'.log == s.log && s'.snoozedUntil == s.snoozedUntil && s'.lastAlert == s.lastAlert
  {
    if checks != [] {
      SnoozeHolds(s, checks[..|checks| - 1]);
    }
  }

  /**
   A dismissal silences the positions of the next 2 minutes, if the alert it dismisses is at level 2,
   and of the next 5 if not; the level is the one shown, or the current one if none is shown. The
   reminder comes back at the end of the snooze, not at the 5-minute rhythm.
   */
  lemma SnoozeEndsOnTime(s: State, at: int, shown: Option<int>, checks: seq<Event>, now: int)
    requires var level := if shown.Some? then shown.value else s.level;
             SnoozedThrough(checks, at + if level >= 2 then 120000 else 300000)
    ensures var level := if shown.Some? then shown.value else s.level;
            var until := at + if level >= 2 then 120000 else 300000;
            var s' := Run(Apply(s, Dismiss(at, shown)), checks);
            && s'.log == s.log + [Snooze(at, level, until)]
            && (Apply(s', Check(now, Near)).log != s'.log <==> now >= until && now > 300000)
  {
    SnoozeHolds(Apply(s, Dismiss(at, shown)), checks);
  }

  // --------------------------------------------------------- the escalation level

  /** The driver is not seen leaving and the delivery is the same. */
  predicate Staying(ev: Event) {
    ev != NewDelivery && !(ev.Check? && ev.place.Away?)
  }

  predicate NearCheck(ev: Event) {
    ev.Check? && ev.place.Near?
  }

  /** The clock shows a time after the epoch and does not go back. */
  ghost predicate ClockRuns(evs: seq<Event>) {
    && (forall i :: 0 <= i < |evs| && NearCheck(evs[i]) ==> evs[i].now > 0)
    && (forall i, j :: 0 <= i < j < |evs| && NearCheck(evs[i]) && NearCheck(evs[j]) ==> evs[i].now <= evs[j].now)
  }

  /** The time of the last position seen near the point. */
  function LastNear(evs: seq<Event>): int {
    if evs == [] then 0
    else if NearCheck(evs[|evs| - 1]) then evs[|evs| - 1].now
    else LastNear(evs[..|evs| - 1])
  }

  /** During a stay, the level says whether it has lasted more than 7.5 or more than 15 minutes so far. */
  lemma {:induction false} StayDecidesLevel(s: State, stay: seq<Event>)
    requires s.enterTime == 0
    requires stay != [] && NearCheck(stay[0]) && forall k :: 0 <= k < |stay| ==> Staying(stay[k])
    requires stay[0].now > 0
    ensures Run(s, stay).enterTime == stay[0].now
    ensures var length := LastNear(stay) - stay[0].now;
            Run(s, stay).level == if length > 900000 then 2 else if length > 450000 then 1 else 0
  {
    var rest := stay[..|stay| - 1];
    if rest == [] {
      assert Run(s, rest) == s;
    } else {
      StayDecidesLevel(s, rest);
    }
  }

  /** What a run with a running clock keeps: the level is that of the stay's length so far. */
  ghost predicate StayInv(s: State, evs: seq<Event>) {
    && (s.enterTime == 0 ==> s.level == 0)
    && (s.enterTime != 0 ==> 0 < s.enterTime <= LastNear(evs) && s.level == Level(LastNear(evs) - s.enterTime))
  }

  lemma {:induction false} LastNearBounds(evs: seq<Event>, now: int)
    requires forall k :: 0 <= k < |evs| && NearCheck(evs[k]) ==> evs[k].now <= now
    requires now > 0
    ensures LastNear(evs) <= now
  {
    if evs != [] {
      LastNearBounds(evs[..|evs| - 1], now);
    }
  }

  lemma {:induction false} RunKeepsStay(evs: seq<Event>)
    requires ClockRuns(evs)
    ensures StayInv(Run(Init(), evs), evs)
  {
    if evs != [] {
      var rest, last := evs[..|evs| - 1], evs[|evs| - 1];
      RunKeepsStay(rest);
      if NearCheck(last) {
        forall k | 0 <= k < |rest| && NearCheck(rest[k]) ensures rest[k].now <= last.now {
          assert evs[k] == rest[k];
        }
        LastNearBounds(rest, last.now);
      }
    }
  }

  /** While the driver stays, the escalation level never falls. */
  lemma {:induction false} LevelNeverFallsDuringAStay(before: seq<Event>, stay: seq<Event>)
    requires ClockRuns(before + stay)
    requires forall k :: 0 <= k < |stay| ==> Staying(stay[k])
    ensures Run(Init(), before + stay).level >= Run(Init(), before).level
  {
    if stay == [] {
      assert before + stay == before;
    } else {
      var rest, last := stay[..|stay| - 1], stay[|stay| - 1];
      assert before + stay == (before + rest) + [last];
      RunSnoc(Init(), before + rest, last);
      forall k | 0 <= k < |before + rest| ensures (before + rest)[k] == (before + stay)[k] {}
      LevelNeverFallsDuringAStay(before, rest);
      RunKeepsStay(before + rest);
      RunKeepsStay(before + stay);
      assert (before + stay)[..|before + stay| - 1] == before + rest;
      if NearCheck(last) {
        forall k | 0 <= k < |before + rest| && NearCheck((before + rest)[k])
          ensures (before + rest)[k].now <= last.now
        {
          assert (before + stay)[k] == (before + rest)[k] && (before + stay)[|before + stay| - 1] == last;
        }
        LastNearBounds(before + rest, last.now);
      }
    }
  }

  /** A clock set back lowers it: the guarantee needs the clock to run forward. */
  lemma ClockSetBackLowersLevel()
    ensures exists before: seq<Event>, ev :: Staying(ev) && Run(Init(), before + [ev]).level < Run(Init(), before).level
  {
    var a, b, c := Check(1, Near), Check(1000000, Near), Check(2, Near);
    var s1 := Apply(Init(), a);
    var s2 := Apply(s1, b);
    assert s1.enterTime == 1 && s2.enterTime == 1 && s2.level == 2 && Apply(s2, c).level == 0;
    RunSnoc(Init(), [], a);
    RunSnoc(Init(), [a], b);
    RunSnoc(Init(), [a, b], c);
    assert [] + [a] == [a] && [a] + [b] == [a, b];
    assert Run(Init(), [a, b]) == s2;
    assert Staying(c);
  }
}
