/**
 The repeated-error alert when sending takes time: errors of the key that arrive while a send is
 awaited work on the same entry objects, and the awaiting call replaces the entry afterwards.
 */
module AlertInterleaving {
  import opened Wrappers
  import opened AlertWindow

  // One entry object; `from` is the number of the error that opened its window.
  datatype Object = Object(count: nat, firstSeen: int, from: nat)

  // A call suspended in its send: the object it holds, its clock, and the number of its error.
  datatype Suspended = Suspended(held: nat, now: int, error: nat)

  // The calls for one key: every object ever made, and which one the map holds.
  datatype State = State(
    objects: seq<Object>,
    current: Option<nat>,
    suspended: map<nat, Suspended>,  // by the number of the error that alerted
    times: seq<int>,
    alerts: seq<nat>                 // the numbers of the errors that alerted
  )

  datatype Event = Error(now: int) | Resume(error: nat)

  function Init(): State {
    State([], None, map[], [], [])
  }

  /** errorRateMap.set with a fresh entry of count 1. */
  function Replace(s: State, now: int, error: nat): State {
    s.(objects := s.objects + [Object(1, now, error)], current := Some(|s.objects|))
  }

  function DoError(s: State, now: int): State {
    var n := |s.times|;
    var s1 := s.(times := s.times + [now]);
    if s.current.None? || s.current.value >= |s.objects| ||
      now - s.objects[s.current.value].firstSeen > RATE_WINDOW_MS then
      Replace(s1, now, n)
    else
      var c := s.current.value;
      var o := s.objects[c].(count := s.objects[c].count + 1);
      var s2 := s1.(objects := s.objects[c := o]);
      if o.count == RATE_THRESHOLD then
        s2.(suspended := s.suspended[n := Suspended(c, now, n)], alerts := s.alerts + [n])
      else if o.count > RATE_THRESHOLD then Replace(s2, now, n)
      else s2
  }

  /** The call continues after its send, with the entry object it had read. */
  function DoResume(s: State, error: nat): State {
    if error !in s.suspended then s
    else
      var p := s.suspended[error];
      var s1 := s.(suspended := s.suspended - {error});
      if p.held < |s.objects| && s.objects[p.held].count > RATE_THRESHOLD then Replace(s1, p.now, p.error) else s1
  }

  function Apply(s: State, ev: Event): State {
    match ev
    case Error(now) => DoError(s, now)
    case Resume(error) => DoResume(s, error)
  }

  function Run(s: State, evs: seq<Event>): State {
    if evs == [] then s else Apply(Run(s, evs[..|evs| - 1]), evs[|evs| - 1])
  }

  // ------------------------------------------------------------------ what survives

  /** An object never counts more errors than there were from the one that opened it. */
  ghost predicate Counted(o: Object, times: seq<int>) {
    o.from < |times| && o.firstSeen == times[o.from] && 1 <= o.count <= |times| - o.from
  }

  ghost predicate Justified(times: seq<int>, a: nat) {
    exists from: nat :: from + RATE_THRESHOLD - 1 <= a < |times| && times[a] - times[from] <= RATE_WINDOW_MS
  }

  ghost predicate Inv(s: State) {
    && (s.current.Some? ==> s.current.value < |s.objects|)
    && (forall i :: 0 <= i < |s.objects| ==> Counted(s.objects[i], s.times))
    && (forall e :: e in s.suspended ==>
          && s.suspended[e].error == e < |s.times| && s.suspended[e].now == s.times[e]
          && s.suspended[e].held < |s.objects|)
    && (forall i :: 0 <= i < |s.alerts| ==> Justified(s.times, s.alerts[i]))
  }

  lemma ErrorKeepsInv(s: State, now: int)
    requires Inv(s)
    ensures Inv(DoError(s, now))
  {
    var s' := DoError(s, now);
    var n := |s.times|;
    forall i | 0 <= i < |s.alerts| ensures Justified(s'.times, s.alerts[i]) {
      var from: nat :| from + RATE_THRESHOLD - 1 <= s.alerts[i] < |s.times| &&
        s.times[s.alerts[i]] - s.times[from] <= RATE_WINDOW_MS;
      assert s'.times[s.alerts[i]] == s.times[s.alerts[i]] && s'.times[from] == s.times[from];
    }
    if |s'.alerts| > |s.alerts| {
      var o := s.objects[s.current.value];
      assert s'.times[o.from] == s.times[o.from];
      assert Justified(s'.times, n);
    }
    forall i | 0 <= i < |s'.objects| ensures Counted(s'.objects[i], s'.times) {
      if i < |s.objects| {
        assert Counted(s.objects[i], s.times);
      }
    }
  }

  lemma {:induction false} RunKeepsInv(evs: seq<Event>)
    ensures Inv(Run(Init(), evs))
  {
    if evs != [] {
      var s := Run(Init(), evs[..|evs| - 1]);
      RunKeepsInv(evs[..|evs| - 1]);
      match evs[|evs| - 1]
      case Error(now) => ErrorKeepsInv(s, now);
      case Resume(error) =>
    }
  }

  /** However long the sends take, every alert is raised by ten errors of the key within five minutes. */
  lemma {:induction false} SlowAlertsAreJustified(evs: seq<Event>, i: nat)
    requires var s := Run(Init(), evs); i < |s.alerts| && Chronological(s.times)
    ensures var s := Run(Init(), evs);
            var a := s.alerts[i];
            && 9 <= a < |s.times|
            && forall k :: a - 9 <= k <= a ==> s.times[a] - 300000 <= s.times[k] <= s.times[a]
  {
    RunKeepsInv(evs);
    var s := Run(Init(), evs);
    var a := s.alerts[i];
    var from: nat :| from + RATE_THRESHOLD - 1 <= a < |s.times| && s.times[a] - s.times[from] <= RATE_WINDOW_MS;
    forall k | a - 9 <= k <= a ensures s.times[a] - 300000 <= s.times[k] <= s.times[a] {
      assert s.times[from] <= s.times[k];
    }
  }

  // --------------------------------------------- prompt sends are the simple automaton

  /** The map's entry, as the simple automaton sees it. */
  ghost predicate Shows(s: State, entry: Option<RateLimitEntry>) {
    && (s.current.None? <==> entry.None?)
    && (s.current.Some? ==>
          && s.current.value < |s.objects|
          && s.objects[s.current.value].count == entry.value.count
          && s.objects[s.current.value].firstSeen == entry.value.firstSeen)
  }

  /** And no call is suspended. */
  ghost predicate Views(s: State, entry: Option<RateLimitEntry>) {
    s.suspended == map[] && Shows(s, entry)
  }

  /** If a call's send ends before the next error of its key, the step is that of the simple automaton. */
  lemma PromptSendIsTrack(s: State, entry: Option<RateLimitEntry>, now: int)
    requires Views(s, entry)
    ensures var s' := DoResume(DoError(s, now), |s.times|);
            && Views(s', Some(Track(entry, now).entry))
            && s'.times == s.times + [now]
            && s'.alerts == (if Track(entry, now).alerted then s.alerts + [|s.times|] else s.alerts)
  {
  }

  function Prompt(times: seq<int>): seq<Event> {
    if times == [] then []
    else Prompt(times[..|times| - 1]) + [Error(times[|times| - 1]), Resume(|times| - 1)]
  }

  lemma RunSnoc(s: State, evs: seq<Event>, ev: Event)
    ensures Run(s, evs + [ev]) == Apply(Run(s, evs), ev)
  {
    assert (evs + [ev])[..|evs|] == evs;
  }

  /** The alerts are those of the simple automaton over the same times. */
  ghost predicate SameAlerts(alerts: seq<nat>, times: seq<int>) {
    && |alerts| == AlertCount(None, times)
    && (forall a :: a in alerts ==> a < |times|)
    && (forall i: nat :: i < |times| ==> (i in alerts <==> Alerts(None, times, i)))
  }

  lemma SameAlertsSnoc(alerts: seq<nat>, times: seq<int>, now: int)
    requires SameAlerts(alerts, times)
    ensures var alerted := Track(EntryAfter(None, times), now).alerted;
            SameAlerts(if alerted then alerts + [|times|] else alerts, times + [now])
  {
    var more := times + [now];
    assert more[..|times|] == times;
    forall i: nat | i < |times| ensures Alerts(None, more, i) <==> Alerts(None, times, i) {
      assert more[..i] == times[..i];
    }
  }

  lemma PromptSnoc(times: seq<int>, now: int)
    ensures Run(Init(), Prompt(times + [now])) == DoResume(DoError(Run(Init(), Prompt(times)), now), |times|)
  {
    hide DoError, DoResume, Run;
    assert (times + [now])[..|times|] == times;
    RunSnoc(Init(), Prompt(times), Error(now));
    RunSnoc(Init(), Prompt(times) + [Error(now)], Resume(|times|));
    assert Prompt(times + [now]) == Prompt(times) + [Error(now)] + [Resume(|times|)];
  }

  /** So with prompt sends the bounds of AlertWindow hold: the same errors alert. */
  lemma {:induction false} PromptRunsAreSequential(times: seq<int>)
    ensures var s := Run(Init(), Prompt(times));
            Views(s, EntryAfter(None, times)) && s.times == times && SameAlerts(s.alerts, times)
  {
    if times != [] {
      var before, now := times[..|times| - 1], times[|times| - 1];
      assert times == before + [now];
      PromptRunsAreSequential(before);
      PromptSnoc(before, now);
      PromptSendIsTrack(Run(Init(), Prompt(before)), EntryAfter(None, before), now);
      SameAlertsSnoc(Run(Init(), Prompt(before)).alerts, before, now);
    }
  }

  // ----------------------------------------- when a slow send does any harm

  /** An error at `now` is counted on object c: the map holds it, and its window is open. */
  predicate CountsOn(s: State, now: int, c: nat) {
    s.current == Some(c) && c < |s.objects| && now - s.objects[c].firstSeen <= RATE_WINDOW_MS
  }

  /** The event is an error counted on the entry that a suspended call holds. */
  predicate Overtakes(s: State, ev: Event, error: nat) {
    ev.Error? && error in s.suspended && CountsOn(s, ev.now, s.suspended[error].held)
  }

  /** While the call was suspended, some error was counted on the entry it holds. */
  ghost predicate OvertakenIn(evs: seq<Event>, error: nat) {
    exists k :: 0 <= k < |evs| && Overtakes(Run(Init(), evs[..k]), evs[k], error)
  }

  lemma OvertakenSnoc(evs: seq<Event>, ev: Event, error: nat)
    ensures OvertakenIn(evs + [ev], error) <==> OvertakenIn(evs, error) || Overtakes(Run(Init(), evs), ev, error)
  {
    hide Overtakes, Run;
    var more := evs + [ev];
    assert more[..|evs|] == evs && more[|evs|] == ev;
    forall k | 0 <= k < |evs| ensures more[..k] == evs[..k] && more[k] == evs[k] {}
  }

  lemma {:induction false} NotOvertakenYet(evs: seq<Event>, error: nat)
    requires error >= |Run(Init(), evs).times|
    ensures !OvertakenIn(evs, error)
  {
    if evs != [] {
      var rest := evs[..|evs| - 1];
      RunKeepsInv(rest);
      NotOvertakenYet(rest, error);
      OvertakenSnoc(rest, evs[|evs| - 1], error);
      assert evs == rest + [evs[|evs| - 1]];
    }
  }

  /** What one event does to the entry that a call holds. */
  lemma HeldStep(s: State, ev: Event, error: nat)
    requires Inv(s) && error in Apply(s, ev).suspended
    ensures var s' := Apply(s, ev);
            && s'.suspended[error].held < |s'.objects|
            && (error in s.suspended ==>
                  && s'.suspended[error] == s.suspended[error]
                  && var c := s.suspended[error].held;
                     s'.objects[c].count == s.objects[c].count + (if Overtakes(s, ev, error) then 1 else 0))
            && (error !in s.suspended ==>
                 error == |s.times| && s'.objects[s'.suspended[error].held].count == RATE_THRESHOLD)
  {
  }

  /** The entry a suspended call holds is past the threshold exactly if the call was overtaken. */
  lemma {:induction false} HeldCountTells(evs: seq<Event>, error: nat)
    ensures var s := Run(Init(), evs);
            error in s.suspended ==>
              && s.suspended[error].held < |s.objects|
              && s.objects[s.suspended[error].held].count >= RATE_THRESHOLD
              && (s.objects[s.suspended[error].held].count > RATE_THRESHOLD <==> OvertakenIn(evs, error))
  {
    hide OvertakenIn, Apply, Inv, Overtakes;
    if evs != [] {
      var rest, last := evs[..|evs| - 1], evs[|evs| - 1];
      assert evs == rest + [last];
      HeldCountTells(rest, error);
      RunKeepsInv(rest);
      OvertakenSnoc(rest, last, error);
      if error in Run(Init(), evs).suspended {
        HeldStep(Run(Init(), rest), last, error);
        if error !in Run(Init(), rest).suspended {
          NotOvertakenYet(rest, error);
          NotSuspended(Run(Init(), rest), last, error);
        }
      }
    }
  }

  lemma NotSuspended(s: State, ev: Event, error: nat)
    requires error !in s.suspended
    ensures !Overtakes(s, ev, error)
  {
  }

  /** A call that resumes replaces the map's entry, by a fresh one, exactly if it was overtaken during its send. */
  lemma {:induction false} ResumeDisturbsIff(evs: seq<Event>, error: nat)
    requires error in Run(Init(), evs).suspended
    ensures Run(Init(), evs + [Resume(error)]).current != Run(Init(), evs).current <==> OvertakenIn(evs, error)
    ensures var s := Run(Init(), evs + [Resume(error)]);
            OvertakenIn(evs, error) ==>
              s.current.Some? && s.current.value < |s.objects| && error < |s.times| &&
                s.objects[s.current.value] == Object(1, s.times[error], error)
  {
    hide OvertakenIn, Run;
    RunSnoc(Init(), evs, Resume(error));
    RunKeepsInv(evs);
    HeldCountTells(evs, error);
  }

  /** No call was overtaken before it resumed. */
  ghost predicate NeverOvertaken(evs: seq<Event>) {
    forall k :: 0 <= k < |evs| ==> Harmless(evs[..k], evs[k])
  }

  ghost predicate Harmless(before: seq<Event>, ev: Event) {
    ev.Resume? && ev.error in Run(Init(), before).suspended ==> !OvertakenIn(before, ev.error)
  }

  lemma ErrorIsTrack(s: State, entry: Option<RateLimitEntry>, now: int)
    requires Shows(s, entry)
    ensures var s' := DoError(s, now);
            && Shows(s', Some(Track(entry, now).entry)) && s'.times == s.times + [now]
            && s'.alerts == (if Track(entry, now).alerted then s.alerts + [|s.times|] else s.alerts)
  {
  }

  lemma HarmlessResume(s: State, entry: Option<RateLimitEntry>, error: nat)
    requires Shows(s, entry) && (error in s.suspended ==> s.suspended[error].held < |s.objects|)
    requires error in s.suspended ==> s.objects[s.suspended[error].held].count <= RATE_THRESHOLD
    ensures var s' := DoResume(s, error); Shows(s', entry) && s'.times == s.times && s'.alerts == s.alerts
  {
  }

  /**
   In every run in which no call is overtaken before it resumes, however long the sends take, the
   same errors alert as in the simple automaton.
   */
  lemma {:induction false} UndisturbedRunsAreSequential(evs: seq<Event>)
    requires NeverOvertaken(evs)
    ensures var s := Run(Init(), evs); Shows(s, EntryAfter(None, s.times)) && SameAlerts(s.alerts, s.times)
  {
    hide NeverOvertaken, Harmless, OvertakenIn, Track, SameAlerts, Shows, DoError, DoResume;
    if evs == [] {
      EmptyRun();
    } else {
      var rest, last := evs[..|evs| - 1], evs[|evs| - 1];
      NeverOvertakenBefore(evs);
      UndisturbedRunsAreSequential(rest);
      var s := Run(Init(), rest);
      match last
      case Error(now) =>
        ErrorIsTrack(s, EntryAfter(None, s.times), now);
        SameAlertsSnoc(s.alerts, s.times, now);
        assert (s.times + [now])[..|s.times|] == s.times;
      case Resume(error) =>
        HarmlessCount(rest, error);
        HarmlessResume(s, EntryAfter(None, s.times), error);
    }
  }

  lemma NeverOvertakenBefore(evs: seq<Event>)
    requires evs != [] && NeverOvertaken(evs)
    ensures NeverOvertaken(evs[..|evs| - 1]) && Harmless(evs[..|evs| - 1], evs[|evs| - 1])
  {
    hide Harmless;
    var rest := evs[..|evs| - 1];
    forall k | 0 <= k < |rest| ensures Harmless(rest[..k], rest[k]) {
      assert Harmless(evs[..k], evs[k]) && rest[..k] == evs[..k];
    }
  }

  lemma HarmlessCount(before: seq<Event>, error: nat)
    requires Harmless(before, Resume(error))
    ensures var s := Run(Init(), before);
            error in s.suspended ==>
              && s.suspended[error].held < |s.objects|
              && s.objects[s.suspended[error].held].count <= RATE_THRESHOLD
  {
    hide Run, OvertakenIn;
    HeldCountTells(before, error);
  }

  lemma EmptyRun()
    ensures Shows(Init(), EntryAfter(None, [])) && SameAlerts([], [])
  {
  }

  /** Eighteen errors within five minutes. */
  predicate Crowded(times: seq<int>, from: nat) {
    Chronological(times) && from + 18 <= |times| && times[from + 17] - times[from] <= 300000
  }

  /** So the bounds hold in such a run: at most n / 10 alerts, and one in any 18 errors within five minutes. */
  lemma {:induction false} UndisturbedBounds(evs: seq<Event>, from: nat)
    requires NeverOvertaken(evs)
    ensures var s := Run(Init(), evs);
            && |s.alerts| <= |s.times| / 10
            && (Crowded(s.times, from) ==>
                  exists i :: from <= i < from + 18 && i in s.alerts)
  {
    hide OvertakenIn, NeverOvertaken, Run, EntryAfter, Track;
    UndisturbedRunsAreSequential(evs);
    var s := Run(Init(), evs);
    AlertsAreRare(s.times);
    if Crowded(s.times, from) {
      EighteenErrorsAlert(s.times, from);
      var i :| from <= i < from + 18 && Alerts(None, s.times, i);
      assert i in s.alerts;
    }
  }

  // ----------------------------------------- what is lost while a send is awaited

  ghost predicate Reachable(s: State) {
    exists evs :: Run(Init(), evs) == s
  }

  lemma ReachStep(s: State, ev: Event)
    requires Reachable(s)
    ensures Reachable(Apply(s, ev))
  {
    var evs :| Run(Init(), evs) == s;
    RunSnoc(Init(), evs, ev);
    assert Run(Init(), evs + [ev]) == Apply(s, ev);
  }

  /** The current object, counting as many errors as it does, and all that a burst leaves alone. */
  ghost predicate At(s: State, count: nat, firstSeen: int, suspended: map<nat, Suspended>, times: seq<int>,
      alerts: seq<nat>)
  {
    && Reachable(s) && s.current.Some? && s.current.value < |s.objects|
    && s.objects[s.current.value].count == count && s.objects[s.current.value].firstSeen == firstSeen
    && s.suspended == suspended && s.times == times && s.alerts == alerts
  }

  /** Errors that only count. */
  lemma {:induction false} Burst(s: State, m: nat, now: int) returns (s': State)
    requires Reachable(s) && s.current.Some? && s.current.value < |s.objects|
    requires s.objects[s.current.value].count + m < RATE_THRESHOLD
    requires now - s.objects[s.current.value].firstSeen <= RATE_WINDOW_MS
    ensures var o := s.objects[s.current.value];
            At(s', o.count + m, o.firstSeen, s.suspended, s.times + Repeat(now, m), s.alerts)
    ensures |s'.objects| == |s.objects| && s'.current == s.current
    ensures forall i :: 0 <= i < |s.objects| && i != s.current.value ==> s'.objects[i] == s.objects[i]
  {
    if m == 0 {
      s' := s;
      assert s.times + Repeat(now, 0) == s.times;
    } else {
      var mid := Burst(s, m - 1, now);
      ReachStep(mid, Error(now));
      s' := DoError(mid, now);
      assert s.times + Repeat(now, m) == s.times + Repeat(now, m - 1) + [now];
    }
  }

  /** The tenth error alerts and its call waits. */
  lemma Tenth(s: State, now: int) returns (s': State)
    requires Reachable(s) && s.current.Some? && s.current.value < |s.objects|
    requires s.objects[s.current.value].count == RATE_THRESHOLD - 1
    requires now - s.objects[s.current.value].firstSeen <= RATE_WINDOW_MS
    ensures var n := |s.times|;
            At(s', RATE_THRESHOLD, s.objects[s.current.value].firstSeen,
              s.suspended[n := Suspended(s.current.value, now, n)],
               s.times + [now], s.alerts + [n])
    ensures s'.current == s.current && |s'.objects| == |s.objects|
    ensures forall i :: 0 <= i < |s.objects| && i != s.current.value ==> s'.objects[i] == s.objects[i]
  {
    ReachStep(s, Error(now));
    s' := DoError(s, now);
  }

  /** Ten errors at time 0 alert; an eleventh arrives while the send is awaited. */
  ghost predicate Overtaken(s: State, late: int) {
    && At(s, 1, late, map[9 := Suspended(0, 0, 9)], Repeat(0, 10) + [late], [9])
    && |s.objects| == 2 && s.current == Some(1) && s.objects[0].count == 11
  }

  lemma OvertakenIsReachable(late: int) returns (s: State)
    requires 0 <= late <= RATE_WINDOW_MS
    ensures Overtaken(s, late)
  {
    assert Run(Init(), []) == Init();
    ReachStep(Init(), Error(0));
    var s1 := DoError(Init(), 0);
    var s9 := Burst(s1, 8, 0);
    var s10 := Tenth(s9, 0);
    ReachStep(s10, Error(late));
    s := DoError(s10, late);
    assert s1.times == [0];
    assert [0] + Repeat(0, 8) + [0] == Repeat(0, 10);
    assert s10.suspended == map[9 := Suspended(0, 0, 9)];
  }

  /** The awaiting call puts its own entry back, over whatever was counted since. */
  lemma PutBack(s: State) returns (s': State)
    requires Reachable(s) && 9 in s.suspended && s.suspended[9] == Suspended(0, 0, 9)
    requires |s.objects| > 0 && s.objects[0].count == 11
    ensures At(s', 1, 0, s.suspended - {9}, s.times, s.alerts)
  {
    ReachStep(s, Resume(9));
    s' := DoResume(s, 9);
  }

  /** Then 18 errors within five minutes may raise no alert. */
  lemma SlowSendsMissAlerts()
    ensures exists s :: Reachable(s) && Chronological(s.times) && |s.times| == 28 && s.alerts == [9]
                        && s.times[27] - s.times[10] <= 300000
  {
    hide Reachable;
    var s := OvertakenIsReachable(1);
    s := PutBack(s);
    s := Burst(s, 8, 300000);
    ReachStep(s, Error(300001));
    var s' := DoError(s, 300001);
    assert At(s', 1, 300001, s.suspended, s.times + [300001], s.alerts);
    s' := Burst(s', 8, 300001);
    assert s'.times == Repeat(0, 10) + [1] + Repeat(300000, 8) + [300001] + Repeat(300001, 8);
  }

  /** Ten more errors at time 0: the second alert, whose call waits as well. */
  lemma SecondAlert() returns (s: State)
    ensures At(s, 10, 0, s.suspended, Repeat(0, 20), [9, 19])
    ensures 9 in s.suspended && s.suspended[9] == Suspended(0, 0, 9) && s.objects[0].count == 11
  {
    s := OvertakenIsReachable(0);
    s := Burst(s, 8, 0);
    s := Tenth(s, 0);
    assert s.times == Repeat(0, 20);
  }

  /** And 29 errors may raise three alerts, one more than a tenth of them. */
  lemma SlowSendsAlertTooOften()
    ensures exists s :: Reachable(s) && Chronological(s.times) && |s.times| == 29 && |s.alerts| == 3
  {
    var s := SecondAlert();
    s := PutBack(s);
    s := Burst(s, 8, 0);
    s := Tenth(s, 0);
    assert s.times == Repeat(0, 29);
  }
}
