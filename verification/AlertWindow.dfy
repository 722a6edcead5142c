/**
 The repeated-error alert: a counter per error key that raises an alert at the tenth error of a
 window, starts over at the eleventh, and starts over when its window has passed.
 */
module AlertWindow {
  import opened Wrappers

  const RATE_WINDOW_MS: int := 5 * 60 * 1000
  const RATE_THRESHOLD: nat := 10

  datatype RateLimitEntry = RateLimitEntry(count: nat, firstSeen: int, lastSeen: int)

  datatype Tracked = Tracked(entry: RateLimitEntry, alerted: bool)

  /** One error of a key: the entry it leaves, and whether it raises the alert. */
  function Track(entry: Option<RateLimitEntry>, now: int): Tracked {
    if entry.None? || now - entry.value.firstSeen > RATE_WINDOW_MS then
      Tracked(RateLimitEntry(1, now, now), false)
    else
      var count := entry.value.count + 1;
      Tracked(if count > RATE_THRESHOLD then RateLimitEntry(1, now, now)
              else RateLimitEntry(count, entry.value.firstSeen, now),
              count == RATE_THRESHOLD)
  }

  function Lookup(m: map<string, RateLimitEntry>, key: string): Option<RateLimitEntry> {
    if key in m then Some(m[key]) else None
  }

  class AlertService {
    var errorRateMap: map<string, RateLimitEntry>

    constructor ()
      ensures errorRateMap == map[]
    {
      errorRateMap := map[];
    }

    /** Sending the alert is instantaneous here; AlertInterleaving lets errors arrive meanwhile. */
    method TrackRepeatedError(errorKey: string, now: int) returns (alerted: bool)
      modifies this
      ensures var t := Track(Lookup(old(errorRateMap), errorKey), now);
              errorRateMap == old(errorRateMap)[errorKey := t.entry] && alerted == t.alerted
      ensures forall k :: k != errorKey ==> Lookup(errorRateMap, k) == Lookup(old(errorRateMap), k)
      ensures errorKey in errorRateMap && errorRateMap[errorKey].lastSeen == now
      ensures errorKey in old(errorRateMap) && now - old(errorRateMap)[errorKey].firstSeen <= 300000 &&
              old(errorRateMap)[errorKey].count < 10 ==>
                && errorRateMap[errorKey].count == old(errorRateMap)[errorKey].count + 1
                && errorRateMap[errorKey].firstSeen == old(errorRateMap)[errorKey].firstSeen
      ensures !(errorKey in old(errorRateMap) && now - old(errorRateMap)[errorKey].firstSeen <= 300000 &&
                old(errorRateMap)[errorKey].count < 10) ==>
                errorRateMap[errorKey].count == 1 && errorRateMap[errorKey].firstSeen == now
      ensures alerted <==> errorKey in old(errorRateMap) && now - old(errorRateMap)[errorKey].firstSeen <= 300000 &&
                           old(errorRateMap)[errorKey].count == 9
    {
      alerted := false;
      if errorKey !in errorRateMap || now - errorRateMap[errorKey].firstSeen > RATE_WINDOW_MS {
        errorRateMap := errorRateMap[errorKey := RateLimitEntry(1, now, now)];
        return;
      }
      var entry := errorRateMap[errorKey];
      entry := entry.(count := entry.count + 1);
      entry := entry.(lastSeen := now);
      errorRateMap := errorRateMap[errorKey := entry];
      if entry.count == RATE_THRESHOLD {
        alerted := true;
      }
      if entry.count > RATE_THRESHOLD {
        errorRateMap := errorRateMap[errorKey := RateLimitEntry(1, now, now)];
      }
    }
  }

  // ------------------------------------------------------------ runs of one key

  /** The entry after a sequence of errors of one key. */
  function EntryAfter(entry: Option<RateLimitEntry>, times: seq<int>): Option<RateLimitEntry> {
    if times == [] then entry
    else Some(Track(EntryAfter(entry, times[..|times| - 1]), times[|times| - 1]).entry)
  }

  /** Whether the i-th error raises the alert. */
  predicate Alerts(entry: Option<RateLimitEntry>, times: seq<int>, i: nat)
    requires i < |times|
  {
    Track(EntryAfter(entry, times[..i]), times[i]).alerted
  }

  function AlertCount(entry: Option<RateLimitEntry>, times: seq<int>): nat {
    if times == [] then 0
    else
      AlertCount(entry, times[..|times| - 1]) +
      (if Track(EntryAfter(entry, times[..|times| - 1]), times[|times| - 1]).alerted then 1 else 0)
  }

  predicate Chronological(times: seq<int>) {
    forall i, j :: 0 <= i < j < |times| ==> times[i] <= times[j]
  }

  /** The entry counts exactly the errors since its window opened. */
  lemma {:induction false} EntryCountsItsWindow(times: seq<int>)
    requires times != []
    ensures var e := EntryAfter(None, times);
            e.Some? && 1 <= e.value.count <= RATE_THRESHOLD && e.value.count <= |times| &&
            e.value.firstSeen == times[|times| - e.value.count]
  {
    var before := times[..|times| - 1];
    if before != [] {
      EntryCountsItsWindow(before);
    }
  }

  /** Every alert is raised by ten errors of the key within five minutes. */
  lemma AlertsAreJustified(times: seq<int>, i: nat)
    requires i < |times| && Alerts(None, times, i) && Chronological(times)
    ensures i >= 9
    ensures forall k :: i - 9 <= k <= i ==> times[i] - 300000 <= times[k] <= times[i]
  {
    if times[..i] != [] {
      EntryCountsItsWindow(times[..i]);
      var e := EntryAfter(None, times[..i]).value;
      assert e.count == RATE_THRESHOLD - 1;
      assert e.firstSeen == times[i - e.count];
    }
  }

  /** n errors raise at most n / 10 alerts. */
  lemma {:induction false} AlertsAreRare(times: seq<int>)
    ensures AlertCount(None, times) <= |times| / 10
    ensures var e := EntryAfter(None, times);
            10 * AlertCount(None, times) +
              (if e.None? || e.value.count >= 10 then 0 else e.value.count) <= |times|
  {
    if times != [] {
      var before := times[..|times| - 1];
      AlertsAreRare(before);
      if before != [] {
        EntryCountsItsWindow(before);
      }
    }
  }

  // ------------------------------------------------------------- completeness

  /** How many more errors, within one window, are sure to contain an alert. */
  function ErrorsToAlert(entry: Option<RateLimitEntry>): int {
    if entry.None? || entry.value.count >= 10 then 10 else 19 - entry.value.count
  }

  lemma EntryCons(entry: Option<RateLimitEntry>, times: seq<int>)
    requires times != []
    ensures EntryAfter(entry, times) == EntryAfter(Some(Track(entry, times[0]).entry), times[1..])
    decreases |times|
  {
    if |times| > 1 {
      var before := times[..|times| - 1];
      EntryCons(entry, before);
      assert times[1..][..|times| - 2] == before[1..];
    } else {
      assert times[..0] == [];
    }
  }

  /** Shifting the first error into the starting entry shifts the alerts. */
  lemma AlertsShift(entry: Option<RateLimitEntry>, times: seq<int>, i: nat)
    requires 0 < i < |times|
    ensures Alerts(entry, times, i) <==> Alerts(Some(Track(entry, times[0]).entry), times[1..], i - 1)
  {
    EntryCons(entry, times[..i]);
    assert times[1..][..i - 1] == times[..i][1..];
    assert times[1..][i - 1] == times[i];
  }

  /** While the window stays open, the alert comes at the tenth error. */
  lemma {:induction false} OpenWindowAlerts(e: RateLimitEntry, times: seq<int>)
    requires 1 <= e.count < RATE_THRESHOLD && |times| >= RATE_THRESHOLD - e.count
    requires forall i :: 0 <= i < |times| ==> times[i] - e.firstSeen <= RATE_WINDOW_MS
    ensures exists i :: 0 <= i < |times| && Alerts(Some(e), times, i)
    decreases |times|
  {
    var next := Track(Some(e), times[0]);
    assert times[..0] == [];
    if next.alerted {
      assert Alerts(Some(e), times, 0);
    } else {
      OpenWindowAlerts(next.entry, times[1..]);
      var i :| 0 <= i < |times[1..]| && Alerts(Some(next.entry), times[1..], i);
      AlertsShift(Some(e), times, i + 1);
      assert Alerts(Some(e), times, i + 1);
    }
  }

  /** Whatever entry is in place, that many errors within five minutes contain an alert. */
  lemma {:induction false} EnoughErrorsAlert(entry: Option<RateLimitEntry>, times: seq<int>)
    requires entry.Some? ==> entry.value.count >= 1
    requires Chronological(times) && |times| >= ErrorsToAlert(entry)
    requires times[|times| - 1] - times[0] <= 300000
    ensures exists i :: 0 <= i < |times| && Alerts(entry, times, i)
    decreases |times|
  {
    var next := Track(entry, times[0]);
    assert times[..0] == [];
    if next.alerted {
      assert Alerts(entry, times, 0);
    } else {
      if next.entry.count == 1 {
        OpenWindowAlerts(next.entry, times[1..]);
      } else {
        EnoughErrorsAlert(Some(next.entry), times[1..]);
      }
      var i :| 0 <= i < |times[1..]| && Alerts(Some(next.entry), times[1..], i);
      AlertsShift(entry, times, i + 1);
      assert Alerts(entry, times, i + 1);
    }
  }

  lemma {:induction false} EntryAppend(entry: Option<RateLimitEntry>, a: seq<int>, b: seq<int>)
    ensures EntryAfter(entry, a + b) == EntryAfter(EntryAfter(entry, a), b)
  {
    if b == [] {
      assert a + b == a;
    } else {
      EntryAppend(entry, a, b[..|b| - 1]);
      assert (a + b)[..|a + b| - 1] == a + b[..|b| - 1];
    }
  }

  lemma NeverFarFromAlert(times: seq<int>)
    ensures var e := EntryAfter(None, times); ErrorsToAlert(e) <= 18 && (e.Some? ==> e.value.count >= 1)
  {
    if times != [] {
      EntryCountsItsWindow(times);
    }
  }

  /** Any 18 consecutive errors of a key within five minutes include one that raises the alert. */
  lemma EighteenErrorsAlert(times: seq<int>, from: nat)
    requires Chronological(times) && from + 18 <= |times|
    requires times[from + 17] - times[from] <= 300000
    ensures exists i :: from <= i < from + 18 && Alerts(None, times, i)
  {
    hide EntryAfter, Track, ErrorsToAlert;
    var start := EntryAfter(None, times[..from]);
    NeverFarFromAlert(times[..from]);
    var window := times[from..from + 18];
    EnoughErrorsAlert(start, window);
    var k :| 0 <= k < |window| && Alerts(start, window, k);
    EntryAppend(None, times[..from], window[..k]);
    assert times[..from] + window[..k] == times[..from + k];
    assert Alerts(None, times, from + k);
  }

  function Repeat(t: int, n: nat): seq<int> {
    seq(n, i => t)
  }

  /** The bound is exact: after one old error, 17 errors within one millisecond raise nothing. */
  lemma SeventeenErrorsMayNot()
    ensures exists times: seq<int> ::
              && |times| == 18 && Chronological(times) && times[17] - times[1] <= 1
              && forall i :: 0 <= i < |times| ==> !Alerts(None, times, i)
  {
    var times := [0] + Repeat(300000, 8) + Repeat(300001, 9);
    forall i | 0 <= i < 18
      ensures !Alerts(None, times, i)
      ensures i < 18 ==> EntryAfter(None, times[..i + 1]) ==
                         Some(if i < 9 then RateLimitEntry(i + 1, 0, times[i])
                              else RateLimitEntry(i - 8, 300001, 300001))
    {
      SilentPrefix(times, i);
    }
  }

  lemma {:induction false} SilentPrefix(times: seq<int>, i: nat)
    requires |times| == 18 && i < 18
    requires forall k :: 0 <= k < 18 ==> times[k] == if k == 0 then 0 else if k < 9 then 300000 else 300001
    ensures !Alerts(None, times, i)
    ensures EntryAfter(None, times[..i + 1]) ==
            Some(if i < 9 then RateLimitEntry(i + 1, 0, times[i]) else RateLimitEntry(i - 8, 300001, 300001))
  {
    assert times[..i + 1][..i] == times[..i];
    if i > 0 {
      SilentPrefix(times, i - 1);
    } else {
      assert times[..0] == [];
    }
  }

  // --------------------------------------------------- all keys in one service

  datatype Failure = Failure(key: string, time: int)

  function MapAfter(m: map<string, RateLimitEntry>, log: seq<Failure>): map<string, RateLimitEntry> {
    if log == [] then m
    else
      var before := MapAfter(m, log[..|log| - 1]);
      var f := log[|log| - 1];
      before[f.key := Track(Lookup(before, f.key), f.time).entry]
  }

  function TimesOf(log: seq<Failure>, key: string): seq<int> {
    if log == [] then []
    else TimesOf(log[..|log| - 1], key) + (if log[|log| - 1].key == key then [log[|log| - 1].time] else [])
  }

  /** Keys do not disturb each other: the service treats each as if it were alone. */
  lemma {:induction false} KeysAreIndependent(log: seq<Failure>, key: string)
    ensures Lookup(MapAfter(map[], log), key) == EntryAfter(None, TimesOf(log, key))
  {
    if log != [] {
      var before, f := log[..|log| - 1], log[|log| - 1];
      KeysAreIndependent(before, key);
      var times, earlier := TimesOf(log, key), TimesOf(before, key);
      if f.key == key {
        assert times == earlier + [f.time];
        assert times[..|times| - 1] == earlier;
      } else {
        assert times == earlier;
      }
    }
  }

  /** The error at position i of the mixed log alerts exactly when it does in its own key's run. */
  lemma AlertInMixedLog(log: seq<Failure>, i: nat)
    requires i < |log|
    ensures var k := |TimesOf(log[..i], log[i].key)|;
            var times := TimesOf(log[..i + 1], log[i].key);
            k < |times| &&
            (Track(Lookup(MapAfter(map[], log[..i]), log[i].key), log[i].time).alerted <==> Alerts(None, times, k))
  {
    KeysAreIndependent(log[..i], log[i].key);
    assert log[..i + 1][..i] == log[..i];
    var before := TimesOf(log[..i], log[i].key);
    assert (before + [log[i].time])[..|before|] == before;
  }
}
