/** Foreground-app detection (`AppDetectionUtils`): which app the user is in,
    decided from the platform's recent activity events and its usage statistics,
    and whether that app is one of the whitelisted ones. The platform's query
    results are inputs; a query that throws is `None`. */
module AppDetection {
  import opened Wrappers
  import opened KotlinInt
  import opened Text
  import opened Collections

  /** `UsageEvents.Event.ACTIVITY_RESUMED`. */
  const ActivityResumed: int := 1
  /** The events query covers the last five minutes. */
  const EventQueryMillis: int := 1000 * 60 * 5
  /** A latest resumed event older than this is not trusted. */
  const MaxEventAgeMillis: int := 1000 * 60 * 2

  /** One entry of the platform's activity-event stream. */
  datatype UsageEvent = UsageEvent(packageName: string, eventType: int, timeStamp: int)

  /** One entry of the platform's usage statistics. */
  datatype UsageStat = UsageStat(packageName: string, lastTimeUsed: int, totalTimeInForeground: int)

  /** What the platform answers during one detection. `hasUsageAccess` is the
      usage-access grant (on an SDK that has it); `events` and `stats` are the two
      query results, `None` when the query threw; `topTask` is the package of the
      running task the old `ActivityManager` reports (`None` for none or an
      exception), used only without usage access. */
  datatype UsagePlatform = UsagePlatform(
    hasUsageAccess: bool,
    events: Option<seq<UsageEvent>>,
    stats: Option<seq<UsageStat>>,
    topTask: Option<string>)

  // ---------------------------------------------------------------- windows

  /** The statistics query window in minutes: the reminder interval, clamped to
      between half an hour and two hours. */
  function StatsWindowMinutes(intervalMinutes: Int32): (w: int)
    ensures 30 <= w <= 120
    ensures 30 <= intervalMinutes <= 120 ==> w == intervalMinutes
    ensures intervalMinutes <= 30 ==> w == 30
    ensures intervalMinutes >= 120 ==> w == 120
  {
    if intervalMinutes < 30 then 30 else if intervalMinutes > 120 then 120 else intervalMinutes
  }

  /** The first instant the statistics query covers. */
  function StatsQueryStart(now: int, intervalMinutes: Int32): (start: int)
    ensures now - 120 * 60 * 1000 <= start <= now - 30 * 60 * 1000
  {
    now - StatsWindowMinutes(intervalMinutes) * 60 * 1000
  }

  /** How recently (in minutes) the most recent statistics entry must have been
      used to count as active: half the interval (rounded toward zero), clamped
      to between 5 and 30. */
  function ActiveThresholdMinutes(intervalMinutes: Int32): (t: int)
    ensures 5 <= t <= 30
    ensures 10 <= intervalMinutes <= 61 ==> t == intervalMinutes / 2
    ensures intervalMinutes < 10 ==> t == 5
    ensures intervalMinutes >= 60 ==> t == 30
  {
    var half := TruncDiv(intervalMinutes, 2);
    if half < 5 then 5 else if half > 30 then 30 else half
  }

  // ---------------------------------------------------------------- event path

  predicate IsResumed(e: UsageEvent) { e.eventType == ActivityResumed }

  /** What the event loop holds after reading a sequence of events: the last
      accepted package and its time stamp (0 before any). */
  datatype ScanState = ScanState(app: Option<string>, lastTime: int)

  /** The event loop as a function: an event replaces the held one when it is a
      resume strictly later than the held time. */
  function ScanResumed(events: seq<UsageEvent>): ScanState
  {
    if |events| == 0 then ScanState(None, 0)
    else
      var st := ScanResumed(events[..|events| - 1]);
      var e := events[|events| - 1];
      if IsResumed(e) && e.timeStamp > st.lastTime then ScanState(Some(e.packageName), e.timeStamp)
      else st
  }

  /** The loop ends holding the resume event with the greatest positive time
      stamp, the first of them on a tie; it holds nothing when no resume event has
      a positive time stamp. */
  lemma {:induction false} ScanResumedIsLatest(events: seq<UsageEvent>)
    ensures ScanResumed(events).lastTime >= 0
    ensures ScanResumed(events).app.Some? <==> ScanResumed(events).lastTime > 0
    ensures forall i :: 0 <= i < |events| && IsResumed(events[i]) ==>
      events[i].timeStamp <= ScanResumed(events).lastTime
    ensures ScanResumed(events).lastTime > 0 ==>
      exists k :: (0 <= k < |events| && IsResumed(events[k])
        && events[k].timeStamp == ScanResumed(events).lastTime
        && ScanResumed(events).app == Some(events[k].packageName)
        && forall i :: 0 <= i < k && IsResumed(events[i]) ==> events[i].timeStamp < events[k].timeStamp)
  {
    if |events| > 0 {
      var init := events[..|events| - 1];
      ScanResumedIsLatest(init);
      assert forall i :: 0 <= i < |init| ==> init[i] == events[i];
      var st := ScanResumed(init);
      var e := events[|events| - 1];
      if !(IsResumed(e) && e.timeStamp > st.lastTime) && st.lastTime > 0 {
        var k :| 0 <= k < |init| && IsResumed(init[k]) && init[k].timeStamp == st.lastTime
          && st.app == Some(init[k].packageName)
          && forall i :: 0 <= i < k && IsResumed(init[i]) ==> init[i].timeStamp < init[k].timeStamp;
        assert events[k] == init[k];
      }
    }
  }

  /** The loop of `getCurrentForegroundAppByEvents` over the queried events. */
  method LatestResumedEvent(events: seq<UsageEvent>) returns (lastForegroundApp: Option<string>, lastEventTime: int)
    ensures ScanState(lastForegroundApp, lastEventTime) == ScanResumed(events)
  {
    lastForegroundApp, lastEventTime := None, 0;
    var i := 0;
    while i < |events|
      invariant 0 <= i <= |events|
      invariant ScanState(lastForegroundApp, lastEventTime) == ScanResumed(events[..i])
    {
      var event := events[i];
      assert events[..i + 1][..i] == events[..i];
      if event.eventType == ActivityResumed && event.timeStamp > lastEventTime {
        lastForegroundApp := Some(event.packageName);
        lastEventTime := event.timeStamp;
      }
      i := i + 1;
    }
    assert events[..|events|] == events;
  }

  /** The event answer: the latest resumed package, dropped when that event is
      more than two minutes old; nothing when the query threw. */
  function EventResult(events: Option<seq<UsageEvent>>, now: int): Option<string>
  {
    if events.None? then None
    else
      var st := ScanResumed(events.value);
      if st.lastTime > 0 && now - st.lastTime > MaxEventAgeMillis then None else st.app
  }

  /** `getCurrentForegroundAppByEvents`. */
  method ForegroundByEvents(events: Option<seq<UsageEvent>>, now: int) returns (r: Option<string>)
    ensures r == EventResult(events, now)
  {
    if events.None? {
      return None;
    }
    var lastForegroundApp, lastEventTime := LatestResumedEvent(events.value);
    if lastEventTime > 0 {
      var timeDiff := now - lastEventTime;
      if timeDiff > MaxEventAgeMillis {
        return None;
      }
    }
    r := lastForegroundApp;
  }

  /** The event answer names the package of a resume event no more than two minutes
      old that no other resume event is later than. */
  lemma EventResultIsRecentLatest(events: seq<UsageEvent>, now: int)
    requires EventResult(Some(events), now).Some?
    ensures exists k :: (0 <= k < |events| && IsResumed(events[k])
      && EventResult(Some(events), now) == Some(events[k].packageName)
      && 0 < events[k].timeStamp && now - events[k].timeStamp <= MaxEventAgeMillis
      && forall i :: 0 <= i < |events| && IsResumed(events[i]) ==> events[i].timeStamp <= events[k].timeStamp)
  {
    ScanResumedIsLatest(events);
  }

  /** An event exactly two minutes old is still accepted; one a millisecond older
      is not. */
  lemma EventAgeBoundary(pkg: string, t: int)
    requires t > 0
    ensures EventResult(Some([UsageEvent(pkg, ActivityResumed, t)]), t + MaxEventAgeMillis) == Some(pkg)
    ensures EventResult(Some([UsageEvent(pkg, ActivityResumed, t)]), t + MaxEventAgeMillis + 1) == None
  {
    var events := [UsageEvent(pkg, ActivityResumed, t)];
    assert events[..0] == [];
    assert ScanResumed(events) == ScanState(Some(pkg), t);
  }

  // ---------------------------------------------------------------- statistics path

  /** Entries the statistics path considers: used at some time and for some time. */
  predicate IsCandidate(s: UsageStat) { s.lastTimeUsed > 0 && s.totalTimeInForeground > 0 }

  /** Kotlin `maxByOrNull { it.lastTimeUsed }`: the first entry whose `lastTimeUsed`
      is greatest, `None` for an empty list. */
  function MaxByLastUsed(stats: seq<UsageStat>): Option<UsageStat>
  {
    if |stats| == 0 then None
    else
      var best := MaxByLastUsed(stats[..|stats| - 1]);
      var e := stats[|stats| - 1];
      if best.None? || best.value.lastTimeUsed < e.lastTimeUsed then Some(e) else best
  }

  lemma {:induction false} MaxByLastUsedIsFirstMax(stats: seq<UsageStat>)
    ensures MaxByLastUsed(stats).None? <==> |stats| == 0
    ensures MaxByLastUsed(stats).Some? ==>
      exists k :: 0 <= k < |stats| && stats[k] == MaxByLastUsed(stats).value
        && (forall i :: 0 <= i < |stats| ==> stats[i].lastTimeUsed <= stats[k].lastTimeUsed)
        && (forall i :: 0 <= i < k ==> stats[i].lastTimeUsed < stats[k].lastTimeUsed)
  {
    if |stats| > 0 {
      var init := stats[..|stats| - 1];
      MaxByLastUsedIsFirstMax(init);
      assert forall i :: 0 <= i < |init| ==> init[i] == stats[i];
      var best := MaxByLastUsed(init);
      var e := stats[|stats| - 1];
      if !(best.None? || best.value.lastTimeUsed < e.lastTimeUsed) {
        var k :| 0 <= k < |init| && init[k] == best.value
          && (forall i :: 0 <= i < |init| ==> init[i].lastTimeUsed <= init[k].lastTimeUsed)
          && (forall i :: 0 <= i < k ==> init[i].lastTimeUsed < init[k].lastTimeUsed);
        assert stats[k] == init[k];
      } else if best.Some? {
        var k :| 0 <= k < |init| && init[k] == best.value
          && (forall i :: 0 <= i < |init| ==> init[i].lastTimeUsed <= init[k].lastTimeUsed);
        assert forall i :: 0 <= i < |stats| - 1 ==> stats[i].lastTimeUsed < e.lastTimeUsed;
      }
    }
  }

  /** `getCurrentForegroundAppByStats`: the package of the most recently used
      candidate entry, when it was used within the active threshold; nothing for a
      failed query, an empty answer or no candidate. */
  function StatsResult(stats: Option<seq<UsageStat>>, now: int, intervalMinutes: Int32): Option<string>
  {
    if stats.None? || |stats.value| == 0 then None
    else
      var recent := MaxByLastUsed(Filter(stats.value, IsCandidate));
      if recent.Some? && now - recent.value.lastTimeUsed <= ActiveThresholdMinutes(intervalMinutes) * 60 * 1000
      then Some(recent.value.packageName)
      else None
  }

  /** The statistics answer names a candidate used within the threshold that no
      other candidate was used more recently than. */
  lemma StatsResultIsRecentLatest(stats: seq<UsageStat>, now: int, intervalMinutes: Int32)
    requires StatsResult(Some(stats), now, intervalMinutes).Some?
    ensures exists s :: (s in stats && IsCandidate(s)
      && StatsResult(Some(stats), now, intervalMinutes) == Some(s.packageName)
      && now - s.lastTimeUsed <= ActiveThresholdMinutes(intervalMinutes) * 60 * 1000
      && forall t :: t in stats && IsCandidate(t) ==> t.lastTimeUsed <= s.lastTimeUsed)
  {
    var cands := Filter(stats, IsCandidate);
    MaxByLastUsedIsFirstMax(cands);
    var s := MaxByLastUsed(cands).value;
    forall t | t in stats && IsCandidate(t) ensures t.lastTimeUsed <= s.lastTimeUsed {
      FilterContains(stats, IsCandidate, t);
    }
  }

  // ---------------------------------------------------------------- combined

  /** `getCurrentForegroundApp`: with usage access, the event answer if there is
      one, otherwise the statistics answer (a fallback, not a union); without it,
      the running task the old API reports. */
  function DetectForeground(p: UsagePlatform, now: int, intervalMinutes: Int32): Option<string>
  {
    if p.hasUsageAccess then EventResult(p.events, now).OrElse(StatsResult(p.stats, now, intervalMinutes))
    else p.topTask
  }

  method CurrentForegroundApp(p: UsagePlatform, now: int, intervalMinutes: Int32) returns (r: Option<string>)
    ensures r == DetectForeground(p, now, intervalMinutes)
  {
    if p.hasUsageAccess {
      var eventResult := ForegroundByEvents(p.events, now);
      var statsResult := StatsResult(p.stats, now, intervalMinutes);
      r := eventResult.OrElse(statsResult);
    } else {
      r := p.topTask;
    }
  }

  /** The event answer wins whenever there is one: a recent event for one package
      hides a statistics answer for another. */
  lemma EventAnswerHidesStats(p: UsagePlatform, now: int, intervalMinutes: Int32)
    requires p.hasUsageAccess && EventResult(p.events, now).Some?
    ensures DetectForeground(p, now, intervalMinutes) == EventResult(p.events, now)
  {
  }

  /** `isWhitelistAppActive` as a function: false for an empty whitelist, otherwise
      whether the detected package is in it. */
  predicate WhitelistActive(packages: set<string>, p: UsagePlatform, now: int, intervalMinutes: Int32)
  {
    packages != {} && DetectForeground(p, now, intervalMinutes).Some?
      && DetectForeground(p, now, intervalMinutes).value in packages
  }

  /** `isWhitelistAppActive`. */
  method IsWhitelistAppActive(packages: set<string>, p: UsagePlatform, now: int, intervalMinutes: Int32)
    returns (active: bool)
    ensures active == WhitelistActive(packages, p, now, intervalMinutes)
    ensures packages == {} ==> !active
  {
    if packages == {} {
      return false;
    }
    var currentApp := CurrentForegroundApp(p, now, intervalMinutes);
    active := currentApp.Some? && currentApp.value in packages;
  }

  /** With usage access, a whitelisted app counts as active only because of a
      recent resume of it that is the latest one, or, failing any event answer,
      a recent use of it that is the latest candidate use. */
  lemma ActiveMeansRecentWhitelistedUse(packages: set<string>, p: UsagePlatform, now: int, intervalMinutes: Int32)
    requires p.hasUsageAccess && WhitelistActive(packages, p, now, intervalMinutes)
    ensures
      || (p.events.Some? && exists e :: (e in p.events.value && IsResumed(e) && e.packageName in packages
            && 0 < e.timeStamp && now - e.timeStamp <= MaxEventAgeMillis))
      || (p.stats.Some? && exists s :: (s in p.stats.value && IsCandidate(s) && s.packageName in packages
            && now - s.lastTimeUsed <= ActiveThresholdMinutes(intervalMinutes) * 60 * 1000))
  {
    if EventResult(p.events, now).Some? {
      EventResultIsRecentLatest(p.events.value, now);
      var k :| 0 <= k < |p.events.value| && IsResumed(p.events.value[k])
        && EventResult(p.events, now) == Some(p.events.value[k].packageName)
        && 0 < p.events.value[k].timeStamp && now - p.events.value[k].timeStamp <= MaxEventAgeMillis;
      assert p.events.value[k] in p.events.value;
    } else {
      StatsResultIsRecentLatest(p.stats.value, now, intervalMinutes);
    }
  }

  /** Conversely, when the strictly latest resume event belongs to a whitelisted
      app and is at most two minutes old, the whitelist is active. */
  lemma RecentLatestResumeIsActive(packages: set<string>, p: UsagePlatform, now: int, intervalMinutes: Int32, k: nat)
    requires p.hasUsageAccess && p.events.Some? && k < |p.events.value|
    requires IsResumed(p.events.value[k]) && p.events.value[k].packageName in packages
    requires 0 < p.events.value[k].timeStamp && now - p.events.value[k].timeStamp <= MaxEventAgeMillis
    requires forall i :: 0 <= i < |p.events.value| && i != k && IsResumed(p.events.value[i]) ==>
      p.events.value[i].timeStamp < p.events.value[k].timeStamp
    ensures WhitelistActive(packages, p, now, intervalMinutes)
  {
    var events := p.events.value;
    ScanResumedIsLatest(events);
    var st := ScanResumed(events);
    var j :| 0 <= j < |events| && IsResumed(events[j]) && events[j].timeStamp == st.lastTime
      && st.app == Some(events[j].packageName)
      && forall i :: 0 <= i < j && IsResumed(events[i]) ==> events[i].timeStamp < events[j].timeStamp;
    assert j == k;
  }

  // ---------------------------------------------------------------- installed apps

  /** A launchable app: its package and its label. */
  datatype AppEntry = AppEntry(packageName: string, appName: string)

  const SystemCoreApps: set<string> := {
    "com.android.settings", "com.android.systemui", "com.android.launcher",
    "com.android.launcher3", "com.android.dialer", "com.android.contacts",
    "com.android.mms", "com.android.phone", "com.android.calculator2",
    "com.android.calendar", "com.android.deskclock", "com.android.gallery3d",
    "com.android.camera", "com.android.camera2", "android"
  }

  /** `isSystemCoreApp`: a fixed set of core packages and the internal namespace. */
  predicate IsSystemCoreApp(packageName: string)
  {
    packageName in SystemCoreApps || StartsWith(packageName, "com.android.internal")
  }

  /** The `mapNotNull` step: entries whose lookup threw (`None`) and core apps drop
      out; the rest keep their order. */
  function ResolvedNonCore(resolved: seq<Option<AppEntry>>): (r: seq<AppEntry>)
    ensures forall i :: 0 <= i < |r| ==> !IsSystemCoreApp(r[i].packageName) && Some(r[i]) in resolved
    ensures forall i :: (0 <= i < |resolved| && resolved[i].Some? && !IsSystemCoreApp(resolved[i].value.packageName)
      ==> resolved[i].value in r)
  {
    if |resolved| == 0 then []
    else
      var init := ResolvedNonCore(resolved[..|resolved| - 1]);
      var last := resolved[|resolved| - 1];
      assert forall i :: 0 <= i < |resolved| - 1 ==> resolved[..|resolved| - 1][i] == resolved[i];
      if last.Some? && !IsSystemCoreApp(last.value.packageName) then init + [last.value] else init
  }

  /** The `mapNotNull` step keeps the surviving entries in their order: an entry
      added at the end is kept at the end exactly when it resolved and is not a
      core app. */
  lemma ResolvedNonCoreAppend(resolved: seq<Option<AppEntry>>, x: Option<AppEntry>)
    ensures ResolvedNonCore(resolved + [x])
      == ResolvedNonCore(resolved) + (if x.Some? && !IsSystemCoreApp(x.value.packageName) then [x.value] else [])
  {
    assert (resolved + [x])[..|resolved|] == resolved;
  }

  function ByPackage(e: AppEntry): string { e.packageName }

  /** Ordering by label, as `sortedBy { it.second }` compares them. */
  predicate NameLe(a: AppEntry, b: AppEntry) { LexLe(a.appName, b.appName) }

  /** `getInstalledApps` after the platform lookups: non-core entries, one per
      package (the first), sorted by label. */
  function InstalledApps(resolved: seq<Option<AppEntry>>): seq<AppEntry>
  {
    SortBy(DistinctBy(ResolvedNonCore(resolved), ByPackage), NameLe)
  }

  lemma NameLeIsTotalPreorder()
    ensures TotalPreorder(NameLe)
  {
    forall a: AppEntry, b: AppEntry ensures NameLe(a, b) || NameLe(b, a) {
      LexLeTotal(a.appName, b.appName);
    }
    forall a: AppEntry, b: AppEntry, c: AppEntry | NameLe(a, b) && NameLe(b, c) ensures NameLe(a, c) {
      LexLeTransitive(a.appName, b.appName, c.appName);
    }
  }

  /** Every installed-app entry resolved and is not a core app. */
  lemma InstalledAppsAreResolvedNonCore(resolved: seq<Option<AppEntry>>)
    ensures forall e :: e in InstalledApps(resolved) ==> !IsSystemCoreApp(e.packageName) && Some(e) in resolved
  {
    var kept := ResolvedNonCore(resolved);
    var unique := DistinctBy(kept, ByPackage);
    forall e | e in InstalledApps(resolved) ensures !IsSystemCoreApp(e.packageName) && Some(e) in resolved {
      assert e in multiset(InstalledApps(resolved));
      assert e in multiset(unique);
    }
  }

  /** Each package appears at most once in the installed-app list. */
  lemma InstalledAppsUniquePackages(resolved: seq<Option<AppEntry>>)
    ensures forall i, j :: 0 <= i < j < |InstalledApps(resolved)| ==>
      InstalledApps(resolved)[i].packageName != InstalledApps(resolved)[j].packageName
  {
    var unique := DistinctBy(ResolvedNonCore(resolved), ByPackage);
    DistinctByUniqueKeys(ResolvedNonCore(resolved), ByPackage);
    DistinctKeysPermutation(unique, InstalledApps(resolved), ByPackage);
  }

  /** Every non-core app that resolved is listed under its package. */
  lemma InstalledAppsCoverResolved(resolved: seq<Option<AppEntry>>, i: nat)
    requires i < |resolved| && resolved[i].Some? && !IsSystemCoreApp(resolved[i].value.packageName)
    ensures exists e :: e in InstalledApps(resolved) && e.packageName == resolved[i].value.packageName
  {
    var kept := ResolvedNonCore(resolved);
    var unique := DistinctBy(kept, ByPackage);
    var x := resolved[i].value;
    var k :| 0 <= k < |kept| && kept[k] == x;
    DistinctByCoversKeys(kept, ByPackage, k);
    var j :| 0 <= j < |unique| && ByPackage(unique[j]) == ByPackage(kept[k]);
    assert unique[j] in multiset(InstalledApps(resolved));
  }

  /** Each listed app is the first non-core resolved entry of its package: a later
      entry of the same package never replaces it. */
  lemma InstalledAppsKeepFirst(resolved: seq<Option<AppEntry>>, e: AppEntry)
    requires e in InstalledApps(resolved)
    ensures exists i :: (0 <= i < |ResolvedNonCore(resolved)| && ResolvedNonCore(resolved)[i] == e
      && !HasKeyBefore(ResolvedNonCore(resolved), ByPackage, i, e.packageName))
  {
    var kept := ResolvedNonCore(resolved);
    var unique := DistinctBy(kept, ByPackage);
    assert e in multiset(InstalledApps(resolved));
    assert e in multiset(unique);
    var j :| 0 <= j < |unique| && unique[j] == e;
    DistinctByKeepsFirst(kept, ByPackage, j);
  }

  /** Apps with equal names keep the order in which they were resolved: the sort
      is stable, so ties are not reordered. */
  lemma InstalledAppsTiesKeepOrder(resolved: seq<Option<AppEntry>>, e: AppEntry)
    ensures Filter(InstalledApps(resolved), EquivTo(NameLe, e)) ==
      Filter(DistinctBy(ResolvedNonCore(resolved), ByPackage), EquivTo(NameLe, e))
  {
    NameLeIsTotalPreorder();
    SortByStable(DistinctBy(ResolvedNonCore(resolved), ByPackage), NameLe, e);
  }

  /** The installed-app list is sorted by label. */
  lemma InstalledAppsSorted(resolved: seq<Option<AppEntry>>)
    ensures SortedBy(InstalledApps(resolved), NameLe)
  {
    NameLeIsTotalPreorder();
    SortBySorted(DistinctBy(ResolvedNonCore(resolved), ByPackage), NameLe);
  }
}
