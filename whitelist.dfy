/** The whitelist of apps during whose use no drink reminder is shown
    (`WhitelistApp`, `WhitelistSettings`, `WhitelistRepository`). The settings
    persist in the preference file "app_whitelist" as a switch and one string
    `pkg|name|enabled;pkg|name|enabled;…`; the repository also keeps the last
    loaded or saved settings in memory, and every edit starts from that copy. */
module Whitelist {
  import opened Wrappers
  import opened Text
  import opened Collections
  import opened Prefs

  datatype WhitelistApp = WhitelistApp(packageName: string, appName: string, isEnabled: bool)

  datatype WhitelistSettings = WhitelistSettings(apps: seq<WhitelistApp>, isWhitelistEnabled: bool)

  /** `WhitelistSettings()`: no apps, switch on. */
  const DefaultSettings := WhitelistSettings([], true)

  const EnabledKey := "whitelist_enabled"
  const AppsKey := "whitelist_apps"

  // ---------------------------------------------------------------- the stored string

  function EncodeApp(app: WhitelistApp): string
  {
    Join([app.packageName, app.appName, BoolToString(app.isEnabled)], '|')
  }

  /** `joinToString(";")` of the apps' encodings. */
  function EncodeApps(apps: seq<WhitelistApp>): string
  {
    Join(MapEncode(apps), ';')
  }

  function MapEncode(apps: seq<WhitelistApp>): (r: seq<string>)
    ensures |r| == |apps|
    ensures forall i :: 0 <= i < |apps| ==> r[i] == EncodeApp(apps[i])
  {
    if |apps| == 0 then [] else [EncodeApp(apps[0])] + MapEncode(apps[1..])
  }

  /** One record: exactly three `|`-separated fields give an app, anything else
      is skipped. */
  function DecodeApp(record: string): (r: Option<WhitelistApp>)
    ensures r.Some? <==> |Split(record, '|')| == 3
  {
    var parts := Split(record, '|');
    if |parts| == 3 then Some(WhitelistApp(parts[0], parts[1], ToBoolean(parts[2]))) else None
  }

  /** `mapNotNull` of `DecodeApp` over the records. */
  function DecodeRecords(records: seq<string>): (r: seq<WhitelistApp>)
    ensures |r| <= |records|
  {
    if |records| == 0 then []
    else
      var rest := DecodeRecords(records[1..]);
      match DecodeApp(records[0])
      case Some(app) => [app] + rest
      case None => rest
  }

  /** `mapNotNull` keeps every well-formed record in order, whatever records lie
      around it: decoding a concatenation decodes each part, and one record gives
      its app exactly when it has three fields. */
  lemma {:induction false} DecodeRecordsAppend(front: seq<string>, back: seq<string>, x: string)
    ensures DecodeRecords(front + back) == DecodeRecords(front) + DecodeRecords(back)
    ensures DecodeRecords([x]) == if DecodeApp(x).Some? then [DecodeApp(x).value] else []
  {
    if |front| > 0 {
      assert (front + back)[1..] == front[1..] + back;
      DecodeRecordsAppend(front[1..], back, x);
    } else {
      assert front + back == back;
    }
  }

  /** The app list of `loadWhitelist`: empty for an empty string, otherwise the
      decoded `;`-separated records. */
  function DecodeApps(stored: string): seq<WhitelistApp>
  {
    if |stored| == 0 then [] else DecodeRecords(Split(stored, ';'))
  }

  /** Neither name of an app holds a separator of the stored format. */
  predicate Storable(app: WhitelistApp)
  {
    '|' !in app.packageName && '|' !in app.appName && ';' !in app.packageName && ';' !in app.appName
  }

  lemma EncodeAppRoundTrip(app: WhitelistApp)
    requires Storable(app)
    ensures ';' !in EncodeApp(app)
    ensures DecodeApp(EncodeApp(app)) == Some(app)
  {
    var parts := [app.packageName, app.appName, BoolToString(app.isEnabled)];
    assert forall i :: 0 <= i < 3 ==> '|' !in parts[i];
    SplitJoin(parts, '|');
    ToBooleanOfBoolToString(app.isEnabled);
    JoinAvoids(parts, '|', ';');
  }

  lemma {:induction false} JoinAvoids(parts: seq<string>, sep: char, c: char)
    requires sep != c
    requires forall i :: 0 <= i < |parts| ==> c !in parts[i]
    ensures c !in Join(parts, sep)
  {
    if |parts| > 1 {
      JoinAvoids(parts[1..], sep, c);
    }
  }

  lemma {:induction false} DecodeRecordsOfEncodings(apps: seq<WhitelistApp>)
    requires forall i :: 0 <= i < |apps| ==> Storable(apps[i])
    ensures DecodeRecords(MapEncode(apps)) == apps
  {
    if |apps| > 0 {
      EncodeAppRoundTrip(apps[0]);
      assert MapEncode(apps)[1..] == MapEncode(apps[1..]);
      DecodeRecordsOfEncodings(apps[1..]);
    }
  }

  /** Stored apps read back as they were, as long as no name holds `|` or `;`. */
  lemma AppsRoundTrip(apps: seq<WhitelistApp>)
    requires forall i :: 0 <= i < |apps| ==> Storable(apps[i])
    ensures DecodeApps(EncodeApps(apps)) == apps
  {
    if |apps| > 0 {
      var records := MapEncode(apps);
      forall i | 0 <= i < |records| ensures ';' !in records[i] {
        EncodeAppRoundTrip(apps[i]);
      }
      assert |EncodeApp(apps[0])| > 0;
      assert |Join(records, ';')| > 0 by { JoinStartsWithFirst(records, ';'); }
      SplitJoin(records, ';');
      DecodeRecordsOfEncodings(apps);
    }
  }

  lemma JoinStartsWithFirst(parts: seq<string>, sep: char)
    requires |parts| >= 1
    ensures |Join(parts, sep)| >= |parts[0]|
  {
  }

  /** An app whose label holds a `|` is lost on the next load: its record splits
      into four fields. */
  lemma LabelWithBarIsDropped(pkg: string, x: string, y: string, enabled: bool)
    requires '|' !in pkg && '|' !in x && '|' !in y
    requires ';' !in pkg && ';' !in x && ';' !in y
    ensures DecodeApps(EncodeApps([WhitelistApp(pkg, x + "|" + y, enabled)])) == []
  {
    var b := BoolToString(enabled);
    assert '|' !in b && ';' !in b;
    var parts := [pkg, x + "|" + y, b];
    assert parts[1..][1..] == [b];
    assert Join(parts[1..], '|') == (x + "|" + y) + ['|'] + b;
    var record := EncodeApp(WhitelistApp(pkg, x + "|" + y, enabled));
    assert record == pkg + ['|'] + ((x + "|" + y) + ['|'] + b);
    assert record == pkg + ['|'] + (x + ['|'] + (y + ['|'] + b));
    SplitAtSeparator(pkg, x + ['|'] + (y + ['|'] + b), '|');
    SplitAtSeparator(x, y + ['|'] + b, '|');
    SplitAtSeparator(y, b, '|');
    SplitNoSeparator(b, '|');
    assert |Split(record, '|')| == 4;
    assert EncodeApps([WhitelistApp(pkg, x + "|" + y, enabled)]) == record;
    assert ';' !in record;
    SplitNoSeparator(record, ';');
  }

  // ---------------------------------------------------------------- store <-> settings

  /** What `loadWhitelist` reads from the preference file. */
  function LoadFrom(store: Store): WhitelistSettings
  {
    WhitelistSettings(DecodeApps(GetString(store, AppsKey, "")), GetBool(store, EnabledKey, true))
  }

  /** The preference file after `saveWhitelist`. */
  function SaveTo(store: Store, settings: WhitelistSettings): Store
  {
    store[EnabledKey := BoolValue(settings.isWhitelistEnabled)][AppsKey := StringValue(EncodeApps(settings.apps))]
  }

  /** An empty preference file loads as the default settings. */
  lemma LoadEmpty()
    ensures LoadFrom(map[]) == DefaultSettings
  {
  }

  /** Saving then loading gives the saved settings back, for storable names; the
      save touches the two whitelist keys only. */
  lemma SaveLoadRoundTrip(store: Store, settings: WhitelistSettings)
    requires forall i :: 0 <= i < |settings.apps| ==> Storable(settings.apps[i])
    ensures LoadFrom(SaveTo(store, settings)) == settings
    ensures forall k :: k in store && k != EnabledKey && k != AppsKey ==> k in SaveTo(store, settings) && SaveTo(store, settings)[k] == store[k]
  {
    AppsRoundTrip(settings.apps);
  }

  // ---------------------------------------------------------------- list edits

  /** Kotlin `indexOfFirst { it.packageName == pkg }`. */
  function IndexOfPackage(apps: seq<WhitelistApp>, pkg: string): (r: int)
    ensures -1 <= r < |apps|
    ensures r >= 0 ==> apps[r].packageName == pkg
    ensures forall j :: 0 <= j < |apps| && (r < 0 || j < r) ==> apps[j].packageName != pkg
  {
    if |apps| == 0 then -1
    else if apps[0].packageName == pkg then 0
    else
      var i := IndexOfPackage(apps[1..], pkg);
      if i < 0 then -1 else i + 1
  }

  /** `addApp`'s list edit: replace the first app of the same package, or append. */
  function Upsert(apps: seq<WhitelistApp>, app: WhitelistApp): seq<WhitelistApp>
  {
    var i := IndexOfPackage(apps, app.packageName);
    if i >= 0 then apps[i := app] else apps + [app]
  }

  predicate UniquePackages(apps: seq<WhitelistApp>)
  {
    forall i, j :: 0 <= i < j < |apps| ==> apps[i].packageName != apps[j].packageName
  }

  /** After `addApp` the app is listed, the list grows only for a new package,
      and every app of another package stays where it was; exactly the first
      entry of the package is replaced, or the app is appended. */
  lemma UpsertSpec(apps: seq<WhitelistApp>, app: WhitelistApp)
    ensures var i := IndexOfPackage(apps, app.packageName);
      && (i >= 0 ==> Upsert(apps, app) == apps[i := app])
      && (i < 0 ==> Upsert(apps, app) == apps + [app])
    ensures app in Upsert(apps, app)
    ensures |Upsert(apps, app)| == if (exists a :: a in apps && a.packageName == app.packageName) then |apps| else |apps| + 1
    ensures forall j :: 0 <= j < |apps| && apps[j].packageName != app.packageName ==> Upsert(apps, app)[j] == apps[j]
  {
    var i := IndexOfPackage(apps, app.packageName);
    if i < 0 {
      assert !exists a :: a in apps && a.packageName == app.packageName;
    } else {
      assert apps[i] in apps;
      assert apps[i := app][i] == app;
    }
  }

  /** `addApp` keeps one entry per package. */
  lemma UpsertKeepsUnique(apps: seq<WhitelistApp>, app: WhitelistApp)
    requires UniquePackages(apps)
    ensures UniquePackages(Upsert(apps, app))
  {
  }

  function NotPackage(pkg: string): WhitelistApp -> bool
  {
    (a: WhitelistApp) => a.packageName != pkg
  }

  /** `removeApp`'s list edit. */
  function Remove(apps: seq<WhitelistApp>, pkg: string): seq<WhitelistApp>
  {
    Filter(apps, NotPackage(pkg))
  }

  /** After `removeApp` no app of that package is left, and every other app is
      kept as often as before. */
  lemma RemoveSpec(apps: seq<WhitelistApp>, pkg: string, a: WhitelistApp)
    ensures forall b :: b in Remove(apps, pkg) ==> b.packageName != pkg
    ensures a.packageName != pkg ==> multiset(Remove(apps, pkg))[a] == multiset(apps)[a]
  {
    FilterMultiset(apps, NotPackage(pkg), a);
  }

  /** `removeApp` keeps the order of the apps that remain: removing from a
      concatenation removes from each part, and a single app stays exactly when
      its package differs. */
  lemma RemoveKeepsOrder(front: seq<WhitelistApp>, back: seq<WhitelistApp>, pkg: string, x: WhitelistApp)
    ensures Remove(front + back, pkg) == Remove(front, pkg) + Remove(back, pkg)
    ensures Remove([x], pkg) == if x.packageName == pkg then [] else [x]
  {
    FilterAppend(front, back, NotPackage(pkg));
  }

  /** `toggleAppEnabled`'s list edit: flip the switch of every app of the package. */
  function Toggle(apps: seq<WhitelistApp>, pkg: string): (r: seq<WhitelistApp>)
    ensures |r| == |apps|
  {
    if |apps| == 0 then []
    else
      var a := apps[0];
      [if a.packageName == pkg then a.(isEnabled := !a.isEnabled) else a] + Toggle(apps[1..], pkg)
  }

  /** Toggling changes only the switch of the package's apps. */
  lemma {:induction false} ToggleSpec(apps: seq<WhitelistApp>, pkg: string)
    ensures forall i :: 0 <= i < |apps| ==>
      Toggle(apps, pkg)[i].packageName == apps[i].packageName
      && Toggle(apps, pkg)[i].appName == apps[i].appName
      && (Toggle(apps, pkg)[i].isEnabled <==> (apps[i].isEnabled != (apps[i].packageName == pkg)))
  {
    if |apps| > 0 {
      ToggleSpec(apps[1..], pkg);
    }
  }

  /** Toggling the same package twice restores the list. */
  lemma {:induction false} ToggleTwice(apps: seq<WhitelistApp>, pkg: string)
    ensures Toggle(Toggle(apps, pkg), pkg) == apps
  {
    if |apps| > 0 {
      ToggleTwice(apps[1..], pkg);
      assert Toggle(apps, pkg)[1..] == Toggle(apps[1..], pkg);
    }
  }

  // ---------------------------------------------------------------- enabled packages

  /** `getEnabledPackageNames` on given settings: the packages of the enabled apps
      while the switch is on, none while it is off. */
  function EnabledPackages(settings: WhitelistSettings): (r: set<string>)
    ensures forall p :: p in r <==>
      settings.isWhitelistEnabled && exists a :: a in settings.apps && a.isEnabled && a.packageName == p
  {
    if settings.isWhitelistEnabled then (set a | a in settings.apps && a.isEnabled :: a.packageName) else {}
  }

  /** A removed package is never reported enabled. */
  lemma RemovedIsNotEnabled(settings: WhitelistSettings, pkg: string)
    ensures pkg !in EnabledPackages(settings.(apps := Remove(settings.apps, pkg)))
  {
    RemoveSpec(settings.apps, pkg, WhitelistApp(pkg, "", false));
  }

  /** An app just added with its switch on is reported enabled while the whitelist
      switch is on. */
  lemma AddedIsEnabled(settings: WhitelistSettings, app: WhitelistApp)
    requires settings.isWhitelistEnabled && app.isEnabled
    ensures app.packageName in EnabledPackages(settings.(apps := Upsert(settings.apps, app)))
  {
    UpsertSpec(settings.apps, app);
  }

  // ---------------------------------------------------------------- the repository

  /** The `WhitelistRepository` singleton: the in-memory settings (its state flow)
      and its preference file. */
  class WhitelistRepository {
    var current: WhitelistSettings
    var prefs: Store

    constructor(prefs: Store)
      ensures this.prefs == prefs && current == DefaultSettings
    {
      this.prefs := prefs;
      current := DefaultSettings;
    }

    /** `loadWhitelist`: read the file and publish what was read. */
    method LoadWhitelist() returns (settings: WhitelistSettings)
      modifies this
      ensures settings == LoadFrom(prefs) && current == settings
      ensures prefs == old(prefs)
    {
      settings := WhitelistSettings(DecodeApps(GetString(prefs, AppsKey, "")), GetBool(prefs, EnabledKey, true));
      current := settings;
    }

    /** `saveWhitelist`: write both keys and publish the settings. A fresh load of
        the file then sees what is held in memory (for storable names). */
    method SaveWhitelist(settings: WhitelistSettings)
      modifies this
      ensures prefs == SaveTo(old(prefs), settings) && current == settings
      ensures (forall i :: 0 <= i < |current.apps| ==> Storable(current.apps[i])) ==> LoadFrom(prefs) == current
    {
      var appsJson := EncodeApps(settings.apps);
      prefs := prefs[EnabledKey := BoolValue(settings.isWhitelistEnabled)][AppsKey := StringValue(appsJson)];
      current := settings;
      if forall i :: 0 <= i < |settings.apps| ==> Storable(settings.apps[i]) {
        SaveLoadRoundTrip(old(prefs), settings);
      }
    }

    method AddApp(app: WhitelistApp)
      modifies this
      ensures current == old(current).(apps := Upsert(old(current).apps, app))
      ensures prefs == SaveTo(old(prefs), current)
      ensures (forall i :: 0 <= i < |current.apps| ==> Storable(current.apps[i])) ==> LoadFrom(prefs) == current
    {
      var newApps := Upsert(current.apps, app);
      SaveWhitelist(current.(apps := newApps));
    }

    method RemoveApp(packageName: string)
      modifies this
      ensures current == old(current).(apps := Remove(old(current).apps, packageName))
      ensures prefs == SaveTo(old(prefs), current)
      ensures (forall i :: 0 <= i < |current.apps| ==> Storable(current.apps[i])) ==> LoadFrom(prefs) == current
    {
      var newApps := Remove(current.apps, packageName);
      SaveWhitelist(current.(apps := newApps));
    }

    method ToggleAppEnabled(packageName: string)
      modifies this
      ensures current == old(current).(apps := Toggle(old(current).apps, packageName))
      ensures prefs == SaveTo(old(prefs), current)
      ensures (forall i :: 0 <= i < |current.apps| ==> Storable(current.apps[i])) ==> LoadFrom(prefs) == current
    {
      var newApps := Toggle(current.apps, packageName);
      SaveWhitelist(current.(apps := newApps));
    }

    method SetWhitelistEnabled(enabled: bool)
      modifies this
      ensures current == old(current).(isWhitelistEnabled := enabled)
      ensures prefs == SaveTo(old(prefs), current)
      ensures (forall i :: 0 <= i < |current.apps| ==> Storable(current.apps[i])) ==> LoadFrom(prefs) == current
    {
      SaveWhitelist(current.(isWhitelistEnabled := enabled));
    }

    /** `getEnabledPackageNames`, read from the in-memory settings. */
    function GetEnabledPackageNames(): (r: set<string>)
      reads this
      ensures r == EnabledPackages(current)
      ensures !current.isWhitelistEnabled ==> r == {}
    {
      EnabledPackages(current)
    }
  }
}
