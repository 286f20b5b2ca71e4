/** The browser-storage service of src/services/storage.ts: the settings record, the
    most-recently-used address history (case-insensitive, newest first, at most ten entries),
    and the one-shot migration from the legacy storage keys. The browser's `localStorage` is a
    map from key to stored value; `JSON.stringify`/`JSON.parse` are modelled by storing the
    decoded shapes themselves. */
module Storage {
  import opened Common
  import opened Types

  const SettingsKey: string := "bsc-tx-analyzer-settings"
  const HistoryKey: string := "bsc-tx-analyzer-address-history"
  /** The keys the previous version of the application wrote. */
  const LegacyApiKey: string := "bscscanApiKey"
  const LegacyHistoryKey: string := "addressHistory"

  /** `history.splice(10)`: the longest history kept. */
  const MaxHistory: nat := 10

  /** Milliseconds between the timestamps given to consecutive migrated addresses. */
  const MigrationStep: int := 1000

  /** What a storage key holds. `Text` is a string that is not the JSON of any of the other
      shapes (so `JSON.parse` throws on it, unless it is used as a raw string). */
  datatype Stored =
    | Text(text: string)
    | SettingsJson(settings: Settings)
    | HistoryJson(history: seq<AddressHistory>)
    | AddressListJson(addresses: seq<string>)

  /** `if (stored)`: the key is present and does not hold the empty string. */
  predicate Truthy(store: map<string, Stored>, key: string) {
    key in store && store[key] != Text("")
  }

  /** `getSettings` when storage is reachable: the stored settings, or the empty API key when
      the key is missing, empty or unparsable. */
  function StoredSettings(store: map<string, Stored>): (s: Settings)
    ensures !Truthy(store, SettingsKey) ==> s == Settings("")
    ensures SettingsKey in store && store[SettingsKey].SettingsJson? ==> s == store[SettingsKey].settings
  {
    if Truthy(store, SettingsKey) && store[SettingsKey].SettingsJson? then store[SettingsKey].settings
    else Settings("")
  }

  /** `getAddressHistory` when storage is reachable: the stored list, or the empty list when the
      key is missing, empty or unparsable. */
  function StoredHistory(store: map<string, Stored>): (h: seq<AddressHistory>)
    ensures !Truthy(store, HistoryKey) ==> h == []
    ensures HistoryKey in store && store[HistoryKey].HistoryJson? ==> h == store[HistoryKey].history
  {
    if Truthy(store, HistoryKey) && store[HistoryKey].HistoryJson? then store[HistoryKey].history
    else []
  }

  /** A saved setting reads back as saved, whatever the store held before. */
  lemma SettingsRoundTrip(store: map<string, Stored>, settings: Settings)
    ensures StoredSettings(store[SettingsKey := SettingsJson(settings)]) == settings
  {
  }

  /** A written history reads back as written, whatever the store held before. */
  lemma HistoryRoundTrip(store: map<string, Stored>, history: seq<AddressHistory>)
    ensures StoredHistory(store[HistoryKey := HistoryJson(history)]) == history
  {
  }

  // ---------------------------------------------------------------------------
  // The address history

  /** The comparison both `findIndex` and `filter` use: equal ignoring case. */
  predicate SameAddress(item: AddressHistory, address: string) {
    Lower(item.address) == Lower(address)
  }

  /** No two entries are the same address ignoring case. */
  predicate NoCaseDuplicates(history: seq<AddressHistory>) {
    forall i, j :: 0 <= i < j < |history| ==> Lower(history[i].address) != Lower(history[j].address)
  }

  /** `history.findIndex(item => …)`: the first entry for `address`, or -1. */
  function FindIndex(history: seq<AddressHistory>, address: string): (i: int)
    ensures -1 <= i < |history|
    ensures i >= 0 ==> SameAddress(history[i], address)
    ensures i >= 0 ==> forall j :: 0 <= j < i ==> !SameAddress(history[j], address)
    ensures i == -1 <==> forall j :: 0 <= j < |history| ==> !SameAddress(history[j], address)
  {
    if history == [] then -1
    else if SameAddress(history[0], address) then 0
    else
      var k := FindIndex(history[1..], address);
      if k == -1 then -1 else k + 1
  }

  /** The entries `saveAddressToHistory` keeps behind the new front entry, before truncation:
      the history without the first entry for `address`. */
  function Others(history: seq<AddressHistory>, address: string): seq<AddressHistory> {
    var i := FindIndex(history, address);
    if i >= 0 then history[..i] + history[i + 1..] else history
  }

  /** The new front entry: the existing entry with a fresh timestamp (its stored spelling is
      kept), or a new entry. */
  function FrontEntry(history: seq<AddressHistory>, address: string, now: int): AddressHistory {
    var i := FindIndex(history, address);
    if i >= 0 then history[i].(timestamp := now) else AddressHistory(address, now)
  }

  /** The history after `saveAddressToHistory(address)` at time `now`. */
  function SavedHistory(history: seq<AddressHistory>, address: string, now: int): (r: seq<AddressHistory>)
    ensures 1 <= |r| <= MaxHistory
  {
    var moved := [FrontEntry(history, address, now)] + Others(history, address);
    if |moved| > MaxHistory then moved[..MaxHistory] else moved
  }

  /** The saved address is at the front with the new timestamp; an address already present keeps
      its stored spelling, a new one is stored as given. */
  lemma SavedAddressFirst(history: seq<AddressHistory>, address: string, now: int)
    ensures var r := SavedHistory(history, address, now);
      && SameAddress(r[0], address) && r[0].timestamp == now
      && (FindIndex(history, address) >= 0 ==> r[0].address == history[FindIndex(history, address)].address)
      && (FindIndex(history, address) == -1 ==> r[0].address == address)
  {
  }

  /** Everything behind the front entry is the rest of the history in its old order, cut so
      that at most ten entries remain. */
  lemma SavedKeepsOrder(history: seq<AddressHistory>, address: string, now: int)
    ensures var r := SavedHistory(history, address, now);
      var others := Others(history, address);
      && |r| == (if |others| + 1 > MaxHistory then MaxHistory else |others| + 1)
      && r[1..] == others[..|r| - 1]
  {
  }

  /** Removing the first entry for `address` leaves the other entries; when there are no
      duplicates, none of them is for `address`. */
  lemma OthersExclude(history: seq<AddressHistory>, address: string)
    requires NoCaseDuplicates(history)
    ensures forall e :: e in Others(history, address) ==> e in history && !SameAddress(e, address)
    ensures NoCaseDuplicates(Others(history, address))
  {
    var i := FindIndex(history, address);
    var others := Others(history, address);
    if i >= 0 {
      forall k | 0 <= k < |others|
        ensures others[k] == history[Skipping(k, i)]
      {
        if k < i {
          assert others[k] == history[..i][k];
        } else {
          assert others[k] == history[i + 1..][k - i];
        }
      }
      forall e | e in others
        ensures e in history && !SameAddress(e, address)
      {
        var k :| 0 <= k < |others| && others[k] == e;
        var j := Skipping(k, i);
        assert history[j] == e;
        if j < i {
          assert Lower(history[j].address) != Lower(history[i].address);
        } else {
          assert Lower(history[i].address) != Lower(history[j].address);
        }
      }
    } else {
      assert forall e :: e in history ==> !SameAddress(e, address);
    }
  }

  /** The index in the history of the `k`-th entry that remains once the `i`-th is removed. */
  function Skipping(k: nat, i: nat): (j: nat)
    ensures j != i && (j < i <==> k < i)
  {
    if k < i then k else k + 1
  }

  /** Saving never creates a second copy of an address: a history without case-insensitive
      duplicates stays without them. */
  lemma SavedNoDuplicates(history: seq<AddressHistory>, address: string, now: int)
    requires NoCaseDuplicates(history)
    ensures NoCaseDuplicates(SavedHistory(history, address, now))
  {
    OthersExclude(history, address);
    var others := Others(history, address);
    var front := FrontEntry(history, address, now);
    assert SameAddress(front, address);
    var moved := [front] + others;
    forall i, j | 0 <= i < j < |moved| ensures Lower(moved[i].address) != Lower(moved[j].address) {
      assert moved[j] == others[j - 1] && moved[j] in others;
      if i > 0 {
        assert moved[i] == others[i - 1];
      }
    }
    var r := SavedHistory(history, address, now);
    assert r == moved || r == moved[..MaxHistory];
    forall i, j | 0 <= i < j < |r| ensures Lower(r[i].address) != Lower(r[j].address) {
      assert r[i] == moved[i] && r[j] == moved[j];
    }
  }

  /** `history.filter(item => item.address.toLowerCase() !== address.toLowerCase())`. */
  function WithoutAddress(history: seq<AddressHistory>, address: string): (r: seq<AddressHistory>)
    ensures forall e :: e in r <==> e in history && !SameAddress(e, address)
    ensures |r| <= |history|
  {
    if history == [] then []
    else (if SameAddress(history[0], address) then [] else [history[0]]) + WithoutAddress(history[1..], address)
  }

  /** Removal works entry by entry, so it keeps the order of what remains: removing from a
      concatenation is concatenating the removals. */
  lemma {:induction false} WithoutAddressAppend(a: seq<AddressHistory>, b: seq<AddressHistory>, address: string)
    ensures WithoutAddress(a + b, address) == WithoutAddress(a, address) + WithoutAddress(b, address)
  {
    if a == [] {
      assert a + b == b;
    } else {
      assert (a + b)[0] == a[0] && (a + b)[1..] == a[1..] + b;
      WithoutAddressAppend(a[1..], b, address);
    }
  }

  /** A history with no entry for `address` is unchanged by removing it. */
  lemma {:induction false} WithoutAbsentAddress(history: seq<AddressHistory>, address: string)
    requires forall e :: e in history ==> !SameAddress(e, address)
    ensures WithoutAddress(history, address) == history
  {
    if history != [] {
      assert history[0] in history;
      assert forall e :: e in history[1..] ==> e in history;
      WithoutAbsentAddress(history[1..], address);
    }
  }

  // ---------------------------------------------------------------------------
  // Migration from the legacy keys

  /** The legacy API key as the raw string it was stored as; a value of one of the JSON shapes is
      not a legacy key. */
  function LegacyApiKeyText(store: map<string, Stored>): string {
    if LegacyApiKey in store && store[LegacyApiKey].Text? then store[LegacyApiKey].text else ""
  }

  /** `oldAddresses.map((address, index) => ({ address, timestamp: now - index * 1000 }))`. */
  function MigratedHistory(addresses: seq<string>, now: int): (r: seq<AddressHistory>)
    ensures |r| == |addresses|
    ensures forall i :: 0 <= i < |r| ==> r[i].address == addresses[i]
  {
    seq(|addresses|, i requires 0 <= i < |addresses| => AddressHistory(addresses[i], now - i * MigrationStep))
  }

  /** Migrated entries keep the old order and are newest first: timestamps strictly decrease. */
  lemma MigratedNewestFirst(addresses: seq<string>, now: int)
    ensures forall i, j :: 0 <= i < j < |addresses| ==>
      MigratedHistory(addresses, now)[i].timestamp > MigratedHistory(addresses, now)[j].timestamp
    ensures |addresses| > 0 ==> MigratedHistory(addresses, now)[0].timestamp == now
  {
  }

  datatype Migration = Migration(store: map<string, Stored>, performed: bool)

  /** The API-key step: the legacy key is copied into the settings only when the settings key
      is not already set, and the legacy key is then removed. */
  function MigrateApiKey(store: map<string, Stored>): (m: Migration)
    ensures m.performed <==> LegacyApiKeyText(store) != "" && !Truthy(store, SettingsKey)
  {
    var oldApiKey := LegacyApiKeyText(store);
    if oldApiKey != "" && !Truthy(store, SettingsKey) then
      Migration(store[SettingsKey := SettingsJson(Settings(oldApiKey))] - {LegacyApiKey}, true)
    else Migration(store, false)
  }

  /** The history step: a legacy list is converted when the new key is not already set; a legacy
      value that does not parse is dropped. */
  function MigrateHistory(store: map<string, Stored>, now: int): (m: Migration)
    ensures m.performed <==>
      Truthy(store, LegacyHistoryKey) && !Truthy(store, HistoryKey) && store[LegacyHistoryKey].AddressListJson?
  {
    if Truthy(store, LegacyHistoryKey) && !Truthy(store, HistoryKey) then
      match store[LegacyHistoryKey]
      case AddressListJson(addresses) =>
        Migration(store[HistoryKey := HistoryJson(MigratedHistory(addresses, now))] - {LegacyHistoryKey}, true)
      case _ => Migration(store - {LegacyHistoryKey}, false)
    else Migration(store, false)
  }

  /** Both steps of `migrateOldData`, in order. */
  function MigrateStore(store: map<string, Stored>, now: int): Migration {
    var apiKey := MigrateApiKey(store);
    var history := MigrateHistory(apiKey.store, now);
    Migration(history.store, apiKey.performed || history.performed)
  }

  /** The settings are written only when none were stored, and then hold the legacy key, which
      is gone from the store. */
  lemma MigrationApiKey(store: map<string, Stored>, now: int)
    ensures var m := MigrateStore(store, now);
      && (Truthy(store, SettingsKey) ==> SettingsKey in m.store && m.store[SettingsKey] == store[SettingsKey])
      && (LegacyApiKeyText(store) != "" && !Truthy(store, SettingsKey) ==>
            StoredSettings(m.store) == Settings(LegacyApiKeyText(store)) && LegacyApiKey !in m.store)
  {
  }

  /** Migrating a second time changes nothing and reports nothing. */
  lemma MigrationIdempotent(store: map<string, Stored>, now: int, later: int)
    ensures var once := MigrateStore(store, now).store;
      MigrateStore(once, later) == Migration(once, false)
  {
    var a := MigrateApiKey(store);
    assert !MigrateApiKey(a.store).performed;
    var once := MigrateStore(store, now).store;
    assert MigrateApiKey(once).store == once;
  }

  // ---------------------------------------------------------------------------
  // The service

  /** `StorageService`: its static `migrationCompleted` flag and the storage it works on.
      `available` is false when every access to the browser storage throws; the service then
      catches the error and carries on as described per method. */
  class StorageService {
    var migrationCompleted: bool
    var localStorage: map<string, Stored>
    const available: bool

    constructor (available: bool, localStorage: map<string, Stored>)
      ensures this.available == available && this.localStorage == localStorage
      ensures !migrationCompleted
    {
      this.available := available;
      this.localStorage := localStorage;
      migrationCompleted := false;
    }

    /** `migrateOldData` at time `now`: runs the migration once; every later call, and every
        call after a failed first one, returns false and changes nothing. */
    method MigrateOldData(now: int) returns (performed: bool)
      modifies this
      ensures migrationCompleted
      ensures old(migrationCompleted) || !available ==> !performed && localStorage == old(localStorage)
      ensures !old(migrationCompleted) && available ==>
        Migration(localStorage, performed) == MigrateStore(old(localStorage), now)
    {
      if migrationCompleted {
        return false;
      }
      if !available {
        // The first storage access throws; the outer handler marks the migration done.
        migrationCompleted := true;
        return false;
      }
      performed := false;
      var oldApiKey := LegacyApiKeyText(localStorage);
      if oldApiKey != "" && !Truthy(localStorage, SettingsKey) {
        localStorage := localStorage[SettingsKey := SettingsJson(Settings(oldApiKey))];
        localStorage := localStorage - {LegacyApiKey};
        performed := true;
      }
      if Truthy(localStorage, LegacyHistoryKey) && !Truthy(localStorage, HistoryKey) {
        var oldHistory := localStorage[LegacyHistoryKey];
        if oldHistory.AddressListJson? {
          localStorage := localStorage[HistoryKey := HistoryJson(MigratedHistory(oldHistory.addresses, now))];
          localStorage := localStorage - {LegacyHistoryKey};
          performed := true;
        } else {
          // `JSON.parse` throws; the inner handler drops the legacy value.
          localStorage := localStorage - {LegacyHistoryKey};
        }
      }
      migrationCompleted := true;
    }

    /** `saveSettings`. */
    method SaveSettings(settings: Settings)
      modifies this
      ensures migrationCompleted == old(migrationCompleted)
      ensures localStorage == if available then old(localStorage)[SettingsKey := SettingsJson(settings)] else old(localStorage)
      ensures GetSettings() == if available then settings else Settings("")
      ensures GetAddressHistory() == old(GetAddressHistory())
    {
      if available {
        localStorage := localStorage[SettingsKey := SettingsJson(settings)];
      }
    }

    /** `getSettings`: the stored settings, or an empty API key when nothing is stored or the
        storage throws. */
    function GetSettings(): (settings: Settings)
      reads this
      ensures !available ==> settings == Settings("")
      ensures available && !Truthy(localStorage, SettingsKey) ==> settings == Settings("")
      ensures available && SettingsKey in localStorage && localStorage[SettingsKey].SettingsJson? ==>
        settings == localStorage[SettingsKey].settings
    {
      if available then StoredSettings(localStorage) else Settings("")
    }

    /** `getAddressHistory`: the stored history, or an empty one when nothing is stored or the
        storage throws. */
    function GetAddressHistory(): (history: seq<AddressHistory>)
      reads this
      ensures !available ==> history == []
      ensures available && !Truthy(localStorage, HistoryKey) ==> history == []
      ensures available && HistoryKey in localStorage && localStorage[HistoryKey].HistoryJson? ==>
        history == localStorage[HistoryKey].history
    {
      if available then StoredHistory(localStorage) else []
    }

    /** `saveAddressToHistory(address)` at time `now`: the address moves (or is added) to the
        front of the history, which is cut to ten entries and written back. */
    method SaveAddressToHistory(address: string, now: int)
      modifies this
      ensures migrationCompleted == old(migrationCompleted)
      ensures localStorage == if available
        then old(localStorage)[HistoryKey := HistoryJson(SavedHistory(old(GetAddressHistory()), address, now))]
        else old(localStorage)
      ensures GetAddressHistory() == if available then SavedHistory(old(GetAddressHistory()), address, now) else []
      ensures GetSettings() == old(GetSettings())
    {
      if !available {
        return;
      }
      var history := GetAddressHistory();
      history := SavedHistory(history, address, now);
      localStorage := localStorage[HistoryKey := HistoryJson(history)];
    }

    /** `removeAddressFromHistory(address)`: every entry for the address goes, the rest stay in
        order. */
    method RemoveAddressFromHistory(address: string)
      modifies this
      ensures migrationCompleted == old(migrationCompleted)
      ensures localStorage == if available
        then old(localStorage)[HistoryKey := HistoryJson(WithoutAddress(old(GetAddressHistory()), address))]
        else old(localStorage)
      ensures GetAddressHistory() == if available then WithoutAddress(old(GetAddressHistory()), address) else []
      ensures GetSettings() == old(GetSettings())
    {
      if !available {
        return;
      }
      var history := GetAddressHistory();
      var filtered := WithoutAddress(history, address);
      localStorage := localStorage[HistoryKey := HistoryJson(filtered)];
    }

    /** `clearAddressHistory`. */
    method ClearAddressHistory()
      modifies this
      ensures migrationCompleted == old(migrationCompleted)
      ensures localStorage == if available then old(localStorage) - {HistoryKey} else old(localStorage)
      ensures GetAddressHistory() == []
      ensures GetSettings() == old(GetSettings())
    {
      if available {
        localStorage := localStorage - {HistoryKey};
      }
    }
  }
}
