/** The per-image generation history: its storage key, the capped most-recent-first list, and
    the key-value store (the browser's `localStorage`) it is kept in. */
module GenerationHistory {
  import opened Wrappers
  import opened JsStrings

  /** At most this many entries are kept. */
  const MaxEntries: nat := 10

  const KeyPrefix: string := "gen_history_"

  /** `gen_history_<name>_<size>`: the key under which an image's history is stored. */
  function HistoryKey(name: string, size: nat): string {
    KeyPrefix + name + "_" + NatToDecimal(size)
  }

  /** Two images share a history bucket only when they have the same name and size. */
  lemma HistoryKeyInjective(name1: string, size1: nat, name2: string, size2: nat)
    requires HistoryKey(name1, size1) == HistoryKey(name2, size2)
    ensures name1 == name2 && size1 == size2
  {
    var d1, d2 := NatToDecimal(size1), NatToDecimal(size2);
    var u1, u2 := name1 + "_" + d1, name2 + "_" + d2;
    assert HistoryKey(name1, size1) == KeyPrefix + u1;
    assert HistoryKey(name2, size2) == KeyPrefix + u2;
    assert u1 == (KeyPrefix + u1)[|KeyPrefix|..];
    assert u2 == (KeyPrefix + u2)[|KeyPrefix|..];
    if |d1| < |d2| {
      DigitsAfterLastUnderscore(name1, d1, name2, d2);
    } else if |d2| < |d1| {
      DigitsAfterLastUnderscore(name2, d2, name1, d1);
    }
    assert |name1| == |name2|;
    assert name1 == u1[..|name1|] && name2 == u2[..|name2|];
    assert d1 == u1[|name1| + 1..] && d2 == u2[|name2| + 1..];
    NatToDecimalInjective(size1, size2);
  }

  /** A shorter digit suffix cannot meet an underscore where a longer one has a digit. */
  lemma DigitsAfterLastUnderscore(a: string, da: string, b: string, db: string)
    requires IsDigits(da) && IsDigits(db) && |da| < |db|
    ensures a + "_" + da != b + "_" + db
  {
    var u, v := a + "_" + da, b + "_" + db;
    if |u| == |v| {
      var p := |a|;
      assert u[p] == '_';
      assert |b| + 1 <= p < |v|;
      assert v[p] == db[p - (|b| + 1)];
      assert IsDigit(v[p]);
    }
  }

  /** What `localStorage` holds under a key, as far as loading it is concerned: a list the
      editor wrote with `JSON.stringify`, or a value that is empty or that `JSON.parse` rejects. */
  datatype Stored = Entries(list: seq<string>) | Corrupt

  type Storage = map<string, Stored>

  /** The history shown for the current image: the stored list when there is a key and a list is
      stored under it, `[]` otherwise. */
  function Load(storage: Storage, key: Option<string>): seq<string> {
    if key.Some? && key.value in storage && storage[key.value].Entries?
    then storage[key.value].list
    else []
  }

  /** `localStorage.setItem(key, JSON.stringify(history))`. */
  function Save(storage: Storage, key: string, history: seq<string>): Storage {
    storage[key := Entries(history)]
  }

  /** `localStorage.removeItem(key)` when there is a key. */
  function Evict(storage: Storage, key: Option<string>): Storage {
    if key.Some? then storage - {key.value} else storage
  }

  /** Without a key, with nothing stored under it, or with a value that does not parse, the
      history loads as empty. */
  lemma LoadEmptyCases(storage: Storage, key: string)
    ensures Load(storage, None) == []
    ensures key !in storage ==> Load(storage, Some(key)) == []
    ensures key in storage && storage[key] == Corrupt ==> Load(storage, Some(key)) == []
    ensures key in storage && storage[key].Entries? ==> Load(storage, Some(key)) == storage[key].list
  {
  }

  /** Writing a list and loading it back gives the same list (the JSON round trip). */
  lemma LoadAfterSave(storage: Storage, key: string, history: seq<string>)
    ensures Load(Save(storage, key, history), Some(key)) == history
  {
  }

  /** Writing one bucket leaves every other bucket as it was. */
  lemma SaveLeavesOtherKeys(storage: Storage, key: string, history: seq<string>, other: string)
    requires other != key
    ensures Load(Save(storage, key, history), Some(other)) == Load(storage, Some(other))
  {
  }

  /** After eviction the bucket loads as empty, and the other buckets are untouched. */
  lemma LoadAfterEvict(storage: Storage, key: string, other: string)
    ensures Load(Evict(storage, Some(key)), Some(key)) == []
    ensures other != key ==> Load(Evict(storage, Some(key)), Some(other)) == Load(storage, Some(other))
  {
  }

  function Min(a: nat, b: nat): nat {
    if a <= b then a else b
  }

  /** `[entry, ...history].slice(0, 10)`: the newest entry first, then the older entries, the
      oldest dropped beyond ten. */
  function Record(history: seq<string>, entry: string): (r: seq<string>)
    ensures |r| == Min(|history| + 1, MaxEntries)
    ensures r[0] == entry && r[1..] == history[..|r| - 1]
  {
    var h := [entry] + history;
    var r := h[..Min(|history| + 1, MaxEntries)];
    assert r[1..] == history[..|r| - 1];
    r
  }

  /** Recording the entries `entries` one after the other, first to last. */
  function RecordAll(history: seq<string>, entries: seq<string>): seq<string>
    decreases |entries|
  {
    if entries == [] then history else RecordAll(Record(history, entries[0]), entries[1..])
  }

  function Reverse(s: seq<string>): seq<string> {
    if s == [] then [] else Reverse(s[1..]) + [s[0]]
  }

  /** Any sequence of recordings keeps the ten most recent entries, newest first: older entries
      are evicted from the tail. */
  lemma {:induction false} RecordAllKeepsMostRecent(history: seq<string>, entries: seq<string>)
    requires |history| <= MaxEntries
    decreases |entries|
    ensures var all := Reverse(entries) + history;
      RecordAll(history, entries) == all[..Min(|all|, MaxEntries)]
  {
    ReverseLength(entries);
    if entries != [] {
      var e, rest := entries[0], entries[1..];
      var h1 := Record(history, e);
      RecordAllKeepsMostRecent(h1, rest);
      ReverseLength(rest);
      var a := Reverse(rest);
      var b := [e] + history;
      var m := Min(|b|, MaxEntries);
      assert h1 == b[..m];
      assert Reverse(entries) + history == a + b;
      var k := Min(|a| + m, MaxEntries);
      assert k == Min(|a| + |b|, MaxEntries);
      assert (a + b[..m])[..k] == (a + b)[..k] by {
        assert forall i :: 0 <= i < k ==> (a + b[..m])[i] == (a + b)[i];
      }
    }
  }

  lemma {:induction false} ReverseLength(s: seq<string>)
    ensures |Reverse(s)| == |s|
  {
    if s != [] {
      ReverseLength(s[1..]);
    }
  }

  /** Every bucket the store holds as a list is within the cap. */
  ghost predicate Bounded(storage: Storage) {
    forall key :: key in storage && storage[key].Entries? ==> |storage[key].list| <= MaxEntries
  }

  /** Loading from a store within the cap gives a history within the cap, and saving a recorded
      history keeps the store within the cap. */
  lemma BoundedStore(storage: Storage, key: Option<string>, history: seq<string>, entry: string)
    requires Bounded(storage)
    ensures |Load(storage, key)| <= MaxEntries
    ensures key.Some? ==> Bounded(Save(storage, key.value, Record(history, entry)))
    ensures Bounded(Evict(storage, key))
  {
  }
}
