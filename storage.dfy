/** Persistence of the roll statistics in the browser's local storage, as an
    abstract record rather than JSON text. */
module Storage {
  import opened Maybe

  /** The key the statistics are stored under. */
  const StorageKey := "telegramDiceData"

  /** The two persisted statistics: the roll counter and the recent results. */
  datatype Stats = Stats(totalRolls: int, lastRolls: seq<int>)

  /** The fields of a parsed record. A field is `None` when it is missing;
      `||` reads a missing field and a falsy one (`null`, `0`, `false`, ...)
      alike, so a falsy field may be written either way. The writer stores
      the value as it is, falsy or not. */
  datatype Snapshot = Snapshot(totalRolls: Option<int>, lastRolls: Option<seq<int>>)

  /** What reading the key yields. `Blank`: no item, or the empty string, both
      of which `if (saved)` skips. `Unreadable`: reading, parsing or accessing
      the parsed value threw (a stored `null` parses, then `data.totalRolls` throws).
      `Saved`: a record was parsed. */
  datatype Stored = Blank | Unreadable | Saved(snapshot: Snapshot)

  /** The record `saveToStorage` writes for the statistics `s`: both fields
      are written, and a fresh widget, loading it over the defaults, gets `s`. */
  function Serialize(s: Stats): (r: Stored)
    ensures r.Saved? && r.snapshot.totalRolls.Some? && r.snapshot.lastRolls.Some?
    ensures Restore(r, Stats(0, [])) == s
  {
    Saved(Snapshot(Some(s.totalRolls), Some(s.lastRolls)))
  }

  /** The statistics after `loadFromStorage` reads `stored` while holding
      `current`: nothing changes unless a record was parsed, and then each
      missing or falsy field falls back to `0` or `[]`. */
  function Restore(stored: Stored, current: Stats): (r: Stats)
    ensures !stored.Saved? ==> r == current
    ensures stored.Saved? && stored.snapshot.totalRolls.None? ==> r.totalRolls == 0
    ensures stored.Saved? && stored.snapshot.lastRolls.None? ==> r.lastRolls == []
    ensures stored.Saved? && stored.snapshot.totalRolls.Some? ==> r.totalRolls == stored.snapshot.totalRolls.value
    ensures stored.Saved? && stored.snapshot.lastRolls.Some? ==> r.lastRolls == stored.snapshot.lastRolls.value
  {
    match stored
    case Saved(Snapshot(total, history)) => Stats(total.GetOr(0), history.GetOr([]))
    case _ => current
  }

  /** Loading what was saved restores exactly the saved statistics, whatever
      was held before. */
  lemma RestoreSerialize(s: Stats, current: Stats)
    ensures Restore(Serialize(s), current) == s
  {
  }

  /** Loading a saved record and saving again without rolling writes the same record. */
  lemma ResaveIsIdentical(s: Stats, current: Stats)
    ensures Serialize(Restore(Serialize(s), current)) == Serialize(s)
  {
    RestoreSerialize(s, current);
  }

  /** The browser's local storage: a key/value store whose writes may fail
      (storage disabled or quota exceeded). */
  class LocalStorage {
    var items: map<string, Stored>
    var writable: bool

    constructor (items: map<string, Stored>, writable: bool)
      ensures this.items == items && this.writable == writable
    {
      this.items := items;
      this.writable := writable;
    }

    /** `getItem`: a missing key reads as `Blank`, a present one as what is
        stored under it. */
    function GetItem(key: string): (r: Stored)
      reads this
      ensures key !in items ==> r == Blank
      ensures key in items ==> r == items[key]
    {
      if key in items then items[key] else Blank
    }

    /** `setItem`: stores `value` under `key`, or changes nothing when the
        write fails. */
    method SetItem(key: string, value: Stored) returns (ok: bool)
      modifies this`items
      ensures ok == writable
      ensures items == if ok then old(items)[key := value] else old(items)
      ensures ok ==> GetItem(key) == value
    {
      ok := writable;
      if ok {
        items := items[key := value];
      }
    }
  }
}
