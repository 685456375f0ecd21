/**
 * `localStore` (src/lib/storage.ts): a single-key cache kept in a
 * string-keyed medium (the browser's localStorage) together with an
 * in-memory current value. A record carries a value and an optional
 * absolute expiry in milliseconds; a positive TTL makes every write stamp
 * one. Time is a parameter `now`; "running in a browser" is a flag.
 */
module Storage {
  import opened Wrappers

  /** A decoded record: the value `v` and the expiry `e` (None for null or absent). */
  datatype Stored<T> = Stored(v: T, e: Option<int>)

  /**
   * What the medium holds under a key: the encoding of a record, or a
   * string that does not decode to a record object (including the empty
   * string).
   */
  datatype Raw<T> = Packed(record: Stored<T>) | Unparseable

  /** pack (src/lib/storage.ts:20-23): an absent expiry is written as null. */
  function Pack<T>(v: T, expiry: Option<int>): Raw<T> {
    Packed(Stored(v, expiry))
  }

  /** unpack (src/lib/storage.ts:25-33): the record, or None for a missing or undecodable item. */
  function Unpack<T>(item: Option<Raw<T>>): (r: Option<Stored<T>>)
    ensures r.None? <==> item.None? || item.value.Unparseable?
  {
    match item
    case Some(Packed(s)) => Some(s)
    case _ => None
  }

  /** Decoding an encoded record gives back its value and expiry. */
  lemma UnpackPack<T>(v: T, expiry: Option<int>)
    ensures Unpack(Some(Pack(v, expiry))) == Some(Stored(v, expiry))
  {
  }

  /**
   * The expiry rule (src/lib/storage.ts:42, 63, 119): a record is expired
   * when it has an expiry other than 0 and the clock is past it.
   */
  predicate Expired<T>(s: Stored<T>, now: int) {
    s.e.Some? && s.e.value != 0 && now > s.e.value
  }

  /** An expiry of 0 never expires, however late the clock. */
  lemma ZeroNeverExpires<T>(v: T, now: int)
    ensures !Expired(Stored(v, Some(0)), now)
  {
  }

  /** The item under `key`, if any. */
  function ItemAt<T>(items: map<string, Raw<T>>, key: string): Option<Raw<T>> {
    if key in items then Some(items[key]) else None
  }

  /** What `load` returns: a value and whether an expired record was found. */
  datatype Loaded<T> = Loaded(value: T, expired: bool)

  /**
   * load (src/lib/storage.ts:38-50): outside a browser, or with no
   * decodable record, the initial value; an expired record gives the
   * initial value flagged expired; otherwise the stored value.
   */
  function LoadResult<T>(browser: bool, item: Option<Raw<T>>, initial: T, now: int): (r: Loaded<T>)
    ensures r.expired <==> browser && Unpack(item).Some? && Expired(Unpack(item).value, now)
    ensures !r.expired && browser && Unpack(item).Some? ==> r.value == Unpack(item).value.v
    ensures r.expired || !browser || Unpack(item).None? ==> r.value == initial
  {
    if !browser then Loaded(initial, false)
    else match Unpack(item)
      case None => Loaded(initial, false)
      case Some(s) => if Expired(s, now) then Loaded(initial, true) else Loaded(s.v, false)
  }

  /** The medium after `load`: an expired record's key is removed, nothing else changes. */
  function ItemsAfterLoad<T>(items: map<string, Raw<T>>, browser: bool, key: string, now: int): map<string, Raw<T>> {
    var item := ItemAt(items, key);
    if browser && Unpack(item).Some? && Expired(Unpack(item).value, now) then items - {key} else items
  }

  /** get (src/lib/storage.ts:103-106): null exactly when `load` met an expired record. */
  function GetResult<T>(loaded: Loaded<T>): (r: Option<T>)
    ensures r.None? <==> loaded.expired
    ensures r.Some? ==> r.value == loaded.value
  {
    if loaded.expired then None else Some(loaded.value)
  }

  /**
   * `get` answers null only for an expired record: with no record, or
   * outside a browser, it answers the initial value rather than null.
   */
  lemma GetNullOnlyWhenExpired<T>(browser: bool, item: Option<Raw<T>>, initial: T, now: int)
    ensures GetResult(LoadResult(browser, item, initial, now)).None?
            <==> browser && Unpack(item).Some? && Expired(Unpack(item).value, now)
    ensures !browser || Unpack(item).None? ==> GetResult(LoadResult(browser, item, initial, now)) == Some(initial)
    ensures browser && Unpack(item).Some? && !Expired(Unpack(item).value, now)
            ==> GetResult(LoadResult(browser, item, initial, now)) == Some(Unpack(item).value.v)
  {
  }

  /** hasTTL (src/lib/storage.ts:36): a TTL is in force only when given and positive. */
  predicate HasTtl(ttlMs: Option<int>) {
    ttlMs.Some? && ttlMs.value > 0
  }

  /**
   * The expiry `write` stamps (src/lib/storage.ts:77-85): none without a
   * TTL; `now + ttl` normally; with `preserveExpiry`, the existing record's
   * expiry when it has one (0 and past expiries included), else `now + ttl`.
   */
  function ExpiryToWrite<T>(ttlMs: Option<int>, preserve: bool, existing: Option<Stored<T>>, now: int): (r: Option<int>)
    ensures !HasTtl(ttlMs) ==> r.None?
    ensures HasTtl(ttlMs) ==> r.Some?
  {
    if !HasTtl(ttlMs) then None
    else if preserve && existing.Some? && existing.value.e.Some? then existing.value.e
    else Some(now + ttlMs.value)
  }

  /**
   * A record written without `preserveExpiry` under a TTL expires exactly
   * once the clock passes `now + ttl` (for a non-negative clock).
   */
  lemma FreshExpiryLasts<T>(v: T, ttlMs: Option<int>, existing: Option<Stored<T>>, now: int, later: int)
    requires HasTtl(ttlMs) && now >= 0
    ensures Expired(Stored(v, ExpiryToWrite(ttlMs, false, existing, now)), later) <==> later > now + ttlMs.value
  {
  }

  /** Without a TTL a written record never expires. */
  lemma NoTtlNeverExpires<T>(v: T, ttlMs: Option<int>, preserve: bool, existing: Option<Stored<T>>, now: int, later: int)
    requires !HasTtl(ttlMs)
    ensures !Expired(Stored(v, ExpiryToWrite(ttlMs, preserve, existing, now)), later)
  {
  }

  /**
   * `preserveExpiry` never extends a record: one already expired is
   * rewritten expired, and one that never expires stays so.
   */
  lemma PreserveKeepsExpiry<T>(v: T, ttlMs: Option<int>, existing: Stored<T>, now: int, later: int)
    requires HasTtl(ttlMs) && existing.e.Some?
    ensures ExpiryToWrite(ttlMs, true, Some(existing), now) == existing.e
    ensures Expired(Stored(v, ExpiryToWrite(ttlMs, true, Some(existing), now)), later) <==> Expired(existing, later)
  {
  }

  /**
   * The medium after `write` (src/lib/storage.ts:73-90): outside a browser,
   * or when the medium refuses the write, nothing changes; otherwise the
   * key holds the value with the expiry of `ExpiryToWrite`.
   */
  function ItemsAfterWrite<T>(items: map<string, Raw<T>>, accepting: bool, browser: bool, key: string,
                              ttlMs: Option<int>, preserve: bool, value: T, now: int): (r: map<string, Raw<T>>)
    ensures forall k :: k in items && k != key ==> k in r && r[k] == items[k]
    ensures forall k :: k in r && k != key ==> k in items
  {
    if !browser || !accepting then items
    else items[key := Pack(value, ExpiryToWrite(ttlMs, preserve, Unpack(ItemAt(items, key)), now))]
  }

  /** A write that lands is read back at once, unless it preserved an expiry already past. */
  lemma WriteThenLoad<T>(items: map<string, Raw<T>>, key: string, ttlMs: Option<int>, preserve: bool,
                         value: T, initial: T, now: int)
    requires !(preserve && HasTtl(ttlMs) && Unpack(ItemAt(items, key)).Some?
               && Expired(Unpack(ItemAt(items, key)).value, now))
    ensures LoadResult(true, ItemAt(ItemsAfterWrite(items, true, true, key, ttlMs, preserve, value, now), key), initial, now)
            == Loaded(value, false)
  {
  }

  /**
   * Construction (src/lib/storage.ts:52, 123-131): `load` runs first (and
   * may remove an expired record); then, in a browser, a missing or
   * undecodable record is replaced by the start value stamped with
   * `now + ttl` or no expiry.
   */
  function ItemsAfterConstruction<T>(items: map<string, Raw<T>>, accepting: bool, browser: bool, key: string,
                                     ttlMs: Option<int>, initial: T, now: int): map<string, Raw<T>>
  {
    var loaded := LoadResult(browser, ItemAt(items, key), initial, now);
    var afterLoad := ItemsAfterLoad(items, browser, key, now);
    if browser && accepting && Unpack(ItemAt(afterLoad, key)).None? then
      afterLoad[key := Pack(loaded.value, if HasTtl(ttlMs) then Some(now + ttlMs.value) else None)]
    else afterLoad
  }

  /**
   * Seeding: a live record is left as it is; a missing, undecodable or
   * expired one is replaced (when the medium accepts) by the initial value
   * with a fresh expiry; other keys are untouched.
   */
  lemma ConstructionSeeds<T>(items: map<string, Raw<T>>, accepting: bool, key: string, ttlMs: Option<int>,
                             initial: T, now: int)
    ensures var item := ItemAt(items, key);
            var r := ItemsAfterConstruction(items, accepting, true, key, ttlMs, initial, now);
            && (Unpack(item).Some? && !Expired(Unpack(item).value, now) ==> r == items)
            && (accepting && (Unpack(item).None? || Expired(Unpack(item).value, now))
                ==> r == items[key := Pack(initial, if HasTtl(ttlMs) then Some(now + ttlMs.value) else None)])
            && (forall k :: k != key && k in items ==> k in r && r[k] == items[k])
  {
    var r := ItemsAfterConstruction(items, accepting, true, key, ttlMs, initial, now);
    var afterLoad := ItemsAfterLoad(items, true, key, now);
    if Unpack(ItemAt(items, key)).Some? && Expired(Unpack(ItemAt(items, key)).value, now) {
      assert ItemAt(afterLoad, key).None?;
      if accepting {
        assert afterLoad[key := Pack(initial, if HasTtl(ttlMs) then Some(now + ttlMs.value) else None)]
            == items[key := Pack(initial, if HasTtl(ttlMs) then Some(now + ttlMs.value) else None)];
      }
    }
  }

  /** Outside a browser construction leaves the medium alone. */
  lemma ConstructionOutsideBrowser<T>(items: map<string, Raw<T>>, accepting: bool, key: string,
                                      ttlMs: Option<int>, initial: T, now: int)
    ensures ItemsAfterConstruction(items, accepting, false, key, ttlMs, initial, now) == items
  {
  }

  /**
   * The string store the records live in. `accepting` is false when it
   * refuses writes (a full quota, say); the store swallows that failure.
   */
  class Medium<T> {
    var items: map<string, Raw<T>>
    var accepting: bool

    constructor(items: map<string, Raw<T>>, accepting: bool)
      ensures this.items == items && this.accepting == accepting
    {
      this.items := items;
      this.accepting := accepting;
    }

    /** setItem: stores `raw` under `key`, or does nothing when writes are refused. */
    method SetItem(key: string, raw: Raw<T>)
      modifies this
      ensures items == if old(accepting) then old(items)[key := raw] else old(items)
      ensures accepting == old(accepting)
    {
      if accepting {
        items := items[key := raw];
      }
    }

    /** removeItem: drops `key`. */
    method RemoveItem(key: string)
      modifies this
      ensures items == old(items) - {key}
      ensures accepting == old(accepting)
    {
      items := items - {key};
    }
  }

  /** load, as the closure over `key` and `initial` does it, removing an expired record. */
  method LoadFrom<T>(medium: Medium<T>, browser: bool, key: string, initial: T, now: int) returns (r: Loaded<T>)
    modifies medium
    ensures r == LoadResult(browser, ItemAt(old(medium.items), key), initial, now)
    ensures medium.items == ItemsAfterLoad(old(medium.items), browser, key, now)
    ensures medium.accepting == old(medium.accepting)
  {
    if !browser {
      return Loaded(initial, false);
    }
    var stored := Unpack(ItemAt(medium.items, key));
    if stored.None? {
      return Loaded(initial, false);
    }
    var expired := Expired(stored.value, now);
    if expired {
      medium.RemoveItem(key);
      return Loaded(initial, true);
    }
    return Loaded(stored.value.v, false);
  }

  /** localStore (src/lib/storage.ts:35-134). */
  class LocalStore<T> {
    const key: string
    const initial: T
    const ttlMs: Option<int>
    const browser: bool
    const medium: Medium<T>
    /** The in-memory value subscribers see (`inner`). */
    var current: T

    /** What `load` would report now, without its side effect. */
    function Peek(now: int): Loaded<T>
      reads medium
    {
      LoadResult(browser, ItemAt(medium.items, key), initial, now)
    }

    constructor(key: string, initial: T, ttlMs: Option<int>, browser: bool, medium: Medium<T>, now: int)
      modifies medium
      ensures this.key == key && this.initial == initial && this.ttlMs == ttlMs
      ensures this.browser == browser && this.medium == medium
      ensures current == LoadResult(browser, ItemAt(old(medium.items), key), initial, now).value
      ensures medium.items
              == ItemsAfterConstruction(old(medium.items), old(medium.accepting), browser, key, ttlMs, initial, now)
      ensures medium.accepting == old(medium.accepting)
    {
      this.key := key;
      this.initial := initial;
      this.ttlMs := ttlMs;
      this.browser := browser;
      this.medium := medium;
      var start := LoadFrom(medium, browser, key, initial, now);
      this.current := start.value;
      new;
      if browser {
        var existing := Unpack(ItemAt(medium.items, key));
        if existing.None? {
          var expiry := if HasTtl(ttlMs) then Some(now + ttlMs.value) else None;
          medium.SetItem(key, Pack(start.value, expiry));
        }
      }
    }

    /** load (src/lib/storage.ts:38-50). */
    method Load(now: int) returns (r: Loaded<T>)
      modifies medium
      ensures r == old(Peek(now))
      ensures medium.items == ItemsAfterLoad(old(medium.items), browser, key, now)
      ensures medium.accepting == old(medium.accepting)
    {
      r := LoadFrom(medium, browser, key, initial, now);
    }

    /** write (src/lib/storage.ts:73-90): the in-memory value first, then the medium. */
    method Write(value: T, preserve: bool, now: int)
      modifies this, medium
      ensures current == value
      ensures medium.items
              == ItemsAfterWrite(old(medium.items), old(medium.accepting), browser, key, ttlMs, preserve, value, now)
      ensures medium.accepting == old(medium.accepting)
    {
      current := value;
      if !browser {
        return;
      }
      var expiry: Option<int> := None;
      if HasTtl(ttlMs) {
        if preserve {
          var existing := Unpack(ItemAt(medium.items, key));
          expiry := if existing.Some? && existing.value.e.Some? then existing.value.e else Some(now + ttlMs.value);
        } else {
          expiry := Some(now + ttlMs.value);
        }
      }
      medium.SetItem(key, Pack(value, expiry));
    }

    /** set (src/lib/storage.ts:94-96). */
    method Set(value: T, preserve: bool, now: int)
      modifies this, medium
      ensures current == value
      ensures medium.items
              == ItemsAfterWrite(old(medium.items), old(medium.accepting), browser, key, ttlMs, preserve, value, now)
      ensures medium.accepting == old(medium.accepting)
    {
      Write(value, preserve, now);
    }

    /** update (src/lib/storage.ts:97-102): set applied to the updater's image of the in-memory value. */
    method Update(updater: T -> T, preserve: bool, now: int)
      modifies this, medium
      ensures current == updater(old(current))
      ensures medium.items
              == ItemsAfterWrite(old(medium.items), old(medium.accepting), browser, key, ttlMs, preserve,
                                 updater(old(current)), now)
      ensures medium.accepting == old(medium.accepting)
    {
      var value := current;
      Write(updater(value), preserve, now);
    }

    /** get (src/lib/storage.ts:103-106). */
    method Get(now: int) returns (r: Option<T>)
      modifies medium
      ensures r == GetResult(old(Peek(now)))
      ensures medium.items == ItemsAfterLoad(old(medium.items), browser, key, now)
      ensures medium.accepting == old(medium.accepting)
    {
      var loaded := Load(now);
      r := if loaded.expired then None else Some(loaded.value);
    }

    /**
     * delete (src/lib/storage.ts:107-114): the key leaves the medium (in a
     * browser), the in-memory value returns to `initial`, and a later `get`
     * answers `initial`.
     */
    method Delete(now: int)
      modifies this, medium
      ensures current == initial
      ensures medium.items == if browser then old(medium.items) - {key} else old(medium.items)
      ensures medium.accepting == old(medium.accepting)
      ensures browser ==> GetResult(Peek(now)) == Some(initial)
    {
      if browser {
        medium.RemoveItem(key);
      }
      current := initial;
    }

    /**
     * isExpired (src/lib/storage.ts:116-120): false outside a browser,
     * else whether the stored record is expired. It does not consult the
     * TTL setting, and agrees with what `load` would find.
     */
    function IsExpired(now: int): (r: bool)
      reads medium
      ensures r == Peek(now).expired
    {
      if !browser then false
      else
        var s := Unpack(ItemAt(medium.items, key));
        s.Some? && Expired(s.value, now)
    }
  }
}
