/**
 The settings table behind its two-second cache.  Keys and values reach the table as C strings, that
 is, up to their first NUL; the cache keeps them whole.
 */
module SettingsCache {
  import opened Options
  import Settings

  const TTL_MS: int := 2000
  const NUL: char := '\0'

  function CStr(s: string): string {
    s[..Settings.IndexOf(s, NUL)]
  }

  predicate NulFree(s: string) {
    NUL !in s
  }

  lemma CStrOfNulFree(s: string)
    ensures NulFree(s) <==> CStr(s) == s
    ensures NulFree(CStr(s))
  {
    var n := Settings.IndexOf(s, NUL);
    if n == |s| { assert s[..n] == s; }
  }

  /** A C string is what comes before the first NUL, or everything when there is none. */
  lemma CStrMeaning(s: string)
    ensures CStr(s) <= s && '\0' !in CStr(s)
    ensures |CStr(s)| < |s| ==> s[|CStr(s)|] == '\0'
    ensures CStr(s) == s <==> '\0' !in s
  {
    CStrOfNulFree(s);
  }

  datatype Db = Db(table: map<string, string>, cache: map<string, string>, cacheTime: int)

  /** What the table holds for a key; a missing row reads as the empty string. */
  function Stored(table: map<string, string>, key: string): string {
    if CStr(key) in table then table[CStr(key)] else ""
  }

  /** Every cached key equals the table. */
  ghost predicate Coherent(d: Db) {
    forall k :: k in d.cache ==> d.cache[k] == Stored(d.table, k)
  }

  predicate Cached(d: Db, key: string, now: int) {
    now - d.cacheTime < TTL_MS && key in d.cache
  }

  function Got(d: Db, key: string, now: int): string {
    if Cached(d, key, now) then d.cache[key] else Stored(d.table, key)
  }

  function AfterGet(d: Db, key: string, now: int): Db {
    if Cached(d, key, now) then d else d.(cache := d.cache[key := Stored(d.table, key)], cacheTime := now)
  }

  function AfterSet(d: Db, key: string, value: string, now: int): Db {
    Db(d.table[CStr(key) := CStr(value)], d.cache[key := value], now)
  }

  class Database {
    const isOpen: bool
    const file: Settings.SettingsFile
    var table: map<string, string>
    var settingsCache: map<string, string>
    var settingsCacheTime: int

    ghost function Abs(): Db
      reads this
    {
      Db(table, settingsCache, settingsCacheTime)
    }

    /** Without a database nothing is ever cached. */
    ghost predicate Valid()
      reads this
    {
      !isOpen ==> settingsCache == map[]
    }

    constructor (isOpen: bool, file: Settings.SettingsFile, table: map<string, string>)
      ensures Valid() && this.isOpen == isOpen && this.file == file && Abs() == Db(table, map[], 0)
    {
      this.isOpen, this.file, this.table := isOpen, file, table;
      settingsCache, settingsCacheTime := map[], 0;
    }

    method GetSetting(key: string, now: int) returns (value: string)
      requires Valid()
      modifies this`settingsCache, this`settingsCacheTime
      ensures Valid()
      ensures isOpen ==> value == Got(old(Abs()), key, now) && Abs() == AfterGet(old(Abs()), key, now)
      ensures !isOpen ==> value == Settings.Read(file.content, key) && Abs() == old(Abs())
    {
      var age := now - settingsCacheTime;
      if age < TTL_MS {
        if key in settingsCache { return settingsCache[key]; }
      }
      if isOpen {
        value := if CStr(key) in table then table[CStr(key)] else "";
        settingsCache := settingsCache[key := value];
        settingsCacheTime := now;
        return;
      }
      value := file.ReadSetting(key);
    }

    method SetSetting(key: string, value: string, now: int)
      requires Valid()
      modifies this, file
      ensures Valid()
      ensures isOpen ==> Abs() == AfterSet(old(Abs()), key, value, now) && file.content == old(file.content)
      ensures !isOpen ==> Abs() == old(Abs())
      ensures !isOpen ==> file.content == Some(Settings.Written(old(file.content), key, value))
    {
      if isOpen {
        table := table[CStr(key) := CStr(value)];
        settingsCache := settingsCache[key := value];
        settingsCacheTime := now;
        return;
      }
      file.WriteSetting(key, value);
    }
  }

  // ------------------------------------------------------------ the cache is invisible

  /** From a coherent state a read is a plain lookup at any cache age, and stays coherent. */
  lemma GetIsLookup(d: Db, key: string, now: int)
    requires Coherent(d)
    ensures Got(d, key, now) == Stored(d.table, key)
    ensures Coherent(AfterGet(d, key, now)) && AfterGet(d, key, now).table == d.table
  {
  }

  /** Exactly when a write keeps the cache equal to the table: the value has no NUL, and no other cached
      key is the same row under another spelling with another value. */
  lemma SetIsCoherentIff(d: Db, key: string, value: string, now: int)
    requires Coherent(d)
    ensures Coherent(AfterSet(d, key, value, now)) <==>
            NulFree(value) && forall k :: k in d.cache && k != key && CStr(k) == CStr(key) ==> d.cache[k] == value
  {
    var e := AfterSet(d, key, value, now);
    CStrOfNulFree(value);
    assert Stored(e.table, key) == CStr(value);
    assert forall k :: k in e.cache && CStr(k) != CStr(key) ==>
                         e.cache[k] == d.cache[k] && Stored(e.table, k) == Stored(d.table, k);
    assert forall k :: k in e.cache && CStr(k) == CStr(key) ==> Stored(e.table, k) == CStr(value);
    assert key in e.cache && e.cache[key] == value;
    if NulFree(value) && forall k :: k in d.cache && k != key && CStr(k) == CStr(key) ==> d.cache[k] == value {
      assert Coherent(e);
    }
    if Coherent(e) {
      forall k | k in d.cache && k != key && CStr(k) == CStr(key) ensures d.cache[k] == value {
        assert k in e.cache && e.cache[k] == d.cache[k];
      }
    }
  }

  /** A value with a NUL is served whole while the cache lasts and cut off afterwards. */
  lemma NulIsCutOff(d: Db, key: string)
    ensures var e := AfterSet(d, key, "on\0off", 0);
            Got(e, key, 1999) == "on\0off" && Got(e, key, 2000) == "on"
  {
    var v := "on\0off";
    assert v == "on" + [NUL] + "off";
    Settings.IndexAt("on", NUL, "off");
    assert CStr(v) == "on";
  }

  // ------------------------------------------------------------ runs

  datatype Input = Get(key: string, now: int) | Set(key: string, value: string, now: int)

  predicate Plain(i: Input) {
    NulFree(i.key) && (i.Set? ==> NulFree(i.value))
  }

  function Step(d: Db, i: Input): Db {
    match i
    case Get(key, now) => AfterGet(d, key, now)
    case Set(key, value, now) => AfterSet(d, key, value, now)
  }

  function Run(d: Db, inputs: seq<Input>): Db {
    if inputs == [] then d else Step(Run(d, inputs[..|inputs| - 1]), inputs[|inputs| - 1])
  }

  /** The value last written to a key, or what the table held at first. */
  function LastSet(table: map<string, string>, inputs: seq<Input>, key: string): string {
    if inputs == [] then Stored(table, key)
    else
      var last := inputs[|inputs| - 1];
      if last.Set? && last.key == key then last.value else LastSet(table, inputs[..|inputs| - 1], key)
  }

  ghost predicate PlainCache(d: Db) {
    forall k :: k in d.cache ==> NulFree(k)
  }

  lemma StepStaysCoherent(d: Db, i: Input)
    requires Coherent(d) && PlainCache(d) && Plain(i)
    ensures Coherent(Step(d, i)) && PlainCache(Step(d, i))
  {
    if i.Set? {
      forall k | k in d.cache && CStr(k) == CStr(i.key) ensures k == i.key {
        CStrOfNulFree(k);
        CStrOfNulFree(i.key);
      }
      SetIsCoherentIff(d, i.key, i.value, i.now);
    }
  }

  /** Over any run of reads and writes of NUL-free settings, at whatever times, a read returns the value
      last written: the cache cannot be observed. */
  lemma {:induction false} ReadsReturnLastWrite(table: map<string, string>, inputs: seq<Input>, key: string, now: int)
    requires forall i :: 0 <= i < |inputs| ==> Plain(inputs[i])
    requires NulFree(key)
    ensures var d := Run(Db(table, map[], 0), inputs);
            && Coherent(d) && PlainCache(d)
            && Stored(d.table, key) == LastSet(table, inputs, key)
            && Got(d, key, now) == LastSet(table, inputs, key)
  {
    var start := Db(table, map[], 0);
    if inputs != [] {
      var before, last := inputs[..|inputs| - 1], inputs[|inputs| - 1];
      ReadsReturnLastWrite(table, before, key, now);
      StepStaysCoherent(Run(start, before), last);
      CStrOfNulFree(key);
      CStrOfNulFree(last.key);
      if last.Set? { CStrOfNulFree(last.value); }
    }
    GetIsLookup(Run(start, inputs), key, now);
  }
}
