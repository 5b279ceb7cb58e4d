/** The wave cache of the Festival module (src/modules/festival.c): one hash table for each
    kind of message, language and voice, and a list that counts the uses of all entries. */
module FestivalCache {
  import opened CStrings

  // ---- keys of tables

  datatype MessageType = Text | Char | Key | SoundIcon | Spell

  /** The parameters of a message that a wave depends on. */
  datatype Settings = Settings(language: Option<string>, voiceType: int, rate: int, pitch: int)

  /** Which of them the configuration tells apart. */
  datatype Config = Config(distinguishVoices: bool, distinguishRate: bool, distinguishPitch: bool)

  function TypeLetter(msgType: MessageType): Option<char>
  {
    match msgType
    case Char => Some('c')
    case Key => Some('k')
    case SoundIcon => Some('s')
    case _ => None
  }

  /** cache_gen_key. */
  function GenKey(msgType: MessageType, s: Settings, c: Config): Option<string>
  {
    if s.language.None? || TypeLetter(msgType).None? then None
    else
      var voice := if c.distinguishVoices then s.voiceType else 0;
      var rate := if c.distinguishRate then s.rate else 0;
      var pitch := if c.distinguishPitch then s.pitch else 0;
      Some(Joined(Joined(Joined([TypeLetter(msgType).value] + "_" + s.language.value, voice), rate), pitch))
  }

  function Joined(s: string, n: int): string
  {
    s + ("_" + PrintInt(n))
  }

  /** The underscore before the last part is not before that of another reading. */
  lemma LastPart(a: string, x: string, b: string, y: string)
    requires a + ("_" + x) == b + ("_" + y) && '_' !in y
    ensures |a| <= |b|
  {
    var s := b + ("_" + y);
    assert (a + ("_" + x))[|a|] == '_';
    assert forall i | |b| < i < |s| :: s[i] == y[i - |b| - 1] && y[i - |b| - 1] in y;
  }

  /** A number at the end of a key can be told from what stands before it. */
  lemma JoinedInjective(a: string, m: int, b: string, n: int)
    requires Joined(a, m) == Joined(b, n)
    ensures a == b && m == n
  {
    hide PrintInt, Strtol;
    var x, y := PrintInt(m), PrintInt(n);
    PrintIntNonEmpty(m);
    PrintIntNonEmpty(n);
    LastPart(a, x, b, y);
    LastPart(b, y, a, x);
    var s := Joined(a, m);
    assert a == s[..|a|] && b == s[..|b|] && x == s[|a| + 1..] && y == s[|b| + 1..];
    PrintReadRoundTrip(m);
    PrintReadRoundTrip(n);
  }

  /** Two requests share a table exactly if they agree in the kind of message, the
      language and the parameters that the configuration tells apart. */
  lemma SameTableIff(t1: MessageType, s1: Settings, t2: MessageType, s2: Settings, c: Config)
    requires GenKey(t1, s1, c).Some? && GenKey(t2, s2, c).Some?
    ensures GenKey(t1, s1, c) == GenKey(t2, s2, c) <==>
            t1 == t2 && s1.language == s2.language
            && (c.distinguishVoices ==> s1.voiceType == s2.voiceType)
            && (c.distinguishRate ==> s1.rate == s2.rate)
            && (c.distinguishPitch ==> s1.pitch == s2.pitch)
  {
    hide Joined;
    if GenKey(t1, s1, c) == GenKey(t2, s2, c) {
      var v1, v2 := if c.distinguishVoices then s1.voiceType else 0, if c.distinguishVoices then s2.voiceType else 0;
      var r1, r2 := if c.distinguishRate then s1.rate else 0, if c.distinguishRate then s2.rate else 0;
      var p1, p2 := if c.distinguishPitch then s1.pitch else 0, if c.distinguishPitch then s2.pitch else 0;
      var a := [TypeLetter(t1).value] + "_" + s1.language.value;
      var b := [TypeLetter(t2).value] + "_" + s2.language.value;
      JoinedInjective(Joined(Joined(a, v1), r1), p1, Joined(Joined(b, v2), r2), p2);
      JoinedInjective(Joined(a, v1), r1, Joined(b, v2), r2);
      JoinedInjective(a, v1, b, v2);
      assert a[0] == b[0] && a[2..] == s1.language.value && b[2..] == s2.language.value;
    }
  }

  /** There is a table for characters, keys and sound icons of a known language, and for
      nothing else; its key is "%c_%s_%d_%d_%d", with 0 for what is not told apart. */
  lemma HasTableIff(msgType: MessageType, s: Settings, c: Config)
    ensures GenKey(msgType, s, c).Some? <==>
            s.language.Some? && (msgType == Char || msgType == Key || msgType == SoundIcon)
    ensures GenKey(msgType, s, c).Some? ==>
              GenKey(msgType, s, c).value ==
              (if msgType == Char then "c" else if msgType == Key then "k" else "s") + "_" + s.language.value
              + "_" + PrintInt(if c.distinguishVoices then s.voiceType else 0)
              + "_" + PrintInt(if c.distinguishRate then s.rate else 0)
              + "_" + PrintInt(if c.distinguishPitch then s.pitch else 0)
  {
    hide PrintInt;
  }

  // ---- the cache

  /** FT_Wave. */
  datatype Wave = Wave(samples: seq<int>)

  class Table {
    var entries: map<string, CacheEntry>

    constructor ()
      ensures entries == map[]
    {
      entries := map[];
    }
  }

  class CounterEntry {
    const size: nat
    const table: Table
    const key: string
    ghost const tableKey: string
    var count: int

    constructor (size: nat, table: Table, key: string, ghost tableKey: string)
      ensures this.size == size && this.table == table && this.key == key && this.tableKey == tableKey && count == 1
    {
      this.size, this.table, this.key, this.tableKey, count := size, table, key, tableKey, 1;
    }

    ghost function Place(): (string, string)
    {
      (tableKey, key)
    }
  }

  datatype CacheEntry = CacheEntry(counter: CounterEntry, wave: Wave)

  /** The entries of all tables, by table and key. */
  type Contents = map<(string, string), CacheEntry>

  function Sum(cs: seq<CounterEntry>): nat
  {
    if cs == [] then 0 else Sum(cs[..|cs| - 1]) + cs[|cs| - 1].size
  }

  /** What cache_clean leaves of the sorted list: entries go from its end until there is
      room for the new one within the required size, or none is left. */
  function Left(cs: seq<CounterEntry>, newSize: nat, required: nat): (r: seq<CounterEntry>)
    ensures r <= cs
  {
    if cs == [] || Sum(cs) + newSize <= required then cs else Left(cs[..|cs| - 1], newSize, required)
  }

  lemma {:induction false} LeftFits(cs: seq<CounterEntry>, newSize: nat, required: nat)
    ensures Left(cs, newSize, required) == [] || Sum(Left(cs, newSize, required)) + newSize <= required
  {
    if cs == [] || Sum(cs) + newSize <= required {
    } else {
      LeftFits(cs[..|cs| - 1], newSize, required);
    }
  }

  /** No entry leaves without need: one more would not have fitted. */
  lemma {:induction false} LeftIsLongest(cs: seq<CounterEntry>, newSize: nat, required: nat, k: nat)
    requires |Left(cs, newSize, required)| < k <= |cs|
    ensures Sum(cs[..k]) + newSize > required
  {
    if cs == [] || Sum(cs) + newSize <= required {
    } else if k == |cs| {
      assert cs[..k] == cs;
    } else {
      LeftIsLongest(cs[..|cs| - 1], newSize, required, k);
      assert cs[..|cs| - 1][..k] == cs[..k];
    }
  }

  lemma {:induction false} SumOf(cs: seq<CounterEntry>, i: nat)
    requires i < |cs|
    ensures Sum(cs) == cs[i].size + Sum(cs[..i] + cs[i + 1..])
  {
    var rest := cs[..i] + cs[i + 1..];
    if i == |cs| - 1 {
      assert rest == cs[..i];
    } else {
      var short := cs[..|cs| - 1];
      SumOf(short, i);
      assert rest[..|rest| - 1] == short[..i] + short[i + 1..];
    }
  }

  lemma WithoutOne(b: seq<CounterEntry>, i: nat)
    requires i < |b|
    ensures multiset(b[..i] + b[i + 1..]) == multiset(b) - multiset{b[i]}
  {
    assert b == b[..i] + [b[i]] + b[i + 1..];
  }

  lemma IndexOf(b: seq<CounterEntry>, c: CounterEntry) returns (i: nat)
    requires c in b
    ensures i < |b| && b[i] == c
  {
    i :| 0 <= i < |b| && b[i] == c;
  }

  /** Sorting does not change the sum of the sizes. */
  lemma {:induction false} SumSorted(a: seq<CounterEntry>, b: seq<CounterEntry>)
    requires multiset(a) == multiset(b)
    ensures Sum(a) == Sum(b)
    decreases |a|
  {
    hide Sum;
    if a == [] {
      assert forall c | c in b :: c in multiset(b);
      assert b == a;
    } else {
      var n := |a| - 1;
      assert a[n] in multiset(b);
      var i := IndexOf(b, a[n]);
      WithoutOne(b, i);
      WithoutOne(a, n);
      SumOf(a, n);
      SumOf(b, i);
      SumSorted(a[..n] + a[n + 1..], b[..i] + b[i + 1..]);
    }
  }

  ghost predicate Distinct(cs: seq<CounterEntry>)
  {
    forall i, j | 0 <= i < j < |cs| :: cs[i] != cs[j]
  }

  /** The entry is counted for a place in the tables that holds it. */
  ghost predicate Placed(c: CounterEntry, caches: map<string, Table>, contents: Contents)
  {
    c.tableKey in caches && c.table == caches[c.tableKey] && c.Place() in contents && contents[c.Place()].counter == c
  }

  ghost predicate CountedAt(e: CacheEntry, p: (string, string), cs: seq<CounterEntry>)
  {
    e.counter in cs && e.counter.Place() == p && e.counter.size == 2 * |e.wave.samples|
  }

  ghost predicate CountedIn(caches: map<string, Table>, contents: Contents, cs: seq<CounterEntry>)
  {
    Distinct(cs)
    && (forall c | c in cs :: Placed(c, caches, contents))
    && forall p | p in contents :: CountedAt(contents[p], p, cs)
  }

  lemma CountedLessLast(caches: map<string, Table>, contents: Contents, cs: seq<CounterEntry>)
    requires CountedIn(caches, contents, cs) && cs != []
    ensures CountedIn(caches, contents - {cs[|cs| - 1].Place()}, cs[..|cs| - 1])
  {
    var last, rest := cs[|cs| - 1], cs[..|cs| - 1];
    assert last in cs && forall c | c in cs :: c in rest || c == last;
    forall c | c in rest ensures c != last && Placed(c, caches, contents - {last.Place()}) {
      assert c in cs && Placed(c, caches, contents) && Placed(last, caches, contents);
    }
  }

  lemma LeftStep(cs: seq<CounterEntry>, newSize: nat, required: nat)
    ensures Left(cs, newSize, required) ==
            if cs == [] || Sum(cs) + newSize <= required then cs else Left(cs[..|cs| - 1], newSize, required)
  {}

  /** The entries that these counters count. */
  ghost function Restricted(contents: Contents, cs: seq<CounterEntry>): Contents
  {
    map p | p in contents && contents[p].counter in cs :: contents[p]
  }

  lemma CountedSorted(caches: map<string, Table>, contents: Contents, a: seq<CounterEntry>, b: seq<CounterEntry>)
    requires CountedIn(caches, contents, b) && multiset(a) == multiset(b)
    ensures CountedIn(caches, contents, a) && contents == Restricted(contents, a)
  {
    hide Placed;
    SameElements(a, b);
  }

  lemma RestrictedLessLast(caches: map<string, Table>, contents: Contents, cs: seq<CounterEntry>,
                           all: Contents)
    requires CountedIn(caches, contents, cs) && cs != [] && contents == Restricted(all, cs)
    ensures contents - {cs[|cs| - 1].Place()} == Restricted(all, cs[..|cs| - 1])
  {
    var last, rest := cs[|cs| - 1], cs[..|cs| - 1];
    assert last in cs && (forall c | c in cs :: c in rest || c == last) && forall c | c in rest :: c in cs;
    assert Placed(last, caches, contents) && last !in rest;
    assert forall p | p in contents :: CountedAt(contents[p], p, cs);
  }

  lemma EntryCounted(caches: map<string, Table>, contents: Contents, cs: seq<CounterEntry>, p: (string, string))
    requires CountedIn(caches, contents, cs) && p in contents
    ensures CountedAt(contents[p], p, cs)
  {}

  lemma CountedMoreTables(caches: map<string, Table>, contents: Contents, cs: seq<CounterEntry>,
                          t: string, table: Table)
    requires CountedIn(caches, contents, cs) && t !in caches
    ensures CountedIn(caches[t := table], contents, cs)
  {
    assert forall c | c in cs :: Placed(c, caches, contents);
  }

  lemma CountedMore(caches: map<string, Table>, contents: Contents, cs: seq<CounterEntry>,
                    c: CounterEntry, wave: Wave)
    requires CountedIn(caches, contents, cs) && c !in cs && c.Place() !in contents && c.size == 2 * |wave.samples|
    requires c.tableKey in caches && c.table == caches[c.tableKey]
    ensures CountedIn(caches, contents[c.Place() := CacheEntry(c, wave)], cs + [c])
  {
    var contents' := contents[c.Place() := CacheEntry(c, wave)];
    forall d | d in cs + [c] ensures Placed(d, caches, contents') {
      assert d in cs ==> Placed(d, caches, contents);
    }
    forall p | p in contents' ensures CountedAt(contents'[p], p, cs + [c]) {
      assert p in contents ==> CountedAt(contents[p], p, cs);
    }
  }

  lemma SumMore(cs: seq<CounterEntry>, c: CounterEntry)
    ensures Sum(cs + [c]) == Sum(cs) + c.size
  {
    assert (cs + [c])[..|cs|] == cs;
  }

  lemma AllCounted(caches: map<string, Table>, contents: Contents, cs: seq<CounterEntry>)
    requires CountedIn(caches, contents, cs)
    ensures contents == Restricted(contents, cs)
  {
    assert forall p | p in contents :: CountedAt(contents[p], p, cs);
  }

  lemma RestrictedKeys(contents: Contents, cs: seq<CounterEntry>)
    ensures forall p :: p in Restricted(contents, cs) ==> p in contents
  {}

  /** After cleaning, the new entry fits, or it will be the only one. */
  lemma RoomLeft(sorted: seq<CounterEntry>, cs: seq<CounterEntry>, newSize: nat, limit: nat)
    requires multiset(sorted) == multiset(cs) && (Sum(cs) <= limit || |cs| == 1)
    ensures var left := Left(sorted, newSize, 2 * Sum(cs) / 3); left == [] || Sum(left) + newSize <= limit
  {
    var left := Left(sorted, newSize, 2 * Sum(cs) / 3);
    LeftFits(sorted, newSize, 2 * Sum(cs) / 3);
    SumSorted(sorted, cs);
    assert |sorted| == |multiset(sorted)| == |multiset(cs)| == |cs|;
    assert |left| == |sorted| ==> left == sorted;
  }

  lemma LastPlaced(caches: map<string, Table>, contents: Contents, cs: seq<CounterEntry>)
    requires CountedIn(caches, contents, cs) && cs != []
    ensures Placed(cs[|cs| - 1], caches, contents)
  {
    assert cs[|cs| - 1] in cs;
  }

  class Cache {
    var size: nat
    var caches: map<string, Table>
    var cacheCounter: seq<CounterEntry>
    const config: Config
    const on: bool
    const maxKBytes: nat
    ghost var contents: Contents   // what the tables hold

    ghost function Tables(): set<Table>
      reads this`caches
    {
      set t | t in caches :: caches[t]
    }

    /** The tables are different objects and hold the contents. */
    ghost predicate TablesHold()
      reads this`caches, this`contents, Tables()
    {
      (forall t, u | t in caches && u in caches && t != u :: caches[t] != caches[u])
      && (forall p | p in contents ::
            p.0 in caches && p.1 in caches[p.0].entries && caches[p.0].entries[p.1] == contents[p])
      && (forall t, k | t in caches && k in caches[t].entries :: (t, k) in contents)
    }

    /** The list counts each entry of the tables once, and nothing else. */
    ghost predicate Counted()
      reads this`caches, this`contents, this`cacheCounter
    {
      CountedIn(caches, contents, cacheCounter)
    }

    /** The size is the sum of the sizes, and below the limit unless there is just one
        entry. */
    ghost predicate Sized()
      reads this`size, this`cacheCounter
    {
      size == Sum(cacheCounter) && (size <= maxKBytes * 1024 || |cacheCounter| == 1)
    }

    ghost predicate Valid()
      reads this, Tables()
    {
      TablesHold() && Counted() && Sized()
    }

    /** cache_init. */
    constructor (config: Config, on: bool, maxKBytes: nat)
      ensures Valid() && contents == map[] && caches == map[] && cacheCounter == [] && size == 0
      ensures this.config == config && this.on == on && this.maxKBytes == maxKBytes
    {
      size, caches, cacheCounter, contents := 0, map[], [], map[];
      this.config, this.on, this.maxKBytes := config, on, maxKBytes;
    }

    /** cache_clean; sorted is the list as the sort by score leaves it. */
    method CacheClean(newElementSize: nat, sorted: seq<CounterEntry>)
      requires TablesHold() && Counted() && size == Sum(cacheCounter)
      requires multiset(sorted) == multiset(cacheCounter)
      modifies this`size, this`cacheCounter, this`contents, Tables()
      ensures TablesHold() && Counted() && size == Sum(cacheCounter)
      ensures cacheCounter == Left(sorted, newElementSize, 2 * old(size) / 3)
      ensures contents == Restricted(old(contents), cacheCounter)
    {
      hide TablesHold, CountedIn, Left, Sum, Distinct, Restricted;
      var reqSize := 2 * size / 3;
      SumSorted(sorted, cacheCounter);
      CountedSorted(caches, contents, sorted, cacheCounter);
      cacheCounter := sorted;
      while size + newElementSize > reqSize
        invariant TablesHold() && Counted() && size == Sum(cacheCounter) && caches == old(caches)
        invariant Left(cacheCounter, newElementSize, reqSize) == Left(sorted, newElementSize, reqSize)
        invariant contents == Restricted(old(contents), cacheCounter)
        decreases |cacheCounter|
      {
        LeftStep(cacheCounter, newElementSize, reqSize);
        if cacheCounter == [] {
          break;
        }
        RestrictedLessLast(caches, contents, cacheCounter, old(contents));
        RemoveLast();
      }
      LeftStep(cacheCounter, newElementSize, reqSize);
    }

    /** g_hash_table_remove. */
    method TableRemove(table: Table, key: string, ghost tableKey: string)
      requires TablesHold() && tableKey in caches && table == caches[tableKey]
      modifies this`contents, table
      ensures TablesHold() && contents == old(contents) - {(tableKey, key)}
    {
      table.entries := table.entries - {key};
      contents := contents - {(tableKey, key)};
    }

    method RemoveLast()
      requires TablesHold() && Counted() && size == Sum(cacheCounter) && cacheCounter != []
      modifies this`size, this`cacheCounter, this`contents, Tables()
      ensures TablesHold() && Counted() && size == Sum(cacheCounter)
      ensures cacheCounter == old(cacheCounter)[..|old(cacheCounter)| - 1]
      ensures contents == old(contents) - {old(cacheCounter)[|old(cacheCounter)| - 1].Place()}
    {
      hide TablesHold, CountedIn, Distinct;
      var centry := cacheCounter[|cacheCounter| - 1];
      LastPlaced(caches, contents, cacheCounter);
      CountedLessLast(caches, contents, cacheCounter);
      size := size - centry.size;
      TableRemove(centry.table, centry.key, centry.tableKey);
      cacheCounter := cacheCounter[..|cacheCounter| - 1];
    }

    ghost function Counters(): set<CounterEntry>
      reads this`cacheCounter
    {
      set c | c in cacheCounter
    }

    /** The entry that a lookup would find. */
    ghost function Find(key: Option<string>, msgType: MessageType, s: Settings): Option<CacheEntry>
      reads this`contents
    {
      var t := GenKey(msgType, s, config);
      if on && key.Some? && t.Some? && (t.value, key.value) in contents
      then Some(contents[(t.value, key.value)])
      else None
    }

    method CacheLookup(key: Option<string>, msgType: MessageType, s: Settings) returns (wave: Option<Wave>)
      requires Valid()
      modifies Counters()`count
      ensures Valid()
      ensures match Find(key, msgType, s)
              case None => wave == None && forall c | c in cacheCounter :: c.count == old(c.count)
              case Some(e) =>
                wave == Some(e.wave)
                && forall c | c in cacheCounter :: c.count == old(c.count) + if c == e.counter then 1 else 0
    {
      hide CountedIn, Sized, GenKey;
      if !on || key.None? {
        return None;
      }
      var keyTable := GenKey(msgType, s, config);
      if keyTable.None? || keyTable.value !in caches {
        return None;
      }
      var cache := caches[keyTable.value];
      if key.value !in cache.entries {
        return None;
      }
      var entry := cache.entries[key.value];
      assert (keyTable.value, key.value) in contents;
      EntryCounted(caches, contents, cacheCounter, (keyTable.value, key.value));
      entry.counter.count := entry.counter.count + 1;
      return Some(entry.wave);
    }

    /** The table of a key, made if there is none. */
    method TableFor(keyTable: string) returns (cache: Table)
      requires TablesHold() && CountedIn(caches, contents, cacheCounter)
      modifies this`caches
      ensures TablesHold() && CountedIn(caches, contents, cacheCounter)
      ensures keyTable in caches && caches[keyTable] == cache
      ensures forall t | t in caches :: caches[t] in old(Tables()) || fresh(caches[t])
    {
      if keyTable !in caches {
        cache := new Table();
        CountedMoreTables(caches, contents, cacheCounter, keyTable, cache);
        caches := caches[keyTable := cache];
      }
      cache := caches[keyTable];
    }

    /** g_hash_table_insert of a key that the table does not have. */
    method TableInsert(table: Table, key: string, entry: CacheEntry, ghost tableKey: string)
      requires TablesHold() && tableKey in caches && table == caches[tableKey]
      modifies this`contents, table
      ensures TablesHold() && contents == old(contents)[(tableKey, key) := entry]
    {
      table.entries := table.entries[key := entry];
      contents := contents[(tableKey, key) := entry];
    }

    /** cache_insert once there is room. */
    method Add(keyTable: string, key: string, wave: Wave) returns (ghost centry: CounterEntry)
      requires TablesHold() && Counted() && size == Sum(cacheCounter) && (keyTable, key) !in contents
      modifies this`size, this`caches, this`contents, this`cacheCounter, Tables()
      ensures TablesHold() && Counted() && size == Sum(cacheCounter) && size == old(size) + 2 * |wave.samples|
      ensures fresh(centry) && centry.count == 1 && cacheCounter == old(cacheCounter) + [centry]
      ensures contents == old(contents)[(keyTable, key) := CacheEntry(centry, wave)]
      ensures forall t | t in caches :: caches[t] in old(Tables()) || fresh(caches[t])
    {
      hide TablesHold, CountedIn, Sum;
      var cache := TableFor(keyTable);
      var entry := new CounterEntry(2 * |wave.samples|, cache, key, keyTable);
      centry := entry;
      CountedMore(caches, contents, cacheCounter, entry, wave);
      SumMore(cacheCounter, entry);
      cacheCounter := cacheCounter + [entry];
      size := size + entry.size;
      TableInsert(cache, key, CacheEntry(entry, wave), keyTable);
    }

    /** cache_insert; sorted is the list as the sort in cache_clean would leave it.  A
        request for which there is no table must not get here: the C code would look up a
        null key. */
    method CacheInsert(key: Option<string>, msgType: MessageType, wave: Option<Wave>, s: Settings,
                       sorted: seq<CounterEntry>)
      returns (ret: int, ghost kept: seq<CounterEntry>)
      requires Valid() && multiset(sorted) == multiset(cacheCounter)
      requires on && key.Some? && wave.Some? ==> GenKey(msgType, s, config).Some?
      modifies this`size, this`caches, this`contents, this`cacheCounter, Tables(), Counters()`count
      ensures Valid()
      ensures ret == if on && (key.None? || wave.None?) then -1 else 0
      ensures forall c | c in old(cacheCounter) ::
                c.count == old(c.count) + if wave.Some? && old(Find(key, msgType, s)).Some?
                                             && old(Find(key, msgType, s)).value.counter == c then 1 else 0
      ensures if !on || key.None? || wave.None? || old(Find(key, msgType, s)).Some?
              then contents == old(contents) && cacheCounter == old(cacheCounter)
              else
                (kept == if old(size) + 2 * |wave.value.samples| <= maxKBytes * 1024 then old(cacheCounter)
                         else Left(sorted, 2 * |wave.value.samples|, 2 * old(size) / 3))
                && |cacheCounter| == |kept| + 1 && kept == cacheCounter[..|kept|]
                && fresh(cacheCounter[|kept|]) && cacheCounter[|kept|].count == 1
                && contents == Restricted(old(contents), kept)[(GenKey(msgType, s, config).value, key.value) :=
                                                               CacheEntry(cacheCounter[|kept|], wave.value)]
      ensures forall t | t in caches :: caches[t] in old(Tables()) || fresh(caches[t])
    {
      hide TablesHold, CountedIn, Sum, Left, Restricted, GenKey;
      kept := cacheCounter;
      ret := 0;
      if !on {
        return;
      }
      if key.None? || wave.None? {
        ret := -1;
        return;
      }
      var present := CacheLookup(key, msgType, s);
      if present.Some? {
        return;
      }
      var keyTable := GenKey(msgType, s, config).value;
      var newSize := 2 * |wave.value.samples|;
      AllCounted(caches, contents, cacheCounter);
      if size + newSize > maxKBytes * 1024 {
        RoomLeft(sorted, cacheCounter, newSize, maxKBytes * 1024);
        CacheClean(newSize, sorted);
        kept := cacheCounter;
        RestrictedKeys(old(contents), kept);
      }
      ghost var centry := Add(keyTable, key.value, wave.value);
    }
  }

  lemma SameElements(a: seq<CounterEntry>, b: seq<CounterEntry>)
    requires multiset(a) == multiset(b)
    ensures forall c :: c in a <==> c in b
    ensures Distinct(b) ==> Distinct(a)
  {
    assert forall c :: c in a <==> c in multiset(a);
    assert forall c :: c in b <==> c in multiset(b);
    if Distinct(b) {
      forall i, j | 0 <= i < j < |a| ensures a[i] != a[j] {
        OnceEach(b, a[i]);
        assert a == a[..i] + [a[i]] + a[i + 1..j] + [a[j]] + a[j + 1..];
        assert multiset(a)[a[i]] >= 1 && (a[i] == a[j] ==> multiset(a)[a[i]] >= 2);
      }
    }
  }

  lemma {:induction false} OnceEach(b: seq<CounterEntry>, c: CounterEntry)
    requires Distinct(b)
    ensures multiset(b)[c] <= 1
  {
    if b == [] {
    } else {
      OnceEach(b[..|b| - 1], c);
      assert b == b[..|b| - 1] + [b[|b| - 1]];
    }
  }
}
