/** What the wave cache of the Ivona module promises its callers. */
module IvonaCacheProperties {
  import opened CStrings
  import opened IvonaCache

  /** The number of entries before the first without samples: those a walk along the
      chain sees. */
  function Visible(es: seq<Entry>, from: nat): (v: nat)
    requires from <= |es|
    ensures from <= v <= |es|
    decreases |es| - from
  {
    if from == |es| || es[from].samples == 0 then from else Visible(es, from + 1)
  }

  // ---- eviction

  /** The entry to be replaced is one with the smallest count, the least recently used
      among several; there is none only if no count is below the largest int. */
  lemma {:induction false} LeastCount(es: seq<Entry>, from: nat, cnt: int, found: Option<nat>)
    requires from <= |es| && (found.Some? ==> found.value < from && es[found.value].count == cnt)
    ensures match FindMin(es, from, cnt, found)
            case None => found.None? && forall j | from <= j < Visible(es, from) :: es[j].count >= cnt
            case Some(i) =>
              (found == Some(i) || from <= i < Visible(es, from))
              && es[i].count <= cnt && (found != Some(i) ==> es[i].count < cnt)
              && (forall j | from <= j < Visible(es, from) :: es[i].count <= es[j].count)
              && forall j | from <= j < i :: es[i].count < es[j].count
    decreases |es| - from
  {
    if from == |es| || es[from].samples == 0 {
    } else {
      if es[from].count < cnt {
        LeastCount(es, from + 1, es[from].count, Some(from));
      } else {
        LeastCount(es, from + 1, cnt, found);
      }
    }
  }

  lemma {:induction false} DecayAt(es: seq<Entry>, from: nat, j: nat)
    requires from <= |es| && j < |es|
    ensures Decay(es, from)[j] == if from <= j < Visible(es, from) then Decayed(es[j]) else es[j]
    decreases |es| - from
  {
    if from == |es| || es[from].samples == 0 {
    } else {
      var es' := es[from := Decayed(es[from])];
      SameVisible(es, es', from + 1);
      DecayAt(es', from + 1, j);
    }
  }

  lemma {:induction false} SameVisible(a: seq<Entry>, b: seq<Entry>, from: nat)
    requires |a| == |b| && from <= |a| && forall j | from <= j < |a| :: a[j].samples == b[j].samples
    ensures Visible(a, from) == Visible(b, from)
    decreases |a| - from
  {
    if from == |a| || a[from].samples == 0 {
    } else {
      SameVisible(a, b, from + 1);
    }
  }

  ghost predicate CountsPositive(es: seq<Entry>)
  {
    forall i | 0 <= i < |es| :: es[i].count >= 1
  }

  /** Of the entries that a walk sees, the one at i has the smallest count, and is the
      least recently used of several. */
  ghost predicate LeastUsed(es: seq<Entry>, i: nat)
  {
    i < Visible(es, 0)
    && (forall j | 0 <= j < Visible(es, 0) :: es[i].count <= es[j].count)
    && forall j | 0 <= j < i :: es[i].count < es[j].count
  }

  function Max(a: int, b: int): int { if a > b then a else b }

  /** The same entry; if a walk sees it, it has lost one from its count, which stays at
      least 1. */
  predicate Aged(was: Entry, now: Entry, seen: bool)
  {
    now == was.(count := if seen then Max(1, was.count - 1) else was.count)
  }

  /** The entry at i gave way to e; the others kept their order, and those that a walk
      sees have aged. */
  ghost predicate GaveWay(es: seq<Entry>, i: nat, e: Entry, after: seq<Entry>)
  {
    i < |es| == |after| && after[|es| - 1] == e
    && forall j | 0 <= j < |es| - 1 ::
         var k := if j < i then j else j + 1;
         Aged(es[k], after[j], k < Visible(es, 0))
  }

  /** A store into a full cache replaces an entry of the smallest count, the least
      recently used of these.  The others keep their order and contents; of those before
      the first one without samples each loses one from its count, unless that is 1. */
  lemma EvictsLeastUsed(es: seq<Entry>, key: string, wave: string, samples: nat)
    requires |es| == IVONA_CACHE_SIZE && |key| <= IVONA_CACHE_MAX_STRLEN && CountsPositive(es)
    requires exists j :: 0 <= j < Visible(es, 0) && es[j].count < INT_MAX
    ensures exists i :: LeastUsed(es, i) && GaveWay(es, i, Entry(key, samples, wave, 1), Stored(es, key, wave, samples))
  {
    hide FindMin, Decay, Visible, Moved;
    LeastCount(es, 0, INT_MAX, None);
    var i := FindMin(es, 0, INT_MAX, None).value;
    assert LeastUsed(es, i);
    DecayAges(es);
    MovedGaveWay(es, Decay(es, 0), i, Entry(key, samples, wave, 1));
  }

  lemma DecayAges(es: seq<Entry>)
    requires CountsPositive(es)
    ensures forall j | 0 <= j < |es| :: Aged(es[j], Decay(es, 0)[j], j < Visible(es, 0))
  {
    hide Decay, Visible;
    forall j | 0 <= j < |es| ensures Aged(es[j], Decay(es, 0)[j], j < Visible(es, 0)) {
      DecayAt(es, 0, j);
    }
  }

  lemma MovedGaveWay(es: seq<Entry>, decayed: seq<Entry>, i: nat, e: Entry)
    requires i < |es| == |decayed| && forall j | 0 <= j < |es| :: Aged(es[j], decayed[j], j < Visible(es, 0))
    ensures GaveWay(es, i, e, Touched(decayed, i, e))
  {
    hide Aged, Visible, Touched;
    var after := Touched(decayed, i, e);
    TouchedIs(decayed, i, e);
    forall j | 0 <= j < |es| - 1
      ensures var k := if j < i then j else j + 1; Aged(es[k], after[j], k < Visible(es, 0))
    {
      var k := if j < i then j else j + 1;
      assert Aged(es[k], decayed[k], k < Visible(es, 0));
    }
  }

  lemma TouchedIs(es: seq<Entry>, i: nat, e: Entry)
    requires i < |es|
    ensures var after := Touched(es, i, e);
            |after| == |es| && after[|es| - 1] == e
            && forall j | 0 <= j < |es| - 1 :: after[j] == es[if j < i then j else j + 1]
  {}

  /** A text of more than eleven bytes is neither looked up nor stored. */
  lemma LongTexts(es: seq<Entry>, key: string, wave: string, samples: nat)
    requires |key| > 11
    ensures Got(es, key) == (None, es) && Stored(es, key, wave, samples) == es
  {}

  /** Looking up and storing keep all counts positive and at most 256 entries. */
  lemma OperationsKeepBounds(es: seq<Entry>, key: string, wave: string, samples: nat)
    requires CountsPositive(es) && |es| <= IVONA_CACHE_SIZE
    ensures CountsPositive(Got(es, key).1) && |Got(es, key).1| == |es|
    ensures CountsPositive(Stored(es, key, wave, samples))
            && |es| <= |Stored(es, key, wave, samples)| <= IVONA_CACHE_SIZE
  {
    hide FindKey, FindMin, Decay, Visible;
    DecayAges(es);
  }

  // ---- what is found

  /** A key is found exactly if an entry that a walk sees has it; of several, the least
      recently used one is found. */
  lemma {:induction false} FoundIff(es: seq<Entry>, key: string, from: nat)
    requires from <= |es|
    ensures match FindKey(es, key, from)
            case None => forall j | from <= j < Visible(es, from) :: es[j].str != key
            case Some(i) => from <= i < Visible(es, from) && es[i].str == key
                            && forall j | from <= j < i :: es[j].str != key
    decreases |es| - from
  {
    if from == |es| || es[from].samples == 0 || es[from].str == key {
    } else {
      FoundIff(es, key, from + 1);
    }
  }

  /** So one wave stored without samples hides every wave stored after it. */
  lemma EmptyWaveHides(es: seq<Entry>, empty: string, key: string, wave: string, samples: nat)
    requires |empty| <= IVONA_CACHE_MAX_STRLEN && |key| <= IVONA_CACHE_MAX_STRLEN && |es| + 2 <= IVONA_CACHE_SIZE
    requires forall i | 0 <= i < |es| :: es[i].str != key
    ensures var after := Stored(Stored(es, empty, "", 0), key, wave, samples);
            (exists i :: 0 <= i < |after| && after[i] == Entry(key, samples, wave, 1)) && Got(after, key).0.None?
  {
    hide FindKey, FindMin, Decay;
    var after := Stored(Stored(es, empty, "", 0), key, wave, samples);
    assert after[|es|].samples == 0 && after[|es| + 1] == Entry(key, samples, wave, 1);
    FoundIff(after, key, 0);
    SeesNoFurther(after, 0, |es|);
  }

  lemma {:induction false} SeesNoFurther(es: seq<Entry>, from: nat, i: nat)
    requires from <= i < |es| && es[i].samples == 0
    ensures Visible(es, from) <= i
    decreases i - from
  {
    if from == i {
    } else {
      SeesNoFurther(es, from + 1, i);
    }
  }

  /** An entry that is looked up is counted once more and becomes the most recently used;
      the others keep their order. */
  lemma HitIsMostRecent(es: seq<Entry>, key: string)
    ensures var (found, after) := Got(es, key);
            if found.None? then after == es
            else |after| == |es| && after[|es| - 1] == found.value.(count := found.value.count + 1)
                 && exists i | 0 <= i < |es| ::
                      es[i] == found.value && forall j | 0 <= j < |es| - 1 :: after[j] == es[if j < i then j else j + 1]
  {}

  /** A cache into which only waves with samples were stored, each after a miss; last maps
      each key to the wave last stored for it. */
  ghost predicate Refines(es: seq<Entry>, last: map<string, string>)
  {
    |es| <= IVONA_CACHE_SIZE
    && (forall i | 0 <= i < |es| :: es[i].samples > 0 && es[i].str in last && es[i].wave == last[es[i].str])
    && (forall i | 0 <= i < |es| :: |es[i].wave| == 2 * es[i].samples && |es[i].str| <= IVONA_CACHE_MAX_STRLEN)
    && forall i, j | 0 <= i < j < |es| :: es[i].str != es[j].str
  }

  ghost predicate Cached(es: seq<Entry>, key: string)
  {
    exists i :: 0 <= i < |es| && es[i].str == key
  }

  lemma {:induction false} AllVisible(es: seq<Entry>, from: nat)
    requires from <= |es| && forall i | from <= i < |es| :: es[i].samples > 0
    ensures Visible(es, from) == |es|
    decreases |es| - from
  {
    if from == |es| {
    } else {
      AllVisible(es, from + 1);
    }
  }

  /** A lookup finds the wave last stored for the key, exactly if it is still cached. */
  lemma LookupRefines(es: seq<Entry>, last: map<string, string>, key: string)
    requires Refines(es, last)
    ensures var (found, after) := Got(es, key);
            Refines(after, last) && (found.Some? <==> Cached(es, key))
            && (found.Some? ==> found.value.str == key && found.value.wave == last[key])
            && forall k :: Cached(after, k) <==> Cached(es, k)
  {
    hide FindKey, Visible, Moved;
    AllVisible(es, 0);
    FoundIff(es, key, 0);
    var r := FindKey(es, key, 0);
    if |key| <= IVONA_CACHE_MAX_STRLEN && r.Some? {
      MovedRefines(es[r.value := es[r.value].(count := es[r.value].count + 1)], last, r.value);
      RecountSame(es, last, r.value);
    }
  }

  lemma RecountSame(es: seq<Entry>, last: map<string, string>, i: nat)
    requires Refines(es, last) && i < |es|
    ensures var es' := es[i := es[i].(count := es[i].count + 1)];
            Refines(es', last) && forall k :: Cached(es', k) <==> Cached(es, k)
  {
    var es' := es[i := es[i].(count := es[i].count + 1)];
    assert forall j | 0 <= j < |es| :: es'[j].str == es[j].str;
  }

  lemma MovedRefines(es: seq<Entry>, last: map<string, string>, i: nat)
    requires i < |es|
    ensures Refines(es, last) ==> Refines(Moved(es, i), last)
    ensures forall k :: Cached(Moved(es, i), k) <==> Cached(es, k)
  {
    var m := Moved(es, i);
    assert forall j | 0 <= j < |es| :: m[j] == es[if j < i then j else if j < |es| - 1 then j + 1 else i];
    forall k | Cached(es, k) ensures Cached(m, k) {
      var j :| 0 <= j < |es| && es[j].str == k;
      assert m[if j < i then j else if j == i then |es| - 1 else j - 1].str == k;
    }
  }

  /** A store after a miss: the key now has this wave, and no key gets another one. */
  lemma StoreRefines(es: seq<Entry>, last: map<string, string>, key: string, wave: string, samples: nat)
    requires Refines(es, last) && !Cached(es, key) && samples > 0 && |wave| == 2 * samples
    ensures var after := Stored(es, key, wave, samples);
            Refines(after, last[key := wave])
            && (Cached(after, key) ==> |key| <= IVONA_CACHE_MAX_STRLEN)
            && forall k | k != key && Cached(after, k) :: Cached(es, k)
  {
    hide FindMin, Decay, Visible, Touched, Refines;
    var e := Entry(key, samples, wave, 1);
    NotCached(es, key);
    if |key| > IVONA_CACHE_MAX_STRLEN {
      OtherKeyRefines(es, last, key, wave);
    } else if |es| < IVONA_CACHE_SIZE {
      AppendRefines(es, last, e);
    } else {
      RefinedSize(es, last);
      OtherKeyRefines(es, last, key, wave);
      DecayRefines(es, last);
      var found := FindMin(es, 0, INT_MAX, None);
      if found.Some? {
        ReplaceRefines(Decay(es, 0), last, found.value, e);
      }
    }
  }

  lemma NotCached(es: seq<Entry>, key: string)
    ensures Cached(es, key) <==> !forall i | 0 <= i < |es| :: es[i].str != key
  {}

  lemma RefinedSize(es: seq<Entry>, last: map<string, string>)
    requires Refines(es, last)
    ensures |es| <= IVONA_CACHE_SIZE
  {}

  lemma OtherKeyRefines(es: seq<Entry>, last: map<string, string>, key: string, wave: string)
    requires Refines(es, last) && !Cached(es, key)
    ensures Refines(es, last[key := wave])
  {}

  lemma AppendRefines(es: seq<Entry>, last: map<string, string>, e: Entry)
    requires Refines(es, last) && !Cached(es, e.str) && |es| < IVONA_CACHE_SIZE
    requires e.samples > 0 && |e.wave| == 2 * e.samples && |e.str| <= IVONA_CACHE_MAX_STRLEN
    ensures Refines(es + [e], last[e.str := e.wave])
    ensures forall k | k != e.str && Cached(es + [e], k) :: Cached(es, k)
  {
    var after := es + [e];
    assert forall i | 0 <= i < |es| :: after[i] == es[i] && es[i].str != e.str;
  }

  lemma DecayRefines(es: seq<Entry>, last: map<string, string>)
    requires Refines(es, last)
    ensures Refines(Decay(es, 0), last)
    ensures forall k :: Cached(Decay(es, 0), k) <==> Cached(es, k)
    ensures |Decay(es, 0)| == |es| && forall i | 0 <= i < |es| :: Decay(es, 0)[i].str == es[i].str
  {
    hide Decay, Visible;
    SameContents(es);
    var d := Decay(es, 0);
    assert forall i | 0 <= i < |es| ::
             d[i].str == es[i].str && d[i].wave == es[i].wave && d[i].samples == es[i].samples;
  }

  lemma SameContents(es: seq<Entry>)
    ensures forall j | 0 <= j < |es| :: Decay(es, 0)[j].(count := es[j].count) == es[j]
  {
    hide Decay, Visible;
    forall j | 0 <= j < |es| ensures Decay(es, 0)[j].(count := es[j].count) == es[j] {
      DecayAt(es, 0, j);
    }
  }

  lemma ReplaceRefines(es: seq<Entry>, last: map<string, string>, i: nat, e: Entry)
    requires Refines(es, last) && i < |es| && (forall j | 0 <= j < |es| :: es[j].str != e.str)
    requires e.samples > 0 && |e.wave| == 2 * e.samples && |e.str| <= IVONA_CACHE_MAX_STRLEN
    ensures Refines(Touched(es, i, e), last[e.str := e.wave])
    ensures forall k | k != e.str && Cached(Touched(es, i, e), k) :: Cached(es, k)
  {
    hide Moved;
    MovedRefines(es[i := e], last[e.str := e.wave], i);
  }

  // ---- a run of the module

  /** A text to speak, and the wave that the server would synthesize for it now. */
  datatype Request = Request(key: string, wave: string, samples: nat)

  /** The wave that is played, the cache, and the waves last stored. */
  function Speak(es: seq<Entry>, last: map<string, string>, r: Request): (string, seq<Entry>, map<string, string>)
  {
    var (found, es') := Got(es, r.key);
    if found.Some? then (found.value.wave, es', last)
    else (r.wave, Stored(es', r.key, r.wave, r.samples), last[r.key := r.wave])
  }

  function Run(es: seq<Entry>, last: map<string, string>, rs: seq<Request>): (seq<Entry>, map<string, string>)
    decreases rs
  {
    if rs == [] then (es, last)
    else var (_, es', last') := Speak(es, last, rs[0]); Run(es', last', rs[1..])
  }

  ghost predicate Synthesized(r: Request)
  {
    r.samples > 0 && |r.wave| == 2 * r.samples
  }

  /** What is played is the wave last stored for the text if that is still cached, and the
      new one otherwise. */
  lemma SpeakRefines(es: seq<Entry>, last: map<string, string>, r: Request)
    requires Refines(es, last) && Synthesized(r)
    ensures var (played, es', last') := Speak(es, last, r);
            Refines(es', last') && (Cached(es, r.key) ==> r.key in last)
            && played == if Cached(es, r.key) then last[r.key] else r.wave
  {
    hide Got, Stored;
    LookupRefines(es, last, r.key);
    if !Cached(es, r.key) {
      StoreRefines(Got(es, r.key).1, last, r.key, r.wave, r.samples);
    }
  }

  /** After any run of requests, the cache holds waves last stored for their texts only. */
  lemma {:induction false} RunRefines(es: seq<Entry>, last: map<string, string>, rs: seq<Request>)
    requires Refines(es, last) && forall i | 0 <= i < |rs| :: Synthesized(rs[i])
    ensures Refines(Run(es, last, rs).0, Run(es, last, rs).1)
    decreases rs
  {
    hide Refines, Speak, Synthesized;
    if rs == [] {
    } else {
      SpeakRefines(es, last, rs[0]);
      var (_, es', last') := Speak(es, last, rs[0]);
      RunRefines(es', last', rs[1..]);
    }
  }

  ghost predicate CountsWithin(es: seq<Entry>, bound: nat)
  {
    |es| <= IVONA_CACHE_SIZE && forall i | 0 <= i < |es| :: 1 <= es[i].count <= bound
  }

  lemma SpeakCounts(es: seq<Entry>, last: map<string, string>, r: Request, bound: nat)
    requires CountsWithin(es, bound)
    ensures CountsWithin(Speak(es, last, r).1, bound + 1)
  {
    hide FindKey, FindMin, Decay, Visible;
    DecayAges(es);
  }

  /** In every run of requests, at most 256 entries are kept, and their counts are between
      1 and the number of requests. */
  lemma {:induction false} RunCounts(es: seq<Entry>, last: map<string, string>, rs: seq<Request>, bound: nat)
    requires CountsWithin(es, bound)
    ensures CountsWithin(Run(es, last, rs).0, bound + |rs|)
    decreases rs
  {
    hide CountsWithin, Speak;
    if rs == [] {
    } else {
      SpeakCounts(es, last, rs[0], bound);
      var (_, es', last') := Speak(es, last, rs[0]);
      RunCounts(es', last', rs[1..], bound + 1);
    }
  }

  /** After any run of fewer requests than the largest int, a new text for a full cache
      replaces the least used of all entries, the least recently used among several. */
  lemma RunEvictsLeastUsed(rs: seq<Request>, r: Request)
    requires |rs| < INT_MAX && forall i | 0 <= i < |rs| :: Synthesized(rs[i])
    requires |r.key| <= IVONA_CACHE_MAX_STRLEN
    requires var es := Run([], map[], rs).0; |es| == IVONA_CACHE_SIZE && !Cached(es, r.key)
    ensures var (es, last) := Run([], map[], rs);
            exists i :: 0 <= i < |es| && (forall j | 0 <= j < |es| :: es[i].count <= es[j].count)
                        && (forall j | 0 <= j < i :: es[i].count < es[j].count)
                        && GaveWay(es, i, Entry(r.key, r.samples, r.wave, 1), Speak(es, last, r).1)
  {
    hide Run, Synthesized, GaveWay, Visible, Stored, Got;
    RunRefines([], map[], rs);
    RunCounts([], map[], rs, 0);
    var (es, last) := Run([], map[], rs);
    AllVisible(es, 0);
    LookupRefines(es, last, r.key);
    GotMiss(es, r.key);
    assert es[0].count < INT_MAX;
    EvictsLeastUsed(es, r.key, r.wave, r.samples);
  }

  // ---- how counts age

  /** The request is for a short text that is not cached, and the cache is full. */
  ghost predicate Evicts(es: seq<Entry>, r: Request)
  {
    |es| == IVONA_CACHE_SIZE && |r.key| <= IVONA_CACHE_MAX_STRLEN && !Cached(es, r.key)
  }

  ghost function Evictions(es: seq<Entry>, last: map<string, string>, rs: seq<Request>): nat
    decreases rs
  {
    if rs == [] then 0
    else var (_, es', last') := Speak(es, last, rs[0]);
         (if Evicts(es, rs[0]) then 1 else 0) + Evictions(es', last', rs[1..])
  }

  /** Every entry with the key of e is e with this count. */
  ghost predicate CountIs(es: seq<Entry>, e: Entry, count: int)
  {
    forall i | 0 <= i < |es| && es[i].str == e.str :: es[i] == e.(count := count)
  }

  /** A request for another text changes the count of an entry only by an eviction. */
  lemma SpeakAges(es: seq<Entry>, last: map<string, string>, r: Request, e: Entry, count: int, bound: nat)
    requires Refines(es, last) && Synthesized(r) && CountsWithin(es, bound) && bound < INT_MAX
    requires CountIs(es, e, count) && count >= 1 && r.key != e.str
    ensures CountIs(Speak(es, last, r).1, e, if Evicts(es, r) then Max(1, count - 1) else count)
  {
    hide FindKey, Visible, Decay, FindMin, Refines, Stored, Got, LeastUsed, Synthesized;
    LookupRefines(es, last, r.key);
    if Cached(es, r.key) {
      HitIsMostRecent(es, r.key);
      HitKeeps(es, r.key, e, count);
    } else {
      GotMiss(es, r.key);
      if Evicts(es, r) {
        RefinedVisible(es, last);
        assert es[0].count < INT_MAX;
        EvictsLeastUsed(es, r.key, r.wave, r.samples);
        var new_, after := Entry(r.key, r.samples, r.wave, 1), Stored(es, r.key, r.wave, r.samples);
        var i :| LeastUsed(es, i) && GaveWay(es, i, new_, after);
        GaveWayAges(es, i, new_, after, e, count);
      } else {
        StoredElse(es, r);
      }
    }
  }

  lemma RefinedVisible(es: seq<Entry>, last: map<string, string>)
    requires Refines(es, last)
    ensures Visible(es, 0) == |es|
  {
    AllVisible(es, 0);
  }

  lemma HitKeeps(es: seq<Entry>, key: string, e: Entry, count: int)
    requires CountIs(es, e, count) && key != e.str
    ensures CountIs(Got(es, key).1, e, count)
  {
    FoundIff(es, key, 0);
  }

  lemma GaveWayAges(es: seq<Entry>, i: nat, new_: Entry, after: seq<Entry>, e: Entry, count: int)
    requires GaveWay(es, i, new_, after) && Visible(es, 0) == |es| && CountIs(es, e, count) && new_.str != e.str
    ensures CountIs(after, e, Max(1, count - 1))
  {
    hide Visible;
  }

  lemma StoredElse(es: seq<Entry>, r: Request)
    requires !Evicts(es, r) && !Cached(es, r.key) && |es| <= IVONA_CACHE_SIZE
    ensures var after := Stored(es, r.key, r.wave, r.samples);
            after == es || after == es + [Entry(r.key, r.samples, r.wave, 1)]
  {
    hide FindMin, Decay;
  }

  /** Over every run of requests for other texts, an entry that is still cached has lost one
      from its count with each eviction, down to 1. */
  lemma {:induction false} RunAges(es: seq<Entry>, last: map<string, string>, rs: seq<Request>, e: Entry, count: int,
                                   bound: nat)
    requires Refines(es, last) && CountsWithin(es, bound) && bound + |rs| <= INT_MAX
    requires forall i | 0 <= i < |rs| :: Synthesized(rs[i]) && rs[i].key != e.str
    requires CountIs(es, e, count) && count >= 1
    ensures CountIs(Run(es, last, rs).0, e, Max(1, count - Evictions(es, last, rs)))
    decreases rs
  {
    hide Refines, Speak, Synthesized, CountsWithin, CountIs, Evicts;
    if rs == [] {
    } else {
      var r := rs[0];
      var (_, es', last') := Speak(es, last, r);
      SpeakRefines(es, last, r);
      SpeakCounts(es, last, r, bound);
      SpeakAges(es, last, r, e, count, bound);
      RunAges(es', last', rs[1..], e, if Evicts(es, r) then Max(1, count - 1) else count, bound + 1);
    }
  }

  lemma GotMiss(es: seq<Entry>, key: string)
    ensures Got(es, key).0.None? ==> Got(es, key).1 == es
  {}

  /** The module's way of using the cache. */
  method Play(cache: Cache, key: string, synthesized: array<char>, samples: nat, ghost last: map<string, string>)
    returns (wave: array<char>, ghost last': map<string, string>)
    requires cache.Valid() && Refines(cache.entries, last)
    requires samples > 0 && synthesized.Length == 2 * samples
    modifies cache, cache.Nodes()
    ensures cache.Valid() && Refines(cache.entries, last')
    ensures (wave[..], cache.entries, last') == Speak(old(cache.entries), last, Request(key, synthesized[..], samples))
    ensures wave[..] == if Cached(old(cache.entries), key) then last[key] else synthesized[..]
  {
    hide *;
    ghost var r := Request(key, synthesized[..], samples);
    SpeakRefines(cache.entries, last, r) by { SynthesizedIs(r); }
    SpeakIs(cache.entries, last, r);
    ghost var es := cache.entries;
    ghost var got := Got(es, key);
    var found, _ := cache.GetWave(key);
    if found != null {
      assert got.0.Some? && cache.entries == got.1;
      assert Speak(es, last, r) == (got.0.value.wave, got.1, last);
      return found, last;
    }
    cache.StoreWave(key, synthesized, samples);
    assert synthesized[..2 * samples] == synthesized[..];
    return synthesized, last[key := synthesized[..]];
  }

  lemma SynthesizedIs(r: Request)
    ensures Synthesized(r) <==> r.samples > 0 && |r.wave| == 2 * r.samples
  {}

  lemma SpeakIs(es: seq<Entry>, last: map<string, string>, r: Request)
    ensures var (found, es') := Got(es, r.key);
            Speak(es, last, r) == if found.Some? then (found.value.wave, es', last)
                                  else (r.wave, Stored(es', r.key, r.wave, r.samples), last[r.key := r.wave])
  {
    hide Got, Stored;
  }
}
