/** Runs of the Festival module's requests through its cache (_festival_speak in
    src/modules/festival.c): what is played, and what the counts count. */
module FestivalRequests {
  import opened CStrings
  import opened FestivalCache

  /** A character, key or sound icon to speak, and what Festival makes of it if asked. */
  datatype Request = Request(text: string, msgType: MessageType, settings: Settings, synthesized: Option<Wave>)

  /** The table and the key under which its wave is kept. */
  ghost function Place(r: Request, config: Config): (string, string)
    requires GenKey(r.msgType, r.settings, config).Some?
  {
    (GenKey(r.msgType, r.settings, config).value, r.text)
  }

  /** One request of a run: where its wave belongs, and the wave that was synthesized for
      it, if one was. */
  datatype Served = Served(place: (string, string), made: Option<Wave>)

  /** The wave last synthesized for a place, and the number of requests since, that one
      included. */
  ghost function Made(h: seq<Served>, p: (string, string)): Option<(Wave, int)>
  {
    if h == [] then None
    else
      var last, before := h[|h| - 1], Made(h[..|h| - 1], p);
      if last.place != p then before
      else if last.made.Some? then Some((last.made.value, 1))
      else match before
           case None => None
           case Some((wave, count)) => Some((wave, count + 1))
  }

  /** How many requests were for a place. */
  ghost function Times(h: seq<Served>, p: (string, string)): int
  {
    if h == [] then 0 else (if h[0].place == p then 1 else 0) + Times(h[1..], p)
  }

  /** The request at j was the last for which a wave was synthesized for p. */
  ghost predicate LastMade(h: seq<Served>, p: (string, string), j: nat)
  {
    j < |h| && h[j].place == p && h[j].made.Some?
    && forall i | j < i < |h| :: h[i].place == p ==> h[i].made == None
  }

  lemma {:induction false} TimesAppend(h: seq<Served>, last: Served, p: (string, string))
    ensures Times(h + [last], p) == Times(h, p) + if last.place == p then 1 else 0
  {
    if h == [] {
      assert h + [last] == [last] && [last][1..] == [];
    } else {
      assert (h + [last])[1..] == h[1..] + [last];
      TimesAppend(h[1..], last, p);
    }
  }

  /** What Made means: a wave was synthesized for the place, at j for the last time. */
  lemma {:induction false} MadeIff(h: seq<Served>, p: (string, string), j: nat)
    ensures LastMade(h, p, j) ==> Made(h, p) == Some((h[j].made.value, Times(h[j..], p)))
    ensures Made(h, p).None? <==> forall i | 0 <= i < |h| :: h[i].place == p ==> h[i].made == None
    decreases |h|
  {
    hide Times;
    if h == [] {
    } else {
      var n := |h| - 1;
      var last, before := h[n], h[..n];
      assert h == before + [last];
      MadeIff(before, p, j);
      assert forall i | 0 <= i < n :: before[i] == h[i];
      if j < n {
        assert h[j..] == before[j..] + [last];
        TimesAppend(before[j..], last, p);
      } else if j == n {
        assert h[j..] == [] + [last];
        TimesAppend([], last, p);
        TimesNone(p);
      }
    }
  }

  lemma TimesNone(p: (string, string))
    ensures Times([], p) == 0
  {}

  ghost function CountersOf(contents: Contents): set<CounterEntry>
  {
    set p | p in contents :: contents[p].counter
  }

  /** The cache holds the waves last synthesized, and counts the requests since. */
  ghost predicate Remembers(contents: Contents, h: seq<Served>)
    reads CountersOf(contents)`count
  {
    forall p | p in contents :: Made(h, p) == Some((contents[p].wave, contents[p].counter.count))
  }

  lemma MadeNext(h: seq<Served>, last: Served)
    ensures forall p ::
              Made(h + [last], p) ==
              if last.place != p then Made(h, p)
              else if last.made.Some? then Some((last.made.value, 1))
              else match Made(h, p) case None => None case Some((wave, count)) => Some((wave, count + 1))
  {
    assert (h + [last])[..|h|] == h;
  }

  lemma CountersPlaced(caches: map<string, Table>, contents: Contents, cs: seq<CounterEntry>)
    requires CountedIn(caches, contents, cs)
    ensures forall p | p in contents :: contents[p].counter in cs && contents[p].counter.Place() == p
  {
    assert forall p | p in contents :: CountedAt(contents[p], p, cs);
  }

  lemma LeftIn(sorted: seq<CounterEntry>, cs: seq<CounterEntry>, left: seq<CounterEntry>)
    requires multiset(sorted) == multiset(cs) && (left == cs || left <= sorted)
    ensures forall c | c in left :: c in cs
  {
    SameElements(sorted, cs);
    assert left <= sorted ==> forall c | c in left :: c in sorted;
  }

  /** One request: the wave is taken from the cache, or synthesized and put there.  sorted
      is the list as the sort in cache_clean would leave it. */
  method Speak(cache: Cache, r: Request, sorted: seq<CounterEntry>, ghost h: seq<Served>)
    returns (played: Option<Wave>, ghost made: Option<Wave>)
    requires cache.Valid() && Remembers(cache.contents, h) && (!cache.on ==> cache.contents == map[])
    requires GenKey(r.msgType, r.settings, cache.config).Some? && multiset(sorted) == multiset(cache.cacheCounter)
    modifies cache, cache.Tables(), cache.Counters()`count
    ensures cache.Valid() && (!cache.on ==> cache.contents == map[])
    ensures Remembers(cache.contents, h + [Served(Place(r, cache.config), made)])
    ensures match old(cache.Find(Some(r.text), r.msgType, r.settings))
            case Some(e) => made == None && played == Some(e.wave)
            case None => made == played == r.synthesized
    ensures forall t | t in cache.caches :: cache.caches[t] in old(cache.Tables()) || fresh(cache.caches[t])
    ensures forall c | c in cache.cacheCounter :: c in old(cache.cacheCounter) || fresh(c)
  {
    hide GenKey, Made, Cache.TablesHold, CountedIn, Left, Sum;
    ghost var before := cache.cacheCounter;
    ghost var p := Place(r, cache.config);
    CountersPlaced(cache.caches, cache.contents, cache.cacheCounter);
    played := cache.CacheLookup(Some(r.text), r.msgType, r.settings);
    if played.Some? {
      made := None;
      MadeNext(h, Served(p, made));
      return;
    }
    made := r.synthesized;
    MadeNext(h, Served(p, made));
    if r.synthesized.None? {
      return;
    }
    var _, kept := cache.CacheInsert(Some(r.text), r.msgType, r.synthesized, r.settings, sorted);
    if cache.on {
      LeftIn(sorted, before, kept);
    }
    played := r.synthesized;
  }

  /** What is played for the last request of h: the wave last synthesized for its place, or
      nothing when Festival fails. */
  ghost predicate Plays(h: seq<Served>, r: Request, config: Config, played: Option<Wave>)
    requires GenKey(r.msgType, r.settings, config).Some?
  {
    h != [] && h[|h| - 1].place == Place(r, config)
    && (h[|h| - 1].made.Some? ==> h[|h| - 1].made == r.synthesized)
    && match played
       case None => r.synthesized == None
       case Some(wave) => Made(h, Place(r, config)).Some? && Made(h, Place(r, config)).value.0 == wave
  }

  lemma PlaysNext(h: seq<Served>, last: Served, r: Request, config: Config, found: Option<Wave>, played: Option<Wave>)
    requires GenKey(r.msgType, r.settings, config).Some? && last.place == Place(r, config)
    requires match found
             case Some(wave) => last.made == None && played == found && Made(h, last.place).Some?
                                && Made(h, last.place).value.0 == wave
             case None => last.made == played == r.synthesized
    ensures Plays(h + [last], r, config, played)
  {
    hide GenKey, Made;
    MadeNext(h, last);
  }

  /** Every request so far got what it should. */
  ghost predicate AllPlay(h: seq<Served>, requests: seq<Request>, config: Config, played: seq<Option<Wave>>)
    requires forall i | 0 <= i < |requests| :: GenKey(requests[i].msgType, requests[i].settings, config).Some?
  {
    |h| == |played| <= |requests| && forall i | 0 <= i < |h| :: Plays(h[..i + 1], requests[i], config, played[i])
  }

  lemma AllPlayNext(h: seq<Served>, last: Served, requests: seq<Request>, config: Config,
                    played: seq<Option<Wave>>, out: Option<Wave>)
    requires forall i | 0 <= i < |requests| :: GenKey(requests[i].msgType, requests[i].settings, config).Some?
    requires AllPlay(h, requests, config, played) && |h| < |requests|
    requires Plays(h + [last], requests[|h|], config, out)
    ensures AllPlay(h + [last], requests, config, played + [out])
  {
    hide Plays, GenKey;
    var h', played' := h + [last], played + [out];
    forall i | 0 <= i < |h'| ensures Plays(h'[..i + 1], requests[i], config, played'[i]) {
      assert i < |h| ==> h'[..i + 1] == h[..i + 1] && played'[i] == played[i];
      assert i == |h| ==> h'[..i + 1] == h' && played'[i] == out;
    }
  }

  // ---- any order that a sort may leave

  function Upto(n: nat): seq<nat>
  {
    seq(n, i => i)
  }

  function Select(list: seq<CounterEntry>, order: seq<nat>): (r: seq<CounterEntry>)
    requires forall i | 0 <= i < |order| :: order[i] < |list|
    ensures |r| == |order|
  {
    seq(|order|, i requires 0 <= i < |order| => list[order[i]])
  }

  lemma OrderIndex(order: seq<nat>, x: nat) returns (i: nat)
    requires x in order
    ensures i < |order| && order[i] == x
  {
    i :| 0 <= i < |order| && order[i] == x;
  }

  function Without(order: seq<nat>, i: nat): seq<nat>
    requires i < |order|
  {
    order[..i] + order[i + 1..]
  }

  lemma WithoutOne(order: seq<nat>, i: nat)
    requires i < |order|
    ensures multiset(Without(order, i)) == multiset(order) - multiset{order[i]}
    ensures order == order[..i] + ([order[i]] + order[i + 1..])
  {
    assert order == order[..i] + ([order[i]] + order[i + 1..]);
  }

  lemma SelectConcat(list: seq<CounterEntry>, a: seq<nat>, b: seq<nat>)
    requires forall k | 0 <= k < |a + b| :: (a + b)[k] < |list|
    ensures (forall k | 0 <= k < |a| :: a[k] < |list|) && forall k | 0 <= k < |b| :: b[k] < |list|
    ensures Select(list, a + b) == Select(list, a) + Select(list, b)
  {
    assert forall k | 0 <= k < |a| :: a[k] == (a + b)[k];
    assert forall k | 0 <= k < |b| :: b[k] == (a + b)[|a| + k];
  }

  lemma SelectWithout(list: seq<CounterEntry>, order: seq<nat>, i: nat)
    requires i < |order| && forall k | 0 <= k < |order| :: order[k] < |list|
    ensures forall k | 0 <= k < |Without(order, i)| :: Without(order, i)[k] < |list|
    ensures multiset(Select(list, order)) == multiset(Select(list, Without(order, i))) + multiset{list[order[i]]}
  {
    var a, b := order[..i], order[i + 1..];
    WithoutOne(order, i);
    SelectConcat(list, a, [order[i]] + b);
    SelectConcat(list, [order[i]], b);
    SelectConcat(list, a, b);
    assert Select(list, [order[i]]) == [list[order[i]]];
  }

  /** Selecting by the same numbers in another order gives the same entries. */
  lemma {:induction false} SelectPermuted(list: seq<CounterEntry>, a: seq<nat>, b: seq<nat>)
    requires multiset(a) == multiset(b)
    requires forall i | 0 <= i < |a| :: a[i] < |list|
    requires forall i | 0 <= i < |b| :: b[i] < |list|
    ensures multiset(Select(list, a)) == multiset(Select(list, b))
    decreases |a|
  {
    hide Select;
    if a == [] {
      assert forall x | x in b :: x in multiset(b);
      assert b == a;
    } else {
      assert a[0] in multiset(b);
      var i := OrderIndex(b, a[0]);
      WithoutOne(a, 0);
      WithoutOne(b, i);
      SelectWithout(list, a, 0);
      SelectWithout(list, b, i);
      hide Without;
      WithoutShorter(a, 0);
      SelectPermuted(list, Without(a, 0), Without(b, i));
    }
  }

  lemma WithoutShorter(order: seq<nat>, i: nat)
    requires i < |order|
    ensures |Without(order, i)| < |order|
  {}

  lemma SelectSorts(list: seq<CounterEntry>, order: seq<nat>)
    requires multiset(order) == multiset(Upto(|list|))
    ensures forall i | 0 <= i < |order| :: order[i] < |list|
    ensures multiset(Select(list, order)) == multiset(list)
  {
    forall i | 0 <= i < |order| ensures order[i] < |list| {
      assert order[i] in multiset(Upto(|list|));
    }
    SelectPermuted(list, order, Upto(|list|));
    assert Select(list, Upto(|list|)) == list;
  }

  /** Any run of requests, from an empty cache; order(n, len) is the order in which the
      n-th sort leaves the indices of its list.  Whatever is played for a request is the wave
      last synthesized for a request with the same table and text. */
  method Play(config: Config, on: bool, maxKBytes: nat, requests: seq<Request>, order: (nat, nat) -> seq<nat>)
    returns (played: seq<Option<Wave>>, ghost h: seq<Served>)
    requires forall i | 0 <= i < |requests| :: GenKey(requests[i].msgType, requests[i].settings, config).Some?
    requires forall n: nat, len: nat :: multiset(order(n, len)) == multiset(Upto(len))
    ensures |played| == |requests| && AllPlay(h, requests, config, played)
  {
    hide GenKey, Made, Plays, Cache.TablesHold, CountedIn, Cache.Sized, Upto, Select;
    var cache := new Cache(config, on, maxKBytes);
    played, h := [], [];
    for n := 0 to |requests|
      invariant |played| == n && AllPlay(h, requests, config, played)
      invariant cache.Valid() && Remembers(cache.contents, h) && (!on ==> cache.contents == map[])
      invariant cache.config == config && cache.on == on && fresh(cache)
      invariant forall t | t in cache.caches :: fresh(cache.caches[t])
      invariant forall c | c in cache.cacheCounter :: fresh(c)
    {
      var r := requests[n];
      ghost var found := cache.Find(Some(r.text), r.msgType, r.settings);
      ghost var wave := if found.Some? then Some(found.value.wave) else None;
      ghost var p := Place(r, config);
      SelectSorts(cache.cacheCounter, order(n, |cache.cacheCounter|));
      assert found.Some? ==> Made(h, p).Some? && Made(h, p).value.0 == found.value.wave;
      var out;
      ghost var made;
      out, made := Speak(cache, r, Select(cache.cacheCounter, order(n, |cache.cacheCounter|)), h);
      PlaysNext(h, Served(p, made), r, config, wave, out);
      AllPlayNext(h, Served(p, made), requests, config, played, out);
      played, h := played + [out], h + [Served(p, made)];
    }
  }
}
