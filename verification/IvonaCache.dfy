/** The wave cache of the Ivona module (src/modules/ivona_client.c): 256 static nodes,
    chained between two sentinels from the least to the most recently used. */
module IvonaCache {
  import opened CStrings

  const IVONA_CACHE_SIZE: nat := 256
  const IVONA_CACHE_MAX_STRLEN: nat := 11
  const INT_MAX: int := 0x7fffffff

  /** What a chained node holds: wave has two bytes a sample. */
  datatype Entry = Entry(str: string, samples: nat, wave: string, count: int)

  // ---- the cache as a list of entries, the least recently used first

  /** The search of ivona_get_wave_from_cache from an index on; an entry without samples
      ends it. */
  function FindKey(es: seq<Entry>, key: string, from: nat): (r: Option<nat>)
    requires from <= |es|
    ensures r.Some? ==> r.value < |es|
    decreases |es| - from
  {
    if from == |es| || es[from].samples == 0 then None
    else if es[from].str == key then Some(from)
    else FindKey(es, key, from + 1)
  }

  /** The first loop of find_min_count. */
  function FindMin(es: seq<Entry>, from: nat, cnt: int, found: Option<nat>): (r: Option<nat>)
    requires from <= |es| && (found.Some? ==> found.value < |es|)
    ensures r.Some? ==> r.value < |es|
    decreases |es| - from
  {
    if from == |es| || es[from].samples == 0 then found
    else if es[from].count < cnt then FindMin(es, from + 1, es[from].count, Some(from))
    else FindMin(es, from + 1, cnt, found)
  }

  function Decayed(e: Entry): Entry
  {
    if e.count > 1 then e.(count := e.count - 1) else e
  }

  /** The second loop of find_min_count. */
  function Decay(es: seq<Entry>, from: nat): (r: seq<Entry>)
    requires from <= |es|
    ensures |r| == |es|
    decreases |es| - from
  {
    if from == |es| || es[from].samples == 0 then es
    else Decay(es[from := Decayed(es[from])], from + 1)
  }

  /** The entry at index i becomes the most recently used, as e. */
  function Touched(es: seq<Entry>, i: nat, e: Entry): seq<Entry>
    requires i < |es|
  {
    Moved(es[i := e], i)
  }

  /** The element at index i goes to the end. */
  function Moved<T>(s: seq<T>, i: nat): seq<T>
    requires i < |s|
  {
    s[..i] + s[i + 1..] + [s[i]]
  }

  /** ivona_get_wave_from_cache: the entry found, and the cache afterwards. */
  function Got(es: seq<Entry>, key: string): (Option<Entry>, seq<Entry>)
  {
    if |key| > IVONA_CACHE_MAX_STRLEN then (None, es)
    else match FindKey(es, key, 0)
         case None => (None, es)
         case Some(i) => (Some(es[i]), Touched(es, i, es[i].(count := es[i].count + 1)))
  }

  /** ivona_store_wave_in_cache. */
  function Stored(es: seq<Entry>, key: string, wave: string, samples: nat): seq<Entry>
  {
    var e := Entry(key, samples, wave, 1);
    if |key| > IVONA_CACHE_MAX_STRLEN then es
    else if |es| < IVONA_CACHE_SIZE then es + [e]
    else match FindMin(es, 0, INT_MAX, None)
         case None => es
         case Some(i) => Touched(Decay(es, 0), i, e)
  }

  lemma FindKeyStep(es: seq<Entry>, key: string, at: nat)
    requires at <= |es|
    ensures FindKey(es, key, at) == if at == |es| || es[at].samples == 0 then None
                                    else if es[at].str == key then Some(at)
                                    else FindKey(es, key, at + 1)
  {}

  lemma FindMinStep(es: seq<Entry>, at: nat, cnt: int, found: Option<nat>)
    requires at <= |es| && (found.Some? ==> found.value < |es|)
    ensures FindMin(es, at, cnt, found) ==
            if at == |es| || es[at].samples == 0 then found
            else if es[at].count < cnt then FindMin(es, at + 1, es[at].count, Some(at))
            else FindMin(es, at + 1, cnt, found)
  {}

  lemma DecayStep(es: seq<Entry>, at: nat)
    requires at <= |es|
    ensures Decay(es, at) == if at == |es| || es[at].samples == 0 then es
                             else Decay(es[at := Decayed(es[at])], at + 1)
    ensures at < |es| ==> es[at := es[at]] == es
  {}

  // ---- the cache on the heap

  class Node {
    var succ: Node?
    var pred: Node?
    var count: int
    var str: string
    var samples: nat
    var wave: array?<char>

    constructor ()
      ensures succ == null && pred == null && samples == 0
    {
      succ, pred, count, str, samples, wave := null, null, 0, "", 0, null;
    }

    ghost predicate Holds(e: Entry)
      reads this`str, this`samples, this`count, this`wave, wave
    {
      str == e.str && samples == e.samples && count == e.count && wave != null && wave[..] == e.wave
      && wave.Length == 2 * samples
    }
  }

  ghost predicate Match(ns: seq<Node>, es: seq<Entry>)
    reads (set n | n in ns)`str, (set n | n in ns)`samples, (set n | n in ns)`count, (set n | n in ns)`wave
    reads set n | n in ns && n.wave != null :: n.wave
  {
    |ns| == |es| && forall i | 0 <= i < |ns| :: ns[i].Holds(es[i])
  }

  lemma MatchMoved(ns: seq<Node>, es: seq<Entry>, at: nat)
    requires Match(ns, es) && at < |es|
    ensures Match(Moved(ns, at), Moved(es, at))
  {}

  lemma MatchAppend(ns: seq<Node>, es: seq<Entry>, n: Node, e: Entry)
    requires Match(ns, es) && n.Holds(e)
    ensures Match(ns + [n], es + [e])
  {}

  lemma MovedMembers<T>(s: seq<T>, i: nat)
    requires i < |s|
    ensures |Moved(s, i)| == |s| && forall x :: x in Moved(s, i) <==> x in s
  {
    assert s == s[..i] + [s[i]] + s[i + 1..];
  }

  /** Cutting a place out of a ring, and adding one before its end, seen on its inside. */
  lemma InsideOut<T>(r: seq<T>, k: nat)
    requires 0 < k < |r| - 1
    ensures (r[..k] + r[k + 1..])[1..|r| - 2] == r[1..|r| - 1][..k - 1] + r[1..|r| - 1][k..]
    ensures r[1..|r| - 1][k - 1] == r[k]
  {}

  lemma InsideAdd<T>(r: seq<T>, x: T, last: T)
    requires |r| >= 2
    ensures (r[..|r| - 1] + [x, last])[1..|r|] == r[1..|r| - 1] + [x]
  {}

  class Cache {
    const head: Node
    const tail: Node
    const icas: seq<Node>
    var cacheCount: nat
    ghost var ring: seq<Node>       // the tail, the chained nodes and the head
    ghost var entries: seq<Entry>   // what the chained nodes hold

    ghost function Nodes(): set<Node>
    {
      {head, tail} + set n | n in icas
    }

    ghost function Waves(): set<object>
      reads Nodes()`wave
    {
      set n | n in Nodes() && n.wave != null :: n.wave
    }

    ghost function At(i: nat): Node
      reads this
      requires i < |ring|
    {
      ring[i]
    }

    /** The memory the nodes take: all are different. */
    ghost predicate Layout()
    {
      |icas| == IVONA_CACHE_SIZE && head != tail && head !in icas && tail !in icas
      && forall i, j | 0 <= i < j < |icas| :: icas[i] != icas[j]
    }

    /** The chain runs from the tail to the head through different nodes, linked both ways. */
    ghost predicate Linked()
      reads this`ring, Nodes()`succ, Nodes()`pred
    {
      |ring| >= 2 && ring[0] == tail && ring[|ring| - 1] == head
      && (forall i | 0 <= i < |ring| :: ring[i] in Nodes())
      && (forall i, j | 0 <= i < j < |ring| :: ring[i] != ring[j])
      && (forall i | 0 < i < |ring| :: ring[i].pred == ring[i - 1])
      && (forall i | 0 <= i < |ring| - 1 :: ring[i].succ == ring[i + 1])
    }

    ghost function Chain(): seq<Node>
      reads this`ring
      requires |ring| >= 2
    {
      ring[1..|ring| - 1]
    }

    /** The nodes in the chain are exactly the used ones; the others have no links. */
    ghost predicate Used()
      reads this`ring, this`cacheCount, Nodes()`succ, Nodes()`pred
    {
      |ring| == cacheCount + 2 && cacheCount <= |icas|
      && (forall i | 0 <= i < cacheCount :: icas[i] in Chain())
      && (forall i | cacheCount <= i < |icas| :: icas[i] !in Chain() && icas[i].succ == null && icas[i].pred == null)
    }

    ghost predicate Holding()
      requires Linked()
      reads this`ring, this`entries, Nodes()`succ, Nodes()`pred
      reads Nodes()`str, Nodes()`samples, Nodes()`count, Nodes()`wave, Waves()
    {
      head.samples == 0 && Match(Chain(), entries)
    }

    ghost predicate Valid()
      reads this, Nodes(), Waves()
    {
      Layout() && Linked() && Used() && Holding()
    }

    constructor ()
      ensures Valid() && fresh(Nodes()) && entries == []
    {
      var nodes: seq<Node> := [];
      for i := 0 to IVONA_CACHE_SIZE
        invariant |nodes| == i && fresh(set n | n in nodes)
        invariant forall j, k | 0 <= j < k < i :: nodes[j] != nodes[k]
        invariant forall j | 0 <= j < i :: nodes[j].succ == null && nodes[j].pred == null
      {
        var node := new Node();
        nodes := nodes + [node];
      }
      var h := new Node();
      var t := new Node();
      head, tail, icas := h, t, nodes;
      cacheCount, ring, entries := 0, [t, h], [];
      new;
      InitCache();
    }

    /** ivona_init_cache. */
    method InitCache()
      requires head != tail
      modifies head`pred, tail`succ
      ensures tail.succ == head && head.pred == tail
    {
      head.pred := tail;
      tail.succ := head;
    }

    /** The node at place k leaves the chain; its own links stay. */
    method Unlink(ica: Node, ghost k: nat)
      requires Linked() && 0 < k < |ring| - 1 && ica == ring[k]
      modifies this`ring, At(k - 1)`succ, At(k + 1)`pred
      ensures Linked() && ring == old(ring[..k] + ring[k + 1..]) && ica !in ring
    {
      if ica.pred != null {
        ica.pred.succ := ica.succ;
      }
      if ica.succ != null {
        ica.succ.pred := ica.pred;
      }
      ring := ring[..k] + ring[k + 1..];
    }

    /** A node outside the chain becomes its last one. */
    method LinkLast(ica: Node)
      requires Linked() && ica in Nodes() && ica !in ring
      modifies this`ring, ica`pred, ica`succ, head`pred, At(|ring| - 2)`succ
      ensures Linked() && ring == old(ring[..|ring| - 1]) + [ica, head]
    {
      ica.pred := head.pred;
      ica.pred.succ := ica;
      ica.succ := head;
      head.pred := ica;
      ring := ring[..|ring| - 1] + [ica, head];
    }

    lemma RingMembers()
      requires Linked()
      ensures |ring| >= 2 && forall n :: n in ring <==> n in Chain() || n == head || n == tail
      ensures ring[0] == tail && ring[|ring| - 1] == head && forall n | n in ring :: n in Nodes()
    {
      assert ring == [tail] + Chain() + [head];
    }

    lemma Chained(k: nat)
      requires Linked() && 0 < k < |ring| - 1
      ensures ring[k].pred == ring[k - 1] && ring[k].succ == ring[k + 1]
    {}

    /** Unlink and LinkLast, seen on the chain without its sentinels. */
    method TakeOut(ica: Node, ghost k: nat)
      requires Linked() && 0 < k < |ring| - 1 && ica == ring[k]
      modifies this`ring, At(k - 1)`succ, At(k + 1)`pred
      ensures Linked() && ica !in ring && ica == old(Chain())[k - 1]
      ensures Chain() == old(Chain()[..k - 1] + Chain()[k..])
    {
      hide Linked;
      RingMembers();
      InsideOut(ring, k);
      Unlink(ica, k);
      RingMembers();
    }

    method PutLast(ica: Node)
      requires Linked() && ica in Nodes() && ica !in ring
      modifies this`ring, ica`pred, ica`succ, head`pred, At(|ring| - 2)`succ
      ensures Linked() && Chain() == old(Chain()) + [ica]
    {
      hide Linked;
      RingMembers();
      InsideAdd(ring, ica, head);
      LinkLast(ica);
      RingMembers();
    }

    /** ica_tohead: the node becomes the last of the chain; k is its place in it, or 0
        for a node not yet used. */
    method ToHead(ica: Node, ghost k: nat)
      requires Linked() && ica in Nodes() && head !in icas && tail !in icas
      requires if k == 0 then ica !in ring && ica.succ == null && ica.pred == null else k < |ring| - 1 && ica == ring[k]
      modifies this`ring, Nodes()`succ, Nodes()`pred
      ensures Linked()
      ensures Chain() == if k == 0 then old(Chain()) + [ica] else Moved(old(Chain()), k - 1)
      ensures forall n | n in icas && n != ica && n !in old(Chain()) :: n.succ == old(n.succ) && n.pred == old(n.pred)
    {
      hide Linked, Chain;
      RingMembers();
      ghost var chain := Chain();
      if k > 0 {
        Chained(k);
        assert At(k - 1) in ring && At(k + 1) in ring;
      }
      if ica.pred != null || ica.succ != null {
        TakeOut(ica, k);
        RingMembers();
      }
      assert forall n | n in Chain() :: n in chain;
      assert At(|ring| - 2) in ring;
      PutLast(ica);
    }

    /** What a walk along the chain sees at place at. */
    lemma Walk(at: nat)
      requires Valid() && at <= |entries|
      ensures |ring| == |entries| + 2 && ring[0] == tail && tail.succ == ring[1]
      ensures ring[at + 1] in Nodes()
      ensures ring[at + 1].samples == if at < |entries| then entries[at].samples else 0
      ensures at < |entries| ==> ring[at + 1].Holds(entries[at]) && ring[at + 1].succ == ring[at + 2]
    {
      assert at < |entries| ==> Chain()[at] == ring[at + 1];
    }

    lemma ChainPlace(at: nat)
      requires Valid() && at < |entries|
      ensures |ring| == |entries| + 2 && |Chain()| == |entries| && Chain()[at] == ring[at + 1]
              && ring[at + 1] in Nodes()
      ensures ring[0] == tail && ring[|ring| - 1] == head && head !in icas && tail !in icas
      ensures ring[at + 1].Holds(entries[at])
      ensures ring[at + 1] != head && forall i | 0 <= i < |Chain()| && i != at :: Chain()[i] != ring[at + 1]
    {
      hide Used;
      assert Chain()[at] == ring[at + 1];
    }

    /** The count of one entry changes. */
    method SetCount(ica: Node, ghost at: nat, count: int)
      requires Valid() && at < |entries| && ica == ring[at + 1]
      modifies this`entries, ica`count
      ensures Valid() && entries == old(entries[at := entries[at].(count := count)])
    {
      hide Layout, Used;
      ChainPlace(at);
      ica.count := count;
      assert Linked() by { hide Linked; }
      entries := entries[at := entries[at].(count := count)];
    }

    /** The entry at a place in the chain becomes the last. */
    method MoveToHead(ica: Node, ghost at: nat)
      requires Valid() && at < |entries| && ica == ring[at + 1]
      modifies this`ring, this`entries, Nodes()`succ, Nodes()`pred
      ensures Valid() && entries == Moved(old(entries), at)
    {
      hide Layout, Match, Linked, Moved;
      ChainPlace(at);
      ghost var chain := Chain();
      ToHead(ica, at + 1);
      RingMembers();
      MatchMoved(chain, entries, at);
      MovedMembers(chain, at);
      entries := Moved(entries, at);
    }

    /** The first loop of find_min_count: the least recently used of the entries with the
        smallest count.  The C code bounds it by a number that it never counts up. */
    method FindMinNode() returns (found: Node?, ghost k: Option<nat>)
      requires Valid()
      ensures Valid() && k == FindMin(entries, 0, INT_MAX, None)
      ensures if k.Some? then |ring| == |entries| + 2 && found == ring[k.value + 1] else found == null
    {
      hide Valid, FindMin;
      var cnt := INT_MAX;
      found, k := null, None;
      Walk(0);
      var ica := tail.succ;
      ghost var at := 0;
      while ica.samples != 0
        invariant Valid() && at <= |entries| && |ring| == |entries| + 2 && ica == ring[at + 1]
        invariant k.Some? ==> k.value < |entries|
        invariant if k.Some? then found == ring[k.value + 1] else found == null
        invariant FindMin(entries, at, cnt, k) == FindMin(entries, 0, INT_MAX, None)
        decreases |entries| - at
      {
        Walk(at);
        FindMinStep(entries, at, cnt, k);
        if ica.count < cnt {
          cnt := ica.count;
          found, k := ica, Some(at);
        }
        ica := ica.succ;
        at := at + 1;
      }
      Walk(at);
      FindMinStep(entries, at, cnt, k);
    }

    /** The second loop of find_min_count. */
    method DecayCounts()
      requires Valid()
      modifies this`entries, Nodes()`count
      ensures Valid() && entries == Decay(old(entries), 0)
    {
      hide Valid, Decay;
      Walk(0);
      var ica := tail.succ;
      ghost var at := 0;
      while ica.samples != 0
        invariant Valid() && at <= |entries| && |ring| == |entries| + 2 && ica == ring[at + 1]
        invariant Decay(entries, at) == Decay(old(entries), 0)
        decreases |entries| - at
      {
        Walk(at);
        DecayStep(entries, at);
        if ica.count > 1 {
          SetCount(ica, at, ica.count - 1);
        }
        Walk(at);
        ica := ica.succ;
        at := at + 1;
      }
      Walk(at);
      DecayStep(entries, at);
    }

    method FindMinCount() returns (found: Node?, ghost k: Option<nat>)
      requires Valid()
      modifies this`entries, Nodes()`count
      ensures Valid()
      ensures k == FindMin(old(entries), 0, INT_MAX, None)
      ensures if k.Some? then |ring| == |entries| + 2 && found == ring[k.value + 1] else found == null
      ensures entries == if k.Some? then Decay(old(entries), 0) else old(entries)
    {
      hide Valid, Decay, FindMin;
      found, k := FindMinNode();
      if found != null {
        DecayCounts();
      }
    }

    static method Copy(from: array<char>, n: nat) returns (to: array<char>)
      requires n <= from.Length
      ensures fresh(to) && to.Length == n && to[..] == from[..n]
    {
      to := new char[n];
      for i := 0 to n
        invariant to[..i] == from[..i]
      {
        to[i] := from[i];
      }
    }

    /** The assignments that fill in a node. */
    static method Fill(ica: Node, str: string, wave: array<char>, samples: nat)
      requires 2 * samples <= wave.Length
      modifies ica`count, ica`wave, ica`samples, ica`str
      ensures ica.Holds(Entry(str, samples, wave[..2 * samples], 1)) && fresh(ica.wave)
    {
      ica.count := 1;
      ica.wave := Copy(wave, 2 * samples);
      ica.samples := samples;
      ica.str := str;
    }

    lemma Others(k: nat)
      requires Layout() && k < IVONA_CACHE_SIZE
      ensures |icas| == IVONA_CACHE_SIZE && head !in icas && tail !in icas && icas[k] in Nodes()
      ensures forall i | k < i < |icas| :: icas[i] != icas[k]
    {}

    method FillLast(ica: Node, str: string, wave: array<char>, samples: nat)
      requires Linked() && ica in icas && head !in icas && tail !in icas && 2 * samples <= wave.Length
      requires ica !in ring && ica.succ == null && ica.pred == null
      requires Match(Chain(), entries) && head.samples == 0
      modifies this`ring, Nodes()
      ensures Linked() && Chain() == old(Chain()) + [ica] && head.samples == 0
      ensures Match(Chain(), entries + [Entry(str, samples, wave[..2 * samples], 1)])
      ensures forall n | n in icas && n != ica && n !in old(Chain()) :: n.succ == old(n.succ) && n.pred == old(n.pred)
      ensures forall w | w in Waves() :: w in old(Waves()) || fresh(w)
    {
      hide Linked, Match;
      RingMembers();
      ghost var chain := Chain();
      Fill(ica, str, wave, samples);
      ghost var waves := Waves();
      assert forall w | w in waves :: w in old(Waves()) || fresh(w);
      ToHead(ica, 0);
      assert Waves() == waves;
      MatchAppend(chain, entries, ica, Entry(str, samples, wave[..2 * samples], 1));
    }

    /** A node not yet used is filled and put at the end. */
    method Add(str: string, wave: array<char>, samples: nat)
      requires Valid() && 2 * samples <= wave.Length && cacheCount < IVONA_CACHE_SIZE
      modifies this, Nodes()
      ensures Valid() && entries == old(entries) + [Entry(str, samples, wave[..2 * samples], 1)]
      ensures forall w | w in Waves() :: w in old(Waves()) || fresh(w)
    {
      hide Linked, Match, Layout, Waves;
      RingMembers();
      Others(cacheCount);
      var ica := icas[cacheCount];
      cacheCount := cacheCount + 1;
      FillLast(ica, str, wave, samples);
      RingMembers();
      entries := entries + [Entry(str, samples, wave[..2 * samples], 1)];
    }

    /** The node at a place in the chain is filled anew. */
    method Replace(ica: Node, ghost at: nat, str: string, wave: array<char>, samples: nat)
      requires Valid() && 2 * samples <= wave.Length && at < |entries| && ica == ring[at + 1]
      modifies this`entries, ica`count, ica`wave, ica`samples, ica`str
      ensures Valid() && entries == old(entries)[at := Entry(str, samples, wave[..2 * samples], 1)]
      ensures forall w | w in Waves() :: w in old(Waves()) || fresh(w)
    {
      hide Layout, Used, Linked;
      ChainPlace(at);
      Fill(ica, str, wave, samples);
      entries := entries[at := Entry(str, samples, wave[..2 * samples], 1)];
    }

    /** ivona_store_wave_in_cache. */
    method StoreWave(str: string, wave: array<char>, samples: nat)
      requires Valid() && 2 * samples <= wave.Length
      modifies this, Nodes()
      ensures Valid() && entries == Stored(old(entries), str, wave[..2 * samples], samples)
      ensures forall w | w in Waves() :: w in old(Waves()) || fresh(w)
    {
      hide Valid, FindMin, Decay, Moved;
      if |str| > IVONA_CACHE_MAX_STRLEN {
        return;
      }
      Size();
      if cacheCount < IVONA_CACHE_SIZE {
        Add(str, wave, samples);
      } else {
        Evict(str, wave, samples);
      }
    }

    /** In a full cache, the node of the entry least used takes the new one. */
    method Evict(str: string, wave: array<char>, samples: nat)
      requires Valid() && 2 * samples <= wave.Length
      modifies this, Nodes()
      ensures Valid() && (forall w | w in Waves() :: w in old(Waves()) || fresh(w))
      ensures entries == match FindMin(old(entries), 0, INT_MAX, None)
                         case None => old(entries)
                         case Some(i) => Touched(Decay(old(entries), 0), i, Entry(str, samples, wave[..2 * samples], 1))
    {
      hide Valid, FindMin, Decay, Moved, Waves;
      var ica, k := FindMinCount();
      if ica != null {
        Walk(k.value);
        assert Waves() == old(Waves());
        Replace(ica, k.value, str, wave, samples);
        ghost var waves := Waves();
        assert forall w | w in waves :: w in old(Waves()) || fresh(w);
        MoveToHead(ica, k.value);
        assert Waves() == waves;
      }
    }

    lemma Size()
      requires Valid()
      ensures |entries| == cacheCount <= IVONA_CACHE_SIZE
    {
      hide Linked, Match;
      Walk(0);
    }

    method CopyWave(ica: Node, ghost at: nat) returns (wave: array<char>, samples: nat)
      requires Valid() && at < |entries| && ica == ring[at + 1]
      ensures Valid() && Waves() == old(Waves())
      ensures fresh(wave) && wave[..] == entries[at].wave && samples == entries[at].samples
    {
      hide Layout, Linked, Used;
      ChainPlace(at);
      wave := Copy(ica.wave, ica.samples * 2);
      samples := ica.samples;
    }

    /** The entry that was looked up is copied and becomes the most recently used. */
    method Hit(ica: Node, ghost at: nat) returns (wave: array<char>, samples: nat)
      requires Valid() && at < |entries| && ica == ring[at + 1]
      modifies this`ring, this`entries, Nodes()`succ, Nodes()`pred, Nodes()`count
      ensures Valid() && Waves() == old(Waves())
      ensures var e := old(entries)[at];
              entries == Touched(old(entries), at, e.(count := e.count + 1))
              && fresh(wave) && wave[..] == e.wave && samples == e.samples
    {
      hide Valid, Moved;
      Walk(at);
      wave, samples := CopyWave(ica, at);
      SetCount(ica, at, ica.count + 1);
      MoveToHead(ica, at);
    }

    /** ivona_get_wave_from_cache. */
    method GetWave(toSay: string) returns (wave: array?<char>, samples: nat)
      requires Valid()
      modifies this, Nodes()
      ensures Valid() && Waves() == old(Waves())
      ensures var (found, after) := Got(old(entries), toSay);
              entries == after
              && match found
                 case None => wave == null
                 case Some(e) => wave != null && fresh(wave) && wave[..] == e.wave && samples == e.samples
    {
      hide Valid, FindKey, Moved;
      wave, samples := null, 0;
      if |toSay| > IVONA_CACHE_MAX_STRLEN {
        return;
      }
      Walk(0);
      var ica := tail.succ;
      ghost var at := 0;
      while ica != null && ica.samples != 0
        invariant Valid() && at <= |entries| && |ring| == |entries| + 2 && ica == ring[at + 1]
        invariant entries == old(entries) && Waves() == old(Waves())
        invariant FindKey(entries, toSay, at) == FindKey(entries, toSay, 0)
        decreases |entries| - at
      {
        Walk(at);
        FindKeyStep(entries, toSay, at);
        if ica.str == toSay {
          wave, samples := Hit(ica, at);
          return;
        }
        ica := ica.succ;
        at := at + 1;
      }
      Walk(at);
      FindKeyStep(entries, toSay, at);
    }
  }
}
