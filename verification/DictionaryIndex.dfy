/** The index of the dumbtts dictionary (get_diction, findmat_dic and get_dict in
    src/libs/dumbtts/libdumbtts_dic.c): a tree over the first letters of the patterns. */
module DictionaryIndex {
  import opened CStrings
  import opened DictionaryWords

  datatype Pattern = Pattern(abbr: Text, res: Text)

  predicate IsNumeral(c: int) { '0' as int <= c <= '9' as int }

  // ---- the dictionary as a list

  /** Whether an entry of the file goes to the list of numbers, or else to the tree. */
  predicate GoesTo(e: Pattern, numbers: bool, ct: Ctype)
  {
    e.abbr != [] && IsNumeral(e.abbr[0]) == numbers && (!numbers ==> ct.isAlnum(e.abbr[0]))
  }

  /** Those entries of a file, the latest first. */
  function Loaded(entries: seq<Pattern>, numbers: bool, ct: Ctype): seq<Pattern>
  {
    if entries == [] then []
    else
      var n := |entries| - 1;
      (if GoesTo(entries[n], numbers, ct) then [entries[n]] else []) + Loaded(entries[..n], numbers, ct)
  }

  lemma {:induction false} LoadedMembers(entries: seq<Pattern>, numbers: bool, ct: Ctype)
    ensures forall e :: e in Loaded(entries, numbers, ct) <==> e in entries && GoesTo(e, numbers, ct)
  {
    hide GoesTo;
    if entries == [] {
    } else {
      var n := |entries| - 1;
      LoadedMembers(entries[..n], numbers, ct);
      assert entries == entries[..n] + [entries[n]];
    }
  }

  lemma LoadedStep(entries: seq<Pattern>, n: nat, numbers: bool, ct: Ctype)
    requires n < |entries|
    ensures Loaded(entries[..n + 1], numbers, ct) ==
            (if GoesTo(entries[n], numbers, ct) then [entries[n]] else []) + Loaded(entries[..n], numbers, ct)
  {
    assert entries[..n + 1][..n] == entries[..n];
  }

  /** The patterns whose letters at the head lead to this place, the latest first. */
  function StoredAt(stored: seq<Pattern>, path: seq<nat>, ct: Ctype): seq<Pattern>
  {
    if stored == [] then []
    else (if Path(stored[0].abbr, ct) == path then [stored[0]] else []) + StoredAt(stored[1..], path, ct)
  }

  /** The first pattern of a list that matches, and the text behind the match. */
  function FirstMatch(ps: seq<Pattern>, wc: int, str: Text, ct: Ctype): Option<(Pattern, Text)>
    requires forall p | p in ps :: Begins(p.abbr)
  {
    if ps == [] then None
    else match Compare(ps[0].abbr, wc, str, ct)
         case Some(rest) => Some((ps[0], rest))
         case None => FirstMatch(ps[1..], wc, str, ct)
  }

  /** The way of a word whose first character is wc. */
  function WordPath(wc: int, str: Text, ct: Ctype): (path: seq<nat>)
    ensures path != [] && (ct.isAlnum(wc) ==> path == Path([wc] + str, ct))
  {
    assert ([wc] + str)[1..] == str;
    [Slot(wc, ct)] + Path(str, ct)
  }

  predicate Usable(stored: seq<Pattern>, ct: Ctype)
  {
    forall p | p in stored :: p.abbr != [] && ct.isAlnum(p.abbr[0]) && Begins(p.abbr)
  }

  lemma {:induction false} StoredAtMembers(stored: seq<Pattern>, path: seq<nat>, ct: Ctype)
    ensures forall p :: p in StoredAt(stored, path, ct) <==> p in stored && Path(p.abbr, ct) == path
  {
    hide Path;
    if stored == [] {
    } else {
      StoredAtMembers(stored[1..], path, ct);
      assert forall p :: p in stored <==> p == stored[0] || p in stored[1..];
    }
  }

  /** The lookup at the places path[..k], path[..k-1], ... up to the first letter. */
  function Lookup(stored: seq<Pattern>, path: seq<nat>, k: nat, wc: int, str: Text, ct: Ctype): Option<(Pattern, Text)>
    requires k <= |path| && Usable(stored, ct)
    decreases k
  {
    if k == 0 then None
    else
      StoredAtMembers(stored, path[..k], ct);
      match FirstMatch(StoredAt(stored, path[..k], ct), wc, str, ct)
      case Some(r) => Some(r)
      case None => Lookup(stored, path, k - 1, wc, str, ct)
  }

  lemma {:induction false} FirstMatchIff(ps: seq<Pattern>, wc: int, str: Text, ct: Ctype)
    requires forall p | p in ps :: Begins(p.abbr)
    ensures match FirstMatch(ps, wc, str, ct)
            case None => forall p | p in ps :: Compare(p.abbr, wc, str, ct).None?
            case Some((p, rest)) => p in ps && Compare(p.abbr, wc, str, ct) == Some(rest)
  {
    hide Compare;
    if ps == [] {
    } else {
      assert forall p :: p in ps <==> p == ps[0] || p in ps[1..];
      FirstMatchIff(ps[1..], wc, str, ct);
    }
  }

  /** The lookup finds a matching pattern with the longest head of letters and digits. */
  lemma {:induction false} LookupFinds(stored: seq<Pattern>, path: seq<nat>, k: nat, wc: int, str: Text, ct: Ctype)
    requires k <= |path| && Usable(stored, ct)
    ensures match Lookup(stored, path, k, wc, str, ct)
            case None => forall p | p in stored && 0 < |Path(p.abbr, ct)| <= k && Path(p.abbr, ct) <= path ::
                           Compare(p.abbr, wc, str, ct).None?
            case Some((p, rest)) =>
              p in stored && Compare(p.abbr, wc, str, ct) == Some(rest) && |Path(p.abbr, ct)| <= k
              && forall q | q in stored && |Path(p.abbr, ct)| < |Path(q.abbr, ct)| <= k && Path(q.abbr, ct) <= path ::
                   Compare(q.abbr, wc, str, ct).None?
    decreases k
  {
    hide Compare, Path, FirstMatch, StoredAt;
    if k == 0 {
    } else {
      StoredAtMembers(stored, path[..k], ct);
      var here := StoredAt(stored, path[..k], ct);
      FirstMatchIff(here, wc, str, ct);
      LookupFinds(stored, path, k - 1, wc, str, ct);
      assert forall p | p in stored && |Path(p.abbr, ct)| == k && Path(p.abbr, ct) <= path ::
               Path(p.abbr, ct) == path[..k];
      assert forall p | p in stored && |Path(p.abbr, ct)| == k && Path(p.abbr, ct) <= path :: p in here;
    }
  }

  /** The tree agrees with a linear scan: a word is found exactly if some stored pattern
      matches it. */
  lemma FoundIff(stored: seq<Pattern>, wc: int, str: Text, ct: Ctype)
    requires Sane(ct) && Usable(stored, ct)
    ensures var path := WordPath(wc, str, ct);
            Lookup(stored, path, |path|, wc, str, ct).Some? <==>
            exists p :: p in stored && Compare(p.abbr, wc, str, ct).Some?
  {
    hide Compare, Path, Lookup, Slot;
    var path := WordPath(wc, str, ct);
    LookupFinds(stored, path, |path|, wc, str, ct);
    forall p | p in stored && Compare(p.abbr, wc, str, ct).Some?
      ensures 0 < |Path(p.abbr, ct)| <= |path| && Path(p.abbr, ct) <= path
    {
      ComparedPath(p.abbr, wc, str, ct);
      PathNotEmpty(p.abbr, ct);
    }
  }

  lemma PathNotEmpty(s: Text, ct: Ctype)
    requires s != [] && ct.isAlnum(s[0])
    ensures Path(s, ct) != []
  {}

  // ---- the tree on the heap

  class Letter {
    var nlet: seq<Letter?>
    var parent: Letter?
    var patterns: seq<Pattern>

    constructor (parent: Letter?)
      ensures this.parent == parent && patterns == [] && nlet == seq(32, _ => null)
    {
      nlet, this.parent, patterns := seq(32, _ => null), parent, [];
    }
  }

  /** With a place, those on the way to it are there; different places have different nodes. */
  ghost predicate Places(nodes: map<seq<nat>, Letter>)
  {
    (forall p | p in nodes :: p != [] && (|p| > 1 ==> p[..|p| - 1] in nodes))
    && forall p, q | p in nodes && q in nodes && p != q :: nodes[p] != nodes[q]
  }

  /** The links of a place lead to the nodes one letter further. */
  ghost predicate LinksOk(links: seq<Letter?>, p: seq<nat>, nodes: map<seq<nat>, Letter>)
  {
    |links| == 32 && forall n: nat | n < 32 :: links[n] == if p + [n] in nodes then nodes[p + [n]] else null
  }

  ghost predicate ChildrenOk(dics: seq<Letter?>, links: map<seq<nat>, seq<Letter?>>, nodes: map<seq<nat>, Letter>)
  {
    LinksOk(dics, [], nodes) && forall p | p in nodes :: p in links && LinksOk(links[p], p, nodes)
  }

  /** Each node but those of the first letters leads back to the one a letter shorter. */
  ghost predicate ParentsOk(parents: map<seq<nat>, Letter?>, nodes: map<seq<nat>, Letter>)
  {
    forall p | p in nodes :: p in parents
                             && if |p| > 1 then p[..|p| - 1] in nodes && parents[p] == nodes[p[..|p| - 1]]
                                else parents[p] == null
  }

  /** Each node holds the patterns stored for its place, and all are held. */
  ghost predicate Held(lists: map<seq<nat>, seq<Pattern>>, stored: seq<Pattern>, ct: Ctype)
  {
    (forall p | p in lists :: lists[p] == StoredAt(stored, p, ct))
    && forall s | s in stored :: Path(s.abbr, ct) in lists
  }

  lemma LinksMore(links: seq<Letter?>, q: seq<nat>, nodes: map<seq<nat>, Letter>, p: seq<nat>, n: nat, child: Letter)
    requires LinksOk(links, q, nodes) && n < 32 && p + [n] !in nodes
    ensures LinksOk(if q == p then links[n := child] else links, q, nodes[p + [n] := child])
  {
    forall m: nat | m < 32 && q + [m] == p + [n]
      ensures q == p && m == n
    {
      assert q == (q + [m])[..|q + [m]| - 1] && p == (p + [n])[..|p + [n]| - 1];
      assert m == (q + [m])[|q|] && n == (p + [n])[|p|];
    }
  }

  /** A place that is not there has no children. */
  lemma LinksNone(q: seq<nat>, nodes: map<seq<nat>, Letter>, child: Letter)
    requires Places(nodes) && q != [] && q !in nodes
    ensures LinksOk(seq(32, _ => null), q, nodes[q := child])
  {
    forall m: nat | m < 32 ensures q + [m] !in nodes[q := child] {
      assert (q + [m])[..|q + [m]| - 1] == q;
    }
  }

  lemma PlacesMore(nodes: map<seq<nat>, Letter>, p: seq<nat>, n: nat, child: Letter)
    requires Places(nodes) && (p == [] || p in nodes) && p + [n] !in nodes
    requires forall q | q in nodes :: nodes[q] != child
    ensures Places(nodes[p + [n] := child])
  {
    assert (p + [n])[..|p|] == p;
  }

  lemma ChildrenMore(dics: seq<Letter?>, links: map<seq<nat>, seq<Letter?>>, nodes: map<seq<nat>, Letter>,
                     p: seq<nat>, n: nat, child: Letter)
    requires Places(nodes) && ChildrenOk(dics, links, nodes) && n < 32 && p + [n] !in nodes && (p == [] || p in nodes)
    ensures p in nodes ==> p in links && |links[p]| == 32
    ensures |dics| == 32
    ensures ChildrenOk(if p == [] then dics[n := child] else dics,
                       (if p == [] then links else links[p := links[p][n := child]])[p + [n] := seq(32, _ => null)],
                       nodes[p + [n] := child])
  {
    hide Places;
    LinksNone(p + [n], nodes, child);
    LinksMore(dics, [], nodes, p, n, child);
    forall q | q in nodes
      ensures LinksOk(if q == p then links[q][n := child] else links[q], q, nodes[p + [n] := child])
    {
      LinksMore(links[q], q, nodes, p, n, child);
    }
    RootHasNoPlace(nodes);
  }

  lemma RootHasNoPlace(nodes: map<seq<nat>, Letter>)
    requires Places(nodes)
    ensures [] !in nodes
  {}

  lemma ParentsMore(parents: map<seq<nat>, Letter?>, nodes: map<seq<nat>, Letter>, p: seq<nat>, n: nat, child: Letter,
                    dl: Letter?)
    requires ParentsOk(parents, nodes) && p + [n] !in nodes
             && (if p == [] then dl == null else p in nodes && dl == nodes[p])
    ensures ParentsOk(parents[p + [n] := dl], nodes[p + [n] := child])
  {
    assert (p + [n])[..|p|] == p;
  }

  lemma {:induction false} NothingStored(stored: seq<Pattern>, p: seq<nat>, ct: Ctype)
    requires forall s | s in stored :: Path(s.abbr, ct) != p
    ensures StoredAt(stored, p, ct) == []
  {
    hide Path;
    if stored == [] {
    } else {
      assert stored[0] in stored && forall s | s in stored[1..] :: s in stored;
      NothingStored(stored[1..], p, ct);
    }
  }

  lemma HeldMore(lists: map<seq<nat>, seq<Pattern>>, stored: seq<Pattern>, ct: Ctype, q: seq<nat>)
    requires Held(lists, stored, ct) && q !in lists
    ensures Held(lists[q := []], stored, ct)
  {
    hide Path, StoredAt;
    NothingStored(stored, q, ct);
  }

  lemma HeldPush(lists: map<seq<nat>, seq<Pattern>>, stored: seq<Pattern>, ct: Ctype, p: seq<nat>, pattern: Pattern)
    requires Held(lists, stored, ct) && p in lists && Path(pattern.abbr, ct) == p
    ensures Held(lists[p := [pattern] + lists[p]], [pattern] + stored, ct)
  {
    hide Path;
    assert ([pattern] + stored)[1..] == stored;
  }

  /** Where a link is missing, the way goes no deeper. */
  lemma NoDeeper(nodes: map<seq<nat>, Letter>, p: seq<nat>, n: nat, path: seq<nat>)
    requires Places(nodes) && p + [n] <= path && p + [n] !in nodes
    ensures forall k | |p| < k <= |path| :: path[..k] !in nodes
  {
    forall k | |p| < k <= |path| ensures path[..k] !in nodes {
      NotThere(nodes, path, |p| + 1, k) by { assert path[..|p| + 1] == p + [n]; }
    }
  }

  lemma {:induction false} NotThere(nodes: map<seq<nat>, Letter>, path: seq<nat>, j: nat, k: nat)
    requires Places(nodes) && 0 < j <= k <= |path| && path[..j] !in nodes
    ensures path[..k] !in nodes
    decreases k
  {
    if k == j {
    } else {
      NotThere(nodes, path, j, k - 1);
      assert path[..k][..k - 1] == path[..k - 1];
    }
  }

  /** Without a node for a place, no pattern is stored there. */
  lemma {:induction false} LookupSkips(lists: map<seq<nat>, seq<Pattern>>, stored: seq<Pattern>, path: seq<nat>,
                                       j: nat, k: nat, wc: int, str: Text, ct: Ctype)
    requires Held(lists, stored, ct) && Usable(stored, ct) && j <= k <= |path|
    requires forall i | j < i <= k :: path[..i] !in lists
    ensures Lookup(stored, path, k, wc, str, ct) == Lookup(stored, path, j, wc, str, ct)
    decreases k
  {
    hide Path, Compare, StoredAt;
    if k == j {
    } else {
      NothingStored(stored, path[..k], ct);
      LookupSkips(lists, stored, path, j, k - 1, wc, str, ct);
    }
  }

  lemma LookupStep(lists: map<seq<nat>, seq<Pattern>>, stored: seq<Pattern>, path: seq<nat>, p: seq<nat>, wc: int,
                   str: Text, ct: Ctype)
    requires Held(lists, stored, ct) && Usable(stored, ct) && p in lists && p != [] && p <= path
    ensures forall s | s in lists[p] :: Begins(s.abbr)
    ensures Lookup(stored, path, |p|, wc, str, ct) ==
            match FirstMatch(lists[p], wc, str, ct)
            case Some(r) => Some(r)
            case None => Lookup(stored, path, |p| - 1, wc, str, ct)
  {
    hide Path, FirstMatch, StoredAt;
    assert path[..|p|] == p;
    StoredAtMembers(stored, p, ct);
  }

  lemma LookupZero(stored: seq<Pattern>, path: seq<nat>, wc: int, str: Text, ct: Ctype)
    requires Usable(stored, ct)
    ensures Lookup(stored, path, 0, wc, str, ct) == None
  {}

  lemma ParentsStep(parents: map<seq<nat>, Letter?>, nodes: map<seq<nat>, Letter>, p: seq<nat>)
    requires ParentsOk(parents, nodes) && p in nodes && p != []
    ensures p in parents
    ensures if |p| == 1 then parents[p] == null && p[..|p| - 1] == []
            else p[..|p| - 1] in nodes && parents[p] == nodes[p[..|p| - 1]]
  {}

  lemma PathStep(c: Text, p: seq<nat>, ct: Ctype)
    ensures c != [] && ct.isAlnum(c[0]) ==> p + Path(c, ct) == p + [Slot(c[0], ct)] + Path(c[1..], ct)
    ensures !(c != [] && ct.isAlnum(c[0])) ==> p + Path(c, ct) == p
    ensures [] + Path(c, ct) == Path(c, ct)
  {
    hide Slot;
    if c != [] && ct.isAlnum(c[0]) {
      assert p + ([Slot(c[0], ct)] + Path(c[1..], ct)) == p + [Slot(c[0], ct)] + Path(c[1..], ct);
    }
  }

  lemma LinksAt(dics: seq<Letter?>, links: map<seq<nat>, seq<Letter?>>, nodes: map<seq<nat>, Letter>, p: seq<nat>,
                n: nat)
    requires ChildrenOk(dics, links, nodes) && (p == [] || p in nodes) && n < 32
    ensures p != [] ==> p in links
    ensures var l := if p == [] then dics else links[p];
            |l| == 32 && l[n] == if p + [n] in nodes then nodes[p + [n]] else null
  {}

  lemma SameLetter(nodes: map<seq<nat>, Letter>, p: seq<nat>)
    requires Places(nodes) && p in nodes
    ensures forall q | q in nodes && q != p :: nodes[q] != nodes[p]
  {}

  class Dictionary {
    const ct: Ctype
    var dics: seq<Letter?>
    var dic: seq<Pattern>                      // patterns that begin with a digit
    ghost var nodes: map<seq<nat>, Letter>     // the nodes by their places
    ghost var stored: seq<Pattern>             // the patterns in the tree, the latest first

    ghost function Letters(): set<Letter>
      reads this`nodes
    {
      set p | p in nodes :: nodes[p]
    }

    ghost function Links(): map<seq<nat>, seq<Letter?>>
      reads this`nodes, Letters()`nlet
    {
      map p | p in nodes :: nodes[p].nlet
    }

    ghost function Parents(): map<seq<nat>, Letter?>
      reads this`nodes, Letters()`parent
    {
      map p | p in nodes :: nodes[p].parent
    }

    ghost function Lists(): map<seq<nat>, seq<Pattern>>
      reads this`nodes, Letters()`patterns
    {
      map p | p in nodes :: nodes[p].patterns
    }

    ghost predicate Linked()
      reads this`nodes, this`dics, Letters()`nlet, Letters()`parent
    {
      Places(nodes) && ChildrenOk(dics, Links(), nodes) && ParentsOk(Parents(), nodes)
    }

    ghost predicate Holding()
      reads this`nodes, this`stored, Letters()`patterns
    {
      Held(Lists(), stored, ct)
    }

    ghost predicate Valid()
      reads this, Letters()
    {
      Linked() && Holding() && Usable(stored, ct) && forall p | p in dic :: Begins(p.abbr)
    }

    constructor (ct: Ctype)
      ensures Valid() && stored == [] && dic == [] && this.ct == ct && fresh(Letters())
    {
      this.ct := ct;
      dics := seq(32, _ => null);
      dic, nodes, stored := [], map[], [];
    }

    /** The letter at slot n under the place p, made if there is none; dl is the node of p,
        or null for the root. */
    method LetterAt(dl: Letter?, ghost p: seq<nat>, n: nat) returns (child: Letter)
      requires Linked() && Holding() && n < 32
      requires if p == [] then dl == null else p in nodes && dl == nodes[p]
      modifies this`dics, this`nodes, Letters()`nlet
      ensures Linked() && Holding()
      ensures p + [n] in nodes && child == nodes[p + [n]]
      ensures forall l | l in Letters() :: l in old(Letters()) || fresh(l)
    {
      hide Places, ChildrenOk, ParentsOk, Held;
      LinksAt(dics, Links(), nodes, p, n);
      var dc := if dl == null then dics else dl.nlet;
      if dc[n] != null {
        return dc[n];
      }
      child := new Letter(dl);
      NewLetter(dl, p, n, child);
    }

    /** A new node is put into its place. */
    method NewLetter(dl: Letter?, ghost p: seq<nat>, n: nat, child: Letter)
      requires Linked() && Holding() && n < 32 && p + [n] !in nodes
      requires if p == [] then dl == null else p in nodes && dl == nodes[p]
      requires child !in Letters() && child.parent == dl && child.patterns == [] && child.nlet == seq(32, _ => null)
      modifies this`dics, this`nodes, Letters()`nlet
      ensures Linked() && Holding() && nodes == old(nodes)[p + [n] := child]
    {
      hide Places, ChildrenOk, ParentsOk, Held;
      ghost var q := p + [n];
      assert forall r | r in nodes :: nodes[r] in Letters();
      PlacesMore(nodes, p, n, child);
      ChildrenMore(dics, Links(), nodes, p, n, child);
      ParentsMore(Parents(), nodes, p, n, child, dl);
      HeldMore(Lists(), stored, ct, q);
      SetLink(dl, p, n, child);
      Register(q, child);
    }

    method SetLink(dl: Letter?, ghost p: seq<nat>, n: nat, child: Letter)
      requires Places(nodes) && |dics| == 32 && n < 32
      requires if p == [] then dl == null else p in nodes && dl == nodes[p] && |dl.nlet| == 32
      modifies this`dics, Letters()`nlet
      ensures dics == if p == [] then old(dics)[n := child] else old(dics)
      ensures Links() == if p == [] then old(Links()) else old(Links())[p := old(Links()[p])[n := child]]
    {
      if dl == null {
        dics := dics[n := child];
      } else {
        hide Places;
        SameLetter(nodes, p);
        assert dl in Letters();
        dl.nlet := dl.nlet[n := child];
      }
    }

    ghost method Register(q: seq<nat>, child: Letter)
      requires q !in nodes
      modifies this`nodes
      ensures nodes == old(nodes)[q := child]
      ensures Links() == old(Links())[q := child.nlet]
      ensures Parents() == old(Parents())[q := child.parent]
      ensures Lists() == old(Lists())[q := child.patterns]
    {
      nodes := nodes[q := child];
    }

    lemma OwnLetter(p: seq<nat>)
      requires Linked() && p in nodes
      ensures p in Lists() && forall q | q in nodes && q != p :: nodes[q] != nodes[p]
    {
      SameLetter(nodes, p);
    }

    method Store(dl: Letter, ghost p: seq<nat>, pattern: Pattern)
      requires Linked() && Holding() && Usable(stored, ct) && p in nodes && dl == nodes[p]
      requires Path(pattern.abbr, ct) == p && pattern.abbr != [] && ct.isAlnum(pattern.abbr[0]) && Begins(pattern.abbr)
      modifies this`stored, dl`patterns
      ensures Linked() && Holding() && Usable(stored, ct) && stored == [pattern] + old(stored)
    {
      hide Places, ChildrenOk, ParentsOk, Links, Parents, Lists, Held, Path;
      ghost var lists := Lists();
      OwnLetter(p);
      HeldPush(lists, stored, ct, p, pattern);
      Push(dl, p, pattern);
      stored := [pattern] + stored;
    }

    method Push(dl: Letter, ghost p: seq<nat>, pattern: Pattern)
      requires p in nodes && dl == nodes[p] && forall q | q in nodes && q != p :: nodes[q] != nodes[p]
      modifies dl`patterns
      ensures Lists() == old(Lists())[p := [pattern] + old(Lists())[p]]
      ensures Links() == old(Links()) && Parents() == old(Parents())
    {
      dl.patterns := [pattern] + dl.patterns;
    }

    /** get_diction: the pattern is put at the end of the way of its first letters. */
    method GetDiction(str: Text, repl: Text)
      requires Valid() && Sane(ct)
      modifies this`dics, this`nodes, this`stored, Letters()
      ensures Valid()
      ensures stored == if str != [] && ct.isAlnum(str[0]) then [Pattern(str, repl)] + old(stored) else old(stored)
      ensures forall l | l in Letters() :: l in old(Letters()) || fresh(l)
    {
      hide Linked, Holding, Slot, Path;
      var c, dl: Letter? := str, null;
      ghost var p: seq<nat> := [];
      PathStep(str, p, ct);
      while c != [] && ct.isAlnum(c[0])
        invariant Linked() && Holding() && stored == old(stored)
        invariant if p == [] then dl == null && c == str else p in nodes && dl == nodes[p]
        invariant p + Path(c, ct) == Path(str, ct)
        invariant str != [] && ct.isAlnum(str[0]) ==> c == str || p != []
        invariant p != [] ==> str != [] && ct.isAlnum(str[0])
        invariant forall l | l in Letters() :: l in old(Letters()) || fresh(l)
        decreases |c|
      {
        var litera := c[0];
        PathStep(c, p, ct);
        ghost var n := Slot(litera, ct);
        dl := LetterAt(dl, p, Slot(litera, ct));
        p := p + [n];
        c := c[1..];
      }
      PathStep(c, p, ct);
      if dl == null {
        return;
      }
      Store(dl, p, Pattern(str, repl));
    }

    /** The entries of a dictionary file (dumbtts_LoadDictionary): patterns that begin with a
        digit go to a list of their own. */
    method LoadDictionary(entries: seq<Pattern>)
      requires Valid() && Sane(ct) && stored == dic == [] && forall e | e in entries :: e.abbr != []
      modifies this, Letters()
      ensures Valid() && dic == Loaded(entries, true, ct) && stored == Loaded(entries, false, ct)
    {
      hide Linked, Holding, Sane, Loaded;
      LoadedNone(ct);
      var n := 0;
      while n < |entries|
        invariant n <= |entries| && Valid()
        invariant dic == Loaded(entries[..n], true, ct) && stored == Loaded(entries[..n], false, ct)
        invariant forall l | l in Letters() :: l in old(Letters()) || fresh(l)
      {
        LoadedStep(entries, n, true, ct);
        LoadedStep(entries, n, false, ct);
        var line, c := entries[n].abbr, entries[n].res;
        if IsNumeral(line[0]) {
          dic := [Pattern(line, c)] + dic;
        } else {
          GetDiction(line, c);
        }
        n := n + 1;
      }
      assert entries[..n] == entries;
    }

    /** findmat_dic: the deepest node on the way of a word; p is its place. */
    method FindMatDic(wc: int, text: Text) returns (dl: Letter?, ghost p: seq<nat>)
      requires Linked()
      ensures if p == [] then dl == null else p in nodes && dl == nodes[p]
      ensures p <= WordPath(wc, text, ct)
      ensures forall k | |p| < k <= |WordPath(wc, text, ct)| :: WordPath(wc, text, ct)[..k] !in nodes
    {
      hide Places, ChildrenOk, ParentsOk, Slot, Path;
      ghost var path := WordPath(wc, text, ct);
      p := [];
      LinksAt(dics, Links(), nodes, p, Slot(wc, ct));
      if dics[Slot(wc, ct)] == null {
        NoDeeper(nodes, [], Slot(wc, ct), path);
        return null, p;
      }
      dl, p := dics[Slot(wc, ct)], [Slot(wc, ct)];
      assert [] + [Slot(wc, ct)] == p;
      var str := text;
      while true
        invariant Linked() && p != [] && p in nodes && dl == nodes[p] && p + Path(str, ct) == path
        decreases |str|
      {
        PathStep(str, p, ct);
        if str == [] || !ct.isAlnum(str[0]) {
          return;
        }
        var n := Slot(str[0], ct);
        str := str[1..];
        LinksAt(dics, Links(), nodes, p, n);
        if dl.nlet[n] == null {
          NoDeeper(nodes, p, n, path);
          return;
        }
        dl := dl.nlet[n];
        p := p + [n];
      }
    }

    /** The loop over the patterns of one list. */
    method FirstOf(patterns: seq<Pattern>, wc: int, str: Text) returns (r: Option<(Pattern, Text)>)
      requires forall p | p in patterns :: Begins(p.abbr)
      ensures r == FirstMatch(patterns, wc, str, ct)
    {
      var da := patterns;
      while da != []
        invariant forall p | p in da :: Begins(p.abbr)
        invariant FirstMatch(da, wc, str, ct) == FirstMatch(patterns, wc, str, ct)
        decreases |da|
      {
        var c := DicCompareWord(da[0].abbr, wc, str, ct);
        if c.Some? {
          return Some((da[0], c.value));
        }
        da := da[1..];
      }
      return None;
    }

    /** get_dict: the pattern found, and the text behind the match.  A word is found exactly
        if a pattern of its list matches it. */
    method GetDict(str: Text, wc: int) returns (r: Option<(Pattern, Text)>)
      requires Valid()
      ensures r == if IsNumeral(wc) then FirstMatch(dic, wc, str, ct)
                   else var path := WordPath(wc, str, ct); Lookup(stored, path, |path|, wc, str, ct)
      ensures Sane(ct) ==>
                (r.Some? <==>
                 exists p :: p in (if IsNumeral(wc) then dic else stored) && Compare(p.abbr, wc, str, ct).Some?)
    {
      hide Compare, Sane;
      r := Search(str, wc);
      if IsNumeral(wc) {
        FirstMatchIff(dic, wc, str, ct);
      } else if Sane(ct) {
        FoundIff(stored, wc, str, ct);
      }
    }

    method Search(str: Text, wc: int) returns (r: Option<(Pattern, Text)>)
      requires Valid()
      ensures r == if IsNumeral(wc) then FirstMatch(dic, wc, str, ct)
                   else var path := WordPath(wc, str, ct); Lookup(stored, path, |path|, wc, str, ct)
    {
      hide Places, ChildrenOk, ParentsOk, Path, WordPath, Lookup, FirstMatch, StoredAt, Begins;
      if IsNumeral(wc) {
        r := FirstOf(dic, wc, str);
        return;
      }
      ghost var path := WordPath(wc, str, ct);
      ghost var lists, parents := Lists(), Parents();
      var dl, p := FindMatDic(wc, str);
      LookupSkips(lists, stored, path, |p|, |path|, wc, str, ct);
      while dl != null
        invariant if p == [] then dl == null else p in nodes && dl == nodes[p]
        invariant p <= path && Lookup(stored, path, |path|, wc, str, ct) == Lookup(stored, path, |p|, wc, str, ct)
        decreases |p|
      {
        LookupStep(lists, stored, path, p, wc, str, ct);
        ParentsStep(parents, nodes, p);
        assert dl.patterns == lists[p] && dl.parent == parents[p];
        r := FirstOf(dl.patterns, wc, str);
        if r.Some? {
          return;
        }
        dl, p := dl.parent, p[..|p| - 1];
      }
      LookupZero(stored, path, wc, str, ct);
      return None;
    }
  }

  lemma LoadedNone(ct: Ctype)
    ensures Loaded([], true, ct) == Loaded([], false, ct) == []
  {}

  // ---- which entry of the file is found

  /** The entry at i matches the text and belongs to its kind. */
  ghost predicate Fits(e: Pattern, wc: int, str: Text, ct: Ctype)
  {
    e.abbr != [] && ('0' as int <= e.abbr[0] <= '9' as int <==> '0' as int <= wc <= '9' as int)
    && (ct.isAlnum(e.abbr[0]) || '0' as int <= wc <= '9' as int)
    && Begins(e.abbr) && Compare(e.abbr, wc, str, ct).Some?
  }

  /** The number of letters and digits at the head of a pattern. */
  function HeadLength(s: Text, ct: Ctype): nat
  {
    if s == [] || !ct.isAlnum(s[0]) then 0 else 1 + HeadLength(s[1..], ct)
  }

  /** The entry at i is found: of those that fit, none has a longer head of letters and
      digits, and none with the same head comes later in the file; for numbers, none comes
      later at all. */
  ghost predicate Chosen(entries: seq<Pattern>, i: nat, wc: int, str: Text, ct: Ctype)
  {
    i < |entries| && Fits(entries[i], wc, str, ct)
    && forall j | 0 <= j < |entries| && Fits(entries[j], wc, str, ct) ::
         if '0' as int <= wc <= '9' as int then j <= i
         else HeadLength(entries[j].abbr, ct) < HeadLength(entries[i].abbr, ct)
              || (HeadLength(entries[j].abbr, ct) == HeadLength(entries[i].abbr, ct) && j <= i)
  }

  lemma {:induction false} PathLength(s: Text, ct: Ctype)
    ensures |Path(s, ct)| == HeadLength(s, ct)
  {
    hide Slot;
    if s == [] || !ct.isAlnum(s[0]) {
    } else {
      PathLength(s[1..], ct);
    }
  }

  /** The entry at i is the last of those with this property that matches. */
  ghost predicate LastMatch(entries: seq<Pattern>, numbers: bool, path: Option<seq<nat>>, i: nat, wc: int, str: Text,
                            ct: Ctype)
  {
    i < |entries| && Candidate(entries[i], numbers, path, wc, str, ct)
    && forall j | i < j < |entries| :: !Candidate(entries[j], numbers, path, wc, str, ct)
  }

  ghost predicate Candidate(e: Pattern, numbers: bool, path: Option<seq<nat>>, wc: int, str: Text, ct: Ctype)
  {
    GoesTo(e, numbers, ct) && (path.Some? ==> Path(e.abbr, ct) == path.value)
    && Begins(e.abbr) && Compare(e.abbr, wc, str, ct).Some?
  }

  /** The patterns searched: all of a list, or those at a place. */
  function Searched(list: seq<Pattern>, path: Option<seq<nat>>, ct: Ctype): seq<Pattern>
  {
    if path.None? then list else StoredAt(list, path.value, ct)
  }

  lemma SearchedStep(e: Pattern, list: seq<Pattern>, path: Option<seq<nat>>, ct: Ctype)
    ensures Searched([e] + list, path, ct) ==
            (if path.None? || Path(e.abbr, ct) == path.value then [e] else []) + Searched(list, path, ct)
    ensures Searched([], path, ct) == []
  {
    hide Path;
    assert ([e] + list)[1..] == list && [] + list == list;
    assert path.Some? ==> [] + StoredAt(list, path.value, ct) == StoredAt(list, path.value, ct);
  }

  lemma FirstMatchStep(e: Pattern, ps: seq<Pattern>, wc: int, str: Text, ct: Ctype)
    requires Begins(e.abbr) && forall p | p in ps :: Begins(p.abbr)
    ensures FirstMatch([e] + ps, wc, str, ct) ==
            match Compare(e.abbr, wc, str, ct)
            case Some(rest) => Some((e, rest))
            case None => FirstMatch(ps, wc, str, ct)
    ensures forall p | p in [e] + ps :: Begins(p.abbr)
  {
    hide Compare;
    assert ([e] + ps)[1..] == ps;
  }

  lemma LastMatchLonger(entries: seq<Pattern>, numbers: bool, path: Option<seq<nat>>, wc: int, str: Text, ct: Ctype)
    requires entries != [] && !Candidate(entries[|entries| - 1], numbers, path, wc, str, ct)
    ensures forall i: nat :: LastMatch(entries[..|entries| - 1], numbers, path, i, wc, str, ct) <==>
                             LastMatch(entries, numbers, path, i, wc, str, ct)
  {
    hide Candidate;
    var n := |entries| - 1;
    forall i: nat
      ensures LastMatch(entries[..n], numbers, path, i, wc, str, ct) <==>
              LastMatch(entries, numbers, path, i, wc, str, ct)
    {
      assert forall j | 0 <= j < n :: entries[..n][j] == entries[j];
      if LastMatch(entries, numbers, path, i, wc, str, ct) {
        assert i != n;
        assert forall j | i < j < n :: entries[..n][j] == entries[j];
      }
    }
  }

  /** The lists hold the latest entries first, so the last entry that matches is found. */
  lemma {:induction false} LatestFirst(entries: seq<Pattern>, numbers: bool, path: Option<seq<nat>>, wc: int, str: Text,
                                       ct: Ctype)
    requires forall e | e in entries && GoesTo(e, numbers, ct) :: Begins(e.abbr)
    ensures var ps := Searched(Loaded(entries, numbers, ct), path, ct);
            (forall p | p in ps :: Begins(p.abbr))
            && match FirstMatch(ps, wc, str, ct)
               case None => forall i | 0 <= i < |entries| :: !Candidate(entries[i], numbers, path, wc, str, ct)
               case Some((p, rest)) =>
                 exists i :: 0 <= i < |entries| && LastMatch(entries, numbers, path, i, wc, str, ct) && entries[i] == p
                             && Begins(p.abbr) && Compare(p.abbr, wc, str, ct) == Some(rest)
    decreases |entries|
  {
    hide Compare, Path, Searched, GoesTo, Begins, LastMatch;
    if entries == [] {
      SearchedStep(Pattern([], []), [], path, ct);
    } else {
      var n := |entries| - 1;
      var e, before := entries[n], entries[..n];
      var list := Loaded(before, numbers, ct);
      assert forall x | x in before :: x in entries;
      LatestFirst(before, numbers, path, wc, str, ct);
      SearchedStep(e, list, path, ct);
      assert [] + list == list && [] + Searched(list, path, ct) == Searched(list, path, ct);
      if GoesTo(e, numbers, ct) && (path.None? || Path(e.abbr, ct) == path.value) {
        assert e in entries;
        FirstMatchStep(e, Searched(list, path, ct), wc, str, ct);
      }
      if Candidate(e, numbers, path, wc, str, ct) {
        LastIsLast(entries, numbers, path, wc, str, ct);
      } else {
        LastMatchLonger(entries, numbers, path, wc, str, ct);
        assert forall i | 0 <= i < n :: before[i] == entries[i];
      }
    }
  }

  lemma LastIsLast(entries: seq<Pattern>, numbers: bool, path: Option<seq<nat>>, wc: int, str: Text, ct: Ctype)
    requires entries != [] && Candidate(entries[|entries| - 1], numbers, path, wc, str, ct)
    ensures LastMatch(entries, numbers, path, |entries| - 1, wc, str, ct)
  {
    hide Candidate;
  }

  /** The tree is searched from the longest head of letters to the shortest. */
  lemma {:induction false} LookupLast(entries: seq<Pattern>, path: seq<nat>, k: nat, wc: int, str: Text, ct: Ctype)
    returns (i: nat, m: nat)
    requires k <= |path| && Usable(Loaded(entries, false, ct), ct)
    requires forall e | e in entries && GoesTo(e, false, ct) :: Begins(e.abbr)
    ensures match Lookup(Loaded(entries, false, ct), path, k, wc, str, ct)
            case None => m == 0
            case Some((p, rest)) =>
              0 < m <= k && LastMatch(entries, false, Some(path[..m]), i, wc, str, ct)
              && entries[i] == p && Compare(p.abbr, wc, str, ct) == Some(rest)
    ensures m <= k
    ensures forall j, l | 0 <= j < |entries| && m < l <= k ::
              !Candidate(entries[j], false, Some(path[..l]), wc, str, ct)
    decreases k
  {
    hide Compare, Path, FirstMatch, StoredAt, Loaded, LastMatch, Candidate, Usable, GoesTo;
    i, m := 0, 0;
    if k == 0 {
      LookupNone(Loaded(entries, false, ct), path, wc, str, ct);
    } else {
      var list, here := Loaded(entries, false, ct), Some(path[..k]);
      LatestFirst(entries, false, here, wc, str, ct);
      LookupOne(list, path, k, wc, str, ct);
      if FirstMatch(StoredAt(list, path[..k], ct), wc, str, ct).Some? {
        var p, rest := FirstMatch(StoredAt(list, path[..k], ct), wc, str, ct).value.0,
                       FirstMatch(StoredAt(list, path[..k], ct), wc, str, ct).value.1;
        i :| 0 <= i < |entries| && LastMatch(entries, false, here, i, wc, str, ct) && entries[i] == p
             && Begins(p.abbr) && Compare(p.abbr, wc, str, ct) == Some(rest);
        m := k;
      } else {
        i, m := LookupLast(entries, path, k - 1, wc, str, ct);
      }
    }
  }

  lemma LookupNone(stored: seq<Pattern>, path: seq<nat>, wc: int, str: Text, ct: Ctype)
    requires Usable(stored, ct)
    ensures Lookup(stored, path, 0, wc, str, ct) == None
  {}

  lemma LookupOne(stored: seq<Pattern>, path: seq<nat>, k: nat, wc: int, str: Text, ct: Ctype)
    requires 0 < k <= |path| && Usable(stored, ct)
    ensures Searched(stored, Some(path[..k]), ct) == StoredAt(stored, path[..k], ct)
    ensures forall p | p in StoredAt(stored, path[..k], ct) :: Begins(p.abbr)
    ensures Lookup(stored, path, k, wc, str, ct) ==
            match FirstMatch(StoredAt(stored, path[..k], ct), wc, str, ct)
            case Some(r) => Some(r)
            case None => Lookup(stored, path, k - 1, wc, str, ct)
  {
    hide FirstMatch, StoredAt, Path;
    StoredAtMembers(stored, path[..k], ct);
  }

  /** An entry for words that fits is a candidate at the place of its own letters. */
  lemma FitsAtPlace(e: Pattern, wc: int, str: Text, ct: Ctype)
    requires Sane(ct) && Fits(e, wc, str, ct) && !IsNumeral(wc)
    ensures var path, l := WordPath(wc, str, ct), HeadLength(e.abbr, ct);
            0 < l <= |path| && Candidate(e, false, Some(path[..l]), wc, str, ct)
  {
    hide Compare, Path, Slot;
    ComparedPath(e.abbr, wc, str, ct);
    PathNotEmpty(e.abbr, ct);
    PathLength(e.abbr, ct);
  }

  lemma WordChosen(entries: seq<Pattern>, i: nat, m: nat, wc: int, str: Text, ct: Ctype)
    requires Sane(ct) && !IsNumeral(wc)
    requires var path := WordPath(wc, str, ct);
             0 < m <= |path| && LastMatch(entries, false, Some(path[..m]), i, wc, str, ct)
             && forall j, l | 0 <= j < |entries| && m < l <= |path| ::
                  !Candidate(entries[j], false, Some(path[..l]), wc, str, ct)
    ensures Chosen(entries, i, wc, str, ct)
  {
    hide Compare, Path, WordPath, HeadLength, Begins;
    var path := WordPath(wc, str, ct);
    PathLength(entries[i].abbr, ct);
    forall j | 0 <= j < |entries| && Fits(entries[j], wc, str, ct)
      ensures HeadLength(entries[j].abbr, ct) < m || (HeadLength(entries[j].abbr, ct) == m && j <= i)
    {
      FitsAtPlace(entries[j], wc, str, ct);
    }
  }

  lemma NumberChosen(entries: seq<Pattern>, i: nat, wc: int, str: Text, ct: Ctype)
    requires IsNumeral(wc) && LastMatch(entries, true, None, i, wc, str, ct)
    ensures Chosen(entries, i, wc, str, ct)
  {
    hide Compare, Path, HeadLength, Begins;
    forall j | 0 <= j < |entries| && Fits(entries[j], wc, str, ct)
      ensures j <= i
    {
      assert Candidate(entries[j], true, None, wc, str, ct);
    }
  }

  /** What is found: nothing if no entry fits, and otherwise the chosen one. */
  ghost predicate Finds(entries: seq<Pattern>, wc: int, str: Text, ct: Ctype, r: Option<(Pattern, Text)>)
  {
    match r
    case None => forall e | e in entries :: !Fits(e, wc, str, ct)
    case Some((p, rest)) =>
      exists i :: 0 <= i < |entries| && Chosen(entries, i, wc, str, ct) && p == entries[i]
                  && Begins(p.abbr) && Compare(p.abbr, wc, str, ct) == Some(rest)
  }

  lemma NumberFound(entries: seq<Pattern>, wc: int, str: Text, ct: Ctype)
    requires Sane(ct) && IsNumeral(wc)
    ensures (forall p | p in Loaded(entries, true, ct) :: Begins(p.abbr))
            && Finds(entries, wc, str, ct, FirstMatch(Loaded(entries, true, ct), wc, str, ct))
  {
    hide Compare, FirstMatch, Loaded, LastMatch, Chosen, Path;
    assert forall e | e in entries && GoesTo(e, true, ct) :: Begins(e.abbr);
    LatestFirst(entries, true, None, wc, str, ct);
    var r := FirstMatch(Loaded(entries, true, ct), wc, str, ct);
    if r.Some? {
      var i :| 0 <= i < |entries| && LastMatch(entries, true, None, i, wc, str, ct) && entries[i] == r.value.0
               && Begins(r.value.0.abbr) && Compare(r.value.0.abbr, wc, str, ct) == Some(r.value.1);
      NumberChosen(entries, i, wc, str, ct);
      ChosenFits(entries, i, wc, str, ct);
    } else {
      forall e | e in entries ensures !Fits(e, wc, str, ct) {
        assert Fits(e, wc, str, ct) ==> Candidate(e, true, None, wc, str, ct);
      }
    }
  }

  lemma ChosenFits(entries: seq<Pattern>, i: nat, wc: int, str: Text, ct: Ctype)
    requires Chosen(entries, i, wc, str, ct)
    ensures Fits(entries[i], wc, str, ct)
  {}

  lemma LoadedUsable(entries: seq<Pattern>, ct: Ctype)
    requires Sane(ct)
    ensures Usable(Loaded(entries, false, ct), ct)
    ensures forall e | e in entries && GoesTo(e, false, ct) :: Begins(e.abbr)
  {
    LoadedMembers(entries, false, ct);
  }

  lemma WordFound(entries: seq<Pattern>, wc: int, str: Text, ct: Ctype)
    requires Sane(ct) && !IsNumeral(wc)
    ensures Usable(Loaded(entries, false, ct), ct)
            && var path := WordPath(wc, str, ct);
               Finds(entries, wc, str, ct, Lookup(Loaded(entries, false, ct), path, |path|, wc, str, ct))
  {
    hide Compare, Lookup, Loaded, LastMatch, Chosen, Path, WordPath, Sane, Candidate, Usable, Fits, GoesTo, HeadLength;
    LoadedUsable(entries, ct);
    var path := WordPath(wc, str, ct);
    var i, m := LookupLast(entries, path, |path|, wc, str, ct);
    var r := Lookup(Loaded(entries, false, ct), path, |path|, wc, str, ct);
    if r.Some? {
      WordChosen(entries, i, m, wc, str, ct);
      ChosenFits(entries, i, wc, str, ct);
      LastInside(entries, Some(path[..m]), i, wc, str, ct);
      FitsBegins(entries[i], wc, str, ct);
    } else {
      forall e | e in entries ensures !Fits(e, wc, str, ct) {
        var j :| 0 <= j < |entries| && entries[j] == e;
        if Fits(e, wc, str, ct) {
          FitsAtPlace(e, wc, str, ct);
        }
      }
    }
  }

  lemma FitsBegins(e: Pattern, wc: int, str: Text, ct: Ctype)
    requires Fits(e, wc, str, ct)
    ensures Begins(e.abbr)
  {}

  lemma LastInside(entries: seq<Pattern>, path: Option<seq<nat>>, i: nat, wc: int, str: Text, ct: Ctype)
    requires LastMatch(entries, false, path, i, wc, str, ct)
    ensures i < |entries|
  {}

  /** A dictionary file and its lookup: a word is found if and only if some entry of its kind
      matches it; and the entry found is the one with the longest head of letters, the last
      in the file of several, or the last one for a number. */
  method LookUp(entries: seq<Pattern>, wc: int, str: Text, ct: Ctype) returns (r: Option<(Pattern, Text)>)
    requires Sane(ct) && forall e | e in entries :: e.abbr != []
    ensures Finds(entries, wc, str, ct, r)
  {
    hide Compare, Lookup, FirstMatch, Loaded, Finds, WordPath, Sane;
    var dictionary := new Dictionary(ct);
    dictionary.LoadDictionary(entries);
    if IsNumeral(wc) {
      NumberFound(entries, wc, str, ct);
    } else {
      WordFound(entries, wc, str, ct);
    }
    r := dictionary.GetDict(str, wc);
  }
}
