/** The generated object tables and the two binary searches over them. */
module DictSearch {
  import opened Can
  import opened ObjDict
  import SdoCodec

  // ----- binary search -----

  /** bsearch over the elements from `l` up to `u`, given the comparator's results. */
  function Bsearch(cmp: nat -> int, l: nat, u: nat): Option<nat>
    requires l <= u
    decreases u - l
  {
    if l == u then None
    else
      var m := (l + u) / 2;
      if cmp(m) < 0 then Bsearch(cmp, l, m)
      else if cmp(m) > 0 then Bsearch(cmp, m + 1, u)
      else Some(m)
  }

  /** The comparator's results fall along the table. */
  ghost predicate Falling(cmp: nat -> int, n: nat)
  {
    forall i: nat, j: nat | i < j < n :: (cmp(i) <= 0 ==> cmp(j) <= 0) && (cmp(i) < 0 ==> cmp(j) < 0)
  }

  /** On a sorted table the search finds a match exactly if there is one. */
  lemma {:induction false} BsearchFinds(cmp: nat -> int, l: nat, u: nat, n: nat)
    requires l <= u <= n && Falling(cmp, n)
    ensures match Bsearch(cmp, l, u)
            case Some(i) => l <= i < u && cmp(i) == 0
            case None => forall i | l <= i < u :: cmp(i) != 0
    decreases u - l
  {
    if l < u {
      var m := (l + u) / 2;
      if cmp(m) < 0 {
        BsearchFinds(cmp, l, m, n);
      } else if cmp(m) > 0 {
        BsearchFinds(cmp, m + 1, u, n);
      }
    }
  }

  // ----- the index table -----

  /** The key of an entry: (index << 8) | subindex. */
  function Key(index: u16, subindex: u8): int { 0x100 * index + subindex }

  function KeyOf(o: Obj): int { Key(o.index, o.subindex) }

  /** dict_compar_index; the difference always fits in an int32_t. */
  function CompareIndex(key: int, o: Obj): (r: int)
    requires 0 <= key < 0x100_0000
    ensures -0x8000_0000 <= r < 0x8000_0000
  {
    key - KeyOf(o)
  }

  lemma KeysInjective(i: u16, s: u8, j: u16, t: u8)
    ensures 0 <= Key(i, s) < 0x100_0000
    ensures Key(i, s) == Key(j, t) <==> i == j && s == t
  {
  }

  /** Keys are ordered by index, and under one index by subindex; the comparator gives that order. */
  lemma KeyOrder(index: u16, subindex: u8, o: Obj)
    ensures 0 <= Key(index, subindex) < 0x100_0000
    ensures var r := CompareIndex(Key(index, subindex), o);
            && (r < 0 <==> index < o.index || (index == o.index && subindex < o.subindex))
            && (r == 0 <==> index == o.index && subindex == o.subindex)
  {
  }

  predicate SortedByKey(objs: seq<Obj>)
  {
    forall i, j | 0 <= i < j < |objs| :: KeyOf(objs[i]) <= KeyOf(objs[j])
  }

  /** canmat_dict_search_index: it returns an entry with the index and subindex exactly if there
      is one; which of several with the same key is up to the search. */
  method SearchIndex(objs: seq<Obj>, index: u16, subindex: u8) returns (r: Option<nat>)
    requires SortedByKey(objs)
    ensures match r
            case Some(i) => i < |objs| && objs[i].index == index && objs[i].subindex == subindex
            case None => forall i | 0 <= i < |objs| :: !(objs[i].index == index && objs[i].subindex == subindex)
  {
    KeysInjective(index, subindex, 0, 0);
    var key := Key(index, subindex);
    var l, u := 0, |objs|;
    while l < u
      invariant 0 <= l <= u <= |objs|
      invariant forall i | 0 <= i < l :: KeyOf(objs[i]) < key
      invariant forall i | u <= i < |objs| :: KeyOf(objs[i]) > key
    {
      var m := (l + u) / 2;
      var c := CompareIndex(key, objs[m]);
      if c < 0 {
        u := m;
      } else if c > 0 {
        l := m + 1;
      } else {
        KeysInjective(index, subindex, objs[m].index, objs[m].subindex);
        return Some(m);
      }
    }
    return None;
  }

  // ----- names -----

  /** Characters as the codes of the C locale. */
  function Upper(c: char): int { if 'a' <= c <= 'z' then c as int - 0x20 else c as int }

  function Lower(c: char): int { if 'A' <= c <= 'Z' then c as int + 0x20 else c as int }

  /** The six characters between the upper-case and the lower-case letters. */
  predicate Between(c: char) { 0x5B <= c as int <= 0x60 }

  predicate PlainName(s: string) { forall i | 0 <= i < |s| :: !Between(s[i]) }

  /** Lexicographic comparison after folding every character. */
  function Compare(fold: char -> int, a: string, b: string): int
    decreases |a|
  {
    if a == [] then (if b == [] then 0 else -1)
    else if b == [] then 1
    else if fold(a[0]) != fold(b[0]) then fold(a[0]) - fold(b[0])
    else Compare(fold, a[1..], b[1..])
  }

  /** The comparison of the generator, str.upper() and str ordering. */
  function CompareUpper(a: string, b: string): int { Compare(Upper, a, b) }

  /** strcasecmp. */
  function CompareLower(a: string, b: string): int { Compare(Lower, a, b) }

  /** Equality up to the case of letters. */
  predicate SameName(a: string, b: string)
  {
    |a| == |b| && forall i | 0 <= i < |a| :: Lower(a[i]) == Lower(b[i])
  }

  /** The same letter in either case, or the same character. */
  predicate SameLetter(c: char, d: char)
  {
    || c == d
    || ('A' <= c <= 'Z' && d as int == c as int + 32)
    || ('A' <= d <= 'Z' && c as int == d as int + 32)
  }

  lemma FoldsLetters(c: char, d: char)
    ensures Lower(c) == Lower(d) <==> SameLetter(c, d)
    ensures Upper(c) == Upper(d) <==> SameLetter(c, d)
  {
  }

  /** At some place, up to which the folded strings agree, the first one ends or has the lower
      character, while the second one goes on. */
  predicate ComesBefore(fold: char -> int, a: string, b: string)
  {
    exists k | 0 <= k <= |a| :: DiffersAt(fold, a, b, k)
  }

  predicate DiffersAt(fold: char -> int, a: string, b: string, k: nat)
    requires k <= |a|
  {
    && k < |b| && (forall i | 0 <= i < k :: fold(a[i]) == fold(b[i]))
    && (k == |a| || fold(a[k]) < fold(b[k]))
  }

  /** The comparison is the lexicographic order of the folded strings. */
  lemma {:induction false} CompareIsLexicographic(fold: char -> int, a: string, b: string)
    ensures Compare(fold, a, b) < 0 <==> ComesBefore(fold, a, b)
    ensures Compare(fold, a, b) == 0 <==> |a| == |b| && forall i | 0 <= i < |a| :: fold(a[i]) == fold(b[i])
    decreases |a|
  {
    if a == [] || b == [] || fold(a[0]) != fold(b[0]) {
      if Compare(fold, a, b) < 0 {
        assert DiffersAt(fold, a, b, 0);
      }
    } else {
      var s, t := a[1..], b[1..];
      CompareIsLexicographic(fold, s, t);
      assert forall i | 0 <= i < |s| :: s[i] == a[i + 1];
      assert forall i | 0 <= i < |t| :: t[i] == b[i + 1];
      if ComesBefore(fold, s, t) {
        var k :| 0 <= k <= |s| && DiffersAt(fold, s, t, k);
        Deeper(fold, a, b, k + 1);
      }
      if ComesBefore(fold, a, b) {
        var k :| 0 <= k <= |a| && DiffersAt(fold, a, b, k);
        Deeper(fold, a, b, k);
      }
      if |s| == |t| && forall i | 0 <= i < |s| :: fold(s[i]) == fold(t[i]) {
        forall i | 0 <= i < |a|
          ensures fold(a[i]) == fold(b[i])
        {
          assert i > 0 ==> a[i] == s[i - 1] && b[i] == t[i - 1];
        }
      }
    }
  }

  lemma Deeper(fold: char -> int, a: string, b: string, k: nat)
    requires a != [] && b != [] && fold(a[0]) == fold(b[0]) && k <= |a|
    ensures k > 0 ==> (DiffersAt(fold, a, b, k) <==> DiffersAt(fold, a[1..], b[1..], k - 1))
    ensures DiffersAt(fold, a, b, k) ==> k > 0
  {
    if k > 0 && DiffersAt(fold, a[1..], b[1..], k - 1) {
      forall i | 0 <= i < k
        ensures fold(a[i]) == fold(b[i])
      {
        assert i > 0 ==> a[i] == a[1..][i - 1] && b[i] == b[1..][i - 1];
      }
    }
  }

  predicate SameSign(x: int, y: int) { (x < 0 <==> y < 0) && (x > 0 <==> y > 0) }

  lemma FoldsAgree(c: char, d: char)
    requires !Between(c) && !Between(d)
    ensures SameSign(Upper(c) - Upper(d), Lower(c) - Lower(d))
  {
  }

  /** Names without the six characters compare alike under both foldings. */
  lemma {:induction false} CompareFoldsAgree(a: string, b: string)
    requires PlainName(a) && PlainName(b)
    ensures SameSign(CompareUpper(a, b), CompareLower(a, b))
    decreases |a|
  {
    if a != [] && b != [] {
      FoldsAgree(a[0], b[0]);
      CompareFoldsAgree(a[1..], b[1..]);
    }
  }

  lemma {:induction false} CompareZero(a: string, b: string)
    ensures CompareLower(a, b) == 0 <==> SameName(a, b)
    decreases |a|
  {
    if a != [] && b != [] {
      CompareZero(a[1..], b[1..]);
      if SameName(a[1..], b[1..]) && Lower(a[0]) == Lower(b[0]) {
        forall i | 0 <= i < |a|
          ensures Lower(a[i]) == Lower(b[i])
        {
          assert i > 0 ==> a[i] == a[1..][i - 1] && b[i] == b[1..][i - 1];
        }
      }
      if SameName(a, b) {
        assert forall i | 0 <= i < |a| - 1 :: a[1..][i] == a[i + 1] && b[1..][i] == b[i + 1];
      }
    }
  }

  /** The comparison orders strings: it is antisymmetric in sign and transitive. */
  lemma {:induction false} CompareSwap(fold: char -> int, a: string, b: string)
    ensures SameSign(Compare(fold, a, b), -Compare(fold, b, a))
    decreases |a|
  {
    if a != [] && b != [] {
      CompareSwap(fold, a[1..], b[1..]);
    }
  }

  lemma {:induction false} CompareTrans(fold: char -> int, a: string, b: string, c: string)
    requires Compare(fold, a, b) <= 0 && Compare(fold, b, c) <= 0
    ensures Compare(fold, a, c) <= 0
    ensures Compare(fold, a, b) < 0 || Compare(fold, b, c) < 0 ==> Compare(fold, a, c) < 0
    decreases |a|
  {
    if a != [] && b != [] && c != [] && fold(a[0]) == fold(b[0]) == fold(c[0]) {
      CompareTrans(fold, a[1..], b[1..], c[1..]);
    }
  }

  // ----- the generator -----

  /** An entry of the name table: a name and the position of its object. */
  datatype NameEntry = NameEntry(name: string, i: nat)

  datatype Dict = Dict(byName: seq<NameEntry>, objs: seq<Obj>)

  /** A stable sort, as list.sort is. */
  function InsertObj(o: Obj, s: seq<Obj>): (r: seq<Obj>)
    ensures multiset(r) == multiset(s) + multiset{o}
    decreases |s|
  {
    if s == [] then [o]
    else if KeyOf(o) <= KeyOf(s[0]) then [o] + s
    else
      assert s == [s[0]] + s[1..];
      [s[0]] + InsertObj(o, s[1..])
  }

  function SortObjs(s: seq<Obj>): (r: seq<Obj>)
    ensures multiset(r) == multiset(s)
    decreases |s|
  {
    if s == [] then []
    else
      assert s == [s[0]] + s[1..];
      InsertObj(s[0], SortObjs(s[1..]))
  }

  function InsertName(e: NameEntry, s: seq<NameEntry>): (r: seq<NameEntry>)
    ensures multiset(r) == multiset(s) + multiset{e}
    decreases |s|
  {
    if s == [] then [e]
    else if CompareUpper(e.name, s[0].name) <= 0 then [e] + s
    else
      assert s == [s[0]] + s[1..];
      [s[0]] + InsertName(e, s[1..])
  }

  function SortNames(s: seq<NameEntry>): (r: seq<NameEntry>)
    ensures multiset(r) == multiset(s)
    decreases |s|
  {
    if s == [] then []
    else
      assert s == [s[0]] + s[1..];
      InsertName(s[0], SortNames(s[1..]))
  }

  function Entries(objs: seq<Obj>): (r: seq<NameEntry>)
    ensures |r| == |objs| && forall i | 0 <= i < |objs| :: r[i] == NameEntry(objs[i].name, i)
  {
    seq(|objs|, i requires 0 <= i < |objs| => NameEntry(objs[i].name, i))
  }

  /** print_dict: objects by key, and names with object positions by upper-case name. */
  function Generate(sections: seq<Obj>): Dict
  {
    var objs := SortObjs(sections);
    Dict(SortNames(Entries(objs)), objs)
  }

  lemma {:induction false} InsertObjSorts(o: Obj, s: seq<Obj>)
    requires SortedByKey(s)
    ensures SortedByKey(InsertObj(o, s))
    decreases |s|
  {
    if s != [] && KeyOf(o) > KeyOf(s[0]) {
      InsertObjSorts(o, s[1..]);
      var r := InsertObj(o, s[1..]);
      forall x | x in r
        ensures KeyOf(s[0]) <= KeyOf(x)
      {
        assert x in multiset(r);
        assert x in s[1..] || x == o;
      }
    }
  }

  lemma {:induction false} SortObjsSorts(s: seq<Obj>)
    ensures SortedByKey(SortObjs(s))
    decreases |s|
  {
    if s != [] {
      SortObjsSorts(s[1..]);
      InsertObjSorts(s[0], SortObjs(s[1..]));
    }
  }

  predicate SortedByUpper(s: seq<NameEntry>)
  {
    forall i, j | 0 <= i < j < |s| :: CompareUpper(s[i].name, s[j].name) <= 0
  }

  lemma {:induction false} InsertNameSorts(e: NameEntry, s: seq<NameEntry>)
    requires SortedByUpper(s)
    ensures SortedByUpper(InsertName(e, s))
    decreases |s|
  {
    if s != [] {
      if CompareUpper(e.name, s[0].name) <= 0 {
        forall j | 0 < j < |s|
          ensures CompareUpper(e.name, s[j].name) <= 0
        {
          CompareTrans(Upper, e.name, s[0].name, s[j].name);
        }
      } else {
        InsertNameSorts(e, s[1..]);
        CompareSwap(Upper, e.name, s[0].name);
        var r := InsertName(e, s[1..]);
        forall x | x in r
          ensures CompareUpper(s[0].name, x.name) <= 0
        {
          assert x in multiset(r);
          assert x in s[1..] || x == e;
        }
      }
    }
  }

  lemma {:induction false} SortNamesSorts(s: seq<NameEntry>)
    ensures SortedByUpper(SortNames(s))
    decreases |s|
  {
    if s != [] {
      SortNamesSorts(s[1..]);
      InsertNameSorts(s[0], SortNames(s[1..]));
    }
  }

  function WithKey(s: seq<Obj>, key: int): seq<Obj>
  {
    if s == [] then [] else (if KeyOf(s[0]) == key then [s[0]] else []) + WithKey(s[1..], key)
  }

  lemma WithKeyFront(o: Obj, s: seq<Obj>, key: int)
    ensures WithKey([o] + s, key) == (if KeyOf(o) == key then [o] else []) + WithKey(s, key)
  {
    hide KeyOf;
    assert ([o] + s)[1..] == s;
  }

  lemma InsertObjParts(o: Obj, s: seq<Obj>)
    requires s != []
    ensures InsertObj(o, s) == if KeyOf(o) <= KeyOf(s[0]) then [o] + s else [s[0]] + InsertObj(o, s[1..])
    ensures s == [s[0]] + s[1..]
  {
    hide KeyOf;
  }

  lemma {:induction false} InsertObjStable(o: Obj, s: seq<Obj>, key: int)
    ensures WithKey(InsertObj(o, s), key) == WithKey([o] + s, key)
    decreases |s|
  {
    hide KeyOf, WithKey;
    if s == [] {
      assert InsertObj(o, s) == [o] + s;
    } else {
      InsertObjParts(o, s);
      if KeyOf(o) > KeyOf(s[0]) {
        InsertObjStable(o, s[1..], key);
        WithKeyFront(s[0], InsertObj(o, s[1..]), key);
        WithKeyFront(o, s[1..], key);
        WithKeyFront(s[0], s[1..], key);
        WithKeyFront(o, s, key);
      }
    }
  }

  /** Objects with one key keep the order that they have in the sections. */
  lemma {:induction false} SortObjsStable(s: seq<Obj>, key: int)
    ensures WithKey(SortObjs(s), key) == WithKey(s, key)
    decreases |s|
  {
    hide KeyOf, WithKey, InsertObj;
    if s != [] {
      SortObjsStable(s[1..], key);
      InsertObjStable(s[0], SortObjs(s[1..]), key);
      WithKeyFront(s[0], SortObjs(s[1..]), key);
      WithKeyFront(s[0], s[1..], key);
      assert s == [s[0]] + s[1..];
    }
  }

  /** The entries whose names are equal in upper case. */
  function WithName(s: seq<NameEntry>, name: string): seq<NameEntry>
  {
    if s == [] then []
    else (if CompareUpper(s[0].name, name) == 0 then [s[0]] else []) + WithName(s[1..], name)
  }

  lemma WithNameFront(e: NameEntry, s: seq<NameEntry>, name: string)
    ensures WithName([e] + s, name) == (if CompareUpper(e.name, name) == 0 then [e] else []) + WithName(s, name)
  {
    hide CompareUpper;
    assert ([e] + s)[1..] == s;
  }

  lemma InsertNameParts(e: NameEntry, s: seq<NameEntry>)
    requires s != []
    ensures InsertName(e, s)
            == if CompareUpper(e.name, s[0].name) <= 0 then [e] + s else [s[0]] + InsertName(e, s[1..])
    ensures s == [s[0]] + s[1..]
  {
    hide CompareUpper;
  }

  lemma {:induction false} InsertNameStable(e: NameEntry, s: seq<NameEntry>, name: string)
    ensures WithName(InsertName(e, s), name) == WithName([e] + s, name)
    decreases |s|
  {
    hide CompareUpper, WithName;
    if s == [] {
      assert InsertName(e, s) == [e] + s;
    } else {
      InsertNameParts(e, s);
      if CompareUpper(e.name, s[0].name) > 0 {
        InsertNameStable(e, s[1..], name);
        WithNameFront(s[0], InsertName(e, s[1..]), name);
        WithNameFront(e, s[1..], name);
        WithNameFront(s[0], s[1..], name);
        WithNameFront(e, s, name);
        NotBoth(e.name, s[0].name, name);
      }
    }
  }

  lemma NotBoth(a: string, b: string, c: string)
    requires CompareUpper(a, b) > 0
    ensures !(CompareUpper(a, c) == 0 && CompareUpper(b, c) == 0)
  {
    if CompareUpper(a, c) == 0 && CompareUpper(b, c) == 0 {
      CompareSwap(Upper, b, c);
      CompareTrans(Upper, a, c, b);
    }
  }

  /** Names that are equal in upper case keep the order of their objects. */
  lemma {:induction false} SortNamesStable(s: seq<NameEntry>, name: string)
    ensures WithName(SortNames(s), name) == WithName(s, name)
    decreases |s|
  {
    hide CompareUpper, WithName, InsertName;
    if s != [] {
      SortNamesStable(s[1..], name);
      InsertNameStable(s[0], SortNames(s[1..]), name);
      WithNameFront(s[0], SortNames(s[1..]), name);
      WithNameFront(s[0], s[1..], name);
      assert s == [s[0]] + s[1..];
    }
  }

  /** The generated tables: the objects are the sections in key order, and the name table lists
      every object once, under its name, in upper-case order. */
  lemma GeneratedTables(sections: seq<Obj>)
    ensures var d := Generate(sections);
            && SortedByKey(d.objs) && multiset(d.objs) == multiset(sections)
            && SortedByUpper(d.byName) && |d.byName| == |d.objs|
            && (forall e | e in d.byName :: e.i < |d.objs| && d.objs[e.i].name == e.name)
            && (forall i | 0 <= i < |d.objs| :: NameEntry(d.objs[i].name, i) in d.byName)
  {
    var objs := SortObjs(sections);
    var entries := Entries(objs);
    SortObjsSorts(sections);
    SortNamesSorts(entries);
    var byName := SortNames(entries);
    assert |byName| == |multiset(byName)| == |multiset(entries)| == |entries|;
    forall e | e in byName
      ensures e.i < |objs| && objs[e.i].name == e.name
    {
      assert e in multiset(byName);
      assert e in entries;
    }
    forall i | 0 <= i < |objs|
      ensures NameEntry(objs[i].name, i) in byName
    {
      assert entries[i] in multiset(entries);
      assert entries[i] in multiset(byName);
    }
  }

  // ----- search by name -----

  /** What the comparator of bsearch gives along the name table. */
  function NameResults(name: string, table: seq<NameEntry>): nat -> int
  {
    (i: nat) => if i < |table| then CompareLower(name, table[i].name) else -1
  }

  /** canmat_dict_search_name: the position of the object, reached through the name table. */
  function SearchName(d: Dict, name: string): Option<nat>
  {
    match Bsearch(NameResults(name, d.byName), 0, |d.byName|)
    case None => None
    case Some(k) => if k < |d.byName| then Some(d.byName[k].i) else None
  }

  /** The search as a loop. */
  method FindName(d: Dict, name: string) returns (r: Option<nat>)
    ensures r == SearchName(d, name)
  {
    ghost var cmp := NameResults(name, d.byName);
    var l, u := 0, |d.byName|;
    while l < u
      invariant 0 <= l <= u <= |d.byName|
      invariant Bsearch(cmp, 0, |d.byName|) == Bsearch(cmp, l, u)
    {
      var m := (l + u) / 2;
      var c := CompareLower(name, d.byName[m].name);
      if c < 0 {
        u := m;
      } else if c > 0 {
        l := m + 1;
      } else {
        return Some(d.byName[m].i);
      }
    }
    return None;
  }

  /** The two foldings order the names alike. */
  predicate OrderedAlike(a: string, b: string) { SameSign(CompareUpper(a, b), CompareLower(a, b)) }

  predicate AlikeTable(table: seq<NameEntry>)
  {
    forall e, f | e in table && f in table :: OrderedAlike(e.name, f.name)
  }

  /** A table in upper-case order is in the order of strcasecmp when the foldings order its names
      alike. */
  lemma UpperOrderSearches(name: string, table: seq<NameEntry>)
    requires SortedByUpper(table) && AlikeTable(table)
    ensures Falling(NameResults(name, table), |table|)
  {
    var cmp := NameResults(name, table);
    forall i: nat, j: nat | i < j < |table|
      ensures (cmp(i) <= 0 ==> cmp(j) <= 0) && (cmp(i) < 0 ==> cmp(j) < 0)
    {
      assert OrderedAlike(table[i].name, table[j].name);
      if cmp(i) <= 0 {
        CompareTrans(Lower, name, table[i].name, table[j].name);
      }
    }
  }

  /** On such a table the search finds an entry with the name exactly if there is one. */
  lemma TableSearch(name: string, table: seq<NameEntry>)
    requires SortedByUpper(table) && AlikeTable(table)
    ensures match Bsearch(NameResults(name, table), 0, |table|)
            case Some(k) => k < |table| && SameName(name, table[k].name)
            case None => forall e | e in table :: !SameName(name, e.name)
  {
    hide CompareLower, SameName, OrderedAlike;
    var cmp, n := NameResults(name, table), |table|;
    UpperOrderSearches(name, table);
    BsearchFinds(cmp, 0, n, n);
    forall e | e in table
      ensures CompareLower(name, e.name) == 0 <==> SameName(name, e.name)
    {
      CompareZero(name, e.name);
    }
    if Bsearch(cmp, 0, n).None? {
      forall e | e in table
        ensures !SameName(name, e.name)
      {
        var k :| 0 <= k < n && table[k] == e;
        assert cmp(k) != 0;
      }
    }
  }

  lemma MembersStay(sections: seq<Obj>, o: Obj)
    ensures o in Generate(sections).objs <==> o in sections
  {
    var objs := Generate(sections).objs;
    assert o in objs <==> o in multiset(objs);
    assert multiset(objs) == multiset(sections);
    assert o in sections <==> o in multiset(sections);
  }

  /** Name search agrees with a case-insensitive scan: in a generated dictionary whose names the two
      foldings order alike, any name at all is found exactly if some object carries it up to case,
      and the object that is returned does. */
  lemma NameSearchIsScan(sections: seq<Obj>, name: string)
    requires forall o, p | o in sections && p in sections :: OrderedAlike(o.name, p.name)
    ensures var d := Generate(sections);
            match SearchName(d, name)
            case Some(i) => i < |d.objs| && d.objs[i] in sections && SameName(name, d.objs[i].name)
            case None => forall o | o in sections :: !SameName(name, o.name)
  {
    hide Generate, SameName, OrderedAlike, Bsearch, NameResults;
    var d := Generate(sections);
    GeneratedTables(sections);
    forall e | e in d.byName
      ensures d.objs[e.i] in sections
    {
      MembersStay(sections, d.objs[e.i]);
    }
    TableSearch(name, d.byName);
    match Bsearch(NameResults(name, d.byName), 0, |d.byName|)
    case Some(k) =>
      assert d.byName[k] in d.byName;
    case None =>
      forall o | o in sections
        ensures !SameName(name, o.name)
      {
        var e := EntryOf(sections, o);
      }
  }

  /** Every object has its entry in the name table. */
  lemma EntryOf(sections: seq<Obj>, o: Obj) returns (e: NameEntry)
    requires o in sections
    ensures e in Generate(sections).byName && e.name == o.name
  {
    hide Generate;
    var d := Generate(sections);
    GeneratedTables(sections);
    MembersStay(sections, o);
    var i :| 0 <= i < |d.objs| && d.objs[i] == o;
    e := NameEntry(o.name, i);
  }

  /** In particular when no name has one of the six characters. */
  lemma PlainNamesFound(sections: seq<Obj>, name: string)
    requires forall o | o in sections :: PlainName(o.name)
    ensures var d := Generate(sections);
            match SearchName(d, name)
            case Some(i) => i < |d.objs| && d.objs[i] in sections && SameName(name, d.objs[i].name)
            case None => forall o | o in sections :: !SameName(name, o.name)
  {
    hide Generate, SameName, CompareUpper, CompareLower, SearchName;
    forall o, p | o in sections && p in sections
      ensures OrderedAlike(o.name, p.name)
    {
      CompareFoldsAgree(o.name, p.name);
    }
    NameSearchIsScan(sections, name);
  }

  // ----- exactly when every name is found -----

  /** No two objects have the same name up to case. */
  predicate DistinctObjs(objs: seq<Obj>)
    decreases |objs|
  {
    objs == [] || ((forall o | o in objs[1..] :: !SameName(objs[0].name, o.name)) && DistinctObjs(objs[1..]))
  }

  /** No two entries have the same name up to case. */
  predicate DistinctTable(table: seq<NameEntry>)
    decreases |table|
  {
    table == [] || ((forall e | e in table[1..] :: !SameName(table[0].name, e.name)) && DistinctTable(table[1..]))
  }

  /** The table is in strict order of strcasecmp from l up to u. */
  predicate StrictlyLower(table: seq<NameEntry>, l: nat, u: nat)
    requires u <= |table|
  {
    forall i, j | l <= i < j < u :: CompareLower(table[i].name, table[j].name) < 0
  }

  /** Searching for its own name in the interval finds entry k. */
  predicate FindsItself(table: seq<NameEntry>, l: nat, u: nat, k: nat)
    requires l <= k < u <= |table|
  {
    Bsearch(NameResults(table[k].name, table), l, u) == Some(k)
  }

  lemma {:induction false} BsearchWithin(cmp: nat -> int, l: nat, u: nat)
    requires l <= u
    ensures Bsearch(cmp, l, u).Some? ==> l <= Bsearch(cmp, l, u).value < u && cmp(Bsearch(cmp, l, u).value) == 0
    decreases u - l
  {
    if l < u {
      var m := (l + u) / 2;
      BsearchWithin(cmp, l, m);
      BsearchWithin(cmp, m + 1, u);
    }
  }

  /** The search for entry k goes to the side of the middle that k is on, so the comparison with the
      middle points there. */
  lemma SearchTurns(table: seq<NameEntry>, l: nat, u: nat, k: nat)
    requires l <= k < u <= |table| && FindsItself(table, l, u, k)
    ensures var m, c := (l + u) / 2, CompareLower(table[k].name, table[(l + u) / 2].name);
            && (k < m ==> c < 0 && FindsItself(table, l, m, k))
            && (k > m ==> c > 0 && FindsItself(table, m + 1, u, k))
  {
    hide CompareLower;
    var m, cmp := (l + u) / 2, NameResults(table[k].name, table);
    BsearchWithin(cmp, l, m);
    BsearchWithin(cmp, m + 1, u);
  }

  /** If every entry of an interval finds itself, the interval is in strict order of strcasecmp. */
  lemma {:induction false} FoundMeansSorted(table: seq<NameEntry>, l: nat, u: nat)
    requires l <= u <= |table| && forall k | l <= k < u :: FindsItself(table, l, u, k)
    ensures StrictlyLower(table, l, u)
    decreases u - l
  {
    hide CompareLower, FindsItself;
    if l < u {
      var m := (l + u) / 2;
      var n := m + 1;
      forall k | l <= k < m
        ensures CompareLower(table[k].name, table[m].name) < 0 && FindsItself(table, l, m, k)
      {
        SearchTurns(table, l, u, k);
      }
      forall k | n <= k < u
        ensures CompareLower(table[m].name, table[k].name) < 0 && FindsItself(table, n, u, k)
      {
        SearchTurns(table, l, u, k);
        LowerSwap(table[k].name, table[m].name);
      }
      FoundMeansSorted(table, l, m);
      FoundMeansSorted(table, n, u);
      forall i, j | l <= i < j < u
        ensures CompareLower(table[i].name, table[j].name) < 0
      {
        if i < m < j {
          LowerTrans(table[i].name, table[m].name, table[j].name);
        }
      }
    }
  }

  lemma LowerSwap(a: string, b: string)
    ensures SameSign(CompareLower(a, b), -CompareLower(b, a))
  {
    CompareSwap(Lower, a, b);
  }

  lemma LowerTrans(a: string, b: string, c: string)
    requires CompareLower(a, b) < 0 && CompareLower(b, c) < 0
    ensures CompareLower(a, c) < 0
  {
    CompareTrans(Lower, a, b, c);
  }

  /** Both foldings make the same names equal. */
  lemma {:induction false} CompareZeroUpper(a: string, b: string)
    ensures CompareUpper(a, b) == 0 <==> CompareLower(a, b) == 0
    decreases |a|
  {
    if a != [] && b != [] {
      assert Upper(a[0]) == Upper(b[0]) <==> Lower(a[0]) == Lower(b[0]);
      CompareZeroUpper(a[1..], b[1..]);
    }
  }

  /** A table in both orders orders its names alike. */
  lemma BothOrdersAlike(table: seq<NameEntry>)
    requires SortedByUpper(table) && StrictlyLower(table, 0, |table|)
    ensures AlikeTable(table)
  {
    hide CompareLower, CompareUpper;
    forall e, f | e in table && f in table
      ensures OrderedAlike(e.name, f.name)
    {
      var i :| 0 <= i < |table| && table[i] == e;
      var j :| 0 <= j < |table| && table[j] == f;
      CompareZeroUpper(e.name, f.name);
      LowerSwap(e.name, f.name);
      UpperSwap(e.name, f.name);
    }
  }

  lemma UpperSwap(a: string, b: string)
    ensures SameSign(CompareUpper(a, b), -CompareUpper(b, a))
  {
    CompareSwap(Upper, a, b);
  }

  lemma SameNameSymmetric(a: string, b: string)
    ensures SameName(a, b) <==> SameName(b, a)
  {
  }

  /** Sorting keeps names distinct. */
  lemma {:induction false} InsertObjDistinct(o: Obj, s: seq<Obj>)
    requires DistinctObjs(s) && forall x | x in s :: !SameName(o.name, x.name)
    ensures DistinctObjs(InsertObj(o, s))
    decreases |s|
  {
    hide SameName, KeyOf;
    if s == [] || KeyOf(o) <= KeyOf(s[0]) {
      assert ([o] + s)[1..] == s;
    } else {
      InsertObjDistinct(o, s[1..]);
      var r := InsertObj(o, s[1..]);
      assert ([s[0]] + r)[1..] == r;
      SameNameSymmetric(s[0].name, o.name);
      forall x | x in r
        ensures !SameName(s[0].name, x.name)
      {
        assert x in multiset(r);
        assert x in s[1..] || x == o;
      }
    }
  }

  lemma {:induction false} SortObjsDistinct(s: seq<Obj>)
    requires DistinctObjs(s)
    ensures DistinctObjs(SortObjs(s))
    decreases |s|
  {
    hide SameName, InsertObj;
    if s != [] {
      SortObjsDistinct(s[1..]);
      forall x | x in SortObjs(s[1..])
        ensures !SameName(s[0].name, x.name)
      {
        assert x in multiset(SortObjs(s[1..]));
      }
      InsertObjDistinct(s[0], SortObjs(s[1..]));
    }
  }

  lemma {:induction false} InsertNameDistinct(e: NameEntry, s: seq<NameEntry>)
    requires DistinctTable(s) && forall x | x in s :: !SameName(e.name, x.name)
    ensures DistinctTable(InsertName(e, s))
    decreases |s|
  {
    hide SameName, CompareUpper;
    if s == [] || CompareUpper(e.name, s[0].name) <= 0 {
      assert ([e] + s)[1..] == s;
    } else {
      InsertNameDistinct(e, s[1..]);
      var r := InsertName(e, s[1..]);
      assert ([s[0]] + r)[1..] == r;
      SameNameSymmetric(s[0].name, e.name);
      forall x | x in r
        ensures !SameName(s[0].name, x.name)
      {
        assert x in multiset(r);
        assert x in s[1..] || x == e;
      }
    }
  }

  lemma {:induction false} SortNamesDistinct(s: seq<NameEntry>)
    requires DistinctTable(s)
    ensures DistinctTable(SortNames(s))
    decreases |s|
  {
    hide SameName, InsertName;
    if s != [] {
      SortNamesDistinct(s[1..]);
      forall x | x in SortNames(s[1..])
        ensures !SameName(s[0].name, x.name)
      {
        assert x in multiset(SortNames(s[1..]));
      }
      InsertNameDistinct(s[0], SortNames(s[1..]));
    }
  }

  /** Entries with the names of distinct objects are distinct. */
  lemma {:induction false} EntriesDistinct(objs: seq<Obj>, table: seq<NameEntry>)
    requires DistinctObjs(objs) && |table| == |objs| && forall i | 0 <= i < |objs| :: table[i].name == objs[i].name
    ensures DistinctTable(table)
    decreases |objs|
  {
    hide SameName;
    if objs != [] {
      EntriesDistinct(objs[1..], table[1..]);
      forall e | e in table[1..]
        ensures !SameName(table[0].name, e.name)
      {
        var i :| 0 <= i < |table[1..]| && table[1..][i] == e;
        assert objs[1..][i] in objs[1..];
      }
    }
  }

  lemma GeneratedDistinct(sections: seq<Obj>)
    requires DistinctObjs(sections)
    ensures DistinctTable(Generate(sections).byName)
  {
    hide SortObjs, SortNames, SameName, DistinctObjs, DistinctTable;
    var objs := SortObjs(sections);
    SortObjsDistinct(sections);
    EntriesDistinct(objs, Entries(objs));
    SortNamesDistinct(Entries(objs));
  }

  lemma {:induction false} DistinctAt(table: seq<NameEntry>, i: nat, j: nat)
    requires DistinctTable(table) && i < j < |table|
    ensures !SameName(table[i].name, table[j].name)
    decreases i
  {
    hide SameName;
    if i == 0 {
      assert table[1..][j - 1] in table[1..];
    } else {
      DistinctAt(table[1..], i - 1, j - 1);
    }
  }

  /** In a table of distinct names, an entry whose name is found finds itself. */
  lemma FoundIsItself(table: seq<NameEntry>, k: nat)
    requires DistinctTable(table) && k < |table|
    requires Bsearch(NameResults(table[k].name, table), 0, |table|).Some?
    ensures FindsItself(table, 0, |table|, k)
  {
    hide CompareLower, SameName, Bsearch, DistinctTable;
    var cmp := NameResults(table[k].name, table);
    BsearchWithin(cmp, 0, |table|);
    var m := Bsearch(cmp, 0, |table|).value;
    assert cmp(m) == CompareLower(table[k].name, table[m].name);
    CompareZero(table[k].name, table[m].name);
    SameNameSymmetric(table[k].name, table[m].name);
    if k < m {
      DistinctAt(table, k, m);
    } else if m < k {
      DistinctAt(table, m, k);
    }
  }

  /** The exact condition: in a dictionary generated from names that differ up to case, every name
      is found exactly if str.upper() and strcasecmp order every two of the names alike. */
  lemma NamesFoundExactly(sections: seq<Obj>)
    requires DistinctObjs(sections)
    ensures (forall o | o in sections :: SearchName(Generate(sections), o.name).Some?)
            <==> forall o, p | o in sections && p in sections :: OrderedAlike(o.name, p.name)
  {
    hide Generate, SameName, OrderedAlike, Bsearch, NameResults, DistinctObjs, DistinctTable;
    var d := Generate(sections);
    var table := d.byName;
    if forall o, p | o in sections && p in sections :: OrderedAlike(o.name, p.name) {
      forall o | o in sections
        ensures SearchName(d, o.name).Some?
      {
        NameSearchIsScan(sections, o.name);
        SameNameReflexive(o.name);
      }
    }
    if forall o | o in sections :: SearchName(d, o.name).Some? {
      GeneratedTables(sections);
      GeneratedDistinct(sections);
      forall k | 0 <= k < |table|
        ensures FindsItself(table, 0, |table|, k)
      {
        assert table[k] in table;
        MembersStay(sections, d.objs[table[k].i]);
        assert SearchName(d, table[k].name).Some?;
        FoundIsItself(table, k);
      }
      FoundMeansSorted(table, 0, |table|);
      BothOrdersAlike(table);
      forall o, p | o in sections && p in sections
        ensures OrderedAlike(o.name, p.name)
      {
        var e := EntryOf(sections, o);
        var f := EntryOf(sections, p);
      }
    }
  }

  lemma SameNameReflexive(a: string)
    ensures SameName(a, a)
  {
  }

  /** The comparator of the index search along a table. */
  function IndexResults(index: u16, subindex: u8, objs: seq<Obj>): nat -> int
  {
    (i: nat) => if i < |objs| then Key(index, subindex) - KeyOf(objs[i]) else -1
  }

  lemma KeySearch(index: u16, subindex: u8, objs: seq<Obj>)
    requires SortedByKey(objs)
    ensures match Bsearch(IndexResults(index, subindex, objs), 0, |objs|)
            case Some(i) => i < |objs| && objs[i].index == index && objs[i].subindex == subindex
            case None => forall o | o in objs :: !(o.index == index && o.subindex == subindex)
  {
    var cmp := IndexResults(index, subindex, objs);
    assert Falling(cmp, |objs|);
    BsearchFinds(cmp, 0, |objs|, |objs|);
    match Bsearch(cmp, 0, |objs|)
    case Some(i) => KeysInjective(index, subindex, objs[i].index, objs[i].subindex);
    case None =>
      forall o | o in objs
        ensures !(o.index == index && o.subindex == subindex)
      {
        var i :| 0 <= i < |objs| && objs[i] == o;
        assert cmp(i) != 0;
      }
  }

  /** Index search agrees with a linear scan over the sections of any generated dictionary,
      keys that occur twice included. */
  lemma IndexSearchIsScan(sections: seq<Obj>, index: u16, subindex: u8)
    ensures var objs := Generate(sections).objs;
            match Bsearch(IndexResults(index, subindex, objs), 0, |objs|)
            case Some(i) => i < |objs| && objs[i] in sections && objs[i].index == index && objs[i].subindex == subindex
            case None => forall o | o in sections :: !(o.index == index && o.subindex == subindex)
  {
    hide Generate, Bsearch, IndexResults;
    var objs := Generate(sections).objs;
    GeneratedTables(sections);
    KeySearch(index, subindex, objs);
    match Bsearch(IndexResults(index, subindex, objs), 0, |objs|)
    case Some(i) => MembersStay(sections, objs[i]);
    case None =>
      forall o | o in sections
        ensures !(o.index == index && o.subindex == subindex)
      {
        MembersStay(sections, o);
      }
  }

  /** Names of one character compare by that character. */
  lemma CompareOne(fold: char -> int, c: char, d: char)
    ensures Compare(fold, [c], [d]) == fold(c) - fold(d)
  {
  }

  /** A list that is in order already is left as it is, front element by front element. */
  lemma SortFront(x: NameEntry, s: seq<NameEntry>)
    requires SortNames(s) == s && (s == [] || CompareUpper(x.name, s[0].name) <= 0)
    ensures SortNames([x] + s) == [x] + s
  {
    hide CompareUpper, InsertName;
    assert ([x] + s)[1..] == s && ([x] + s)[0] == x;
    InsertFront(x, s);
  }

  lemma InsertFront(x: NameEntry, s: seq<NameEntry>)
    requires s == [] || CompareUpper(x.name, s[0].name) <= 0
    ensures InsertName(x, s) == [x] + s
  {
    hide CompareUpper;
  }

  lemma SortFrontObj(x: Obj, s: seq<Obj>)
    requires SortObjs(s) == s && (s == [] || KeyOf(x) <= KeyOf(s[0]))
    ensures SortObjs([x] + s) == [x] + s
  {
    hide KeyOf;
    assert ([x] + s)[1..] == s;
  }

  lemma MissedInThree(name: string, x: NameEntry, y: NameEntry, z: NameEntry)
    requires CompareLower(name, x.name) < 0 && CompareLower(name, y.name) < 0
    ensures Bsearch(NameResults(name, [x, y, z]), 0, 3) == None
  {
  }

  lemma EmptySorted()
    ensures SortNames([]) == [] && SortObjs([]) == []
  {
  }

  lemma ThreeObjs(a: Obj, b: Obj, c: Obj)
    requires KeyOf(a) <= KeyOf(b) <= KeyOf(c)
    ensures SortObjs([a, b, c]) == [a, b, c]
  {
    hide SortObjs, KeyOf;
    EmptySorted();
    assert [c] + [] == [c] && [b] + [c] == [b, c] && [a] + [b, c] == [a, b, c];
    SortFrontObj(c, []);
    SortFrontObj(b, [c]);
    SortFrontObj(a, [b, c]);
  }

  lemma ThreeNames(x: NameEntry, y: NameEntry, z: NameEntry)
    requires CompareUpper(x.name, y.name) <= 0 && CompareUpper(y.name, z.name) <= 0
    ensures SortNames([x, y, z]) == [x, y, z]
  {
    hide SortNames, CompareUpper;
    EmptySorted();
    assert [z] + [] == [z] && [y] + [z] == [y, z] && [x] + [y, z] == [x, y, z];
    SortFront(z, []);
    SortFront(y, [z]);
    SortFront(x, [y, z]);
  }

  /** A dictionary that fails the condition: with an underscore the generator puts "_" after
      "b", where strcasecmp expects it before, and the search misses an object that is there. */
  lemma UnderscoreIsMissed(t: SdoCodec.DataType)
    ensures SearchName(Generate([Obj(1, 0, "a", t), Obj(2, 0, "b", t), Obj(3, 0, "_", t)]), "_") == None
  {
    hide Compare, Bsearch, NameResults, SortNames, SortObjs;
    var a, b, c := Obj(1, 0, "a", t), Obj(2, 0, "b", t), Obj(3, 0, "_", t);
    var x, y, z := NameEntry("a", 0), NameEntry("b", 1), NameEntry("_", 2);
    ThreeObjs(a, b, c);
    assert Entries([a, b, c]) == [x, y, z];
    CompareOne(Upper, 'a', 'b');
    CompareOne(Upper, 'b', '_');
    ThreeNames(x, y, z);
    CompareOne(Lower, '_', 'a');
    CompareOne(Lower, '_', 'b');
    MissedInThree("_", x, y, z);
  }
}
