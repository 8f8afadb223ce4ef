/**
 * The reader's bookmarks: a dictionary from a 0-based page number to a name, kept in
 * insertion order as Python dictionaries are (the order matters because it is the
 * order in which the bookmarks are written to the settings string). The settings
 * string is "page:name;page:name"; list labels read "Страница N: name" with the
 * 1-based page N, and menu labels "Стр. N: name".
 */
module Bookmarks {
  import opened Text

  /** The dictionary's items in insertion order. */
  type Entries = seq<(int, string)>

  /** The dictionary's keys, in order. */
  function Keys(e: Entries): (r: seq<int>)
    ensures |r| == |e| && forall i | 0 <= i < |e| :: r[i] == e[i].0
  {
    if e == [] then [] else [e[0].0] + Keys(e[1..])
  }

  /** No page appears twice, as in any dictionary. */
  predicate DistinctKeys(e: Entries) {
    e == [] || (e[0].0 !in Keys(e[1..]) && DistinctKeys(e[1..]))
  }

  /** The dictionary as a map. */
  function ToMap(e: Entries): map<int, string> {
    if e == [] then map[] else ToMap(e[1..])[e[0].0 := e[0].1]
  }

  lemma {:induction false} ToMapKeys(e: Entries)
    ensures ToMap(e).Keys == set p | p in Keys(e)
  {
    if e != [] {
      ToMapKeys(e[1..]);
      assert Keys(e) == [e[0].0] + Keys(e[1..]);
    }
  }

  /** `d[p] = name`: a present key keeps its place and takes the new name; a new key goes last. */
  function Put(e: Entries, p: int, name: string): (r: Entries)
    ensures DistinctKeys(e) && p in Keys(e) ==>
      |r| == |e| && forall i | 0 <= i < |e| :: r[i] == (if e[i].0 == p then (p, name) else e[i])
    ensures p !in Keys(e) ==> r == e + [(p, name)]
  {
    if e == [] then [(p, name)]
    else if e[0].0 == p then [(p, name)] + e[1..]
    else [e[0]] + Put(e[1..], p, name)
  }

  /** `del d[p]` (every caller checks the key first): the item with key p goes, the others keep their order. */
  function Remove(e: Entries, p: int): (r: Entries)
    ensures forall q :: q in Keys(r) <==> q in Keys(e) && q != p
  {
    if e == [] then []
    else if e[0].0 == p then Remove(e[1..], p)
    else [e[0]] + Remove(e[1..], p)
  }

  /** `d.get(p)`: the name stored for page p, if any. */
  function Get(e: Entries, p: int): (r: Option<string>)
    ensures r.Some? <==> p in Keys(e)
    ensures r.Some? ==> p in ToMap(e) && ToMap(e)[p] == r.value
  {
    if e == [] then None
    else if e[0].0 == p then Some(e[0].1)
    else
      assert Keys(e) == [e[0].0] + Keys(e[1..]);
      Get(e[1..], p)
  }

  /** Deleting the item that was put last gives back the dictionary it was put into. */
  lemma {:induction false} RemoveLastPut(e: Entries, p: int, name: string)
    requires p !in Keys(e)
    ensures Remove(Put(e, p, name), p) == e
  {
    if e != [] {
      assert Keys(e) == [e[0].0] + Keys(e[1..]);
      RemoveLastPut(e[1..], p, name);
      assert Put(e, p, name) == [e[0]] + Put(e[1..], p, name);
      assert e == [e[0]] + e[1..];
    }
  }

  /** Putting keeps keys distinct and updates the map view at p alone. */
  lemma {:induction false} PutSpec(e: Entries, p: int, name: string)
    requires DistinctKeys(e)
    ensures DistinctKeys(Put(e, p, name))
    ensures ToMap(Put(e, p, name)) == ToMap(e)[p := name]
  {
    if e != [] {
      if e[0].0 == p {
        assert Put(e, p, name)[1..] == e[1..];
      } else {
        PutSpec(e[1..], p, name);
        var m := Put(e[1..], p, name);
        var r := Put(e, p, name);
        assert r == [e[0]] + m;
        assert r[1..] == m;
        PutKeys(e[1..], p, name);
        assert e[0].0 !in Keys(m);
        assert ToMap(r) == ToMap(m)[e[0].0 := e[0].1];
      }
    }
  }

  /** Putting leaves the keys as they are, or appends the new one. */
  lemma {:induction false} PutKeys(e: Entries, p: int, name: string)
    ensures Keys(Put(e, p, name)) == if p in Keys(e) then Keys(e) else Keys(e) + [p]
  {
    if e != [] {
      var tail := e[1..];
      var k := Keys(e);
      assert k == [e[0].0] + Keys(tail);
      if e[0].0 == p {
        assert Keys(Put(e, p, name)) == [p] + Keys(tail) by {
          assert Put(e, p, name) == [(p, name)] + tail;
        }
      } else {
        var kt := Keys(Put(tail, p, name));
        assert kt == if p in Keys(tail) then Keys(tail) else Keys(tail) + [p] by {
          PutKeys(tail, p, name);
        }
        assert Keys(Put(e, p, name)) == [e[0].0] + kt by {
          assert Put(e, p, name) == [e[0]] + Put(tail, p, name);
        }
        assert p in k <==> p in Keys(tail);
        assert [e[0].0] + (Keys(tail) + [p]) == k + [p];
      }
    }
  }

  /** Removing keeps keys distinct and drops p from the map view. */
  lemma {:induction false} RemoveSpec(e: Entries, p: int)
    requires DistinctKeys(e)
    ensures DistinctKeys(Remove(e, p))
    ensures ToMap(Remove(e, p)) == ToMap(e) - {p}
  {
    if e != [] {
      RemoveSpec(e[1..], p);
      var m := Remove(e[1..], p);
      if e[0].0 == p {
        ToMapKeys(e[1..]);
        assert p !in ToMap(e[1..]);
        assert ToMap(e) - {p} == ToMap(e[1..]) - {p};
      } else {
        var r := Remove(e, p);
        assert r == [e[0]] + m;
        assert r[1..] == m;
        assert e[0].0 !in Keys(m);
        assert ToMap(r) == ToMap(m)[e[0].0 := e[0].1];
      }
    }
  }

  // ---------------------------------------------------------------- settings string

  /** f"{page}:{name}" */
  function ItemText(p: int, name: string): string {
    IntToString(p) + ":" + name
  }

  function ItemTexts(e: Entries): (r: seq<string>)
    ensures |r| == |e|
    ensures forall i | 0 <= i < |e| :: r[i] == ItemText(e[i].0, e[i].1)
  {
    if e == [] then [] else [ItemText(e[0].0, e[0].1)] + ItemTexts(e[1..])
  }

  /** save_bookmarks: the items in dictionary order joined by ';'. */
  function Encode(e: Entries): string {
    Join(ItemTexts(e), ';')
  }

  /** One settings item: `page_str, name = item.split(':', 1)` then `int(page_str)`. */
  function ParseItem(item: string): Option<(int, string)> {
    match IndexOf(item, ':')
    case None => None
    case Some(c) =>
      match ParseInt(item[..c])
      case None => None
      case Some(p) => Some((p, item[c + 1..]))
  }

  /** The load loop: every item that parses is stored; the others are skipped. */
  function LoadItems(bm: Entries, items: seq<string>): Entries
    decreases |items|
  {
    if items == [] then bm
    else
      var next := match ParseItem(items[0]) case None => bm case Some(pn) => Put(bm, pn.0, pn.1);
      LoadItems(next, items[1..])
  }

  /** load_bookmarks into the current dictionary; an empty string changes nothing. */
  function Load(bm: Entries, data: string): Entries {
    if data == [] then bm else LoadItems(bm, Split(data, ';'))
  }

  predicate NoSeparatorInNames(e: Entries) {
    forall i | 0 <= i < |e| :: ';' !in e[i].1
  }

  lemma ItemTextParses(p: int, name: string)
    ensures ParseItem(ItemText(p, name)) == Some((p, name))
  {
    var t := ItemText(p, name);
    var d := IntToString(p);
    assert forall i | 0 <= i < |d| :: d[i] != ':';
    assert t[|d|] == ':' && t[..|d|] == d && t[|d| + 1..] == name;
    assert IndexOf(t, ':') == Some(|d|);
    IntToStringRoundTrip(p);
  }

  /** In a list with distinct keys, the first key after a prefix is not in the prefix. */
  lemma {:induction false} DistinctAppend(acc: Entries, rest: Entries)
    requires DistinctKeys(acc + rest) && rest != []
    ensures rest[0].0 !in Keys(acc)
  {
    if acc != [] {
      assert (acc + rest)[1..] == acc[1..] + rest;
      DistinctAppend(acc[1..], rest);
      assert rest[0].0 in Keys((acc + rest)[1..]) by {
        assert Keys((acc + rest)[1..])[|acc| - 1] == rest[0].0;
      }
    }
  }

  /** Loading a saved item whose page is new appends it. */
  lemma LoadFirstItem(acc: Entries, rest: Entries)
    requires rest != [] && rest[0].0 !in Keys(acc)
    ensures LoadItems(acc, ItemTexts(rest)) == LoadItems(acc + [rest[0]], ItemTexts(rest)[1..])
  {
    var p := rest[0];
    var items := ItemTexts(rest);
    ItemTextParses(p.0, p.1);
    assert ParseItem(items[0]) == Some((p.0, p.1));
  }

  lemma {:induction false} LoadItemsAppends(acc: Entries, rest: Entries)
    requires DistinctKeys(acc + rest)
    ensures LoadItems(acc, ItemTexts(rest)) == acc + rest
    decreases |rest|
  {
    if rest != [] {
      var acc2, rest2 := acc + [rest[0]], rest[1..];
      assert acc2 + rest2 == acc + rest;
      DistinctAppend(acc, rest);
      LoadFirstItem(acc, rest);
      ItemTextsTail(rest);
      LoadItemsAppends(acc2, rest2);
    }
  }

  lemma ItemTextsTail(rest: Entries)
    requires rest != []
    ensures ItemTexts(rest)[1..] == ItemTexts(rest[1..])
  {
  }

  /**
   * Saving and then loading into an empty dictionary gives back the same dictionary,
   * in the same order, as long as no name contains ';'. Names may contain ':'.
   */
  lemma SaveLoadRoundTrip(e: Entries)
    requires DistinctKeys(e) && NoSeparatorInNames(e)
    ensures Load([], Encode(e)) == e
  {
    if e != [] {
      var items := ItemTexts(e);
      assert items[0] == IntToString(e[0].0) + ":" + e[0].1;
      ItemsHaveNoSeparator(e);
      SplitJoin(items, ';');
      JoinNonEmpty(items);
      assert [] + e == e;
      LoadItemsAppends([], e);
    }
  }

  lemma ItemsHaveNoSeparator(e: Entries)
    requires NoSeparatorInNames(e)
    ensures forall k | 0 <= k < |ItemTexts(e)| :: ';' !in ItemTexts(e)[k]
  {
    forall k | 0 <= k < |e| ensures ';' !in ItemTexts(e)[k] {
      var d := IntToString(e[k].0);
      assert ItemTexts(e)[k] == d + ":" + e[k].1;
      assert forall i | 0 <= i < |d| :: d[i] != ';';
    }
  }

  lemma JoinNonEmpty(items: seq<string>)
    requires items != [] && items[0] != []
    ensures Join(items, ';') != []
  {
  }

  /** Loading never produces two bookmarks for one page. */
  lemma {:induction false} LoadKeepsKeysDistinct(bm: Entries, items: seq<string>)
    requires DistinctKeys(bm)
    ensures DistinctKeys(LoadItems(bm, items))
    decreases |items|
  {
    if items != [] {
      match ParseItem(items[0])
      case None => LoadKeepsKeysDistinct(bm, items[1..]);
      case Some(pn) =>
        PutSpec(bm, pn.0, pn.1);
        LoadKeepsKeysDistinct(Put(bm, pn.0, pn.1), items[1..]);
    }
  }

  // ---------------------------------------------------------------- labels

  const PagePrefix: string := "Страница "

  /** f"Страница {page + 1}: {name}" */
  function Label(p: int, name: string): string {
    PagePrefix + IntToString(p + 1) + ": " + name
  }

  /** f"Стр. {page + 1}: {name}" */
  function MenuLabel(p: int, name: string): string {
    "Стр. " + IntToString(p + 1) + ": " + name
  }

  /** The guard of the 2.5.0 and 2.9.6 list handlers. */
  predicate LooksLikeLabel(item: string) {
    Contains(item, "Страница") && ':' in item
  }

  /**
   * `int(item.split(':')[0].replace('Страница ', '').strip()) - 1`, with None for the
   * ValueError.
   */
  function ParseLabel(item: string): Option<int> {
    var head := Split(item, ':')[0];
    match ParseInt(Strip(RemoveAll(head, PagePrefix)))
    case None => None
    case Some(n) => Some(n - 1)
  }

  lemma SplitHead(s: string, c: char)
    ensures Split(s, c)[0] == (match IndexOf(s, c) case None => s case Some(i) => s[..i])
  {
  }

  /** Every list label parses back to its page, whatever the name. */
  lemma LabelParsesBack(p: int, name: string)
    ensures LooksLikeLabel(Label(p, name))
    ensures ParseLabel(Label(p, name)) == Some(p)
  {
    var l := Label(p, name);
    LabelHead(p, name);
    PrefixedNumberParses(p + 1);
    assert OccursAt(l, "Страница", 0) by { assert l[..8] == "Страница"; }
  }

  /** The part of a label before its first ':' is the prefix and the page number. */
  lemma LabelHead(p: int, name: string)
    ensures ':' in Label(p, name)
    ensures Split(Label(p, name), ':')[0] == PagePrefix + IntToString(p + 1)
  {
    var d := IntToString(p + 1);
    var l := Label(p, name);
    assert l == PagePrefix + d + ": " + name;
    var c := |PagePrefix| + |d|;
    assert l[c] == ':';
    assert ':' !in PagePrefix + d by { assert ':' !in d; }
    assert l[..c] == PagePrefix + d;
    assert IndexOf(l, ':') == Some(c);
    SplitHead(l, ':');
  }

  /** With the prefix removed and the blanks stripped, a written page number reads back. */
  lemma PrefixedNumberParses(n: int)
    ensures ParseInt(Strip(RemoveAll(PagePrefix + IntToString(n), PagePrefix))) == Some(n)
  {
    var d := IntToString(n);
    assert RemoveAll(PagePrefix + d, PagePrefix) == RemoveAll(d, PagePrefix) by {
      assert StartsWith(PagePrefix + d, PagePrefix);
      assert (PagePrefix + d)[|PagePrefix|..] == d;
    }
    assert PagePrefix[0] !in d;
    RemoveAllAbsent(d, PagePrefix);
    StripIdentity(d);
    IntToStringRoundTrip(n);
  }

  // ---------------------------------------------------------------- menu order

  /** Ascending page order, each page once. */
  predicate SortedByPage(e: Entries) {
    |e| <= 1 || (e[0].0 < e[1].0 && SortedByPage(e[1..]))
  }

  function Insert(x: (int, string), e: Entries): (r: Entries)
    ensures r != [] && (r[0] == x || (e != [] && r[0] == e[0]))
  {
    if e == [] then [x] else if x.0 <= e[0].0 then [x] + e else [e[0]] + Insert(x, e[1..])
  }

  /** `sorted(d.items())`: insertion sort by page. */
  function SortByPage(e: Entries): Entries {
    if e == [] then [] else Insert(e[0], SortByPage(e[1..]))
  }

  lemma InsertSpec(x: (int, string), e: Entries)
    requires SortedByPage(e) && x.0 !in Keys(e)
    ensures SortedByPage(Insert(x, e))
    ensures multiset(Insert(x, e)) == multiset(e) + multiset{x}
  {
    InsertSorted(x, e);
    InsertKeeps(x, e);
  }

  lemma {:induction false} InsertSorted(x: (int, string), e: Entries)
    requires SortedByPage(e) && x.0 !in Keys(e)
    ensures SortedByPage(Insert(x, e))
  {
    if e != [] && x.0 > e[0].0 {
      assert SortedByPage(e[1..]) && x.0 !in Keys(e[1..]) by {
        assert Keys(e) == [e[0].0] + Keys(e[1..]);
      }
      InsertSorted(x, e[1..]);
      var m := Insert(x, e[1..]);
      assert Insert(x, e)[1..] == m;
    } else if e != [] {
      assert Keys(e)[0] == e[0].0;
      assert Insert(x, e)[1..] == e;
    }
  }

  lemma {:induction false} InsertKeeps(x: (int, string), e: Entries)
    ensures multiset(Insert(x, e)) == multiset(e) + multiset{x}
  {
    if e != [] && x.0 > e[0].0 {
      InsertKeeps(x, e[1..]);
      assert e == [e[0]] + e[1..];
    }
  }

  /** Pages that occur in one of two lists with the same items occur in the other. */
  lemma SameItemsSameKeys(a: Entries, b: Entries, q: int)
    requires multiset(a) == multiset(b) && q in Keys(a)
    ensures q in Keys(b)
  {
    var i :| 0 <= i < |a| && Keys(a)[i] == q;
    assert a[i] in multiset(b);
    var j :| 0 <= j < |b| && b[j] == a[i];
    assert Keys(b)[j] == q;
  }

  /** The menu lists every bookmark exactly once, in ascending page order. */
  lemma {:induction false} SortByPageSpec(e: Entries)
    requires DistinctKeys(e)
    ensures SortedByPage(SortByPage(e))
    ensures multiset(SortByPage(e)) == multiset(e)
  {
    if e != [] {
      var tail := e[1..];
      SortByPageSpec(tail);
      var s := SortByPage(tail);
      if e[0].0 in Keys(s) {
        SameItemsSameKeys(s, tail, e[0].0);
      }
      InsertSpec(e[0], s);
      assert e == [e[0]] + tail;
    }
  }
}
