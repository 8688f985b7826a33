/**
 * scripts/cleanup-tags.js: tags that differ only in a trailing
 * `-<word>.<digits>.<digits>` (the timestamp and random number the gitflow
 * script appends) are grouped; a group of two or more is a set of
 * duplicates, of which the first, the most recent in the listing's order, is
 * kept and the rest are deleted.
 */
module CleanupTags {
  import opened Strings
  import opened Seqs

  // ------------------------------------------------------------- group key

  /** The length of the longest prefix of `\w` characters. */
  function WordRun(s: string): (n: nat)
    ensures n <= |s|
    ensures forall i :: 0 <= i < n ==> IsWordChar(s[i])
    ensures n < |s| ==> !IsWordChar(s[n])
    decreases |s|
  {
    if |s| > 0 && IsWordChar(s[0]) then 1 + WordRun(s[1..]) else 0
  }

  /** `r` is matched, to its end, by `\w+\.\d+\.\d+$`. */
  predicate TimestampTail(r: string)
  {
    var w := WordRun(r);
    0 < w < |r| && r[w] == '.' &&
    var r1 := r[w + 1..];
    var d := DigitRun(r1);
    0 < d < |r1| && r1[d] == '.' &&
    var r2 := r1[d + 1..];
    |r2| > 0 && DigitRun(r2) == |r2|
  }

  /** `tag.replace(/-\w+\.\d+\.\d+$/, '')`. */
  function GroupKey(s: string): (r: string)
    ensures r <= s
    decreases |s|
  {
    if |s| > 0 && s[0] == '-' && TimestampTail(s[1..]) then ""
    else if s == [] then s
    else [s[0]] + GroupKey(s[1..])
  }

  /** A prefix holding no `-` is never cut into. */
  lemma {:induction false} GroupKeySkips(x: string, r: string)
    requires '-' !in x
    ensures GroupKey(x + r) == x + GroupKey(r)
    decreases |x|
  {
    if x != [] {
      assert (x + r)[0] == x[0] && (x + r)[1..] == x[1..] + r;
      GroupKeySkips(x[1..], r);
    } else {
      assert x + r == r;
    }
  }

  lemma {:induction false} WordRunOf(w: string, rest: string)
    requires forall i :: 0 <= i < |w| ==> IsWordChar(w[i])
    requires rest == [] || !IsWordChar(rest[0])
    ensures WordRun(w + rest) == |w|
    decreases |w|
  {
    if w != [] {
      assert (w + rest)[1..] == w[1..] + rest;
      WordRunOf(w[1..], rest);
    }
  }

  /** A word and two digit runs after a `-` form the tail the key drops. */
  lemma {:induction false} TimestampTailOf(w: string, d1: string, d2: string)
    requires |w| > 0 && forall i :: 0 <= i < |w| ==> IsWordChar(w[i])
    requires Digits1(d1) && Digits1(d2)
    ensures TimestampTail(w + "." + d1 + "." + d2)
  {
    TailRegroup(w, d1, d2);
    WordThenDigits(w, d1, d2);
  }

  lemma {:induction false} TailRegroup(w: string, d1: string, d2: string)
    ensures w + "." + d1 + "." + d2 == w + ("." + (d1 + ("." + d2)))
  {
  }

  lemma {:induction false} WordThenDigits(w: string, d1: string, d2: string)
    requires |w| > 0 && forall i :: 0 <= i < |w| ==> IsWordChar(w[i])
    requires Digits1(d1) && Digits1(d2)
    ensures TimestampTail(w + ("." + (d1 + ("." + d2))))
  {
    var rest := "." + (d1 + ("." + d2));
    var r := w + rest;
    WordRunOf(w, rest);
    var r1 := r[|w| + 1..];
    assert r1 == d1 + ("." + d2) by {
      assert r1 == rest[1..];
    }
    DigitRunOf(d1, "." + d2);
    var r2 := r1[|d1| + 1..];
    assert r2 == d2;
    DigitRunOf(d2, "");
    assert d2 + "" == d2;
    TimestampTailIntro(r, |w|, |d1|);
  }

  /** The three runs of `\w+\.\d+\.\d+`, found at known places, make a timestamp tail. */
  lemma {:induction false} TimestampTailIntro(r: string, w: nat, d: nat)
    requires 0 < w < |r| && WordRun(r) == w && r[w] == '.'
    requires 0 < d < |r[w + 1..]| && DigitRun(r[w + 1..]) == d && r[w + 1..][d] == '.'
    requires |r[w + 1..][d + 1..]| > 0 && DigitRun(r[w + 1..][d + 1..]) == |r[w + 1..][d + 1..]|
    ensures TimestampTail(r)
  {
  }

  /**
   * A tag from the gitflow retry loop, `<base>-<kind>.<time>.<random>`, is
   * grouped under `<base>` when the base holds no `-`.
   */
  lemma {:induction false} RetryTagGroupsUnderBase(base: string, kind: string, time: string, random: string)
    requires '-' !in base
    requires |kind| > 0 && forall i :: 0 <= i < |kind| ==> IsWordChar(kind[i])
    requires Digits1(time) && Digits1(random)
    ensures GroupKey(base + "-" + kind + "." + time + "." + random) == base
  {
    var tail := kind + "." + time + "." + random;
    TimestampTailOf(kind, time, random);
    DashTailDropped(tail);
    GroupKeySkips(base, "-" + tail);
    RetryRegroup(base, kind, time, random);
    assert base + "" == base;
  }

  lemma {:induction false} DashTailDropped(tail: string)
    requires TimestampTail(tail)
    ensures GroupKey("-" + tail) == ""
  {
    var r := "-" + tail;
    assert r[0] == '-' && r[1..] == tail;
  }

  lemma {:induction false} RetryRegroup(base: string, kind: string, time: string, random: string)
    ensures base + "-" + kind + "." + time + "." + random == base + ("-" + (kind + "." + time + "." + random))
  {
  }

  lemma {:induction false} SingleRegroup(base: string, kind: string, time: string)
    ensures base + "-" + kind + "." + time == base + ("-" + (kind + "." + time))
  {
  }

  /** With a single dotted field after the `-`, as in `v1.0.0-alpha.1700000000`, nothing is dropped. */
  lemma {:induction false} SingleFieldTagIsOwnKey(base: string, kind: string, time: string)
    requires '-' !in base
    requires forall i :: 0 <= i < |kind| ==> IsWordChar(kind[i])
    requires Digits1(time)
    ensures GroupKey(base + "-" + kind + "." + time) == base + "-" + kind + "." + time
  {
    var tail := kind + "." + time;
    SingleFieldNoTail(kind, time);
    SingleFieldNoDash(kind, time);
    DashKept(tail);
    GroupKeySkips(base, "-" + tail);
    SingleRegroup(base, kind, time);
  }

  /** A `-` followed by a dash-free text that is not a timestamp tail stays. */
  lemma {:induction false} DashKept(tail: string)
    requires '-' !in tail && !TimestampTail(tail)
    ensures GroupKey("-" + tail) == "-" + tail
  {
    var r := "-" + tail;
    GroupKeySkips(tail, "");
    assert tail + "" == tail;
    assert r[0] == '-' && r[1..] == tail;
  }

  lemma {:induction false} SingleFieldNoTail(kind: string, time: string)
    requires forall i :: 0 <= i < |kind| ==> IsWordChar(kind[i])
    requires Digits1(time)
    ensures !TimestampTail(kind + "." + time)
  {
    var tail := kind + "." + time;
    assert tail == kind + ("." + time);
    WordRunOf(kind, "." + time);
    assert tail[|kind| + 1..] == time;
    DigitRunOf(time, "");
    assert time + "" == time;
  }

  lemma {:induction false} SingleFieldNoDash(kind: string, time: string)
    requires forall i :: 0 <= i < |kind| ==> IsWordChar(kind[i])
    requires Digits1(time)
    ensures '-' !in kind + "." + time
  {
    var tail := kind + "." + time;
    DigitsNoDash(time);
    forall i | 0 <= i < |tail| ensures tail[i] != '-' {
      if i < |kind| {
        assert tail[i] == kind[i] && IsWordChar(kind[i]);
      } else if i > |kind| {
        assert tail[i] == time[i - |kind| - 1];
      }
    }
  }

  lemma {:induction false} DigitsNoDash(d: string)
    requires AllDigits(d)
    ensures '-' !in d
  {
    forall i | 0 <= i < |d| ensures d[i] != '-' {
      assert IsDigit(d[i]);
    }
  }

  // ---------------------------------------------------------------- groups

  /** A group of tags sharing a key, in input order. */
  datatype Group = Group(key: string, tags: seq<string>)

  /** The tags whose key is `k`, in input order (`duplicates[k]`). */
  function GroupOf(tags: seq<string>, k: string): (g: seq<string>)
    ensures |g| <= |tags|
    decreases |tags|
  {
    if tags == [] then []
    else
      var init, last := tags[..|tags| - 1], tags[|tags| - 1];
      assert tags == init + [last];
      GroupOf(init, k) + (if GroupKey(last) == k then [last] else [])
  }

  /** The distinct keys of `tags`, in order of first occurrence (the dictionary's insertion order). */
  function KeysOf(tags: seq<string>): (ks: seq<string>)
    ensures |ks| <= |tags|
    decreases |tags|
  {
    if tags == [] then []
    else
      var init, last := tags[..|tags| - 1], tags[|tags| - 1];
      var ks := KeysOf(init);
      var k := GroupKey(last);
      assert tags == init + [last];
      if k in ks then ks else ks + [k]
  }

  /** Appending a tag: its key joins the list if new, and only its key's group grows. */
  lemma {:induction false} GroupsAppend(tags: seq<string>, t: string, k: string)
    ensures GroupOf(tags + [t], k) == GroupOf(tags, k) + (if GroupKey(t) == k then [t] else [])
    ensures KeysOf(tags + [t]) == if GroupKey(t) in KeysOf(tags) then KeysOf(tags) else KeysOf(tags) + [GroupKey(t)]
  {
    assert (tags + [t])[..|tags|] == tags;
  }

  /** The listed keys are distinct and are exactly the keys of the tags. */
  lemma {:induction false} KeysListed(tags: seq<string>, k: string)
    ensures k in KeysOf(tags) <==> exists t :: t in tags && GroupKey(t) == k
    ensures forall i, j :: 0 <= i < j < |KeysOf(tags)| ==> KeysOf(tags)[i] != KeysOf(tags)[j]
  {
    KeysMembers(tags, k);
    KeysDistinct(tags);
  }

  lemma {:induction false} KeysMembers(tags: seq<string>, k: string)
    ensures k in KeysOf(tags) <==> exists t :: t in tags && GroupKey(t) == k
    decreases |tags|
  {
    if tags != [] {
      var init, last := tags[..|tags| - 1], tags[|tags| - 1];
      assert tags == init + [last];
      GroupsAppend(init, last, k);
      KeysMembers(init, k);
      assert forall t :: t in tags <==> t in init || t == last;
    }
  }

  lemma {:induction false} KeysDistinct(tags: seq<string>)
    ensures forall i, j :: 0 <= i < j < |KeysOf(tags)| ==> KeysOf(tags)[i] != KeysOf(tags)[j]
    decreases |tags|
  {
    if tags != [] {
      var init, last := tags[..|tags| - 1], tags[|tags| - 1];
      assert tags == init + [last];
      GroupsAppend(init, last, GroupKey(last));
      KeysDistinct(init);
    }
  }

  /** A group holds exactly the tags with its key. */
  lemma {:induction false} GroupMembers(tags: seq<string>, k: string, t: string)
    ensures t in GroupOf(tags, k) <==> t in tags && GroupKey(t) == k
    decreases |tags|
  {
    if tags != [] {
      var init, last := tags[..|tags| - 1], tags[|tags| - 1];
      assert tags == init + [last];
      GroupsAppend(init, last, k);
      GroupMembers(init, k, t);
    }
  }

  /** Every listed key is some tag's key, so its group is not empty. */
  lemma {:induction false} KeyHasTags(tags: seq<string>, k: string)
    requires k in KeysOf(tags)
    ensures |GroupOf(tags, k)| >= 1
    decreases |tags|
  {
    var init, last := tags[..|tags| - 1], tags[|tags| - 1];
    assert tags == init + [last];
    GroupsAppend(init, last, k);
    if GroupKey(last) != k {
      KeyHasTags(init, k);
    }
  }

  /** A key that none of the tags has has an empty group. */
  lemma {:induction false} GroupOfAbsent(tags: seq<string>, k: string)
    requires k !in KeysOf(tags)
    ensures GroupOf(tags, k) == []
    decreases |tags|
  {
    if tags != [] {
      var init, last := tags[..|tags| - 1], tags[|tags| - 1];
      assert tags == init + [last];
      GroupsAppend(init, last, k);
      assert k !in KeysOf(init);
      GroupOfAbsent(init, k);
    }
  }

  /** The dictionary `duplicates` after the `forEach`: each key's group. */
  function GroupMap(tags: seq<string>): map<string, seq<string>>
  {
    map k | k in KeysOf(tags) :: GroupOf(tags, k)
  }

  /** One step of the `forEach`: a new key starts an empty list and is listed last, then the tag is pushed. */
  lemma {:induction false} CollectStep(prefix: seq<string>, tag: string, keys: seq<string>, groups: map<string, seq<string>>)
    requires keys == KeysOf(prefix) && groups == GroupMap(prefix)
    ensures var k := GroupKey(tag);
      var started := if k in groups then groups else groups[k := []];
      KeysOf(prefix + [tag]) == (if k in groups then keys else keys + [k]) &&
      GroupMap(prefix + [tag]) == started[k := started[k] + [tag]]
  {
    var k := GroupKey(tag);
    GroupsAppend(prefix, tag, k);
    var started := if k in groups then groups else groups[k := []];
    assert k in groups <==> k in keys;
    assert forall k' :: k' in started <==> k' in KeysOf(prefix + [tag]) by {
      assert forall k' :: k' in groups <==> k' in keys;
    }
    assert forall k' :: k' in started ==> started[k'] == GroupOf(prefix, k') by {
      if k !in groups {
        GroupOfAbsent(prefix, k);
      }
    }
    PushedMap(prefix, tag, started);
  }

  lemma {:induction false} PushedMap(prefix: seq<string>, tag: string, started: map<string, seq<string>>)
    requires GroupKey(tag) in started
    requires forall k' :: k' in started <==> k' in KeysOf(prefix + [tag])
    requires forall k' :: k' in started ==> started[k'] == GroupOf(prefix, k')
    ensures var k := GroupKey(tag); GroupMap(prefix + [tag]) == started[k := started[k] + [tag]]
  {
    var k := GroupKey(tag);
    var m' := started[k := started[k] + [tag]];
    var n := GroupMap(prefix + [tag]);
    PushedKeys(prefix, tag, started, m');
    PushedValues(prefix, tag, started, m');
    assert n == m';
  }

  lemma {:induction false} PushedKeys(prefix: seq<string>, tag: string, started: map<string, seq<string>>, m': map<string, seq<string>>)
    requires GroupKey(tag) in started && m' == started[GroupKey(tag) := started[GroupKey(tag)] + [tag]]
    requires forall k' :: k' in started <==> k' in KeysOf(prefix + [tag])
    ensures GroupMap(prefix + [tag]).Keys == m'.Keys
  {
    assert m'.Keys == started.Keys;
  }

  lemma {:induction false} PushedValues(prefix: seq<string>, tag: string, started: map<string, seq<string>>, m': map<string, seq<string>>)
    requires GroupKey(tag) in started && m' == started[GroupKey(tag) := started[GroupKey(tag)] + [tag]]
    requires forall k' :: k' in started <==> k' in KeysOf(prefix + [tag])
    requires forall k' :: k' in started ==> started[k'] == GroupOf(prefix, k')
    ensures forall k' :: k' in m' ==> k' in GroupMap(prefix + [tag]) && GroupMap(prefix + [tag])[k'] == m'[k']
  {
    forall k' | k' in m' ensures k' in GroupMap(prefix + [tag]) && GroupMap(prefix + [tag])[k'] == m'[k'] {
      GroupsAppend(prefix, tag, k');
    }
  }

  function AllGroups(tags: seq<string>): (gs: seq<Group>)
    ensures |gs| == |KeysOf(tags)|
    ensures forall i :: 0 <= i < |gs| ==> gs[i] == Group(KeysOf(tags)[i], GroupOf(tags, KeysOf(tags)[i]))
  {
    var ks := KeysOf(tags);
    seq(|ks|, i requires 0 <= i < |ks| => Group(ks[i], GroupOf(tags, ks[i])))
  }

  predicate IsDuplicate(g: Group) { |g.tags| > 1 }

  // ------------------------------------------------------------ entry order

  /**
   * An array index in the sense of section 6.1.7 of ECMA-262: the canonical
   * decimal form of an integer below 2^32 - 1, such as a key `5`.
   */
  predicate IsArrayIndex(k: string)
  {
    Digits1(k) && (|k| == 1 || k[0] != '0') && DigitsToNat(k) < 0xFFFF_FFFF
  }

  /** The numeric value of an index key. */
  function IndexValue(k: string): nat { if AllDigits(k) then DigitsToNat(k) else 0 }

  predicate IndexGroup(g: Group) { IsArrayIndex(g.key) }

  predicate NamedGroup(g: Group) { !IsArrayIndex(g.key) }

  /** `gs` with `g` placed before the first group of a larger index. */
  function InsertByIndex(g: Group, gs: seq<Group>): seq<Group>
    decreases |gs|
  {
    if gs == [] || IndexValue(g.key) <= IndexValue(gs[0].key) then [g] + gs
    else [gs[0]] + InsertByIndex(g, gs[1..])
  }

  /** Inserting adds exactly that group. */
  lemma {:induction false} InsertByIndexPermutes(g: Group, gs: seq<Group>)
    ensures multiset(InsertByIndex(g, gs)) == multiset(gs) + multiset{g}
    decreases |gs|
  {
    if !(gs == [] || IndexValue(g.key) <= IndexValue(gs[0].key)) {
      InsertByIndexPermutes(g, gs[1..]);
      assert gs == [gs[0]] + gs[1..];
    }
  }

  /** The groups in ascending order of their index values, equal ones in input order. */
  function SortByIndex(gs: seq<Group>): seq<Group>
    decreases |gs|
  {
    if gs == [] then [] else InsertByIndex(gs[0], SortByIndex(gs[1..]))
  }

  /** Sorting keeps every group. */
  lemma {:induction false} SortByIndexPermutes(gs: seq<Group>)
    ensures multiset(SortByIndex(gs)) == multiset(gs)
    decreases |gs|
  {
    if gs != [] {
      SortByIndexPermutes(gs[1..]);
      InsertByIndexPermutes(gs[0], SortByIndex(gs[1..]));
      assert gs == [gs[0]] + gs[1..];
    }
  }

  predicate Ascending(gs: seq<Group>)
  {
    forall i, j :: 0 <= i < j < |gs| ==> IndexValue(gs[i].key) <= IndexValue(gs[j].key)
  }

  lemma {:induction false} InsertAscending(g: Group, gs: seq<Group>)
    requires Ascending(gs)
    ensures Ascending(InsertByIndex(g, gs))
    decreases |gs|
  {
    if gs == [] || IndexValue(g.key) <= IndexValue(gs[0].key) {
      AscendingCons(g, gs);
    } else {
      var rest := gs[1..];
      var v := IndexValue(gs[0].key);
      assert Ascending(rest) by {
        forall i, j | 0 <= i < j < |rest| ensures IndexValue(rest[i].key) <= IndexValue(rest[j].key) {
          assert rest[i] == gs[i + 1] && rest[j] == gs[j + 1];
        }
      }
      assert AtLeast(v, rest) by {
        forall i | 0 <= i < |rest| ensures v <= IndexValue(rest[i].key) {
          assert rest[i] == gs[i + 1];
        }
      }
      InsertAscending(g, rest);
      InsertAtLeast(g, rest, v);
      AscendingCons(gs[0], InsertByIndex(g, rest));
    }
  }

  /** Every index value in `gs` is at least `v`. */
  predicate AtLeast(v: nat, gs: seq<Group>)
  {
    forall i :: 0 <= i < |gs| ==> v <= IndexValue(gs[i].key)
  }

  /** Inserting a group of value at least `v` keeps every value at least `v`. */
  lemma {:induction false} InsertAtLeast(g: Group, gs: seq<Group>, v: nat)
    requires AtLeast(v, gs) && v <= IndexValue(g.key)
    ensures AtLeast(v, InsertByIndex(g, gs))
    decreases |gs|
  {
    if !(gs == [] || IndexValue(g.key) <= IndexValue(gs[0].key)) {
      var rest := gs[1..];
      assert AtLeast(v, rest) by {
        forall i | 0 <= i < |rest| ensures v <= IndexValue(rest[i].key) {
          assert rest[i] == gs[i + 1];
        }
      }
      InsertAtLeast(g, rest, v);
      var t := InsertByIndex(g, rest);
      forall i | 0 <= i < |[gs[0]] + t| ensures v <= IndexValue(([gs[0]] + t)[i].key) {
        if i > 0 {
          assert ([gs[0]] + t)[i] == t[i - 1];
        }
      }
    }
  }

  /** A group no larger than an ascending list, put in front of it. */
  lemma {:induction false} AscendingCons(x: Group, t: seq<Group>)
    requires Ascending(t) && AtLeast(IndexValue(x.key), t)
    ensures Ascending([x] + t)
  {
    var r := [x] + t;
    forall i, j | 0 <= i < j < |r| ensures IndexValue(r[i].key) <= IndexValue(r[j].key) {
      assert r[j] == t[j - 1];
      if i > 0 {
        assert r[i] == t[i - 1];
      }
    }
  }

  lemma {:induction false} SortAscending(gs: seq<Group>)
    ensures Ascending(SortByIndex(gs))
    decreases |gs|
  {
    if gs != [] {
      SortAscending(gs[1..]);
      InsertAscending(gs[0], SortByIndex(gs[1..]));
    }
  }

  /**
   * `Object.entries` of an object whose keys were created in the order of
   * `gs` (OrdinaryOwnPropertyKeys, section 10.1.11.1 of ECMA-262): the
   * array-index keys in ascending numeric order, then the others in creation
   * order.
   */
  function EntryOrder(gs: seq<Group>): seq<Group>
  {
    SortByIndex(Filter(gs, IndexGroup)) + Filter(gs, NamedGroup)
  }

  /** Index keys ahead of the others, in ascending numeric order. */
  predicate InEntryOrder(gs: seq<Group>)
  {
    forall i, j :: 0 <= i < j < |gs| && IndexGroup(gs[j]) ==>
      IndexGroup(gs[i]) && IndexValue(gs[i].key) <= IndexValue(gs[j].key)
  }

  /** The entry order lists every entry once, puts the index keys first and ascending, and keeps the other keys in creation order. */
  lemma {:induction false} EntryOrderFacts(gs: seq<Group>)
    ensures multiset(EntryOrder(gs)) == multiset(gs)
    ensures InEntryOrder(EntryOrder(gs))
    ensures Filter(EntryOrder(gs), NamedGroup) == Filter(gs, NamedGroup)
  {
    FilterSplit(gs, IndexGroup, NamedGroup);
    SortByIndexPermutes(Filter(gs, IndexGroup));
    SortedIndexGroups(gs);
    EntryOrderSorted(SortByIndex(Filter(gs, IndexGroup)), Filter(gs, NamedGroup));
    EntryOrderNamed(SortByIndex(Filter(gs, IndexGroup)), Filter(gs, NamedGroup));
  }

  /** The sorted index part holds only index keys, ascending. */
  lemma {:induction false} SortedIndexGroups(gs: seq<Group>)
    ensures var a := SortByIndex(Filter(gs, IndexGroup));
      Ascending(a) && forall i :: 0 <= i < |a| ==> IndexGroup(a[i])
  {
    var f := Filter(gs, IndexGroup);
    var a := SortByIndex(f);
    SortAscending(f);
    SortByIndexPermutes(f);
    forall i | 0 <= i < |a| ensures IndexGroup(a[i]) {
      assert a[i] in multiset(f);
      var k :| 0 <= k < |f| && f[k] == a[i];
    }
  }

  lemma {:induction false} EntryOrderSorted(a: seq<Group>, b: seq<Group>)
    requires Ascending(a) && forall i :: 0 <= i < |a| ==> IndexGroup(a[i])
    requires forall i :: 0 <= i < |b| ==> NamedGroup(b[i])
    ensures InEntryOrder(a + b)
  {
    var r := a + b;
    forall j | |a| <= j < |r| ensures !IndexGroup(r[j]) {
      assert r[j] == b[j - |a|];
    }
    forall i, j | 0 <= i < j < |r| && IndexGroup(r[j])
      ensures IndexGroup(r[i]) && IndexValue(r[i].key) <= IndexValue(r[j].key)
    {
      assert r[i] == a[i] && r[j] == a[j];
    }
  }

  lemma {:induction false} EntryOrderNamed(a: seq<Group>, b: seq<Group>)
    requires forall i :: 0 <= i < |a| ==> IndexGroup(a[i])
    requires forall i :: 0 <= i < |b| ==> NamedGroup(b[i])
    ensures Filter(a + b, NamedGroup) == b
  {
    FilterAppend(a, b, NamedGroup);
    FilterNone(a, NamedGroup);
    FilterAll(b, NamedGroup);
  }

  /** The tail of a list in entry order is in entry order. */
  lemma {:induction false} EntryOrderTail(gs: seq<Group>)
    requires gs != [] && InEntryOrder(gs)
    ensures InEntryOrder(gs[1..])
  {
    var rest := gs[1..];
    forall i, j | 0 <= i < j < |rest| && IndexGroup(rest[j])
      ensures IndexGroup(rest[i]) && IndexValue(rest[i].key) <= IndexValue(rest[j].key)
    {
      assert rest[i] == gs[i + 1] && rest[j] == gs[j + 1];
    }
  }

  /** The head of a list in entry order is an index no larger than any later index. */
  lemma {:induction false} EntryOrderHead(gs: seq<Group>, y: Group)
    requires gs != [] && InEntryOrder(gs)
    requires y in gs[1..] && IndexGroup(y)
    ensures IndexGroup(gs[0]) && IndexValue(gs[0].key) <= IndexValue(y.key)
  {
    var k :| 0 <= k < |gs[1..]| && gs[1..][k] == y;
    assert gs[k + 1] == y;
  }

  /** A list in entry order extended in front by an index no larger than its indices, or by anything before no index. */
  lemma {:induction false} EntryOrderCons(x: Group, t: seq<Group>)
    requires InEntryOrder(t)
    requires forall j :: 0 <= j < |t| && IndexGroup(t[j]) ==> IndexGroup(x) && IndexValue(x.key) <= IndexValue(t[j].key)
    ensures InEntryOrder([x] + t)
  {
    var r := [x] + t;
    forall i, j | 0 <= i < j < |r| && IndexGroup(r[j])
      ensures IndexGroup(r[i]) && IndexValue(r[i].key) <= IndexValue(r[j].key)
    {
      assert r[j] == t[j - 1];
      if i > 0 {
        assert r[i] == t[i - 1];
      }
    }
  }

  /** Dropping entries keeps the rest in entry order. */
  lemma {:induction false} FilterInEntryOrder(gs: seq<Group>, p: Group -> bool)
    requires InEntryOrder(gs)
    ensures InEntryOrder(Filter(gs, p))
    decreases |gs|
  {
    if gs != [] {
      var rest := gs[1..];
      EntryOrderTail(gs);
      FilterInEntryOrder(rest, p);
      var t := Filter(rest, p);
      if p(gs[0]) {
        forall j | 0 <= j < |t| && IndexGroup(t[j])
          ensures IndexGroup(gs[0]) && IndexValue(gs[0].key) <= IndexValue(t[j].key)
        {
          EntryOrderHead(gs, t[j]);
        }
        EntryOrderCons(gs[0], t);
        assert Filter(gs, p) == [gs[0]] + t;
      } else {
        assert Filter(gs, p) == t;
      }
    }
  }

  /** In a list in entry order that starts with a named key, no key is an index. */
  lemma {:induction false} NamedHeadNoIndex(gs: seq<Group>)
    requires gs != [] && InEntryOrder(gs) && NamedGroup(gs[0])
    ensures forall i :: 0 <= i < |gs| ==> NamedGroup(gs[i])
  {
  }

  /** A list already in entry order is its own entry order. */
  lemma {:induction false} EntryOrderStable(gs: seq<Group>)
    requires InEntryOrder(gs)
    ensures EntryOrder(gs) == gs
    decreases |gs|
  {
    if gs == [] {
    } else if IndexGroup(gs[0]) {
      EntryOrderTail(gs);
      EntryOrderStable(gs[1..]);
      HeadNoLarger(gs);
      EntryOrderStableStep(gs);
    } else {
      NamedHeadNoIndex(gs);
      AllNamedEntryOrder(gs);
    }
  }

  /** An index key ahead of a list that is its own entry order. */
  lemma {:induction false} EntryOrderStableStep(gs: seq<Group>)
    requires gs != [] && IndexGroup(gs[0])
    requires EntryOrder(gs[1..]) == gs[1..]
    requires var sorted := SortByIndex(Filter(gs[1..], IndexGroup));
      sorted == [] || IndexValue(gs[0].key) <= IndexValue(sorted[0].key)
    ensures EntryOrder(gs) == gs
  {
    EntryOrderOfHead(gs);
    assert gs == [gs[0]] + gs[1..];
  }

  /** An index key no larger than the rest's goes first in the entry order. */
  lemma {:induction false} EntryOrderOfHead(gs: seq<Group>)
    requires gs != [] && IndexGroup(gs[0])
    requires var sorted := SortByIndex(Filter(gs[1..], IndexGroup));
      sorted == [] || IndexValue(gs[0].key) <= IndexValue(sorted[0].key)
    ensures EntryOrder(gs) == [gs[0]] + EntryOrder(gs[1..])
  {
    var x, rest := gs[0], gs[1..];
    var f := Filter(rest, IndexGroup);
    FilterIndexHead(gs);
    SortByIndexCons(x, f);
    ConsRegroup(x, SortByIndex(f), Filter(rest, NamedGroup));
  }

  /** Concatenation regrouped. */
  lemma ConsRegroup(x: Group, a: seq<Group>, b: seq<Group>)
    ensures [x] + a + b == [x] + (a + b)
  {
  }

  /** The head of a list in entry order is no larger than the first of its sorted index keys. */
  lemma {:induction false} HeadNoLarger(gs: seq<Group>)
    requires gs != [] && InEntryOrder(gs)
    requires EntryOrder(gs[1..]) == gs[1..]
    ensures var sorted := SortByIndex(Filter(gs[1..], IndexGroup));
      sorted == [] || IndexValue(gs[0].key) <= IndexValue(sorted[0].key)
  {
    var rest := gs[1..];
    var sorted := SortByIndex(Filter(rest, IndexGroup));
    SortedIndexGroups(rest);
    if sorted != [] {
      assert rest == sorted + Filter(rest, NamedGroup);
      assert sorted[0] == rest[0];
      assert rest[0] in gs[1..];
      EntryOrderHead(gs, rest[0]);
    }
  }

  /** Filtering a list that starts with an index key. */
  lemma {:induction false} FilterIndexHead(gs: seq<Group>)
    requires gs != [] && IndexGroup(gs[0])
    ensures Filter(gs, IndexGroup) == [gs[0]] + Filter(gs[1..], IndexGroup)
    ensures Filter(gs, NamedGroup) == Filter(gs[1..], NamedGroup)
  {
  }

  /** A key no larger than the smallest of the sorted rest goes first. */
  lemma {:induction false} SortByIndexCons(g: Group, f: seq<Group>)
    requires SortByIndex(f) == [] || IndexValue(g.key) <= IndexValue(SortByIndex(f)[0].key)
    ensures SortByIndex([g] + f) == [g] + SortByIndex(f)
  {
    assert ([g] + f)[0] == g && ([g] + f)[1..] == f;
  }

  /** Without index keys the entry order is the creation order. */
  lemma {:induction false} AllNamedEntryOrder(gs: seq<Group>)
    requires forall i :: 0 <= i < |gs| ==> NamedGroup(gs[i])
    ensures EntryOrder(gs) == gs
  {
    FilterNone(gs, IndexGroup);
    FilterAll(gs, NamedGroup);
    assert SortByIndex([]) == [];
  }

  /** The groups of the listed keys, read from the dictionary. */
  function GroupsOf(keys: seq<string>, groups: map<string, seq<string>>): (gs: seq<Group>)
    requires forall i :: 0 <= i < |keys| ==> keys[i] in groups
    ensures |gs| == |keys|
    ensures forall i :: 0 <= i < |keys| ==> gs[i] == Group(keys[i], groups[keys[i]])
  {
    seq(|keys|, i requires 0 <= i < |keys| => Group(keys[i], groups[keys[i]]))
  }

  /** Reading the dictionary of all tags in key order gives every group. */
  lemma {:induction false} GroupsOfAll(tags: seq<string>)
    ensures forall i :: 0 <= i < |KeysOf(tags)| ==> KeysOf(tags)[i] in GroupMap(tags)
    ensures GroupsOf(KeysOf(tags), GroupMap(tags)) == AllGroups(tags)
  {
    var ks := KeysOf(tags);
    forall i | 0 <= i < |ks| ensures ks[i] in GroupMap(tags) {
      assert ks[i] in ks;
    }
    var gs := GroupsOf(ks, GroupMap(tags));
    forall i | 0 <= i < |ks| ensures gs[i] == AllGroups(tags)[i] {
      assert ks[i] in ks;
    }
  }

  /** The `filter` of `findDuplicateTags`: the entries of two or more tags, in entry order. */
  method SelectDuplicates(entries: seq<Group>) returns (dups: seq<Group>)
    ensures dups == Filter(entries, IsDuplicate)
  {
    dups := [];
    var j := 0;
    while j < |entries|
      invariant 0 <= j <= |entries|
      invariant dups == Filter(entries[..j], IsDuplicate)
    {
      FilterPrefixStep(entries, j, IsDuplicate);
      if IsDuplicate(entries[j]) {
        dups := dups + [entries[j]];
      }
      j := j + 1;
    }
    assert entries[..|entries|] == entries;
  }

  /** Filtering one more element of a prefix. */
  lemma {:induction false} FilterPrefixStep<T>(s: seq<T>, j: nat, p: T -> bool)
    requires j < |s|
    ensures Filter(s[..j + 1], p) == Filter(s[..j], p) + (if p(s[j]) then [s[j]] else [])
  {
    assert s[..j + 1] == s[..j] + [s[j]];
    FilterAppend(s[..j], [s[j]], p);
    assert Filter([s[j]], p) == (if p(s[j]) then [s[j]] else []) + Filter([s[j]][1..], p);
    assert [s[j]][1..] == [];
  }

  /**
   * What `findDuplicateTags` returns: the entries of the dictionary, in
   * `Object.entries` order, that hold two or more tags.
   */
  function DuplicateGroups(tags: seq<string>): seq<Group>
  {
    Filter(EntryOrder(AllGroups(tags)), IsDuplicate)
  }

  /** A reported group really is a set of duplicates: one key, input order, two or more tags. */
  lemma {:induction false} DuplicateGroupsShape(tags: seq<string>, g: Group)
    requires g in DuplicateGroups(tags)
    ensures |g.tags| >= 2
    ensures g.key in KeysOf(tags) && g.tags == GroupOf(tags, g.key)
  {
    var gs := AllGroups(tags);
    EntryOrderFacts(gs);
    assert g in EntryOrder(gs) && IsDuplicate(g);
    assert g in multiset(gs);
    var j :| 0 <= j < |gs| && gs[j] == g;
  }

  /** A key with two or more tags is reported. */
  lemma {:induction false} DuplicateKeysReported(tags: seq<string>, k: string)
    requires k in KeysOf(tags) && |GroupOf(tags, k)| >= 2
    ensures Group(k, GroupOf(tags, k)) in DuplicateGroups(tags)
  {
    var ks, gs := KeysOf(tags), AllGroups(tags);
    var i :| 0 <= i < |ks| && ks[i] == k;
    assert gs[i] == Group(k, GroupOf(tags, k));
    EntryOrderFacts(gs);
    assert gs[i] in multiset(EntryOrder(gs));
    FilterMembers(EntryOrder(gs), IsDuplicate);
  }

  /**
   * The reported order is `Object.entries` order: integer-like keys first,
   * in ascending numeric order, then the other keys in order of first
   * occurrence. The object the groups are collected into lists them in the
   * same order again.
   */
  lemma {:induction false} DuplicatesInEntryOrder(tags: seq<string>)
    ensures InEntryOrder(DuplicateGroups(tags))
    ensures EntryOrder(DuplicateGroups(tags)) == DuplicateGroups(tags)
    ensures Filter(DuplicateGroups(tags), NamedGroup) == Filter(Filter(AllGroups(tags), IsDuplicate), NamedGroup)
  {
    var gs := AllGroups(tags);
    EntryOrderFacts(gs);
    FilterInEntryOrder(EntryOrder(gs), IsDuplicate);
    EntryOrderStable(DuplicateGroups(tags));
    FilterCommute(EntryOrder(gs), IsDuplicate, NamedGroup);
    FilterCommute(gs, IsDuplicate, NamedGroup);
  }

  /** Tags that start with `v` have keys that are not integer-like, so their groups come in order of first occurrence. */
  lemma {:induction false} VersionTagsInListingOrder(tags: seq<string>)
    requires forall i :: 0 <= i < |tags| ==> |tags[i]| > 0 && tags[i][0] == 'v'
    ensures DuplicateGroups(tags) == Filter(AllGroups(tags), IsDuplicate)
  {
    var gs := AllGroups(tags);
    var ks := KeysOf(tags);
    forall i | 0 <= i < |gs| ensures NamedGroup(gs[i]) {
      assert ks[i] in ks;
      KeysListed(tags, ks[i]);
      var t :| t in tags && GroupKey(t) == ks[i];
      VersionKey(t);
    }
    AllNamedEntryOrder(gs);
  }

  /** The key of a tag that starts with `v` starts with `v`, so it is not an array index. */
  lemma {:induction false} VersionKey(t: string)
    requires |t| > 0 && t[0] == 'v'
    ensures !IsArrayIndex(GroupKey(t))
  {
    var k := GroupKey(t);
    if |k| > 0 {
      assert k[0] == 'v';
      assert !IsDigit(k[0]);
    } else {
      assert t[1..] == t[1..];
    }
  }

  /** Non-empty groups, as the cleanup reads `tags[0]` of each. */
  predicate NonEmpty(gs: seq<Group>) { forall i :: 0 <= i < |gs| ==> |gs[i].tags| >= 1 }

  lemma {:induction false} DuplicatesNonEmpty(tags: seq<string>)
    ensures NonEmpty(DuplicateGroups(tags))
  {
    var dups := DuplicateGroups(tags);
    forall i | 0 <= i < |dups| ensures |dups[i].tags| >= 1 {
      assert dups[i] in dups;
      DuplicateGroupsShape(tags, dups[i]);
    }
  }

  // ----------------------------------------------------------------- counts

  /** `reduce((total, tags) => total + (tags.length - 1), 0)`. */
  function Excess(gs: seq<Group>): int
    decreases |gs|
  {
    if gs == [] then 0 else (|gs[0].tags| - 1) + Excess(gs[1..])
  }

  /** Dropping the single-tag groups does not change the excess. */
  lemma {:induction false} ExcessOfDuplicates(gs: seq<Group>)
    requires NonEmpty(gs)
    ensures Excess(Filter(gs, IsDuplicate)) == Excess(gs)
    decreases |gs|
  {
    if gs != [] {
      ExcessOfDuplicates(gs[1..]);
      var rest := Filter(gs[1..], IsDuplicate);
      if IsDuplicate(gs[0]) {
        assert Filter(gs, IsDuplicate) == [gs[0]] + rest;
        assert ([gs[0]] + rest)[1..] == rest;
      } else {
        assert Filter(gs, IsDuplicate) == rest;
      }
    }
  }

  /** `Excess` over the groups of a list of keys, computed from the keys. */
  function KeyExcess(tags: seq<string>, ks: seq<string>): int
    decreases |ks|
  {
    if ks == [] then 0 else (|GroupOf(tags, ks[0])| - 1) + KeyExcess(tags, ks[1..])
  }

  lemma {:induction false} ExcessOfAll(tags: seq<string>, ks: seq<string>, gs: seq<Group>)
    requires |gs| == |ks| && forall i :: 0 <= i < |gs| ==> gs[i].tags == GroupOf(tags, ks[i])
    ensures Excess(gs) == KeyExcess(tags, ks)
    decreases |ks|
  {
    if ks != [] {
      ExcessOfAll(tags, ks[1..], gs[1..]);
    }
  }

  /** Appending one tag adds one to the excess of its key's group, when that key is listed. */
  lemma {:induction false} KeyExcessAppend(tags: seq<string>, t: string, ks: seq<string>)
    requires forall i, j :: 0 <= i < j < |ks| ==> ks[i] != ks[j]
    ensures KeyExcess(tags + [t], ks) == KeyExcess(tags, ks) + (if GroupKey(t) in ks then 1 else 0)
    decreases |ks|
  {
    if ks != [] {
      var k, rest := ks[0], ks[1..];
      GroupsAppend(tags, t, k);
      assert ks == [k] + rest;
      assert forall i, j :: 0 <= i < j < |rest| ==> rest[i] != rest[j] by {
        forall i, j | 0 <= i < j < |rest| ensures rest[i] != rest[j] {
          assert rest[i] == ks[i + 1] && rest[j] == ks[j + 1];
        }
      }
      assert k !in rest by {
        forall i | 0 <= i < |rest| ensures rest[i] != k { assert rest[i] == ks[i + 1]; }
      }
      KeyExcessAppend(tags, t, rest);
      assert KeyExcess(tags + [t], ks) == (|GroupOf(tags + [t], k)| - 1) + KeyExcess(tags + [t], rest);
      assert KeyExcess(tags, ks) == (|GroupOf(tags, k)| - 1) + KeyExcess(tags, rest);
    }
  }

  lemma {:induction false} KeyExcessSnoc(tags: seq<string>, ks: seq<string>, k: string)
    ensures KeyExcess(tags, ks + [k]) == KeyExcess(tags, ks) + (|GroupOf(tags, k)| - 1)
    decreases |ks|
  {
    if ks == [] {
      assert [] + [k] == [k];
    } else {
      assert (ks + [k])[1..] == ks[1..] + [k];
      KeyExcessSnoc(tags, ks[1..], k);
    }
  }

  /** The groups partition the list: the excess is the length less the number of keys. */
  lemma {:induction false} KeyExcessTotal(tags: seq<string>)
    ensures KeyExcess(tags, KeysOf(tags)) == |tags| - |KeysOf(tags)|
    decreases |tags|
  {
    if tags != [] {
      var init, t := tags[..|tags| - 1], tags[|tags| - 1];
      assert tags == init + [t];
      var ks := KeysOf(init);
      KeyExcessTotal(init);
      KeysListed(init, GroupKey(t));
      KeyExcessAppend(init, t, ks);
      GroupsAppend(init, t, GroupKey(t));
      if GroupKey(t) !in ks {
        GroupOfAbsent(init, GroupKey(t));
        KeyExcessSnoc(tags, ks, GroupKey(t));
      }
    }
  }

  lemma {:induction false} AllGroupsNonEmpty(tags: seq<string>)
    ensures NonEmpty(AllGroups(tags))
  {
    var gs := AllGroups(tags);
    var ks := KeysOf(tags);
    forall i | 0 <= i < |gs| ensures |gs[i].tags| >= 1 {
      KeyHasTags(tags, ks[i]);
    }
  }

  /** `showTagSummary`'s numbers and its five most recent tags. */
  datatype Summary = Summary(total: nat, unique: int, duplicates: int, groups: nat, recent: seq<string>)

  function TagSummary(tags: seq<string>): Summary
  {
    var dups := DuplicateGroups(tags);
    var unique := |tags| - Excess(dups);
    Summary(|tags|, unique, |tags| - unique, |dups|, tags[..if |tags| < 5 then |tags| else 5])
  }

  /** The unique count is the number of distinct keys; unique and duplicate counts add up to the total. */
  lemma {:induction false} SummaryCounts(tags: seq<string>)
    ensures TagSummary(tags).unique == |KeysOf(tags)|
    ensures TagSummary(tags).unique + TagSummary(tags).duplicates == |tags|
    ensures TagSummary(tags).duplicates == Excess(DuplicateGroups(tags)) >= 0
  {
    DuplicateExcess(tags);
  }

  /** Over the groups of two or more, the excess is the length less the number of keys. */
  lemma {:induction false} DuplicateExcess(tags: seq<string>)
    ensures Excess(DuplicateGroups(tags)) == |tags| - |KeysOf(tags)|
  {
    var gs := AllGroups(tags);
    var es := EntryOrder(gs);
    AllGroupsNonEmpty(tags);
    EntryOrderFacts(gs);
    forall i | 0 <= i < |es| ensures |es[i].tags| >= 1 {
      assert es[i] in multiset(gs);
      var j :| 0 <= j < |gs| && gs[j] == es[i];
    }
    ExcessOfDuplicates(es);
    ExcessPermutation(es, gs);
    AllGroupsExcess(tags);
  }

  lemma {:induction false} ExcessConcat(a: seq<Group>, b: seq<Group>)
    ensures Excess(a + b) == Excess(a) + Excess(b)
    decreases |a|
  {
    if a == [] {
      assert a + b == b;
    } else {
      assert (a + b)[0] == a[0] && (a + b)[1..] == a[1..] + b;
      ExcessConcat(a[1..], b);
    }
  }

  /** The excess is a sum, so it does not depend on the order of the groups. */
  lemma {:induction false} ExcessPermutation(a: seq<Group>, b: seq<Group>)
    requires multiset(a) == multiset(b)
    ensures Excess(a) == Excess(b)
    decreases |a|
  {
    if a == [] {
      assert |b| == |multiset(b)| == 0;
    } else {
      var x := a[0];
      assert x in multiset(a);
      assert x in b;
      var i :| 0 <= i < |b| && b[i] == x;
      RemovePermutes(a, b, i);
      ExcessPermutation(a[1..], b[..i] + b[i + 1..]);
      ExcessRemove(b, i);
    }
  }

  /** Removing the same group from two permutations of each other leaves permutations. */
  lemma {:induction false} RemovePermutes(a: seq<Group>, b: seq<Group>, i: nat)
    requires a != [] && multiset(a) == multiset(b) && i < |b| && b[i] == a[0]
    ensures multiset(a[1..]) == multiset(b[..i] + b[i + 1..])
  {
    MultisetRemove(b, i);
    MultisetRemove(a, 0);
    assert a[..0] + a[1..] == a[1..];
    MultisetCancel(multiset(a[1..]), multiset(b[..i] + b[i + 1..]), a[0]);
  }

  /** Removing the element at `i` leaves the others. */
  lemma {:induction false} MultisetRemove(b: seq<Group>, i: nat)
    requires i < |b|
    ensures multiset(b) == multiset(b[..i] + b[i + 1..]) + multiset{b[i]}
  {
    assert b == b[..i] + [b[i]] + b[i + 1..];
  }

  /** One occurrence of the same element cancels. */
  lemma {:induction false} MultisetCancel(p: multiset<Group>, q: multiset<Group>, x: Group)
    requires p + multiset{x} == q + multiset{x}
    ensures p == q
  {
    forall y ensures p[y] == q[y] {
      assert (p + multiset{x})[y] == (q + multiset{x})[y];
    }
  }

  /** The excess of a list is the excess without one group plus that group's own. */
  lemma {:induction false} ExcessRemove(b: seq<Group>, i: nat)
    requires i < |b|
    ensures Excess(b) == Excess(b[..i] + b[i + 1..]) + (|b[i].tags| - 1)
  {
    var x := b[i];
    ExcessConcat(b[..i], [x] + b[i + 1..]);
    ExcessConcat([x], b[i + 1..]);
    ExcessConcat(b[..i], b[i + 1..]);
    assert b[..i] + ([x] + b[i + 1..]) == b;
    assert Excess([x]) == |x.tags| - 1 by {
      assert [x][1..] == [];
    }
  }

  lemma {:induction false} AllGroupsExcess(tags: seq<string>)
    ensures Excess(AllGroups(tags)) == |tags| - |KeysOf(tags)|
  {
    ExcessOfAll(tags, KeysOf(tags), AllGroups(tags));
    KeyExcessTotal(tags);
  }

  // --------------------------------------------------------------- cleanup

  /** `tags[0]` of every group. */
  function Kept(gs: seq<Group>): (r: seq<string>)
    requires NonEmpty(gs)
    ensures |r| == |gs| && forall i :: 0 <= i < |gs| ==> r[i] == gs[i].tags[0]
    decreases |gs|
  {
    if gs == [] then [] else [gs[0].tags[0]] + Kept(gs[1..])
  }

  /** `tags.slice(1)` of every group, one after the other. */
  function Removed(gs: seq<Group>): (r: seq<string>)
    requires NonEmpty(gs)
    ensures forall t :: t in r ==> exists i :: 0 <= i < |gs| && t in gs[i].tags[1..]
    ensures forall i, t :: 0 <= i < |gs| && t in gs[i].tags[1..] ==> t in r
    decreases |gs|
  {
    if gs == [] then []
    else
      var rest := Removed(gs[1..]);
      assert forall i :: 1 <= i < |gs| ==> gs[i] == gs[1..][i - 1];
      gs[0].tags[1..] + rest
  }

  class TagCleanup {
    /** The listing of `git tag --sort=-version:refname`, newest first. */
    const tags: seq<string>

    constructor(listing: seq<string>)
      ensures tags == listing
    {
      tags := listing;
    }

    /** `findDuplicateTags`: key each tag, append it to its key's list, keep the lists of two or more. */
    method FindDuplicateTags() returns (dups: seq<Group>)
      ensures dups == DuplicateGroups(tags)
    {
      var keys, groups := CollectGroups();
      GroupsOfAll(tags);
      var entries := EntryOrder(GroupsOf(keys, groups));
      dups := SelectDuplicates(entries);
    }

    /** The `forEach` of `findDuplicateTags`: the dictionary from key to tags, and its key order. */
    method CollectGroups() returns (keys: seq<string>, groups: map<string, seq<string>>)
      ensures keys == KeysOf(tags) && groups == GroupMap(tags)
    {
      keys, groups := [], map[];
      var i := 0;
      assert tags[..0] == [];
      assert GroupMap([]) == map[];
      while i < |tags|
        invariant 0 <= i <= |tags|
        invariant keys == KeysOf(tags[..i])
        invariant groups == GroupMap(tags[..i])
      {
        var tag := tags[i];
        var k := GroupKey(tag);
        assert tags[..i + 1] == tags[..i] + [tag];
        CollectStep(tags[..i], tag, keys, groups);
        if k !in groups {
          keys := keys + [k];
          groups := groups[k := []];
        }
        groups := groups[k := groups[k] + [tag]];
        i := i + 1;
      }
      assert tags[..|tags|] == tags;
    }

    /** `cleanupDuplicateTags`: for each duplicate group keep `tags[0]` and issue `git tag -d` for the rest. */
    method CleanupDuplicateTags() returns (kept: seq<string>, deleted: seq<string>)
      ensures NonEmpty(DuplicateGroups(tags))
      ensures kept == Kept(DuplicateGroups(tags)) && deleted == Removed(DuplicateGroups(tags))
    {
      var dups := FindDuplicateTags();
      DuplicatesNonEmpty(tags);
      kept, deleted := [], [];
      var i := |dups|;
      while i > 0
        invariant 0 <= i <= |dups|
        invariant kept == Kept(dups[i..]) && deleted == Removed(dups[i..])
      {
        i := i - 1;
        assert dups[i..][1..] == dups[i + 1..];
        kept := [dups[i].tags[0]] + kept;
        deleted := dups[i].tags[1..] + deleted;
      }
    }
  }

  /** Only tags of duplicate groups are deleted, and never the first of a group. */
  lemma {:induction false} DeletedOnlyDuplicates(tags: seq<string>, t: string)
    requires NonEmpty(DuplicateGroups(tags)) && t in Removed(DuplicateGroups(tags))
    ensures t in tags && |GroupOf(tags, GroupKey(t))| >= 2 && t in GroupOf(tags, GroupKey(t))[1..]
  {
    DuplicatesNonEmpty(tags);
    var dups := DuplicateGroups(tags);
    var i :| 0 <= i < |dups| && t in dups[i].tags[1..];
    assert dups[i] in dups;
    DuplicateGroupsShape(tags, dups[i]);
    var g := dups[i].tags;
    var m :| 0 <= m < |g[1..]| && g[1..][m] == t;
    assert g[m + 1] == t;
    assert t in g;
    GroupMembers(tags, dups[i].key, t);
  }

  /** Every tag of a duplicate group after its first is deleted. */
  lemma {:induction false} LaterDuplicatesDeleted(tags: seq<string>, t: string)
    requires |GroupOf(tags, GroupKey(t))| >= 2 && t in GroupOf(tags, GroupKey(t))[1..]
    ensures NonEmpty(DuplicateGroups(tags)) && t in Removed(DuplicateGroups(tags))
  {
    var k := GroupKey(t);
    var g := GroupOf(tags, k);
    assert t in g;
    GroupMembers(tags, k, t);
    KeysListed(tags, k);
    DuplicateKeysReported(tags, k);
    DuplicatesNonEmpty(tags);
    var dups := DuplicateGroups(tags);
    var i :| 0 <= i < |dups| && dups[i] == Group(k, g);
  }

  /** In a listing of distinct names, the first tag of each group is never deleted. */
  lemma {:induction false} FirstOfGroupKept(tags: seq<string>, k: string)
    requires forall i, j :: 0 <= i < j < |tags| ==> tags[i] != tags[j]
    requires |GroupOf(tags, k)| >= 1
    ensures NonEmpty(DuplicateGroups(tags)) && GroupOf(tags, k)[0] !in Removed(DuplicateGroups(tags))
  {
    DuplicatesNonEmpty(tags);
    var g := GroupOf(tags, k);
    var t := g[0];
    assert t in g;
    GroupMembers(tags, k, t);
    GroupOfDistinct(tags, k);
    FirstNotInTail(g);
    if t in Removed(DuplicateGroups(tags)) {
      DeletedOnlyDuplicates(tags, t);
    }
  }

  lemma {:induction false} FirstNotInTail(g: seq<string>)
    requires |g| >= 1 && forall i, j :: 0 <= i < j < |g| ==> g[i] != g[j]
    ensures g[0] !in g[1..]
  {
    forall i | 0 <= i < |g| - 1 ensures g[1..][i] != g[0] {
      assert g[1..][i] == g[i + 1];
    }
  }

  /** A group of a list of distinct names holds distinct names. */
  lemma {:induction false} GroupOfDistinct(tags: seq<string>, k: string)
    requires forall i, j :: 0 <= i < j < |tags| ==> tags[i] != tags[j]
    ensures var g := GroupOf(tags, k); forall i, j :: 0 <= i < j < |g| ==> g[i] != g[j]
    decreases |tags|
  {
    if tags != [] {
      var init, last := tags[..|tags| - 1], tags[|tags| - 1];
      assert tags == init + [last];
      GroupOfDistinct(init, k);
      var gi := GroupOf(init, k);
      forall m | 0 <= m < |init| ensures init[m] != last {
        assert tags[m] == init[m];
      }
      GroupsAppend(init, last, k);
      var g := GroupOf(tags, k);
      forall i, j | 0 <= i < j < |g| ensures g[i] != g[j] {
        if j == |gi| {
          assert gi[i] in gi;
          GroupMembers(init, k, gi[i]);
        } else {
          assert g[i] == gi[i] && g[j] == gi[j];
        }
      }
    }
  }
}
