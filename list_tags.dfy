/**
 * scripts/list-tags.js: each line of `git tag --list --format=...` is a
 * `name|date|subject` record; the records are sorted newest first by date
 * and split into the tags that match the tag pattern and those that do not.
 */
module ListTags {
  import opened Wrappers
  import opened Strings
  import opened Seqs
  import opened SemVer
  import opened TagListing

  /** `{ name, date, subject }`; a field the line lacks is `undefined`, here `None`. */
  datatype Record = Record(name: string, date: Option<string>, subject: Option<string>)

  /** `const [name, date, subject] = tag.split('|')`. */
  function ParseRecord(line: string): (r: Record)
    ensures r.name == Split(line, '|')[0]
  {
    var p := Split(line, '|');
    Record(p[0], if |p| > 1 then Some(p[1]) else None, if |p| > 2 then Some(p[2]) else None)
  }

  /** A record with three `|`-free fields reads back as those fields. */
  lemma {:induction false} ParseRecordFields(name: string, date: string, subject: string)
    requires '|' !in name && '|' !in date && '|' !in subject
    ensures ParseRecord(name + "|" + date + "|" + subject) == Record(name, Some(date), Some(subject))
  {
    JoinThree(name, date, subject);
    SplitJoin([name, date, subject], '|');
  }

  /** A subject holding a `|` is cut at it: only its first piece is kept. */
  lemma {:induction false} SubjectTruncated(name: string, date: string, s1: string, s2: string)
    requires '|' !in name && '|' !in date && '|' !in s1 && '|' !in s2
    ensures ParseRecord(name + "|" + date + "|" + (s1 + "|" + s2)).subject == Some(s1)
  {
    var parts := [name, date, s1, s2];
    assert Join(parts, '|') == name + "|" + date + "|" + (s1 + "|" + s2) by {
      assert parts[1..] == [date, s1, s2];
      JoinThree(date, s1, s2);
    }
    SplitJoin(parts, '|');
  }

  lemma {:induction false} JoinThree(a: string, b: string, c: string)
    ensures Join([a, b, c], '|') == a + "|" + b + "|" + c
  {
    assert [a, b, c][1..] == [b, c];
    assert [b, c][1..] == [c];
    assert Join([b, c], '|') == b + "|" + c;
    assert Join([a, b, c], '|') == a + "|" + (b + "|" + c);
  }

  // ---------------------------------------------------------------- dates

  /**
   * The time `new Date(date)` stands for, as a number that orders like it:
   * `YYYY-MM-DD` with a month of 1 to 12 and a day of 1 to 31 (the form of
   * `%(creatordate:short)`); anything else is an invalid date, `NaN`.
   */
  function DateKey(date: Option<string>): (k: Option<nat>)
    ensures k.Some? ==> date.Some? && |date.value| == 10
  {
    match date
    case None => None
    case Some(d) =>
      if |d| == 10 && AllDigits(d[..4]) && d[4] == '-' && AllDigits(d[5..7]) && d[7] == '-' && AllDigits(d[8..]) then
        var y, m, day := DigitsToNat(d[..4]), DigitsToNat(d[5..7]), DigitsToNat(d[8..]);
        if 1 <= m <= 12 && 1 <= day <= 31 then Some(y * 10000 + m * 100 + day) else None
      else None
  }

  /**
   * `y` sorts strictly before `x` under `(a, b) => new Date(b.date) - new Date(a.date)`:
   * `y` is more recent. A comparison with an invalid date is `NaN`, which the
   * sort treats as equal.
   */
  predicate NewerThan(y: Record, x: Record)
  {
    var ky, kx := DateKey(y.date), DateKey(x.date);
    ky.Some? && kx.Some? && ky.value > kx.value
  }

  /** Inserting into a newest-first list: after every strictly newer record, before the rest. */
  function Insert(x: Record, s: seq<Record>): (r: seq<Record>)
    ensures multiset(r) == multiset(s) + multiset{x}
    ensures |r| == |s| + 1
    decreases |s|
  {
    if s == [] || !NewerThan(s[0], x) then [x] + s
    else
      assert s == [s[0]] + s[1..];
      [s[0]] + Insert(x, s[1..])
  }

  /** The date sort, as a stable insertion sort. */
  function SortByDate(s: seq<Record>): (r: seq<Record>)
    ensures multiset(r) == multiset(s)
    ensures |r| == |s|
    decreases |s|
  {
    if s == [] then []
    else
      assert s == [s[0]] + s[1..];
      Insert(s[0], SortByDate(s[1..]))
  }

  predicate AllDated(s: seq<Record>) { forall i :: 0 <= i < |s| ==> DateKey(s[i].date).Some? }

  /** Newest first: no record is strictly newer than one before it. */
  predicate NewestFirst(s: seq<Record>)
  {
    forall i, j :: 0 <= i < j < |s| ==> !NewerThan(s[j], s[i])
  }

  /** No record of `s` is strictly newer than `y`. */
  predicate NoneNewer(y: Record, s: seq<Record>)
  {
    forall i :: 0 <= i < |s| ==> !NewerThan(s[i], y)
  }

  lemma {:induction false} TailSorted(s: seq<Record>)
    requires |s| > 0 && AllDated(s) && NewestFirst(s)
    ensures AllDated(s[1..]) && NewestFirst(s[1..]) && NoneNewer(s[0], s[1..])
  {
    var t := s[1..];
    forall i | 0 <= i < |t| ensures DateKey(t[i].date).Some? && !NewerThan(t[i], s[0]) {
      assert t[i] == s[i + 1];
    }
    forall i, j | 0 <= i < j < |t| ensures !NewerThan(t[j], t[i]) {
      assert t[i] == s[i + 1] && t[j] == s[j + 1];
    }
  }

  lemma {:induction false} ConsSorted(h: Record, t: seq<Record>)
    requires DateKey(h.date).Some? && AllDated(t) && NewestFirst(t) && NoneNewer(h, t)
    ensures AllDated([h] + t) && NewestFirst([h] + t)
  {
    var r := [h] + t;
    forall i | 0 <= i < |r| ensures DateKey(r[i].date).Some? {
      if i > 0 {
        assert r[i] == t[i - 1];
      }
    }
    forall i, j | 0 <= i < j < |r| ensures !NewerThan(r[j], r[i]) {
      assert r[j] == t[j - 1];
      if i > 0 {
        assert r[i] == t[i - 1];
      }
    }
  }

  /** Inserting a record no newer than `y` keeps every record no newer than `y`. */
  lemma {:induction false} InsertNoneNewer(y: Record, x: Record, s: seq<Record>)
    requires NoneNewer(y, s) && !NewerThan(x, y)
    ensures NoneNewer(y, Insert(x, s))
    decreases |s|
  {
    if s == [] || !NewerThan(s[0], x) {
      var r := [x] + s;
      forall i | 0 <= i < |r| ensures !NewerThan(r[i], y) {
        if i > 0 {
          assert r[i] == s[i - 1];
        }
      }
    } else {
      var t := s[1..];
      assert NoneNewer(y, t) by {
        forall i | 0 <= i < |t| ensures !NewerThan(t[i], y) {
          assert t[i] == s[i + 1];
        }
      }
      InsertNoneNewer(y, x, t);
      var u := Insert(x, t);
      var r := [s[0]] + u;
      forall i | 0 <= i < |r| ensures !NewerThan(r[i], y) {
        if i > 0 {
          assert r[i] == u[i - 1];
        }
      }
    }
  }

  lemma {:induction false} InsertSorted(x: Record, s: seq<Record>)
    requires DateKey(x.date).Some? && AllDated(s) && NewestFirst(s)
    ensures NewestFirst(Insert(x, s)) && AllDated(Insert(x, s))
    decreases |s|
  {
    if s == [] {
      ConsSorted(x, s);
    } else if !NewerThan(s[0], x) {
      assert NoneNewer(x, s) by {
        forall j | 0 <= j < |s| ensures !NewerThan(s[j], x) {
          if j > 0 {
            assert !NewerThan(s[j], s[0]);
          }
        }
      }
      ConsSorted(x, s);
    } else {
      TailSorted(s);
      InsertSorted(x, s[1..]);
      InsertNoneNewer(s[0], x, s[1..]);
      ConsSorted(s[0], Insert(x, s[1..]));
    }
  }

  /** With every date valid, the sort puts the records newest first. */
  lemma {:induction false} SortedNewestFirst(s: seq<Record>)
    requires AllDated(s)
    ensures NewestFirst(SortByDate(s)) && AllDated(SortByDate(s))
    decreases |s|
  {
    if s != [] {
      assert AllDated(s[1..]) by {
        forall i | 0 <= i < |s[1..]| ensures DateKey(s[1..][i].date).Some? {
          assert s[1..][i] == s[i + 1];
        }
      }
      SortedNewestFirst(s[1..]);
      InsertSorted(s[0], SortByDate(s[1..]));
    }
  }

  // ------------------------------------------------------------------ run

  datatype HeadRelation = HeadOnLatest | HeadElsewhere | HeadUnknown

  datatype Outcome =
    | NoRepository
    | ListFailed
    | NoTags
    | Listed(tags: seq<Record>, valid: seq<Record>, invalid: seq<Record>, latest: Record, head: HeadRelation)

  predicate ValidRecord(r: Record) { Matches(r.name) }
  predicate InvalidRecord(r: Record) { !Matches(r.name) }

  /** The records of the listing, in listing order. */
  function Records(output: string): (rs: seq<Record>)
    ensures |rs| == |TagLines(output)|
  {
    var lines := TagLines(output);
    seq(|lines|, i requires 0 <= i < |lines| => ParseRecord(lines[i]))
  }

  /**
   * `listTags` over git's answers: the listing (`None`: it failed), and the
   * commits of HEAD and of the latest tag (`None`: that query failed).
   */
  function ListTags(isRepo: bool, listing: Option<string>, head: Option<string>, latestCommit: Option<string>): (o: Outcome)
    ensures o.Listed? ==> isRepo && |o.tags| > 0 && o.latest == o.tags[0] && |o.valid| + |o.invalid| == |o.tags|
  {
    if !isRepo then NoRepository
    else match listing
      case None => ListFailed
      case Some(out) =>
        var tags := SortByDate(Records(out));
        if |tags| == 0 then NoTags
        else
          var relation :=
            if head.None? || latestCommit.None? then HeadUnknown
            else if Trim(head.value) == Trim(latestCommit.value) then HeadOnLatest
            else HeadElsewhere;
          FilterPartition(tags, ValidRecord, InvalidRecord);
          Listed(tags, Filter(tags, ValidRecord), Filter(tags, InvalidRecord), tags[0], relation)
  }

  /** The valid and invalid lists partition the sorted records, and the latest is the first of them. */
  lemma {:induction false} ListedPartition(listing: string, head: Option<string>, latestCommit: Option<string>)
    requires ListTags(true, Some(listing), head, latestCommit).Listed?
    ensures var o := ListTags(true, Some(listing), head, latestCommit);
      && multiset(o.tags) == multiset(Records(listing))
      && o.latest == o.tags[0]
      && |o.valid| + |o.invalid| == |o.tags|
      && (forall r :: r in o.valid <==> r in o.tags && Matches(r.name))
      && (forall r :: r in o.invalid <==> r in o.tags && !Matches(r.name))
  {
    var tags := SortByDate(Records(listing));
    FilterMembers(tags, ValidRecord);
    FilterMembers(tags, InvalidRecord);
    FilterPartition(tags, ValidRecord, InvalidRecord);
  }

  /** An empty listing stops early: no statistics. */
  lemma {:induction false} EmptyStopsEarly(listing: string, head: Option<string>, latestCommit: Option<string>)
    requires TagLines(listing) == []
    ensures ListTags(true, Some(listing), head, latestCommit) == NoTags
  {
  }

  /** With every date valid, the latest reported tag is at least as recent as every other. */
  lemma {:induction false} LatestIsNewest(listing: string, head: Option<string>, latestCommit: Option<string>)
    requires AllDated(Records(listing))
    requires ListTags(true, Some(listing), head, latestCommit).Listed?
    ensures var o := ListTags(true, Some(listing), head, latestCommit);
      forall r :: r in o.tags ==> !NewerThan(r, o.latest)
  {
    var tags := SortByDate(Records(listing));
    SortedNewestFirst(Records(listing));
    forall r | r in tags ensures !NewerThan(r, tags[0]) {
      var j :| 0 <= j < |tags| && tags[j] == r;
      if j > 0 {
        assert !NewerThan(tags[j], tags[0]);
      } else {
        assert r == tags[0];
      }
    }
  }
}
