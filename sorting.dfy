/**
  `sortByProperty` and the sort the selected-user view applies with it.
  JavaScript compares two strings with `<` lexicographically; `Less` is that
  order on `seq<char>`.
 */
module Sorting {
  import opened Records

  /** Lexicographic strict order on strings (JavaScript `a < b`). */
  predicate Less(a: string, b: string)
    decreases |a|
  {
    if |a| == 0 then |b| > 0
    else if |b| == 0 then false
    else if a[0] != b[0] then a[0] < b[0]
    else Less(a[1..], b[1..])
  }

  lemma {:induction false} LessIrreflexive(a: string)
    ensures !Less(a, a)
    decreases |a|
  {
    if |a| > 0 { LessIrreflexive(a[1..]); }
  }

  lemma {:induction false} LessAsymmetric(a: string, b: string)
    ensures Less(a, b) ==> !Less(b, a)
    decreases |a|
  {
    if |a| > 0 && |b| > 0 && a[0] == b[0] { LessAsymmetric(a[1..], b[1..]); }
  }

  lemma {:induction false} LessTransitive(a: string, b: string, c: string)
    requires Less(a, b) && Less(b, c)
    ensures Less(a, c)
    decreases |a|
  {
    if |a| > 0 && a[0] == b[0] && b[0] == c[0] { LessTransitive(a[1..], b[1..], c[1..]); }
  }

  lemma {:induction false} LessTotal(a: string, b: string)
    ensures a == b || Less(a, b) || Less(b, a)
    decreases |a|
  {
    if |a| > 0 && |b| > 0 && a[0] == b[0] {
      LessTotal(a[1..], b[1..]);
      if a[1..] == b[1..] {
        assert a == [a[0]] + a[1..] && b == [b[0]] + b[1..];
      }
    }
  }

  /** The property names whose values are strings on every repo record. */
  datatype Prop = Name | HtmlUrl | UpdatedAt

  /** `repo[prop]` */
  function Field(r: Repo, p: Prop): string {
    match p
    case Name => r.name
    case HtmlUrl => r.htmlUrl
    case UpdatedAt => r.updatedAt
  }

  /**
    The comparator `sortByProperty(prop)` returns, applied to `a` and `b`:
    1 puts `a` after `b`, -1 puts it before, 0 leaves them as equal.
   */
  function SortByProperty(p: Prop, a: Repo, b: Repo): (c: int)
    ensures c == 1 <==> Less(Field(a, p), Field(b, p))
    ensures c == -1 <==> Less(Field(b, p), Field(a, p))
    ensures c == 0 <==> Field(a, p) == Field(b, p)
  {
    LessAsymmetric(Field(a, p), Field(b, p));
    LessIrreflexive(Field(a, p));
    LessTotal(Field(a, p), Field(b, p));
    if Less(Field(a, p), Field(b, p)) then 1
    else if Less(Field(b, p), Field(a, p)) then -1
    else 0
  }

  lemma ComparatorAntisymmetric(p: Prop, a: Repo, b: Repo)
    ensures SortByProperty(p, a, b) == -SortByProperty(p, b, a)
  {
  }

  /** `s` is in the order a sort with `sortByProperty(p)` produces. */
  ghost predicate SortedBy(p: Prop, s: seq<Repo>) {
    forall i, j :: 0 <= i < j < |s| ==> SortByProperty(p, s[i], s[j]) <= 0
  }

  /** Sorted by the comparator means non-increasing in the property. */
  lemma SortedIsNonIncreasing(p: Prop, s: seq<Repo>)
    requires SortedBy(p, s)
    ensures forall i, j :: 0 <= i < j < |s| ==>
              Field(s[j], p) == Field(s[i], p) || Less(Field(s[j], p), Field(s[i], p))
  {
  }

  /** Inserts `x` into a sorted sequence in front of the first element it is not below. */
  function Insert(p: Prop, x: Repo, s: seq<Repo>): (r: seq<Repo>)
    requires SortedBy(p, s)
    ensures SortedBy(p, r)
    ensures multiset(r) == multiset(s) + multiset{x}
  {
    if |s| == 0 then [x]
    else if SortByProperty(p, x, s[0]) <= 0 then
      InsertFront(p, x, s);
      [x] + s
    else
      var t := Insert(p, x, s[1..]);
      assert s == [s[0]] + s[1..];
      assert multiset(t) == multiset(s[1..]) + multiset{x};
      forall j | 0 <= j < |t| ensures SortByProperty(p, s[0], t[j]) <= 0 {
        assert t[j] in multiset(t);
        if t[j] == x {
          LessAsymmetric(Field(x, p), Field(s[0], p));
        } else {
          assert t[j] in multiset(s[1..]);
          var k :| 0 <= k < |s[1..]| && s[1..][k] == t[j];
          assert s[1 + k] == t[j];
        }
      }
      [s[0]] + t
  }

  lemma InsertFront(p: Prop, x: Repo, s: seq<Repo>)
    requires SortedBy(p, s) && |s| > 0 && SortByProperty(p, x, s[0]) <= 0
    ensures SortedBy(p, [x] + s)
  {
    forall j | 0 < j < |s| ensures SortByProperty(p, x, s[j]) <= 0 {
      var fx, f0, fj := Field(x, p), Field(s[0], p), Field(s[j], p);
      if Less(fx, fj) {
        LessTotal(f0, fj);
        if Less(f0, fj) {
        } else if f0 == fj {
        } else {
          LessTransitive(fx, fj, f0);
        }
      }
    }
  }

  /**
    `repos.sort(sortByProperty(p))`: a sort that puts the repos in the
    comparator's order. Array.prototype.sort is a library routine; insertion
    sort stands in for it.
   */
  function Sort(p: Prop, repos: seq<Repo>): (r: seq<Repo>)
    ensures SortedBy(p, r)
    ensures multiset(r) == multiset(repos)
  {
    if |repos| == 0 then []
    else
      assert repos == [repos[0]] + repos[1..];
      Insert(p, repos[0], Sort(p, repos[1..]))
  }

  /** Two repos updated in 2020 and 2021 come out newest first. */
  lemma SortExample(older: Repo, newer: Repo)
    requires older.updatedAt == "2020-01-01" && newer.updatedAt == "2021-06-01"
    ensures Sort(UpdatedAt, [older, newer]) == [newer, older]
  {
    assert Less("0-01-01", "1-06-01");
    assert Less(older.updatedAt, newer.updatedAt);
    assert [older, newer][1..] == [newer];
  }
}
