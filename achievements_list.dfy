/** The filtered view of components/achievements/achievements-list.tsx: a
    type filter (or "all") and a case-insensitive search over title and
    description. Lower-casing is modelled for ASCII letters only. */
module AchievementsList {
  import Seqs
  import opened Achievements

  datatype TypeFilter = All | Only(kind: Kind)

  function LowerChar(c: char): char
  {
    if 'A' <= c <= 'Z' then (c as int - 'A' as int + 'a' as int) as char else c
  }

  /** toLowerCase on ASCII: no capital is left, a capital moves 32 code
      points down to its small letter, and every other character stays. */
  function Lower(s: string): (r: string)
    ensures |r| == |s|
    ensures forall i :: 0 <= i < |r| ==> !('A' <= r[i] <= 'Z')
    ensures forall i :: 0 <= i < |s| && 'A' <= s[i] <= 'Z' ==> r[i] as int == s[i] as int + 32
    ensures forall i :: 0 <= i < |s| && !('A' <= s[i] <= 'Z') ==> r[i] == s[i]
  {
    seq(|s|, i requires 0 <= i < |s| => LowerChar(s[i]))
  }

  /** Lower-casing twice is lower-casing once. */
  lemma LowerIdempotent(s: string)
    ensures Lower(Lower(s)) == Lower(s)
  {
    var once := Lower(s);
    forall i | 0 <= i < |once| ensures Lower(once)[i] == once[i] {
      assert !('A' <= once[i] <= 'Z');
    }
  }

  /** includes: sub occurs in s at some position. */
  predicate Includes(s: string, sub: string)
  {
    (|sub| <= |s| && s[..|sub|] == sub) || (s != [] && Includes(s[1..], sub))
  }

  /** The view's filter callback. An empty query is falsy and matches all. */
  predicate Matches(a: Achievement, filter: TypeFilter, query: string)
  {
    (filter.All? || a.kind == filter.kind) &&
    (query == "" ||
     Includes(Lower(a.title), Lower(query)) ||
     Includes(Lower(a.description), Lower(query)))
  }

  /** filteredAchievements. */
  function FilteredAchievements(list: seq<Achievement>, filter: TypeFilter, query: string): (r: seq<Achievement>)
    ensures Seqs.IsSubsequence(r, list)
    ensures filter.Only? ==> forall i :: 0 <= i < |r| ==> r[i].kind == filter.kind
    ensures query != "" ==> forall i :: 0 <= i < |r| ==>
      Includes(Lower(r[i].title), Lower(query)) || Includes(Lower(r[i].description), Lower(query))
    ensures forall a :: multiset(r)[a] == if Matches(a, filter, query) then multiset(list)[a] else 0
  {
    Seqs.Filter((a: Achievement) => Matches(a, filter, query), list)
  }

  /** With no query the view is the type filter alone. */
  lemma EmptyQueryFiltersByTypeOnly(list: seq<Achievement>, filter: TypeFilter)
    ensures FilteredAchievements(list, filter, "") ==
      Seqs.Filter((a: Achievement) => filter.All? || a.kind == filter.kind, list)
  {
    Seqs.FilterCongruent((a: Achievement) => Matches(a, filter, ""),
                         (a: Achievement) => filter.All? || a.kind == filter.kind, list);
  }

  /** "All" with no query shows the whole list as it is. */
  lemma AllWithoutQueryIsIdentity(list: seq<Achievement>)
    ensures FilteredAchievements(list, All, "") == list
  {
    Seqs.FilterKeepsAll((a: Achievement) => Matches(a, All, ""), list);
  }

  /** Filtering the view again with the same settings changes nothing. */
  lemma FilteringTwiceIsOnce(list: seq<Achievement>, filter: TypeFilter, query: string)
    ensures FilteredAchievements(FilteredAchievements(list, filter, query), filter, query) ==
      FilteredAchievements(list, filter, query)
  {
    Seqs.FilterIdempotent((a: Achievement) => Matches(a, filter, query), list);
  }

  /** Queries that differ only in letter case give the same view. */
  lemma SearchIgnoresCase(list: seq<Achievement>, filter: TypeFilter, q1: string, q2: string)
    requires Lower(q1) == Lower(q2)
    ensures FilteredAchievements(list, filter, q1) == FilteredAchievements(list, filter, q2)
  {
    assert |q1| == |q2|;
    Seqs.FilterCongruent((a: Achievement) => Matches(a, filter, q1),
                         (a: Achievement) => Matches(a, filter, q2), list);
  }

  /** The view for a query is the view for its lower-cased form. */
  lemma SearchUsesLowerCasedQuery(list: seq<Achievement>, filter: TypeFilter, query: string)
    ensures FilteredAchievements(list, filter, query) == FilteredAchievements(list, filter, Lower(query))
  {
    LowerIdempotent(query);
    SearchIgnoresCase(list, filter, query, Lower(query));
  }
}
