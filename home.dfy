/**
 * The search box of the browse page: `filteredGroups` keeps a group when
 * its lower-cased name or description contains the lower-cased search.
 */
module Home {
  import opened Wrappers
  import opened Strings
  import opened Schema

  /** Lower-casing keeps an occurrence where it was. */
  lemma LowerKeepsOccurrence(s: string, pat: string)
    ensures Contains(s, pat) ==> Contains(ToLower(s), ToLower(pat))
  {
    if Contains(s, pat) {
      var i: nat :| i <= |s| && OccursAt(s, pat, i);
      assert ToLower(s)[i..i + |pat|] == ToLower(pat) by {
        forall k | 0 <= k < |pat| ensures ToLower(s)[i..i + |pat|][k] == ToLower(pat)[k] {
          assert s[i..i + |pat|][k] == pat[k];
        }
      }
      assert OccursAt(ToLower(s), ToLower(pat), i);
    }
  }

  /**
   * The filter's test for one group: its lower-cased name or description
   * contains the lower-cased search, so a search that occurs verbatim in
   * either always matches.
   */
  predicate Matches(g: Group, search: string)
    ensures Contains(g.name, search) || Contains(g.description, search) ==> Matches(g, search)
  {
    LowerKeepsOccurrence(g.name, search);
    LowerKeepsOccurrence(g.description, search);
    Contains(ToLower(g.name), ToLower(search)) || Contains(ToLower(g.description), ToLower(search))
  }

  /** `groups.filter(...)` on a loaded list: every matching group, with all its copies. */
  function FilterGroups(groups: seq<Group>, search: string): (r: seq<Group>)
    ensures forall g :: g in r <==> g in groups && Matches(g, search)
    ensures forall g :: multiset(r)[g] == if Matches(g, search) then multiset(groups)[g] else 0
    ensures |r| <= |groups|
  {
    if |groups| == 0 then []
    else
      assert groups == [groups[0]] + groups[1..];
      if Matches(groups[0], search) then [groups[0]] + FilterGroups(groups[1..], search)
      else FilterGroups(groups[1..], search)
  }

  /** `groups?.filter(...)`: nothing while the list is not loaded. */
  function FilteredGroups(groups: Option<seq<Group>>, search: string): (r: Option<seq<Group>>)
    ensures r.None? <==> groups.None?
    ensures r.Some? ==> forall g :: g in r.value <==> g in groups.value && Matches(g, search)
    ensures r.Some? ==> r.value == FilterGroups(groups.value, search)
  {
    match groups
    case None => None
    case Some(gs) => Some(FilterGroups(gs, search))
  }

  /** `xs` is `ys` with some elements dropped, the rest in their order. */
  ghost predicate IsSubsequence(xs: seq<Group>, ys: seq<Group>)
    decreases |ys|
  {
    if |xs| == 0 then true
    else if |ys| == 0 then false
    else (xs[0] == ys[0] && IsSubsequence(xs[1..], ys[1..])) || IsSubsequence(xs, ys[1..])
  }

  /** The filtered list keeps the original order. */
  lemma {:induction false} FilterIsSubsequence(groups: seq<Group>, search: string)
    ensures IsSubsequence(FilterGroups(groups, search), groups)
  {
    if |groups| > 0 {
      FilterIsSubsequence(groups[1..], search);
      var r := FilterGroups(groups, search);
      if Matches(groups[0], search) {
        assert r[0] == groups[0] && r[1..] == FilterGroups(groups[1..], search);
      }
    }
  }

  /** An empty search keeps every group. */
  lemma {:induction false} EmptySearchKeepsAll(groups: seq<Group>)
    ensures FilterGroups(groups, "") == groups
  {
    if |groups| > 0 {
      ContainsEmpty(ToLower(groups[0].name));
      assert ToLower("") == "";
      EmptySearchKeepsAll(groups[1..]);
    }
  }

  /** Searches that lower-case alike keep the same groups. */
  lemma {:induction false} SameLowerSameResult(groups: seq<Group>, a: string, b: string)
    requires ToLower(a) == ToLower(b)
    ensures FilterGroups(groups, a) == FilterGroups(groups, b)
  {
    if |groups| > 0 {
      SameLowerSameResult(groups[1..], a, b);
    }
  }

  /** Searches differing only in letter case give the same result. */
  lemma SearchIgnoresCase(groups: seq<Group>, search: string)
    ensures FilterGroups(groups, ToUpper(search)) == FilterGroups(groups, search)
    ensures FilterGroups(groups, ToLower(search)) == FilterGroups(groups, search)
  {
    LowerForgetsCase(search);
    SameLowerSameResult(groups, ToUpper(search), search);
    SameLowerSameResult(groups, ToLower(search), search);
  }
}
