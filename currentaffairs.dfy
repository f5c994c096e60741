/** The current-affairs list (`CurrentAffairs`): the tab that narrows it by kind and the empty
    state shown when nothing is left. */
module CurrentAffairs {
  import Seqs

  /** The fields of an item the page reads; `kind` is the item's `type` (daily, weekly, monthly). */
  datatype Affair = Affair(id: int, title: string, kind: string)

  /** `getFilteredAffairs`: the 'all' tab shows everything, any other tab the items of that kind. */
  function FilterByTab(affairs: seq<Affair>, tab: string): (r: seq<Affair>)
    ensures tab == "all" ==> r == affairs
    ensures tab != "all" ==> forall a :: a in r <==> a in affairs && a.kind == tab
    ensures Seqs.Subsequence(r, affairs)
    ensures |r| <= |affairs|
  {
    Seqs.SubsequenceOfSelf(affairs);
    if tab == "all" then affairs
    else
      var p := (a: Affair) => a.kind == tab;
      Seqs.FilterIsSubsequence(affairs, p);
      Seqs.Filter(affairs, p)
  }

  /** Under a kind tab every item of that kind is kept as often as it occurs, and no other. */
  lemma FilterByTabCounts(affairs: seq<Affair>, tab: string, a: Affair)
    requires tab != "all"
    ensures multiset(FilterByTab(affairs, tab))[a] == if a.kind == tab then multiset(affairs)[a] else 0
  {
    Seqs.FilterMultiset(affairs, (x: Affair) => x.kind == tab, a);
  }

  /** The empty card stands in for the list when the tab leaves nothing. Its heading reads "No
      current affairs found" when category filters are set and "Select Your Categories" when
      none is; that choice comes from the category hook and is not modelled. Under 'all' the
      card shows exactly for an empty list. */
  predicate ShowsEmptyState(affairs: seq<Affair>, tab: string)
    ensures affairs == [] ==> ShowsEmptyState(affairs, tab)
    ensures tab == "all" ==> (ShowsEmptyState(affairs, tab) <==> affairs == [])
  {
    |FilterByTab(affairs, tab)| == 0
  }

  /** The empty state shows exactly when no item is of the tab's kind (or, on 'all', when
      there is no item at all). */
  lemma EmptyStateIff(affairs: seq<Affair>, tab: string)
    ensures tab == "all" ==> (ShowsEmptyState(affairs, tab) <==> affairs == [])
    ensures tab != "all" ==>
      (ShowsEmptyState(affairs, tab) <==> forall i :: 0 <= i < |affairs| ==> affairs[i].kind != tab)
  {
    if tab != "all" {
      var r := FilterByTab(affairs, tab);
      if r == [] {
        forall i | 0 <= i < |affairs|
          ensures affairs[i].kind != tab
        {
          assert affairs[i] in affairs;
          assert affairs[i] !in r;
        }
      } else {
        assert r[0] in r;
      }
    }
  }
}
