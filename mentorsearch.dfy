/** The mentor finder (`FindMentorsPage`): the search, price and rating filter over the base list,
    the ordering chosen in the sort menu, the wishlist and the filter inputs. */
module MentorSearch {
  import opened Wrappers
  import Seqs
  import Text

  /** The fields of a mentor the page filters and sorts on. */
  datatype Mentor = Mentor(
    id: int,
    name: string,
    qualification: string,
    experience: string,
    rating: real,
    reviews: int,
    price: int,
    subjects: seq<string>,
    categoryId: string)

  /** The inclusive price window `[low, high]`. */
  datatype PriceRange = PriceRange(low: int, high: int)

  datatype SortOption = Rating | PriceLow | PriceHigh | Experience | Reviews

  /** The query, lower-cased, occurs in the lower-cased name, qualification or some subject;
      an empty search box lets every mentor through. */
  predicate MatchesSearch(m: Mentor, query: string)
    ensures query == "" ==> MatchesSearch(m, query)
  {
    var q := Text.Lower(query);
    Text.Contains(Text.Lower(m.name), q)
    || Text.Contains(Text.Lower(m.qualification), q)
    || exists i :: 0 <= i < |m.subjects| && Text.Contains(Text.Lower(m.subjects[i]), q)
  }

  /** All three tests of the filter; with an empty search box only the price window and the
      minimum rating decide. */
  predicate Matches(m: Mentor, query: string, range: PriceRange, minRating: real)
    ensures query == "" ==> (Matches(m, query, range, minRating) <==> range.low <= m.price <= range.high && m.rating >= minRating)
  {
    MatchesSearch(m, query) && range.low <= m.price <= range.high && m.rating >= minRating
  }

  lemma LowerTwice(s: string)
    ensures Text.Lower(Text.Lower(s)) == Text.Lower(s)
  {
  }

  /** The search ignores the case of the query: a query and its lower-cased form match the
      same mentors. */
  lemma SearchIgnoresCase(m: Mentor, query: string)
    ensures MatchesSearch(m, Text.Lower(query)) <==> MatchesSearch(m, query)
  {
    LowerTwice(query);
  }

  /** The filter step: the base mentors that pass all three tests, in their order. */
  function FilterMentors(base: seq<Mentor>, query: string, range: PriceRange, minRating: real): (r: seq<Mentor>)
    ensures forall m :: m in r <==> m in base && Matches(m, query, range, minRating)
    ensures Seqs.Subsequence(r, base)
  {
    var p := (m: Mentor) => Matches(m, query, range, minRating);
    Seqs.FilterIsSubsequence(base, p);
    Seqs.Filter(base, p)
  }

  /** The leading integer of the experience text, `parseInt(experience)`; `NaN` counts as 0. A
      text without a minus sign never gives a negative number of years. */
  function ExperienceYears(m: Mentor): (years: int)
    ensures (forall i :: 0 <= i < |m.experience| ==> m.experience[i] != '-') ==> years >= 0
  {
    var t := Text.TrimStart(m.experience);
    assert t != [] ==> t[0] == m.experience[|m.experience| - |t|];
    Text.ParseInt(m.experience).GetOr(0)
  }

  /** A listing such as "8+ years" counts as its leading number of years. */
  lemma ExperienceOfListing(m: Mentor, n: nat, rest: string)
    requires m.experience == Text.NatToString(n) + rest
    requires rest == [] || !Text.IsDigit(rest[0])
    ensures ExperienceYears(m) == n
  {
    Text.ParseLeadingNat(n, rest);
  }

  /** The comparator passed to `sort`, case by case. Each case is the difference of one numeric
      key, so the comparator orders exactly as that key does. */
  function Compare(opt: SortOption, a: Mentor, b: Mentor): (c: real)
    ensures c == Key(opt, a) - Key(opt, b)
    ensures c <= 0.0 <==> Key(opt, a) <= Key(opt, b)
  {
    match opt
    case Rating => b.rating - a.rating
    case PriceLow => a.price as real - b.price as real
    case PriceHigh => b.price as real - a.price as real
    case Experience => ExperienceYears(b) as real - ExperienceYears(a) as real
    case Reviews => b.reviews as real - a.reviews as real
  }

  /** The key every option orders by, smallest first: descending options negate their field. */
  function Key(opt: SortOption, m: Mentor): real {
    match opt
    case Rating => -m.rating
    case PriceLow => m.price as real
    case PriceHigh => -(m.price as real)
    case Experience => -(ExperienceYears(m) as real)
    case Reviews => -(m.reviews as real)
  }


  predicate Sorted(s: seq<Mentor>, opt: SortOption) {
    forall i, j :: 0 <= i < j < |s| ==> Key(opt, s[i]) <= Key(opt, s[j])
  }

  /** What a sorted list means for each option. */
  lemma SortOrderByOption(s: seq<Mentor>, opt: SortOption, i: nat, j: nat)
    requires Sorted(s, opt) && i < j < |s|
    ensures Compare(opt, s[i], s[j]) <= 0.0
    ensures opt == Rating ==> s[i].rating >= s[j].rating
    ensures opt == PriceLow ==> s[i].price <= s[j].price
    ensures opt == PriceHigh ==> s[i].price >= s[j].price
    ensures opt == Reviews ==> s[i].reviews >= s[j].reviews
    ensures opt == Experience ==> ExperienceYears(s[i]) >= ExperienceYears(s[j])
  {
  }

  /** The list ascends by the key `k`. */
  predicate SortedBy(s: seq<Mentor>, k: Mentor -> real) {
    forall i, j :: 0 <= i < j < |s| ==> k(s[i]) <= k(s[j])
  }

  /** Exchange two neighbours. */
  method SwapDown(a: array<Mentor>, j: nat)
    requires 0 < j < a.Length
    modifies a
    ensures a[..] == old(a[..])[j - 1 := old(a[j])][j := old(a[j - 1])]
    ensures multiset(a[..]) == multiset(old(a[..]))
  {
    a[j - 1], a[j] := a[j], a[j - 1];
  }

  /** One insertion step: slide `a[i]` left past every larger key. */
  method InsertAt(a: array<Mentor>, i: nat, k: Mentor -> real)
    requires i < a.Length && SortedBy(a[..i], k)
    modifies a
    ensures SortedBy(a[..i + 1], k)
    ensures a[i + 1..] == old(a[i + 1..])
    ensures multiset(a[..]) == multiset(old(a[..]))
  {
    var j := i;
    while j > 0 && k(a[j - 1]) > k(a[j])
      invariant 0 <= j <= i
      invariant forall p, q :: 0 <= p < q <= i && p != j && q != j ==> k(a[p]) <= k(a[q])
      invariant forall q :: j < q <= i ==> k(a[j]) <= k(a[q])
      invariant 0 < j < i ==> k(a[j - 1]) <= k(a[j + 1])
      invariant a[i + 1..] == old(a[i + 1..])
      invariant multiset(a[..]) == multiset(old(a[..]))
    {
      SwapDown(a, j);
      j := j - 1;
    }
  }

  /** `filtered.sort(...)`: insertion sort in place, ascending by `k`. */
  method SortByKey(a: array<Mentor>, k: Mentor -> real)
    modifies a
    ensures SortedBy(a[..], k)
    ensures multiset(a[..]) == multiset(old(a[..]))
  {
    var i := 0;
    while i < a.Length
      invariant 0 <= i <= a.Length
      invariant SortedBy(a[..i], k)
      invariant multiset(a[..]) == multiset(old(a[..]))
    {
      InsertAt(a, i, k);
      i := i + 1;
    }
    assert a[..a.Length] == a[..];
  }

  /** `filteredAndSortedMentors`: the filter, then the chosen order. */
  method FilteredAndSorted(base: seq<Mentor>, query: string, range: PriceRange, minRating: real, opt: SortOption)
    returns (r: seq<Mentor>)
    ensures multiset(r) == multiset(FilterMentors(base, query, range, minRating))
    ensures forall m :: m in r <==> m in base && Matches(m, query, range, minRating)
    ensures Sorted(r, opt)
  {
    var f := FilterMentors(base, query, range, minRating);
    var a := new Mentor[|f|](i requires 0 <= i < |f| => f[i]);
    assert a[..] == f;
    var k := (m: Mentor) => Key(opt, m);
    SortByKey(a, k);
    r := a[..];
    forall m
      ensures m in r <==> m in f
    {
      assert m in r <==> m in multiset(r);
      assert m in f <==> m in multiset(f);
    }
  }

  /** The wishlist after a press of the heart on mentor `id`. */
  function ToggledWishlist(w: set<int>, id: int): (r: set<int>)
    ensures id in r <==> id !in w
    ensures forall x :: x != id ==> (x in r <==> x in w)
  {
    if id in w then w - {id} else w + {id}
  }

  /** Two presses on the same heart restore the wishlist. */
  lemma ToggleWishlistTwice(w: set<int>, id: int)
    ensures ToggledWishlist(ToggledWishlist(w, id), id) == w
  {
  }

  /** The minimum price box, `parseInt(value) || 0`. */
  function MinPriceInput(text: string): (n: int)
    ensures Text.ParseInt(text).None? ==> n == 0
    ensures Text.ParseInt(text).Some? ==> n == Text.ParseInt(text).value
  {
    match Text.ParseInt(text)
    case None => 0
    case Some(v) => if v == 0 then 0 else v
  }

  /** The maximum price box, `parseInt(value) || 5000`: no number, or zero, means 5000. */
  function MaxPriceInput(text: string): (n: int)
    ensures Text.ParseInt(text) == Some(0) || Text.ParseInt(text).None? ==> n == 5000
    ensures Text.ParseInt(text).Some? && Text.ParseInt(text).value != 0 ==> n == Text.ParseInt(text).value
  {
    match Text.ParseInt(text)
    case None => 5000
    case Some(v) => if v == 0 then 5000 else v
  }

  /** Typing a number's digits into the boxes sets that number, except that 0 in the maximum
      box reads as 5000. */
  lemma PriceInputsReadDigits(n: nat)
    ensures MinPriceInput(Text.NatToString(n)) == n
    ensures MaxPriceInput(Text.NatToString(n)) == if n == 0 then 5000 else n
  {
    Text.ParseNatToString(n);
  }

  /** The filter state of the page and its wishlist. */
  class MentorSearchPage {
    var searchQuery: string
    var selectedSpecificCategory: string
    var priceRange: PriceRange
    var minRating: real
    var sortBy: SortOption
    var wishlisted: set<int>

    /** The initial state: no query, every category, prices 0 to 5000, any rating, best rated first. */
    constructor ()
      ensures searchQuery == "" && selectedSpecificCategory == "all"
      ensures priceRange == PriceRange(0, 5000) && minRating == 0.0
      ensures sortBy == Rating && wishlisted == {}
    {
      searchQuery := "";
      selectedSpecificCategory := "all";
      priceRange := PriceRange(0, 5000);
      minRating := 0.0;
      sortBy := Rating;
      wishlisted := {};
    }

    /** `handleWishlistToggle`. */
    method HandleWishlistToggle(mentorId: int)
      modifies this
      ensures wishlisted == ToggledWishlist(old(wishlisted), mentorId)
      ensures searchQuery == old(searchQuery) && selectedSpecificCategory == old(selectedSpecificCategory)
      ensures priceRange == old(priceRange) && minRating == old(minRating) && sortBy == old(sortBy)
    {
      if mentorId in wishlisted {
        wishlisted := wishlisted - {mentorId};
      } else {
        wishlisted := wishlisted + {mentorId};
      }
    }

    /** Editing the minimum price box keeps the maximum. */
    method SetMinPrice(text: string)
      modifies this
      ensures priceRange == PriceRange(MinPriceInput(text), old(priceRange.high))
      ensures searchQuery == old(searchQuery) && selectedSpecificCategory == old(selectedSpecificCategory)
      ensures minRating == old(minRating) && sortBy == old(sortBy) && wishlisted == old(wishlisted)
    {
      priceRange := PriceRange(MinPriceInput(text), priceRange.high);
    }

    /** Editing the maximum price box keeps the minimum. */
    method SetMaxPrice(text: string)
      modifies this
      ensures priceRange == PriceRange(old(priceRange.low), MaxPriceInput(text))
      ensures searchQuery == old(searchQuery) && selectedSpecificCategory == old(selectedSpecificCategory)
      ensures minRating == old(minRating) && sortBy == old(sortBy) && wishlisted == old(wishlisted)
    {
      priceRange := PriceRange(priceRange.low, MaxPriceInput(text));
    }

    /** "Reset Filters": query, category, price window and rating back to their first values;
        the order and the wishlist stay. */
    method ResetFilters()
      modifies this
      ensures searchQuery == "" && selectedSpecificCategory == "all"
      ensures priceRange == PriceRange(0, 5000) && minRating == 0.0
      ensures sortBy == old(sortBy) && wishlisted == old(wishlisted)
    {
      searchQuery := "";
      selectedSpecificCategory := "all";
      priceRange := PriceRange(0, 5000);
      minRating := 0.0;
    }

    /** The list the page shows for the given base list. */
    method Results(base: seq<Mentor>) returns (r: seq<Mentor>)
      ensures multiset(r) == multiset(FilterMentors(base, searchQuery, priceRange, minRating))
      ensures forall m :: m in r <==> m in base && Matches(m, searchQuery, priceRange, minRating)
      ensures Sorted(r, sortBy)
    {
      r := FilteredAndSorted(base, searchQuery, priceRange, minRating, sortBy);
    }
  }
}
