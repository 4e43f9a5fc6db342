/** The page listing every event: a case-insensitive search over name and location,
    an optional category filter, three sort orders applied to a copy of the filtered
    list, the distinct categories offered as filter buttons, and each card's avatar
    stack. */
module AllEventsPage {
  import opened Wrappers
  import opened Strings
  import opened Seqs
  import opened Types
  import HomePage

  /** `ALL_EVENTS`: the home page's recent events followed by its featured ones. */
  function AllEvents(): (es: seq<EventInfo>)
    ensures |es| == 8
  {
    HomePage.RecentEvents() + HomePage.FeaturedEvents()
  }

  // ----- Categories ---------------------------------------------------------------

  /** `events.map(e => e.category).filter(Boolean)`: the categories that are set and
      non-empty, in event order. */
  function PresentCategories(events: seq<EventInfo>): (cs: seq<string>)
    ensures forall k | 0 <= k < |cs| :: cs[k] != ""
    ensures forall k | 0 <= k < |events| :: Present(events[k].category) ==> events[k].category.value in cs
    ensures forall k | 0 <= k < |cs| :: exists i | 0 <= i < |events| :: events[i].category == Some(cs[k])
  {
    if events == [] then []
    else
      var rest := PresentCategories(events[1..]);
      assert forall k | 0 <= k < |rest| :: exists i | 0 <= i < |events| :: events[i].category == Some(rest[k]) by {
        forall k | 0 <= k < |rest| ensures exists i | 0 <= i < |events| :: events[i].category == Some(rest[k]) {
          var i :| 0 <= i < |events| - 1 && events[1..][i].category == Some(rest[k]);
          assert events[i + 1].category == Some(rest[k]);
        }
      }
      assert forall k | 1 <= k < |events| :: events[k] == events[1..][k - 1];
      (if Present(events[0].category) then [events[0].category.value] else []) + rest
  }

  function Self(c: string): string {
    c
  }

  /** `Array.from(new Set(...))`: each present category once, in order of first
      appearance. */
  function Categories(events: seq<EventInfo>): (cs: seq<string>)
  {
    DedupBy(PresentCategories(events), Self)
  }

  /** `EVENT_CATEGORIES`. */
  function EventCategories(): seq<string> {
    Categories(AllEvents())
  }

  /** The categories are distinct and non-empty; each is the category of some event,
      and every event's non-empty category is among them. */
  lemma CategoriesExact(events: seq<EventInfo>)
    ensures var cs := Categories(events);
      && (forall i, j | 0 <= i < j < |cs| :: cs[i] != cs[j])
      && (forall k | 0 <= k < |cs| :: cs[k] != "" && exists i | 0 <= i < |events| :: events[i].category == Some(cs[k]))
      && (forall i | 0 <= i < |events| :: Present(events[i].category) ==> events[i].category.value in cs)
  {
    var present := PresentCategories(events);
    var cs := Categories(events);
    DedupKeysDistinct(present, Self);
    var idx := DedupFirstOccurrences(present, Self);
    forall k | 0 <= k < |cs|
      ensures cs[k] != "" && exists i | 0 <= i < |events| :: events[i].category == Some(cs[k])
    {
      assert cs[k] == present[idx[k]];
    }
    DedupCoversKeys(present, Self);
    forall i | 0 <= i < |events| && Present(events[i].category)
      ensures events[i].category.value in cs
    {
      var c := events[i].category.value;
      var m :| 0 <= m < |present| && present[m] == c;
      assert HasKey(cs, Self, Self(present[m]));
    }
  }

  /** The categories follow the order in which they first appear among the events:
      `idx[m]` is the position of category `m` in the list of present categories,
      no earlier entry has it, and the positions increase. */
  lemma CategoriesFirstOccurrenceOrder(events: seq<EventInfo>) returns (idx: seq<nat>)
    ensures var cs := Categories(events); var present := PresentCategories(events);
      && |idx| == |cs|
      && (forall m | 0 <= m < |cs| :: idx[m] < |present| && cs[m] == present[idx[m]])
      && (forall m | 0 <= m < |cs| :: forall j | 0 <= j < idx[m] :: present[j] != cs[m])
      && (forall m, n | 0 <= m < n < |cs| :: idx[m] < idx[n])
  {
    idx := DedupFirstOccurrences(PresentCategories(events), Self);
  }

  // ----- Filtering ----------------------------------------------------------------

  /** The search test: the lower-cased term occurs in the lower-cased name or location. */
  predicate MatchesSearch(e: EventInfo, term: string) {
    Includes(Lower(e.name), Lower(term)) || Includes(Lower(e.location), Lower(term))
  }

  /** The category test, applied only when a (truthy) category is selected. */
  predicate MatchesCategory(e: EventInfo, selected: Option<string>) {
    Present(selected) ==> e.category == selected
  }

  function Matches(term: string, selected: Option<string>): EventInfo -> bool {
    (e: EventInfo) => MatchesSearch(e, term) && MatchesCategory(e, selected)
  }

  /** `filteredEvents`: the events that pass both tests. */
  function FilteredEvents(events: seq<EventInfo>, term: string, selected: Option<string>): (r: seq<EventInfo>)
    ensures forall k | 0 <= k < |r| :: r[k] in events && MatchesSearch(r[k], term) && MatchesCategory(r[k], selected)
    ensures forall k | 0 <= k < |events| ::
              (MatchesSearch(events[k], term) && MatchesCategory(events[k], selected)) ==> events[k] in r
  {
    Filter(events, Matches(term, selected))
  }

  /** An empty term with no category selected keeps every event. */
  lemma NoCriteriaKeepsAll(events: seq<EventInfo>, selected: Option<string>)
    requires !Present(selected)
    ensures FilteredEvents(events, "", selected) == events
  {
    assert Lower("") == "";
    forall k | 0 <= k < |events| ensures Matches("", selected)(events[k]) {
      IncludesEmpty(Lower(events[k].name));
    }
    FilterKeepsAll(events, Matches("", selected));
  }

  /** Filtering keeps the events' relative order: the result sits in the input at
      increasing positions. */
  lemma FilterKeepsOrder(events: seq<EventInfo>, term: string, selected: Option<string>) returns (idx: seq<nat>)
    ensures EmbedsAt(FilteredEvents(events, term, selected), events, idx)
  {
    idx := FilterOrder(events, Matches(term, selected));
  }

  // ----- Sorting ------------------------------------------------------------------

  datatype SortBy = ByDate | ByName | ByPhotos

  /** `s.split(' - ')[0]`: the text before the first " - ", or all of `s`. */
  function DatePart(s: string): (r: string)
    ensures r <= s
  {
    if |s| < 3 then s
    else if s[..3] == " - " then ""
    else [s[0]] + DatePart(s[1..])
  }

  /** A separator one place further into `s` is a separator at that place of `s[1..]`. */
  lemma SeparatorShift(s: string, i: nat)
    requires |s| >= 1
    ensures OccursAt(s, " - ", i + 1) <==> OccursAt(s[1..], " - ", i)
  {
    if i + 1 <= |s| - 3 {
      assert s[1..][i..i + 3] == s[i + 1..i + 4];
    }
  }

  /** The date part stops at the first " - ", or is all of `s` when there is none. */
  lemma {:induction false} DatePartSpec(s: string)
    ensures DatePart(s) == s || OccursAt(s, " - ", |DatePart(s)|)
    ensures forall i | 0 <= i < |DatePart(s)| :: !OccursAt(s, " - ", i)
  {
    if |s| >= 3 {
      if s[..3] == " - " {
        assert s[0..3] == s[..3];
      } else {
        var r := DatePart(s);
        var t := DatePart(s[1..]);
        DatePartSpec(s[1..]);
        assert r == [s[0]] + t;
        forall i | 0 <= i < |r| ensures !OccursAt(s, " - ", i) {
          if i == 0 {
            assert s[0..3] == s[..3];
          } else {
            SeparatorShift(s, i - 1);
          }
        }
        if r != s {
          assert s == [s[0]] + s[1..];
          assert t != s[1..];
          SeparatorShift(s, |t|);
        }
      }
    }
  }

  /** Code-point lexicographic comparison, standing in for `localeCompare`:
      negative, zero or positive. */
  function LexCompare(a: string, b: string): (c: int)
    ensures -1 <= c <= 1
    ensures c == 0 <==> a == b
  {
    if a == [] && b == [] then 0
    else if a == [] then -1
    else if b == [] then 1
    else if a[0] < b[0] then -1
    else if a[0] > b[0] then 1
    else
      var c := LexCompare(a[1..], b[1..]);
      assert a == b <==> a[1..] == b[1..] by {
        if a[1..] == b[1..] { assert a == [a[0]] + a[1..] && b == [b[0]] + b[1..]; }
      }
      c
  }

  /** Swapping the arguments negates the comparison. */
  lemma {:induction false} LexCompareFlips(a: string, b: string)
    ensures LexCompare(b, a) == -LexCompare(a, b)
  {
    if a != [] && b != [] && a[0] == b[0] {
      LexCompareFlips(a[1..], b[1..]);
    }
  }

  /** The sort callback: negative puts `a` first. The date key is the millisecond time
      `dateMs` gives the date part (the `Date` parser is not modelled). */
  function Compare(sortBy: SortBy, dateMs: string -> int, a: EventInfo, b: EventInfo): int {
    match sortBy
    case ByDate => dateMs(DatePart(b.date)) - dateMs(DatePart(a.date))
    case ByName => LexCompare(a.name, b.name)
    case ByPhotos => b.totalPhotos - a.totalPhotos
  }

  /** Inserts `x` before the first element that must follow it, after every element
      that compares equal (which keeps equal elements in input order). */
  function Insert(x: EventInfo, s: seq<EventInfo>, sortBy: SortBy, dateMs: string -> int): (r: seq<EventInfo>)
    ensures |r| == |s| + 1
    ensures multiset(r) == multiset(s) + multiset{x}
    ensures r[0] == x || (s != [] && r[0] == s[0])
  {
    if s == [] then [x]
    else if Compare(sortBy, dateMs, x, s[0]) < 0 then [x] + s
    else
      var t := Insert(x, s[1..], sortBy, dateMs);
      assert s == [s[0]] + s[1..];
      [s[0]] + t
  }

  /** `[...filteredEvents].sort(...)`: an insertion sort of a copy (a value here, so
      the filtered list is untouched). */
  function SortedEvents(events: seq<EventInfo>, sortBy: SortBy, dateMs: string -> int): (r: seq<EventInfo>)
    ensures |r| == |events|
    ensures multiset(r) == multiset(events)
  {
    if events == [] then []
    else
      var init := events[..|events| - 1];
      assert events == init + [events[|events| - 1]];
      Insert(events[|events| - 1], SortedEvents(init, sortBy, dateMs), sortBy, dateMs)
  }

  /** No neighbour pair is out of order: the callback never puts the later one first. */
  predicate InOrder(s: seq<EventInfo>, sortBy: SortBy, dateMs: string -> int) {
    forall k | 0 <= k < |s| - 1 :: Compare(sortBy, dateMs, s[k + 1], s[k]) >= 0
  }

  /** If the callback would put `a` first, it would not put `b` first. */
  lemma CompareFlips(sortBy: SortBy, dateMs: string -> int, a: EventInfo, b: EventInfo)
    requires Compare(sortBy, dateMs, a, b) < 0
    ensures Compare(sortBy, dateMs, b, a) > 0
  {
    if sortBy.ByName? {
      LexCompareFlips(a.name, b.name);
    }
  }

  lemma {:induction false} InsertInOrder(x: EventInfo, s: seq<EventInfo>, sortBy: SortBy, dateMs: string -> int)
    requires InOrder(s, sortBy, dateMs)
    ensures InOrder(Insert(x, s, sortBy, dateMs), sortBy, dateMs)
  {
    if s != [] {
      if Compare(sortBy, dateMs, x, s[0]) < 0 {
        CompareFlips(sortBy, dateMs, x, s[0]);
        var r := [x] + s;
        forall k | 0 <= k < |r| - 1 ensures Compare(sortBy, dateMs, r[k + 1], r[k]) >= 0 {
          if k > 0 { assert r[k] == s[k - 1] && r[k + 1] == s[k]; }
        }
      } else {
        var t := Insert(x, s[1..], sortBy, dateMs);
        assert InOrder(s[1..], sortBy, dateMs) by {
          forall k | 0 <= k < |s| - 2 ensures Compare(sortBy, dateMs, s[1..][k + 1], s[1..][k]) >= 0 {
            assert s[1..][k] == s[k + 1] && s[1..][k + 1] == s[k + 2];
          }
        }
        InsertInOrder(x, s[1..], sortBy, dateMs);
        var r := [s[0]] + t;
        forall k | 0 <= k < |r| - 1 ensures Compare(sortBy, dateMs, r[k + 1], r[k]) >= 0 {
          if k > 0 { assert r[k] == t[k - 1] && r[k + 1] == t[k]; }
          else if t[0] != x { assert t[0] == s[1]; }
        }
      }
    }
  }

  /** The sorted copy is in order for whichever key is chosen. */
  lemma {:induction false} SortedInOrder(events: seq<EventInfo>, sortBy: SortBy, dateMs: string -> int)
    ensures InOrder(SortedEvents(events, sortBy, dateMs), sortBy, dateMs)
  {
    if events != [] {
      var init := events[..|events| - 1];
      SortedInOrder(init, sortBy, dateMs);
      InsertInOrder(events[|events| - 1], SortedEvents(init, sortBy, dateMs), sortBy, dateMs);
    }
  }

  /** Sorting by photos gives non-increasing photo counts over the whole list, and is
      a rearrangement of the filtered list. */
  lemma SortByPhotosDescending(events: seq<EventInfo>, dateMs: string -> int)
    ensures var r := SortedEvents(events, ByPhotos, dateMs);
      && multiset(r) == multiset(events)
      && forall i, j | 0 <= i < j < |r| :: r[i].totalPhotos >= r[j].totalPhotos
  {
    var r := SortedEvents(events, ByPhotos, dateMs);
    SortedInOrder(events, ByPhotos, dateMs);
    forall i, j | 0 <= i < j < |r| ensures r[i].totalPhotos >= r[j].totalPhotos {
      NonIncreasingFrom(r, i, j);
    }
  }

  lemma {:induction false} NonIncreasingFrom(r: seq<EventInfo>, i: nat, j: nat)
    requires i <= j < |r|
    requires forall k | 0 <= k < |r| - 1 :: r[k + 1].totalPhotos - r[k].totalPhotos <= 0
    ensures r[i].totalPhotos >= r[j].totalPhotos
  {
    if i < j {
      NonIncreasingFrom(r, i, j - 1);
    }
  }

  /** Sorting by name leaves no neighbours in descending code-point order. */
  lemma SortByNameAscending(events: seq<EventInfo>, dateMs: string -> int)
    ensures var r := SortedEvents(events, ByName, dateMs);
      forall k | 0 <= k < |r| - 1 :: LexCompare(r[k].name, r[k + 1].name) <= 0
  {
    var r := SortedEvents(events, ByName, dateMs);
    SortedInOrder(events, ByName, dateMs);
    forall k | 0 <= k < |r| - 1 ensures LexCompare(r[k].name, r[k + 1].name) <= 0 {
      LexCompareFlips(r[k].name, r[k + 1].name);
    }
  }

  // ----- Page state ---------------------------------------------------------------

  /** The page's three state values. */
  datatype Filters = Filters(searchTerm: string, selectedCategory: Option<string>, sortBy: SortBy)

  /** The initial state: empty term, no category, newest first. */
  function InitialFilters(): Filters {
    Filters("", None, ByDate)
  }

  /** The initial filters keep every event, whatever the event list. */
  lemma InitialFiltersShowAll(events: seq<EventInfo>)
    ensures FilteredEvents(events, InitialFilters().searchTerm, InitialFilters().selectedCategory) == events
  {
    NoCriteriaKeepsAll(events, None);
  }

  /** The "Limpar filtros" button: clears the term and the category and keeps the sort. */
  function ClearFilters(f: Filters): (g: Filters)
    ensures g.sortBy == f.sortBy
  {
    f.(searchTerm := "", selectedCategory := None)
  }

  /** After clearing, every event is shown again, whatever the filters were. */
  lemma ClearFiltersShowAll(f: Filters, events: seq<EventInfo>)
    ensures FilteredEvents(events, ClearFilters(f).searchTerm, ClearFilters(f).selectedCategory) == events
  {
    NoCriteriaKeepsAll(events, None);
  }

  /** `sortedEvents` for the current state. */
  function Shown(f: Filters, dateMs: string -> int): (r: seq<EventInfo>)
    ensures multiset(r) == multiset(FilteredEvents(AllEvents(), f.searchTerm, f.selectedCategory))
  {
    SortedEvents(FilteredEvents(AllEvents(), f.searchTerm, f.selectedCategory), f.sortBy, dateMs)
  }

  /** An event card shows up to three avatars and a "+n" badge for the rest. */
  function CardAvatars(e: EventInfo): (r: Option<AvatarStack>)
    ensures r.Some? ==> e.photographers.Some? && |r.value.shown| <= 3
                        && (r.value.badge.Some? ==> r.value.badge.value == |e.photographers.value| - 3)
  {
    Avatars(e.photographers, 3)
  }
}
