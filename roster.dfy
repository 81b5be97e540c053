/** The student roster: a case-insensitive search over name and email, cut
    into pages of ten (components/StudentRoster.tsx). */
module StudentRoster {
  import opened Types
  import opened Lists
  import opened Text
  import Paging

  const ItemsPerPage: nat := 10

  /** The lower-cased name or the lower-cased email contains the lower-cased term. */
  predicate Matches(term: string, student: User) {
    Includes(Lower(student.name), Lower(term)) || Includes(Lower(student.email), Lower(term))
  }

  function MatchesTerm(term: string): User -> bool {
    (u: User) => Matches(term, u)
  }

  /** `filteredStudents`: the students the term matches, in roster order. */
  function FilteredStudents(students: seq<User>, term: string): (r: seq<User>)
    ensures |r| <= |students|
    ensures forall u :: u in r <==> u in students && Matches(term, u)
  {
    Filter(MatchesTerm(term), students)
  }

  /** The search keeps roster order: searching two rosters laid end to end
      gives the two results laid end to end. */
  lemma FilteredStudentsKeepOrder(a: seq<User>, b: seq<User>, term: string)
    ensures FilteredStudents(a + b, term) == FilteredStudents(a, term) + FilteredStudents(b, term)
  {
    FilterAppend(MatchesTerm(term), a, b);
  }

  lemma EmptyIsIncluded(hay: string)
    ensures Includes(hay, "")
  {
  }

  /** An empty search term keeps every student. */
  lemma EmptyTermKeepsAll(students: seq<User>)
    ensures FilteredStudents(students, "") == students
  {
    forall u | u in students ensures Matches("", u) {
      EmptyIsIncluded(Lower(u.name));
    }
    FilterAll(MatchesTerm(""), students);
  }

  /** `totalPages`: `Math.ceil(filtered / 10)`. */
  function TotalPages(students: seq<User>, term: string): (r: int)
    ensures r >= 0
    ensures (r - 1) * ItemsPerPage < |FilteredStudents(students, term)| <= r * ItemsPerPage
    ensures r == 0 <==> FilteredStudents(students, term) == []
  {
    Paging.PageCount(|FilteredStudents(students, term)|, ItemsPerPage)
  }

  /** `paginatedStudents`: the slice of the filtered list for one page. */
  function PaginatedStudents(students: seq<User>, term: string, page: int): seq<User> {
    Paging.PageOf(FilteredStudents(students, term), page, ItemsPerPage)
  }

  /** Page `p` holds at most ten students, the filtered ones from `(p - 1) * 10` on. */
  lemma PageContents(students: seq<User>, term: string, page: int)
    requires page >= 1
    ensures var p, f := PaginatedStudents(students, term, page), FilteredStudents(students, term);
      && |p| <= ItemsPerPage
      && (forall k :: 0 <= k < |p| ==> p[k] == f[(page - 1) * ItemsPerPage + k])
      && ((page - 1) * ItemsPerPage + ItemsPerPage <= |f| ==> |p| == ItemsPerPage)
      && ((page - 1) * ItemsPerPage >= |f| ==> p == [])
  {
    Paging.PageWindow(FilteredStudents(students, term), page, ItemsPerPage);
  }

  /** Pages `1..totalPages`, laid end to end, are the filtered list. */
  lemma PagesCoverFiltered(students: seq<User>, term: string)
    ensures Paging.Pages(FilteredStudents(students, term), ItemsPerPage, TotalPages(students, term)) ==
            FilteredStudents(students, term)
  {
    Paging.PagesCoverAll(FilteredStudents(students, term), ItemsPerPage);
  }

  /** On page 1, or on any page the search has, the rows on screen are empty
      only when the search matches nobody. */
  lemma ShownEmptyOnlyWithoutMatches(students: seq<User>, term: string, page: int)
    requires page == 1 || 1 <= page <= TotalPages(students, term)
    ensures PaginatedStudents(students, term, page) == [] <==> FilteredStudents(students, term) == []
  {
    var f := FilteredStudents(students, term);
    Paging.PageWindow(f, page, ItemsPerPage);
    if page != 1 || f != [] {
      Paging.PageInRangeNonEmpty(f, page, ItemsPerPage);
    }
  }

  /** The roster's view state: the students it was given, the page and the search box. */
  class RosterView {
    var students: seq<User>
    var currentPage: int
    var searchTerm: string

    /** The page is 1, or one of the pages the current search has. */
    ghost predicate Valid()
      reads this
    {
      currentPage == 1 || 1 <= currentPage <= TotalPages(students, searchTerm)
    }

    constructor (students: seq<User>)
      ensures Valid()
      ensures this.students == students && currentPage == 1 && searchTerm == ""
    {
      this.students := students;
      currentPage := 1;
      searchTerm := "";
    }

    function Pages(): int
      reads this
    {
      TotalPages(students, searchTerm)
    }

    /** The rows on screen. */
    function Shown(): seq<User>
      reads this
    {
      PaginatedStudents(students, searchTerm, currentPage)
    }

    /** The pagination control is rendered only when there is more than one
        page, that is, exactly when the search matches more than ten students. */
    function ShowsPagination(): (b: bool)
      reads this
      ensures b <==> |FilteredStudents(students, searchTerm)| > ItemsPerPage
    {
      Pages() > 1
    }

    /** `handlePageChange`: accepts a page from 1 to the page count and ignores any other. */
    method HandlePageChange(page: int)
      requires Valid()
      modifies this
      ensures Valid()
      ensures 0 < page <= old(Pages()) ==> currentPage == page
      ensures !(0 < page <= old(Pages())) ==> currentPage == old(currentPage)
      ensures students == old(students) && searchTerm == old(searchTerm)
    {
      if page > 0 && page <= Pages() {
        currentPage := page;
      }
    }

    /** The search box's change handler: a new term, back on page 1. */
    method SetSearchTerm(term: string)
      modifies this
      ensures Valid()
      ensures searchTerm == term && currentPage == 1 && students == old(students)
    {
      searchTerm := term;
      currentPage := 1;
    }
  }
}
