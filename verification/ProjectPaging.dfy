/** Paging over a member's projects, which are fetched in one batch, sorted, and then cut into pages by hand. */
module ProjectPaging {
  import opened Prelude
  import opened PermissionKeys

  datatype Project = Project(id: string, name: string, createdAt: string)

  datatype Page = Page(data: seq<Project>, next: Option<string>)

  datatype PagingError = InvalidPaginationToken

  const KEY_TYPE: string := "PROJ"

  /** The key a token carries: type and id of the last project shown. */
  function TokenFor(id: string): string {
    KEY_TYPE + ['#'] + id
  }

  /** The id a token is read as naming. */
  function NamedBy(token: string): Option<string> {
    var parts := Split(token, '#');
    if |parts| < 2 then None else Some(parts[1])
  }

  /** A token names the project it was made for exactly when the id is free of the separator. */
  lemma TokenRoundTripIff(id: string)
    ensures NamedBy(TokenFor(id)) == Some(id) <==> '#' !in id
  {
    SplitJoined(KEY_TYPE, id, '#');
    SplitPlain(KEY_TYPE, '#');
    SplitHead(id, '#');
    if '#' !in id {
      SplitPlain(id, '#');
    }
  }

  /** Ids as the service generates them. */
  ghost predicate PlainProjects(projects: seq<Project>) {
    && (forall i, j :: 0 <= i < j < |projects| ==> projects[i].id != projects[j].id)
    && (forall p :: p in projects ==> '#' !in p.id)
  }

  function Find(projects: seq<Project>, id: string): Option<nat> {
    if projects == [] then None
    else if projects[0].id == id then Some(0)
    else match Find(projects[1..], id) case Some(i) => Some(i + 1) case None => None
  }

  lemma {:induction false} FindFinds(projects: seq<Project>, id: string)
    ensures match Find(projects, id)
      case Some(i) => i < |projects| && projects[i].id == id && forall j :: 0 <= j < i ==> projects[j].id != id
      case None => forall j :: 0 <= j < |projects| ==> projects[j].id != id
  {
    if projects == [] {
    } else {
      FindFinds(projects[1..], id);
    }
  }

  /** Where a token lets a page start, if it names a listed project. */
  function StartOf(projects: seq<Project>, token: Option<string>): Option<nat> {
    if token.None? then Some(0)
    else match NamedBy(token.value)
      case None => None
      case Some(id) => match Find(projects, id) case Some(i) => Some(i + 1) case None => None
  }

  /** The page behind the project the token names; `start` is where it begins. */
  method BuildPage(token: Option<string>, projects: seq<Project>, pageSize: nat)
    returns (r: Result<Page, PagingError>, ghost start: nat)
    requires pageSize > 0
    ensures r.Failure? <==>
      && token.Some?
      && (|Split(token.value, '#')| < 2
          || forall i :: 0 <= i < |projects| ==> projects[i].id != Split(token.value, '#')[1])
    ensures r.Success? ==>
      && start <= |projects|
      && (token.None? ==> start == 0)
      && (token.Some? ==> start > 0 && projects[start - 1].id == Split(token.value, '#')[1])
      && r.value.data == projects[start..if start + pageSize <= |projects| then start + pageSize else |projects|]
      && (r.value.next.Some? <==> start + pageSize <= |projects|)
      && (r.value.next.Some? ==> r.value.next.value == "PROJ#" + projects[start + pageSize - 1].id)
    ensures r.Failure? <==> StartOf(projects, token).None?
    ensures r.Success? ==>
      StartOf(projects, token) == Some(start) && IsPage(projects, pageSize, start, r.value)
  {
    var onPage := projects;
    start := 0;
    if token.Some? {
      var id := NamedBy(token.value);
      if id.None? {
        return Failure(InvalidPaginationToken), 0;
      }
      FindFinds(projects, id.value);
      var found := Find(projects, id.value);
      if found.None? {
        return Failure(InvalidPaginationToken), 0;
      }
      onPage := projects[found.value + 1..];
      start := found.value + 1;
    }
    assert onPage == projects[start..];
    if |onPage| < pageSize {
      return Success(Page(onPage, None)), start;
    }
    onPage := onPage[..pageSize];
    r := Success(Page(onPage, Some(TokenFor(onPage[pageSize - 1].id))));
  }

  /** The next `pageSize` projects with a token for the last of them, or the fewer that are left without one. */
  ghost predicate IsPage(projects: seq<Project>, pageSize: nat, start: nat, page: Page)
    requires pageSize > 0 && start <= |projects|
  {
    if |projects| - start < pageSize then page == Page(projects[start..], None)
    else page == Page(projects[start..start + pageSize], Some(TokenFor(projects[start + pageSize - 1].id)))
  }

  /** Calls made one after the other, each with the token of the one before, until none comes back. */
  ghost predicate Walk(projects: seq<Project>, pageSize: nat, start: nat, pages: seq<Page>)
    requires pageSize > 0
    decreases |pages|
  {
    && pages != [] && start <= |projects|
    && IsPage(projects, pageSize, start, pages[0])
    && if |pages| == 1 then pages[0].next.None?
       else
         var next := StartOf(projects, pages[0].next);
         pages[0].next.Some? && next.Some? && Walk(projects, pageSize, next.value, pages[1..])
  }

  ghost function Shown(pages: seq<Page>): seq<Project> {
    if pages == [] then [] else pages[0].data + Shown(pages[1..])
  }

  /** Taking a whole page off lowers the quotient by one. */
  lemma OnePageLess(n: nat, pageSize: nat)
    requires 0 < pageSize
    ensures n < pageSize ==> n / pageSize == 0
    ensures n >= pageSize ==> n / pageSize == (n - pageSize) / pageSize + 1
  {
    if n >= pageSize {
      QuotientIs(n, pageSize, (n - pageSize) / pageSize + 1);
    } else {
      QuotientIs(n, pageSize, 0);
    }
  }

  lemma QuotientIs(n: nat, pageSize: nat, q: nat)
    requires 0 < pageSize && q * pageSize <= n < q * pageSize + pageSize
    ensures n / pageSize == q
  {
    var d := n / pageSize;
    assert d * pageSize <= n < d * pageSize + pageSize;
    Scaled(d, q, pageSize);
    Scaled(q, d, pageSize);
  }

  lemma Scaled(a: nat, b: nat, pageSize: nat)
    ensures a < b ==> a * pageSize + pageSize <= b * pageSize
  {
    if a < b {
      assert a * pageSize + pageSize == (a + 1) * pageSize;
      assert b * pageSize == (a + 1) * pageSize + (b - a - 1) * pageSize;
    }
  }

  /** A page's token leads to the place right behind the page. */
  lemma NextStart(projects: seq<Project>, pageSize: nat, start: nat, page: Page)
    requires pageSize > 0 && PlainProjects(projects)
    requires start <= |projects| && IsPage(projects, pageSize, start, page) && page.next.Some?
    ensures start + pageSize <= |projects| && StartOf(projects, page.next) == Some(start + pageSize)
  {
    var last := projects[start + pageSize - 1];
    assert last in projects;
    TokenRoundTripIff(last.id);
    FindFinds(projects, last.id);
  }

  lemma {:induction false} WalkFrom(projects: seq<Project>, pageSize: nat, start: nat, pages: seq<Page>)
    requires pageSize > 0 && PlainProjects(projects) && Walk(projects, pageSize, start, pages)
    ensures start <= |projects| && Shown(pages) == projects[start..]
    decreases |pages|
  {
    if |pages| == 1 {
      assert Shown(pages[1..]) == [];
    } else {
      NextStart(projects, pageSize, start, pages[0]);
      hide StartOf, TokenFor, PlainProjects, NamedBy, Find;
      assert pages[0].data == projects[start..start + pageSize];
      hide IsPage;
      WalkFrom(projects, pageSize, start + pageSize, pages[1..]);
      assert projects[start..] == projects[start..start + pageSize] + projects[start + pageSize..];
    }
  }

  lemma {:induction false} WalkLength(projects: seq<Project>, pageSize: nat, start: nat, pages: seq<Page>, left: nat)
    requires pageSize > 0 && PlainProjects(projects) && Walk(projects, pageSize, start, pages)
    requires start + left == |projects|
    ensures |pages| == left / pageSize + 1
    decreases |pages|
  {
    OnePageLess(left, pageSize);
    if |pages| == 1 {
    } else {
      NextStart(projects, pageSize, start, pages[0]);
      hide StartOf, TokenFor, PlainProjects;
      WalkLength(projects, pageSize, start + pageSize, pages[1..], left - pageSize);
    }
  }

  lemma {:induction false} PagesFit(projects: seq<Project>, pageSize: nat, start: nat, pages: seq<Page>)
    requires pageSize > 0 && Walk(projects, pageSize, start, pages)
    ensures forall i :: 0 <= i < |pages| ==> |pages[i].data| <= pageSize
    decreases |pages|
  {
    if |pages| <= 1 {
    } else {
      PagesFit(projects, pageSize, StartOf(projects, pages[0].next).value, pages[1..]);
      assert forall i :: 0 < i < |pages| ==> pages[i] == pages[1..][i - 1];
    }
  }

  /**
   * Walking the pages from no token shows the whole sorted list in order, without loss or repeat, in pages of at
   * most the page size, and ends after exactly one call more than there are full pages.
   */
  lemma WalkShowsAll(projects: seq<Project>, pageSize: nat, pages: seq<Page>)
    requires pageSize > 0 && PlainProjects(projects) && Walk(projects, pageSize, 0, pages)
    ensures Shown(pages) == projects
    ensures |pages| == |projects| / pageSize + 1
    ensures forall i :: 0 <= i < |pages| ==> |pages[i].data| <= pageSize
  {
    WalkFrom(projects, pageSize, 0, pages);
    WalkLength(projects, pageSize, 0, pages, |projects|);
    PagesFit(projects, pageSize, 0, pages);
    assert projects[0..] == projects;
    hide *;
  }

  /** No token met on the way is refused: from every start the walk can be completed. */
  lemma {:induction false} WalkCompletes(projects: seq<Project>, pageSize: nat, start: nat) returns (pages: seq<Page>)
    requires pageSize > 0 && PlainProjects(projects) && start <= |projects|
    ensures Walk(projects, pageSize, start, pages)
    decreases |projects| - start
  {
    if |projects| - start < pageSize {
      pages := [Page(projects[start..], None)];
    } else {
      var page := Page(projects[start..start + pageSize], Some(TokenFor(projects[start + pageSize - 1].id)));
      NextStart(projects, pageSize, start, page);
      var rest := WalkCompletes(projects, pageSize, start + pageSize);
      pages := [page] + rest;
      assert pages[1..] == rest;
    }
  }
}
