/**
 * The tabbed frame of the game editing pages in the admin area: which tab a
 * URL selects, the selected tab as the location changes, and the URLs that
 * the tabs and the back button navigate to.
 */
module GameEditTab {
  import opened Wrappers
  import opened Substrings

  /** The editing pages, one per tab. */
  datatype Page = Info | Notices | Challenges | Review | Writeups

  /** The path segment of a page, which is also the value of its tab. */
  function PagePath(p: Page): string
  {
    match p
    case Info => "info"
    case Notices => "notices"
    case Challenges => "challenges"
    case Review => "review"
    case Writeups => "writeups"
  }

  /** The tabs in the order they are listed and searched. */
  const Pages: seq<Page> := [Info, Notices, Challenges, Review, Writeups]

  /** The position of a page in `Pages`. */
  function Rank(p: Page): (i: nat)
    ensures i < |Pages| && Pages[i] == p
  {
    match p
    case Info => 0
    case Notices => 1
    case Challenges => 2
    case Review => 3
    case Writeups => 4
  }

  /** The first position of `pages`, from `k` on, whose path the pathname includes. */
  function FirstMatch(pages: seq<Page>, pathname: string, k: nat): (r: Option<nat>)
    requires k <= |pages|
    ensures r.Some? ==> k <= r.value < |pages| && Includes(pathname, PagePath(pages[r.value]))
    ensures r.Some? ==> forall j :: k <= j < r.value ==> !Includes(pathname, PagePath(pages[j]))
    ensures r.None? ==> forall j :: k <= j < |pages| ==> !Includes(pathname, PagePath(pages[j]))
    decreases |pages| - k
  {
    if k == |pages| then None
    else if Includes(pathname, PagePath(pages[k])) then Some(k)
    else FirstMatch(pages, pathname, k + 1)
  }

  /**
   * `getTab`: the first page, in list order, whose path occurs in the
   * pathname; None when no page path occurs in it.
   */
  function GetTab(pathname: string): (r: Option<Page>)
    ensures r.Some? ==> Includes(pathname, PagePath(r.value))
    ensures r.Some? ==> forall q: Page :: Rank(q) < Rank(r.value) ==> !Includes(pathname, PagePath(q))
    ensures r.None? <==> forall q: Page :: !Includes(pathname, PagePath(q))
  {
    match FirstMatch(Pages, pathname, 0)
    case None =>
      assert forall q: Page :: Pages[Rank(q)] == q && !Includes(pathname, PagePath(q));
      None
    case Some(i) => Some(Pages[i])
  }

  /** When the pathname includes several page paths, the earliest listed page is chosen. */
  lemma {:induction false} EarlierPageWins(pathname: string, p: Page, q: Page)
    requires Includes(pathname, PagePath(p)) && Includes(pathname, PagePath(q))
    requires Rank(p) < Rank(q)
    ensures GetTab(pathname).Some? && GetTab(pathname) != Some(q)
    ensures Rank(GetTab(pathname).value) <= Rank(p)
  {
  }

  /** The tab-change target `/admin/games/${id}/${value}`. */
  function TabUrl(id: string, value: string): string
  {
    "/admin/games/" + id + "/" + value
  }

  /** The back button's target: `backUrl ?? '/admin/games'`. */
  function BackTarget(backUrl: Option<string>): string
  {
    backUrl.GetOr("/admin/games")
  }

  /**
   * A letter of each page's path that occurs neither in "admin", nor in
   * "games", nor in the path of any page listed after it.
   */
  function Marker(p: Page): (c: char)
    ensures c in PagePath(p) && c !in "admin" && c !in "games"
    ensures forall q: Page :: Rank(p) < Rank(q) ==> c !in PagePath(q)
  {
    match p
    case Info => 'f'
    case Notices => 'o'
    case Challenges => 'h'
    case Review => 'v'
    case Writeups => 'w'
  }

  lemma {:induction false} PagePathIsLower(p: Page)
    ensures |PagePath(p)| > 0 && AllLower(PagePath(p))
  {
  }

  /**
   * A page path occurs in a tab URL whose id has no lower-case letter only
   * inside "admin", inside "games", or inside the tab value.
   */
  lemma {:induction false} TabUrlOccurrences(id: string, value: string, q: Page)
    requires NoLower(id)
    ensures Includes(TabUrl(id, value), PagePath(q)) <==>
      Includes("admin", PagePath(q)) || Includes("games", PagePath(q)) || Includes(value, PagePath(q))
  {
    var t := PagePath(q);
    PagePathIsLower(q);
    var sep := "/" + id + "/";
    assert NoLower(sep) by {
      assert forall k :: 1 <= k < |sep| - 1 ==> sep[k] == id[k - 1];
    }
    assert TabUrl(id, value) == "" + "/" + ("admin" + "/" + ("games" + sep + value));
    IncludesAcrossSeparator("", "/", "admin" + "/" + ("games" + sep + value), t);
    IncludesAcrossSeparator("admin", "/", "games" + sep + value, t);
    IncludesAcrossSeparator("games", sep, value, t);
  }

  /**
   * Clicking a tab navigates to a URL that selects that same tab again, for
   * an id without lower-case letters (a numeric game id, say).
   */
  lemma {:induction false} TabUrlRoundTrip(id: string, p: Page)
    requires NoLower(id)
    ensures GetTab(TabUrl(id, PagePath(p))) == Some(p)
  {
    var url := TabUrl(id, PagePath(p));
    TabUrlOccurrences(id, PagePath(p), p);
    IncludesItself(PagePath(p));
    forall q: Page | Rank(q) < Rank(p)
      ensures !Includes(url, PagePath(q))
    {
      TabUrlOccurrences(id, PagePath(p), q);
      MissingCharExcludes("admin", PagePath(q), Marker(q));
      MissingCharExcludes("games", PagePath(q), Marker(q));
      MissingCharExcludes(PagePath(p), PagePath(q), Marker(q));
    }
    var r := GetTab(url);
    assert r.Some?;
    assert Rank(r.value) == Rank(p);
  }

  /** No page path occurs in the default back target. */
  lemma {:induction false} DefaultBackExcludes(q: Page)
    ensures !Includes(BackTarget(None), PagePath(q))
  {
    var t := PagePath(q);
    PagePathIsLower(q);
    assert BackTarget(None) == "" + "/" + ("admin" + "/" + "games");
    IncludesAcrossSeparator("", "/", "admin" + "/" + "games", t);
    IncludesAcrossSeparator("admin", "/", "games", t);
    MissingCharExcludes("admin", t, Marker(q));
    MissingCharExcludes("games", t, Marker(q));
  }

  /** The default back target selects no tab. */
  lemma {:induction false} DefaultBackSelectsNoTab()
    ensures GetTab(BackTarget(None)) == None
  {
    forall q: Page
      ensures !Includes(BackTarget(None), PagePath(q))
    {
      DefaultBackExcludes(q);
    }
  }

  /**
   * The component's state: the selected tab, and the navigation targets it
   * has issued, oldest first.
   */
  class EditTabState {
    var activeTab: string
    var navigations: seq<string>

    /** The selected tab is always the path of one of the pages. */
    ghost predicate Valid()
      reads this
    {
      exists p: Page :: PagePath(p) == activeTab
    }

    /** The initial state: the tab the pathname selects, else the first page's. */
    constructor (pathname: string)
      ensures Valid()
      ensures GetTab(pathname).Some? ==> activeTab == PagePath(GetTab(pathname).value)
      ensures GetTab(pathname).None? ==> activeTab == PagePath(Pages[0])
      ensures navigations == []
    {
      var tab := GetTab(pathname);
      var page := if tab.Some? then tab.value else Pages[0];
      activeTab := PagePath(page);
      navigations := [];
    }

    /**
     * The effect run when the location changes: select the tab the pathname
     * names, or, when it names none, leave the tab and navigate to the first
     * page's path.
     */
    method OnLocationChange(pathname: string)
      requires Valid()
      modifies this
      ensures Valid()
      ensures GetTab(pathname).Some? ==>
        activeTab == PagePath(GetTab(pathname).value) && navigations == old(navigations)
      ensures GetTab(pathname).None? ==>
        activeTab == old(activeTab) && navigations == old(navigations) + [PagePath(Pages[0])]
    {
      var tab := GetTab(pathname);
      if tab.Some? {
        activeTab := PagePath(tab.value);
      } else {
        navigations := navigations + [PagePath(Pages[0])];
      }
    }

    /** A tab click navigates to that tab's URL; the selection follows the location. */
    method OnTabChange(id: string, value: string)
      modifies this`navigations
      ensures navigations == old(navigations) + [TabUrl(id, value)]
    {
      navigations := navigations + [TabUrl(id, value)];
    }

    /** The back button navigates to `backUrl`, or to the games list. */
    method OnBack(backUrl: Option<string>)
      modifies this`navigations
      ensures navigations == old(navigations) + [BackTarget(backUrl)]
    {
      navigations := navigations + [BackTarget(backUrl)];
    }
  }
}
