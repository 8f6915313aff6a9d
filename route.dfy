/** Active-route classification of the site header (`JamiphyHeader`):
    which of the three navigation links is marked active for the current
    `location.pathname`. */
module Route {

  /** `String.prototype.startsWith`. */
  predicate StartsWith(s: string, prefix: string)
  {
    |prefix| <= |s| && s[..|prefix|] == prefix
  }

  /** The three flags the header computes from the path. */
  datatype NavFlags = NavFlags(isHome: bool, isAbout: bool, isContact: bool)

  /** One navigation link as rendered: its caption, its target and whether it
      carries the active styling. */
  datatype NavLink = NavLink(caption: string, href: string, active: bool)

  /** The header's flags: `/` and `/index.html` are home (exact match),
      anything under `/about` or `/contact` is that section (prefix match). */
  function RouteFlags(path: string): (f: NavFlags)
    ensures f.isHome <==> path == "/" || path == "/index.html"
    ensures f.isAbout <==> |path| >= 6 && path[..6] == "/about"
    ensures f.isContact <==> |path| >= 8 && path[..8] == "/contact"
  {
    NavFlags(path == "/" || path == "/index.html",
             StartsWith(path, "/about"),
             StartsWith(path, "/contact"))
  }

  /** The number of flags that are set. */
  function ActiveCount(f: NavFlags): (n: nat)
    ensures n <= 3
    ensures n == 0 <==> !f.isHome && !f.isAbout && !f.isContact
  {
    (if f.isHome then 1 else 0) + (if f.isAbout then 1 else 0) + (if f.isContact then 1 else 0)
  }

  /** No path marks two sections active at once. */
  lemma AtMostOneActive(path: string)
    ensures ActiveCount(RouteFlags(path)) <= 1
  {
    // The three sections differ in the path's second character.
    var f := RouteFlags(path);
    assert f.isAbout ==> path[1] == 'a';
    assert f.isContact ==> path[1] == 'c';
    assert f.isHome ==> path == "/" || path[1] == 'i';
  }

  /** The header's desktop link list, Home, About then Contact, each marked
      active by its flag; at most one of them is active. */
  function NavLinks(path: string): (links: seq<NavLink>)
    ensures |links| == 3
    ensures links[0].caption == "Home" && links[0].href == "/"
    ensures links[1].caption == "About" && links[1].href == "/about/"
    ensures links[2].caption == "Contact" && links[2].href == "/contact/"
    ensures links[0].active == RouteFlags(path).isHome
    ensures links[1].active == RouteFlags(path).isAbout
    ensures links[2].active == RouteFlags(path).isContact
    ensures forall i, j :: 0 <= i < j < |links| && links[i].active ==> !links[j].active
  {
    var f := RouteFlags(path);
    AtMostOneActive(path);
    [NavLink("Home", "/", f.isHome),
     NavLink("About", "/about/", f.isAbout),
     NavLink("Contact", "/contact/", f.isContact)]
  }

  /** Following any navigation link lands on a page where that link, and
      only that link, is active. */
  lemma FollowingLinkActivatesIt(i: nat)
    requires i < 3
    ensures var links := NavLinks(NavLinks("/")[i].href);
            forall j :: 0 <= j < |links| ==> (links[j].active <==> j == i)
  {
  }

  /** A path below `/about` marks exactly About active. */
  lemma AboutSubpage(rest: string)
    ensures RouteFlags("/about" + rest) == NavFlags(false, true, false)
  {
    var path := "/about" + rest;
    assert path[..6] == "/about";
    AtMostOneActive(path);
  }

  /** A path that is neither home nor under `/about` or `/contact`, such as
      `/blog`, leaves every flag unset. */
  lemma UnrecognisedPath()
    ensures RouteFlags("/blog") == NavFlags(false, false, false)
    ensures RouteFlags("") == NavFlags(false, false, false)
  {
  }
}
