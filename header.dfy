/**
 * The site header: which navigation link is highlighted for the current
 * path, the mobile menu's open flag, and where a header search goes.
 */
module SiteHeader {
  import opened Text
  import opened Wrappers

  /** The navigation links, in menu order. */
  const MenuHrefs: seq<string> := ["/", "/tools", "/about-us", "/contact-us", "/blog"]

  /** Whether the link `href` is highlighted on `pathname` (absent while the router has none). */
  predicate IsActive(pathname: Option<string>, href: string) {
    if pathname.None? || pathname.value == "" then false
    else if href == "/" then pathname.value == "/"
    else pathname.value == href || StartsWith(pathname.value, href + "/")
  }

  /** Where a search lands: the list page to search, and the trimmed query (URL-encoding not modelled). */
  datatype SearchTarget = SearchTarget(basePath: string, query: string)

  class Header {
    var isOpen: bool
    var pathname: Option<string>

    constructor (pathname: Option<string>)
      ensures !isOpen && this.pathname == pathname
    {
      isOpen := false;
      this.pathname := pathname;
    }

    function Active(href: string): (b: bool)
      reads this
      ensures b ==> pathname.Some? && pathname.value != ""
      ensures href == "/" ==> (b <==> pathname == Some("/"))
    {
      IsActive(pathname, href)
    }

    method ToggleMenu()
      modifies this
      ensures isOpen == !old(isOpen) && pathname == old(pathname)
    {
      isOpen := !isOpen;
    }

    /** Closing the menu, also what Escape does while it is open. */
    method CloseMenu()
      modifies this
      ensures !isOpen && pathname == old(pathname)
    {
      isOpen := false;
    }

    /**
     * A navigation records the new path; the menu closes only when the
     * pathname changed, so a navigation that keeps it (a search from the
     * blog's drawer to `/blog?q=...`) leaves an open menu open.
     */
    method RouteChanged(next: Option<string>)
      modifies this
      ensures pathname == next
      ensures isOpen == (old(isOpen) && next == old(pathname))
    {
      if next != pathname {
        isOpen := false;
      }
      pathname := next;
    }

    /**
     * `handleSearchNavigate`: a blank query goes nowhere; otherwise the
     * search stays on the blog when the path starts with `/blog` (and not
     * `/tools`) and goes to the tools list in every other case.
     */
    method SearchNavigate(query: string) returns (target: Option<SearchTarget>)
      ensures Trim(query) == "" <==> target.None?
      ensures target.Some? ==> target.value.query == Trim(query) && target.value.query != ""
      ensures target.Some? ==>
        (target.value.basePath == "/blog" <==>
          pathname.Some? && !StartsWith(pathname.value, "/tools") && StartsWith(pathname.value, "/blog"))
      ensures target.Some? ==> target.value.basePath in {"/tools", "/blog"}
    {
      var trimmed := Trim(query);
      if trimmed == "" {
        return None;
      }
      var basePath := "/tools";
      if pathname.Some? && StartsWith(pathname.value, "/tools") {
        basePath := "/tools";
      } else if pathname.Some? && StartsWith(pathname.value, "/blog") {
        basePath := "/blog";
      }
      target := Some(SearchTarget(basePath, trimmed));
    }
  }

  /**
   * For any link but the home link, the link is highlighted exactly on its
   * own path and below it; the home link only on `/` itself; nothing is
   * highlighted without a path.
   */
  lemma IsActiveSpec(pathname: Option<string>, href: string)
    ensures pathname.None? || pathname == Some("") ==> !IsActive(pathname, href)
    ensures href == "/" ==> (IsActive(pathname, href) <==> pathname == Some("/"))
    ensures href != "/" && pathname.Some? && pathname.value != "" ==>
      (IsActive(pathname, href) <==> pathname.value == href || StartsWith(pathname.value, href + "/"))
  {
  }

  /** `/tools` is highlighted on `/tools/x` but not on `/toolsx`. */
  lemma IsActiveExamples()
    ensures IsActive(Some("/tools/x"), "/tools")
    ensures !IsActive(Some("/toolsx"), "/tools")
    ensures !IsActive(Some("/tools"), "/")
  {
    assert ("/tools/x")[..7] == "/tools/";
    var p := "/toolsx";
    assert p[6] == 'x';
  }

  /** A highlighted link other than home shares the path's second character. */
  lemma ActiveHead(pathname: Option<string>, href: string)
    requires href != "/" && |href| >= 2
    requires IsActive(pathname, href)
    ensures |pathname.value| >= 2 && pathname.value[1] == href[1]
  {
    var p := pathname.value;
    if p != href {
      assert p[..|href| + 1] == href + "/";
      assert p[1] == (href + "/")[1];
    }
  }

  /** At most one menu link is highlighted on any path. */
  lemma AtMostOneActive(pathname: Option<string>, i: nat, j: nat)
    requires i < j < |MenuHrefs|
    ensures !(IsActive(pathname, MenuHrefs[i]) && IsActive(pathname, MenuHrefs[j]))
  {
    var a, b := MenuHrefs[i], MenuHrefs[j];
    assert b != "/" && |b| >= 2;
    if IsActive(pathname, b) {
      ActiveHead(pathname, b);
      if i > 0 {
        assert a != "/" && |a| >= 2 && a[1] != b[1];
        if IsActive(pathname, a) {
          ActiveHead(pathname, a);
        }
      }
    }
  }
}
