/**
 * The blog list page: the posts a query selects, and the page URL kept in
 * step with the query.
 */
module BlogPage {
  import opened Text
  import opened UrlParams
  import opened SiteSearch

  /** The `filtered` memo: an empty query shows every post, otherwise the normalised query filters. */
  function Filtered(posts: seq<Post>, q: string): seq<Post> {
    if q == "" then posts else MatchingPosts(posts, Norm(q))
  }

  /** An empty or blank query lists every post in catalogue order. */
  lemma FilteredBlank(posts: seq<Post>, q: string)
    requires AllSpace(q)
    ensures Filtered(posts, q) == posts
  {
    NormBlank(q);
    MatchEmpty([], posts);
  }

  /** A post is listed exactly when its lowercased title, excerpt and content contain the normalised query. */
  lemma FilteredMembers(posts: seq<Post>, q: string, t: Post)
    ensures t in Filtered(posts, q) <==> t in posts && Contains(PostHay(t), Norm(q))
  {
    if q == "" {
      EmptyQueryMembers(posts, t);
    }
  }

  lemma EmptyQueryMembers(posts: seq<Post>, t: Post)
    ensures t in Filtered(posts, "") <==> t in posts && Contains(PostHay(t), Norm(""))
  {
    assert Norm("") == "" by { NormBlank(""); }
    ContainsEmpty(PostHay(t));
  }

  /** The list keeps catalogue order: filtering a concatenation filters each part. */
  lemma FilteredOrder(a: seq<Post>, b: seq<Post>, q: string)
    ensures Filtered(a + b, q) == Filtered(a, q) + Filtered(b, q)
  {
    if q != "" {
      FilterAppend(a, b, (t: Post) => Contains(PostHay(t), Norm(q)));
    }
  }

  /**
   * The URL sync: a copy of the current parameters gets `set("q", q)` or
   * `delete("q")`, and the page is `/blog`, followed by `?` and the
   * parameters only when some remain (`size`).
   */
  method SyncUrl(current: Pairs, q: string) returns (url: string)
    ensures url == "/blog" <==> SyncedParams(current, q) == []
    ensures url != "/blog" ==> url == "/blog?" + Serialize(SyncedParams(current, q))
  {
    var sp := new SearchParams(current);
    if q != "" {
      sp.Set("q", q);
    } else {
      sp.Delete("q");
    }
    url := "/blog" + (if |sp.pairs| > 0 then "?" + sp.ToString() else "");
  }
}
