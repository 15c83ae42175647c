/**
 * The tools list page: the tools a query selects, and the page URL kept in
 * step with the query.
 */
module ToolsPage {
  import opened Text
  import opened UrlParams
  import opened SiteSearch

  /** The `filtered` memo: an empty query shows every tool, otherwise the normalised query filters. */
  function Filtered(tools: seq<Tool>, q: string): seq<Tool> {
    if q == "" then tools else MatchingTools(tools, Norm(q))
  }

  /** An empty or blank query lists every tool in catalogue order. */
  lemma FilteredBlank(tools: seq<Tool>, q: string)
    requires AllSpace(q)
    ensures Filtered(tools, q) == tools
  {
    NormBlank(q);
    MatchEmpty(tools, []);
  }

  /** A tool is listed exactly when its lowercased name and description contain the normalised query. */
  lemma FilteredMembers(tools: seq<Tool>, q: string, t: Tool)
    ensures t in Filtered(tools, q) <==> t in tools && Contains(ToolHay(t), Norm(q))
  {
    if q == "" {
      EmptyQueryMembers(tools, t);
    }
  }

  lemma EmptyQueryMembers(tools: seq<Tool>, t: Tool)
    ensures t in Filtered(tools, "") <==> t in tools && Contains(ToolHay(t), Norm(""))
  {
    assert Norm("") == "" by { NormBlank(""); }
    ContainsEmpty(ToolHay(t));
  }

  /** The list keeps catalogue order: filtering a concatenation filters each part. */
  lemma FilteredOrder(a: seq<Tool>, b: seq<Tool>, q: string)
    ensures Filtered(a + b, q) == Filtered(a, q) + Filtered(b, q)
  {
    if q != "" {
      FilterAppend(a, b, (t: Tool) => Contains(ToolHay(t), Norm(q)));
    }
  }

  /**
   * The URL sync: a copy of the current parameters gets `set("q", q)` or
   * `delete("q")`, and the page is `/tools`, followed by `?` and the
   * parameters only when their serialisation is not empty.
   */
  method SyncUrl(current: Pairs, q: string) returns (url: string)
    ensures url == "/tools" <==> SyncedParams(current, q) == []
    ensures url != "/tools" ==> url == "/tools?" + Serialize(SyncedParams(current, q))
  {
    var sp := new SearchParams(current);
    if q != "" {
      sp.Set("q", q);
    } else {
      sp.Delete("q");
    }
    var s := sp.ToString();
    url := "/tools" + (if s != "" then "?" + s else "");
  }
}
