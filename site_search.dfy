/**
 * What the home, tools and blog pages share when they search: the catalogue
 * entries, the query normalisation (`toLowerCase`, whitespace runs to one
 * space, `trim`), the order-keeping filter over a catalogue, the lowercased
 * text each entry is searched in, the "N result(s) found" label and the rule
 * for the `q` parameter of the page URL.
 */
module SiteSearch {
  import opened Text
  import opened Wrappers
  import opened UrlParams

  /** An entry of the tools catalogue (only the fields a search reads). */
  datatype Tool = Tool(slug: string, name: string, description: string)

  /** An entry of the blog catalogue (only the fields a search reads). */
  datatype Post = Post(slug: string, title: string, excerpt: string,
                       content: Option<string>, tags: Option<seq<string>>)

  /** `${t.name ?? ""} ${t.description ?? ""}`.toLowerCase(). */
  function ToolHay(t: Tool): string {
    ToLower(t.name + " " + t.description)
  }

  /** `${b.title ?? ""} ${b.excerpt ?? ""} ${b.content ?? ""}`.toLowerCase(). */
  function PostHay(b: Post): string {
    ToLower(b.title + " " + b.excerpt + " " + b.content.GetOr(""))
  }

  // ---------------------------------------------------------------------
  // Query normalisation
  // ---------------------------------------------------------------------

  predicate AllSpace(s: string) { forall i :: 0 <= i < |s| ==> IsSpace(s[i]) }

  /** Whitespace only as single plain spaces. */
  predicate SingleSpaced(t: string) {
    (forall i :: 0 <= i < |t| ==> IsSpace(t[i]) ==> t[i] == ' ')
    && (forall i :: 0 <= i < |t| - 1 ==> !(IsSpace(t[i]) && IsSpace(t[i + 1])))
  }

  /** The shape of a normalised query: lowercase, single-spaced, no space at either end. */
  predicate Normal(t: string) {
    IsLowerCase(t) && SingleSpaced(t) && (t == [] || (!IsSpace(t[0]) && !IsSpace(t[|t| - 1])))
  }

  /** `s` with its leading whitespace run removed. */
  function SkipSpaces(s: string): (r: string)
    ensures |r| <= |s|
    ensures r == [] || !IsSpace(r[0])
  {
    if s != [] && IsSpace(s[0]) then SkipSpaces(s[1..]) else s
  }

  /** What `SkipSpaces` leaves is a suffix of its input. */
  lemma {:induction false} SkipSpacesSuffix(s: string)
    ensures SkipSpaces(s) == s[|s| - |SkipSpaces(s)|..]
  {
    if s != [] && IsSpace(s[0]) {
      SkipSpacesSuffix(s[1..]);
      assert s[1..][|s| - 1 - |SkipSpaces(s)|..] == s[|s| - |SkipSpaces(s)|..];
    }
  }

  /** `.replace(/\s+/g, " ")`. */
  function CollapseSpaces(s: string): string
    decreases |s|
  {
    if s == [] then []
    else if IsSpace(s[0]) then " " + CollapseSpaces(SkipSpaces(s[1..]))
    else [s[0]] + CollapseSpaces(s[1..])
  }

  lemma AllSpaceConcat(a: string, b: string)
    ensures AllSpace(a + b) <==> AllSpace(a) && AllSpace(b)
  {
    if AllSpace(a) && AllSpace(b) {
      forall i | 0 <= i < |a + b| ensures IsSpace((a + b)[i]) {
        if i >= |a| { assert (a + b)[i] == b[i - |a|]; }
      }
    }
    if AllSpace(a + b) {
      forall i | 0 <= i < |a| ensures IsSpace(a[i]) { assert a[i] == (a + b)[i]; }
      forall i | 0 <= i < |b| ensures IsSpace(b[i]) { assert b[i] == (a + b)[|a| + i]; }
    }
  }

  /** One character in front of a single-spaced string, not a second space. */
  lemma PrependSingle(c: char, r: string)
    requires SingleSpaced(r)
    requires IsSpace(c) ==> c == ' ' && (r == [] || !IsSpace(r[0]))
    ensures SingleSpaced([c] + r)
  {
    var t := [c] + r;
    forall i | 0 <= i < |t| ensures IsSpace(t[i]) ==> t[i] == ' ' {
      if i > 0 { assert t[i] == r[i - 1]; }
    }
    forall i | 0 <= i < |t| - 1 ensures !(IsSpace(t[i]) && IsSpace(t[i + 1])) {
      if i > 0 { assert t[i] == r[i - 1] && t[i + 1] == r[i]; }
    }
  }

  /**
   * `CollapseSpaces` leaves whitespace only as single plain spaces, is empty
   * only for empty input, and starts with a space exactly when the input
   * starts with whitespace.
   */
  lemma {:induction false} CollapseSpacesShape(s: string)
    ensures SingleSpaced(CollapseSpaces(s))
    ensures CollapseSpaces(s) == [] <==> s == []
    ensures s != [] ==> (IsSpace(CollapseSpaces(s)[0]) <==> IsSpace(s[0]))
    decreases |s|
  {
    if s == [] {
    } else if IsSpace(s[0]) {
      var rest := SkipSpaces(s[1..]);
      CollapseSpacesShape(rest);
      PrependSingle(' ', CollapseSpaces(rest));
      assert CollapseSpaces(s) == " " + CollapseSpaces(rest);
    } else {
      CollapseSpacesShape(s[1..]);
      PrependSingle(s[0], CollapseSpaces(s[1..]));
      assert CollapseSpaces(s) == [s[0]] + CollapseSpaces(s[1..]);
    }
  }

  /** Collapsing whitespace adds no uppercase letter. */
  lemma {:induction false} CollapseSpacesLower(s: string)
    requires IsLowerCase(s)
    ensures IsLowerCase(CollapseSpaces(s))
    decreases |s|
  {
    if s != [] {
      var rest := if IsSpace(s[0]) then SkipSpaces(s[1..]) else s[1..];
      if IsSpace(s[0]) {
        SkipSpacesSuffix(s[1..]);
      }
      assert rest == s[|s| - |rest|..];
      assert IsLowerCase(rest) by {
        forall i | 0 <= i < |rest| ensures !IsUpper(rest[i]) { assert rest[i] == s[|s| - |rest| + i]; }
      }
      CollapseSpacesLower(rest);
      var t := [if IsSpace(s[0]) then ' ' else s[0]] + CollapseSpaces(rest);
      assert CollapseSpaces(s) == t;
      forall i | 0 <= i < |t| ensures !IsUpper(t[i]) {
        if i > 0 { assert t[i] == CollapseSpaces(rest)[i - 1]; }
      }
    }
  }

  /** A string is blank exactly when skipping its leading whitespace leaves nothing. */
  lemma {:induction false} SkipSpacesBlank(s: string)
    ensures AllSpace(s) <==> SkipSpaces(s) == []
  {
    if s != [] && IsSpace(s[0]) {
      SkipSpacesBlank(s[1..]);
      assert s == [s[0]] + s[1..];
      AllSpaceConcat([s[0]], s[1..]);
    }
  }

  /** The result is blank exactly when the input is. */
  lemma {:induction false} CollapseSpacesBlank(s: string)
    ensures AllSpace(CollapseSpaces(s)) <==> AllSpace(s)
    decreases |s|
  {
    if s == [] {
    } else if IsSpace(s[0]) {
      var rest := SkipSpaces(s[1..]);
      var c := CollapseSpaces(rest);
      CollapseSpacesBlank(rest);
      CollapseSpacesShape(rest);
      assert CollapseSpaces(s) == " " + c;
      AllSpaceConcat(" ", c);
      assert AllSpace(c) <==> c == [] by {
        if c != [] { assert !IsSpace(c[0]); }
      }
      SkipSpacesBlank(s[1..]);
      assert s == [s[0]] + s[1..];
      AllSpaceConcat([s[0]], s[1..]);
    } else {
      CollapseSpacesShape(s);
    }
  }

  /** The pages' `norm`/`normalized`; Unicode normalisation is not modelled. */
  function Norm(s: string): string {
    Trim(CollapseSpaces(ToLower(s)))
  }

  lemma SingleSpacedSlice(t: string, lo: nat, hi: nat)
    requires SingleSpaced(t) && IsLowerCase(t) && lo <= hi <= |t|
    ensures SingleSpaced(t[lo..hi]) && IsLowerCase(t[lo..hi])
  {
    var u := t[lo..hi];
    forall i | 0 <= i < |u| ensures (IsSpace(u[i]) ==> u[i] == ' ') && !IsUpper(u[i]) {
      assert u[i] == t[lo + i];
    }
    forall i | 0 <= i < |u| - 1 ensures !(IsSpace(u[i]) && IsSpace(u[i + 1])) {
      assert u[i] == t[lo + i] && u[i + 1] == t[lo + i + 1];
    }
  }

  /** A normalised query is lowercase, single-spaced and trimmed. */
  lemma NormShape(s: string)
    ensures Normal(Norm(s))
  {
    var c := CollapseSpaces(ToLower(s));
    ToLowerIsLower(s);
    CollapseSpacesShape(ToLower(s));
    CollapseSpacesLower(ToLower(s));
    TrimShape(c);
    var i, j :| 0 <= i <= j <= |c| && Trim(c) == c[i..j];
    SingleSpacedSlice(c, i, j);
  }

  /** `trim` gives the empty string exactly for blank input. */
  lemma TrimBlank(c: string)
    ensures Trim(c) == "" <==> AllSpace(c)
  {
    TrimShape(c);
    var i, j :| 0 <= i <= j <= |c| && Trim(c) == c[i..j]
      && (forall k :: 0 <= k < i ==> IsSpace(c[k])) && (forall k :: j <= k < |c| ==> IsSpace(c[k]));
    if Trim(c) == "" {
      forall k | 0 <= k < |c| ensures IsSpace(c[k]) {
        if k >= i { assert j <= k; }
      }
    } else {
      assert Trim(c)[0] == c[i];
    }
  }

  /** A query normalises to the empty string exactly when it is blank. */
  lemma NormBlank(s: string)
    ensures Norm(s) == "" <==> AllSpace(s)
  {
    TrimBlank(CollapseSpaces(ToLower(s)));
    CollapseSpacesBlank(ToLower(s));
    assert AllSpace(ToLower(s)) <==> AllSpace(s) by {
      assert forall k :: 0 <= k < |s| ==> ToLower(s)[k] == Lower(s[k]);
    }
  }

  /** `CollapseSpaces` leaves a single-spaced string alone. */
  lemma {:induction false} CollapseSingle(t: string)
    requires SingleSpaced(t)
    ensures CollapseSpaces(t) == t
  {
    if t != [] {
      var rest := t[1..];
      assert SingleSpaced(rest) by {
        forall i | 0 <= i < |rest| ensures IsSpace(rest[i]) ==> rest[i] == ' ' { assert rest[i] == t[i + 1]; }
        forall i | 0 <= i < |rest| - 1 ensures !(IsSpace(rest[i]) && IsSpace(rest[i + 1])) {
          assert rest[i] == t[i + 1] && rest[i + 1] == t[i + 2];
        }
      }
      CollapseSingle(rest);
      if IsSpace(t[0]) {
        assert rest == [] || (rest[0] == t[1] && !IsSpace(rest[0]));
        assert SkipSpaces(rest) == rest;
        assert CollapseSpaces(t) == " " + CollapseSpaces(SkipSpaces(t[1..]));
        assert t[0] == ' ';
        assert t == [t[0]] + rest;
      } else {
        assert CollapseSpaces(t) == [t[0]] + CollapseSpaces(t[1..]);
        assert t == [t[0]] + rest;
      }
    }
  }

  /** A normalised query normalises to itself. */
  lemma NormFixed(t: string)
    requires Normal(t)
    ensures Norm(t) == t
  {
    ToLowerIsLower(t);
    CollapseSingle(t);
    TrimStartOfUnspaced(t);
    TrimEndOfUnspaced(t);
  }

  /** Normalising twice is normalising once. */
  lemma NormIdempotent(s: string)
    ensures Norm(Norm(s)) == Norm(s)
  {
    NormShape(s);
    NormFixed(Norm(s));
  }

  // ---------------------------------------------------------------------
  // Filtering a catalogue
  // ---------------------------------------------------------------------

  /** `xs.filter(keep)`. */
  function Filter<T(!new)>(xs: seq<T>, keep: T -> bool): (r: seq<T>)
    ensures |r| <= |xs|
    ensures forall x :: x in r <==> x in xs && keep(x)
  {
    if xs == [] then []
    else (if keep(xs[0]) then [xs[0]] else []) + Filter(xs[1..], keep)
  }

  /** The filter keeps the catalogue order: filtering a concatenation filters each part. */
  lemma {:induction false} FilterAppend<T(!new)>(a: seq<T>, b: seq<T>, keep: T -> bool)
    ensures Filter(a + b, keep) == Filter(a, keep) + Filter(b, keep)
  {
    if a == [] {
      assert a + b == b;
    } else {
      assert (a + b)[1..] == a[1..] + b;
      FilterAppend(a[1..], b, keep);
    }
  }

  /** When every entry passes, the filter returns the catalogue as it is. */
  lemma {:induction false} FilterAll<T(!new)>(xs: seq<T>, keep: T -> bool)
    requires forall i :: 0 <= i < |xs| ==> keep(xs[i])
    ensures Filter(xs, keep) == xs
  {
    if xs != [] {
      assert keep(xs[0]);
      FilterAll(xs[1..], keep);
    }
  }

  /** The entries a query `n` selects, in catalogue order. */
  function MatchingTools(tools: seq<Tool>, n: string): seq<Tool> {
    Filter(tools, (t: Tool) => Contains(ToolHay(t), n))
  }

  function MatchingPosts(posts: seq<Post>, n: string): seq<Post> {
    Filter(posts, (b: Post) => Contains(PostHay(b), n))
  }

  /** The empty query selects every entry. */
  lemma MatchEmpty(tools: seq<Tool>, posts: seq<Post>)
    ensures MatchingTools(tools, "") == tools
    ensures MatchingPosts(posts, "") == posts
  {
    forall t: Tool ensures Contains(ToolHay(t), "") { ContainsEmpty(ToolHay(t)); }
    forall b: Post ensures Contains(PostHay(b), "") { ContainsEmpty(PostHay(b)); }
    FilterAll(tools, (t: Tool) => Contains(ToolHay(t), ""));
    FilterAll(posts, (b: Post) => Contains(PostHay(b), ""));
  }

  // ---------------------------------------------------------------------
  // Result count and the URL's `q` parameter
  // ---------------------------------------------------------------------

  /** `{n} result{n !== 1 ? "s" : ""} found`. */
  function ResultsLabel(n: nat): string {
    Decimal(n) + " result" + (if n != 1 then "s" else "") + " found"
  }

  /** The label shows the count and uses the plural exactly when the count is not 1. */
  lemma ResultsLabelSpec(n: nat)
    ensures var text, d := ResultsLabel(n), Decimal(n);
      text[..|d|] == d && DigitsValue(d) == n
      && (StartsWith(text[|d|..], " results") <==> n != 1)
  {
    var d := Decimal(n);
    DecimalRoundTrip(n);
    var text := ResultsLabel(n);
    var tail := " result" + (if n != 1 then "s" else "") + " found";
    assert text == d + tail;
    assert text[|d|..] == tail;
    if n == 1 {
      assert tail[7] == ' ';
    } else {
      assert tail[..8] == " results";
    }
  }

  /** The page's parameters after the sync: `set("q", q)` for a non-empty `q`, `delete("q")` otherwise. */
  function SyncedParams(current: Pairs, q: string): Pairs {
    if q != "" then SetKey(current, "q", q) else DeleteKey(current, "q")
  }

  /**
   * After the sync `q` is the one parameter named `q` when it is not empty
   * and there is none otherwise; every other parameter is kept, in order.
   */
  lemma SyncedParamsSpec(current: Pairs, q: string)
    ensures Lookup(SyncedParams(current, q), "q") == (if q != "" then Some(q) else None)
    ensures CountKey(SyncedParams(current, q), "q") == (if q != "" then 1 else 0)
    ensures DeleteKey(SyncedParams(current, q), "q") == DeleteKey(current, "q")
  {
    if q != "" {
      SetKeySpec(current, "q", q);
    } else {
      DeleteKeySpec(current, "q");
      CountDeleted(current, "q");
    }
  }
}
