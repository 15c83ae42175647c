/**
 * The home page search: the keyword pool built from the catalogues, the
 * ranked suggestions for what is typed, the inline tool and post results
 * for the debounced query, and the search box's state (the query, the
 * debounced query, whether suggestions are shown and which one is
 * highlighted).
 */
module HomePage {
  import opened Text
  import opened Wrappers
  import opened SiteSearch
  import ToolsPage

  // ---------------------------------------------------------------------
  // Keyword pool
  // ---------------------------------------------------------------------

  /** `slug.replace(/-/g, " ")`. */
  function HyphensToSpaces(s: string): (r: string)
    ensures |r| == |s|
  {
    seq(|s|, i requires 0 <= i < |s| => if s[i] == '-' then ' ' else s[i])
  }

  /** What one tool contributes to the pool's phrases: its non-empty name, description and slug words. */
  function ToolPhrases(t: Tool): seq<string> {
    (if t.name != "" then [t.name] else [])
    + (if t.description != "" then [t.description] else [])
    + (if t.slug != "" then [HyphensToSpaces(t.slug)] else [])
  }

  /** What one post contributes: its non-empty title, excerpt and slug words, then all of its tags. */
  function PostPhrases(b: Post): seq<string> {
    (if b.title != "" then [b.title] else [])
    + (if b.excerpt != "" then [b.excerpt] else [])
    + (if b.slug != "" then [HyphensToSpaces(b.slug)] else [])
    + (if b.tags.Some? && |b.tags.value| > 0 then b.tags.value else [])
  }

  function ToolsPhrases(tools: seq<Tool>): seq<string> {
    if tools == [] then [] else ToolsPhrases(tools[..|tools| - 1]) + ToolPhrases(tools[|tools| - 1])
  }

  function PostsPhrases(posts: seq<Post>): seq<string> {
    if posts == [] then [] else PostsPhrases(posts[..|posts| - 1]) + PostPhrases(posts[|posts| - 1])
  }

  lemma PostsPhrasesStep(posts: seq<Post>, i: nat)
    requires i < |posts|
    ensures PostsPhrases(posts[..i + 1]) == PostsPhrases(posts[..i]) + PostPhrases(posts[i])
  {
    assert posts[..i + 1][..i] == posts[..i];
  }

  /** The `base` list the two loops fill. */
  function Phrases(tools: seq<Tool>, posts: seq<Post>): seq<string> {
    ToolsPhrases(tools) + PostsPhrases(posts)
  }

  /** Length of the leading run of `[a-zA-Z0-9]`. */
  function RunLength(s: string): (k: nat)
    ensures k <= |s|
    ensures s != [] && IsAlnum(s[0]) ==> k > 0
  {
    if s != [] && IsAlnum(s[0]) then 1 + RunLength(s[1..]) else 0
  }

  /** The run is made of letters and digits and ends at a separator or at the end. */
  lemma {:induction false} RunLengthSpec(s: string)
    ensures forall i :: 0 <= i < RunLength(s) ==> IsAlnum(s[i])
    ensures RunLength(s) < |s| ==> !IsAlnum(s[RunLength(s)])
  {
    if s != [] && IsAlnum(s[0]) {
      RunLengthSpec(s[1..]);
      assert forall i :: 1 <= i < |s| ==> s[i] == s[1..][i - 1];
    }
  }

  /** `s` with its leading run of separators (characters outside `[a-zA-Z0-9]`) removed. */
  function SkipSeparators(s: string): (r: string)
    ensures |r| <= |s|
    ensures r == [] || IsAlnum(r[0])
  {
    if s != [] && !IsAlnum(s[0]) then SkipSeparators(s[1..]) else s
  }

  /** What `SkipSeparators` drops is a run of separators; the rest is kept. */
  lemma {:induction false} SkipSeparatorsSpec(s: string)
    ensures SkipSeparators(s) == s[|s| - |SkipSeparators(s)|..]
    ensures forall i :: 0 <= i < |s| - |SkipSeparators(s)| ==> !IsAlnum(s[i])
  {
    if s != [] && !IsAlnum(s[0]) {
      var r := SkipSeparators(s);
      SkipSeparatorsSpec(s[1..]);
      assert s[1..][|s| - 1 - |r|..] == s[|s| - |r|..];
      assert forall i :: 1 <= i < |s| - |r| ==> s[i] == s[1..][i - 1];
    }
  }

  /** `s.split(/[^a-zA-Z0-9]+/g).filter(Boolean)`: the maximal letter-and-digit runs of `s`. */
  function Words(s: string): (ws: seq<string>)
    decreases |s|
  {
    var t := SkipSeparators(s);
    if t == [] then []
    else
      var k := RunLength(t);
      [t[..k]] + Words(t[k..])
  }

  /** Every word is a non-empty run of letters and digits. */
  lemma {:induction false} WordsAlnum(s: string)
    ensures forall w :: w in Words(s) ==> w != [] && forall i :: 0 <= i < |w| ==> IsAlnum(w[i])
    decreases |s|
  {
    var t := SkipSeparators(s);
    if t != [] {
      var k := RunLength(t);
      RunLengthSpec(t);
      WordsAlnum(t[k..]);
      assert Words(s) == [t[..k]] + Words(t[k..]);
    }
  }

  /** The letters and digits of `s`, in order. */
  function AlnumChars(s: string): string {
    if s == [] then [] else (if IsAlnum(s[0]) then [s[0]] else []) + AlnumChars(s[1..])
  }

  function Concat(ws: seq<string>): string {
    if ws == [] then [] else ws[0] + Concat(ws[1..])
  }

  lemma {:induction false} AlnumCharsAppend(a: string, b: string)
    ensures AlnumChars(a + b) == AlnumChars(a) + AlnumChars(b)
  {
    if a == [] {
      assert a + b == b;
    } else {
      var ab := a + b;
      assert ab[0] == a[0] && ab[1..] == a[1..] + b;
      AlnumCharsAppend(a[1..], b);
      var h := if IsAlnum(a[0]) then [a[0]] else [];
      calc {
        AlnumChars(ab);
        h + AlnumChars(a[1..] + b);
        h + (AlnumChars(a[1..]) + AlnumChars(b));
        (h + AlnumChars(a[1..])) + AlnumChars(b);
      }
    }
  }

  lemma {:induction false} AlnumCharsOf(s: string, all: bool)
    requires forall i :: 0 <= i < |s| ==> IsAlnum(s[i]) == all
    ensures AlnumChars(s) == if all then s else []
  {
    if s != [] {
      AlnumCharsOf(s[1..], all);
    }
  }

  lemma {:induction false} SeparatorsAlnums(s: string)
    ensures AlnumChars(s) == AlnumChars(SkipSeparators(s))
  {
    if s != [] && !IsAlnum(s[0]) {
      SeparatorsAlnums(s[1..]);
      assert AlnumChars(s) == AlnumChars(s[1..]);
    }
  }

  lemma RunAlnums(t: string)
    ensures AlnumChars(t) == t[..RunLength(t)] + AlnumChars(t[RunLength(t)..])
  {
    var k := RunLength(t);
    RunLengthSpec(t);
    assert t == t[..k] + t[k..];
    AlnumCharsAppend(t[..k], t[k..]);
    AlnumCharsOf(t[..k], true);
  }

  /** Splitting loses no letter or digit and adds nothing: the words joined are the letters and digits of `s`. */
  lemma {:induction false} WordsSpec(s: string)
    ensures Concat(Words(s)) == AlnumChars(s)
    decreases |s|
  {
    var t := SkipSeparators(s);
    SeparatorsAlnums(s);
    if t != [] {
      var k := RunLength(t);
      RunAlnums(t);
      WordsSpec(t[k..]);
      assert Words(s) == [t[..k]] + Words(t[k..]);
      assert Concat(Words(s)) == t[..k] + Concat(Words(t[k..]));
    }
  }

  /** Each phrase trimmed, followed by its words (`flatMap`). */
  function Tokens(base: seq<string>): seq<string> {
    if base == [] then []
    else var c := Trim(base[0]); [c] + Words(c) + Tokens(base[1..])
  }

  /** The shape every pool keyword has. */
  predicate Keyword(k: string) {
    IsLowerCase(k) && Trim(k) == k && |k| >= 3
  }

  /** `.map(s => s.toLowerCase().trim()).filter(s => s.length >= 3)`. */
  function Candidates(tokens: seq<string>): seq<string> {
    if tokens == [] then []
    else
      var x := Trim(ToLower(tokens[0]));
      (if |x| >= 3 then [x] else []) + Candidates(tokens[1..])
  }

  /** Every candidate is lowercase, trimmed and at least 3 characters long. */
  lemma {:induction false} CandidatesKeywords(tokens: seq<string>)
    ensures forall k :: k in Candidates(tokens) ==> Keyword(k)
  {
    if tokens != [] {
      CandidateShape(tokens[0]);
      CandidatesKeywords(tokens[1..]);
    }
  }

  lemma CandidateShape(s: string)
    ensures IsLowerCase(Trim(ToLower(s))) && Trim(Trim(ToLower(s))) == Trim(ToLower(s))
  {
    TrimLower(s);
    ToLowerIsLower(Trim(s));
    TrimIdempotent(ToLower(s));
  }

  /** Every token that is long enough once lowercased and trimmed becomes a candidate. */
  lemma {:induction false} CandidateOf(tokens: seq<string>, i: nat)
    requires i < |tokens| && |Trim(ToLower(tokens[i]))| >= 3
    ensures Trim(ToLower(tokens[i])) in Candidates(tokens)
  {
    var x := Trim(ToLower(tokens[0]));
    var rest := Candidates(tokens[1..]);
    assert Candidates(tokens) == (if |x| >= 3 then [x] else []) + rest;
    if i > 0 {
      assert tokens[1..][i - 1] == tokens[i];
      CandidateOf(tokens[1..], i - 1);
    }
  }

  predicate Distinct(xs: seq<string>) {
    forall i, j :: 0 <= i < j < |xs| ==> xs[i] != xs[j]
  }

  /**
   * `Array.from(new Set(xs))`: each value once, in the order of first
   * occurrence (`DedupeFirstOrder`).
   */
  function Dedupe(xs: seq<string>): (r: seq<string>)
    ensures forall x :: x in r <==> x in xs
    ensures Distinct(r)
  {
    if xs == [] then []
    else
      var d := Dedupe(xs[..|xs| - 1]);
      var x := xs[|xs| - 1];
      assert xs == xs[..|xs| - 1] + [x];
      if x in d then d else d + [x]
  }

  /** The position of the first occurrence of `x` in `xs`. */
  function IndexOf(xs: seq<string>, x: string): (k: nat)
    requires x in xs
    ensures k < |xs| && xs[k] == x && x !in xs[..k]
  {
    if xs[0] == x then 0
    else
      assert xs == [xs[0]] + xs[1..];
      1 + IndexOf(xs[1..], x)
  }

  /** Appending a value does not move the first occurrence of one already present. */
  lemma {:induction false} IndexOfAppend(ys: seq<string>, y: string, x: string)
    requires x in ys
    ensures IndexOf(ys + [y], x) == IndexOf(ys, x)
  {
    if ys[0] != x {
      assert (ys + [y])[1..] == ys[1..] + [y];
      IndexOfAppend(ys[1..], y, x);
    }
  }

  /**
   * `Array.from(new Set(xs))` lists the values in the order of their first
   * occurrence in `xs`.
   */
  lemma {:induction false} DedupeFirstOrder(xs: seq<string>)
    ensures forall i, j :: 0 <= i < j < |Dedupe(xs)| ==>
      IndexOf(xs, Dedupe(xs)[i]) < IndexOf(xs, Dedupe(xs)[j])
  {
    if xs != [] {
      var ys := xs[..|xs| - 1];
      var x := xs[|xs| - 1];
      assert xs == ys + [x];
      var d := Dedupe(ys);
      DedupeFirstOrder(ys);
      forall e | e in d
        ensures IndexOf(xs, e) == IndexOf(ys, e)
      {
        IndexOfAppend(ys, x, e);
      }
      var r := Dedupe(xs);
      forall i, j | 0 <= i < j < |r|
        ensures IndexOf(xs, r[i]) < IndexOf(xs, r[j])
      {
        assert r[i] == d[i];
        if j < |d| {
          assert r[j] == d[j];
        } else {
          assert r[j] == x && x !in ys;
          assert IndexOf(xs, x) == |ys|;
        }
      }
    }
  }

  function Pool(tools: seq<Tool>, posts: seq<Post>): seq<string> {
    Dedupe(Candidates(Tokens(Phrases(tools, posts))))
  }

  /** The pool holds distinct keywords. */
  lemma PoolKeywords(tools: seq<Tool>, posts: seq<Post>)
    ensures forall k :: k in Pool(tools, posts) ==> Keyword(k)
    ensures Distinct(Pool(tools, posts))
  {
    CandidatesKeywords(Tokens(Phrases(tools, posts)));
  }

  /** One pass of the tools loop: the tool's phrases pushed onto `base`. */
  method PushToolPhrases(base: seq<string>, t: Tool) returns (next: seq<string>)
    ensures next == base + ToolPhrases(t)
  {
    next := base;
    if t.name != "" { next := next + [t.name]; }
    if t.description != "" { next := next + [t.description]; }
    if t.slug != "" { next := next + [HyphensToSpaces(t.slug)]; }
  }

  /** One pass of the posts loop: the post's phrases pushed onto `base`. */
  method PushPostPhrases(base: seq<string>, b: Post) returns (next: seq<string>)
    ensures next == base + PostPhrases(b)
  {
    next := base;
    ghost var title := if b.title != "" then [b.title] else [];
    ghost var excerpt := if b.excerpt != "" then [b.excerpt] else [];
    ghost var slug := if b.slug != "" then [HyphensToSpaces(b.slug)] else [];
    if b.title != "" { next := next + [b.title]; }
    assert next == base + title;
    if b.excerpt != "" { next := next + [b.excerpt]; }
    assert next == base + (title + excerpt);
    if b.slug != "" { next := next + [HyphensToSpaces(b.slug)]; }
    assert next == base + (title + excerpt + slug);
    if b.tags.Some? && |b.tags.value| > 0 { next := next + b.tags.value; }
  }

  /** The first loop of `buildKeywordPool`: the phrases of every tool, in catalogue order. */
  method CollectToolPhrases(tools: seq<Tool>) returns (base: seq<string>)
    ensures base == ToolsPhrases(tools)
  {
    base := [];
    for i := 0 to |tools|
      invariant base == ToolsPhrases(tools[..i])
    {
      ghost var done := ToolsPhrases(tools[..i]);
      base := PushToolPhrases(base, tools[i]);
      assert tools[..i + 1][..i] == tools[..i];
      assert ToolsPhrases(tools[..i + 1]) == done + ToolPhrases(tools[i]);
    }
    assert tools[..|tools|] == tools;
  }

  /** The second loop: the phrases of every post pushed after what `base` holds. */
  method CollectPostPhrases(start: seq<string>, posts: seq<Post>) returns (base: seq<string>)
    ensures base == start + PostsPhrases(posts)
  {
    base := start;
    for i := 0 to |posts|
      invariant base == start + PostsPhrases(posts[..i])
    {
      ghost var done := PostsPhrases(posts[..i]);
      base := PushPostPhrases(base, posts[i]);
      PostsPhrasesStep(posts, i);
      assert base == start + (done + PostPhrases(posts[i]));
    }
    assert posts[..|posts|] == posts;
  }

  /** `buildKeywordPool`: the two loops push the phrases, then tokens are split, cleaned and de-duplicated. */
  method BuildKeywordPool(tools: seq<Tool>, posts: seq<Post>) returns (pool: seq<string>)
    ensures pool == Pool(tools, posts)
    ensures forall k :: k in pool ==> Keyword(k)
    ensures Distinct(pool)
  {
    var base := CollectToolPhrases(tools);
    base := CollectPostPhrases(base, posts);
    pool := Dedupe(Candidates(Tokens(base)));
    PoolKeywords(tools, posts);
  }

  lemma {:induction false} TokensOf(base: seq<string>, i: nat, w: string)
    requires i < |base| && (w == Trim(base[i]) || w in Words(Trim(base[i])))
    ensures w in Tokens(base)
  {
    var c := Trim(base[0]);
    assert Tokens(base) == [c] + Words(c) + Tokens(base[1..]);
    if i > 0 {
      assert base[1..][i - 1] == base[i];
      TokensOf(base[1..], i - 1, w);
    }
  }

  /** A token is already trimmed: a trimmed phrase, or a word, which has no whitespace. */
  lemma TokenTrimmed(phrase: string, w: string)
    requires w == Trim(phrase) || w in Words(Trim(phrase))
    ensures Trim(w) == w
  {
    if w == Trim(phrase) {
      TrimIdempotent(phrase);
    } else {
      WordsAlnum(Trim(phrase));
      WordTrimmed(w);
    }
  }

  lemma WordTrimmed(w: string)
    requires w != [] && forall i :: 0 <= i < |w| ==> IsAlnum(w[i])
    ensures Trim(w) == w
  {
    var a, b := w[0], w[|w| - 1];
    assert IsAlnum(a) && IsAlnum(b);
    assert !IsSpace(a) && !IsSpace(b);
    TrimStartOfUnspaced(w);
    TrimEndOfUnspaced(w);
  }

  /** A token of `base` at least 3 long, lowercased, is in the pool built from `base`. */
  lemma TokenInPool(base: seq<string>, i: nat, w: string)
    requires i < |base| && (w == Trim(base[i]) || w in Words(Trim(base[i]))) && |w| >= 3
    ensures ToLower(w) in Dedupe(Candidates(Tokens(base)))
  {
    var tokens := Tokens(base);
    TokensOf(base, i, w);
    var j :| 0 <= j < |tokens| && tokens[j] == w;
    TokenTrimmed(base[i], w);
    TrimLower(w);
    CandidateOf(tokens, j);
  }

  /**
   * Every phrase of the catalogues, trimmed and lowercased, is a keyword when
   * it is at least 3 characters long, and so is every word in it of that
   * length.
   */
  lemma PhraseInPool(tools: seq<Tool>, posts: seq<Post>, i: nat, w: string)
    requires var base := Phrases(tools, posts);
      i < |base| && (w == Trim(base[i]) || w in Words(Trim(base[i]))) && |w| >= 3
    ensures ToLower(w) in Pool(tools, posts)
  {
    TokenInPool(Phrases(tools, posts), i, w);
  }

  // ---------------------------------------------------------------------
  // Suggestions
  // ---------------------------------------------------------------------

  /**
   * The score `(startsWith ? 2 : 0) + 1 - length * 0.0005` of a keyword that
   * contains the query, times 2000: the same order on integers.
   */
  function Score(k: string, n: string): int {
    2000 * (if StartsWith(k, n) then 3 else 1) - |k|
  }

  /** Highest score first. */
  predicate Ranked(ks: seq<string>, n: string) {
    forall i, j :: 0 <= i < j < |ks| ==> Score(ks[i], n) >= Score(ks[j], n)
  }

  /** Insertion of `x` ahead of every keyword that does not outscore it, which keeps equal scores in order. */
  function Insert(x: string, ks: seq<string>, n: string): seq<string> {
    if ks == [] || Score(ks[0], n) <= Score(x, n) then [x] + ks
    else [ks[0]] + Insert(x, ks[1..], n)
  }

  /** `.sort((a, b) => b.score - a.score)`, a stable sort. */
  function Rank(ks: seq<string>, n: string): seq<string> {
    if ks == [] then [] else Insert(ks[0], Rank(ks[1..], n), n)
  }

  /** A keyword scoring at least the head of a ranked list can go in front of it. */
  lemma PrependRanked(y: string, rest: seq<string>, n: string)
    requires Ranked(rest, n) && (rest == [] || Score(y, n) >= Score(rest[0], n))
    ensures Ranked([y] + rest, n)
  {
    var r := [y] + rest;
    forall i, j | 0 <= i < j < |r| ensures Score(r[i], n) >= Score(r[j], n) {
      assert r[j] == rest[j - 1];
      if i > 0 {
        assert r[i] == rest[i - 1];
      } else if j > 1 {
        assert Score(rest[0], n) >= Score(rest[j - 1], n);
      }
    }
  }

  /** Inserting into a ranked list keeps it ranked and adds exactly `x`. */
  lemma {:induction false} InsertSpec(x: string, ks: seq<string>, n: string)
    requires Ranked(ks, n)
    ensures var r := Insert(x, ks, n);
      Ranked(r, n)
      && |r| == |ks| + 1 && (r[0] == x || (ks != [] && r[0] == ks[0]))
      && multiset(r) == multiset(ks) + multiset{x}
  {
    if ks == [] || Score(ks[0], n) <= Score(x, n) {
      PrependRanked(x, ks, n);
    } else {
      var tail := ks[1..];
      assert Ranked(tail, n) by {
        forall i, j | 0 <= i < j < |tail| ensures Score(tail[i], n) >= Score(tail[j], n) {
          assert tail[i] == ks[i + 1] && tail[j] == ks[j + 1];
        }
      }
      InsertSpec(x, tail, n);
      var rest := Insert(x, tail, n);
      assert tail != [] ==> Score(ks[0], n) >= Score(tail[0], n);
      PrependRanked(ks[0], rest, n);
      assert ks == [ks[0]] + tail;
    }
  }

  /** Ranking orders the keywords by score and keeps each of them. */
  lemma {:induction false} RankSpec(ks: seq<string>, n: string)
    ensures Ranked(Rank(ks, n), n) && multiset(Rank(ks, n)) == multiset(ks)
  {
    if ks != [] {
      RankSpec(ks[1..], n);
      InsertSpec(ks[0], Rank(ks[1..], n), n);
      assert ks == [ks[0]] + ks[1..];
    }
  }

  /** `getSuggestions(q, limit)` over the keyword pool `keywords`. */
  function Suggestions(keywords: seq<string>, q: string, limit: nat): seq<string> {
    var n := Trim(ToLower(q));
    if |n| < 3 then []
    else
      var ranked := Rank(Filter(keywords, (k: string) => Contains(k, n)), n);
      if |ranked| <= limit then ranked else ranked[..limit]
  }

  /** The ranked list holds exactly the keywords containing the query. */
  lemma RankedMembers(keywords: seq<string>, n: string, k: string)
    ensures k in Rank(Filter(keywords, (x: string) => Contains(x, n)), n) <==> k in keywords && Contains(k, n)
  {
    var matching := Filter(keywords, (x: string) => Contains(x, n));
    var ranked := Rank(matching, n);
    RankSpec(matching, n);
    assert k in ranked <==> k in multiset(ranked);
    assert k in matching <==> k in multiset(matching);
  }

  /**
   * Suggestions need a query of at least 3 characters once lowercased and
   * trimmed; there are at most `limit` of them, each a keyword containing the
   * query, highest score first.
   */
  lemma SuggestionsSpec(keywords: seq<string>, q: string, limit: nat)
    ensures var n, r := Trim(ToLower(q)), Suggestions(keywords, q, limit);
      |r| <= limit
      && (|n| < 3 ==> r == [])
      && (forall k :: k in r ==> k in keywords && Contains(k, n))
      && Ranked(r, n)
  {
    var n := Trim(ToLower(q));
    if |n| >= 3 {
      var ranked := Rank(Filter(keywords, (x: string) => Contains(x, n)), n);
      RankSpec(Filter(keywords, (x: string) => Contains(x, n)), n);
      var r := Suggestions(keywords, q, limit);
      assert r == if |ranked| <= limit then ranked else ranked[..limit];
      forall k | k in r ensures k in keywords && Contains(k, n) {
        assert k in ranked;
        RankedMembers(keywords, n, k);
      }
    }
  }

  /**
   * The suggestions are the best-scoring matches: no matching keyword left
   * out scores above one shown, and when fewer than `limit` are shown every
   * matching keyword is.
   */
  lemma SuggestionsTop(keywords: seq<string>, q: string, limit: nat, k: string, s: string)
    requires var n := Trim(ToLower(q)); |n| >= 3 && k in keywords && Contains(k, n)
    ensures var n, r := Trim(ToLower(q)), Suggestions(keywords, q, limit);
      (|r| < limit ==> k in r)
      && (k !in r && s in r ==> Score(k, n) <= Score(s, n))
  {
    var n := Trim(ToLower(q));
    var ranked := Rank(Filter(keywords, (x: string) => Contains(x, n)), n);
    var r := Suggestions(keywords, q, limit);
    assert r == if |ranked| <= limit then ranked else ranked[..limit];
    RankedMembers(keywords, n, k);
    RankSpec(Filter(keywords, (x: string) => Contains(x, n)), n);
    var a :| 0 <= a < |ranked| && ranked[a] == k;
    if k !in r && s in r {
      var b :| 0 <= b < |r| && r[b] == s;
      assert ranked[b] == s;
      assert b < a;
    }
  }

  /**
   * With keywords shorter than 4000 characters, the scaled score puts every
   * keyword that starts with the query before every one that only contains
   * it, and the shorter one first within each group.
   */
  lemma PrefixFirst(keywords: seq<string>, q: string, limit: nat, i: nat, j: nat)
    requires forall k :: k in keywords ==> |k| < 4000
    requires var r := Suggestions(keywords, q, limit); i < j < |r|
    ensures var n, r := Trim(ToLower(q)), Suggestions(keywords, q, limit);
      (StartsWith(r[j], n) ==> StartsWith(r[i], n))
      && (StartsWith(r[i], n) == StartsWith(r[j], n) ==> |r[i]| <= |r[j]|)
  {
    SuggestionsSpec(keywords, q, limit);
    var r := Suggestions(keywords, q, limit);
    assert r[i] in r && r[j] in r;
  }

  // ---------------------------------------------------------------------
  // Inline results
  // ---------------------------------------------------------------------

  /** `filteredTools`: nothing below 3 characters, otherwise the tools containing the debounced query. */
  function InlineTools(tools: seq<Tool>, debounced: string): seq<Tool> {
    if |debounced| < 3 then [] else MatchingTools(tools, debounced)
  }

  /** `filteredBlogs`, the same rule over the posts. */
  function InlinePosts(posts: seq<Post>, debounced: string): seq<Post> {
    if |debounced| < 3 then [] else MatchingPosts(posts, debounced)
  }

  /**
   * Below 3 characters there are no inline results; otherwise a tool or
   * post is shown exactly when its lowercased text contains the debounced
   * query, in catalogue order.
   */
  lemma InlineSpec(tools: seq<Tool>, posts: seq<Post>, debounced: string, t: Tool, b: Post)
    ensures |debounced| < 3 ==> InlineTools(tools, debounced) == [] && InlinePosts(posts, debounced) == []
    ensures |debounced| >= 3 ==>
      (t in InlineTools(tools, debounced) <==> t in tools && Contains(ToolHay(t), debounced))
      && (b in InlinePosts(posts, debounced) <==> b in posts && Contains(PostHay(b), debounced))
  {
  }

  lemma InlineOrder(a: seq<Tool>, b: seq<Tool>, c: seq<Post>, d: seq<Post>, debounced: string)
    ensures InlineTools(a + b, debounced) == InlineTools(a, debounced) + InlineTools(b, debounced)
    ensures InlinePosts(c + d, debounced) == InlinePosts(c, debounced) + InlinePosts(d, debounced)
  {
    if |debounced| >= 3 {
      FilterAppend(a, b, (t: Tool) => Contains(ToolHay(t), debounced));
      FilterAppend(c, d, (p: Post) => Contains(PostHay(p), debounced));
    }
  }

  /**
   * Once the debounce has caught up, the inline tools are the tools page's
   * results for the same query: "See all N" leads to N tools.
   */
  lemma SeeAllAgrees(tools: seq<Tool>, q: string)
    requires |Norm(q)| >= 3
    ensures InlineTools(tools, Norm(q)) == ToolsPage.Filtered(tools, q)
  {
    assert q != "" by { NormBlank(q); }
  }

  // ---------------------------------------------------------------------
  // The search box
  // ---------------------------------------------------------------------

  /** `Math.min(p + 1, n - 1)`. */
  function ArrowDownIndex(p: int, n: nat): int {
    if p + 1 < n - 1 then p + 1 else n - 1
  }

  /** `Math.max(p - 1, 0)`. */
  function ArrowUpIndex(p: int): int {
    if p - 1 > 0 then p - 1 else 0
  }

  /**
   * With `n >= 1` suggestions shown, ArrowDown from any index from -1 up
   * lands in `[0, n - 1]`; ArrowUp lands at 0 or above, and inside the list
   * exactly when it started no further out than `n`.
   */
  lemma ArrowBounds(p: int, n: nat)
    requires n >= 1 && p >= -1
    ensures 0 <= ArrowDownIndex(p, n) <= n - 1
    ensures ArrowDownIndex(p, n) == p + 1 <==> p + 1 <= n - 1
    ensures ArrowUpIndex(p) >= 0
    ensures ArrowUpIndex(p) <= n - 1 <==> p <= n
  {
  }

  datatype Key = Escape | Enter | ArrowDown | ArrowUp | OtherKey

  /**
   * Whether `handleHeroSubmit` scrolls: the query it reads (`debouncedQ || q`,
   * trimmed) has at least 3 characters and the inline results are on the
   * page, which they are when the debounced query has.
   */
  function SubmitScrolls(debounced: string, q: string): bool {
    |Trim(if debounced != "" then debounced else q)| >= 3 && |debounced| >= 3
  }

  /** For a normalised debounced query the scroll depends on its length alone. */
  lemma SubmitScrollsSpec(debounced: string, q: string)
    requires Normal(debounced)
    ensures SubmitScrolls(debounced, q) <==> |debounced| >= 3
  {
    TrimStartOfUnspaced(debounced);
    TrimEndOfUnspaced(debounced);
  }

  class HeroSearch {
    const keywords: seq<string>
    var q: string
    var debounced: string
    var showSug: bool
    var activeIdx: int

    /** The debounced query is always a normalised one, and the highlight is never below -1. */
    predicate Valid()
      reads this
    {
      Normal(debounced) && activeIdx >= -1
    }

    constructor (keywords: seq<string>)
      ensures Valid()
      ensures this.keywords == keywords && q == "" && debounced == "" && !showSug && activeIdx == -1
    {
      this.keywords := keywords;
      q := "";
      debounced := "";
      showSug := false;
      activeIdx := -1;
    }

    function Shown(): seq<string>
      reads this
    {
      Suggestions(keywords, q, 8)
    }

    /** `sugVisible`. */
    predicate SugVisible()
      reads this
    {
      showSug && |q| >= 3 && |Shown()| > 0
    }

    /** Enter picks the highlighted suggestion. */
    predicate Picks()
      reads this
    {
      SugVisible() && 0 <= activeIdx < |Shown()|
    }

    /** Typing: the query changes, suggestions open, nothing is highlighted. */
    method Change(value: string)
      requires Valid()
      modifies this
      ensures Valid()
      ensures q == value && showSug && activeIdx == -1 && debounced == old(debounced)
    {
      q := value;
      showSug := true;
      activeIdx := -1;
    }

    method Focus()
      requires Valid()
      modifies this
      ensures Valid()
      ensures showSug && q == old(q) && debounced == old(debounced) && activeIdx == old(activeIdx)
    {
      showSug := true;
    }

    /** Leaving the box closes the suggestions (after a delay that is not modelled). */
    method Blur()
      requires Valid()
      modifies this
      ensures Valid()
      ensures !showSug && q == old(q) && debounced == old(debounced) && activeIdx == old(activeIdx)
    {
      showSug := false;
    }

    /** Stores a normalised query as the debounced one. */
    method SetDebounced(n: string)
      requires Valid() && Normal(n)
      modifies this
      ensures Valid()
      ensures debounced == n && q == old(q) && showSug == old(showSug) && activeIdx == old(activeIdx)
    {
      debounced := n;
    }

    /** The debounce timer fires with the normalised query. */
    method Debounce()
      requires Valid()
      modifies this
      ensures Valid()
      ensures debounced == Norm(q) && q == old(q) && showSug == old(showSug) && activeIdx == old(activeIdx)
    {
      var n := Norm(q);
      NormShape(q);
      SetDebounced(n);
    }

    /** The Clear button, which does what Escape does. */
    method Clear()
      requires Valid()
      modifies this
      ensures Valid()
      ensures q == "" && !showSug && activeIdx == -1 && debounced == old(debounced)
    {
      q := "";
      showSug := false;
      activeIdx := -1;
    }

    /** `applySuggestion`: the highlight index is left as it was. */
    method ApplySuggestion(value: string)
      requires Valid()
      modifies this
      ensures Valid()
      ensures q == value && !showSug && activeIdx == old(activeIdx) && debounced == old(debounced)
    {
      q := value;
      showSug := false;
    }

    /**
     * `handleHeroSubmit`: suggestions close and the highlight is cleared; the
     * page scrolls to the inline results when the query it reads
     * (`debouncedQ || q`, trimmed) has at least 3 characters and the results
     * section is on the page, which is when the debounced query has.
     */
    method Submit() returns (scroll: bool)
      requires Valid()
      modifies this
      ensures Valid()
      ensures !showSug && activeIdx == -1 && q == old(q) && debounced == old(debounced)
      ensures scroll <==> |debounced| >= 3
    {
      showSug := false;
      activeIdx := -1;
      scroll := SubmitScrolls(debounced, q);
      SubmitScrollsSpec(debounced, q);
    }

    /** The key handler of the search box. */
    method KeyDown(key: Key) returns (scroll: bool)
      requires Valid()
      modifies this
      ensures Valid()
      ensures debounced == old(debounced)
      ensures key == Escape ==> q == "" && !showSug && activeIdx == -1 && !scroll
      ensures key == Enter && old(Picks()) ==>
        q == old(Shown())[old(activeIdx)] && !showSug && activeIdx == old(activeIdx) && !scroll
      ensures key == Enter && !old(Picks()) ==>
        q == old(q) && !showSug && activeIdx == -1 && (scroll <==> |debounced| >= 3)
      ensures key == ArrowDown ==>
        q == old(q) && showSug == old(showSug) && !scroll
        && activeIdx == if old(SugVisible()) then ArrowDownIndex(old(activeIdx), |old(Shown())|) else old(activeIdx)
      ensures key == ArrowUp ==>
        q == old(q) && showSug == old(showSug) && !scroll
        && activeIdx == if old(SugVisible()) then ArrowUpIndex(old(activeIdx)) else old(activeIdx)
      ensures key == OtherKey ==> q == old(q) && showSug == old(showSug) && activeIdx == old(activeIdx) && !scroll
    {
      scroll := false;
      var visible := SugVisible();
      var shown := Shown();
      if key == Escape {
        q := "";
        showSug := false;
        activeIdx := -1;
        return;
      }
      if key == Enter {
        if visible && 0 <= activeIdx < |shown| {
          ApplySuggestion(shown[activeIdx]);
          return;
        }
        scroll := Submit();
      }
      if !visible {
        return;
      }
      if key == ArrowDown {
        activeIdx := ArrowDownIndex(activeIdx, |shown|);
      }
      if key == ArrowUp {
        activeIdx := ArrowUpIndex(activeIdx);
      }
    }
  }
}
