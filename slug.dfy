/**
 * URL slugs: lowercase, trim, turn every run of characters outside
 * `[a-z0-9]` into one `-`, and drop a hyphen left at either end.
 */
module Slug {
  import opened Text
  import opened Wrappers

  /** Characters a slug is made of. */
  predicate SlugChar(c: char) { IsLowerAlnum(c) || c == '-' }

  /** No two hyphens in a row. */
  predicate NoDoubleHyphen(t: string) {
    forall i :: 0 <= i < |t| - 1 ==> !(t[i] == '-' && t[i + 1] == '-')
  }

  /** The shape every slug has: its alphabet, single hyphens, and none at either end. */
  predicate IsSlug(t: string) {
    (forall i :: 0 <= i < |t| ==> SlugChar(t[i]))
    && NoDoubleHyphen(t)
    && (t == [] || (t[0] != '-' && t[|t| - 1] != '-'))
  }

  /** The `[a-z0-9]` characters of `s`, in order. */
  function Alnums(s: string): string {
    if s == [] then [] else (if IsLowerAlnum(s[0]) then [s[0]] else []) + Alnums(s[1..])
  }

  /** `s` with its leading run of characters outside `[a-z0-9]` removed. */
  function SkipRun(s: string): (r: string)
    ensures |r| <= |s| && r == s[|s| - |r|..]
    ensures r == [] || IsLowerAlnum(r[0])
  {
    if s == [] || IsLowerAlnum(s[0]) then s else SkipRun(s[1..])
  }

  /** The run `SkipRun` drops holds no letter or digit. */
  lemma {:induction false} SkipRunAlnums(s: string)
    ensures Alnums(SkipRun(s)) == Alnums(s)
  {
    if s != [] && !IsLowerAlnum(s[0]) {
      SkipRunAlnums(s[1..]);
    }
  }

  /** `.replace(/[^a-z0-9]+/g, "-")`. */
  function Collapse(s: string): string
    decreases |s|
  {
    if s == [] then []
    else if IsLowerAlnum(s[0]) then [s[0]] + Collapse(s[1..])
    else "-" + Collapse(SkipRun(s[1..]))
  }

  /** `.replace(/(^-|-$)+/g, "")`: a hyphen at the start and one at the end are removed. */
  function StripHyphens(t: string): string {
    DropLast(DropFirst(t))
  }

  /** The `^-` half: a leading hyphen removed. */
  function DropFirst(t: string): string {
    if |t| > 0 && t[0] == '-' then t[1..] else t
  }

  /** The `-$` half: a trailing hyphen removed. */
  function DropLast(a: string): string {
    if |a| > 0 && a[|a| - 1] == '-' then a[..|a| - 1] else a
  }

  /**
   * `toSlug` on a string. Lowercasing is modelled on ASCII letters; the
   * Unicode normalisation step is left out.
   */
  function Slugify(s: string): string {
    StripHyphens(Collapse(Trim(ToLower(s))))
  }

  /** `toSlug(s)`, an absent argument read as `""`. */
  function ToSlug(s: Option<string>): string {
    Slugify(s.GetOr(""))
  }

  /** `sameSlug(a, b)`. */
  predicate SameSlug(a: Option<string>, b: Option<string>) {
    ToSlug(a) == ToSlug(b)
  }

  lemma {:induction false} AlnumsConcat(a: string, b: string)
    ensures Alnums(a + b) == Alnums(a) + Alnums(b)
  {
    if a == [] {
      assert a + b == b;
    } else {
      var head := if IsLowerAlnum(a[0]) then [a[0]] else [];
      assert (a + b)[0] == a[0];
      assert (a + b)[1..] == a[1..] + b;
      assert Alnums(a + b) == head + Alnums(a[1..] + b);
      AlnumsConcat(a[1..], b);
      assert Alnums(a) == head + Alnums(a[1..]);
    }
  }

  lemma {:induction false} AlnumsOfNone(s: string)
    requires forall i :: 0 <= i < |s| ==> !IsLowerAlnum(s[i])
    ensures Alnums(s) == []
  {
    if s != [] {
      AlnumsOfNone(s[1..]);
    }
  }

  /** Slug characters without a double hyphen: what `Collapse` produces. */
  predicate Collapsed(t: string) {
    (forall i :: 0 <= i < |t| ==> SlugChar(t[i])) && NoDoubleHyphen(t)
  }

  /** One slug character in front of a collapsed string, not a second hyphen. */
  lemma PrependCollapsed(c: char, r: string)
    requires SlugChar(c) && Collapsed(r)
    requires c == '-' ==> r == [] || r[0] != '-'
    ensures Collapsed([c] + r)
  {
    var t := [c] + r;
    forall i | 0 <= i < |t| ensures SlugChar(t[i]) {
      if i > 0 { assert t[i] == r[i - 1]; }
    }
    forall i | 0 <= i < |t| - 1 ensures !(t[i] == '-' && t[i + 1] == '-') {
      if i > 0 { assert t[i] == r[i - 1] && t[i + 1] == r[i]; }
    }
  }

  /**
   * `Collapse` gives slug characters without a double hyphen, is empty only
   * for empty input, and starts with a hyphen exactly when the input starts
   * outside `[a-z0-9]`.
   */
  lemma {:induction false} CollapseShape(s: string)
    ensures Collapsed(Collapse(s))
    ensures Collapse(s) == [] <==> s == []
    ensures s != [] ==> (Collapse(s)[0] == '-' <==> !IsLowerAlnum(s[0]))
    decreases |s|
  {
    if s == [] {
    } else if IsLowerAlnum(s[0]) {
      CollapseShape(s[1..]);
      PrependCollapsed(s[0], Collapse(s[1..]));
      assert Collapse(s) == [s[0]] + Collapse(s[1..]);
    } else {
      var rest := SkipRun(s[1..]);
      CollapseShape(rest);
      PrependCollapsed('-', Collapse(rest));
      assert Collapse(s) == "-" + Collapse(rest);
    }
  }

  /** `Collapse` keeps every letter and digit, in order, and adds none. */
  lemma {:induction false} CollapseAlnums(s: string)
    ensures Alnums(Collapse(s)) == Alnums(s)
    decreases |s|
  {
    if s == [] {
    } else if IsLowerAlnum(s[0]) {
      CollapseAlnums(s[1..]);
      AlnumsConcat([s[0]], Collapse(s[1..]));
      assert Collapse(s) == [s[0]] + Collapse(s[1..]);
    } else {
      var rest := SkipRun(s[1..]);
      CollapseAlnums(rest);
      SkipRunAlnums(s[1..]);
      AlnumsConcat("-", Collapse(rest));
      assert Collapse(s) == "-" + Collapse(rest);
    }
  }

  lemma CollapsedSlice(t: string, lo: nat, hi: nat)
    requires Collapsed(t) && lo <= hi <= |t|
    ensures Collapsed(t[lo..hi])
  {
    var u := t[lo..hi];
    forall i | 0 <= i < |u| ensures SlugChar(u[i]) { assert u[i] == t[lo + i]; }
    forall i | 0 <= i < |u| - 1 ensures !(u[i] == '-' && u[i + 1] == '-') {
      assert u[i] == t[lo + i] && u[i + 1] == t[lo + i + 1];
    }
  }

  lemma DropFirstSpec(t: string)
    requires Collapsed(t)
    ensures Collapsed(DropFirst(t)) && Alnums(DropFirst(t)) == Alnums(t)
    ensures DropFirst(t) == [] || DropFirst(t)[0] != '-'
  {
    if |t| > 0 && t[0] == '-' {
      CollapsedSlice(t, 1, |t|);
      assert |t| > 1 ==> DropFirst(t)[0] == t[1];
    }
  }

  lemma DropLastSpec(a: string)
    requires Collapsed(a) && (a == [] || a[0] != '-')
    ensures IsSlug(DropLast(a)) && Alnums(DropLast(a)) == Alnums(a)
  {
    if |a| > 0 && a[|a| - 1] == '-' {
      var r := a[..|a| - 1];
      CollapsedSlice(a, 0, |a| - 1);
      assert r == [] || (r[0] == a[0] && r[|r| - 1] == a[|a| - 2]);
      assert a == r + [a[|a| - 1]];
      AlnumsConcat(r, [a[|a| - 1]]);
    }
  }

  lemma StripHyphensSlug(t: string)
    requires Collapsed(t)
    ensures IsSlug(StripHyphens(t))
    ensures Alnums(StripHyphens(t)) == Alnums(t)
  {
    DropFirstSpec(t);
    DropLastSpec(DropFirst(t));
  }

  /** Whitespace carries no letters or digits. */
  lemma SpacesAlnums(sp: string)
    requires forall i :: 0 <= i < |sp| ==> IsSpace(sp[i])
    ensures Alnums(sp) == []
  {
    AlnumsOfNone(sp);
  }

  lemma TrimStartAlnums(s: string)
    ensures Alnums(TrimStart(s)) == Alnums(s)
  {
    var a := TrimStart(s);
    TrimStartSuffix(s);
    var lead := s[..|s| - |a|];
    assert s == lead + a;
    AlnumsConcat(lead, a);
    SpacesAlnums(lead);
  }

  lemma TrimEndAlnums(s: string)
    ensures Alnums(TrimEnd(s)) == Alnums(s)
  {
    var b := TrimEnd(s);
    TrimEndPrefix(s);
    var trail := s[|b|..];
    assert s == b + trail;
    AlnumsConcat(b, trail);
    SpacesAlnums(trail);
  }

  lemma TrimAlnums(s: string)
    ensures Alnums(Trim(s)) == Alnums(s)
  {
    TrimStartAlnums(s);
    TrimEndAlnums(TrimStart(s));
  }

  /**
   * Every slug has the slug shape: only `a-z`, `0-9` and `-`, never two
   * hyphens in a row, and no hyphen at either end. It keeps exactly the
   * (lowercased) letters and digits of the input, in order, so it is empty
   * exactly when the input has none.
   */
  lemma SlugifySpec(s: string)
    ensures IsSlug(Slugify(s))
    ensures Alnums(Slugify(s)) == Alnums(ToLower(s))
    ensures Slugify(s) == "" <==> Alnums(ToLower(s)) == ""
  {
    var c := Collapse(Trim(ToLower(s)));
    CollapseShape(Trim(ToLower(s)));
    CollapseAlnums(Trim(ToLower(s)));
    StripHyphensSlug(c);
    TrimAlnums(ToLower(s));
    var r := Slugify(s);
    if r != [] {
      assert Alnums(r) == [r[0]] + Alnums(r[1..]);
    }
  }

  /** `Collapse` leaves alone a string already made of single hyphens between slug characters. */
  lemma {:induction false} CollapseSettled(u: string)
    requires Collapsed(u)
    requires u == [] || u[|u| - 1] != '-'
    ensures Collapse(u) == u
  {
    if u != [] {
      var rest := u[1..];
      CollapsedSlice(u, 1, |u|);
      assert rest == [] || rest[|rest| - 1] == u[|u| - 1];
      CollapseSettled(rest);
      if u[0] == '-' {
        assert rest[0] == u[1] && IsLowerAlnum(rest[0]);
        assert SkipRun(rest) == rest;
        assert !IsLowerAlnum(u[0]);
        assert Collapse(u) == "-" + Collapse(SkipRun(u[1..]));
      } else {
        assert Collapse(u) == [u[0]] + Collapse(rest);
      }
      assert u == [u[0]] + rest;
    }
  }

  /** A slug is its own slug. */
  lemma SlugFixpoint(t: string)
    requires IsSlug(t)
    ensures Slugify(t) == t
  {
    assert IsLowerCase(t) by {
      forall i | 0 <= i < |t| ensures !IsUpper(t[i]) { assert SlugChar(t[i]); }
    }
    ToLowerIsLower(t);
    assert Trim(t) == t by {
      TrimStartOfUnspaced(t);
      TrimEndOfUnspaced(t);
    }
    CollapseSettled(t);
    assert StripHyphens(t) == t;
  }

  /** `toSlug` is idempotent. */
  lemma SlugifyIdempotent(s: string)
    ensures Slugify(Slugify(s)) == Slugify(s)
  {
    SlugifySpec(s);
    SlugFixpoint(Slugify(s));
  }

  lemma EmptySlug()
    ensures Slugify("") == ""
  {
    assert ToLower("") == "" && Trim("") == "" && Collapse("") == "";
  }

  /**
   * An absent argument is compared as `""`: it is the same slug exactly as
   * the strings with no letters or digits.
   */
  lemma SameSlugAbsent(b: string)
    ensures SameSlug(None, Some(b)) <==> Alnums(ToLower(b)) == ""
  {
    EmptySlug();
    SlugifySpec(b);
    assert ToSlug(None) == "" && ToSlug(Some(b)) == Slugify(b);
  }

  /** A string is the same slug as its own slug. */
  lemma SameAsOwnSlug(x: string)
    ensures SameSlug(Some(x), Some(Slugify(x)))
  {
    SlugifyIdempotent(x);
    assert ToSlug(Some(Slugify(x))) == Slugify(x);
  }
}
