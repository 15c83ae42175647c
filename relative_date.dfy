/**
 * `getRelativeLabel`: how long ago a date was, as "Just now" or
 * "<n> <unit>(s) ago", by repeated floor division of the elapsed seconds.
 * The clock and the date parser are parameters: the current time and the
 * parsed time in milliseconds, the latter absent when the date string does
 * not parse (JavaScript's `NaN`).
 */
module RelativeDate {
  import opened Text
  import opened Wrappers

  datatype Unit = Minute | Hour | Day | Month | Year

  /** The age a label shows. `Unknown` is the unparsable date, for which every comparison with `NaN` fails. */
  datatype Age = JustNow | Ago(count: nat, unit: Unit) | Unknown

  /** Seconds in each unit: a month is 30 days and a year 12 such months. */
  function UnitSeconds(u: Unit): nat {
    match u
    case Minute => 60
    case Hour => 3600
    case Day => 86400
    case Month => 2592000
    case Year => 31104000
  }

  /** The bucketing by floor division, on whole seconds elapsed. */
  function Classify(diff: int): Age {
    if diff < 60 then JustNow
    else
      var mins := diff / 60;
      if mins < 60 then Ago(mins, Minute)
      else
        var hours := mins / 60;
        if hours < 24 then Ago(hours, Hour)
        else
          var days := hours / 24;
          if days < 30 then Ago(days, Day)
          else
            var months := days / 30;
            if months < 12 then Ago(months, Month)
            else Ago(months / 12, Year)
  }

  /** `Math.floor((now - then) / 1000)`: Dafny's `/` floors for a positive divisor. */
  function AgeOf(nowMs: int, thenMs: Option<int>): Age {
    if thenMs.None? then Unknown else Classify((nowMs - thenMs.value) / 1000)
  }

  function UnitName(u: Unit): string {
    match u
    case Minute => "minute"
    case Hour => "hour"
    case Day => "day"
    case Month => "month"
    case Year => "year"
  }

  /** The label; an unparsable date falls through every test to the years branch with `NaN`. */
  function Render(a: Age): string {
    match a
    case JustNow => "Just now"
    case Unknown => "NaN years ago"
    case Ago(n, u) => Decimal(n) + " " + AgoWords(n, u)
  }

  /** What follows the count: the unit, plural unless the count is 1, and "ago". */
  function AgoWords(n: nat, u: Unit): string {
    UnitName(u) + (if n == 1 then "" else "s") + " ago"
  }

  function RelativeLabel(nowMs: int, thenMs: Option<int>): string {
    Render(AgeOf(nowMs, thenMs))
  }

  /**
   * Under a minute, including any time in the future, is "Just now";
   * otherwise the unit is the largest one that fits, the count is the
   * elapsed seconds divided by that unit's length and rounded down, and it
   * is at least 1 and below the next unit's size.
   */
  lemma ClassifySpec(diff: int)
    ensures Classify(diff) == JustNow <==> diff < 60
    ensures Classify(diff) != Unknown
    ensures Classify(diff).Ago? ==>
      var n, u := Classify(diff).count, Classify(diff).unit;
      n >= 1 && n == diff / UnitSeconds(u) && diff >= UnitSeconds(u)
    ensures Classify(diff).Ago? ==>
      var u := Classify(diff).unit;
      (u == Minute <==> diff < 3600) && (u == Hour <==> 3600 <= diff < 86400)
      && (u == Day <==> 86400 <= diff < 2592000) && (u == Month <==> 2592000 <= diff < 31104000)
      && (u == Year <==> diff >= 31104000)
    ensures Classify(diff).Ago? && Classify(diff).unit != Year ==>
      var n, u := Classify(diff).count, Classify(diff).unit;
      n < (match u case Minute => 60 case Hour => 24 case Day => 30 case Month => 12 case Year => 0)
  {
    if diff >= 60 {
      var mins := diff / 60;
      var hours := mins / 60;
      var days := hours / 24;
      var months := days / 30;
      NestedFloor(diff);
    }
  }

  /** Dividing twice, rounding down each time, is dividing once by the product. */
  lemma NestedFloor(x: int)
    requires x >= 0
    ensures (x / 60) / 60 == x / 3600
    ensures (x / 3600) / 24 == x / 86400
    ensures (x / 86400) / 30 == x / 2592000
    ensures (x / 2592000) / 12 == x / 31104000
  {
  }

  /** A label with a count is the count, a space, and the words after it. */
  lemma SplitLabel(d: string, w: string)
    ensures var t := d + " " + w; |t| > |d| && t[..|d|] == d && t[|d|] == ' ' && t[|d| + 1..] == w
  {
    var t := d + " " + w;
    assert t[..|d|] == d;
    assert t[|d| + 1..] == w;
  }

  /** The words start with the plural unit exactly when the count is not 1. */
  lemma AgoWordsPlural(n: nat, u: Unit)
    ensures StartsWith(AgoWords(n, u), UnitName(u) + "s") <==> n != 1
  {
    var word, w := AgoWords(n, u), UnitName(u) + "s";
    if n == 1 {
      assert word[|w| - 1] == ' ';
    } else {
      assert word[..|w|] == w;
    }
  }

  /** The unit word is singular exactly when the count is 1, and the count is the number shown. */
  lemma RenderAgo(n: nat, u: Unit)
    ensures var text := Render(Ago(n, u));
      var d := Decimal(n);
      text[..|d|] == d && DigitsValue(d) == n && text[|d|] == ' '
      && (StartsWith(text[|d| + 1..], UnitName(u) + "s") <==> n != 1)
  {
    SplitLabel(Decimal(n), AgoWords(n, u));
    DecimalRoundTrip(n);
    AgoWordsPlural(n, u);
  }

  /** Different ages give different labels: the label determines the age. */
  lemma RenderInjective(a: Age, b: Age)
    requires Render(a) == Render(b)
    ensures a == b
  {
    if a.Ago? && b.Ago? {
      AgoInjective(a, b);
    } else if a.Ago? {
      LabelHead(a);
    } else if b.Ago? {
      LabelHead(b);
    } else {
      var j, nn := "Just now", "NaN years ago";
      assert j[1] != nn[1];
    }
  }

  lemma AgoInjective(a: Age, b: Age)
    requires a.Ago? && b.Ago? && Render(a) == Render(b)
    ensures a == b
  {
    var da, db := Decimal(a.count), Decimal(b.count);
    var s := Render(a);
    SplitLabel(da, AgoWords(a.count, a.unit));
    SplitLabel(db, AgoWords(b.count, b.unit));
    DecimalRoundTrip(a.count);
    DecimalRoundTrip(b.count);
    DigitPrefix(s, da, db);
    assert a.count == b.count;
    UnitWordDistinct(a.unit, b.unit, if a.count == 1 then "" else "s");
  }

  /** A label with a count starts with a digit. */
  lemma LabelHead(a: Age)
    requires a.Ago?
    ensures IsDigit(Render(a)[0])
  {
    var d := Decimal(a.count);
    assert Render(a)[0] == d[0];
  }

  /** Two digit runs that are each followed by a space in the same string are the same run. */
  lemma DigitPrefix(s: string, da: string, db: string)
    requires AllDigits(da) && AllDigits(db)
    requires |da| < |s| && s[..|da|] == da && s[|da|] == ' '
    requires |db| < |s| && s[..|db|] == db && s[|db|] == ' '
    ensures da == db
  {
    assert forall k :: 0 <= k < |da| ==> s[k] == da[k] && IsDigit(s[k]);
    assert forall k :: 0 <= k < |db| ==> s[k] == db[k] && IsDigit(s[k]);
    assert |da| == |db|;
  }

  /** The unit words stay apart whatever the plural ending. */
  lemma UnitWordDistinct(u: Unit, v: Unit, plural: string)
    requires UnitName(u) + plural + " ago" == UnitName(v) + plural + " ago"
    ensures u == v
  {
    var su, sv := UnitName(u) + plural + " ago", UnitName(v) + plural + " ago";
    assert su[0] == UnitName(u)[0] && su[1] == UnitName(u)[1];
    assert sv[0] == UnitName(v)[0] && sv[1] == UnitName(v)[1];
  }

  /** A date string that does not parse is always labelled "NaN years ago". */
  lemma UnparsableDate(nowMs: int)
    ensures RelativeLabel(nowMs, None) == "NaN years ago"
    ensures forall thenMs :: RelativeLabel(nowMs, Some(thenMs)) != "NaN years ago"
  {
    forall thenMs ensures RelativeLabel(nowMs, Some(thenMs)) != "NaN years ago" {
      var a := AgeOf(nowMs, Some(thenMs));
      ClassifySpec((nowMs - thenMs) / 1000);
      if Render(a) == "NaN years ago" {
        RenderInjective(a, Unknown);
      }
    }
  }

  /** Examples at the bucket edges. */
  lemma Examples()
    ensures Classify(59) == JustNow && Classify(-5) == JustNow
    ensures Classify(60) == Ago(1, Minute) && Classify(3599) == Ago(59, Minute)
    ensures Classify(7200) == Ago(2, Hour)
    ensures Classify(86400 * 359) == Ago(11, Month) && Classify(86400 * 360) == Ago(1, Year)
  {
  }

  /** Example labels. */
  lemma LabelExamples()
    ensures Render(Ago(1, Minute)) == "1 minute ago" && Render(Ago(2, Hour)) == "2 hours ago"
  {
  }
}
