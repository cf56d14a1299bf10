/** The cache key of a bucket, as text. */
module BucketKeys {
  import opened Calendar
  import opened TimeBuckets

  const PREFIX: string := "dashboard_metrics:bucket:"

  function GranularityName(g: Grain): string {
    match g case ByHour => "hourly" case ByDay => "daily" case ByMonth => "monthly"
  }

  function Digit(n: int): char
    requires 0 <= n < 10
  {
    ('0' as int + n) as char
  }

  function TwoDigits(n: int): (s: string)
    requires 0 <= n < 100
    ensures |s| == 2
  {
    [Digit(n / 10), Digit(n % 10)]
  }

  /** `strftime` prints the year in decimal, without padding. */
  function Decimal(n: nat): (s: string)
    ensures s != "" && forall i | 0 <= i < |s| :: '0' <= s[i] <= '9'
  {
    if n < 10 then [Digit(n)] else Decimal(n / 10) + [Digit(n % 10)]
  }

  function HourOf(t: nat): (h: nat)
    ensures h < 24
  {
    t % DAY / HOUR
  }

  /** Month, day and hour, behind the year. */
  function InYearText(g: Grain, b: nat): (s: string)
    ensures |s| == match g case ByHour => 14 case ByDay => 5 case ByMonth => 2
  {
    var d := DateOf(DayOf(b));
    match g
    case ByHour => TwoDigits(d.month) + "-" + TwoDigits(d.day) + "T" + TwoDigits(HourOf(b)) + ":00:00"
    case ByDay => TwoDigits(d.month) + "-" + TwoDigits(d.day)
    case ByMonth => TwoDigits(d.month)
  }

  function BucketText(g: Grain, b: nat): string {
    Decimal(DateOf(DayOf(b)).year) + "-" + InYearText(g, b)
  }

  /** No metric name and an empty one are the same to the source; both are "" here. */
  function Suffix(metric: string): string {
    if metric == "" then "" else ":" + metric
  }

  function BuildBucketKey(org: string, g: Grain, b: nat, metric: string): string {
    PREFIX + (GranularityName(g) + ":" + (org + ":" + (BucketText(g, b) + Suffix(metric))))
  }

  predicate Without(s: string, c: char) { forall i | 0 <= i < |s| :: s[i] != c }

  lemma CutAt(c: char, x: string, r: string, y: string, q: string)
    requires Without(x, c) && Without(y, c) && x + [c] + r == y + [c] + q
    ensures x == y && r == q
  {
    var s, t := x + [c] + r, y + [c] + q;
    assert s[|x|] == c && t[|y|] == c;
    assert forall i | 0 <= i < |x| :: s[i] == x[i];
    assert forall i | 0 <= i < |y| :: t[i] == y[i];
    assert |x| == |y|;
    assert s[..|x|] == x && t[..|y|] == y;
    assert s[|x| + 1..] == r && t[|y| + 1..] == q;
  }

  lemma CutPrefix(x: string, r: string, y: string, q: string)
    requires x + r == y + q && |x| == |y|
    ensures x == y && r == q
  {
    assert (x + r)[..|x|] == x && (y + q)[..|y|] == y;
    assert (x + r)[|x|..] == r && (y + q)[|y|..] == q;
  }

  lemma TwoDigitsTell(m: int, n: int)
    requires 0 <= m < 100 && 0 <= n < 100 && TwoDigits(m) == TwoDigits(n)
    ensures m == n
  {
    assert TwoDigits(m)[0] == TwoDigits(n)[0] && TwoDigits(m)[1] == TwoDigits(n)[1];
  }

  lemma {:induction false} DecimalTells(m: nat, n: nat)
    requires Decimal(m) == Decimal(n)
    ensures m == n
  {
    var s, t := Decimal(m), Decimal(n);
    assert s[|s| - 1] == t[|t| - 1];
    if m >= 10 && n >= 10 {
      CutPrefix(Decimal(m / 10), [Digit(m % 10)], Decimal(n / 10), [Digit(n % 10)]);
      DecimalTells(m / 10, n / 10);
    }
  }

  lemma FieldsTell(b: nat, c: nat)
    requires DateOf(DayOf(b)) == DateOf(DayOf(c)) && HourOf(b) == HourOf(c)
    requires IsAligned(ByHour, b) && IsAligned(ByHour, c)
    ensures b == c
  {
    OrdinalOfDate(DayOf(b));
    OrdinalOfDate(DayOf(c));
    hide DateOf;
    hide Ordinal;
    DayAndHour(b);
    DayAndHour(c);
    assert b == DayOf(b) * DAY + b % DAY && c == DayOf(c) * DAY + c % DAY;
    assert b % DAY == HourOf(b) * HOUR && c % DAY == HourOf(c) * HOUR by {
      HoursOfDay(b);
      HoursOfDay(c);
    }
  }

  lemma HoursOfDay(b: nat)
    requires b % HOUR == 0
    ensures b % DAY == HourOf(b) * HOUR
  {
    assert b == HOUR * (b / HOUR);
    assert b % DAY == b - DAY * (b / DAY) == HOUR * (b / HOUR - 24 * (b / DAY));
  }

  lemma Midnight(g: Grain, b: nat)
    requires IsAligned(g, b)
    ensures IsAligned(ByHour, b)
    ensures !g.ByHour? ==> HourOf(b) == 0
    ensures g.ByMonth? ==> DateOf(DayOf(b)).day == 1
  {
    DayAndHour(b);
    if g.ByMonth? {
      MonthStart(b);
    }
    hide DateOf;
    assert !g.ByHour? ==> b % DAY == 0;
    assert b % DAY == 0 ==> b == 24 * HOUR * (b / DAY);
  }

  /** The year is read off up to the first dash, and whatever follows the bucket is left over. */
  lemma YearTells(g: Grain, b: nat, r: string, c: nat, q: string)
    requires BucketText(g, b) + r == BucketText(g, c) + q
    ensures DateOf(DayOf(b)).year == DateOf(DayOf(c)).year && InYearText(g, b) == InYearText(g, c) && r == q
  {
    hide DateOf;
    hide Decimal;
    hide InYearText;
    var y, z := DateOf(DayOf(b)).year, DateOf(DayOf(c)).year;
    assert BucketText(g, b) + r == Decimal(y) + ['-'] + (InYearText(g, b) + r);
    assert BucketText(g, c) + q == Decimal(z) + ['-'] + (InYearText(g, c) + q);
    CutAt('-', Decimal(y), InYearText(g, b) + r, Decimal(z), InYearText(g, c) + q);
    CutPrefix(InYearText(g, b), r, InYearText(g, c), q);
    DecimalTells(y, z);
  }

  lemma InYearTells(g: Grain, b: nat, c: nat)
    requires InYearText(g, b) == InYearText(g, c)
    ensures
      var d, e := DateOf(DayOf(b)), DateOf(DayOf(c));
      d.month == e.month && (!g.ByMonth? ==> d.day == e.day) && (g.ByHour? ==> HourOf(b) == HourOf(c))
  {
    hide DateOf;
    hide HourOf;
    hide TwoDigits;
    var d, e := DateOf(DayOf(b)), DateOf(DayOf(c));
    match g
    case ByMonth => TwoDigitsTell(d.month, e.month);
    case ByDay =>
      CutPrefix(TwoDigits(d.month) + "-", TwoDigits(d.day), TwoDigits(e.month) + "-", TwoDigits(e.day));
      CutPrefix(TwoDigits(d.month), "-", TwoDigits(e.month), "-");
      TwoDigitsTell(d.month, e.month);
      TwoDigitsTell(d.day, e.day);
    case ByHour => HourTextTells(d, HourOf(b), e, HourOf(c));
  }

  lemma HourTextTells(d: Date, h: nat, e: Date, i: nat)
    requires IsDate(d) && IsDate(e) && h < 24 && i < 24
    requires TwoDigits(d.month) + "-" + TwoDigits(d.day) + "T" + TwoDigits(h) + ":00:00"
          == TwoDigits(e.month) + "-" + TwoDigits(e.day) + "T" + TwoDigits(i) + ":00:00"
    ensures d.month == e.month && d.day == e.day && h == i
  {
    hide TwoDigits;
    var p, q := TwoDigits(d.month) + "-" + TwoDigits(d.day), TwoDigits(e.month) + "-" + TwoDigits(e.day);
    CutPrefix(p + "T" + TwoDigits(h), ":00:00", q + "T" + TwoDigits(i), ":00:00");
    CutPrefix(p + "T", TwoDigits(h), q + "T", TwoDigits(i));
    CutPrefix(p, "T", q, "T");
    CutPrefix(TwoDigits(d.month) + "-", TwoDigits(d.day), TwoDigits(e.month) + "-", TwoDigits(e.day));
    CutPrefix(TwoDigits(d.month), "-", TwoDigits(e.month), "-");
    TwoDigitsTell(d.month, e.month);
    TwoDigitsTell(d.day, e.day);
    TwoDigitsTell(h, i);
  }

  lemma BucketTellsItself(g: Grain, b: nat, r: string, c: nat, q: string)
    requires IsAligned(g, b) && IsAligned(g, c) && BucketText(g, b) + r == BucketText(g, c) + q
    ensures b == c && r == q
  {
    YearTells(g, b, r, c, q);
    InYearTells(g, b, c);
    Midnight(g, b);
    Midnight(g, c);
    hide DateOf;
    FieldsTell(b, c);
  }

  /** No two of granularity, organization, bucket and metric share a key. */
  lemma KeysAreInjective(o: string, g: Grain, b: nat, m: string, p: string, h: Grain, c: nat, n: string)
    requires Without(o, ':') && Without(p, ':') && IsAligned(g, b) && IsAligned(h, c)
    requires BuildBucketKey(o, g, b, m) == BuildBucketKey(p, h, c, n)
    ensures o == p && g == h && b == c && m == n
  {
    hide BucketText;
    hide IsAligned;
    var s, t := BucketText(g, b) + Suffix(m), BucketText(h, c) + Suffix(n);
    CutPrefix(PREFIX, GranularityName(g) + ":" + (o + ":" + s), PREFIX, GranularityName(h) + ":" + (p + ":" + t));
    CutAt(':', GranularityName(g), o + ":" + s, GranularityName(h), p + ":" + t);
    NamesTell(g, h);
    CutAt(':', o, s, p, t);
    BucketTellsItself(g, b, Suffix(m), c, Suffix(n));
    SuffixTells(m, n);
  }

  lemma NamesTell(g: Grain, h: Grain)
    requires GranularityName(g) == GranularityName(h)
    ensures g == h
  {
    assert GranularityName(g)[0] == GranularityName(h)[0];
  }

  lemma SuffixTells(m: string, n: string)
    requires Suffix(m) == Suffix(n)
    ensures m == n
  {
    if m != "" && n != "" {
      CutPrefix(":", m, ":", n);
    }
  }

  /** A key is the prefix, the granularity, the organization, the bucket and the metric, if one is asked
      for, between colons. */
  lemma KeyIs(org: string, g: Grain, b: nat, metric: string)
    ensures BuildBucketKey(org, g, b, metric) ==
            "dashboard_metrics:bucket:"
            + (match g case ByHour => "hourly" case ByDay => "daily" case ByMonth => "monthly")
            + ":" + org + ":" + BucketText(g, b) + (if metric == "" then "" else ":" + metric)
  {
    hide BucketText;
    var name := GranularityName(g);
    Flatten(PREFIX, name, org, BucketText(g, b), Suffix(metric));
  }

  lemma Flatten(p: string, name: string, org: string, text: string, suffix: string)
    ensures p + (name + ":" + (org + ":" + (text + suffix))) == p + name + ":" + org + ":" + text + suffix
  {
  }

  /** The texts of the hour from ten on 5 March 2024, of that day and of that month. */
  lemma KnownTexts(b: nat)
    requires DateOf(b / 86_400_000_000) == Date(2024, 3, 5) && b % 86_400_000_000 / 3_600_000_000 == 10
    ensures BucketText(ByHour, b) == "2024" + "-" + "03" + "-" + "05" + "T" + "10" + ":00:00"
    ensures BucketText(ByDay, b) == "2024" + "-" + "03" + "-" + "05"
    ensures BucketText(ByMonth, b) == "2024" + "-" + "03"
  {
    hide DateOf;
    assert HourOf(b) == 10;
    hide HourOf;
    KnownNumbers();
    hide Decimal;
    hide TwoDigits;
    hide Digit;
    FlattenText("2024", "03", "05", "10");
  }

  lemma KnownNumbers()
    ensures Decimal(2024) == "2024" && TwoDigits(3) == "03" && TwoDigits(5) == "05" && TwoDigits(10) == "10"
  {
    assert Decimal(2) == "2";
    assert Decimal(20) == Decimal(2) + "0";
    assert Decimal(202) == Decimal(20) + "2";
    assert Decimal(2024) == Decimal(202) + "4";
  }

  lemma FlattenText(y: string, m: string, d: string, h: string)
    ensures y + "-" + (m + "-" + d + "T" + h + ":00:00") == y + "-" + m + "-" + d + "T" + h + ":00:00"
    ensures y + "-" + (m + "-" + d) == y + "-" + m + "-" + d
  {
  }
}
