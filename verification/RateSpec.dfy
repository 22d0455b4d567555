/** Rate-limit specifications, the limits in force for an endpoint, and the Redis keys of the windows. */
module RateSpec {
  import opened Wrappers
  import opened Text

  datatype SpecError = InvalidSpec

  // --- Numbers -------------------------------------------------------

  predicate IsDigit(c: char) {
    '0' <= c <= '9'
  }

  function DigitChar(d: nat): char
    requires d < 10
  {
    '0' + d as char
  }

  function DigitValue(c: char): nat
    requires IsDigit(c)
  {
    c as nat - '0' as nat
  }

  function Decimal(n: nat): (s: string)
    ensures s != ""
    ensures forall c | c in s :: IsDigit(c)
  {
    if n < 10 then [DigitChar(n)] else Decimal(n / 10) + [DigitChar(n % 10)]
  }

  function ParseInt(s: string): nat
    requires forall c | c in s :: IsDigit(c)
  {
    if s == "" then 0
    else
      assert s[|s| - 1] in s;
      10 * ParseInt(s[..|s| - 1]) + DigitValue(s[|s| - 1])
  }

  lemma {:induction false} ParseDecimal(n: nat)
    ensures ParseInt(Decimal(n)) == n
  {
    if n < 10 {
      assert Decimal(n)[..0] == "";
      assert ParseInt(Decimal(n)[..0]) == 0;
    } else {
      var s := Decimal(n);
      assert s[..|s| - 1] == Decimal(n / 10) && s[|s| - 1] == DigitChar(n % 10);
      ParseDecimal(n / 10);
    }
  }

  lemma DecimalInjective(m: nat, n: nat)
    requires Decimal(m) == Decimal(n)
    ensures m == n
  {
    ParseDecimal(m);
    ParseDecimal(n);
  }

  // --- parse_limit ---------------------------------------------------

  /** The parts before and after the first '/'; the second is empty when there is none. */
  function Partition(s: string): (string, string) {
    if s == "" then ("", "")
    else if s[0] == '/' then ("", s[1..])
    else
      var (before, after) := Partition(s[1..]);
      ([s[0]] + before, after)
  }

  function WindowSeconds(unit: string): Option<nat> {
    if unit == "sec" || unit == "s" then Some(1)
    else if unit == "min" || unit == "m" then Some(60)
    else if unit == "hour" || unit == "h" then Some(3600)
    else None
  }

  function ParseLimit(spec: string): (r: Result<(nat, nat), SpecError>)
    ensures r.Ok? ==> r.value.1 in {1, 60, 3600}
  {
    var (countText, unit) := Partition(spec);
    var window := WindowSeconds(Lower(Strip(unit, IsSpace)));
    var digits := Strip(countText, IsSpace);
    if window.None? || digits == "" || exists c :: c in digits && !IsDigit(c) then Err(InvalidSpec)
    else Ok((ParseInt(digits), window.value))
  }

  lemma {:induction false} PartitionAt(before: string, after: string)
    requires '/' !in before
    ensures Partition(before + "/" + after) == (before, after)
  {
    var s := before + "/" + after;
    if before == "" {
      assert s[1..] == after;
    } else {
      assert before[0] in before && s[0] == before[0];
      assert s[1..] == before[1..] + "/" + after;
      PartitionAt(before[1..], after);
      assert [s[0]] + before[1..] == before;
    }
  }

  lemma {:induction false} PartitionIs(s: string)
    ensures var (before, after) := Partition(s);
            '/' !in before && (if '/' in s then s == before + "/" + after else after == "")
  {
    if s != "" && s[0] != '/' {
      PartitionIs(s[1..]);
      assert '/' in s <==> '/' in s[1..];
    }
  }

  /** `<digits>/<unit>` with white space around either part. */
  ghost predicate WrittenAs(spec: string, digits: string, unit: string) {
    exists before, after ::
      Padded(before, digits, IsSpace) && Padded(after, unit, IsSpace) && spec == before + "/" + after
  }

  predicate AreDigits(s: string) {
    s != "" && AllOf(s, IsDigit)
  }

  lemma DigitsAt(s: string)
    ensures AreDigits(s) <==> s != "" && !exists c :: c in s && !IsDigit(c)
    ensures AreDigits(s) ==> !IsSpace(s[0]) && !IsSpace(s[|s| - 1]) && '/' !in s
  {
    if s != "" && AllOf(s, IsDigit) {
      assert forall c | c in s :: IsDigit(c);
    } else if s != "" {
      var i :| 0 <= i < |s| && !IsDigit(s[i]);
      assert s[i] in s;
    }
  }

  lemma UnitEnds(unit: string)
    requires WindowSeconds(Lower(unit)).Some?
    ensures unit != "" && !IsSpace(unit[0]) && !IsSpace(unit[|unit| - 1])
  {
    assert Lower(unit)[0] == LowerChar(unit[0]) && Lower(unit)[|unit| - 1] == LowerChar(unit[|unit| - 1]);
  }

  lemma PaddedDigitsHaveNoSlash(before: string, digits: string)
    requires AreDigits(digits) && Padded(before, digits, IsSpace)
    ensures '/' !in before
  {
    DigitsAt(digits);
    var a, b :| AllOf(a, IsSpace) && AllOf(b, IsSpace) && before == a + digits + b;
    assert forall c | c in a :: IsSpace(c);
    assert forall c | c in b :: IsSpace(c);
  }

  /** The units by name. */
  predicate UnitLasts(unit: string, window: nat) {
    || (unit in {"sec", "s"} && window == 1)
    || (unit in {"min", "m"} && window == 60)
    || (unit in {"hour", "h"} && window == 3600)
  }

  lemma UnitsAre(unit: string, window: nat)
    ensures WindowSeconds(unit) == Some(window) <==> UnitLasts(unit, window)
    ensures WindowSeconds(unit) == None <==> unit !in {"sec", "s", "min", "m", "hour", "h"}
  {
  }

  ghost predicate Means(spec: string, count: nat, window: nat) {
    exists digits, unit ::
      WrittenAs(spec, digits, unit) && AreDigits(digits) && NumberOf(digits) == count && UnitLasts(Lower(unit), window)
  }

  ghost function NumberOf(digits: string): nat
    requires AreDigits(digits)
  {
    DigitsAt(digits);
    ParseInt(digits)
  }

  /** Which specifications parse, and to what: a number and a unit in any letter case with a slash between,
      each with any white space around it; everything else is rejected. */
  lemma ParsesIff(spec: string, count: nat, window: nat)
    ensures ParseLimit(spec) == Ok((count, window)) <==> Means(spec, count, window)
  {
    if ParseLimit(spec) == Ok((count, window)) {
      ParsedIsWritten(spec);
    }
    if Means(spec, count, window) {
      var digits, unit :| WrittenAs(spec, digits, unit) && AreDigits(digits) && NumberOf(digits) == count
                          && UnitLasts(Lower(unit), window);
      UnitsAre(Lower(unit), window);
      WrittenParses(spec, digits, unit);
    }
  }

  lemma ParsedIsWritten(spec: string)
    requires ParseLimit(spec).Ok?
    ensures Means(spec, ParseLimit(spec).value.0, ParseLimit(spec).value.1)
  {
    hide Strip, Partition, ParseInt, Lower, WindowSeconds;
    var (before, after) := Partition(spec);
    var digits, unit := Strip(before, IsSpace), Strip(after, IsSpace);
    PartitionIs(spec);
    DigitsAt(digits);
    UnitEnds(unit);
    StripIff(before, digits, IsSpace);
    StripIff(after, unit, IsSpace);
    NothingToStrip(after);
    UnitsAre(Lower(unit), WindowSeconds(Lower(unit)).value);
    hide Padded, UnitLasts;
    assert WrittenAs(spec, digits, unit);
  }

  lemma NothingToStrip(s: string)
    ensures s == "" ==> Strip(s, IsSpace) == ""
  {
  }

  lemma WrittenParses(spec: string, digits: string, unit: string)
    requires WrittenAs(spec, digits, unit) && AreDigits(digits) && WindowSeconds(Lower(unit)).Some?
    ensures ParseLimit(spec) == Ok((NumberOf(digits), WindowSeconds(Lower(unit)).value))
  {
    hide Strip, Partition, ParseInt, Lower, WindowSeconds, Padded;
    var before, after :| Padded(before, digits, IsSpace) && Padded(after, unit, IsSpace) && spec == before + "/" + after;
    PaddedDigitsHaveNoSlash(before, digits);
    PartitionAt(before, after);
    DigitsAt(digits);
    UnitEnds(unit);
    StripIff(before, digits, IsSpace);
    StripIff(after, unit, IsSpace);
  }

  /** Formatting and parsing are inverse, for every count and every unit. */
  lemma ParseFormatted(count: nat, unit: string)
    requires WindowSeconds(unit).Some?
    ensures ParseLimit(Decimal(count) + "/" + unit) == Ok((count, WindowSeconds(unit).value))
  {
    hide Partition, Strip, Decimal, ParseInt;
    var digits := Decimal(count);
    assert digits[0] in digits && digits[|digits| - 1] in digits;
    PartitionAt(digits, unit);
    StripNothing(digits, IsSpace);
    StripNothing(unit, IsSpace);
    assert Lower(unit) == unit;
    ParseDecimal(count);
  }

  /** The six ways to write a limit. */
  lemma LimitsWritten(count: nat)
    ensures ParseLimit(Decimal(count) + "/sec") == ParseLimit(Decimal(count) + "/s") == Ok((count, 1))
    ensures ParseLimit(Decimal(count) + "/min") == ParseLimit(Decimal(count) + "/m") == Ok((count, 60))
    ensures ParseLimit(Decimal(count) + "/hour") == ParseLimit(Decimal(count) + "/h") == Ok((count, 3600))
  {
    hide ParseLimit, Decimal;
    forall unit | unit in {"sec", "s", "min", "m", "hour", "h"}
      ensures ParseLimit(Decimal(count) + ("/" + unit)) == Ok((count, WindowSeconds(unit).value))
    {
      ParseFormatted(count, unit);
      assert Decimal(count) + "/" + unit == Decimal(count) + ("/" + unit);
    }
    assert "/" + "sec" == "/sec" && "/" + "s" == "/s" && "/" + "min" == "/min" && "/" + "m" == "/m";
    assert "/" + "hour" == "/hour" && "/" + "h" == "/h";
  }

  // --- limit_for -----------------------------------------------------

  const DEFAULT_LIMITS: map<string, Option<string>> := map[
    "chat.completions" := Some("60/min"),
    "completions" := Some("60/min"),
    "embeddings" := Some("1000/min"),
    "rerank" := Some("200/min"),
    "models" := None]

  /** The tenant's own limit, else the default one; None means unlimited. */
  function LimitFor(rateLimits: map<string, string>, endpoint: string): Option<string> {
    if endpoint in rateLimits then Some(rateLimits[endpoint])
    else if endpoint in DEFAULT_LIMITS then DEFAULT_LIMITS[endpoint]
    else None
  }

  lemma SixtyPerMinute()
    ensures ParseLimit("60/min") == Ok((60, 60))
  {
    assert Decimal(6) == "6" && Decimal(60) == "60";
    hide ParseLimit, Decimal;
    ParseFormatted(60, "min");
    assert "60" + "/" + "min" == "60/min";
  }

  lemma ThousandPerMinute()
    ensures ParseLimit("1000/min") == Ok((1000, 60))
  {
    assert Decimal(1) == "1" && Decimal(10) == "10" && Decimal(100) == "100" && Decimal(1000) == "1000";
    hide ParseLimit, Decimal;
    ParseFormatted(1000, "min");
    assert "1000" + "/" + "min" == "1000/min";
  }

  lemma TwoHundredPerMinute()
    ensures ParseLimit("200/min") == Ok((200, 60))
  {
    assert Decimal(2) == "2" && Decimal(20) == "20" && Decimal(200) == "200";
    hide ParseLimit, Decimal;
    ParseFormatted(200, "min");
    assert "200" + "/" + "min" == "200/min";
  }

  /** The tenant's own limit comes first; the default counts only for endpoints it does not mention. */
  lemma TenantLimitFirst(rateLimits: map<string, string>, endpoint: string)
    ensures endpoint in rateLimits ==> LimitFor(rateLimits, endpoint) == Some(rateLimits[endpoint])
    ensures endpoint !in rateLimits ==> LimitFor(rateLimits, endpoint) == LimitFor(map[], endpoint)
  {
  }

  /** Without tenant overrides these are the limits in force: sixty a minute for completions, a thousand
      for embeddings, two hundred for reranking, none for anything else. */
  lemma DefaultLimitsParse(endpoint: string)
    ensures match LimitFor(map[], endpoint)
            case None => endpoint !in DEFAULT_LIMITS || endpoint == "models"
            case Some(spec) =>
              ParseLimit(spec) == Ok((if endpoint == "embeddings" then 1000 else if endpoint == "rerank" then 200 else 60, 60))
              && endpoint in {"chat.completions", "completions", "embeddings", "rerank"}
  {
    hide ParseLimit;
    SixtyPerMinute();
    ThousandPerMinute();
    TwoHundredPerMinute();
  }

  // --- Keys ----------------------------------------------------------

  function WindowKey(tenant: string, endpoint: string, bucket: nat): string {
    "rl:" + tenant + ":" + endpoint + ":" + Decimal(bucket)
  }

  /** A key, written out. */
  lemma KeyWritten(tenant: string)
    ensures WindowKey(tenant, "embeddings", 7) == "rl:" + tenant + ":embeddings:7"
  {
    assert Decimal(7) == "7";
    assert ":" + "embeddings" + ":" + "7" == ":embeddings:7";
    assert "rl:" + tenant + ":" + "embeddings" + ":" + "7" == "rl:" + tenant + (":" + "embeddings" + ":" + "7");
  }

  lemma SeparatorIsLast(a: string, x: string, sep: char)
    requires sep !in x
    ensures var s := a + [sep] + x; s[|a|] == sep && forall i | |a| < i < |s| :: s[i] != sep
  {
    forall i | |a| < i < |a + [sep] + x|
      ensures (a + [sep] + x)[i] != sep
    {
      assert (a + [sep] + x)[i] == x[i - |a| - 1] && x[i - |a| - 1] in x;
    }
  }

  /** What follows the last separator determines the split. */
  lemma LastSeparator(a: string, b: string, x: string, y: string, sep: char)
    requires sep !in x && sep !in y && a + [sep] + x == b + [sep] + y
    ensures a == b && x == y
  {
    var s := a + [sep] + x;
    SeparatorIsLast(a, x, sep);
    SeparatorIsLast(b, y, sep);
    assert |a| == |b|;
    assert a == s[..|a|] && b == s[..|b|];
    assert x == s[|a| + 1..] && y == s[|b| + 1..];
  }

  /** Windows of different tenants, endpoints or buckets never share a Redis key, for any tenant ids,
      as long as endpoint names have no colon. */
  lemma WindowKeyInjective(t: string, e: string, n: nat, t': string, e': string, n': nat)
    requires ':' !in e && ':' !in e' && WindowKey(t, e, n) == WindowKey(t', e', n')
    ensures t == t' && e == e' && n == n'
  {
    var p, p' := "rl:" + t + ":" + e, "rl:" + t' + ":" + e';
    assert ':' !in Decimal(n) && ':' !in Decimal(n');
    assert p + [':'] + Decimal(n) == WindowKey(t, e, n);
    assert p' + [':'] + Decimal(n') == WindowKey(t', e', n');
    LastSeparator(p, p', Decimal(n), Decimal(n'), ':');
    assert p == ("rl:" + t) + [':'] + e && p' == ("rl:" + t') + [':'] + e';
    LastSeparator("rl:" + t, "rl:" + t', e, e', ':');
    assert t == ("rl:" + t)[3..] && t' == ("rl:" + t')[3..];
    DecimalInjective(n, n');
  }
}
