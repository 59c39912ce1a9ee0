/** The edit counter and compaction reminder of
    scripts/hooks/suggest-compact.js. The counter file's content and the
    environment are parameters; a run returns what it writes back. */
module SuggestCompact {
  import opened Nullable
  import opened JsText

  const DefaultThreshold: int := 50
  const DefaultRepeat: int := 25

  /** `parseInt(env, 10) || fallback`: never zero, since zero and NaN both
      fall back to a non-zero default. */
  function Setting(env: Option<string>, fallback: int): (v: int)
    requires fallback != 0
    ensures v != 0
    ensures !Truthy(env) ==> v == fallback
    ensures env.Some? && ParseInt(env.value) == Some(0) ==> v == fallback
    ensures env.Some? && ParseInt(env.value).None? ==> v == fallback
    ensures env.Some? && (forall i :: 0 <= i < |env.value| ==> !IsDigit(env.value[i])) ==> v == fallback
    ensures env.Some? && ParseInt(env.value).Some? && ParseInt(env.value).value != 0 ==> v == ParseInt(env.value).value
  {
    ParseIntOr(env, fallback)
  }

  function Abs(n: int): int {
    if n < 0 then -n else n
  }

  /** JavaScript's `a % b` (Number::remainder of ECMA-262, section 6.1.6.1.6):
      `a` minus a whole multiple of `b`, smaller than `b` in magnitude, and
      zero or of the same sign as the dividend. */
  function JsRem(a: int, b: int): (r: int)
    requires b != 0
    ensures exists q: int :: a - r == q * Abs(b)
    ensures Abs(r) < Abs(b)
    ensures r == 0 || (r > 0 <==> a > 0)
  {
    var m := Abs(b);
    if a >= 0 then
      var r := a % m;
      DivisionWitness(a, m);
      assert a - r == (a / m) * m;
      assert 0 <= r < m;
      r
    else
      var r := -((-a) % m);
      DivisionWitness(-a, m);
      assert a - r == (-((-a) / m)) * m;
      assert -m < r <= 0;
      r
  }

  /** The remainder is zero exactly when `b` divides `a`, whatever the signs:
      the test `shouldSuggest` makes. */
  lemma JsRemZero(a: int, b: int)
    requires b != 0
    ensures JsRem(a, b) == 0 <==> a % Abs(b) == 0
  {
    if a < 0 {
      if a % Abs(b) == 0 {
        DivisibleNegated(a, Abs(b));
      }
      if (-a) % Abs(b) == 0 {
        DivisibleNegated(-a, Abs(b));
      }
    }
  }

  /** A multiple's negation is a multiple. */
  lemma DivisibleNegated(x: int, m: int)
    requires m > 0 && x % m == 0
    ensures (-x) % m == 0
  {
    var q := x / m;
    assert x == q * m;
    MultipleHasNoRemainder(-q, m);
    assert -x == (-q) * m;
  }

  lemma MultipleHasNoRemainder(k: int, m: int)
    requires m > 0
    ensures (k * m) % m == 0
  {
    var q := (k * m) / m;
    var r := (k * m) % m;
    assert k * m == q * m + r;
    assert r == (k - q) * m;
    if k - q >= 1 {
      assert false;
    } else if k - q <= -1 {
      assert false;
    }
  }

  /** Dafny's Euclidean division of a natural dividend leaves a whole multiple. */
  lemma DivisionWitness(a: int, m: int)
    requires a >= 0 && m > 0
    ensures a - a % m == (a / m) * m
  {
  }

  /** `shouldSuggest`. */
  function ShouldSuggest(count: int, threshold: int, interval: int): (r: bool)
    requires interval != 0
    ensures r ==> count >= threshold
    ensures count == threshold ==> r
  {
    if count < threshold then false
    else if count == threshold then true
    else JsRem(count - threshold, interval) == 0
  }

  /** A reminder is due exactly at the threshold and at every multiple of
      the interval after it, whatever the interval's sign. */
  lemma Schedule(count: int, threshold: int, interval: int)
    requires interval != 0
    ensures ShouldSuggest(count, threshold, interval)
            <==> count >= threshold && (count - threshold) % Abs(interval) == 0
  {
    JsRemZero(count - threshold, interval);
  }

  /** With the default settings: at 50, 75, 100 and so on. */
  lemma DefaultSchedule(count: int)
    ensures ShouldSuggest(count, Setting(None, DefaultThreshold), Setting(None, DefaultRepeat))
            <==> count >= 50 && (count - 50) % 25 == 0
  {
    Schedule(count, 50, 25);
  }

  lemma DefaultScheduleExamples()
    ensures !ShouldSuggest(49, DefaultThreshold, DefaultRepeat)
    ensures ShouldSuggest(50, DefaultThreshold, DefaultRepeat)
    ensures !ShouldSuggest(74, DefaultThreshold, DefaultRepeat)
    ensures ShouldSuggest(75, DefaultThreshold, DefaultRepeat)
    ensures ShouldSuggest(100, DefaultThreshold, DefaultRepeat)
  {
  }

  /** `readCounter`: the file's trimmed text as an integer; a missing file
      (`None`), non-numeric text or zero read as 0. */
  function ReadCounter(content: Option<string>): (n: int)
    ensures !Truthy(content) ==> n == 0
    ensures content.Some? && (forall i :: 0 <= i < |content.value| ==> !IsDigit(content.value[i])) ==> n == 0
    ensures content.Some? && ParseInt(Trim(content.value)).None? ==> n == 0
    ensures content.Some? && ParseInt(Trim(content.value)).Some? ==> n == ParseInt(Trim(content.value)).value
  {
    match content
    case None => 0
    case Some(text) =>
      NoDigitIsNaN(text);
      NoDigitIsNaN(Trim(text));
      forall c | IsDigit(c) && c !in text
        ensures c !in Trim(text)
      {
        TrimKeepsCharacters(text, c);
      }
      ParseIntOr(Some(Trim(text)), 0)
  }

  /** `String(n)` has no white space to trim. */
  lemma IntToStringTrimmed(n: int)
    ensures Trim(IntToString(n)) == IntToString(n)
  {
    var s := IntToString(n);
    var d := if n < 0 then Decimal(-n) else Decimal(n);
    assert IsDigit(d[0]) && IsDigit(d[|d| - 1]);
    assert !IsWhitespace(d[|d| - 1]);
    assert s[|s| - 1] == d[|d| - 1];
    if n < 0 {
      assert s[0] == '-';
    } else {
      assert !IsWhitespace(d[0]);
      assert s == d;
    }
  }

  /** Reading back what `writeCounter` wrote gives the same number. */
  lemma ReadWhatWasWritten(n: int)
    ensures ReadCounter(Some(IntToString(n))) == n
  {
    IntToStringTrimmed(n);
    ParseIntToString(n);
  }

  /** One run: the count it reaches, what it writes, and whether it prints
      the reminder. */
  datatype Run = Run(count: int, written: string, suggest: bool)

  function RunHook(content: Option<string>, thresholdEnv: Option<string>, repeatEnv: Option<string>): (r: Run)
    ensures r.count == ReadCounter(content) + 1
    ensures ReadCounter(Some(r.written)) == r.count
    ensures r.suggest == ShouldSuggest(r.count, Setting(thresholdEnv, DefaultThreshold), Setting(repeatEnv, DefaultRepeat))
  {
    var count := ReadCounter(content) + 1;
    ReadWhatWasWritten(count);
    Run(count, IntToString(count),
        ShouldSuggest(count, Setting(thresholdEnv, DefaultThreshold), Setting(repeatEnv, DefaultRepeat)))
  }

  /** With neither variable set, a run reminds at the 50th edit and every
      25th after it. */
  lemma DefaultRunReminds(content: Option<string>)
    ensures var count := ReadCounter(content) + 1;
            RunHook(content, None, None).suggest <==> count >= 50 && (count - 50) % 25 == 0
  {
    DefaultSchedule(ReadCounter(content) + 1);
  }

  /** The counter file after `k` runs that start without one. */
  function FileAfter(k: nat, thresholdEnv: Option<string>, repeatEnv: Option<string>): Option<string> {
    if k == 0 then None
    else Some(RunHook(FileAfter(k - 1, thresholdEnv, repeatEnv), thresholdEnv, repeatEnv).written)
  }

  /** The `k`-th run of a session counts `k`: every run adds exactly one. */
  lemma {:induction false} RunsCount(k: nat, thresholdEnv: Option<string>, repeatEnv: Option<string>)
    ensures ReadCounter(FileAfter(k, thresholdEnv, repeatEnv)) == k
    ensures RunHook(FileAfter(k, thresholdEnv, repeatEnv), thresholdEnv, repeatEnv).count == k + 1
  {
    if k > 0 {
      RunsCount(k - 1, thresholdEnv, repeatEnv);
    }
  }
}
