/**
 * Calendar date-times at second resolution, the two renderings the code uses
 * (`strftime("%d.%m.%Y %H:%M")` and `isoformat()`), and the two parsers:
 * `datetime.strptime` on the four formats the bot accepts for a due date, and
 * the subset of `datetime.fromisoformat` that the backend's timestamps use.
 */
module DateTimes {
  import opened Common
  import opened Text

  datatype DateTime = DateTime(year: int, month: int, day: int, hour: int, minute: int, second: int)

  predicate IsLeapYear(y: int) {
    y % 4 == 0 && (y % 100 != 0 || y % 400 == 0)
  }

  function DaysInMonth(y: int, m: int): (n: int)
    requires 1 <= m <= 12
    ensures 28 <= n <= 31
  {
    if m == 2 then (if IsLeapYear(y) then 29 else 28)
    else if m == 4 || m == 6 || m == 9 || m == 11 then 30
    else 31
  }

  /** What Python's `datetime` constructor accepts (microseconds aside). */
  predicate Valid(dt: DateTime) {
    && 1 <= dt.year <= 9999
    && 1 <= dt.month <= 12
    && 1 <= dt.day <= DaysInMonth(dt.year, dt.month)
    && 0 <= dt.hour <= 23
    && 0 <= dt.minute <= 59
    && 0 <= dt.second <= 59
  }

  /** Chronological order: the lexicographic order of the components. */
  predicate Before(a: DateTime, b: DateTime) {
    || a.year < b.year
    || (a.year == b.year && a.month < b.month)
    || (a.year == b.year && a.month == b.month && a.day < b.day)
    || (a.year == b.year && a.month == b.month && a.day == b.day && a.hour < b.hour)
    || (a.year == b.year && a.month == b.month && a.day == b.day && a.hour == b.hour && a.minute < b.minute)
    || (a.year == b.year && a.month == b.month && a.day == b.day && a.hour == b.hour && a.minute == b.minute
        && a.second < b.second)
  }

  /** `a <= b` on datetimes. */
  predicate NotAfter(a: DateTime, b: DateTime) {
    !Before(b, a)
  }

  lemma BeforeIrreflexive(a: DateTime)
    ensures !Before(a, a)
  {
  }

  lemma BeforeTransitive(a: DateTime, b: DateTime, c: DateTime)
    requires Before(a, b) && Before(b, c)
    ensures Before(a, c)
  {
  }

  /** Any two distinct datetimes are ordered one way or the other. */
  lemma BeforeTotal(a: DateTime, b: DateTime)
    ensures a == b || Before(a, b) || Before(b, a)
  {
  }

  // ---------------------------------------------------------------------------
  // Rendering
  // ---------------------------------------------------------------------------

  /** `%02d`: the two decimal digits of `n`. */
  function Pad2(n: int): (s: string)
    requires 0 <= n < 100
    ensures |s| == 2 && AllDigits(s) && DigitsValue(s) == n
  {
    var s := [DigitChar(n / 10), DigitChar(n % 10)];
    assert s[..1][..0] == [];
    assert DigitsValue(s[..1]) == n / 10;
    assert DigitsValue(s) == n / 10 * 10 + n % 10;
    s
  }

  /** `%04d`: the four decimal digits of `n`. */
  function Pad4(n: int): (s: string)
    requires 0 <= n < 10000
    ensures |s| == 4 && AllDigits(s) && DigitsValue(s) == n
  {
    var hi, lo := Pad2(n / 100), Pad2(n % 100);
    DigitsValueAppend(hi, lo);
    hi + lo
  }

  /** The fixed-width renderings are Python's zero padding to that width. */
  lemma PadsArePadNat(n: int)
    requires 0 <= n < 10000
    ensures n < 100 ==> Pad2(n) == PadNat(n, 2)
    ensures Pad4(n) == PadNat(n, 4)
  {
    if n < 100 {
      DigitsValueInjective(Pad2(n), PadNat(n, 2));
    }
    DigitsValueInjective(Pad4(n), PadNat(n, 4));
  }

  /** `dt.strftime("%d.%m.%Y %H:%M")`. */
  function FormatDayMonthYearTime(dt: DateTime): (s: string)
    requires Valid(dt)
    ensures |s| == 16
  {
    Pad2(dt.day) + ("." + (Pad2(dt.month) + ("." + (Pad4(dt.year) + (" " + (Pad2(dt.hour) + (":" + Pad2(dt.minute))))))))
  }

  /** `dt.isoformat()` for a naive datetime without microseconds. */
  function IsoFormat(dt: DateTime): (s: string)
    requires Valid(dt)
    ensures |s| == 19
  {
    Pad4(dt.year) + "-" + Pad2(dt.month) + "-" + Pad2(dt.day) + "T" + Pad2(dt.hour) + ":" + Pad2(dt.minute) + ":" + Pad2(dt.second)
  }

  // ---------------------------------------------------------------------------
  // strptime
  // ---------------------------------------------------------------------------

  /**
   * A format directive: `%d`, `%m`, `%Y`, `%H`, `%M`, a literal character, or
   * a blank in the format, which matches one or more whitespace characters.
   */
  datatype Directive = Day | Month | Year | Hour | Minute | Lit(c: char) | Blank

  type Format = seq<Directive>

  const DotDateTime: Format := [Day, Lit('.'), Month, Lit('.'), Year, Blank, Hour, Lit(':'), Minute]
  const DotDate: Format := [Day, Lit('.'), Month, Lit('.'), Year]
  const SlashDateTime: Format := [Day, Lit('/'), Month, Lit('/'), Year, Blank, Hour, Lit(':'), Minute]
  const SlashDate: Format := [Day, Lit('/'), Month, Lit('/'), Year]

  /** The formats `on_due_date_input` tries, in order. */
  const DueDateFormats: seq<Format> := [DotDateTime, DotDate, SlashDateTime, SlashDate]

  /** The fields strptime fills in; unmentioned ones keep 1900-01-01 00:00. */
  datatype Fields = Fields(year: int, month: int, day: int, hour: int, minute: int)

  const DefaultFields := Fields(1900, 1, 1, 0, 0)

  /** How many digits `s` starts with, counting at most `k`. */
  function LeadingDigits(s: string, k: nat): (n: nat)
    ensures n <= k && n <= |s| && AllDigits(s[..n])
    ensures n < k && n < |s| ==> !IsDigit(s[n])
  {
    if k == 0 || s == [] || !IsDigit(s[0]) then 0
    else
      var n := 1 + LeadingDigits(s[1..], k - 1);
      assert s[..n] == [s[0]] + s[1..][..n - 1];
      n
  }

  function LeadingBlanks(s: string): (n: nat)
    ensures n <= |s|
    ensures forall i :: 0 <= i < n ==> IsSpace(s[i])
  {
    if s != [] && IsSpace(s[0]) then 1 + LeadingBlanks(s[1..]) else 0
  }

  /**
   * A one- or two-digit field with values in [lo, hi]. The regular expressions
   * strptime builds for `%d`, `%m`, `%H` and `%M` accept exactly these; every
   * such field in the four formats is followed by a non-digit or the end, so
   * taking as many digits as possible decides the same way as backtracking.
   */
  function Number(s: string, lo: int, hi: int): (r: Option<(int, nat)>)
    ensures r.Some? ==> 1 <= r.value.1 <= 2 && r.value.1 <= |s| && lo <= r.value.0 <= hi
  {
    var n := LeadingDigits(s, 2);
    if n == 0 then None
    else
      var v := DigitsValue(s[..n]);
      if lo <= v <= hi then Some((v, n)) else None
  }

  /** One directive against the start of the text: the updated fields and the characters consumed. */
  function Step(s: string, d: Directive, f: Fields): (r: Option<(Fields, nat)>)
    ensures r.Some? ==> 1 <= r.value.1 <= |s|
  {
    match d
    case Lit(c) => if s != [] && s[0] == c then Some((f, 1)) else None
    case Blank => var n := LeadingBlanks(s); if n > 0 then Some((f, n)) else None
    case Year =>
      if |s| >= 4 && AllDigits(s[..4]) then Some((f.(year := DigitsValue(s[..4])), 4)) else None
    case Day =>
      (match Number(s, 1, 31) case Some((v, n)) => Some((f.(day := v), n)) case None => None)
    case Month =>
      (match Number(s, 1, 12) case Some((v, n)) => Some((f.(month := v), n)) case None => None)
    case Hour =>
      (match Number(s, 0, 23) case Some((v, n)) => Some((f.(hour := v), n)) case None => None)
    case Minute =>
      (match Number(s, 0, 59) case Some((v, n)) => Some((f.(minute := v), n)) case None => None)
  }

  /** The whole text against the whole format; leftover text ("unconverted data remains") fails. */
  function Match(s: string, fmt: Format, f: Fields): Option<Fields>
    decreases |fmt|
  {
    if fmt == [] then (if s == [] then Some(f) else None)
    else
      match Step(s, fmt[0], f)
      case None => None
      case Some((f', n)) => Match(s[n..], fmt[1..], f')
  }

  /** `datetime.strptime(s, fmt)`; `None` stands for the ValueError it raises. */
  function Strptime(s: string, fmt: Format): (r: Option<DateTime>)
    ensures r.Some? ==> Valid(r.value) && r.value.second == 0
  {
    match Match(s, fmt, DefaultFields)
    case None => None
    case Some(f) =>
      var dt := DateTime(f.year, f.month, f.day, f.hour, f.minute, 0);
      if Valid(dt) then Some(dt) else None
  }

  /** Matching a concatenated format is matching its first part, then the rest of the text against the second. */
  lemma MatchAppend(s: string, p: Format, q: Format, f: Fields)
    ensures Match(s, p + q, f) ==
      match Consume(StepFn(), s, p, f)
      case None => None
      case Some((f', k)) => Match(s[k..], q, f')
  {
    var st := StepFn();
    MatchIsMatchBy(s, p + q, f);
    MatchByAppend(st, s, p, q, f);
    match Consume(StepFn(), s, p, f)
    case None =>
    case Some((f', k)) => MatchIsMatchBy(s[k..], q, f');
  }

  /** A reader of one directive; `Step` is the one `strptime` uses. */
  type Stepper = (string, Directive, Fields) -> Option<(Fields, nat)>

  function StepFn(): Stepper {
    (s, d, f) => Step(s, d, f)
  }

  /** `Match` for any way of reading one directive. */
  ghost function MatchBy(st: Stepper, s: string, fmt: Format, f: Fields): Option<Fields>
    decreases |fmt|
  {
    if fmt == [] then (if s == [] then Some(f) else None)
    else
      match st(s, fmt[0], f)
      case None => None
      case Some((f', n)) => if n <= |s| then MatchBy(st, s[n..], fmt[1..], f') else None
  }

  /**
   * A run of directives over a prefix of the text: the fields so far and the
   * characters consumed.
   */
  ghost function Consume(st: Stepper, s: string, fmt: Format, f: Fields): (r: Option<(Fields, nat)>)
    ensures r.Some? ==> r.value.1 <= |s|
    decreases |fmt|
  {
    if fmt == [] then Some((f, 0))
    else
      match st(s, fmt[0], f)
      case None => None
      case Some((f', n)) =>
        if n > |s| then None
        else
          match Consume(st, s[n..], fmt[1..], f')
          case None => None
          case Some((f'', k)) => Some((f'', n + k))
  }

  lemma {:induction false} MatchIsMatchBy(s: string, fmt: Format, f: Fields)
    ensures Match(s, fmt, f) == MatchBy(StepFn(), s, fmt, f)
    decreases |fmt|
  {
    if fmt != [] {
      var r := Step(s, fmt[0], f);
      assert StepFn()(s, fmt[0], f) == r;
      if r.Some? {
        MatchIsMatchBy(s[r.value.1..], fmt[1..], r.value.0);
      }
    }
  }

  lemma {:induction false} MatchByAppend(st: Stepper, s: string, p: Format, q: Format, f: Fields)
    ensures MatchBy(st, s, p + q, f) ==
      match Consume(st, s, p, f)
      case None => None
      case Some((f', k)) => MatchBy(st, s[k..], q, f')
    decreases |p|
  {
    if p == [] {
      assert p + q == q;
    } else {
      assert (p + q)[0] == p[0] && (p + q)[1..] == p[1..] + q;
      var r := st(s, p[0], f);
      if r.Some? && r.value.1 <= |s| {
        var f', n := r.value.0, r.value.1;
        MatchByAppend(st, s[n..], p[1..], q, f');
        var c := Consume(st, s[n..], p[1..], f');
        if c.Some? {
          assert s[n..][c.value.1..] == s[n + c.value.1..];
        }
      }
    }
  }

  lemma MatchLitClash(s: string, c: char, d: char, p: Format, q: Format, f: Fields, g: Fields)
    requires c != d
    ensures !(Match(s, [Lit(c)] + p, f).Some? && Match(s, [Lit(d)] + q, g).Some?)
  {
  }

  lemma MatchEndClash(s: string, q: Format, f: Fields, g: Fields)
    ensures !(Match(s, [], f).Some? && Match(s, [Blank] + q, g).Some?)
  {
    assert ([Blank] + q)[0] == Blank;
  }

  /**
   * No text is accepted by two of the four due-date formats, so the order in
   * which they are tried never changes the result.
   */
  lemma DueDateFormatsExclusive(s: string, i: int, j: int)
    requires 0 <= i < j < |DueDateFormats|
    ensures !(Strptime(s, DueDateFormats[i]).Some? && Strptime(s, DueDateFormats[j]).Some?)
  {
    if (i == 0 && j == 1) || (i == 2 && j == 3) {
      TimeTailExclusive(s, i, j);
    } else {
      SeparatorExclusive(s, i, j);
    }
  }

  /** A format and the same format with a time after it never both match. */
  lemma TimeTailExclusive(s: string, i: int, j: int)
    requires (i == 0 && j == 1) || (i == 2 && j == 3)
    ensures !(Strptime(s, DueDateFormats[i]).Some? && Strptime(s, DueDateFormats[j]).Some?)
  {
    var dotTail: Format := [Blank, Hour, Lit(':'), Minute];
    var date := DueDateFormats[j];
    assert DueDateFormats[i] == date + dotTail;
    assert DueDateFormats[j] == date + [];
    MatchAppend(s, date, dotTail, DefaultFields);
    MatchAppend(s, date, [], DefaultFields);
    match Consume(StepFn(), s, date, DefaultFields)
    case None =>
    case Some((f', k)) => MatchEndClash(s[k..], dotTail[1..], f', f');
  }

  /** Formats whose day is followed by different separators never both match. */
  lemma SeparatorExclusive(s: string, i: int, j: int)
    requires 0 <= i < j < |DueDateFormats|
    requires !((i == 0 && j == 1) || (i == 2 && j == 3))
    ensures !(Strptime(s, DueDateFormats[i]).Some? && Strptime(s, DueDateFormats[j]).Some?)
  {
    var p, q := DueDateFormats[i][1..], DueDateFormats[j][1..];
    assert DueDateFormats[i] == [Day] + p && DueDateFormats[j] == [Day] + q;
    assert p[0].Lit? && q[0].Lit? && p[0].c != q[0].c;
    SeparatorClash(s, [Day], p, q);
  }

  /** After a common prefix `h`, formats continuing with different literals never both match. */
  lemma SeparatorClash(s: string, h: Format, p: Format, q: Format)
    requires p != [] && q != [] && p[0].Lit? && q[0].Lit? && p[0].c != q[0].c
    ensures !(Match(s, h + p, DefaultFields).Some? && Match(s, h + q, DefaultFields).Some?)
  {
    MatchAppend(s, h, p, DefaultFields);
    MatchAppend(s, h, q, DefaultFields);
    match Consume(StepFn(), s, h, DefaultFields)
    case None =>
    case Some((f', k)) =>
      assert p == [Lit(p[0].c)] + p[1..] && q == [Lit(q[0].c)] + q[1..];
      MatchLitClash(s[k..], p[0].c, q[0].c, p[1..], q[1..], f', f');
  }

  lemma {:induction false} LeadingDigitsOfDigits(p: string, rest: string, k: nat)
    requires AllDigits(p) && |p| == k
    ensures LeadingDigits(p + rest, k) == k
  {
    if k > 0 {
      assert (p + rest)[1..] == p[1..] + rest;
      LeadingDigitsOfDigits(p[1..], rest, k - 1);
    }
  }

  lemma NumberOfPad2(v: int, rest: string, lo: int, hi: int)
    requires 0 <= lo <= v <= hi < 100
    ensures Number(Pad2(v) + rest, lo, hi) == Some((v, 2))
    ensures (Pad2(v) + rest)[2..] == rest
  {
    var s := Pad2(v) + rest;
    LeadingDigitsOfDigits(Pad2(v), rest, 2);
    assert s[..2] == Pad2(v);
  }

  lemma MatchStep(s: string, d: Directive, fmt: Format, f: Fields, f': Fields, n: nat)
    requires Step(s, d, f) == Some((f', n))
    ensures Match(s, [d] + fmt, f) == Match(s[n..], fmt, f')
  {
    assert ([d] + fmt)[0] == d && ([d] + fmt)[1..] == fmt;
  }

  lemma MatchLit(c: char, tail: string, fmt: Format, f: Fields)
    ensures Match([c] + tail, [Lit(c)] + fmt, f) == Match(tail, fmt, f)
  {
    MatchStep([c] + tail, Lit(c), fmt, f, f, 1);
    assert ([c] + tail)[1..] == tail;
  }

  lemma MatchBlank(tail: string, fmt: Format, f: Fields)
    requires tail == [] || !IsSpace(tail[0])
    ensures Match(" " + tail, [Blank] + fmt, f) == Match(tail, fmt, f)
  {
    var s := " " + tail;
    assert LeadingBlanks(s[1..]) == 0 by { assert s[1..] == tail; }
    MatchStep(s, Blank, fmt, f, f, 1);
    assert s[1..] == tail;
  }

  lemma MatchYear(v: int, tail: string, fmt: Format, f: Fields)
    requires 0 <= v < 10000
    ensures Match(Pad4(v) + tail, [Year] + fmt, f) == Match(tail, fmt, f.(year := v))
  {
    var s := Pad4(v) + tail;
    assert s[..4] == Pad4(v) && s[4..] == tail;
    MatchStep(s, Year, fmt, f, f.(year := v), 4);
  }

  /** A zero-padded two-digit field is read back by `%d`, `%m`, `%H` or `%M`. */
  lemma MatchTwoDigits(d: Directive, v: int, tail: string, fmt: Format, f: Fields)
    requires d.Day? || d.Month? || d.Hour? || d.Minute?
    requires d.Day? ==> 1 <= v <= 31
    requires d.Month? ==> 1 <= v <= 12
    requires d.Hour? ==> 0 <= v <= 23
    requires d.Minute? ==> 0 <= v <= 59
    ensures Match(Pad2(v) + tail, [d] + fmt, f) ==
      Match(tail, fmt,
        if d.Day? then f.(day := v) else if d.Month? then f.(month := v)
        else if d.Hour? then f.(hour := v) else f.(minute := v))
  {
    var s := Pad2(v) + tail;
    var f' := if d.Day? then f.(day := v) else if d.Month? then f.(month := v)
      else if d.Hour? then f.(hour := v) else f.(minute := v);
    var lo := if d.Day? || d.Month? then 1 else 0;
    var hi := if d.Day? then 31 else if d.Month? then 12 else if d.Hour? then 23 else 59;
    NumberOfPad2(v, tail, lo, hi);
    assert Step(s, d, f) == Some((f', 2));
    MatchStep(s, d, fmt, f, f', 2);
  }

  /** The ` HH:MM` tail of the first due-date format. */
  lemma MatchClock(hour: int, minute: int, f: Fields)
    requires 0 <= hour <= 23 && 0 <= minute <= 59
    ensures Match(" " + (Pad2(hour) + (":" + Pad2(minute))), [Blank, Hour, Lit(':'), Minute], f)
      == Some(f.(hour := hour).(minute := minute))
  {
    var s2 := ":" + Pad2(minute);
    var s1 := Pad2(hour) + s2;
    var m: Format := [Minute];
    assert [Blank, Hour, Lit(':'), Minute] == [Blank] + ([Hour] + ([Lit(':')] + m));
    assert !IsSpace(s1[0]) by { assert s1[0] == Pad2(hour)[0]; }
    MatchBlank(s1, [Hour] + ([Lit(':')] + m), f);
    MatchTwoDigits(Hour, hour, s2, [Lit(':')] + m, f);
    MatchLit(':', Pad2(minute), m, f.(hour := hour));
    MatchLastField(minute, f.(hour := hour));
  }

  lemma MatchLastField(minute: int, f: Fields)
    requires 0 <= minute <= 59
    ensures Match(Pad2(minute), [Minute], f) == Some(f.(minute := minute))
  {
    var empty: Format := [];
    assert Pad2(minute) == Pad2(minute) + "" && [Minute] == [Minute] + empty;
    MatchTwoDigits(Minute, minute, "", empty, f);
  }

  /** The `.MM.YYYY` middle of the dotted formats, followed by whatever `rest` matches. */
  lemma MatchMonthYear(month: int, year: int, tail: string, rest: Format, f: Fields)
    requires 1 <= month <= 12 && 0 <= year < 10000
    ensures Match("." + (Pad2(month) + ("." + (Pad4(year) + tail))), [Lit('.'), Month, Lit('.'), Year] + rest, f)
      == Match(tail, rest, f.(month := month).(year := year))
  {
    var s3 := Pad4(year) + tail;
    var s2 := "." + s3;
    var s1 := Pad2(month) + s2;
    assert [Lit('.'), Month, Lit('.'), Year] + rest == [Lit('.')] + ([Month] + ([Lit('.')] + ([Year] + rest)));
    MatchLit('.', s1, [Month] + ([Lit('.')] + ([Year] + rest)), f);
    MatchTwoDigits(Month, month, s2, [Lit('.')] + ([Year] + rest), f);
    MatchLit('.', s3, [Year] + rest, f.(month := month));
    MatchYear(year, tail, rest, f.(month := month));
  }

  /**
   * Round trip: the text `strftime("%d.%m.%Y %H:%M")` produces is read back by
   * the first due-date format to the same minute.
   */
  lemma StrptimeReadsDayMonthYearTime(dt: DateTime)
    requires Valid(dt)
    ensures Strptime(FormatDayMonthYearTime(dt), DotDateTime) == Some(dt.(second := 0))
  {
    var clock := " " + (Pad2(dt.hour) + (":" + Pad2(dt.minute)));
    var s1 := "." + (Pad2(dt.month) + ("." + (Pad4(dt.year) + clock)));
    var f1 := DefaultFields.(day := dt.day);
    var f3 := f1.(month := dt.month).(year := dt.year);
    var clockFormat: Format := [Blank, Hour, Lit(':'), Minute];
    var middle: Format := [Lit('.'), Month, Lit('.'), Year] + clockFormat;
    assert DotDateTime == [Day] + middle;
    MatchTwoDigits(Day, dt.day, s1, middle, DefaultFields);
    MatchMonthYear(dt.month, dt.year, clock, clockFormat, f1);
    MatchClock(dt.hour, dt.minute, f3);
  }

  // ---------------------------------------------------------------------------
  // fromisoformat
  // ---------------------------------------------------------------------------

  /** `HH:MM` with two-digit fields, followed by the rest of the text. */
  predicate ClockAt(s: string) {
    |s| >= 5 && AllDigits(s[..2]) && s[2] == ':' && AllDigits(s[3..5])
  }

  /** Optional `.fff` or `.ffffff` after the seconds. */
  function SkipFraction(s: string): (r: Option<string>)
    ensures r.Some? ==> |r.value| <= |s|
  {
    if s != [] && s[0] == '.' then
      var n := LeadingDigits(s[1..], 7);
      if n == 3 || n == 6 then Some(s[1 + n..]) else None
    else Some(s)
  }

  /** The optional UTC offset `+HH:MM` / `-HH:MM`, which must stay under a day. */
  predicate OffsetOk(s: string) {
    s == [] ||
    (|s| == 6 && (s[0] == '+' || s[0] == '-') && AllDigits(s[1..3]) && s[3] == ':' && AllDigits(s[4..6])
     && DigitsValue(s[1..3]) * 60 + DigitsValue(s[4..6]) < 24 * 60)
  }

  /** Hour, minute and second of `HH:MM[:SS[.fff|.ffffff]][+HH:MM|-HH:MM]`. */
  function ParseIsoTime(s: string): Option<(int, int, int)> {
    if !ClockAt(s) then None
    else
      var hh, mm := DigitsValue(s[..2]), DigitsValue(s[3..5]);
      var rest := s[5..];
      if |rest| >= 3 && rest[0] == ':' && AllDigits(rest[1..3]) then
        match SkipFraction(rest[3..])
        case None => None
        case Some(tail) => if OffsetOk(tail) then Some((hh, mm, DigitsValue(rest[1..3]))) else None
      else if OffsetOk(rest) then Some((hh, mm, 0))
      else None
  }

  /**
   * `datetime.fromisoformat(s)` on `YYYY-MM-DD`, optionally followed by any one
   * separator character and a time as `ParseIsoTime` reads it. The offset is
   * checked but dropped: strftime prints the wall-clock fields as they are.
   */
  function ParseIso(s: string): (r: Option<DateTime>)
    ensures r.Some? ==> Valid(r.value)
  {
    if |s| < 10 || !(AllDigits(s[..4]) && s[4] == '-' && AllDigits(s[5..7]) && s[7] == '-' && AllDigits(s[8..10])) then None
    else
      var y, mo, d := DigitsValue(s[..4]), DigitsValue(s[5..7]), DigitsValue(s[8..10]);
      var time: Option<(int, int, int)> := if |s| == 10 then Some((0, 0, 0)) else ParseIsoTime(s[11..]);
      match time
      case None => None
      case Some((hh, mm, ss)) =>
        var dt := DateTime(y, mo, d, hh, mm, ss);
        if Valid(dt) then Some(dt) else None
  }

  /** Round trip: `fromisoformat(dt.isoformat()) == dt`. */
  lemma ParseIsoFormat(dt: DateTime)
    requires Valid(dt)
    ensures ParseIso(IsoFormat(dt)) == Some(dt)
  {
    IsoWithSuffix(dt, "");
    assert IsoFormat(dt) + "" == IsoFormat(dt);
  }

  /** The same with a UTC offset appended, as in "2024-01-05T10:00:00+00:00". */
  lemma ParseIsoFormatUtc(dt: DateTime)
    requires Valid(dt)
    ensures ParseIso(IsoFormat(dt) + "+00:00") == Some(dt)
  {
    IsoWithSuffix(dt, "+00:00");
  }

  /** `HH:MM:SS` followed by an accepted offset is read to its three fields. */
  lemma ParseClockWithOffset(h: string, mi: string, se: string, suffix: string)
    requires |h| == 2 && |mi| == 2 && |se| == 2 && AllDigits(h) && AllDigits(mi) && AllDigits(se)
    requires suffix == "" || suffix == "+00:00"
    ensures ParseIsoTime(h + ":" + mi + ":" + se + suffix)
      == Some((DigitsValue(h), DigitsValue(mi), DigitsValue(se)))
  {
    var t := h + ":" + mi + ":" + se + suffix;
    var rest := ":" + se + suffix;
    assert t == h + ":" + mi + rest;
    ClockSplit(h, mi, rest);
    SecondsSplit(se, suffix);
    assert ClockAt(t);
    assert SkipFraction(suffix) == Some(suffix);
    UtcOffsetOk(suffix);
  }

  lemma ClockSplit(h: string, mi: string, rest: string)
    requires |h| == 2 && |mi| == 2
    ensures var t := h + ":" + mi + rest;
      t[..2] == h && t[2] == ':' && t[3..5] == mi && t[5..] == rest
  {
  }

  lemma SecondsSplit(se: string, suffix: string)
    requires |se| == 2
    ensures var rest := ":" + se + suffix;
      |rest| >= 3 && rest[0] == ':' && rest[1..3] == se && rest[3..] == suffix
  {
  }

  lemma UtcOffsetOk(suffix: string)
    requires suffix == "" || suffix == "+00:00"
    ensures OffsetOk(suffix)
  {
    if suffix != "" {
      assert suffix[1..3] == "00" && suffix[4..6] == "00";
      assert DigitsValue("00") == 0;
    }
  }

  /** `YYYY-MM-DD`, one separator and a time: the date fields and the time's fields. */
  lemma ParseDateThenTime(y: string, mo: string, d: string, sep: char, time: string)
    requires |y| == 4 && |mo| == 2 && |d| == 2 && AllDigits(y) && AllDigits(mo) && AllDigits(d)
    ensures ParseIso(y + "-" + mo + "-" + d + [sep] + time) ==
      match ParseIsoTime(time)
      case None => None
      case Some((hh, mm, ss)) =>
        var dt := DateTime(DigitsValue(y), DigitsValue(mo), DigitsValue(d), hh, mm, ss);
        if Valid(dt) then Some(dt) else None
  {
    var date := y + "-" + mo + "-" + d;
    var tail := [sep] + time;
    DateFieldsAt(y, mo, d);
    AppendAssoc(date, [sep], time);
    ExtendedDateFields(date, tail);
    assert tail[1..] == time;
  }

  lemma DateFieldsAt(y: string, mo: string, d: string)
    requires |y| == 4 && |mo| == 2 && |d| == 2
    ensures var date := y + "-" + mo + "-" + d;
      |date| == 10 && date[..4] == y && date[4] == '-' && date[5..7] == mo && date[7] == '-' && date[8..10] == d
  {
  }

  lemma ExtendedDateFields(date: string, tail: string)
    requires |date| == 10 && |tail| >= 1
    ensures var s := date + tail;
      |s| > 10 && s[..4] == date[..4] && s[4] == date[4] && s[5..7] == date[5..7] && s[7] == date[7]
      && s[8..10] == date[8..10] && s[11..] == tail[1..]
  {
  }

  lemma IsoWithSuffix(dt: DateTime, suffix: string)
    requires Valid(dt) && (suffix == "" || suffix == "+00:00")
    ensures ParseIso(IsoFormat(dt) + suffix) == Some(dt)
  {
    var y, mo, d := Pad4(dt.year), Pad2(dt.month), Pad2(dt.day);
    var h, mi, se := Pad2(dt.hour), Pad2(dt.minute), Pad2(dt.second);
    var time := h + ":" + mi + ":" + se + suffix;
    IsoRegroup(y, mo, d, h, mi, se, suffix);
    ParseClockWithOffset(h, mi, se, suffix);
    ParseDateThenTime(y, mo, d, 'T', time);
  }

  lemma IsoRegroup(y: string, mo: string, d: string, h: string, mi: string, se: string, suffix: string)
    ensures y + "-" + mo + "-" + d + "T" + h + ":" + mi + ":" + se + suffix
      == y + "-" + mo + "-" + d + ['T'] + (h + ":" + mi + ":" + se + suffix)
  {
    var date := y + "-" + mo + "-" + d;
    assert "T" == ['T'];
    assert date + "T" + h + ":" + mi + ":" + se + suffix == date + ['T'] + (h + ":" + mi + ":" + se + suffix);
  }

  /** `ReplaceChar` distributes over concatenation. */
  lemma {:induction false} ReplaceCharAppend(a: string, b: string, c: char, repl: string)
    ensures ReplaceChar(a + b, c, repl) == ReplaceChar(a, c, repl) + ReplaceChar(b, c, repl)
  {
    if a == [] {
      assert a + b == b;
    } else {
      var h := if a[0] == c then repl else [a[0]];
      assert (a + b)[0] == a[0] && (a + b)[1..] == a[1..] + b;
      assert ReplaceChar(a + b, c, repl) == h + ReplaceChar(a[1..] + b, c, repl);
      assert ReplaceChar(a, c, repl) == h + ReplaceChar(a[1..], c, repl);
      ReplaceCharAppend(a[1..], b, c, repl);
      AppendAssoc(h, ReplaceChar(a[1..], c, repl), ReplaceChar(b, c, repl));
    }
  }

  lemma AppendAssoc(x: string, y: string, z: string)
    ensures (x + y) + z == x + (y + z)
  {
  }

  lemma IsoFormatHasNoZ(dt: DateTime)
    requires Valid(dt)
    ensures 'Z' !in IsoFormat(dt)
  {
    var s := IsoFormat(dt);
    forall i | 0 <= i < |s| ensures s[i] != 'Z' {
    }
  }

  /**
   * A timestamp rendered the way the API renders UTC datetimes (`isoformat()`
   * with `+00:00` written as `Z`) is read back after the bot's `replace("Z",
   * "+00:00")`.
   */
  lemma ParseIsoZulu(dt: DateTime)
    requires Valid(dt)
    ensures ParseIso(ReplaceChar(IsoFormat(dt) + "Z", 'Z', "+00:00")) == Some(dt)
  {
    ReplaceCharAppend(IsoFormat(dt), "Z", 'Z', "+00:00");
    IsoFormatHasNoZ(dt);
    assert ReplaceChar("Z", 'Z', "+00:00") == "+00:00";
    ParseIsoFormatUtc(dt);
  }
}
