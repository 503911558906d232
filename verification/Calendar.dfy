/** Dates and times as text: the guard's arithmetic from a timestamp to
    seconds, and the date pattern of the shared schema. */
module Calendar {
  import opened Digits
  import opened Wrappers

  /* ---- The Gregorian calendar ---- */

  datatype Date = Date(year: int, month: int, day: int)

  predicate Leap(y: int) { y % 4 == 0 && (y % 100 != 0 || y % 400 == 0) }

  function DaysIn(y: int, m: int): int {
    if m == 2 then (if Leap(y) then 29 else 28)
    else if m == 4 || m == 6 || m == 9 || m == 11 then 30
    else 31
  }

  predicate Valid(d: Date) { 1 <= d.month <= 12 && 1 <= d.day <= DaysIn(d.year, d.month) }

  function Next(d: Date): Date {
    if d.day < DaysIn(d.year, d.month) then Date(d.year, d.month, d.day + 1)
    else if d.month < 12 then Date(d.year, d.month + 1, 1)
    else Date(d.year + 1, 1, 1)
  }

  predicate Earlier(a: Date, b: Date) {
    a.year < b.year || (a.year == b.year && (a.month < b.month || (a.month == b.month && a.day < b.day)))
  }

  /* ---- The guard's days from a civil date ---- */

  // The shell divides towards zero.
  function Quotient(a: int, b: int): int
    requires b > 0
  {
    if a >= 0 then a / b else -((-a) / b)
  }

  // Years begin in March.
  function MarchYear(d: Date): int { if d.month <= 2 then d.year - 1 else d.year }

  function MarchMonth(d: Date): int { (d.month + 9) % 12 }

  function DayOfYear(d: Date): int { (153 * MarchMonth(d) + 2) / 5 + d.day - 1 }

  function Days(d: Date): int {
    var y := MarchYear(d);
    var era := Quotient(y, 400);
    var yoe := y - era * 400;
    var doe := yoe * 365 + Quotient(yoe, 4) - Quotient(yoe, 100) + DayOfYear(d);
    era * 146097 + doe - 719468
  }

  // The days before a March year.
  function Start(y: int): int { 365 * y + y / 4 - y / 100 + y / 400 }

  // From March of the year 0 on, the eras add up.
  lemma DaysAddUp(d: Date)
    requires MarchYear(d) >= 0
    ensures Days(d) == Start(MarchYear(d)) + DayOfYear(d) - 719468
  {
    var y := MarchYear(d);
    var era, yoe := y / 400, y % 400;
    assert y == 400 * era + yoe;
    assert y / 4 == 100 * era + yoe / 4;
    assert y / 100 == 4 * era + yoe / 100;
  }

  lemma YearLength(y: int)
    ensures Start(y + 1) == Start(y) + (if Leap(y + 1) then 366 else 365)
  {
    assert (y + 1) / 4 == y / 4 + (if (y + 1) % 4 == 0 then 1 else 0);
    assert (y + 1) / 100 == y / 100 + (if (y + 1) % 100 == 0 then 1 else 0);
    assert (y + 1) / 400 == y / 400 + (if (y + 1) % 400 == 0 then 1 else 0);
  }

  // A month other than February leads to the next.
  lemma MonthStep(y: int, m: int)
    requires 1 <= m <= 12 && m != 2
    ensures var mp := (m + 9) % 12;
            mp < 11 && (153 * (mp + 1) + 2) / 5 == (153 * mp + 2) / 5 + DaysIn(y, m)
            && (if m < 12 then (m + 1 + 9) % 12 else (1 + 9) % 12) == mp + 1
  {
  }

  lemma NextInYear(d: Date)
    requires Valid(d)
    ensures Valid(Next(d))
    ensures d.month == 2 && d.day == DaysIn(d.year, 2) ==>
              MarchYear(Next(d)) == MarchYear(d) + 1 && DayOfYear(Next(d)) == 0 && DayOfYear(d) == DaysIn(d.year, 2) + 336
    ensures !(d.month == 2 && d.day == DaysIn(d.year, 2)) ==>
              MarchYear(Next(d)) == MarchYear(d) && DayOfYear(Next(d)) == DayOfYear(d) + 1
  {
    if d.month != 2 {
      MonthStep(d.year, d.month);
    }
  }

  // Consecutive days are one apart, from 1 March of the year 0 on; and the
  // count starts with 1 January 1970. So it is the number of days since then.
  lemma DaysAreConsecutive(d: Date)
    requires Valid(d) && MarchYear(d) >= 0
    ensures Valid(Next(d)) && Days(Next(d)) == Days(d) + 1
  {
    NextInYear(d);
    DaysAddUp(d);
    DaysAddUp(Next(d));
    YearLength(MarchYear(d));
  }

  lemma TheEpochIsZero()
    ensures Days(Date(1970, 1, 1)) == 0
  {
  }

  // In January and February of the year 0 the division towards zero counts
  // from a leap day too late.
  lemma BeforeMarchOfYearZero(d: Date)
    requires MarchYear(d) == -1
    ensures Days(d) == DayOfYear(d) - 365 - 719468
  {
  }

  // From the year 0 on, two consecutive days are one apart exactly when they
  // lie on the same side of 1 March of the year 0: between 29 February and
  // 1 March of that year a day is lost.
  lemma ConsecutiveExactly(d: Date)
    requires Valid(d) && d.year >= 0
    ensures Days(Next(d)) == Days(d) + 1 <==> MarchYear(d) >= 0 || MarchYear(Next(d)) < 0
    ensures MarchYear(d) < 0 <= MarchYear(Next(d)) <==> d == Date(0, 2, 29)
  {
    NextInYear(d);
    if MarchYear(d) >= 0 {
      DaysAreConsecutive(d);
    } else {
      BeforeMarchOfYearZero(d);
      if MarchYear(Next(d)) < 0 {
        BeforeMarchOfYearZero(Next(d));
      } else {
        DaysAddUp(Next(d));
      }
    }
  }

  lemma DayOfYearRises(a: Date, b: Date)
    requires Valid(a) && Valid(b) && MarchYear(a) == MarchYear(b) && Earlier(a, b)
    ensures DayOfYear(a) < DayOfYear(b)
  {
    if a.month == b.month {
      assert a.year == b.year;
    } else {
      assert MarchMonth(a) < MarchMonth(b);
      MonthEnds(a);
      assert (153 * (MarchMonth(a) + 1) + 2) / 5 <= (153 * MarchMonth(b) + 2) / 5;
    }
  }

  // A month ends before the next one starts.
  lemma MonthEnds(d: Date)
    requires Valid(d) && MarchMonth(d) < 11
    ensures DayOfYear(d) < (153 * (MarchMonth(d) + 1) + 2) / 5
  {
  }

  lemma DayOfYearFits(d: Date)
    requires Valid(d)
    ensures 0 <= DayOfYear(d) < if Leap(MarchYear(d) + 1) then 366 else 365
  {
    if MarchMonth(d) < 11 {
      MonthEnds(d);
    }
  }

  lemma {:induction false} StartRises(x: int, y: int)
    requires x <= y
    ensures Start(x) <= Start(y)
    decreases y - x
  {
    if x < y {
      YearLength(y - 1);
      StartRises(x, y - 1);
    }
  }

  lemma DaysRise(a: Date, b: Date)
    requires Valid(a) && Valid(b) && a.year >= 1 && b.year >= 1 && Earlier(a, b)
    ensures Days(a) < Days(b)
  {
    DaysAddUp(a);
    DaysAddUp(b);
    var x, y := MarchYear(a), MarchYear(b);
    assert x <= y;
    if x == y {
      DayOfYearRises(a, b);
    } else {
      DayOfYearFits(a);
      DayOfYearFits(b);
      YearLength(x);
      StartRises(x + 1, y);
    }
  }

  /* ---- Timestamps ---- */

  datatype Stamp = Stamp(date: Date, hour: int, minute: int, second: int)

  predicate ValidStamp(s: Stamp) {
    Valid(s.date) && 1 <= s.date.year <= 9999 && 0 <= s.hour < 24 && 0 <= s.minute < 60 && 0 <= s.second < 60
  }

  function Epoch(s: Stamp): int { Days(s.date) * 86400 + s.hour * 3600 + s.minute * 60 + s.second }

  predicate Before(a: Stamp, b: Stamp) {
    Earlier(a.date, b.date)
    || (a.date == b.date
        && (a.hour < b.hour || (a.hour == b.hour && (a.minute < b.minute || (a.minute == b.minute && a.second < b.second)))))
  }

  lemma EpochRises(a: Stamp, b: Stamp)
    requires ValidStamp(a) && ValidStamp(b)
    ensures Before(a, b) <==> Epoch(a) < Epoch(b)
  {
    if Earlier(a.date, b.date) {
      DaysRise(a.date, b.date);
    } else if Earlier(b.date, a.date) {
      DaysRise(b.date, a.date);
    } else {
      assert a.date == b.date;
    }
  }

  function NextSecond(s: Stamp): Stamp {
    if s.second < 59 then s.(second := s.second + 1)
    else if s.minute < 59 then s.(minute := s.minute + 1, second := 0)
    else if s.hour < 23 then s.(hour := s.hour + 1, minute := 0, second := 0)
    else Stamp(Next(s.date), 0, 0, 0)
  }

  // The epoch counts the seconds since the start of 1970.
  lemma SecondsAreCounted(s: Stamp)
    requires ValidStamp(s)
    ensures Epoch(NextSecond(s)) == Epoch(s) + 1
    ensures Epoch(Stamp(Date(1970, 1, 1), 0, 0, 0)) == 0
  {
    DaysAreConsecutive(s.date);
    TheEpochIsZero();
  }

  // A number in a fixed number of digits.
  function Pad(n: nat, width: nat): string {
    if width == 0 then "" else Pad(n / 10, width - 1) + ['0' + (n % 10) as char]
  }

  function Pow10(n: nat): nat { if n == 0 then 1 else 10 * Pow10(n - 1) }

  function Clock(s: Stamp): string
    requires ValidStamp(s)
  {
    Pad(s.hour, 2) + (":" + (Pad(s.minute, 2) + (":" + Pad(s.second, 2))))
  }

  function Day(s: Stamp): string
    requires ValidStamp(s)
  {
    Pad(s.date.month, 2) + ("-" + (Pad(s.date.day, 2) + ("T" + Clock(s))))
  }

  function Core(s: Stamp): string
    requires ValidStamp(s)
  {
    Pad(s.date.year, 4) + ("-" + Day(s))
  }

  function Text(s: Stamp): string
    requires ValidStamp(s)
  {
    Core(s) + "Z"
  }

  // The order of strings, character by character.
  predicate Sorts(a: string, b: string) {
    if b == "" then false
    else if a == "" then true
    else a[0] < b[0] || (a[0] == b[0] && Sorts(a[1..], b[1..]))
  }

  lemma {:induction false} SortsAfter(p: string, a: string, b: string)
    ensures Sorts(p + a, p + b) <==> Sorts(a, b)
  {
    if p == "" {
      assert p + a == a && p + b == b;
    } else {
      assert (p + a)[1..] == p[1..] + a && (p + b)[1..] == p[1..] + b;
      SortsAfter(p[1..], a, b);
    }
  }

  lemma SortsByChar(c: char, d: char, a: string, b: string)
    ensures Sorts([c] + a, [d] + b) <==> c < d || (c == d && Sorts(a, b))
  {
    assert ([c] + a)[1..] == a && ([d] + b)[1..] == b;
  }

  // Numbers of the same width sort as numbers, whatever follows.
  lemma {:induction false} PadSorts(m: nat, n: nat, width: nat, a: string, b: string)
    requires m < Pow10(width) && n < Pow10(width)
    ensures Sorts(Pad(m, width) + a, Pad(n, width) + b) <==> m < n || (m == n && Sorts(a, b))
    decreases width
  {
    if width == 0 {
      assert Pad(m, 0) + a == a && Pad(n, 0) + b == b;
    } else {
      var c, d := '0' + (m % 10) as char, '0' + (n % 10) as char;
      assert Pad(m, width) + a == Pad(m / 10, width - 1) + ([c] + a);
      assert Pad(n, width) + b == Pad(n / 10, width - 1) + ([d] + b);
      PadSorts(m / 10, n / 10, width - 1, [c] + a, [d] + b);
      SortsByChar(c, d, a, b);
    }
  }

  lemma FieldSorts(m: nat, n: nat, sep: string, a: string, b: string)
    requires m < 100 && n < 100
    ensures Sorts(Pad(m, 2) + (sep + a), Pad(n, 2) + (sep + b)) <==> m < n || (m == n && Sorts(a, b))
  {
    assert Pow10(2) == 100;
    PadSorts(m, n, 2, sep + a, sep + b);
    SortsAfter(sep, a, b);
  }

  lemma {:induction false} SortsBeforeTail(a: string, b: string, t: string)
    requires |a| == |b|
    ensures Sorts(a + t, b + t) <==> Sorts(a, b) || (a == b && Sorts(t, t))
    decreases |a|
  {
    if a == "" {
      assert a + t == t && b + t == t;
    } else {
      assert (a + t)[1..] == a[1..] + t && (b + t)[1..] == b[1..] + t;
      SortsBeforeTail(a[1..], b[1..], t);
      assert a == b <==> a[0] == b[0] && a[1..] == b[1..];
    }
  }

  lemma ClockSorts(a: Stamp, b: Stamp)
    requires ValidStamp(a) && ValidStamp(b)
    ensures Sorts(Clock(a), Clock(b)) <==>
            a.hour < b.hour || (a.hour == b.hour && (a.minute < b.minute || (a.minute == b.minute && a.second < b.second)))
  {
    assert Pow10(2) == 100;
    PadSorts(a.second, b.second, 2, "", "");
    assert Pad(a.second, 2) + "" == Pad(a.second, 2) && Pad(b.second, 2) + "" == Pad(b.second, 2);
    FieldSorts(a.minute, b.minute, ":", Pad(a.second, 2), Pad(b.second, 2));
    FieldSorts(a.hour, b.hour, ":", Pad(a.minute, 2) + (":" + Pad(a.second, 2)), Pad(b.minute, 2) + (":" + Pad(b.second, 2)));
  }

  lemma CoreSorts(a: Stamp, b: Stamp)
    requires ValidStamp(a) && ValidStamp(b)
    ensures Sorts(Core(a), Core(b)) <==> Before(a, b)
  {
    ClockSorts(a, b);
    FieldSorts(a.date.day, b.date.day, "T", Clock(a), Clock(b));
    FieldSorts(a.date.month, b.date.month, "-", Pad(a.date.day, 2) + ("T" + Clock(a)), Pad(b.date.day, 2) + ("T" + Clock(b)));
    assert Pow10(4) == 10000;
    PadSorts(a.date.year, b.date.year, 4, "-" + Day(a), "-" + Day(b));
    SortsAfter("-", Day(a), Day(b));
  }

  // For whole-second Z timestamps of the years 1 to 9999 the order of the
  // texts is the order of the epochs.
  lemma TextOrderIsEpochOrder(a: Stamp, b: Stamp)
    requires ValidStamp(a) && ValidStamp(b)
    ensures Sorts(Text(a), Text(b)) <==> Epoch(a) < Epoch(b)
  {
    EpochRises(a, b);
    CoreSorts(a, b);
    CoreLength(a);
    CoreLength(b);
    SortsBeforeTail(Core(a), Core(b), "Z");
    assert !Sorts("Z"[1..], "Z"[1..]);
  }

  lemma {:induction false} PadReads(n: nat, width: nat)
    requires n < Pow10(width)
    ensures |Pad(n, width)| == width && AllDigits(Pad(n, width)) && Value(Pad(n, width)) == n
    decreases width
  {
    if width > 0 {
      PadReads(n / 10, width - 1);
      var p := Pad(n, width);
      assert p[..|p| - 1] == Pad(n / 10, width - 1);
    }
  }

  lemma TwoDigits(n: nat)
    requires n < 100
    ensures |Pad(n, 2)| == 2 && AllDigits(Pad(n, 2)) && Value(Pad(n, 2)) == n
  {
    assert Pow10(2) == 100;
    PadReads(n, 2);
  }

  lemma FourDigits(n: nat)
    requires n < 10000
    ensures |Pad(n, 4)| == 4 && AllDigits(Pad(n, 4)) && Value(Pad(n, 4)) == n
  {
    assert Pow10(4) == 10000;
    PadReads(n, 4);
  }

  lemma ClockLength(s: Stamp)
    requires ValidStamp(s)
    ensures |Clock(s)| == 8 && Clock(s)[2] == ':'
  {
    TwoDigits(s.hour);
    TwoDigits(s.minute);
    TwoDigits(s.second);
  }

  lemma FieldBehind(field: string, sep: string, rest: string)
    requires |sep| == 1
    ensures var s := field + (sep + rest); |s| == |field| + 1 + |rest| && s[|field| + 1..] == rest
  {
  }

  lemma DayLength(s: Stamp)
    requires ValidStamp(s)
    ensures |Day(s)| == 14 && Day(s)[6..] == Clock(s)
  {
    ClockLength(s);
    TwoDigits(s.date.month);
    TwoDigits(s.date.day);
    FieldBehind(Pad(s.date.day, 2), "T", Clock(s));
    FieldBehind(Pad(s.date.month, 2), "-", Pad(s.date.day, 2) + ("T" + Clock(s)));
    assert Day(s)[6..] == Day(s)[3..][3..];
  }

  lemma CoreLength(s: Stamp)
    requires ValidStamp(s)
    ensures |Core(s)| == 19 && |Clock(s)| == 8 && Clock(s)[2] == ':' && Core(s)[11..] == Clock(s)
  {
    ClockLength(s);
    DayLength(s);
    FourDigits(s.date.year);
    FieldBehind(Pad(s.date.year, 4), "-", Day(s));
    assert Core(s)[11..] == Core(s)[5..][6..];
  }

  /* ---- Reading a timestamp back ---- */

  function Without(s: string, suffix: string): string {
    if |suffix| <= |s| && s[|s| - |suffix|..] == suffix then s[..|s| - |suffix|] else s
  }

  predicate Divides(c: char) { c == 'T' || c == ':' || c == '-' || c == ' ' || c == '\t' || c == '\n' }

  // The words between dividing characters; `cur` is the word begun.
  function Words(s: string, cur: string): seq<string> {
    if s == "" then (if cur == "" then [] else [cur])
    else if Divides(s[0]) then (if cur == "" then [] else [cur]) + Words(s[1..], "")
    else Words(s[1..], cur + [s[0]])
  }

  lemma {:induction false} NoEmptyWords(s: string, cur: string)
    ensures forall i :: 0 <= i < |Words(s, cur)| ==> Words(s, cur)[i] != ""
    decreases |s|
  {
    if s != "" {
      NoEmptyWords(s[1..], "");
      NoEmptyWords(s[1..], cur + [s[0]]);
    }
  }

  // A timestamp's six numbers, put together.
  function Together(w: seq<string>): int
    requires |w| == 6 && forall i :: 0 <= i < 6 ==> AllDigits(w[i])
  {
    Epoch(Stamp(Date(Value(w[0]), Value(w[1]), Value(w[2])), Value(w[3]), Value(w[4]), Value(w[5])))
  }

  // The guard's own reading, where `date` does not read the text.
  function EpochOf(text: string): Option<int> {
    var w := Words(Without(Without(Without(text, "Z"), "+00:00"), "-00:00"), "");
    if |w| < 6 || !(forall i :: 0 <= i < 6 ==> AllDigits(w[i])) then None
    else if !(1 <= Value(w[1]) <= 12) then None
    else Some(Together(w[..6]))
  }

  lemma {:induction false} WordFirst(word: string, cur: string, sep: char, rest: string)
    requires AllDigits(word) && Divides(sep) && cur + word != ""
    ensures Words(word + ([sep] + rest), cur) == [cur + word] + Words(rest, "")
    decreases |word|
  {
    var s := word + ([sep] + rest);
    if word == "" {
      assert s == [sep] + rest && s[1..] == rest;
      assert cur + word == cur;
    } else {
      assert s[0] == word[0] && Digit(word[0]);
      assert s[1..] == word[1..] + ([sep] + rest);
      WordFirst(word[1..], cur + [word[0]], sep, rest);
      assert cur + [word[0]] + word[1..] == cur + word;
    }
  }

  lemma {:induction false} WordAlone(word: string, cur: string)
    requires AllDigits(word) && cur + word != ""
    ensures Words(word, cur) == [cur + word]
    decreases |word|
  {
    if word == "" {
      assert cur + word == cur;
    } else {
      assert Digit(word[0]);
      WordAlone(word[1..], cur + [word[0]]);
      assert cur + [word[0]] + word[1..] == cur + word;
    }
  }

  lemma BareCore(c: string)
    requires |c| >= 6 && c[|c| - 6] == ':'
    ensures Without(Without(Without(c + "Z", "Z"), "+00:00"), "-00:00") == c
  {
    assert (c + "Z")[|c|..] == "Z" && (c + "Z")[..|c|] == c;
    assert c[|c| - 6..][0] == ':' && "+00:00"[0] == '+' && "-00:00"[0] == '-';
  }

  // A field, its divider, and the rest.
  lemma FieldFirst(word: string, sep: string, rest: string, words: seq<string>)
    requires AllDigits(word) && word != "" && |sep| == 1 && Divides(sep[0]) && Words(rest, "") == words
    ensures Words(word + (sep + rest), "") == [word] + words
  {
    assert sep == [sep[0]];
    assert "" + word == word;
    WordFirst(word, "", sep[0], rest);
  }

  lemma ClockWords(s: Stamp)
    requires ValidStamp(s)
    ensures Words(Clock(s), "") == [Pad(s.hour, 2)] + ([Pad(s.minute, 2)] + [Pad(s.second, 2)])
  {
    TwoDigits(s.hour);
    TwoDigits(s.minute);
    TwoDigits(s.second);
    WordAlone(Pad(s.second, 2), "");
    assert "" + Pad(s.second, 2) == Pad(s.second, 2);
    FieldFirst(Pad(s.minute, 2), ":", Pad(s.second, 2), [Pad(s.second, 2)]);
    FieldFirst(Pad(s.hour, 2), ":", Pad(s.minute, 2) + (":" + Pad(s.second, 2)), [Pad(s.minute, 2)] + [Pad(s.second, 2)]);
  }

  lemma CoreWords(s: Stamp)
    requires ValidStamp(s)
    ensures Words(Core(s), "") ==
            [Pad(s.date.year, 4)] + ([Pad(s.date.month, 2)] + ([Pad(s.date.day, 2)] + Words(Clock(s), "")))
  {
    FourDigits(s.date.year);
    TwoDigits(s.date.month);
    TwoDigits(s.date.day);
    var day := Pad(s.date.day, 2) + ("T" + Clock(s));
    FieldFirst(Pad(s.date.day, 2), "T", Clock(s), Words(Clock(s), ""));
    FieldFirst(Pad(s.date.month, 2), "-", day, Words(day, ""));
    FieldFirst(Pad(s.date.year, 4), "-", Day(s), Words(Day(s), ""));
  }

  lemma SixInAll(a: string, b: string, c: string, d: string, e: string, f: string)
    ensures [a] + ([b] + ([c] + ([d] + ([e] + [f])))) == [a, b, c, d, e, f]
  {
  }

  lemma TextWords(s: Stamp)
    requires ValidStamp(s)
    ensures Words(Without(Without(Without(Text(s), "Z"), "+00:00"), "-00:00"), "") ==
            [Pad(s.date.year, 4), Pad(s.date.month, 2), Pad(s.date.day, 2), Pad(s.hour, 2), Pad(s.minute, 2), Pad(s.second, 2)]
  {
    CoreLength(s);
    assert Core(s)[13] == Core(s)[11..][2];
    BareCore(Core(s));
    ClockWords(s);
    CoreWords(s);
    SixInAll(Pad(s.date.year, 4), Pad(s.date.month, 2), Pad(s.date.day, 2), Pad(s.hour, 2), Pad(s.minute, 2), Pad(s.second, 2));
  }

  lemma Assembled(s: Stamp, year: string, month: string, day: string, hour: string, minute: string, second: string)
    requires AllDigits(year) && AllDigits(month) && AllDigits(day) && AllDigits(hour) && AllDigits(minute) && AllDigits(second)
    requires Value(year) == s.date.year && Value(month) == s.date.month && Value(day) == s.date.day
    requires Value(hour) == s.hour && Value(minute) == s.minute && Value(second) == s.second
    ensures var w := [year, month, day, hour, minute, second];
            (forall i :: 0 <= i < 6 ==> AllDigits(w[i])) && Value(w[1]) == s.date.month && Together(w) == Epoch(s)
  {
  }

  lemma WordsTogether(s: Stamp)
    requires ValidStamp(s)
    ensures var w := [Pad(s.date.year, 4), Pad(s.date.month, 2), Pad(s.date.day, 2), Pad(s.hour, 2), Pad(s.minute, 2), Pad(s.second, 2)];
            (forall i :: 0 <= i < 6 ==> AllDigits(w[i])) && Value(w[1]) == s.date.month && Together(w) == Epoch(s)
  {
    FourDigits(s.date.year);
    TwoDigits(s.date.month);
    TwoDigits(s.date.day);
    TwoDigits(s.hour);
    TwoDigits(s.minute);
    TwoDigits(s.second);
    Assembled(s, Pad(s.date.year, 4), Pad(s.date.month, 2), Pad(s.date.day, 2), Pad(s.hour, 2), Pad(s.minute, 2), Pad(s.second, 2));
  }

  // Every whole-second timestamp is read back to its epoch.
  lemma TimestampsReadBack(s: Stamp)
    requires ValidStamp(s)
    ensures EpochOf(Text(s)) == Some(Epoch(s))
  {
    TextWords(s);
    WordsTogether(s);
  }

  // Leading zeros go one at a time, never the last digit, and never change the number.
  method StripZeros(v: string) returns (r: string)
    requires AllDigits(v)
    ensures AllDigits(r) && Value(r) == Value(v) && r != ""
    ensures r[0] != '0' || r == "0"
  {
    r := v;
    while |r| > 1 && r[0] == '0'
      invariant AllDigits(r) && Value(r) == Value(v)
      decreases |r|
    {
      ZeroFirst(r);
      r := r[1..];
    }
    if r == "" {
      r := "0";
      assert r[..0] == "";
    }
  }

  lemma {:induction false} ZeroFirst(s: string)
    requires AllDigits(s) && s != "" && s[0] == '0'
    ensures AllDigits(s[1..]) && Value(s[1..]) == Value(s)
    decreases |s|
  {
    if |s| > 1 {
      ZeroFirst(s[..|s| - 1]);
      assert s[..|s| - 1][1..] == s[1..][..|s[1..]| - 1];
    } else {
      assert s[..0] == "";
    }
  }

  /* ---- The schema's date pattern ---- */

  function At(s: string, i: nat): int
    requires i < |s| && Digit(s[i])
  {
    (s[i] - '0') as int
  }

  // Four digits, two and two, with hyphens.
  predicate Shaped(s: string) {
    |s| == 10 && s[4] == '-' && s[7] == '-' && forall i :: 0 <= i < 10 && i != 4 && i != 7 ==> Digit(s[i])
  }

  predicate Among(x: int, xs: seq<int>) { x in xs }

  // A year ending as leap years do, on 29 February.
  predicate LeapDay(s: string)
    requires Shaped(s)
  {
    var a, b, c, d := At(s, 0), At(s, 1), At(s, 2), At(s, 3);
    && s[5..] == "02-29"
    && ((Among(c, [2, 4, 6, 8]) && Among(d, [0, 4, 8]))
        || (Among(c, [1, 3, 5, 7, 9]) && Among(d, [2, 6]))
        || (c == 0 && Among(d, [4, 8]))
        || (Among(a, [0, 2, 4, 6, 8]) && Among(b, [0, 4, 8]) && c == 0 && d == 0)
        || (Among(a, [1, 3, 5, 7, 9]) && Among(b, [2, 6]) && c == 0 && d == 0))
  }

  // Any year: the long months, the short ones, February to the 28th.
  predicate CommonDay(s: string)
    requires Shaped(s)
  {
    var m, n, x, y := At(s, 5), At(s, 6), At(s, 8), At(s, 9);
    || (((m == 0 && Among(n, [1, 3, 5, 7, 8])) || (m == 1 && Among(n, [0, 2])))
        && ((x == 0 && 1 <= y) || x == 1 || x == 2 || (x == 3 && Among(y, [0, 1]))))
    || (((m == 0 && Among(n, [4, 6, 9])) || (m == 1 && n == 1))
        && ((x == 0 && 1 <= y) || x == 1 || x == 2 || (x == 3 && y == 0)))
    || (m == 0 && n == 2 && ((x == 0 && 1 <= y) || x == 1 || (x == 2 && y <= 8)))
  }

  predicate Accepts(s: string) { Shaped(s) && (LeapDay(s) || CommonDay(s)) }

  function Read(s: string): Date
    requires Shaped(s)
  {
    Date(1000 * At(s, 0) + 100 * At(s, 1) + 10 * At(s, 2) + At(s, 3), 10 * At(s, 5) + At(s, 6), 10 * At(s, 8) + At(s, 9))
  }

  lemma Remainder4(x: int, q: int, r: int)
    requires x == 4 * q + r && 0 <= r < 4
    ensures x % 4 == r
  {
  }

  lemma Remainder100(x: int, q: int, r: int)
    requires x == 100 * q + r && 0 <= r < 100
    ensures x % 100 == r
  {
  }

  lemma Remainder400(x: int, q: int, r: int)
    requires x == 400 * q + r && 0 <= r < 400
    ensures x % 400 == r
  {
  }

  lemma LeapByDigits(a: int, b: int, c: int, d: int)
    requires 0 <= a < 10 && 0 <= b < 10 && 0 <= c < 10 && 0 <= d < 10
    ensures var y := 1000 * a + 100 * b + 10 * c + d;
            Leap(y) <==> (if c == 0 && d == 0 then (2 * a + b) % 4 == 0 else (2 * c + d) % 4 == 0)
  {
    var y := 1000 * a + 100 * b + 10 * c + d;
    var q, r := (2 * c + d) / 4, (2 * c + d) % 4;
    Remainder4(y, 250 * a + 25 * b + 2 * c + q, r);
    Remainder100(y, 10 * a + b, 10 * c + d);
    if c == 0 && d == 0 {
      var p, t := (2 * a + b) / 4, (2 * a + b) % 4;
      Remainder400(y, 2 * a + p, 100 * t);
    }
  }

  lemma EndsLikeALeapDay(s: string)
    requires Shaped(s)
    ensures s[5..] == "02-29" <==> At(s, 5) == 0 && At(s, 6) == 2 && At(s, 8) == 2 && At(s, 9) == 9
  {
    var t, u := "02-29", s[5..];
    assert t[0] == '0' && t[1] == '2' && t[2] == '-' && t[3] == '2' && t[4] == '9';
    assert |u| == 5 && forall k :: 0 <= k < 5 ==> u[k] == s[5 + k];
    assert u == t <==> u[0] == t[0] && u[1] == t[1] && u[2] == t[2] && u[3] == t[3] && u[4] == t[4];
  }

  lemma CommonDays(s: string)
    requires Shaped(s)
    ensures var d := Read(s);
            CommonDay(s) <==> 1 <= d.month <= 12 && 1 <= d.day <= if d.month == 2 then 28 else DaysIn(d.year, d.month)
  {
  }

  // The pattern takes exactly the dates of the Gregorian calendar, years 0000 to 9999.
  lemma PatternIsTheCalendar(s: string)
    ensures Accepts(s) <==> Shaped(s) && Valid(Read(s))
  {
    if Shaped(s) {
      var a, b, c, d := At(s, 0), At(s, 1), At(s, 2), At(s, 3);
      LeapByDigits(a, b, c, d);
      EndsLikeALeapDay(s);
      CommonDays(s);
      Classes(a, b);
      Classes(c, d);
    }
  }

  lemma Classes(c: int, d: int)
    requires 0 <= c < 10 && 0 <= d < 10
    ensures (2 * c + d) % 4 == 0 <==>
            (Among(c, [0, 2, 4, 6, 8]) && Among(d, [0, 4, 8])) || (Among(c, [1, 3, 5, 7, 9]) && Among(d, [2, 6]))
  {
  }
}
