/**
 * Fixed-width timestamps. The program compares `toISOString` values as strings (`laterOf`); this module
 * proves that comparison chronological, from the calendar up (section 5.1 of RFC 3339).
 */
module Timestamps {
  import opened Base

  /** A UTC instant by its calendar fields, for the four-digit years the format covers. */
  datatype Stamp = Stamp(year: nat, month: nat, day: nat, hour: nat, minute: nat, second: nat, milli: nat)

  ghost predicate Valid(s: Stamp)
  {
    && s.year < 10000 && 1 <= s.month <= 12 && 1 <= s.day <= MonthLength(s.year, s.month)
    && s.hour < 24 && s.minute < 60 && s.second < 60 && s.milli < 1000
  }

  predicate IsLeap(year: nat)
  {
    year % 4 == 0 && (year % 100 != 0 || year % 400 == 0)
  }

  function MonthLength(year: nat, month: nat): nat
  {
    if month == 2 then (if IsLeap(year) then 29 else 28)
    else if month in {4, 6, 9, 11} then 30 else 31
  }

  /** Days from the start of the year to the start of the month. */
  function MonthStart(year: nat, month: nat): nat
  {
    if month <= 1 then 0 else MonthStart(year, month - 1) + MonthLength(year, month - 1)
  }

  /** Days from the start of year 0 to the start of the year. */
  function YearStart(year: nat): nat
  {
    if year == 0 then 0 else YearStart(year - 1) + MonthStart(year - 1, 13)
  }

  function TimeOfDay(s: Stamp): nat
  {
    ((s.hour * 60 + s.minute) * 60 + s.second) * 1000 + s.milli
  }

  /** Milliseconds since the start of year 0: what `getTime` measures, up to its origin. */
  function Instant(s: Stamp): int
  {
    (YearStart(s.year) + MonthStart(s.year, s.month) + s.day - 1) * 86400000 + TimeOfDay(s)
  }

  // ---------------------------------------------------------------------------------------------
  // Field order is chronological order
  // ---------------------------------------------------------------------------------------------

  predicate LexLess(a: seq<nat>, b: seq<nat>)
  {
    if a == [] || b == [] then a == [] && b != []
    else a[0] < b[0] || (a[0] == b[0] && LexLess(a[1..], b[1..]))
  }

  function Fields(s: Stamp): seq<nat>
  {
    [s.year, s.month, s.day, s.hour, s.minute, s.second, s.milli]
  }

  lemma {:induction false} MonthsAdvance(year: nat, m: nat, m': nat)
    requires 1 <= m < m'
    ensures MonthStart(year, m) + MonthLength(year, m) <= MonthStart(year, m')
    decreases m'
  {
    if m + 1 < m' { MonthsAdvance(year, m, m' - 1); }
  }

  lemma {:induction false} YearsAdvance(y: nat, y': nat)
    requires y < y'
    ensures YearStart(y) + MonthStart(y, 13) <= YearStart(y')
    decreases y'
  {
    if y + 1 < y' { YearsAdvance(y, y' - 1); }
  }

  lemma EarlierFieldsEarlierInstant(a: Stamp, b: Stamp)
    requires Valid(a) && Valid(b) && LexLess(Fields(a), Fields(b))
    ensures Instant(a) < Instant(b)
  {
    var dayA := YearStart(a.year) + MonthStart(a.year, a.month) + a.day;
    var dayB := YearStart(b.year) + MonthStart(b.year, b.month) + b.day;
    LexFields(a, b);
    if a.year < b.year {
      MonthsAdvance(a.year, a.month, 13);
      YearsAdvance(a.year, b.year);
      assert dayA < dayB;
    } else if a.month < b.month {
      MonthsAdvance(a.year, a.month, b.month);
      assert dayA < dayB;
    } else if a.day < b.day {
      assert dayA < dayB;
    } else {
      assert dayA == dayB;
      assert TimeOfDay(a) < TimeOfDay(b);
    }
  }

  lemma LexCons(x: nat, xs: seq<nat>, y: nat, ys: seq<nat>)
    ensures LexLess([x] + xs, [y] + ys) <==> x < y || (x == y && LexLess(xs, ys))
  {
    assert ([x] + xs)[1..] == xs && ([y] + ys)[1..] == ys;
  }

  /** The order on all seven fields, unrolled. */
  lemma LexFields(a: Stamp, b: Stamp)
    ensures LexLess(Fields(a), Fields(b)) <==>
            a.year < b.year || (a.year == b.year &&
            (a.month < b.month || (a.month == b.month &&
            (a.day < b.day || (a.day == b.day &&
            (a.hour < b.hour || (a.hour == b.hour &&
            (a.minute < b.minute || (a.minute == b.minute &&
            (a.second < b.second || (a.second == b.second && a.milli < b.milli)))))))))))
  {
    var a6, b6 := [a.milli], [b.milli];
    var a5, b5 := [a.second] + a6, [b.second] + b6;
    var a4, b4 := [a.minute] + a5, [b.minute] + b5;
    var a3, b3 := [a.hour] + a4, [b.hour] + b4;
    var a2, b2 := [a.day] + a3, [b.day] + b3;
    var a1, b1 := [a.month] + a2, [b.month] + b2;
    assert Fields(a) == [a.year] + a1 && Fields(b) == [b.year] + b1;
    LexCons(a.year, a1, b.year, b1);
    LexCons(a.month, a2, b.month, b2);
    LexCons(a.day, a3, b.day, b3);
    LexCons(a.hour, a4, b.hour, b4);
    LexCons(a.minute, a5, b.minute, b5);
    LexCons(a.second, a6, b.second, b6);
    assert LexLess(a6, b6) <==> a.milli < b.milli;
  }

  lemma {:induction false} LexTotal(a: seq<nat>, b: seq<nat>)
    requires |a| == |b|
    ensures a == b || LexLess(a, b) || LexLess(b, a)
  {
    if a != [] {
      LexTotal(a[1..], b[1..]);
      assert a == [a[0]] + a[1..] && b == [b[0]] + b[1..];
    }
  }

  // ---------------------------------------------------------------------------------------------
  // Rendering
  // ---------------------------------------------------------------------------------------------

  function Pow10(w: nat): nat
  {
    if w == 0 then 1 else 10 * Pow10(w - 1)
  }

  /** The decimal numeral of `n`, zero-padded to `w` digits. */
  function Numeral(n: nat, w: nat): (s: string)
    ensures |s| == w
  {
    if w == 0 then "" else Numeral(n / 10, w - 1) + [(48 + n % 10) as char]
  }

  lemma {:induction false} NumeralOrder(n: nat, m: nat, w: nat)
    requires n < Pow10(w) && m < Pow10(w)
    ensures StringLess(Numeral(n, w), Numeral(m, w)) <==> n < m
    ensures Numeral(n, w) == Numeral(m, w) <==> n == m
  {
    if w > 0 {
      NumeralOrder(n / 10, m / 10, w - 1);
      var a, b := Numeral(n / 10, w - 1), Numeral(m / 10, w - 1);
      var x, y := [(48 + n % 10) as char], [(48 + m % 10) as char];
      StringLessConcat(a, x, b, y);
      assert StringLess(x, y) <==> n % 10 < m % 10;
      assert (a + x == b + y) <==> (a == b && x == y) by {
        if a + x == b + y {
          assert a == (a + x)[..|a|] && b == (b + y)[..|b|];
          assert x == (a + x)[|a|..] && y == (b + y)[|b|..];
        }
      }
    }
  }

  /** Fields of fixed widths, each followed by a fixed separator. */
  function Render(fields: seq<nat>, widths: seq<nat>, separators: seq<string>): string
    requires |fields| == |widths| == |separators|
  {
    if fields == [] then ""
    else Numeral(fields[0], widths[0]) + (separators[0] + Render(fields[1..], widths[1..], separators[1..]))
  }

  lemma {:induction false} RenderOrder(a: seq<nat>, b: seq<nat>, widths: seq<nat>, separators: seq<string>)
    requires |a| == |b| == |widths| == |separators|
    requires forall i | 0 <= i < |a| :: a[i] < Pow10(widths[i]) && b[i] < Pow10(widths[i])
    ensures StringLess(Render(a, widths, separators), Render(b, widths, separators)) <==> LexLess(a, b)
  {
    if a != [] {
      RenderOrder(a[1..], b[1..], widths[1..], separators[1..]);
      var restA, restB := Render(a[1..], widths[1..], separators[1..]), Render(b[1..], widths[1..], separators[1..]);
      NumeralOrder(a[0], b[0], widths[0]);
      StringLessConcat(Numeral(a[0], widths[0]), separators[0] + restA, Numeral(b[0], widths[0]), separators[0] + restB);
      StringLessConcat(separators[0], restA, separators[0], restB);
      StringLessTrichotomy(separators[0], separators[0]);
    }
  }

  const WIDTHS: seq<nat> := [4, 2, 2, 2, 2, 2, 3]
  const SEPARATORS: seq<string> := ["-", "-", "T", ":", ":", ".", "Z"]

  /** `toISOString`: `YYYY-MM-DDTHH:mm:ss.sssZ`. */
  function Iso(s: Stamp): string
  {
    Render(Fields(s), WIDTHS, SEPARATORS)
  }

  /** Comparing two rendered timestamps as strings compares the instants they denote. */
  lemma StringOrderIsChronological(a: Stamp, b: Stamp)
    requires Valid(a) && Valid(b)
    ensures StringLess(Iso(a), Iso(b)) <==> Instant(a) < Instant(b)
    ensures Instant(a) == Instant(b) <==> a == b
  {
    FieldsFit(a);
    FieldsFit(b);
    RenderOrder(Fields(a), Fields(b), WIDTHS, SEPARATORS);
    LexTotal(Fields(a), Fields(b));
    if LexLess(Fields(a), Fields(b)) {
      EarlierFieldsEarlierInstant(a, b);
    } else if LexLess(Fields(b), Fields(a)) {
      EarlierFieldsEarlierInstant(b, a);
    } else {
      assert Fields(a)[0] == a.year && Fields(a)[1] == a.month && Fields(a)[2] == a.day && Fields(a)[3] == a.hour
             && Fields(a)[4] == a.minute && Fields(a)[5] == a.second && Fields(a)[6] == a.milli;
      assert a == b;
    }
  }

  lemma FieldsFit(s: Stamp)
    requires Valid(s)
    ensures forall i | 0 <= i < |Fields(s)| :: Fields(s)[i] < Pow10(WIDTHS[i])
  {
    assert Pow10(2) == 100 && Pow10(3) == 1000 && Pow10(4) == 10000;
  }
}
