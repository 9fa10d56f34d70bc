/**
 * The strings the dashboard compares: decimal renderings of numbers, the
 * date prefix of `Date.prototype.toISOString`, the `YYYY-MM` month key
 * (`monthKey(iso) = iso.slice(0, 7)`), the key the dashboard builds for the
 * current month, the `split("-").map(Number)` reading of a key, JavaScript's
 * `<` on strings, and the lower-casing used to recognise card payments.
 */
module IsoText {
  import opened Wrappers
  import opened Calendar

  predicate IsDigit(c: char)
  {
    '0' <= c <= '9'
  }

  predicate AllDigits(s: string)
  {
    forall i :: 0 <= i < |s| ==> IsDigit(s[i])
  }

  function DigitChar(d: int): (c: char)
    requires 0 <= d < 10
    ensures IsDigit(c)
  {
    (48 + d) as char
  }

  function DigitValue(c: char): (d: nat)
    requires IsDigit(c)
    ensures d < 10 && DigitChar(d) == c
  {
    c as int - 48
  }

  function Pow10(w: nat): (p: nat)
    ensures p >= 1
  {
    if w == 0 then 1 else 10 * Pow10(w - 1)
  }

  /** `String(n)` for a non-negative integer: decimal digits, no leading zeros. */
  function IntText(n: nat): (s: string)
    ensures |s| >= 1
    decreases n
  {
    if n < 10 then [DigitChar(n)] else IntText(n / 10) + [DigitChar(n % 10)]
  }

  /** `${n}` for any integer. */
  function IntegerText(n: int): string
  {
    if n < 0 then "-" + IntText(-n) else IntText(n)
  }

  function Zeros(k: nat): (s: string)
    ensures |s| == k
  {
    seq(k, _ => '0')
  }

  /** `s.padStart(w, "0")`: left-pad with zeros to width `w`, never truncating. */
  function PadStart(s: string, w: nat): (r: string)
    ensures |r| == if |s| >= w then |s| else w
  {
    if |s| >= w then s else Zeros(w - |s|) + s
  }

  /** The last `w` decimal digits of `x`, zero-padded. */
  function Fixed(x: nat, w: nat): (s: string)
    ensures |s| == w && AllDigits(s)
  {
    if w == 0 then [] else Fixed(x / 10, w - 1) + [DigitChar(x % 10)]
  }

  /** The year field of `toISOString`: four digits, or a sign and six digits outside 0..9999. */
  function IsoYear(y: int): (s: string)
    ensures |s| >= 4
  {
    if 0 <= y <= 9999 then PadStart(IntText(y), 4)
    else (if y < 0 then "-" else "+") + PadStart(IntText(if y < 0 then -y else y), 6)
  }

  /** The date part `YYYY-MM-DD` of `toISOString` for a day. */
  function IsoDate(d: Day): string
  {
    IsoYear(d.year) + "-" + PadStart(IntText(d.month), 2) + "-" + PadStart(IntText(d.day), 2)
  }

  /** `monthKey(iso) = iso.slice(0, 7)`: the first seven characters, or all of a shorter string. */
  function MonthKey(iso: string): (k: string)
    ensures |k| == if |iso| < 7 then |iso| else 7
    ensures k == iso[..|k|]
  {
    if |iso| <= 7 then iso else iso[..7]
  }

  /** The month key of any instant in month `k`, i.e. `monthKey(date.toISOString())`. */
  function MonthText(k: Month): string
  {
    MonthKey(IsoYear(k.year) + "-" + PadStart(IntText(k.month), 2))
  }

  /**
   * The key the dashboard builds for a month: `${year}-${String(month).padStart(2, "0")}`.
   * The year is left as `String` renders it; a month below 100 takes exactly two digits.
   */
  function CurrentKey(k: Month): (r: string)
    ensures k.month < 100 ==> r == IntegerText(k.year) + "-" + Fixed(k.month, 2)
  {
    if k.month < 100 then
      PadFixed(k.month, 2);
      IntegerText(k.year) + "-" + PadStart(IntText(k.month), 2)
    else IntegerText(k.year) + "-" + PadStart(IntText(k.month), 2)
  }

  // ---------------------------------------------------------------------------
  // Reading a key back: `const [y, m] = month.split("-").map(Number)`

  function IndexOf(s: string, c: char): (i: nat)
    ensures i <= |s|
    ensures i < |s| ==> s[i] == c
    ensures forall j :: 0 <= j < i ==> s[j] != c
  {
    if s == [] then 0 else if s[0] == c then 0 else 1 + IndexOf(s[1..], c)
  }

  /** `Number(s)` for a non-empty string of decimal digits. */
  function ParseNat(s: string): nat
    requires AllDigits(s)
  {
    if s == [] then 0 else ParseNat(s[..|s| - 1]) * 10 + DigitValue(s[|s| - 1])
  }

  /**
   * The first two `-`-separated fields of a key read as numbers, when both are
   * non-empty decimal digit strings; `None` for every other shape.
   */
  function SplitKey(s: string): (r: Option<(nat, nat)>)
    ensures (forall i :: 0 <= i < |s| ==> s[i] != '-') ==> r.None?
  {
    var i := IndexOf(s, '-');
    if i == |s| then None
    else
      var rest := s[i + 1..];
      var a, b := s[..i], rest[..IndexOf(rest, '-')];
      if a != [] && b != [] && AllDigits(a) && AllDigits(b) then Some((ParseNat(a), ParseNat(b)))
      else None
  }

  // ---------------------------------------------------------------------------
  // JavaScript `a < b` on strings: lexicographic on characters, a proper prefix first.

  predicate LessThan(a: string, b: string)
  {
    if b == [] then false
    else if a == [] then true
    else if a[0] != b[0] then a[0] < b[0]
    else LessThan(a[1..], b[1..])
  }

  // ---------------------------------------------------------------------------
  // `s.toLowerCase().includes(t)`

  function LowerChar(c: char): char
  {
    if 'A' <= c <= 'Z' then (c as int + 32) as char else c
  }

  /** Lower-casing of the letters A..Z; every other character is kept. */
  function Lower(s: string): (r: string)
    ensures |r| == |s|
    ensures forall i :: 0 <= i < |s| ==> r[i] == LowerChar(s[i])
  {
    seq(|s|, i requires 0 <= i < |s| => LowerChar(s[i]))
  }

  /** `s.includes(t)`: `t` occurs in `s` at some position. */
  predicate Contains(s: string, t: string)
  {
    t <= s || (s != [] && Contains(s[1..], t))
  }

  /** `t` is the slice of `s` that starts at position `i`. */
  predicate OccursAt(s: string, t: string, i: int)
  {
    0 <= i <= |s| - |t| && s[i..i + |t|] == t
  }

  lemma OccursShift(s: string, t: string, i: nat)
    requires s != []
    ensures OccursAt(s[1..], t, i) <==> OccursAt(s, t, i + 1)
  {
    if 0 <= i <= |s| - 1 - |t| {
      assert s[1..][i..i + |t|] == s[i + 1..i + 1 + |t|];
    }
  }

  /** `Contains` finds `t` exactly when `t` occurs in `s` at some position. */
  lemma {:induction false} ContainsAt(s: string, t: string)
    ensures Contains(s, t) <==> exists i :: OccursAt(s, t, i)
  {
    assert t <= s <==> OccursAt(s, t, 0);
    if s != [] {
      var r := s[1..];
      ContainsAt(r, t);
      if exists i :: OccursAt(r, t, i) {
        var i :| OccursAt(r, t, i);
        OccursShift(s, t, i);
      }
      if exists i :: OccursAt(s, t, i) {
        var i :| OccursAt(s, t, i);
        if i > 0 {
          OccursShift(s, t, i - 1);
        }
      }
    } else {
      if exists i :: OccursAt(s, t, i) {
        var i :| OccursAt(s, t, i);
        assert i == 0 && t == [];
      }
    }
  }

  // ---------------------------------------------------------------------------
  // Lemmas

  /** The month key of a day's ISO date is the month key of its month. */
  lemma MonthKeyOfIsoDate(d: Day)
    ensures MonthKey(IsoDate(d)) == MonthText(MonthOf(d))
  {
    var p := IsoYear(d.year) + "-" + PadStart(IntText(d.month), 2);
    assert |p| >= 7;
    PrefixOfAppend(p, "-", 7);
    PrefixOfAppend(p + "-", PadStart(IntText(d.day), 2), 7);
    assert p[..7] == MonthKey(p);
  }

  lemma PrefixOfAppend(p: string, q: string, n: nat)
    requires n <= |p|
    ensures (p + q)[..n] == p[..n]
  {
  }

  lemma FixedZero(w: nat)
    ensures Fixed(0, w) == Zeros(w)
  {
    if w > 0 {
      FixedZero(w - 1);
    }
  }

  lemma {:induction false} IntTextLength(n: nat, w: nat)
    requires 1 <= w && n < Pow10(w)
    ensures |IntText(n)| <= w
    ensures n >= Pow10(w - 1) ==> |IntText(n)| == w
  {
    if n >= 10 {
      IntTextLength(n / 10, w - 1);
    } else if w > 1 {
      assert Pow10(w - 1) >= 10 by { PowMonotone(w - 1); }
    }
  }

  lemma PowMonotone(w: nat)
    requires w >= 1
    ensures Pow10(w) >= 10
  {
  }

  /** Zero-padding `String(x)` to a width that holds all its digits gives the fixed-width digits. */
  lemma {:induction false} PadFixed(x: nat, w: nat)
    requires 1 <= w && x < Pow10(w)
    ensures PadStart(IntText(x), w) == Fixed(x, w)
  {
    var c := DigitChar(x % 10);
    if x < 10 {
      FixedZero(w - 1);
      assert Fixed(x, w) == Fixed(0, w - 1) + [c];
    } else {
      var s := IntText(x / 10);
      assert x / 10 < Pow10(w - 1);
      PadFixed(x / 10, w - 1);
      IntTextLength(x / 10, w - 1);
      assert IntText(x) == s + [c];
      PadAppend(s, c, w);
    }
  }

  lemma PadAppend(s: string, c: char, w: nat)
    requires 1 <= w && |s| <= w - 1
    ensures PadStart(s + [c], w) == PadStart(s, w - 1) + [c]
  {
    if |s| < w - 1 {
      assert Zeros(w - |s| - 1) + (s + [c]) == (Zeros(w - 1 - |s|) + s) + [c];
    }
  }

  /** Reading fixed-width digits gives the number back. */
  lemma {:induction false} ParseFixed(x: nat, w: nat)
    requires x < Pow10(w)
    ensures ParseNat(Fixed(x, w)) == x
  {
    if w > 0 {
      var s := Fixed(x, w);
      assert s[..w - 1] == Fixed(x / 10, w - 1);
      ParseFixed(x / 10, w - 1);
    }
  }

  /** `String(n)` is a digit string that `Number` reads back as `n`. */
  lemma {:induction false} IntTextDigits(n: nat)
    ensures AllDigits(IntText(n)) && ParseNat(IntText(n)) == n
    decreases n
  {
    if n >= 10 {
      var s, p := IntText(n), IntText(n / 10);
      IntTextDigits(n / 10);
      assert s == p + [DigitChar(n % 10)];
      assert s[..|s| - 1] == p;
    }
  }

  /** Reading a key `${y}-${m}` written in plain decimal gives back `y` and `m`. */
  lemma SplitKeyRoundTrip(y: nat, m: nat)
    ensures SplitKey(IntText(y) + "-" + IntText(m)) == Some((y, m))
  {
    IntTextDigits(y);
    IntTextDigits(m);
    SplitDigits(IntText(y), IntText(m));
  }

  /** Two digit runs joined by a dash split back into their numbers. */
  lemma SplitDigits(a: string, b: string)
    requires a != [] && b != [] && AllDigits(a) && AllDigits(b)
    ensures SplitKey(a + "-" + b) == Some((ParseNat(a), ParseNat(b)))
  {
    var s := a + "-" + b;
    assert s == a + ("-" + b);
    IndexOfAfterDigits(a, "-" + b);
    var i := IndexOf(s, '-');
    assert i == |a|;
    var rest := s[i + 1..];
    assert s[..i] == a && rest == b;
    IndexOfAfterDigits(b, []);
    assert b + [] == b;
    assert rest[..IndexOf(rest, '-')] == b;
  }

  /** A dash is searched for past a run of digits. */
  lemma {:induction false} IndexOfAfterDigits(a: string, t: string)
    requires AllDigits(a)
    ensures IndexOf(a + t, '-') == |a| + IndexOf(t, '-')
  {
    if a != [] {
      assert (a + t)[0] == a[0] && IsDigit(a[0]);
      assert (a + t)[1..] == a[1..] + t;
      assert AllDigits(a[1..]);
      IndexOfAfterDigits(a[1..], t);
    } else {
      assert a + t == t;
    }
  }

  /** For `|s1| == |s2|`, comparing `s1 + t1` with `s2 + t2` compares the heads first. */
  lemma {:induction false} LessThanAppend(s1: string, t1: string, s2: string, t2: string)
    requires |s1| == |s2|
    ensures LessThan(s1 + t1, s2 + t2) <==> LessThan(s1, s2) || (s1 == s2 && LessThan(t1, t2))
  {
    if s1 == [] {
      assert s1 + t1 == t1 && s2 + t2 == t2;
    } else {
      assert (s1 + t1)[0] == s1[0] && (s2 + t2)[0] == s2[0];
      assert (s1 + t1)[1..] == s1[1..] + t1 && (s2 + t2)[1..] == s2[1..] + t2;
      LessThanAppend(s1[1..], t1, s2[1..], t2);
      if s1[0] == s2[0] {
        assert s1 == s2 <==> s1[1..] == s2[1..] by {
          assert s1 == [s1[0]] + s1[1..] && s2 == [s2[0]] + s2[1..];
        }
      }
    }
  }

  /** Fixed-width digit strings compare lexically as their numbers compare. */
  lemma {:induction false} FixedOrder(x: nat, y: nat, w: nat)
    requires x < Pow10(w) && y < Pow10(w)
    ensures LessThan(Fixed(x, w), Fixed(y, w)) <==> x < y
    ensures Fixed(x, w) == Fixed(y, w) <==> x == y
  {
    ParseFixed(x, w);
    ParseFixed(y, w);
    if w > 0 {
      FixedOrder(x / 10, y / 10, w - 1);
      LessThanAppend(Fixed(x / 10, w - 1), [DigitChar(x % 10)], Fixed(y / 10, w - 1), [DigitChar(y % 10)]);
      assert LessThan([DigitChar(x % 10)], [DigitChar(y % 10)]) <==> x % 10 < y % 10;
    }
  }

  /** Between 1000 and 9999 the template literal's year is already four digits. */
  lemma FourDigitYear(y: int)
    requires 1000 <= y <= 9999
    ensures IntegerText(y) == IsoYear(y) == Fixed(y, 4)
  {
    IntTextLength(y, 4);
    PadFixed(y, 4);
  }

  /** For years 0..9999 the month key is `YYYY-MM`, exactly seven characters. */
  lemma MonthTextDigits(k: Month)
    requires k.Valid() && 0 <= k.year <= 9999
    ensures MonthText(k) == Fixed(k.year, 4) + "-" + Fixed(k.month, 2)
    ensures |MonthText(k)| == 7
  {
    PadFixed(k.year, 4);
    PadFixed(k.month, 2);
  }

  /** The dashboard's current-month key agrees with the ISO month key for four-digit years. */
  lemma CurrentKeyIsMonthText(k: Month)
    requires k.Valid() && 1000 <= k.year <= 9999
    ensures CurrentKey(k) == MonthText(k)
  {
    FourDigitYear(k.year);
    MonthTextDigits(k);
    PadFixed(k.month, 2);
  }

  /** Reading the month key of `k` back gives its year and month. */
  lemma SplitMonthText(k: Month)
    requires k.Valid() && 0 <= k.year <= 9999
    ensures SplitKey(MonthText(k)) == Some((k.year, k.month))
  {
    MonthTextDigits(k);
    SplitDigits(Fixed(k.year, 4), Fixed(k.month, 2));
    ParseFixed(k.year, 4);
    ParseFixed(k.month, 2);
  }

  /** Month keys of distinct months (years 0..9999) are distinct. */
  lemma MonthTextInjective(a: Month, b: Month)
    requires a.Valid() && 0 <= a.year <= 9999
    requires b.Valid() && 0 <= b.year <= 9999
    ensures MonthText(a) == MonthText(b) <==> a == b
  {
    if MonthText(a) == MonthText(b) {
      SplitMonthText(a);
      SplitMonthText(b);
    }
  }

  /** A month key of a four-digit year matches only its own month, whatever the year of the other month. */
  lemma MonthTextMatch(a: Month, k: Month)
    requires a.Valid()
    requires k.Valid() && 0 <= k.year <= 9999
    ensures MonthText(a) == MonthText(k) <==> a == k
  {
    if 0 <= a.year <= 9999 {
      MonthTextInjective(a, k);
    } else {
      var x := IsoYear(a.year) + "-" + PadStart(IntText(a.month), 2);
      assert MonthText(a)[0] == x[0] == IsoYear(a.year)[0];
      assert IsoYear(a.year)[0] == '-' || IsoYear(a.year)[0] == '+';
      MonthTextDigits(k);
      assert MonthText(k)[0] == Fixed(k.year, 4)[0];
    }
  }

  /** Within one year the dashboard's twelve month keys are distinct. */
  lemma CurrentKeyMonths(year: int, a: nat, b: nat)
    requires 1 <= a <= 12 && 1 <= b <= 12
    ensures CurrentKey(Month(year, a)) == CurrentKey(Month(year, b)) <==> a == b
  {
    var p := IntegerText(year) + "-";
    PadFixed(a, 2);
    PadFixed(b, 2);
    assert CurrentKey(Month(year, a)) == p + Fixed(a, 2);
    assert CurrentKey(Month(year, b)) == p + Fixed(b, 2);
    if CurrentKey(Month(year, a)) == CurrentKey(Month(year, b)) {
      assert (p + Fixed(a, 2))[|p|..] == Fixed(a, 2);
      assert (p + Fixed(b, 2))[|p|..] == Fixed(b, 2);
      FixedOrder(a, b, 2);
    }
  }

  /** Distinct months within 1000..9999 have distinct current-month keys. */
  lemma CurrentKeyInjective(a: Month, b: Month)
    requires a.Valid() && 1000 <= a.year <= 9999
    requires b.Valid() && 1000 <= b.year <= 9999
    ensures CurrentKey(a) == CurrentKey(b) <==> a == b
  {
    CurrentKeyIsMonthText(a);
    CurrentKeyIsMonthText(b);
    MonthTextInjective(a, b);
  }

  /** For years 0..9999, the ISO date of a valid day is `YYYY-MM-DD` in fixed-width digits. */
  lemma IsoDateDigits(d: Day)
    requires ValidDay(d) && 0 <= d.year <= 9999
    ensures IsoDate(d) == Fixed(d.year, 4) + ("-" + (Fixed(d.month, 2) + ("-" + Fixed(d.day, 2))))
  {
    PadFixed(d.year, 4);
    PadFixed(d.month, 2);
    PadFixed(d.day, 2);
    var y, m, n := Fixed(d.year, 4), Fixed(d.month, 2), Fixed(d.day, 2);
    assert IsoYear(d.year) == y;
    assert IsoDate(d) == y + "-" + m + "-" + n;
    AppendAssoc4(y, "-", m, "-", n);
  }

  lemma AppendAssoc4(a: string, b: string, c: string, e: string, f: string)
    ensures a + b + c + e + f == a + (b + (c + (e + f)))
  {
  }

  /** Comparing ISO dates as strings is comparing the days chronologically (years 0..9999). */
  lemma IsoDateOrder(a: Day, b: Day)
    requires ValidDay(a) && 0 <= a.year <= 9999
    requires ValidDay(b) && 0 <= b.year <= 9999
    ensures LessThan(IsoDate(a), IsoDate(b)) <==> DayBefore(a, b)
  {
    IsoDateDigits(a);
    IsoDateDigits(b);
    var ya, ma, da := Fixed(a.year, 4), Fixed(a.month, 2), Fixed(a.day, 2);
    var yb, mb, db := Fixed(b.year, 4), Fixed(b.month, 2), Fixed(b.day, 2);
    FixedOrder(a.year, b.year, 4);
    FixedOrder(a.month, b.month, 2);
    FixedOrder(a.day, b.day, 2);
    LessThanAppend(ya, "-" + (ma + ("-" + da)), yb, "-" + (mb + ("-" + db)));
    LessThanAppend("-", ma + ("-" + da), "-", mb + ("-" + db));
    LessThanAppend(ma, "-" + da, mb, "-" + db);
    LessThanAppend("-", da, "-", db);
  }
}
