// Shared vocabulary of the LMS model: optional values, route responses,
// JavaScript's Math.round / Math.ceil on integer quotients, the string
// operations the handlers use (trim, lower-case, includes, split) and a few
// list edits that several client editors share.
module Common {

  datatype Option<T> = None | Some(value: T)

  /** What an Express handler sends back: an error status, or a success
      status (200, 201) with a body. */
  datatype Response<T> = Error(status: int) | Success(status: int, body: T)
  {
    predicate IsSuccess() { Success? }
  }

  /** A document id (Mongo ObjectId). */
  type Id = nat
  /** A point in time, in milliseconds since the epoch. */
  type Time = int

  /** Milliseconds in one day, as the handlers write `1000 * 60 * 60 * 24`. */
  const DayMs: int := 1000 * 60 * 60 * 24

  // ---------------------------------------------------------------------
  // Rounding

  /** Math.round(a / b) for a positive divisor: the nearest integer, with
      halves rounded up. */
  function RoundDiv(a: int, b: int): (r: int)
    requires b > 0
    ensures 2 * b * r - b <= 2 * a < 2 * b * r + b
  {
    var q := (2 * a + b) / (2 * b);
    assert 2 * b * q <= 2 * a + b < 2 * b * q + 2 * b by {
      var m := (2 * a + b) % (2 * b);
      assert 2 * a + b == (2 * b) * q + m && 0 <= m < 2 * b;
    }
    q
  }

  /** The sign of a product with a positive factor is the sign of the other factor. */
  lemma MulSign(k: int, x: int)
    requires k > 0
    ensures k * x > 0 <==> x > 0
    ensures k * x < 0 <==> x < 0
  {
  }

  lemma MulLinear(k: int, x: int, y: int, c: int)
    ensures k * (x - y + c) == k * x - k * y + k * c
  {
  }

  /** The integer nearest a/b is unique: any r satisfying RoundDiv's contract is it. */
  lemma RoundDivUnique(a: int, b: int, r: int)
    requires b > 0
    requires 2 * b * r - b <= 2 * a < 2 * b * r + b
    ensures RoundDiv(a, b) == r
  {
    var q := RoundDiv(a, b);
    assert 2 * b * (q - r - 1) < 0;
    assert 2 * b * (r - q - 1) < 0;
    MulSign(2 * b, q - r - 1);
    MulSign(2 * b, r - q - 1);
  }

  /** Rounding a quotient stays within integer bounds of the quotient. */
  lemma RoundDivBounds(a: int, b: int, lo: int, hi: int)
    requires b > 0 && lo * b <= a <= hi * b
    ensures lo <= RoundDiv(a, b) <= hi
  {
    var r := RoundDiv(a, b);
    assert b * (2 * r + 1 - 2 * lo) > 0;
    MulSign(b, 2 * r + 1 - 2 * lo);
    assert b * (2 * r - 1 - 2 * hi) <= 0;
    MulSign(b, 2 * r - 1 - 2 * hi);
  }

  /** Math.round((part / whole) * 100) for a positive whole. */
  function Percent(part: int, whole: int): (r: int)
    requires whole > 0
    ensures 2 * whole * r - whole <= 200 * part < 2 * whole * r + whole
  {
    RoundDiv(100 * part, whole)
  }

  lemma PercentBounds(part: int, whole: int)
    requires 0 <= part <= whole && whole > 0
    ensures 0 <= Percent(part, whole) <= 100
  {
    var r := Percent(part, whole);
    assert whole * (2 * r + 1) > 0;
    MulSign(whole, 2 * r + 1);
    assert whole * (2 * r - 202) < 0;
    MulSign(whole, 2 * r - 202);
  }

  lemma PercentNonNegative(part: int, whole: int)
    requires 0 <= part && whole > 0
    ensures Percent(part, whole) >= 0
  {
    var r := Percent(part, whole);
    assert whole * (2 * r + 1) > 0;
    MulSign(whole, 2 * r + 1);
  }

  lemma PercentOfWhole(whole: int)
    requires whole > 0
    ensures Percent(whole, whole) == 100
  {
    RoundDivUnique(100 * whole, whole, 100);
  }

  /** Percent reports 100 exactly when at least 99.5% of the whole is reached,
      so a part short of the whole can already read as 100 once whole >= 200. */
  lemma PercentIsHundredIff(part: int, whole: int)
    requires 0 <= part <= whole && whole > 0
    ensures Percent(part, whole) == 100 <==> 200 * part >= 199 * whole
  {
    PercentBounds(part, whole);
    var r := Percent(part, whole);
    if r <= 99 {
      MulLinear(2 * whole, 99, r, 0);
      MulSign(2 * whole, 99 - r);
      assert 2 * whole * r + whole <= 199 * whole;
    }
  }

  /** Percent reaches a threshold `t` exactly when the part is at least
      `t - 0.5` percent of the whole. */
  lemma PercentAtLeastIff(part: int, whole: int, t: int)
    requires whole > 0
    ensures Percent(part, whole) >= t <==> 200 * part >= (2 * t - 1) * whole
  {
    var r := Percent(part, whole);
    if r >= t {
      assert whole * (r - t) >= 0 by { MulSign(whole, r - t); }
    } else {
      assert whole * (t - 1 - r) >= 0 by { MulSign(whole, t - 1 - r); }
    }
  }

  lemma PercentMonotone(p1: int, p2: int, whole: int)
    requires whole > 0 && p1 <= p2
    ensures Percent(p1, whole) <= Percent(p2, whole)
  {
    var r1, r2 := Percent(p1, whole), Percent(p2, whole);
    MulLinear(2 * whole, r2, r1, 1);
    assert 2 * whole * (r2 - r1 + 1) > 0;
    MulSign(2 * whole, r2 - r1 + 1);
  }

  /** Math.ceil(a / b) for a positive divisor. */
  function CeilDiv(a: int, b: int): (r: int)
    requires b > 0
    ensures b * (r - 1) < a <= b * r
  {
    var q := (-a) / b;
    assert b * q <= -a < b * q + b by {
      var m := (-a) % b;
      assert -a == b * q + m && 0 <= m < b;
    }
    -q
  }

  /** `Math.ceil(total / limit)` as the list routes report it; a zero limit
      gives Infinity (or NaN for an empty list), which is not a number here. */
  function PageCount(total: nat, limit: int): (r: Option<int>)
    ensures r.None? <==> limit == 0
    ensures limit > 0 && r.Some? ==> limit * (r.value - 1) < total <= limit * r.value
    ensures limit < 0 && r.Some? ==> r.value <= 0
  {
    if limit > 0 then Some(CeilDiv(total, limit))
    else if limit < 0 then Some(-((total) / (-limit)))
    else None
  }

  /** How many of `n` items a window skipping `skip` of them shows: all
      that remain when the limit is 0 (no limit), else at most the limit's
      absolute value. */
  function WindowLength(n: nat, skip: int, limit: int): nat
  {
    var remaining := if 0 <= skip <= n then n - skip else 0;
    var take := if limit < 0 then -limit else limit;
    if limit == 0 || remaining <= take then remaining else take
  }

  /** `.skip((page - 1) * limit).limit(limit)` on a query result: a negative
      skip is refused by the database (500), a zero limit means no limit and a
      negative limit acts as its absolute value. */
  function Paginate<T>(items: seq<T>, page: int, limit: int): (r: Response<seq<T>>)
    ensures r.Error? <==> (page - 1) * limit < 0
    ensures r.Success? ==> r.status == 200
    ensures r.Success? && limit != 0 ==> |r.body| <= if limit < 0 then -limit else limit
    ensures r.Success? ==> |r.body| == WindowLength(|items|, (page - 1) * limit, limit)
    ensures r.Success? ==> forall k :: 0 <= k < |r.body| ==>
      0 <= (page - 1) * limit + k < |items| && r.body[k] == items[(page - 1) * limit + k]
    ensures r.Success? ==> forall x :: x in r.body ==> x in items
  {
    var skip := (page - 1) * limit;
    if skip < 0 then Error(500)
    else
      var rest := if skip <= |items| then items[skip..] else [];
      var take := if limit < 0 then -limit else limit;
      Success(200, if limit == 0 || |rest| <= take then rest else rest[..take])
  }

  // ---------------------------------------------------------------------
  // Strings

  /** The white-space characters String.prototype.trim removes that this
      model knows: the ASCII ones, no-break space and the byte-order mark. */
  predicate IsWhitespace(c: char)
  {
    c == ' ' || c == '\t' || c == '\n' || c == '\r' || c == '\U{B}' ||
    c == '\U{C}' || c == '\U{A0}' || c == '\U{FEFF}'
  }

  function TrimStart(s: string): (r: string)
    ensures |r| <= |s| && r == s[|s| - |r|..]
    ensures r == [] || !IsWhitespace(r[0])
    ensures forall i :: 0 <= i < |s| - |r| ==> IsWhitespace(s[i])
  {
    if s != [] && IsWhitespace(s[0]) then TrimStart(s[1..]) else s
  }

  function TrimEnd(s: string): (r: string)
    ensures |r| <= |s| && r == s[..|r|]
    ensures r == [] || !IsWhitespace(r[|r| - 1])
    ensures forall i :: |r| <= i < |s| ==> IsWhitespace(s[i])
  {
    if s != [] && IsWhitespace(s[|s| - 1]) then TrimEnd(s[..|s| - 1]) else s
  }

  /** String.prototype.trim. */
  function Trim(s: string): (r: string)
  {
    TrimEnd(TrimStart(s))
  }

  /** `s.trim()` is falsy: the string is empty or only white space. */
  predicate IsBlank(s: string)
  {
    Trim(s) == []
  }

  lemma {:induction false} BlankIffAllWhitespace(s: string)
    ensures IsBlank(s) <==> forall i :: 0 <= i < |s| ==> IsWhitespace(s[i])
  {
    if forall i :: 0 <= i < |s| ==> IsWhitespace(s[i]) {
      TrimStartOfWhitespace(s);
    }
  }

  lemma {:induction false} TrimStartOfWhitespace(s: string)
    requires forall i :: 0 <= i < |s| ==> IsWhitespace(s[i])
    ensures TrimStart(s) == []
  {
    if s != [] {
      TrimStartOfWhitespace(s[1..]);
    }
  }

  lemma TrimShape(s: string)
    ensures Trim(s) == [] || (!IsWhitespace(Trim(s)[0]) && !IsWhitespace(Trim(s)[|Trim(s)| - 1]))
    ensures |Trim(s)| <= |s|
  {
    var t := TrimStart(s);
    var r := TrimEnd(t);
    if r != [] {
      assert r[0] == t[0];
    }
  }

  function ToLowerChar(c: char): char
  {
    if 'A' <= c <= 'Z' then (c as int + 32) as char else c
  }

  /** String.prototype.toLowerCase over ASCII letters. */
  function ToLower(s: string): (r: string)
    ensures |r| == |s|
  {
    seq(|s|, i requires 0 <= i < |s| => ToLowerChar(s[i]))
  }

  lemma ToLowerAppend(a: string, b: string)
    ensures ToLower(a + b) == ToLower(a) + ToLower(b)
  {
    var l, r := ToLower(a + b), ToLower(a) + ToLower(b);
    assert |l| == |r|;
    forall i | 0 <= i < |l| ensures l[i] == r[i] {
      if i < |a| { assert (a + b)[i] == a[i]; } else { assert (a + b)[i] == b[i - |a|]; }
    }
  }

  function ToUpperChar(c: char): char
  {
    if 'a' <= c <= 'z' then (c as int - 32) as char else c
  }

  /** String.prototype.toUpperCase over ASCII letters. */
  function ToUpper(s: string): (r: string)
    ensures |r| == |s|
  {
    seq(|s|, i requires 0 <= i < |s| => ToUpperChar(s[i]))
  }

  // ---------------------------------------------------------------------
  // Decimal rendering, as template literals render a non-negative integer

  function DigitChar(d: nat): char
    requires d < 10
  {
    ('0' as int + d) as char
  }

  predicate IsDigit(c: char)
  {
    '0' <= c <= '9'
  }

  /** `${n}` for a non-negative integer. */
  function NatToString(n: nat): (r: string)
    ensures |r| >= 1
    ensures forall i :: 0 <= i < |r| ==> IsDigit(r[i])
    decreases n
  {
    if n < 10 then [DigitChar(n)] else NatToString(n / 10) + [DigitChar(n % 10)]
  }

  /** The value of a string of decimal digits (parseInt on digits). */
  function DigitsValue(s: string): nat
    requires forall i :: 0 <= i < |s| ==> IsDigit(s[i])
  {
    if s == [] then 0
    else
      assert IsDigit(s[|s| - 1]);
      DigitsValue(s[..|s| - 1]) * 10 + (s[|s| - 1] as int - '0' as int)
  }

  /** Rendering a number and parsing the digits back gives the number. */
  lemma {:induction false} NatToStringRoundTrip(n: nat)
    ensures DigitsValue(NatToString(n)) == n
    decreases n
  {
    var r := NatToString(n);
    if n >= 10 {
      NatToStringRoundTrip(n / 10);
      assert r[..|r| - 1] == NatToString(n / 10);
    }
  }

  /** `n.toString().padStart(2, '0')` for n below 100. */
  function TwoDigits(n: nat): (r: string)
    requires n < 100
    ensures |r| == 2 && IsDigit(r[0]) && IsDigit(r[1])
    ensures DigitsValue(r) == n
  {
    var r := [DigitChar(n / 10), DigitChar(n % 10)];
    assert r[..1] == [DigitChar(n / 10)] && r[..1][..0] == [];
    assert DigitsValue(r[..1]) == n / 10;
    r
  }

  /** `${Math.floor(s / 60)}:${seconds padded to two digits}`: a duration
      in whole seconds as minutes and seconds. */
  function ClockText(s: nat): (r: string)
    ensures |r| >= 4 && r[|r| - 3] == ':'
  {
    NatToString(s / 60) + ":" + TwoDigits(s % 60)
  }

  /** Reads `m:ss` back: the digits before the first colon are minutes, the
      two digits after it seconds. */
  function ParseClock(t: string): (r: Option<nat>)
  {
    var m := BeforeFirst(t, ':');
    if |m| + 3 != |t| || !(forall i :: 0 <= i < |m| ==> IsDigit(m[i])) then None
    else if !IsDigit(t[|m| + 1]) || !IsDigit(t[|m| + 2]) then None
    else Some(DigitsValue(m) * 60 + DigitsValue(t[|m| + 1..]))
  }

  lemma {:induction false} BeforeFirstOf(a: string, c: char, b: string)
    requires c !in a
    ensures BeforeFirst(a + [c] + b, c) == a
  {
    if a != [] {
      assert (a + [c] + b)[1..] == a[1..] + [c] + b;
      BeforeFirstOf(a[1..], c, b);
    }
  }

  /** Reading a rendered duration back gives the duration. */
  lemma ClockRoundTrip(s: nat)
    ensures ParseClock(ClockText(s)) == Some(s)
  {
    var m := NatToString(s / 60);
    var t := ClockText(s);
    assert t == m + [':'] + TwoDigits(s % 60);
    assert ':' !in m by {
      forall i | 0 <= i < |m| ensures m[i] != ':' {
        assert IsDigit(m[i]);
      }
    }
    BeforeFirstOf(m, ':', TwoDigits(s % 60));
    assert t[|m| + 1..] == TwoDigits(s % 60);
    NatToStringRoundTrip(s / 60);
  }

  predicate AllDigits(s: string)
  {
    forall i :: 0 <= i < |s| ==> IsDigit(s[i])
  }

  /** Reads `Nm` back: digits followed by `m`. */
  function ParseMinutes(t: string): (r: Option<nat>)
  {
    if |t| < 2 || t[|t| - 1] != 'm' || !AllDigits(t[..|t| - 1]) then None
    else Some(DigitsValue(t[..|t| - 1]))
  }

  /** Reads a duration in minutes written as `Nm`, `Hh` or `Hh Mm` back. */
  function ParseHoursMinutes(t: string): (r: Option<nat>)
  {
    var h := BeforeFirst(t, 'h');
    if |h| == |t| then ParseMinutes(t)
    else if h == [] || !AllDigits(h) then None
    else
      var rest := t[|h| + 1..];
      if rest == [] then Some(DigitsValue(h) * 60)
      else if rest[0] != ' ' then None
      else match ParseMinutes(rest[1..])
        case None => None
        case Some(m) => Some(DigitsValue(h) * 60 + m)
  }

  lemma {:induction false} BeforeFirstAbsent(s: string, c: char)
    requires c !in s
    ensures BeforeFirst(s, c) == s
  {
    if s != [] {
      BeforeFirstAbsent(s[1..], c);
    }
  }

  lemma MinutesRoundTrip(m: nat)
    ensures ParseMinutes(NatToString(m) + "m") == Some(m)
    ensures ParseHoursMinutes(NatToString(m) + "m") == Some(m)
  {
    var d := NatToString(m);
    var t := d + "m";
    assert t[..|t| - 1] == d;
    NatToStringRoundTrip(m);
    assert 'h' !in t by {
      forall i | 0 <= i < |t| ensures t[i] != 'h' {
        if i < |d| {
          assert IsDigit(d[i]);
        }
      }
    }
    BeforeFirstAbsent(t, 'h');
  }

  lemma NoLetterInDigits(d: string, c: char)
    requires AllDigits(d) && !IsDigit(c)
    ensures c !in d
  {
    forall i | 0 <= i < |d| ensures d[i] != c {
      assert IsDigit(d[i]);
    }
  }

  /** Reading `Hh` back gives the minutes it stands for. */
  lemma HoursRoundTrip(h: nat)
    ensures ParseHoursMinutes(NatToString(h) + "h") == Some(h * 60)
  {
    var d := NatToString(h);
    NoLetterInDigits(d, 'h');
    NatToStringRoundTrip(h);
    var t := d + "h";
    assert t == d + ['h'] + [];
    BeforeFirstOf(d, 'h', []);
    assert t[|d| + 1..] == [];
  }

  /** Reading `Hh Mm` back gives the minutes it stands for. */
  lemma HoursMinutesRoundTrip(h: nat, m: nat)
    ensures ParseHoursMinutes(NatToString(h) + "h " + NatToString(m) + "m") == Some(h * 60 + m)
  {
    var d := NatToString(h);
    var minutes := NatToString(m) + "m";
    var tail := [' '] + minutes;
    NoLetterInDigits(d, 'h');
    NatToStringRoundTrip(h);
    MinutesRoundTrip(m);
    assert tail[1..] == minutes;
    ParseHoursThenMinutes(d, tail, m);
    ConcatHoursMinutes(d, NatToString(m));
  }

  lemma ConcatHoursMinutes(d: string, e: string)
    ensures d + "h " + e + "m" == d + ['h'] + ([' '] + (e + "m"))
  {
  }

  lemma ParseHoursThenMinutes(d: string, tail: string, m: nat)
    requires d != [] && AllDigits(d) && 'h' !in d
    requires tail != [] && tail[0] == ' ' && ParseMinutes(tail[1..]) == Some(m)
    ensures ParseHoursMinutes(d + ['h'] + tail) == Some(DigitsValue(d) * 60 + m)
  {
    var t := d + ['h'] + tail;
    BeforeFirstOf(d, 'h', tail);
    assert t[|d| + 1] == tail[0];
    assert t[|d| + 2..] == tail[1..];
    ParseHoursMinutesSplit(t, d, m);
  }

  /** ParseHoursMinutes on a text whose `h` follows the digits `h` and is
      followed by a space and `Mm`. */
  lemma ParseHoursMinutesSplit(t: string, h: string, m: nat)
    requires BeforeFirst(t, 'h') == h && h != [] && AllDigits(h)
    requires |h| + 1 < |t| && t[|h| + 1] == ' ' && ParseMinutes(t[|h| + 2..]) == Some(m)
    ensures ParseHoursMinutes(t) == Some(DigitsValue(h) * 60 + m)
  {
    assert t[|h| + 1..][1..] == t[|h| + 2..];
  }

  predicate IsPrefix(p: string, s: string)
  {
    |p| <= |s| && s[..|p|] == p
  }

  /** `sub` occurs in `s` starting at index `i`. */
  predicate OccursAt(s: string, sub: string, i: int)
  {
    0 <= i && i + |sub| <= |s| && s[i..i + |sub|] == sub
  }

  /** String.prototype.includes. */
  predicate Contains(s: string, sub: string)
  {
    exists i :: 0 <= i <= |s| - |sub| && OccursAt(s, sub, i)
  }

  lemma ContainsAt(s: string, sub: string, i: nat)
    requires i + |sub| <= |s| && s[i..i + |sub|] == sub
    ensures Contains(s, sub)
  {
    assert OccursAt(s, sub, i);
  }

  lemma ContainsWitness(s: string, sub: string) returns (i: nat)
    requires Contains(s, sub)
    ensures i + |sub| <= |s| && s[i..i + |sub|] == sub
  {
    var j :| 0 <= j <= |s| - |sub| && OccursAt(s, sub, j);
    i := j;
  }

  lemma ContainsMiddle(a: string, b: string, c: string)
    ensures Contains(a + b + c, b)
  {
    assert (a + b + c)[|a|..|a| + |b|] == b;
    ContainsAt(a + b + c, b, |a|);
  }

  lemma ContainsEmpty(s: string)
    ensures Contains(s, [])
  {
    assert OccursAt(s, [], 0);
  }

  lemma {:induction false} ContainsWithin(s: string, t: string, sub: string)
    requires Contains(s, sub)
    ensures Contains(s + t, sub)
  {
    var i := ContainsWitness(s, sub);
    assert (s + t)[i..i + |sub|] == s[i..i + |sub|];
    ContainsAt(s + t, sub, i);
  }

  lemma ContainsAfter(t: string, s: string, sub: string)
    requires Contains(s, sub)
    ensures Contains(t + s, sub)
  {
    var i := ContainsWitness(s, sub);
    assert (t + s)[|t| + i..|t| + i + |sub|] == s[i..i + |sub|];
    ContainsAt(t + s, sub, |t| + i);
  }

  /** Case-insensitive `includes`, as `a.toLowerCase().includes(b.toLowerCase())`;
      also a Mongo `$regex` with option `i` whose pattern has no
      metacharacters. */
  predicate ContainsIgnoreCase(s: string, sub: string)
  {
    Contains(ToLower(s), ToLower(sub))
  }

  /** `s.split(c)[0]`: the text before the first `c`, or all of `s`. */
  function BeforeFirst(s: string, c: char): (r: string)
    ensures |r| <= |s|
  {
    if s == [] then []
    else if s[0] == c then []
    else [s[0]] + BeforeFirst(s[1..], c)
  }

  lemma {:induction false} BeforeFirstSpec(s: string, c: char)
    ensures IsPrefix(BeforeFirst(s, c), s) && c !in BeforeFirst(s, c)
    ensures |BeforeFirst(s, c)| < |s| ==> s[|BeforeFirst(s, c)|] == c
  {
    if s != [] && s[0] != c {
      BeforeFirstSpec(s[1..], c);
    }
  }

  /** `s.split(c).pop()`: the text after the last `c`, or all of `s`. */
  function AfterLast(s: string, c: char): (r: string)
    ensures |r| <= |s|
  {
    if s == [] then []
    else if s[|s| - 1] == c then []
    else AfterLast(s[..|s| - 1], c) + [s[|s| - 1]]
  }

  lemma {:induction false} AfterLastSpec(s: string, c: char)
    ensures AfterLast(s, c) == s[|s| - |AfterLast(s, c)|..] && c !in AfterLast(s, c)
    ensures |AfterLast(s, c)| < |s| ==> s[|s| - |AfterLast(s, c)| - 1] == c
  {
    if s != [] && s[|s| - 1] != c {
      AfterLastSpec(s[..|s| - 1], c);
    }
  }

  lemma AfterLastNoSeparator(s: string, c: char)
    requires c !in s
    ensures AfterLast(s, c) == s
  {
  }

  /** Math.max / Math.min on two integers. */
  function Max(a: int, b: int): (r: int)
    ensures r >= a && r >= b && (r == a || r == b)
  {
    if a >= b then a else b
  }

  function Min(a: int, b: int): (r: int)
    ensures r <= a && r <= b && (r == a || r == b)
  {
    if a <= b then a else b
  }

  /** `Math.min(hi, Math.max(lo, x))`. */
  function Clamp(x: int, lo: int, hi: int): (r: int)
    requires lo <= hi
    ensures lo <= r <= hi
    ensures lo <= x <= hi ==> r == x
  {
    Min(hi, Max(lo, x))
  }

  /** Math.ceil on an exact real. */
  function Ceil(x: real): (r: int)
    ensures r as real - 1.0 < x <= r as real
  {
    -((-x).Floor)
  }

  /** `Math.round(x * 10) / 10`, reported as a whole number of tenths. */
  function Tenths(x: real): (r: int)
    ensures (r as real) - 0.5 <= x * 10.0 < (r as real) + 0.5
  {
    (x * 10.0 + 0.5).Floor
  }

  /** A mean of values between 0 and `most` rounds to between 0 and
      `10 * most` tenths. */
  lemma MeanTenthsBounds(sum: real, n: nat, most: nat)
    requires n > 0 && 0.0 <= sum <= (most * n) as real
    ensures 0 <= Tenths(sum / n as real) <= 10 * most
  {
    var avg := sum / n as real;
    assert avg * n as real == sum;
    assert 0.0 <= avg <= most as real;
    var t := Tenths(avg);
    assert (t as real) <= (10 * most) as real + 0.5 && (t as real) > -0.5;
  }

  // ---------------------------------------------------------------------
  // Sums and list edits

  function Sum(s: seq<int>): int
  {
    if s == [] then 0 else Sum(s[..|s| - 1]) + s[|s| - 1]
  }

  lemma {:induction false} SumAppend(s: seq<int>, t: seq<int>)
    ensures Sum(s + t) == Sum(s) + Sum(t)
    decreases |t|
  {
    if t != [] {
      assert (s + t)[..|s + t| - 1] == s + t[..|t| - 1];
      SumAppend(s, t[..|t| - 1]);
    } else {
      assert s + t == s;
    }
  }

  lemma {:induction false} SumBounds(s: seq<int>, lo: int, hi: int)
    requires forall i :: 0 <= i < |s| ==> lo <= s[i] <= hi
    ensures lo * |s| <= Sum(s) <= hi * |s|
  {
    if s != [] {
      SumBounds(s[..|s| - 1], lo, hi);
    }
  }

  function Max0(s: seq<int>): (r: int)
    ensures forall i :: 0 <= i < |s| ==> s[i] <= r
    ensures r == 0 || r in s
    ensures s == [] ==> r == 0
  {
    if s == [] then 0
    else
      var m := Max0(s[..|s| - 1]);
      assert forall i :: 0 <= i < |s| - 1 ==> s[..|s| - 1][i] == s[i];
      if s[|s| - 1] > m then s[|s| - 1] else m
  }

  /** `list.filter((_, j) => j !== i)`: drops the element at `i`, if any. */
  function DropIndex<T>(s: seq<T>, i: int): (r: seq<T>)
    ensures 0 <= i < |s| ==> |r| == |s| - 1
    ensures !(0 <= i < |s|) ==> r == s
    ensures forall k :: 0 <= k < |r| ==> r[k] == (if 0 <= i <= k then s[k + 1] else s[k])
  {
    if 0 <= i < |s| then s[..i] + s[i + 1..] else s
  }

  /** Dropping the element just appended gives back the list. */
  lemma AppendThenDrop<T>(s: seq<T>, x: T)
    ensures DropIndex(s + [x], |s|) == s
  {
    assert (s + [x])[..|s|] == s;
  }

  /** `parseInt(text) || fallback`: a number that did not parse (`None`) or
      parsed as zero gives the fallback. */
  function ParsedOr(parsed: Option<int>, fallback: int): (r: int)
    ensures parsed.Some? && parsed.value != 0 ==> r == parsed.value
    ensures parsed.None? || parsed.value == 0 ==> r == fallback
  {
    if parsed.Some? && parsed.value != 0 then parsed.value else fallback
  }

  /** `list.map((x, j) => j === i ? v : x)`: replaces the element at `i`, if any. */
  function ReplaceAt<T>(s: seq<T>, i: int, v: T): (r: seq<T>)
    ensures |r| == |s|
    ensures forall k :: 0 <= k < |s| ==> r[k] == (if k == i then v else s[k])
  {
    if 0 <= i < |s| then s[i := v] else s
  }

  /** Array.prototype.filter. */
  function Filter<T(!new)>(s: seq<T>, p: T -> bool): (r: seq<T>)
    ensures |r| <= |s|
    ensures forall x :: x in r <==> x in s && p(x)
  {
    if s == [] then []
    else
      var rest := Filter(s[1..], p);
      assert forall x :: x in s <==> x == s[0] || x in s[1..];
      if p(s[0]) then [s[0]] + rest else rest
  }

  /** Filtering by a stronger condition keeps no more. */
  lemma {:induction false} FilterStronger<T(!new)>(s: seq<T>, p: T -> bool, q: T -> bool)
    requires forall x :: p(x) ==> q(x)
    ensures |Filter(s, p)| <= |Filter(s, q)|
  {
    if s != [] {
      FilterStronger(s[1..], p, q);
    }
  }

  /** Filters by conditions that agree on every item keep the same items. */
  lemma {:induction false} FilterAgree<T(!new)>(s: seq<T>, p: T -> bool, q: T -> bool)
    requires forall i :: 0 <= i < |s| ==> p(s[i]) == q(s[i])
    ensures Filter(s, p) == Filter(s, q)
  {
    if s != [] {
      FilterAgree(s[1..], p, q);
    }
  }

  lemma {:induction false} FilterKeepsAll<T(!new)>(s: seq<T>, p: T -> bool)
    requires forall i :: 0 <= i < |s| ==> p(s[i])
    ensures Filter(s, p) == s
  {
    if s != [] {
      FilterKeepsAll(s[1..], p);
    }
  }

  lemma {:induction false} FilterKeepsNone<T(!new)>(s: seq<T>, p: T -> bool)
    requires forall i :: 0 <= i < |s| ==> !p(s[i])
    ensures Filter(s, p) == []
  {
    if s != [] {
      FilterKeepsNone(s[1..], p);
    }
  }

  lemma {:induction false} FilterAppend<T(!new)>(s: seq<T>, t: seq<T>, p: T -> bool)
    ensures Filter(s + t, p) == Filter(s, p) + Filter(t, p)
  {
    if s != [] {
      assert (s + t)[1..] == s[1..] + t;
      FilterAppend(s[1..], t, p);
    } else {
      assert s + t == t;
    }
  }

  lemma {:induction false} FilterIdempotent<T(!new)>(s: seq<T>, p: T -> bool)
    ensures Filter(Filter(s, p), p) == Filter(s, p)
  {
    var r := Filter(s, p);
    forall i | 0 <= i < |r| ensures p(r[i]) {
      assert r[i] in r;
    }
    FilterKeepsAll(r, p);
  }

  /** Ordered by `key`, largest first. */
  predicate SortedDesc<T>(s: seq<T>, key: T -> int)
  {
    forall i, j :: 0 <= i < j < |s| ==> key(s[i]) >= key(s[j])
  }

  /** Inserts `x` before the first element whose key is not larger. */
  function InsertDesc<T(!new)>(x: T, s: seq<T>, key: T -> int): (r: seq<T>)
    ensures multiset(r) == multiset(s) + multiset{x}
    ensures |r| == |s| + 1
    ensures forall y :: y in r <==> y in s || y == x
  {
    if s == [] || key(x) >= key(s[0]) then [x] + s
    else
      assert s == [s[0]] + s[1..];
      [s[0]] + InsertDesc(x, s[1..], key)
  }

  /** A head no smaller than anything after it keeps a sorted tail sorted. */
  lemma ConsSorted<T>(h: T, t: seq<T>, key: T -> int)
    requires SortedDesc(t, key)
    requires forall y :: y in t ==> key(y) <= key(h)
    ensures SortedDesc([h] + t, key)
  {
    var r := [h] + t;
    forall i, j | 0 <= i < j < |r|
      ensures key(r[i]) >= key(r[j])
    {
      assert r[j] == t[j - 1];
      if i > 0 {
        assert r[i] == t[i - 1];
      }
    }
  }

  /** Filtering a sorted list keeps it sorted. */
  lemma {:induction false} FilterSorted<T(!new)>(s: seq<T>, p: T -> bool, key: T -> int)
    requires SortedDesc(s, key)
    ensures SortedDesc(Filter(s, p), key)
  {
    if s != [] {
      assert SortedDesc(s[1..], key);
      FilterSorted(s[1..], p, key);
      if p(s[0]) {
        forall y | y in Filter(s[1..], p)
          ensures key(y) <= key(s[0])
        {
          var j :| 0 <= j < |s[1..]| && s[1..][j] == y;
          assert s[j + 1] == y;
        }
        ConsSorted(s[0], Filter(s[1..], p), key);
      }
    }
  }

  lemma {:induction false} InsertDescSorted<T(!new)>(x: T, s: seq<T>, key: T -> int)
    requires SortedDesc(s, key)
    ensures SortedDesc(InsertDesc(x, s, key), key)
  {
    if s == [] || key(x) >= key(s[0]) {
      ConsSorted(x, s, key);
    } else {
      assert SortedDesc(s[1..], key);
      InsertDescSorted(x, s[1..], key);
      forall y | y in s[1..]
        ensures key(y) <= key(s[0])
      {
        var j :| 0 <= j < |s[1..]| && s[1..][j] == y;
        assert s[j + 1] == y;
      }
      ConsSorted(s[0], InsertDesc(x, s[1..], key), key);
    }
  }

  /** Insertion sort on `key`, largest first; equal keys keep their order. */
  function SortDesc<T(!new)>(s: seq<T>, key: T -> int): (r: seq<T>)
    ensures multiset(r) == multiset(s)
    ensures |r| == |s|
    ensures forall y :: y in r <==> y in s
  {
    if s == [] then []
    else
      assert s == [s[0]] + s[1..];
      InsertDesc(s[0], SortDesc(s[1..], key), key)
  }

  lemma {:induction false} SortDescSorted<T(!new)>(s: seq<T>, key: T -> int)
    ensures SortedDesc(SortDesc(s, key), key)
  {
    if s != [] {
      SortDescSorted(s[1..], key);
      InsertDescSorted(s[0], SortDesc(s[1..], key), key);
    }
  }

  /** In a sorted list, whatever lies beyond a prefix ranks no higher than
      anything in the prefix. */
  lemma SortedPrefixDominates<T>(s: seq<T>, key: T -> int, k: int, c: T, x: T)
    requires SortedDesc(s, key) && 0 <= k <= |s|
    requires c in s[..k] && x in s && x !in s[..k]
    ensures key(x) <= key(c)
  {
    var j :| 0 <= j < |s| && s[j] == x;
    var i :| 0 <= i < k && s[..k][i] == c;
    assert s[i] == c;
  }

  /** `s.reduce((sum, x) => sum + f(x), 0)`. */
  function SumOf<T>(s: seq<T>, f: T -> int): int
  {
    if s == [] then 0 else f(s[0]) + SumOf(s[1..], f)
  }

  lemma {:induction false} SumOfAppend<T>(s: seq<T>, t: seq<T>, f: T -> int)
    ensures SumOf(s + t, f) == SumOf(s, f) + SumOf(t, f)
  {
    if s == [] {
      assert s + t == t;
    } else {
      assert (s + t)[1..] == s[1..] + t;
      SumOfAppend(s[1..], t, f);
    }
  }

  lemma {:induction false} SumOfInsertDesc<T(!new)>(x: T, s: seq<T>, key: T -> int, f: T -> int)
    ensures SumOf(InsertDesc(x, s, key), f) == f(x) + SumOf(s, f)
  {
    if s != [] && key(x) < key(s[0]) {
      SumOfInsertDesc(x, s[1..], key, f);
      assert ([s[0]] + InsertDesc(x, s[1..], key))[1..] == InsertDesc(x, s[1..], key);
    } else {
      assert ([x] + s)[1..] == s;
    }
  }

  /** Sorting does not change a sum. */
  lemma {:induction false} SumOfSortDesc<T(!new)>(s: seq<T>, key: T -> int, f: T -> int)
    ensures SumOf(SortDesc(s, key), f) == SumOf(s, f)
  {
    if s != [] {
      SumOfSortDesc(s[1..], key, f);
      SumOfInsertDesc(s[0], SortDesc(s[1..], key), key, f);
    }
  }

  /** 1 for an item satisfying `p`, else 0. */
  function Indicator<T>(p: T -> bool): T -> int
  {
    x => if p(x) then 1 else 0
  }

  /** The filter keeps as many items as satisfy `p`, counted one by one. */
  lemma {:induction false} FilterLengthIsCount<T(!new)>(s: seq<T>, p: T -> bool)
    ensures |Filter(s, p)| == SumOf(s, Indicator(p))
  {
    if s != [] {
      FilterLengthIsCount(s[1..], p);
    }
  }

  /** Sorting does not change how many items satisfy a condition. */
  lemma FilterLengthSortDesc<T(!new)>(s: seq<T>, key: T -> int, p: T -> bool)
    ensures |Filter(SortDesc(s, key), p)| == |Filter(s, p)|
  {
    FilterLengthIsCount(s, p);
    FilterLengthIsCount(SortDesc(s, key), p);
    SumOfSortDesc(s, key, Indicator(p));
  }

  /** A sum of terms in [lo, hi] lies between |s|·lo and |s|·hi. */
  lemma {:induction false} SumOfBounds<T>(s: seq<T>, f: T -> int, lo: int, hi: int)
    requires forall i :: 0 <= i < |s| ==> lo <= f(s[i]) <= hi
    ensures |s| * lo <= SumOf(s, f) <= |s| * hi
  {
    if s != [] {
      SumOfBounds(s[1..], f, lo, hi);
    }
  }

  /** A page of a sorted list is sorted. */
  lemma PaginateSorted<T>(items: seq<T>, page: int, limit: int, key: T -> int)
    requires SortedDesc(items, key)
    requires Paginate(items, page, limit).Success?
    ensures SortedDesc(Paginate(items, page, limit).body, key)
  {
    var b := Paginate(items, page, limit).body;
    var skip := (page - 1) * limit;
    assert forall k :: 0 <= k < |b| ==> 0 <= skip + k < |items| && b[k] == items[skip + k];
    WindowSorted(items, b, skip, key);
  }

  /** A run of consecutive items of a sorted list is sorted. */
  lemma WindowSorted<T>(items: seq<T>, b: seq<T>, skip: int, key: T -> int)
    requires SortedDesc(items, key)
    requires forall k :: 0 <= k < |b| ==> 0 <= skip + k < |items| && b[k] == items[skip + k]
    ensures SortedDesc(b, key)
  {
    forall i, j | 0 <= i < j < |b|
      ensures key(b[i]) >= key(b[j])
    {
      var bi, bj := b[i], b[j];
      assert 0 <= skip + i < |items| && bi == items[skip + i];
      assert 0 <= skip + j < |items| && bj == items[skip + j];
    }
  }

  /** Array.prototype.findIndex, with None for -1. */
  function FirstIndex<T>(s: seq<T>, p: T -> bool): (r: Option<nat>)
    ensures r.Some? ==> r.value < |s| && p(s[r.value])
    ensures r.Some? ==> forall j :: 0 <= j < r.value ==> !p(s[j])
    ensures r.None? ==> forall j :: 0 <= j < |s| ==> !p(s[j])
  {
    if s == [] then None
    else if p(s[0]) then Some(0)
    else match FirstIndex(s[1..], p)
      case None => None
      case Some(k) => Some(k + 1)
  }

  /** `list.includes(x) ? list : [...list, x]`, i.e. `$addToSet`. */
  function AddToSet<T(==,!new)>(s: seq<T>, x: T): (r: seq<T>)
    ensures x in r
    ensures forall y :: y in r <==> y in s || y == x
    ensures x in s ==> r == s
    ensures x !in s ==> r == s + [x]
  {
    if x in s then s else s + [x]
  }

  predicate NoDuplicates<T(==)>(s: seq<T>)
  {
    forall i, j :: 0 <= i < j < |s| ==> s[i] != s[j]
  }

  /** A list without duplicates holds each value at most once. */
  lemma {:induction false} DistinctCountsOnce<T>(s: seq<T>, x: T)
    requires NoDuplicates(s)
    ensures multiset(s)[x] <= 1
  {
    if s != [] {
      assert s == [s[0]] + s[1..];
      DistinctCountsOnce(s[1..], x);
      if x == s[0] {
        assert x !in s[1..];
      }
    }
  }

  /** A reordering of a list without duplicates has none. */
  lemma PermutationKeepsDistinct<T>(s: seq<T>, t: seq<T>)
    requires NoDuplicates(s) && multiset(s) == multiset(t)
    ensures NoDuplicates(t)
  {
    forall i, j | 0 <= i < j < |t|
      ensures t[i] != t[j]
    {
      DistinctCountsOnce(s, t[i]);
      assert t == t[..j] + t[j..];
      assert t[i] in t[..j] && t[j] in t[j..];
    }
  }

  lemma AddToSetKeepsDistinct<T(!new)>(s: seq<T>, x: T)
    requires NoDuplicates(s)
    ensures NoDuplicates(AddToSet(s, x))
  {
  }

  /** `list.filter(y => y !== x)`, i.e. `$pull`. */
  function RemoveAll<T(==,!new)>(s: seq<T>, x: T): (r: seq<T>)
    ensures x !in r
    ensures forall y :: y != x ==> (y in r <==> y in s)
    ensures x !in s ==> r == s
  {
    if s == [] then []
    else
      var rest := RemoveAll(s[1..], x);
      assert forall y :: y in s <==> y == s[0] || y in s[1..];
      if s[0] == x then rest else [s[0]] + rest
  }

  lemma {:induction false} RemoveAllKeepsDistinct<T(!new)>(s: seq<T>, x: T)
    requires NoDuplicates(s)
    ensures NoDuplicates(RemoveAll(s, x))
  {
    if s != [] {
      assert NoDuplicates(s[1..]);
      RemoveAllKeepsDistinct(s[1..], x);
      assert s[0] !in s[1..];
    }
  }

  /** Removing distributes over concatenation: what is kept stays in its
      order. */
  lemma {:induction false} RemoveAllConcat<T(!new)>(s: seq<T>, t: seq<T>, x: T)
    ensures RemoveAll(s + t, x) == RemoveAll(s, x) + RemoveAll(t, x)
  {
    if s != [] {
      assert (s + t)[1..] == s[1..] + t;
      RemoveAllConcat(s[1..], t, x);
    } else {
      assert s + t == t;
    }
  }

  /** Pulling an element just pushed onto a list without it gives the list back. */
  lemma {:induction false} RemoveAllAppended<T(!new)>(s: seq<T>, x: T)
    requires x !in s
    ensures RemoveAll(s + [x], x) == s
  {
    if s == [] {
      assert RemoveAll([x], x) == RemoveAll([], x);
    } else {
      assert (s + [x])[1..] == s[1..] + [x];
      RemoveAllAppended(s[1..], x);
    }
  }
}
