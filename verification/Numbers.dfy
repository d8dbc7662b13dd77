/** Decimal numbers: the reader the g-code parser uses and the printer the reports use, each proved
    against a specification on character sequences, and the two proved inverse. */
module Numbers {
  import opened Reals

  const MAX_INT_DIGITS: nat := 8

  function Ten(n: nat): (r: nat)
    ensures r > 0
  {
    if n == 0 then 1 else 10 * Ten(n - 1)
  }

  predicate Digit(c: char) {
    '0' <= c <= '9'
  }

  function DigitOf(n: nat): (c: char)
    requires n < 10
    ensures Digit(c) && c as nat - '0' as nat == n
  {
    ('0' as nat + n) as char
  }

  // ---- Reading ----

  /** The reader's state: at most eight digits kept, digits dropped after that and decimals counted in exp. */
  datatype Scan = Scan(intval: nat, exp: int, ndigit: nat, isDecimal: bool)

  const START := Scan(0, 0, 0, false)

  predicate Accepts(st: Scan, c: char) {
    Digit(c) || (c == '.' && !st.isDecimal)
  }

  function Next(st: Scan, c: char): Scan
    requires Accepts(st, c)
  {
    if !Digit(c) then st.(isDecimal := true)
    else if st.ndigit < MAX_INT_DIGITS then
      Scan(10 * st.intval + (c as nat - '0' as nat), if st.isDecimal then st.exp - 1 else st.exp, st.ndigit + 1, st.isDecimal)
    else st.(ndigit := st.ndigit + 1, exp := if st.isDecimal then st.exp else st.exp + 1)
  }

  /** Reads as far as characters are accepted. */
  function ScanFrom(s: string, i: nat, st: Scan): (Scan, nat)
    requires i <= |s|
    decreases |s| - i
  {
    if i < |s| && Accepts(st, s[i]) then ScanFrom(s, i + 1, Next(st, s[i])) else (st, i)
  }

  function Scale(x: real, exp: int): real {
    if exp >= 0 then x * Ten(exp) as real else x / Ten(-exp) as real
  }

  datatype Option<T> = None | Some(value: T)

  function SignAt(s: string, i: nat): nat
    requires i <= |s|
  {
    if i < |s| && (s[i] == '-' || s[i] == '+') then 1 else 0
  }

  /** The number at position i, if there is a digit, and the position after it. */
  function ReadAt(s: string, i: nat): Option<(real, nat)>
    requires i <= |s|
  {
    var (st, j) := ScanFrom(s, i + SignAt(s, i), START);
    if st.ndigit == 0 then None
    else
      var r := Scale(st.intval as real, st.exp);
      Some((if i < |s| && s[i] == '-' then -r else r, j))
  }

  lemma ScanBounds(s: string, i: nat, st: Scan)
    requires i <= |s|
    ensures i <= ScanFrom(s, i, st).1 <= |s|
    decreases |s| - i
  {
  }

  lemma Hundredth(x: real, exp: int)
    requires exp <= -2
    ensures Scale(x, exp) == Scale(x * 0.01, exp + 2)
  {
    var e := -exp;
    assert Ten(e) == 10 * Ten(e - 1) && Ten(e - 1) == 10 * Ten(e - 2);
    TwiceDivided(x, Ten(e - 2) as real);
  }

  lemma TwiceDivided(x: real, t: real)
    requires t > 0.0
    ensures x / (100.0 * t) == x * 0.01 / t
  {
    var q := x * 0.01 / t;
    assert q * t == x * 0.01;
    assert q * (100.0 * t) == 100.0 * (q * t);
    Cancel(x, q, 100.0 * t);
  }

  lemma Tenfold(x: real, exp: int)
    requires exp >= 1
    ensures Scale(x, exp) == Scale(x * 10.0, exp - 1)
  {
    var t := Ten(exp - 1) as real;
    assert Ten(exp) as real == 10.0 * t;
    assert x * (10.0 * t) == x * 10.0 * t;
  }

  lemma ScaleEnds(x: real)
    ensures Scale(x, 0) == x && Scale(x, -1) == x * 0.1
  {
    assert Ten(1) == 10 * Ten(0);
  }

  lemma ScaleDown(x: real, places: nat)
    ensures Scale(x, -(places as int)) == x / Ten(places) as real
  {
  }

  lemma ScaleZero(exp: int)
    ensures Scale(0.0, exp) == 0.0
  {
  }

  /** The scaling loops: hundredths while they last, then a tenth or tens. */
  method Rescale(intval: nat, exponent: int) returns (fval: real)
    ensures fval == Scale(intval as real, exponent)
  {
    hide Scale;
    fval := intval as real;
    var exp := exponent;
    if fval != 0.0 {
      while exp <= -2
        invariant Scale(fval, exp) == Scale(intval as real, exponent)
      {
        Hundredth(fval, exp);
        fval := fval * 0.01;
        exp := exp + 2;
      }
      if exp < 0 {
        ScaleEnds(fval);
        fval := fval * 0.1;
      } else {
        while exp > 0
          invariant exp >= 0 && Scale(fval, exp) == Scale(intval as real, exponent)
        {
          Tenfold(fval, exp);
          fval := fval * 10.0;
          exp := exp - 1;
        }
        ScaleEnds(fval);
      }
    } else {
      ScaleZero(exp);
    }
  }

  /** Extracts a number from a line, leaving the counter at the character after it. */
  method ReadFloat(line: string, counter: nat) returns (ok: bool, value: real, next: nat)
    requires counter <= |line|
    ensures match ReadAt(line, counter)
      case None => !ok && next == counter
      case Some((v, j)) => ok && value == v && next == j
  {
    value, next := 0.0, counter;
    var i := counter;
    var isNegative := false;
    if i < |line| && line[i] == '-' {
      isNegative := true;
      i := i + 1;
    } else if i < |line| && line[i] == '+' {
      i := i + 1;
    }
    ghost var first := i;
    var intval: nat, exp: int, ndigit: nat, isDecimal := 0, 0, 0, false;
    while i < |line| && (Digit(line[i]) || (line[i] == '.' && !isDecimal))
      invariant i <= |line|
      invariant ScanFrom(line, first, START) == ScanFrom(line, i, Scan(intval, exp, ndigit, isDecimal))
    {
      var c := line[i];
      if Digit(c) {
        ndigit := ndigit + 1;
        if ndigit <= MAX_INT_DIGITS {
          if isDecimal {
            exp := exp - 1;
          }
          intval := 10 * intval + (c as nat - '0' as nat);
        } else {
          if !isDecimal {
            exp := exp + 1;
          }
        }
      } else {
        isDecimal := true;
      }
      i := i + 1;
    }
    if ndigit == 0 {
      return false, 0.0, counter;
    }
    var fval := Rescale(intval, exp);
    ok, value, next := true, if isNegative then -fval else fval, i;
  }

  // ---- Printing ----

  /** The integer part: at least one digit. */
  function IntPart(a: nat): (s: string)
    ensures |s| > 0
  {
    (if a < 10 then [] else IntPart(a / 10)) + [DigitOf(a % 10)]
  }

  /** a scaled down by ten to the `places`, with a decimal point even when there are no decimals. */
  function Fixed(a: nat, places: nat): (s: string)
    ensures |s| > 0
  {
    if places == 0 then IntPart(a) + "." else Fixed(a / 10, places - 1) + [DigitOf(a % 10)]
  }

  function Rounded(n: real, places: nat): (a: nat)
    requires n >= 0.0
  {
    (n * Ten(places) as real + 0.5).Floor
  }

  function Printed(n: real, places: nat): string {
    (if n < 0.0 then "-" else "") + Fixed(Rounded(RealAbs(n), places), places)
  }

  /** What is still to be stored, to the left of the i characters stored already. */
  function Rest(a: nat, places: nat, i: nat): string {
    if i <= places then Fixed(a, places - i) else if a == 0 then [] else IntPart(a)
  }

  lemma RestStep(a: nat, places: nat, i: nat)
    requires a > 0 && i != places
    ensures Rest(a, places, i) == Rest(a / 10, places, i + 1) + [DigitOf(a % 10)]
  {
    if i > places && a < 10 {
      assert IntPart(a) == [] + [DigitOf(a % 10)];
    }
  }

  lemma RestPoint(a: nat, places: nat)
    ensures a > 0 ==> Rest(a, places, places) == Rest(a, places, places + 1) + "."
    ensures Rest(0, places, places) == "0" + "."
    ensures forall i :: i > places ==> Rest(0, places, i) == []
  {
    assert IntPart(0) == [] + [DigitOf(0)];
  }

  lemma RestZero(places: nat, i: nat)
    requires i < places
    ensures Rest(0, places, i) == Rest(0, places, i + 1) + "0"
  {
  }

  method ScaleUp(value: real, places: nat) returns (n: real)
    ensures n == value * Ten(places) as real
  {
    hide Scale;
    n := value;
    var decimals := places;
    while decimals >= 2
      invariant n * Ten(decimals) as real == value * Ten(places) as real
    {
      TenfoldProduct(n, decimals);
      TenfoldProduct(n * 10.0, decimals - 1);
      assert n * 10.0 * 10.0 == n * 100.0;
      n := n * 100.0;
      decimals := decimals - 2;
    }
    if decimals != 0 {
      TenfoldProduct(n, 1);
      n := n * 10.0;
    }
  }

  lemma TenfoldProduct(x: real, e: nat)
    requires e > 0
    ensures x * Ten(e) as real == x * 10.0 * Ten(e - 1) as real
  {
    var t := Ten(e - 1) as real;
    assert Ten(e) as real == 10.0 * t;
    assert x * (10.0 * t) == x * 10.0 * t;
  }

  /** The buffer holds the last i characters of the text, last first. */
  ghost predicate Stored(buf: seq<char>, i: nat, text: string) {
    i <= |buf| && i <= |text| && forall k :: 0 <= k < i ==> buf[k] == text[|text| - 1 - k]
  }

  /** One more character stored. */
  lemma StoredMore(buf: seq<char>, i: nat, text: string, rest: string, c: char)
    requires Stored(buf, i, text) && i < |buf| && i < |text| && buf[i] == c && text[..|text| - i] == rest + [c]
    ensures Stored(buf, i + 1, text) && text[..|text| - (i + 1)] == rest
  {
    var was := text[..|text| - i];
    assert text[|text| - 1 - i] == was[|was| - 1] == c;
    assert text[..|text| - (i + 1)] == was[..|was| - 1];
  }

  lemma StoredElsewhere(was: seq<char>, buf: seq<char>, i: nat, text: string)
    requires Stored(was, i, text) && |buf| == |was| && forall k :: 0 <= k < i ==> buf[k] == was[k]
    ensures Stored(buf, i, text)
  {
  }

  /** Where the i characters stored so far leave the text, and the point already in its place. */
  ghost predicate Storing(buf: seq<char>, i: nat, text: string, a: nat, places: nat) {
    Stored(buf, i, text) && text[..|text| - i] == Rest(a, places, i) && places < |buf| && buf[places] == '.' && i != places + 1
  }

  /** Stores one digit, the last of a, in front of a point already there if that comes first. */
  method StoreDigit(a: nat, places: nat, i0: nat, buf: array<char>, ghost text: string) returns (i: nat)
    requires buf.Length == 10 && |text| <= 10 && Storing(buf[..], i0, text, a, places) && a > 0
    modifies buf
    ensures i0 < i <= |text| && Storing(buf[..], i, text, a / 10, places)
  {
    hide Rest, Stored;
    i := i0;
    assert i <= |text| by { StoredLength(buf[..], i, text); }
    if i == places {
      RestPoint(a, places);
      StoredMore(buf[..], i, text, Rest(a, places, i + 1), '.');
      i := i + 1;
    }
    RestStep(a, places, i);
    ghost var was := buf[..];
    buf[i] := DigitOf(a % 10);
    StoredElsewhere(was, buf[..], i, text);
    StoredMore(buf[..], i, text, Rest(a / 10, places, i + 1), DigitOf(a % 10));
    i := i + 1;
  }

  lemma StoredLength(buf: seq<char>, i: nat, text: string)
    requires Stored(buf, i, text)
    ensures i <= |buf| && i <= |text|
  {
  }

  /** Stores the characters of the number backwards in a ten-character buffer. */
  method StoreBackwards(value: nat, places: nat, buf: array<char>) returns (i: nat)
    requires buf.Length == 10 && |Fixed(value, places)| <= 10
    modifies buf
    ensures i == |Fixed(value, places)| && Stored(buf[..], i, Fixed(value, places))
  {
    hide Rest, Fixed;
    ghost var text := Fixed(value, places);
    var a := value;
    i := 0;
    FixedLength(value, places);
    RestStart(value, places);
    buf[places] := '.';
    while a > 0
      invariant i <= |text| && Storing(buf[..], i, text, a, places)
    {
      i := StoreDigit(a, places, i, buf, text);
      a := a / 10;
    }
    i := PadZeros(places, i, buf, text);
  }

  /** Zeroes down to the point, and one in front of it. */
  method PadZeros(places: nat, i0: nat, buf: array<char>, ghost text: string) returns (i: nat)
    requires buf.Length == 10 && |text| <= 10 && Storing(buf[..], i0, text, 0, places)
    modifies buf
    ensures i == |text| && Stored(buf[..], i, text)
  {
    hide Rest;
    i := i0;
    while i < places
      invariant i <= |text| && Storing(buf[..], i, text, 0, places)
    {
      RestZero(places, i);
      ghost var was := buf[..];
      buf[i] := '0';
      StoredElsewhere(was, buf[..], i, text);
      StoredMore(buf[..], i, text, Rest(0, places, i + 1), '0');
      i := i + 1;
    }
    RestPoint(0, places);
    if i == places {
      assert text[..|text| - i] == "0.";
      assert text[0] == text[..2][0] && text[1] == text[..2][1];
      i := i + 1;
      buf[i] := '0';
      i := i + 1;
    }
  }

  lemma RestStart(a: nat, places: nat)
    ensures Rest(a, places, 0) == Fixed(a, places) && |Fixed(a, places)| > 0
  {
  }

  lemma {:induction false} FixedLength(a: nat, places: nat)
    ensures |Fixed(a, places)| >= places + 2
  {
    if places > 0 {
      FixedLength(a / 10, places - 1);
    }
  }

  /** Prints a number rounded to the given number of decimals. */
  method PrintFloat(value: real, places: nat) returns (out: string)
    requires |Fixed(Rounded(RealAbs(value), places), places)| <= 10
    ensures out == Printed(value, places)
  {
    out := [];
    var n := value;
    if n < 0.0 {
      out := "-";
      n := -n;
    }
    n := ScaleUp(n, places);
    n := n + 0.5;
    assert n.Floor == Rounded(RealAbs(value), places);
    hide Rounded, Fixed, RealAbs;
    var buf := new char[10];
    var i := StoreBackwards(n.Floor, places, buf);
    var digits := Emit(buf, i, Fixed(n.Floor, places));
    out := out + digits;
  }

  /** Writes the stored characters, last first. */
  method Emit(buf: array<char>, n: nat, ghost text: string) returns (out: string)
    requires n == |text| && Stored(buf[..], n, text)
    ensures out == text
  {
    out := [];
    var i := n;
    while i > 0
      invariant 0 <= i <= n && out == text[..n - i]
    {
      out := out + [buf[i - 1]];
      i := i - 1;
    }
  }

  // ---- Reading back what was printed ----

  predicate AcceptsAll(st: Scan, s: string)
    decreases |s|, 0
  {
    s == [] || (AcceptsAll(st, s[..|s| - 1]) && Accepts(Fold(st, s[..|s| - 1]), s[|s| - 1]))
  }

  function Fold(st: Scan, s: string): Scan
    requires AcceptsAll(st, s)
    decreases |s|, 1
  {
    if s == [] then st else Next(Fold(st, s[..|s| - 1]), s[|s| - 1])
  }

  /** Text the reader accepts is read to its end, if what follows is not accepted. */
  lemma {:induction false} ScanText(line: string, i: nat, k: nat, text: string, st: Scan)
    requires k <= |text| && i + |text| <= |line| && line[i..i + |text|] == text && AcceptsAll(st, text[..k])
    requires AcceptsAll(st, text)
    requires i + |text| < |line| ==> !Accepts(Fold(st, text), line[i + |text|])
    ensures ScanFrom(line, i + k, Fold(st, text[..k])) == (Fold(st, text), i + |text|)
    decreases |text| - k
  {
    if k == |text| {
      assert text[..k] == text;
    } else {
      AcceptsPrefix(st, text, k + 1);
      assert text[..k + 1][..k] == text[..k];
      assert line[i + k] == text[k];
      ScanText(line, i, k + 1, text, st);
    }
  }

  lemma {:induction false} AcceptsPrefix(st: Scan, s: string, k: nat)
    requires AcceptsAll(st, s) && k <= |s|
    ensures AcceptsAll(st, s[..k])
  {
    if k == |s| {
      assert s[..k] == s;
    } else {
      AcceptsPrefix(st, s[..|s| - 1], k);
      assert s[..|s| - 1][..k] == s[..k];
    }
  }

  lemma Snoc(st: Scan, s: string, c: char)
    requires AcceptsAll(st, s) && Accepts(Fold(st, s), c)
    ensures AcceptsAll(st, s + [c]) && Fold(st, s + [c]) == Next(Fold(st, s), c)
  {
    assert (s + [c])[..|s|] == s;
  }

  lemma FoldEmpty(st: Scan)
    ensures AcceptsAll(st, []) && Fold(st, []) == st
  {
  }

  lemma {:induction false} ReadIntPart(a: nat, digits: nat)
    requires a < Ten(digits) && 0 < digits <= MAX_INT_DIGITS
    ensures |IntPart(a)| <= digits && AcceptsAll(START, IntPart(a))
    ensures Fold(START, IntPart(a)) == Scan(a, 0, |IntPart(a)|, false)
    decreases digits
  {
    hide AcceptsAll, Fold;
    FoldEmpty(START);
    if a < 10 {
      assert IntPart(a) == [] + [DigitOf(a)];
      Snoc(START, [], DigitOf(a));
    } else {
      assert digits > 1;
      ReadIntPart(a / 10, digits - 1);
      Snoc(START, IntPart(a / 10), DigitOf(a % 10));
    }
  }

  lemma {:induction false} ReadFixed(a: nat, places: nat, digits: nat)
    requires a < Ten(digits) && places < digits <= MAX_INT_DIGITS
    ensures 0 < |Fixed(a, places)| <= digits + 1 && AcceptsAll(START, Fixed(a, places))
    ensures Fold(START, Fixed(a, places)) == Scan(a, -(places as int), |Fixed(a, places)| - 1, true)
    decreases places
  {
    hide AcceptsAll, Fold;
    if places == 0 {
      ReadIntPart(a, digits);
      Snoc(START, IntPart(a), '.');
    } else {
      ReadFixed(a / 10, places - 1, digits - 1);
      Snoc(START, Fixed(a / 10, places - 1), DigitOf(a % 10));
    }
  }

  lemma {:induction false} FixedStartsWithDigit(a: nat, places: nat)
    ensures |Fixed(a, places)| > 0 && Digit(Fixed(a, places)[0])
  {
    if places == 0 {
      IntPartStartsWithDigit(a);
    } else {
      FixedStartsWithDigit(a / 10, places - 1);
    }
  }

  lemma {:induction false} IntPartStartsWithDigit(a: nat)
    ensures Digit(IntPart(a)[0])
  {
    if a >= 10 {
      IntPartStartsWithDigit(a / 10);
    }
  }

  /** Round trip: anywhere in a line, not followed by another digit, a printed number with at most eight
      digits and seven decimals reads back as the number rounded to those decimals, and exactly the printed
      characters are consumed. */
  lemma PrintedReadsBack(n: real, places: nat, line: string, i: nat)
    requires places < MAX_INT_DIGITS && Rounded(RealAbs(n), places) < Ten(MAX_INT_DIGITS)
    requires i + |Printed(n, places)| <= |line| && line[i..i + |Printed(n, places)|] == Printed(n, places)
    requires i + |Printed(n, places)| < |line| ==> !Digit(line[i + |Printed(n, places)|])
    ensures var r := Rounded(RealAbs(n), places) as real / Ten(places) as real;
      ReadAt(line, i) == Some((if n < 0.0 then -r else r, i + |Printed(n, places)|))
  {
    hide AcceptsAll, Fold, ReadAt, Fixed, Scale, Rounded;
    var a := Rounded(RealAbs(n), places);
    ReadFixed(a, places, MAX_INT_DIGITS);
    FixedStartsWithDigit(a, places);
    FixedLength(a, places);
    ReadsText(line, i, if n < 0.0 then "-" else "", Fixed(a, places));
    ScaleDown(a as real, places);
  }

  /** Reading back is within half a unit of the last decimal. */
  lemma RoundedClose(n: real, places: nat)
    requires n >= 0.0
    ensures var r := Rounded(n, places) as real / Ten(places) as real;
      -0.5 <= (r - n) * Ten(places) as real <= 0.5
  {
    var t := Ten(places) as real;
    var a := Rounded(n, places) as real;
    assert a <= n * t + 0.5 < a + 1.0;
    assert a / t * t == a;
    assert (a / t - n) * t == a / t * t - n * t;
  }

  // ---- Reading any decimal number ----

  predicate AllDigits(s: string) {
    forall i :: 0 <= i < |s| ==> Digit(s[i])
  }

  /** The number a row of digits stands for. */
  function DigitsValue(s: string): nat
    requires AllDigits(s)
  {
    if s == [] then 0 else 10 * DigitsValue(s[..|s| - 1]) + (s[|s| - 1] as nat - '0' as nat)
  }

  /** How many of n digits the reader keeps. */
  function Kept(n: nat): nat {
    if n < MAX_INT_DIGITS then n else MAX_INT_DIGITS
  }

  lemma {:induction false} FoldInteger(a: string)
    requires AllDigits(a)
    ensures AcceptsAll(START, a)
    ensures Fold(START, a) == Scan(DigitsValue(a[..Kept(|a|)]), |a| - Kept(|a|), |a|, false)
  {
    hide AcceptsAll, Fold;
    if a == [] {
      FoldEmpty(START);
    } else {
      var n := |a| - 1;
      FoldInteger(a[..n]);
      Snoc(START, a[..n], a[n]);
      assert a[..n] + [a[n]] == a && a[..n + 1] == a;
      KeptDigits(a, n);
    }
  }

  /** A further digit is the last one kept, or is dropped. */
  lemma KeptDigits(s: string, n: nat)
    requires AllDigits(s) && n < |s|
    ensures var was := s[..n][..Kept(n)];
      if n < MAX_INT_DIGITS then DigitsValue(s[..n + 1][..Kept(n + 1)]) == 10 * DigitsValue(was) + (s[n] as nat - '0' as nat)
      else s[..n + 1][..Kept(n + 1)] == was
  {
    if n < MAX_INT_DIGITS {
      assert s[..n + 1][..Kept(n + 1)][..n] == s[..n][..Kept(n)];
    }
  }

  lemma {:induction false} FoldDecimal(a: string, b: string)
    requires AllDigits(a) && AllDigits(b)
    ensures AllDigits(a + b) && AcceptsAll(START, a + "." + b)
    ensures var k := Kept(|a + b|);
      Fold(START, a + "." + b) == Scan(DigitsValue((a + b)[..k]), |a| - k, |a + b|, true)
    decreases |b|
  {
    hide AcceptsAll, Fold;
    if b == [] {
      FoldInteger(a);
      Snoc(START, a, '.');
      assert a + b == a && a + "." + b == a + ".";
    } else {
      var n := |b| - 1;
      FoldDecimal(a, b[..n]);
      Snoc(START, a + "." + b[..n], b[n]);
      assert a + "." + b[..n] + [b[n]] == a + "." + b;
      assert (a + b)[..|a| + n] == a + b[..n] && (a + b)[..|a| + n + 1] == a + b;
      KeptDigits(a + b, |a| + n);
    }
  }

  /** Digits a, or digits a, a point and digits b. */
  function DecimalText(a: string, point: bool, b: string): string {
    if point then a + "." + b else a
  }

  lemma FoldText(a: string, point: bool, b: string)
    requires AllDigits(a) && AllDigits(b) && |a| + |b| > 0 && (!point ==> b == "")
    ensures var text := DecimalText(a, point, b);
      && AllDigits(a + b) && text != [] && (Digit(text[0]) || text[0] == '.') && AcceptsAll(START, text)
      && Fold(START, text) == Scan(DigitsValue((a + b)[..Kept(|a + b|)]), |a| - Kept(|a + b|), |a + b|, point)
  {
    hide AcceptsAll, Fold;
    if point {
      FoldDecimal(a, b);
    } else {
      FoldInteger(a);
      assert a + b == a;
    }
  }

  /** A number written so reads as its first eight digits at their place; with no more than eight, as the number itself. */
  lemma ReadsDecimal(line: string, i: nat, sign: string, a: string, point: bool, b: string)
    requires sign in {"", "+", "-"} && AllDigits(a) && AllDigits(b) && |a| + |b| > 0 && (!point ==> b == "")
    requires var text := sign + DecimalText(a, point, b);
      && i + |text| <= |line| && line[i..i + |text|] == text
      && (i + |text| < |line| ==> !Digit(line[i + |text|]) && (point || line[i + |text|] != '.'))
    ensures AllDigits(a + b)
    ensures var (text, k) := (sign + DecimalText(a, point, b), Kept(|a + b|));
      var r := Scale(DigitsValue((a + b)[..k]) as real, |a| - k);
      && ReadAt(line, i) == Some((if sign == "-" then -r else r, i + |text|))
      && (|a + b| <= MAX_INT_DIGITS ==> r == DigitsValue(a + b) as real / Ten(|b|) as real)
  {
    hide AcceptsAll, Fold, Scale, DecimalText, ReadAt, DigitsValue;
    FoldText(a, point, b);
    ReadsText(line, i, sign, DecimalText(a, point, b));
    if |a + b| <= MAX_INT_DIGITS {
      assert (a + b)[..|a + b|] == a + b;
      ScaleDown(DigitsValue(a + b) as real, |b|);
    }
  }

  lemma ReadsText(line: string, i: nat, sign: string, digits: string)
    requires sign in {"", "+", "-"} && digits != [] && (Digit(digits[0]) || digits[0] == '.')
    requires AcceptsAll(START, digits) && Fold(START, digits).ndigit > 0
    requires i + |sign + digits| <= |line| && line[i..i + |sign + digits|] == sign + digits
    requires i + |sign + digits| < |line| ==> !Accepts(Fold(START, digits), line[i + |sign + digits|])
    ensures var st := Fold(START, digits);
      var r := Scale(st.intval as real, st.exp);
      ReadAt(line, i) == Some((if sign == "-" then -r else r, i + |sign + digits|))
  {
    hide AcceptsAll, Fold, ScanFrom, Scale;
    SignFollows(line, i, sign, digits);
    assert line[i + |sign|..i + |sign + digits|] == line[i..i + |sign + digits|][|sign|..] == digits;
    FoldEmpty(START);
    assert digits[..0] == [];
    ScanText(line, i + |sign|, 0, digits, START);
  }

  lemma SignFollows(line: string, i: nat, sign: string, digits: string)
    requires sign in {"", "+", "-"} && digits != [] && (Digit(digits[0]) || digits[0] == '.')
    requires i + |sign + digits| <= |line| && line[i..i + |sign + digits|] == sign + digits
    ensures SignAt(line, i) == |sign| && (line[i] == '-' <==> sign == "-")
  {
    assert line[i] == line[i..i + |sign + digits|][0] == (sign + digits)[0];
  }
}
