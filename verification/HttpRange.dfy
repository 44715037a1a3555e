// ParseRange: the Range header of RFC 7233, as far as it is supported.
module HttpRange {
  import opened Common

  // Two's complement wrap-around of a sum or difference of int64 values.
  function Wrap64(x: int): int {
    if x > MAX_INT64 then x - 0x1_0000_0000_0000_0000 else if x < MIN_INT64 then x + 0x1_0000_0000_0000_0000 else x
  }

  // strings.Split for a one-letter separator.
  function Split(s: string, c: char): (parts: seq<string>)
    ensures |parts| >= 1
  {
    if s == "" then [""]
    else
      var t := Split(s[1..], c);
      if s[0] == c then [""] + t else [[s[0]] + t[0]] + t[1..]
  }

  // unicode.IsSpace on Latin-1.
  predicate IsSpace(c: char) { c == ' ' || '\t' <= c <= '\r' || c == '\U{85}' || c == '\U{A0}' }

  function TrimSpace(s: string): string
    decreases |s|
  {
    if s != "" && IsSpace(s[0]) then TrimSpace(s[1..])
    else if s != "" && IsSpace(s[|s| - 1]) then TrimSpace(s[..|s| - 1])
    else s
  }

  predicate IsDigit(c: char) { '0' <= c <= '9' }

  function Digits(s: string): Option<nat> {
    if s == "" then Some(0)
    else
      var v, c := Digits(s[..|s| - 1]), s[|s| - 1];
      if v.Some? && IsDigit(c) then Some(10 * v.value + (c as int - '0' as int)) else None
  }

  // strconv.ParseInt in base 10 for 64 bits.
  function ParseInt(s: string): Option<int> {
    if s == "" then None
    else
      var neg, num := s[0] == '-', if s[0] == '-' || s[0] == '+' then s[1..] else s;
      if num == "" then None
      else
        match Digits(num)
        case None => None
        case Some(v) =>
          if neg then (if v <= -MIN_INT64 then Some(-(v as int)) else None)
          else if v <= MAX_INT64 then Some(v)
          else None
  }

  function ParseRange(rng: string): Option<(int, int)> {
    if !("bytes=" <= rng) then None
    else
      var rgs := Split(rng[6..], ',');
      if |rgs| != 1 then None
      else
        var rg := Split(TrimSpace(rgs[0]), '-');
        if |rg| != 2 then None
        else
          var from := ParseInt(rg[0]);
          var to := if rg[1] == "" then Some(MAX_INT64 - 1) else ParseInt(rg[1]);
          if from.None? || to.None? then None
          else if to.value < from.value || to.value < 0 || from.value < 0 then None
          else Some((from.value, Wrap64(to.value + 1)))
  }

  // --- what it accepts ---

  predicate AllDigits(s: string) { forall c :: c in s ==> IsDigit(c) }

  // Decimal notation.
  function Dec(n: nat): (s: string)
    ensures s != "" && AllDigits(s)
  {
    var d := [('0' as int + n % 10) as char];
    if n < 10 then d else Dec(n / 10) + d
  }

  lemma {:induction false} DigitsOfDec(n: nat)
    ensures Digits(Dec(n)) == Some(n)
  {
    var d := ('0' as int + n % 10) as char;
    if n < 10 {
      assert Dec(n)[..0] == "";
    } else {
      DigitsOfDec(n / 10);
      assert Dec(n)[..|Dec(n)| - 1] == Dec(n / 10) && Dec(n)[|Dec(n)| - 1] == d;
    }
  }

  lemma ParseDec(n: nat)
    ensures ParseInt(Dec(n)) == if n <= MAX_INT64 then Some(n) else None
  {
    DigitsOfDec(n);
    assert IsDigit(Dec(n)[0]);
  }

  lemma {:induction false} SplitNone(s: string, c: char)
    requires c !in s
    ensures Split(s, c) == [s]
  {
    if s != "" {
      SplitNone(s[1..], c);
      assert [s[0]] + s[1..] == s;
    }
  }

  lemma {:induction false} SplitTwo(a: string, c: char, b: string)
    requires c !in a && c !in b
    ensures Split(a + [c] + b, c) == [a, b]
  {
    var s := a + [c] + b;
    if a == "" {
      assert s[1..] == b;
      SplitNone(b, c);
    } else {
      assert s[1..] == a[1..] + [c] + b;
      SplitTwo(a[1..], c, b);
      assert [a[0]] + a[1..] == a;
    }
  }

  lemma NoSpaceAround(s: string)
    requires s != "" && !IsSpace(s[0]) && !IsSpace(s[|s| - 1])
    ensures TrimSpace(s) == s
  {
  }

  lemma HeaderParts(a: string, b: string)
    requires AllDigits(a) && AllDigits(b)
    ensures var h := "bytes=" + a + "-" + b;
            "bytes=" <= h && Split(h[6..], ',') == [a + "-" + b] && Split(TrimSpace(a + "-" + b), '-') == [a, b]
  {
    var h, s := "bytes=" + a + "-" + b, a + "-" + b;
    assert h == "bytes=" + s && h[6..] == s && h[..6] == "bytes=";
    assert forall c :: c in s ==> c in a || c == '-' || c in b;
    SplitNone(s, ',');
    assert s[0] in s && s[|s| - 1] in s;
    NoSpaceAround(s);
    SplitTwo(a, '-', b);
  }

  // What is made of two strings of digits.
  lemma ParseParts(a: string, b: string)
    requires AllDigits(a) && AllDigits(b)
    ensures ParseRange("bytes=" + a + "-" + b)
            == var from, to := ParseInt(a), if b == "" then Some(MAX_INT64 - 1) else ParseInt(b);
               if from.None? || to.None? || to.value < from.value || to.value < 0 || from.value < 0 then None
               else Some((from.value, Wrap64(to.value + 1)))
  {
    HeaderParts(a, b);
  }

  // "bytes=from-to" is accepted exactly when to is not before from, and gives the half-open
  // range; the end wraps around when to is the largest int64.
  lemma ClosedRange(from: nat, to: nat)
    requires from <= MAX_INT64 && to <= MAX_INT64
    ensures ParseRange("bytes=" + Dec(from) + "-" + Dec(to)) == if to < from then None else Some((from, Wrap64(to + 1)))
    ensures from <= to ==> (Wrap64(to + 1) == to + 1 <==> to < MAX_INT64)
  {
    ParseDec(from);
    ParseDec(to);
    ParseBoth(Dec(from), Dec(to), from, to);
  }

  lemma ParseBoth(a: string, b: string, from: nat, to: nat)
    requires AllDigits(a) && AllDigits(b) && b != "" && ParseInt(a) == Some(from) && ParseInt(b) == Some(to)
    ensures ParseRange("bytes=" + a + "-" + b) == if to < from then None else Some((from, Wrap64(to + 1)))
  {
    ParseParts(a, b);
  }

  // The header that asks for all of the int64 range.
  lemma LargestEnd()
    ensures ParseRange("bytes=0-" + Dec(MAX_INT64)) == Some((0, MIN_INT64))
  {
    ClosedRange(0, MAX_INT64);
    assert "bytes=" + Dec(0) + "-" + Dec(MAX_INT64) == "bytes=0-" + Dec(MAX_INT64);
  }

  // "bytes=from-" runs to the end, for every from but the largest int64.
  lemma OpenRange(from: nat)
    requires from <= MAX_INT64
    ensures ParseRange("bytes=" + Dec(from) + "-") == if from < MAX_INT64 then Some((from, MAX_INT64)) else None
  {
    var d := Dec(from);
    ParseParts(d, "");
    ParseDec(from);
    assert "bytes=" + d + "-" + "" == "bytes=" + d + "-";
  }

  // The suffix ranges of RFC 7233, section 2.1, are refused.
  lemma SuffixRange(n: nat)
    ensures ParseRange("bytes=-" + Dec(n)) == None
  {
    HeaderParts("", Dec(n));
    assert "bytes=" + "" + "-" + Dec(n) == "bytes=-" + Dec(n);
  }

  // Whatever the header: the range begins in the int64 range and is not empty, or its end
  // has wrapped around.
  lemma RangeShape(rng: string)
    requires ParseRange(rng).Some?
    ensures var r := ParseRange(rng).value; 0 <= r.0 <= MAX_INT64 && (r.0 < r.1 <= MAX_INT64 || r.1 == MIN_INT64)
  {
    var rg := Split(TrimSpace(Split(rng[6..], ',')[0]), '-');
    ParseBounds(rg[0]);
    ParseBounds(rg[1]);
  }

  lemma ParseBounds(s: string)
    ensures ParseInt(s).Some? ==> MIN_INT64 <= ParseInt(s).value <= MAX_INT64
  {
  }

  // --- the text of every accepted header ---

  // White space of Latin-1.
  const SPACES: string := [' ', '\t', '\n', '\U{0B}', '\U{0C}', '\r', '\U{85}', '\U{A0}']

  predicate Blank(s: string) { forall c :: c in s ==> c in SPACES }

  function ZeroChars(k: nat): string { seq(k, _ => '0') }

  // Decimal notation, with a plus and with zeros in front if one likes.
  function Numeral(plus: bool, k: nat, n: nat): string {
    if plus then "+" + (ZeroChars(k) + Dec(n)) else ZeroChars(k) + Dec(n)
  }

  ghost predicate Writes(s: string, n: nat) { exists plus: bool, k: nat :: s == Numeral(plus, k, n) }

  // One range between two numerals, the second of which may be missing; white space around it.
  ghost predicate Asks(rng: string, from: nat, to: nat) {
    exists l: string, x: string, y: string, r: string :: AsksWith(rng, from, to, l, x, y, r)
  }

  ghost predicate AsksWith(rng: string, from: nat, to: nat, l: string, x: string, y: string, r: string) {
    && rng == "bytes=" + (l + (x + "-" + y) + r) && Blank(l) && Blank(r)
    && Writes(x, from) && (if y == "" then to == MAX_INT64 - 1 else Writes(y, to))
  }

  lemma SpaceIs(c: char)
    ensures IsSpace(c) <==> c in SPACES
  {
  }

  lemma {:induction false} TrimParts(s: string) returns (l: string, r: string)
    ensures s == l + TrimSpace(s) + r && Blank(l) && Blank(r)
    decreases |s|
  {
    l, r := "", "";
    if s != "" && IsSpace(s[0]) {
      SpaceIs(s[0]);
      l, r := TrimParts(s[1..]);
      assert s == [s[0]] + s[1..];
      assert s == ([s[0]] + l) + TrimSpace(s) + r;
      l := [s[0]] + l;
    } else if s != "" && IsSpace(s[|s| - 1]) {
      var n := |s| - 1;
      SpaceIs(s[n]);
      l, r := TrimParts(s[..n]);
      assert s == s[..n] + [s[n]];
      assert s == l + TrimSpace(s) + (r + [s[n]]);
      r := r + [s[n]];
    }
  }

  lemma {:induction false} TrimExact(l: string, m: string, r: string)
    requires Blank(l) && Blank(r) && m != "" && !IsSpace(m[0]) && !IsSpace(m[|m| - 1])
    ensures TrimSpace(l + m + r) == m
    decreases |l| + |r|
  {
    var s := l + m + r;
    if l != "" {
      SpaceIs(l[0]);
      assert s[0] == l[0] && s[1..] == l[1..] + m + r;
      TrimExact(l[1..], m, r);
    } else if r != "" {
      var n := |r| - 1;
      SpaceIs(r[n]);
      assert s[0] == m[0] && s[|s| - 1] == r[n] && s[..|s| - 1] == l + m + r[..n];
      TrimExact(l, m, r[..n]);
    } else {
      assert s == m;
      NoSpaceAround(m);
    }
  }

  // No part holds the separator, and one or two parts are all of the string.
  lemma {:induction false} SplitJoins(s: string, c: char)
    ensures forall i :: 0 <= i < |Split(s, c)| ==> c !in Split(s, c)[i]
    ensures |Split(s, c)| == 1 ==> s == Split(s, c)[0]
    ensures |Split(s, c)| == 2 ==> s == Split(s, c)[0] + [c] + Split(s, c)[1]
  {
    if s != "" {
      SplitJoins(s[1..], c);
      assert s == [s[0]] + s[1..];
    }
  }

  lemma {:induction false} ZerosAreNone(k: nat)
    ensures Digits(ZeroChars(k)) == Some(0)
  {
    if k > 0 {
      ZerosAreNone(k - 1);
      assert ZeroChars(k)[..k - 1] == ZeroChars(k - 1);
    }
  }

  lemma {:induction false} DigitsOfPadded(k: nat, n: nat)
    ensures Digits(ZeroChars(k) + Dec(n)) == Some(n)
  {
    var s, d := ZeroChars(k) + Dec(n), ('0' as int + n % 10) as char;
    if n < 10 {
      ZerosAreNone(k);
      assert s[..|s| - 1] == ZeroChars(k) && s[|s| - 1] == d;
    } else {
      DigitsOfPadded(k, n / 10);
      assert s[..|s| - 1] == ZeroChars(k) + Dec(n / 10) && s[|s| - 1] == d;
    }
  }

  lemma {:induction false} DigitsAreWritten(s: string) returns (k: nat)
    requires s != "" && Digits(s).Some?
    ensures s == ZeroChars(k) + Dec(Digits(s).value)
  {
    var init, c := s[..|s| - 1], s[|s| - 1];
    assert s == init + [c];
    if init == "" {
      k := 0;
    } else {
      k := DigitsAreWritten(init);
      var v := Digits(init).value;
      if v == 0 {
        assert Dec(0) == "0" && ZeroChars(k) + "0" == ZeroChars(k + 1);
        k := k + 1;
      } else {
        assert Digits(s).value / 10 == v;
      }
    }
  }

  // Without a minus a string is a number exactly when it is a numeral in the int64 range.
  lemma ParsesExactly(s: string, n: nat)
    requires '-' !in s
    ensures ParseInt(s) == Some(n) <==> n <= MAX_INT64 && Writes(s, n)
    ensures ParseInt(s).Some? ==> ParseInt(s).value >= 0
  {
    if s != "" { assert s[0] in s; }
    if n <= MAX_INT64 && Writes(s, n) { WrittenParses(s, n); }
    if ParseInt(s) == Some(n) {
      var plus := s[0] == '+';
      var num := if plus then s[1..] else s;
      var k := DigitsAreWritten(num);
      assert plus ==> s == [s[0]] + s[1..];
      assert s == Numeral(plus, k, n);
    }
  }

  lemma WrittenParses(s: string, n: nat)
    requires n <= MAX_INT64 && Writes(s, n)
    ensures ParseInt(s) == Some(n) && s != "" && '-' !in s
    ensures forall c :: c in s ==> IsDigit(c) || c == '+'
  {
    var plus: bool, k: nat :| s == Numeral(plus, k, n);
    PaddedIsDigits(k, n);
    DigitsOfPadded(k, n);
    var num := ZeroChars(k) + Dec(n);
    assert num[0] in num;
    if plus { assert s[1..] == num; }
  }

  lemma PaddedIsDigits(k: nat, n: nat)
    ensures AllDigits(ZeroChars(k) + Dec(n)) && ZeroChars(k) + Dec(n) != ""
  {
    forall c | c in ZeroChars(k) + Dec(n) ensures IsDigit(c) { assert c in ZeroChars(k) || c in Dec(n); }
  }

  lemma AskedIsAccepted(rng: string, from: nat, to: nat)
    requires from <= to <= MAX_INT64 && Asks(rng, from, to)
    ensures ParseRange(rng) == Some((from, if to < MAX_INT64 then to + 1 else MIN_INT64))
  {
    var l: string, x: string, y: string, r: string :| AsksWith(rng, from, to, l, x, y, r);
    WithIsAccepted(rng, from, to, l, x, y, r);
  }

  lemma WithIsAccepted(rng: string, from: nat, to: nat, l: string, x: string, y: string, r: string)
    requires from <= to <= MAX_INT64 && AsksWith(rng, from, to, l, x, y, r)
    ensures ParseRange(rng) == Some((from, if to < MAX_INT64 then to + 1 else MIN_INT64))
  {
    WrittenParses(x, from);
    if y != "" { WrittenParses(y, to); }
    BodyParts(rng, l, x, y, r);
    Understood(rng, x, y, from, to);
  }

  lemma Understood(rng: string, x: string, y: string, from: nat, to: nat)
    requires "bytes=" <= rng && Split(rng[6..], ',') == [rng[6..]] && Split(TrimSpace(rng[6..]), '-') == [x, y]
    requires ParseInt(x) == Some(from) && (if y == "" then to == MAX_INT64 - 1 else ParseInt(y) == Some(to))
    requires from <= to <= MAX_INT64
    ensures ParseRange(rng) == Some((from, if to < MAX_INT64 then to + 1 else MIN_INT64))
  {
  }

  // Such a text is taken apart into its two numerals.
  lemma BodyParts(rng: string, l: string, x: string, y: string, r: string)
    requires rng == "bytes=" + (l + (x + "-" + y) + r) && Blank(l) && Blank(r) && x != ""
    requires forall c :: c in x || c in y ==> IsDigit(c) || c == '+'
    ensures "bytes=" <= rng && Split(rng[6..], ',') == [rng[6..]] && Split(TrimSpace(rng[6..]), '-') == [x, y]
  {
    var m := x + "-" + y;
    assert rng[6..] == l + m + r && rng[..6] == "bytes=";
    assert m[0] == x[0] && m[0] in x && m[|m| - 1] == if y == "" then '-' else y[|y| - 1];
    assert y != "" ==> m[|m| - 1] in y;
    TrimExact(l, m, r);
    SplitTwo(x, '-', y);
    NoCommas(l, x, y, r);
    SplitNone(rng[6..], ',');
  }

  lemma NoCommas(l: string, x: string, y: string, r: string)
    requires Blank(l) && Blank(r) && ',' !in x && ',' !in y
    ensures ',' !in l + (x + "-" + y) + r
  {
  }

  lemma AcceptedIsAsked(rng: string) returns (from: nat, to: nat)
    requires ParseRange(rng).Some?
    ensures from <= to <= MAX_INT64 && Asks(rng, from, to)
  {
    var body := rng[6..];
    assert rng == "bytes=" + body;
    SplitJoins(body, ',');
    var m := TrimSpace(body);
    var l, r := TrimParts(body);
    SplitJoins(m, '-');
    var x, y := Split(m, '-')[0], Split(m, '-')[1];
    from := ParseInt(x).value;
    ParsesExactly(x, from);
    if y == "" {
      to := MAX_INT64 - 1;
    } else {
      to := ParseInt(y).value;
      ParsesExactly(y, to);
    }
    assert m == x + "-" + y;
    assert AsksWith(rng, from, to, l, x, y, r);
  }

  // A header is accepted exactly when it is "bytes=" and one range of two numerals in order,
  // the second of which may be missing, with white space around it or none; and then it is
  // understood as written.
  lemma AcceptedExactly(rng: string)
    ensures ParseRange(rng).Some? <==> exists from: nat, to: nat :: from <= to <= MAX_INT64 && Asks(rng, from, to)
    ensures forall from: nat, to: nat :: from <= to <= MAX_INT64 && Asks(rng, from, to) ==>
              ParseRange(rng) == Some((from, if to < MAX_INT64 then to + 1 else MIN_INT64))
  {
    if ParseRange(rng).Some? {
      var from, to := AcceptedIsAsked(rng);
    }
    forall from: nat, to: nat | from <= to <= MAX_INT64 && Asks(rng, from, to)
      ensures ParseRange(rng) == Some((from, if to < MAX_INT64 then to + 1 else MIN_INT64))
    {
      AskedIsAccepted(rng, from, to);
    }
  }

  // Several ranges are refused, and other units.
  lemma RefusedHeaders(rng: string)
    ensures ',' in rng ==> ParseRange(rng).None?
    ensures !("bytes=" <= rng) ==> ParseRange(rng).None?
  {
    if "bytes=" <= rng && ',' in rng {
      assert rng == "bytes=" + rng[6..];
      SplitJoins(rng[6..], ',');
    }
  }

  lemma {:induction false} TrimBlank(s: string)
    requires Blank(s)
    ensures TrimSpace(s) == ""
    decreases |s|
  {
    if s != "" {
      SpaceIs(s[0]);
      TrimBlank(s[1..]);
    }
  }

  lemma {:induction false} TrimEnds(s: string)
    requires TrimSpace(s) != ""
    ensures !IsSpace(TrimSpace(s)[0]) && !IsSpace(TrimSpace(s)[|TrimSpace(s)| - 1])
    decreases |s|
  {
    if IsSpace(s[0]) { TrimEnds(s[1..]); } else if IsSpace(s[|s| - 1]) { TrimEnds(s[..|s| - 1]); }
  }

  lemma TrimAround(l: string, s: string, r: string)
    requires Blank(l) && Blank(r)
    ensures TrimSpace(l + s + r) == TrimSpace(s)
  {
    var a, b := TrimParts(s);
    if TrimSpace(s) == "" {
      TrimBlank(l + s + r);
    } else {
      TrimEnds(s);
      TrimExact(l + a, TrimSpace(s), b + r);
      assert l + s + r == (l + a) + TrimSpace(s) + (b + r);
    }
  }

  lemma OneRange(s: string)
    requires ',' !in s
    ensures "bytes=" <= "bytes=" + s && Split(("bytes=" + s)[6..], ',') == [s]
  {
    assert ("bytes=" + s)[6..] == s && ("bytes=" + s)[..6] == "bytes=";
    SplitNone(s, ',');
  }

  // What is trimmed alike is understood alike.
  lemma TrimmedAlike(a: string, b: string)
    requires ',' !in a && ',' !in b && TrimSpace(a) == TrimSpace(b)
    ensures ParseRange("bytes=" + a) == ParseRange("bytes=" + b)
  {
    OneRange(a);
    OneRange(b);
  }

  // White space around the range changes nothing, whatever the range.
  lemma SpacesIgnored(l: string, s: string, r: string)
    requires Blank(l) && Blank(r)
    ensures ParseRange("bytes=" + (l + s + r)) == ParseRange("bytes=" + s)
  {
    if ',' in s {
      assert ',' in l + s + r;
      RefusedHeaders("bytes=" + (l + s + r));
      RefusedHeaders("bytes=" + s);
    } else {
      TrimAround(l, s, r);
      TrimmedAlike(l + s + r, s);
    }
  }
}
