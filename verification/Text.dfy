/** The string operations the operator borrows from Go's strings, strconv and fmt
    packages, on sequences of Unicode characters, with the laws the codecs rest on. */
module Text {

  // ---------- strings.Split, strings.SplitN(_, _, 2), strings.Join ----------

  /** strings.Split for a one-character separator. */
  function Split(s: string, sep: char): (parts: seq<string>)
    ensures |parts| >= 1
  {
    if s == "" then [""]
    else if s[0] == sep then [""] + Split(s[1..], sep)
    else
      var rest := Split(s[1..], sep);
      [[s[0]] + rest[0]] + rest[1..]
  }

  function Join(parts: seq<string>, sep: char): string
  {
    if parts == [] then ""
    else if |parts| == 1 then parts[0]
    else parts[0] + [sep] + Join(parts[1..], sep)
  }

  /** strings.SplitN(s, sep, 2): everything up to the first separator, and everything after it. */
  function SplitN2(s: string, sep: char): (parts: seq<string>)
    ensures |parts| == 1 <==> sep !in s
    ensures |parts| == 1 || |parts| == 2
    ensures sep !in parts[0]
    ensures |parts| == 2 ==> parts[0] + [sep] + parts[1] == s
  {
    if s == "" then [""]
    else if s[0] == sep then
      assert [sep] + s[1..] == s;
      ["", s[1..]]
    else
      assert s == [s[0]] + s[1..];
      var rest := SplitN2(s[1..], sep);
      [[s[0]] + rest[0]] + rest[1..]
  }

  lemma {:induction false} SplitPieces(s: string, sep: char)
    ensures forall p <- Split(s, sep) :: sep !in p
  {
    if s != "" {
      SplitPieces(s[1..], sep);
      var rest := Split(s[1..], sep);
      forall p | p in Split(s, sep) ensures sep !in p {
        assert p == "" || p == [s[0]] + rest[0] || p in rest;
      }
    }
  }

  lemma JoinLonger(c: char, parts: seq<string>, sep: char)
    requires parts != []
    ensures Join([[c] + parts[0]] + parts[1..], sep) == [c] + Join(parts, sep)
  {
    assert ([[c] + parts[0]] + parts[1..])[1..] == parts[1..];
  }

  lemma {:induction false} JoinSplit(s: string, sep: char)
    ensures Join(Split(s, sep), sep) == s
  {
    if s != "" {
      var rest := Split(s[1..], sep);
      JoinSplit(s[1..], sep);
      if s[0] == sep {
        assert ([""] + rest)[1..] == rest;
      } else {
        JoinLonger(s[0], rest, sep);
      }
      assert s == [s[0]] + s[1..];
    }
  }

  lemma {:induction false} SplitFree(s: string, sep: char)
    requires sep !in s
    ensures Split(s, sep) == [s]
  {
    if s != "" {
      SplitFree(s[1..], sep);
      assert [s[0]] + s[1..] == s;
    }
  }

  /** Splitting distributes over a separator placed between any two strings. */
  lemma {:induction false} SplitConcat(a: string, b: string, sep: char)
    ensures Split(a + [sep] + b, sep) == Split(a, sep) + Split(b, sep)
  {
    var t := a + [sep] + b;
    if a == "" {
      assert t[1..] == b;
    } else {
      assert t[1..] == a[1..] + [sep] + b;
      SplitConcat(a[1..], b, sep);
    }
  }

  lemma {:induction false} SplitJoin(parts: seq<string>, sep: char)
    requires parts != []
    requires forall p <- parts :: sep !in p
    ensures Split(Join(parts, sep), sep) == parts
  {
    SplitFree(parts[0], sep);
    if |parts| > 1 {
      SplitConcat(parts[0], Join(parts[1..], sep), sep);
      SplitJoin(parts[1..], sep);
    }
  }

  /** A join of n parts splits into exactly n pieces just when no part holds the separator. */
  lemma {:induction false} SplitJoinCount(parts: seq<string>, sep: char)
    requires parts != []
    ensures |Split(Join(parts, sep), sep)| >= |parts|
    ensures |Split(Join(parts, sep), sep)| == |parts| <==> forall p <- parts :: sep !in p
  {
    SplitFreeCount(parts[0], sep);
    if |parts| > 1 {
      SplitConcat(parts[0], Join(parts[1..], sep), sep);
      SplitJoinCount(parts[1..], sep);
      assert parts == [parts[0]] + parts[1..];
    }
  }

  lemma {:induction false} SplitFreeCount(s: string, sep: char)
    ensures |Split(s, sep)| == 1 <==> sep !in s
  {
    if s != "" {
      SplitFreeCount(s[1..], sep);
      assert s == [s[0]] + s[1..];
    }
  }

  lemma {:induction false} SplitN2First(a: string, b: string, sep: char)
    requires sep !in a
    ensures SplitN2(a + [sep] + b, sep) == [a, b]
  {
    var t := a + [sep] + b;
    if a == "" {
      assert t[1..] == b;
    } else {
      assert t[1..] == a[1..] + [sep] + b;
      SplitN2First(a[1..], b, sep);
      assert [a[0]] + a[1..] == a;
    }
  }

  // ---------- strings.TrimSpace, HasPrefix, TrimPrefix, Contains ----------

  /** unicode.IsSpace. */
  predicate IsSpace(c: char)
  {
    || '\U{0009}' <= c <= '\U{000D}' || c == ' ' || c == '\U{0085}' || c == '\U{00A0}'
    || c == '\U{1680}' || '\U{2000}' <= c <= '\U{200A}' || c == '\U{2028}' || c == '\U{2029}'
    || c == '\U{202F}' || c == '\U{205F}' || c == '\U{3000}'
  }

  function TrimLeft(s: string): (t: string)
    ensures t == "" || !IsSpace(t[0])
    ensures s == "" || !IsSpace(s[0]) ==> t == s
    ensures s != "" && !IsSpace(s[|s| - 1]) ==> t != "" && t[|t| - 1] == s[|s| - 1]
  {
    if s != "" && IsSpace(s[0]) then TrimLeft(s[1..]) else s
  }

  function TrimRight(s: string): (t: string)
    ensures t == "" || !IsSpace(t[|t| - 1])
    ensures t <= s
    ensures s == "" || !IsSpace(s[|s| - 1]) ==> t == s
  {
    if s != "" && IsSpace(s[|s| - 1]) then TrimRight(s[..|s| - 1]) else s
  }

  function TrimSpace(s: string): (t: string)
    ensures t == "" || (!IsSpace(t[0]) && !IsSpace(t[|t| - 1]))
    ensures s == "" || (!IsSpace(s[0]) && !IsSpace(s[|s| - 1])) ==> t == s
  {
    TrimRight(TrimLeft(s))
  }

  /** s[i..j] is all of s but spaces at its two ends. */
  ghost predicate Trims(s: string, i: nat, j: nat)
  {
    && i <= j <= |s|
    && (forall k :: 0 <= k < i ==> IsSpace(s[k])) && (forall k :: j <= k < |s| ==> IsSpace(s[k]))
    && (i < j ==> !IsSpace(s[i]) && !IsSpace(s[j - 1]))
  }

  lemma {:induction false} TrimLeftSpaces(s: string) returns (i: nat)
    ensures i <= |s| && TrimLeft(s) == s[i..] && forall k :: 0 <= k < i ==> IsSpace(s[k])
  {
    if s != "" && IsSpace(s[0]) {
      var n := TrimLeftSpaces(s[1..]);
      i := n + 1;
      forall k | 0 < k < i ensures IsSpace(s[k]) {
        assert s[k] == s[1..][k - 1];
      }
    } else {
      i := 0;
    }
  }

  lemma {:induction false} TrimRightSpaces(s: string)
    ensures forall k :: |TrimRight(s)| <= k < |s| ==> IsSpace(s[k])
  {
    if s != "" && IsSpace(s[|s| - 1]) {
      TrimRightSpaces(s[..|s| - 1]);
    }
  }

  lemma TrimsFrom(s: string, i: nat, n: nat)
    requires i <= |s| && i + n <= |s|
    requires forall k :: 0 <= k < i ==> IsSpace(s[k])
    requires forall k :: n <= k < |s[i..]| ==> IsSpace(s[i..][k])
    requires n > 0 ==> !IsSpace(s[i]) && !IsSpace(s[i + n - 1])
    ensures Trims(s, i, i + n)
  {
    forall k | i + n <= k < |s| ensures IsSpace(s[k]) {
      assert s[k] == s[i..][k - i];
    }
  }

  lemma TrimTrims(s: string) returns (i: nat, j: nat)
    ensures Trims(s, i, j) && s[i..j] == TrimSpace(s)
  {
    i := TrimLeftSpaces(s);
    var l := s[i..];
    var r := TrimRight(l);
    TrimRightSpaces(l);
    j := i + |r|;
    assert s[i..j] == l[..|r|] == r == TrimSpace(s);
    assert r != "" ==> s[i] == r[0] && s[j - 1] == r[|r| - 1];
    TrimsFrom(s, i, |r|);
  }

  lemma TrimsOnce(s: string, i: nat, j: nat, i': nat, j': nat)
    requires Trims(s, i, j) && Trims(s, i', j')
    ensures s[i..j] == s[i'..j']
  {
  }

  /** Trimming takes spaces off both ends and nothing else, and no other function does. */
  lemma TrimExact(s: string, t: string)
    ensures TrimSpace(s) == t <==> exists i: nat, j: nat :: Trims(s, i, j) && s[i..j] == t
  {
    var i0, j0 := TrimTrims(s);
    if i: nat, j: nat :| Trims(s, i, j) && s[i..j] == t {
      TrimsOnce(s, i, j, i0, j0);
    }
  }

  predicate HasPrefix(s: string, prefix: string)
  {
    prefix <= s
  }

  function TrimPrefix(s: string, prefix: string): string
  {
    if prefix <= s then s[|prefix|..] else s
  }

  predicate Contains(s: string, sub: string)
  {
    exists i :: 0 <= i <= |s| && sub <= s[i..]
  }

  // ---------- decimal printing and strconv.ParseInt(_, 10, bits) ----------

  function DigitChar(d: nat): char
    requires d < 10
  {
    "0123456789"[d]
  }

  predicate IsDigit(c: char)
  {
    '0' <= c <= '9'
  }

  function DigitValue(c: char): nat
    requires IsDigit(c)
  {
    c as int - '0' as int
  }

  lemma DigitRoundTrip(d: nat)
    requires d < 10
    ensures IsDigit(DigitChar(d)) && DigitValue(DigitChar(d)) == d
  {
    assert "0123456789" == ['0', '1', '2', '3', '4', '5', '6', '7', '8', '9'];
    if d < 5 {
      assert d == 0 || d == 1 || d == 2 || d == 3 || d == 4;
    } else {
      assert d == 5 || d == 6 || d == 7 || d == 8 || d == 9;
    }
  }

  function Digits(n: nat): (s: string)
    ensures s != ""
    ensures forall c <- s :: IsDigit(c)
  {
    DigitRoundTrip(n % 10);
    if n < 10 then [DigitChar(n)] else Digits(n / 10) + [DigitChar(n % 10)]
  }

  /** fmt's %d. */
  function Decimal(n: int): (s: string)
    ensures s != ""
    ensures forall c <- s :: IsDigit(c) || c == '-'
    ensures n >= 0 ==> forall c <- s :: IsDigit(c)
  {
    if n < 0 then "-" + Digits(-n) else Digits(n)
  }

  datatype ParseError = NoError | SyntaxError | RangeError

  /** A parsed integer and its error. As in Go the value is meaningful even beside an error:
      zero for bad syntax, the nearest bound when out of range. */
  datatype Parsed = Parsed(value: int, err: ParseError)

  /** strconv.ParseUint's loop: stops at the first bad character or the first overflow,
      whichever comes first. */
  function ParseDigits(s: string, acc: nat, max: nat): (p: Parsed)
    requires acc <= max
    ensures 0 <= p.value <= max
    ensures p.err.RangeError? ==> p.value == max
    ensures p.err.SyntaxError? ==> p.value == 0
  {
    if s == "" then Parsed(acc, NoError)
    else if !IsDigit(s[0]) then Parsed(0, SyntaxError)
    else
      var n := acc * 10 + DigitValue(s[0]);
      if n > max then Parsed(max, RangeError) else ParseDigits(s[1..], n, max)
  }

  type int32 = x: int | -0x8000_0000 <= x < 0x8000_0000

  const HALF32: int := 0x8000_0000
  const HALF64: int := 0x8000_0000_0000_0000

  /** strconv.ParseInt(s, 10, bits), where half is 2 to the power bits - 1. */
  function ParseInt(s: string, half: int): (p: Parsed)
    requires half > 1
    ensures -half <= p.value < half
    ensures p.err.SyntaxError? ==> p.value == 0
  {
    if s == "" then Parsed(0, SyntaxError)
    else
      var neg := s[0] == '-';
      var body := if s[0] == '-' || s[0] == '+' then s[1..] else s;
      if body == "" then Parsed(0, SyntaxError)
      else
        var u := ParseDigits(body, 0, 2 * half - 1);
        if u.err.SyntaxError? then u
        else if !neg && u.value >= half then Parsed(half - 1, RangeError)
        else if neg && u.value > half then Parsed(-half, RangeError)
        else Parsed(if neg then -u.value else u.value, NoError)
  }

  /** The number a digit string stands for, most significant digit first. */
  function Number(digits: string): nat
    requires forall c <- digits :: IsDigit(c)
  {
    if digits == "" then 0 else 10 * Number(digits[..|digits| - 1]) + DigitValue(digits[|digits| - 1])
  }

  /** Digits with an optional sign. */
  predicate IsNumeral(s: string)
  {
    var body := if s != "" && (s[0] == '-' || s[0] == '+') then s[1..] else s;
    body != "" && forall c <- body :: IsDigit(c)
  }

  function Numeral(s: string): int
    requires IsNumeral(s)
  {
    if s[0] == '-' then 0 - Number(s[1..]) else if s[0] == '+' then Number(s[1..]) else Number(s)
  }

  lemma {:induction false} NumberFrom(a: string, b: string)
    requires forall c <- a + b :: IsDigit(c)
    ensures (forall c <- a :: IsDigit(c)) && (forall c <- b :: IsDigit(c))
    ensures Number(a + b) >= Number(a)
  {
    forall c | c in a ensures IsDigit(c) { assert c in a + b; }
    forall c | c in b ensures IsDigit(c) { assert c in a + b; }
    if b == "" {
      assert a + b == a;
    } else {
      var b' := b[..|b| - 1];
      assert (a + b)[..|a + b| - 1] == a + b' && (a + b)[|a + b| - 1] == b[|b| - 1];
      forall c | c in a + b' ensures IsDigit(c) { assert c in a + b; }
      NumberFrom(a, b');
    }
  }

  /** The loop after the digits a: it stops at a bad character or runs over, or ends with the number. */
  lemma {:induction false} ParseDigitsFrom(a: string, b: string, max: nat)
    requires (forall c <- a :: IsDigit(c)) && Number(a) <= max
    ensures var p := ParseDigits(b, Number(a), max);
            && (p.err.NoError? <==> (forall c <- a + b :: IsDigit(c)) && Number(a + b) <= max)
            && (p.err.NoError? ==> p.value == Number(a + b))
            && ((forall c <- a + b :: IsDigit(c)) && Number(a + b) > max ==> p.err.RangeError?)
    decreases b
  {
    if b == "" {
      assert a + b == a;
    } else if !IsDigit(b[0]) {
      assert (a + b)[|a|] == b[0];
    } else {
      var a' := a + [b[0]];
      assert a'[..|a'| - 1] == a && a' + b[1..] == a + b;
      assert Number(a') == 10 * Number(a) + DigitValue(b[0]);
      if Number(a') <= max {
        ParseDigitsFrom(a', b[1..], max);
      } else if forall c <- a + b :: IsDigit(c) {
        NumberFrom(a', b[1..]);
      }
    }
  }

  /** What ParseInt reads, without its loop: exactly the numerals of the width, as the numbers they
      stand for; a numeral beyond it reads as the nearest bound, with an error; and whatever is no
      numeral reads as nought or as a bound, with an error. */
  lemma ParseIntExact(s: string, half: int)
    requires half > 1
    ensures ParseInt(s, half).err.NoError? <==> IsNumeral(s) && -half <= Numeral(s) < half
    ensures IsNumeral(s) ==>
              ParseInt(s, half).value
              == if Numeral(s) < -half then -half else if Numeral(s) >= half then half - 1 else Numeral(s)
    ensures !IsNumeral(s) ==> ParseInt(s, half).value in {0, -half, half - 1}
  {
    if s != "" {
      var body := if s[0] == '-' || s[0] == '+' then s[1..] else s;
      assert "" + body == body;
      ParseDigitsFrom("", body, 2 * half - 1);
    }
  }

  lemma ParseDigit(d: nat, rest: string, acc: nat, max: nat)
    requires d < 10 && 10 * acc + d <= max
    ensures ParseDigits([DigitChar(d)] + rest, acc, max) == ParseDigits(rest, 10 * acc + d, max)
  {
    DigitRoundTrip(d);
    assert ([DigitChar(d)] + rest)[1..] == rest;
  }

  lemma {:induction false} ParseDigitsPrefix(n: nat, rest: string, max: nat)
    requires n <= max
    ensures ParseDigits(Digits(n) + rest, 0, max) == ParseDigits(rest, n, max)
  {
    if n < 10 {
      ParseDigit(n, rest, 0, max);
    } else {
      var last := [DigitChar(n % 10)];
      assert n == 10 * (n / 10) + n % 10;
      ParseDigitsPrefix(n / 10, last + rest, max);
      ParseDigit(n % 10, rest, n / 10, max);
      assert Digits(n) + rest == Digits(n / 10) + (last + rest);
    }
  }

  /** Whatever %d prints for an integer of the width, ParseInt of that width reads back. */
  lemma ParsePrinted(n: int, half: int)
    requires half > 1
    requires -half <= n < half
    ensures ParseInt(Decimal(n), half) == Parsed(n, NoError)
  {
    var digits := Digits(if n < 0 then -n else n);
    ParseDigitsPrefix(if n < 0 then -n else n, "", 2 * half - 1);
    assert digits + "" == digits;
    if n < 0 {
      assert Decimal(n)[1..] == digits;
    } else {
      assert IsDigit(digits[0]);
    }
  }

  /** Printing is canonical: no zero leads another digit. */
  lemma {:induction false} NoLeadingZero(n: nat)
    requires n > 0
    ensures Digits(n)[0] != '0'
  {
    DigitRoundTrip(n % 10);
    if n >= 10 {
      NoLeadingZero(n / 10);
    }
  }

  /** Distinct integers print differently. */
  lemma DecimalInjective(a: int, b: int)
    requires Decimal(a) == Decimal(b)
    ensures a == b
  {
    var half := (if a < 0 then -a else a) + (if b < 0 then -b else b) + 2;
    ParsePrinted(a, half);
    ParsePrinted(b, half);
  }
}
