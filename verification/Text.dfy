/** The text forms the program uses: decimal numbers, hexadecimal bytes and separated fields. */
module Text {
  import opened Wrappers
  import opened Bytes

  // ---- decimal numbers ----

  function DigitChar(d: nat): char
    requires d < 10
  {
    '0' + d as char
  }

  predicate IsDigit(c: char) { '0' <= c <= '9' }

  function DigitOf(c: char): nat
    requires IsDigit(c)
  {
    (c - '0') as nat
  }

  /** The decimal form of n without sign or leading zeros, as the verb %d prints it. */
  function Decimal(n: nat): string {
    if n < 10 then [DigitChar(n)] else Decimal(n / 10) + [DigitChar(n % 10)]
  }

  predicate AllDigits(s: string) { forall k :: 0 <= k < |s| ==> IsDigit(s[k]) }

  /** The number a string of digits stands for, leading zeros allowed. */
  function Number(s: string): nat
    requires AllDigits(s)
  {
    if s == "" then 0 else Number(s[..|s| - 1]) * 10 + DigitOf(s[|s| - 1])
  }

  lemma {:induction false} NumberOfDecimal(n: nat)
    ensures Decimal(n) != "" && AllDigits(Decimal(n))
    ensures Number(Decimal(n)) == n
  {
    if n < 10 {
      assert Decimal(n)[..0] == "";
    } else {
      NumberOfDecimal(n / 10);
      var s := Decimal(n);
      assert s[..|s| - 1] == Decimal(n / 10);
    }
  }

  /** Digit by digit: the last one is n % 10, the others are those of n / 10, and none are left of 0. */
  lemma DecimalDigits(n: nat)
    ensures |Decimal(n)| == 1 + if n < 10 then 0 else |Decimal(n / 10)|
    ensures Decimal(n)[|Decimal(n)| - 1] as int == '0' as int + n % 10
    ensures n >= 10 ==> Decimal(n)[..|Decimal(n)| - 1] == Decimal(n / 10)
  {}

  /** The decimal form is the only string of digits without leading zeros that stands for its number. */
  lemma {:induction false} DecimalOfNumber(s: string)
    requires s != "" && AllDigits(s)
    ensures Decimal(Number(s)) == s <==> |s| == 1 || s[0] != '0'
  {
    var n := |s| - 1;
    var front, last := s[..n], s[n];
    assert s == front + [last];
    if n == 0 {
      assert Number(front) == 0;
    } else {
      DecimalOfNumber(front);
      NumberPositive(front);
      if Number(front) > 0 { assert Number(s) / 10 == Number(front) && Number(s) % 10 == DigitOf(last); }
    }
  }

  /** Without leading zeros only "0" stands for 0. */
  lemma {:induction false} NumberPositive(s: string)
    requires s != "" && AllDigits(s)
    ensures s[0] != '0' ==> Number(s) > 0
  {
    var n := |s| - 1;
    if n > 0 {
      NumberPositive(s[..n]);
    } else {
      assert s[..0] == "";
    }
  }

  function ParseDecimal(s: string): Option<nat> { if s != "" && AllDigits(s) then Some(Number(s)) else None }

  const MAX_INT := 0x7FFF_FFFF_FFFF_FFFF

  /** Decimal text to a 64-bit integer: an optional sign, then at least one digit and nothing else. */
  function Atoi(s: string): Option<int> {
    var digits := if s != "" && (s[0] == '+' || s[0] == '-') then s[1..] else s;
    if digits == "" || !AllDigits(digits) then None
    else
      var v: int := Number(digits);
      if s[0] == '-' then
        if v <= MAX_INT + 1 then Some(-v) else None
      else
        if v <= MAX_INT then Some(v) else None
  }

  lemma AtoiOfDecimal(n: nat)
    requires n <= MAX_INT
    ensures Atoi(Decimal(n)) == Some(n)
  {
    NumberOfDecimal(n);
    assert IsDigit(Decimal(n)[0]);
  }

  /** A numeral without sign, with plus and with minus. */
  lemma AtoiOfNumeral(digits: string)
    requires digits != "" && AllDigits(digits)
    ensures Atoi(digits) == Atoi("+" + digits)
    ensures var n: int := Number(digits);
      && Atoi(digits) == (if n <= 0x7FFF_FFFF_FFFF_FFFF then Some(n) else None)
      && Atoi("-" + digits) == if n <= 0x8000_0000_0000_0000 then Some(-n) else None
  {
    assert IsDigit(digits[0]);
    assert ("+" + digits)[1..] == digits && ("-" + digits)[1..] == digits;
  }

  /** Only these are accepted. */
  lemma AtoiNeedsNumeral(s: string)
    requires Atoi(s).Some?
    ensures exists digits ::
      digits != "" && AllDigits(digits) && (s == digits || s == "+" + digits || s == "-" + digits)
  {
    if s[0] == '+' || s[0] == '-' {
      assert s == [s[0]] + s[1..];
    } else {
      assert AllDigits(s);
    }
  }

  // ---- bytes in hexadecimal ----

  function HexChar(d: nat): char
    requires d < 16
  {
    if d < 10 then '0' + d as char else 'a' + (d - 10) as char
  }

  function HexPair(b: Byte): string { [HexChar(b as int / 16), HexChar(b as int % 16)] }

  function HexDigit(c: char): Option<nat> {
    if '0' <= c <= '9' then Some((c - '0') as nat)
    else if 'a' <= c <= 'f' then Some((c - 'a') as nat + 10)
    else None
  }

  function ParseHexPair(s: string): Option<Byte> {
    if |s| != 2 then None
    else match (HexDigit(s[0]), HexDigit(s[1]))
      case (Some(h), Some(l)) => if 16 * h + l < 256 then Some((16 * h + l) as Byte) else None
      case _ => None
  }

  lemma HexDigitOfHexChar(d: nat)
    requires d < 16
    ensures HexDigit(HexChar(d)) == Some(d)
    ensures HexChar(d) != ':' && HexChar(d) != '|'
  {}

  /** The high digit, then the low one, in lower case. */
  lemma HexPairIs(b: Byte, h: nat, l: nat)
    requires h < 16 && l < 16 && b as int == 16 * h + l
    ensures |HexPair(b)| == 2
    ensures HexPair(b)[0] as int == if h < 10 then '0' as int + h else 'a' as int + h - 10
    ensures HexPair(b)[1] as int == if l < 10 then '0' as int + l else 'a' as int + l - 10
  {}

  lemma ParseOfHexPair(b: Byte)
    ensures ParseHexPair(HexPair(b)) == Some(b)
    ensures ':' !in HexPair(b) && '|' !in HexPair(b)
  {
    HexDigitOfHexChar(b as int / 16);
    HexDigitOfHexChar(b as int % 16);
  }

  // ---- fields with a separator between them ----

  function Join(fields: seq<string>, sep: char): string {
    if fields == [] then ""
    else if |fields| == 1 then fields[0]
    else fields[0] + [sep] + Join(fields[1..], sep)
  }

  /** The pieces of s between separators; always at least one. */
  function Split(s: string, sep: char): (fields: seq<string>)
    ensures fields != []
  {
    if s == "" then [""]
    else
      var rest := Split(s[1..], sep);
      if s[0] == sep then [""] + rest else [[s[0]] + rest[0]] + rest[1..]
  }

  lemma {:induction false} SplitField(a: string, s: string, sep: char)
    requires sep !in a
    ensures Split(a, sep) == [a]
    ensures Split(a + [sep] + s, sep) == [a] + Split(s, sep)
  {
    var t := a + [sep] + s;
    if a == "" {
      assert t[1..] == s;
    } else {
      assert t[1..] == a[1..] + [sep] + s;
      SplitField(a[1..], s, sep);
      assert [a[0]] + a[1..] == a;
    }
  }

  lemma {:induction false} SplitOfJoin(fields: seq<string>, sep: char)
    requires fields != [] && forall k :: 0 <= k < |fields| ==> sep !in fields[k]
    ensures Split(Join(fields, sep), sep) == fields
  {
    if |fields| == 1 {
      SplitField(fields[0], "", sep);
      assert [fields[0]] == fields;
    } else {
      SplitOfJoin(fields[1..], sep);
      SplitField(fields[0], Join(fields[1..], sep), sep);
      assert [fields[0]] + fields[1..] == fields;
    }
  }

  lemma {:induction false} JoinSnoc(fields: seq<string>, f: string, sep: char)
    requires fields != []
    ensures Join(fields + [f], sep) == Join(fields, sep) + [sep] + f
  {
    assert (fields + [f])[1..] == fields[1..] + [f];
    if |fields| <= 1 {
    } else {
      JoinSnoc(fields[1..], f, sep);
    }
  }

  /** Where the fields of two characters are: at every third position, a separator between two of them. */
  lemma {:induction false} JoinPairsAt(fields: seq<string>, sep: char, k: nat)
    requires k < |fields| && forall j :: 0 <= j < |fields| ==> |fields[j]| == 2
    ensures |Join(fields, sep)| == 3 * |fields| - 1
    ensures Join(fields, sep)[3 * k..3 * k + 2] == fields[k]
    ensures k + 1 < |fields| ==> Join(fields, sep)[3 * k + 2] == sep
  {
    if |fields| > 1 {
      var rest := Join(fields[1..], sep);
      assert Join(fields, sep) == fields[0] + [sep] + rest;
      JoinPairsAt(fields[1..], sep, if k > 0 then k - 1 else 0);
      if k > 0 {
        assert (fields[0] + [sep] + rest)[3 * k..3 * k + 2] == rest[3 * (k - 1)..3 * (k - 1) + 2];
      }
    }
  }

  // ---- many values at once ----

  function PrintAll<T>(show: T -> string, xs: seq<T>): (fields: seq<string>)
    ensures |fields| == |xs| && forall k :: 0 <= k < |xs| ==> fields[k] == show(xs[k])
  {
    if xs == [] then [] else PrintAll(show, xs[..|xs| - 1]) + [show(xs[|xs| - 1])]
  }

  function ParseAll<T>(parse: string -> Option<T>, fields: seq<string>): Option<seq<T>> {
    if fields == [] then Some([])
    else match (ParseAll(parse, fields[..|fields| - 1]), parse(fields[|fields| - 1]))
      case (Some(front), Some(x)) => Some(front + [x])
      case _ => None
  }

  lemma {:induction false} ParseOfPrintAll<T>(show: T -> string, parse: string -> Option<T>, xs: seq<T>)
    requires forall k :: 0 <= k < |xs| ==> parse(show(xs[k])) == Some(xs[k])
    ensures ParseAll(parse, PrintAll(show, xs)) == Some(xs)
  {
    if xs == [] {
    } else {
      var front, last := xs[..|xs| - 1], xs[|xs| - 1];
      ParseOfPrintAll(show, parse, front);
      assert PrintAll(show, xs)[..|xs| - 1] == PrintAll(show, front);
      assert xs == front + [last];
    }
  }
}
