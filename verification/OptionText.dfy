/** The text form "code:value" of a custom DHCPv6 option (conf.go). Bytes of the value are characters. */
module OptionText {
  import opened Wrappers
  import opened Text

  const CODES := 0x1_0000

  datatype GenericOption = GenericOption(code: nat, data: string)

  /** Everything before the first ':' and everything after it, as SplitN with limit 2 cuts. */
  function Cut(s: string): Option<(string, string)> {
    if s == "" then None
    else if s[0] == ':' then Some(("", s[1..]))
    else match Cut(s[1..])
      case None => None
      case Some((a, b)) => Some(([s[0]] + a, b))
  }

  /** parseD6CustomOptionStr; the option code keeps the low 16 bits of the number. */
  function ParseCustomOption(text: string): Option<GenericOption> {
    match Cut(text)
    case None => None
    case Some((left, right)) =>
      match Atoi(left)
      case None => None
      case Some(oid) => Some(GenericOption(oid % CODES, right))
  }

  /** d6OptionFromStr */
  function FromText(text: string): Option<GenericOption> {
    if text == "" then Some(GenericOption(0, "")) else ParseCustomOption(text)
  }

  /** d6OptionToStr */
  function ToText(o: GenericOption): string {
    if o.code == 0 then "" else Decimal(o.code) + ":" + o.data
  }

  lemma {:induction false} CutAtFirstColon(a: string, b: string)
    requires ':' !in a
    ensures Cut(a + ":" + b) == Some((a, b))
  {
    var s := a + ":" + b;
    if a != "" {
      assert s[1..] == a[1..] + ":" + b;
      CutAtFirstColon(a[1..], b);
      assert [a[0]] + a[1..] == a;
    } else {
      assert s[1..] == b;
    }
  }

  /** Without a colon there is nothing to cut. */
  lemma {:induction false} CutNeedsColon(s: string)
    ensures Cut(s).None? <==> ':' !in s
  {
    if s != "" {
      CutNeedsColon(s[1..]);
      assert s == [s[0]] + s[1..];
    }
  }

  /**
   What a text with a colon reads as: the number in front of the first one, of which the low 16 bits are the code
   (those of the two's complement for a negative number), and everything behind it. Without a number it fails.
   */
  lemma ReadsAs(left: string, data: string)
    requires ':' !in left
    ensures FromText(left + ":" + data) ==
      match Atoi(left)
      case None => None
      case Some(number) => Some(GenericOption(number % 0x1_0000, data))
  {
    CutAtFirstColon(left, data);
    NotEmpty(left, data);
  }

  /** A text without a colon fails, unless it is empty; the empty text is code 0 without a value. */
  lemma ReadsNoColon(text: string)
    requires ':' !in text
    ensures FromText(text) == if text == "" then Some(GenericOption(0, "")) else None
  {
    CutNeedsColon(text);
  }

  lemma DecimalHasNoColon(n: nat)
    ensures ':' !in Decimal(n)
  {
    NumberOfDecimal(n);
    NoColon(Decimal(n));
  }

  lemma NoColon(s: string)
    requires AllDigits(s)
    ensures ':' !in s
  {}

  lemma NotEmpty(left: string, data: string)
    ensures left + ":" + data != ""
  {
    assert |left + ":" + data| > 0;
  }

  /** The text of an option with a number in front. */
  lemma NumberedText(left: string, number: nat, data: string, text: string)
    requires ':' !in left && Atoi(left) == Some(number) && text == left + ":" + data
    ensures FromText(text) == Some(GenericOption(number % CODES, data))
  {
    ReadsAs(left, data);
  }

  lemma PrintedParses(number: nat, data: string, text: string)
    requires number <= MAX_INT && text == Decimal(number) + ":" + data
    ensures FromText(text) == Some(GenericOption(number % CODES, data))
  {
    DecimalHasNoColon(number);
    AtoiOfDecimal(number);
    NumberedText(Decimal(number), number, data, text);
  }

  lemma NonZeroReturns(o: GenericOption)
    requires 0 < o.code < CODES
    ensures FromText(ToText(o)) == Some(o)
  {
    PrintedParses(o.code, o.data, ToText(o));
  }

  lemma ZeroReturns(o: GenericOption)
    requires o.code == 0
    ensures FromText(ToText(o)) == Some(GenericOption(0, ""))
  {}

  /** What is printed parses back to the same option exactly when code 0 does not hide a value. */
  lemma PrintThenParse(o: GenericOption)
    requires o.code < CODES
    ensures FromText(ToText(o)) == Some(o) <==> o.code != 0 || o.data == ""
  {
    if o.code == 0 {
      ZeroReturns(o);
    } else {
      NonZeroReturns(o);
    }
  }

  /**
   Parsing accepts many spellings of one option ("+060:x", "65596:x"). Printing what was parsed gives
   one canonical text: it parses to the same option again unless the code is a multiple of 65536 and
   the text carries a value, in which case the value is lost.
   */
  lemma ParseThenPrint(text: string)
    requires FromText(text).Some?
    ensures var o := FromText(text).value;
      && o.code < CODES
      && (ToText(o) == "" <==> o.code == 0)
      && (FromText(ToText(o)) == FromText(text) <==> o.code != 0 || o.data == "")
      && (o.code != 0 ==> ToText(FromText(ToText(o)).value) == ToText(o))
  {
    PrintThenParse(FromText(text).value);
  }

  /** Two options print alike exactly when they are equal or both have code 0. */
  lemma PrintInjective(a: GenericOption, b: GenericOption)
    requires a.code < CODES && b.code < CODES
    ensures ToText(a) == ToText(b) <==> a == b || a.code == 0 == b.code
  {
    PrintThenParse(a);
    PrintThenParse(b);
    if a.code != 0 { assert ToText(a) != ""; }
    if b.code != 0 { assert ToText(b) != ""; }
  }

  /** The codes that lose their value: multiples of 65536 are read as code 0, which prints as the empty text. */
  lemma ValueLostAtCodeZero(number: nat, data: string)
    requires number % CODES == 0 && number <= MAX_INT
    ensures FromText(Decimal(number) + ":" + data) == Some(GenericOption(0, data))
    ensures ToText(GenericOption(0, data)) == ""
  {
    PrintedParses(number, data, Decimal(number) + ":" + data);
  }
}
