/**
 * Document numbering of the invoice and quotation create handlers: the
 * number of the most recently created document is split at '-', the second
 * piece is read with `parseInt`, incremented, and printed back zero-padded
 * to four characters after a fixed prefix. An empty collection (or a last
 * document without a number) gets the series' seed instead.
 */
module Numbering {
  import opened Wrappers
  import opened JsText

  const InvoiceSeed: string := "INV-0001"
  const InvoicePrefix: string := "INV-"
  const QuotationSeed: string := "Qun-0001"
  const QuotationPrefix: string := "Q-"

  /** `s.indexOf(c)`: the first position of `c`, if any. */
  function IndexOf(s: string, c: char): (r: Option<nat>)
    ensures r.None? <==> forall k :: 0 <= k < |s| ==> s[k] != c
    ensures r.Some? ==> r.value < |s| && s[r.value] == c && forall k :: 0 <= k < r.value ==> s[k] != c
  {
    if s == [] then None
    else if s[0] == c then Some(0)
    else match IndexOf(s[1..], c)
      case None => None
      case Some(i) => Some(i + 1)
  }

  /** `s.split('-')[1]`: the text between the first and the second '-' (or the end); undefined when `s` has no '-'. */
  function SecondSegment(s: string): (r: Option<string>)
    ensures r.None? <==> '-' !in s
    ensures r.Some? ==> '-' !in r.value
  {
    match IndexOf(s, '-')
    case None => None
    case Some(i) =>
      var rest := s[i + 1..];
      match IndexOf(rest, '-')
      case None => Some(rest)
      case Some(j) => Some(rest[..j])
  }

  /**
   * `parseInt(s.split('-')[1], 10)`, with `parseInt(undefined)` being NaN.
   * The piece never holds a '-', so the value is never negative.
   */
  function SegmentValue(s: string): (r: Num)
    ensures r.Int? ==> r.value >= 0
  {
    match SecondSegment(s)
    case None => NaN
    case Some(g) => ParseInt(g)
  }

  /** `String(x).padStart(4, '0')`. */
  function Pad4(s: string): string {
    PadStart(s, 4, '0')
  }

  /** The number a create handler issues after `last`, the number of the newest document. */
  function NextNumber(last: Option<string>, seed: string, prefix: string): string {
    if last.Some? && last.value != "" then prefix + Pad4(Show(Inc(SegmentValue(last.value))))
    else seed
  }

  /** The number `create` gives a new invoice (controllers/invoiceController.js). */
  function NextInvoiceNumber(last: Option<string>): (r: string)
    ensures last.None? || last.value == "" ==> r == InvoiceSeed
    ensures |r| >= 8 && r[..4] == InvoicePrefix
  {
    NextNumber(last, InvoiceSeed, InvoicePrefix)
  }

  /** The number `create` gives a new quotation (controllers/quotationController.js). */
  function NextQuotationNumber(last: Option<string>): (r: string)
    ensures last.None? || last.value == "" ==> r == QuotationSeed
    ensures last.Some? && last.value != "" ==> |r| >= 6 && r[..2] == QuotationPrefix
  {
    NextNumber(last, QuotationSeed, QuotationPrefix)
  }

  /** Positions in a concatenation: a '-'-free left part shifts the first '-' of the right part. */
  lemma IndexOfAfter(a: string, b: string, c: char)
    requires c !in a
    ensures IndexOf(a + b, c) == match IndexOf(b, c) case None => None case Some(j) => Some(|a| + j)
  {
    var ab := a + b;
    assert forall k :: 0 <= k < |a| ==> ab[k] == a[k] && ab[k] != c;
    assert forall k :: 0 <= k < |b| ==> ab[|a| + k] == b[k];
  }

  /** A number written as series-body, with no other '-', splits back into its body. */
  lemma SegmentOfIssued(series: string, body: string)
    requires '-' !in series && '-' !in body
    ensures SecondSegment(series + "-" + body) == Some(body)
  {
    var s := series + "-" + body;
    assert s == series + ("-" + body);
    IndexOfAfter(series, "-" + body, '-');
    assert s[|series| + 1..] == body;
  }

  /** When the last number has a numeric second piece k, the new number's second piece reads back as k + 1. */
  lemma NextNumberAdvances(last: string, seed: string, series: string)
    requires last != "" && SegmentValue(last).Int?
    requires '-' !in series
    ensures SegmentValue(NextNumber(Some(last), seed, series + "-")) == Int(SegmentValue(last).value + 1)
  {
    var k: nat := SegmentValue(last).value;
    var body := Pad4(Decimal(k + 1));
    assert Show(Inc(SegmentValue(last))) == Decimal(k + 1);
    assert NextNumber(Some(last), seed, series + "-") == series + "-" + body;
    SegmentOfIssued(series, body);
    ParseIntPadded(k + 1, 4);
  }

  /** Invoice numbers count up by one from whatever numeric piece the last one had. */
  lemma InvoiceCounterAdvances(last: string)
    requires last != "" && SegmentValue(last).Int?
    ensures SegmentValue(NextInvoiceNumber(Some(last))) == Int(SegmentValue(last).value + 1)
  {
    assert InvoicePrefix == "INV" + "-";
    NextNumberAdvances(last, InvoiceSeed, "INV");
  }

  /** Quotation numbers likewise count up by one, whatever prefix the last one had. */
  lemma QuotationCounterAdvances(last: string)
    requires last != "" && SegmentValue(last).Int?
    ensures SegmentValue(NextQuotationNumber(Some(last))) == Int(SegmentValue(last).value + 1)
  {
    assert QuotationPrefix == "Q" + "-";
    NextNumberAdvances(last, QuotationSeed, "Q");
  }

  /** Round trip: after INV-pad4(n) comes INV-pad4(n + 1), for every n. */
  lemma InvoiceSuccessor(n: nat)
    ensures NextInvoiceNumber(Some(InvoicePrefix + Pad4(Decimal(n)))) == InvoicePrefix + Pad4(Decimal(n + 1))
  {
    var body := Pad4(Decimal(n));
    var last := InvoicePrefix + body;
    assert last == "INV" + "-" + body;
    SegmentOfIssued("INV", body);
    ParseIntPadded(n, 4);
    assert SegmentValue(last) == Int(n);
    assert Show(Inc(SegmentValue(last))) == Decimal(n + 1);
  }

  /** After series-pad4(n), for any series without '-' (such as the seed's "Qun"), comes Q-pad4(n + 1). */
  lemma QuotationSuccessor(series: string, n: nat)
    requires '-' !in series
    ensures NextQuotationNumber(Some(series + "-" + Pad4(Decimal(n)))) == QuotationPrefix + Pad4(Decimal(n + 1))
  {
    var body := Pad4(Decimal(n));
    var last := series + "-" + body;
    SegmentOfIssued(series, body);
    ParseIntPadded(n, 4);
    assert SegmentValue(last) == Int(n);
    assert Show(Inc(SegmentValue(last))) == Decimal(n + 1);
    assert last != "";
    assert NextQuotationNumber(Some(last)) == QuotationPrefix + Pad4(Show(Inc(SegmentValue(last))));
  }

  /** Padding gives exactly four digits below 10000 and never cuts a longer number short. */
  lemma PaddedWidth(n: nat)
    ensures n < 10000 ==> |Pad4(Decimal(n))| == 4
    ensures n >= 1000 ==> Pad4(Decimal(n)) == Decimal(n)
    ensures |Pad4(Decimal(n))| >= 4
  {
    assert Pow10(3) == 1000 && Pow10(4) == 10000;
    DecimalLength(n, 4);
    DecimalLength(n, 3);
  }

  /** A last number whose second piece has no leading digits yields the text "0NaN" after the prefix. */
  lemma InvoiceNaN(last: string)
    requires last != "" && SegmentValue(last).NaN?
    ensures NextInvoiceNumber(Some(last)) == "INV-0NaN"
  {
  }

  lemma QuotationNaN(last: string)
    requires last != "" && SegmentValue(last).NaN?
    ensures NextQuotationNumber(Some(last)) == "Q-0NaN"
  {
  }

  /** `parseInt` of one digit followed by a non-digit reads that digit alone. */
  lemma ParseSingleDigit(d: char, rest: string)
    requires IsDigit(d) && (rest == [] || !IsDigit(rest[0]))
    ensures ParseInt([d] + rest) == Int(DigitValue(d))
  {
    var s := [d] + rest;
    assert s[0] == d;
    TrimStartKeeps(s);
    LeadingDigitsSingle(d, rest);
    assert [d][..0] == [];
    assert DigitsValue([d]) == DigitValue(d);
    assert TrimStart(s)[0] != '-';
  }

  lemma TrimStartKeeps(s: string)
    requires s != [] && IsDigit(s[0])
    ensures TrimStart(s) == s && Unsigned(s) == s
  {
  }

  lemma LeadingDigitsSingle(d: char, rest: string)
    requires IsDigit(d) && (rest == [] || !IsDigit(rest[0]))
    ensures LeadingDigits([d] + rest) == [d]
  {
    assert ([d] + rest)[1..] == rest;
  }

  /** `parseInt` reads the leading "0" of "0NaN" and stops. */
  lemma ParseZeroNaN()
    ensures ParseInt("0NaN") == Int(0)
  {
    assert "0NaN" == ['0'] + "NaN";
    ParseSingleDigit('0', "NaN");
  }

  /** `parseInt("0NaN")` is 0, so the invoice issued after INV-0NaN is INV-0001 again. */
  lemma InvoiceAfterNaN()
    ensures NextInvoiceNumber(Some(InvoicePrefix + "0NaN")) == InvoiceSeed
  {
    var last := InvoicePrefix + "0NaN";
    assert last == "INV" + "-" + "0NaN";
    SegmentOfIssued("INV", "0NaN");
    ParseZeroNaN();
    assert SegmentValue(last) == Int(0);
    assert NextInvoiceNumber(Some(last)) == InvoicePrefix + Pad4(Show(Inc(SegmentValue(last))));
    assert Show(Inc(SegmentValue(last))) == Decimal(1);
    SmallPadded();
    SeedIsFirst();
  }

  /** The invoice seed is the number a counter of 1 would print. */
  lemma SeedIsFirst()
    ensures InvoiceSeed == InvoicePrefix + "0001"
  {
  }

  lemma SmallDecimals()
    ensures Decimal(1) == "1" && Decimal(2) == "2"
    ensures Decimal(42) == "42" && Decimal(43) == "43"
  {
  }

  lemma SmallPadded()
    ensures Pad4(Decimal(1)) == "0001"
    ensures Pad4(Decimal(2)) == "0002"
    ensures Pad4(Decimal(42)) == "0042" && Pad4(Decimal(43)) == "0043"
  {
    assert Pad4("2") == "0002";
    SmallDecimals();
    assert Pad4("1") == "0001";
    assert Pad4("42") == "0042";
    assert Pad4("43") == "0043";
  }

  lemma WideDecimals()
    ensures Decimal(9999) == "9999" && Decimal(10000) == "10000"
  {
  }

  /** INV-0042 is followed by INV-0043. */
  lemma InvoiceExample()
    ensures NextInvoiceNumber(Some(InvoicePrefix + "0042")) == InvoicePrefix + "0043"
  {
    SmallPadded();
    InvoiceSuccessor(42);
  }

  /** INV-9999 is followed by INV-10000: the fifth digit is kept. */
  lemma InvoiceWideExample()
    ensures NextInvoiceNumber(Some(InvoicePrefix + "9999")) == InvoicePrefix + "10000"
  {
    WideDecimals();
    InvoiceSuccessor(9999);
  }

  /** The seed Qun-0001 is followed by Q-0002: the prefix changes, the counter goes on. */
  lemma QuotationExample()
    ensures NextQuotationNumber(Some(QuotationSeed)) == QuotationPrefix + "0002"
  {
    SmallPadded();
    QuotationSeedForm();
    QuotationSuccessor("Qun", 1);
  }

  lemma QuotationSeedForm()
    ensures QuotationSeed == "Qun" + "-" + "0001"
  {
  }
}
