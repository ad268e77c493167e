/**
 * Bank-statement parsing (src/services/pdfParser.ts) once the PDF's text has
 * been extracted: bank identification, the date and amount readers, the
 * C6 Bank and generic line parsers, and the result of a parse.
 *
 * The regular expressions that pick transactions out of the text are
 * parameters: `c6Matches` is the sequence of matches the C6 pattern's
 * global `exec` loop yields, and `patternMatch(p, line)` is what generic
 * pattern `p` captures on a line. The year pattern `\b(202[0-9])\b` and the
 * date shapes are written out.
 */
module PdfParser {
  import opened Wrappers
  import opened Strings
  import opened Numbers

  /** A transaction read from a statement; `kind` is the source's `type`, "entrada" or "saida". */
  datatype ParsedTransaction = ParsedTransaction(
    date: string, kind: string, amount: real, description: string, transactionType: Option<string>)

  // --------------------------------------------------------------- identifyBank

  /** The bank names, in the order their patterns are tried. */
  const BankNames: seq<string> := ["C6 Bank", "Nubank", "Banco do Brasil", "Itaú", "Bradesco", "Santander"]

  /**
   * `identifyBank(text)`, where `test(i, text)` is the outcome of the `i`-th
   * bank pattern on the text: the name of the first pattern that matches.
   */
  function IdentifyBank(test: (nat, string) -> bool, text: string): (r: Option<string>)
    ensures r.None? <==> forall i :: 0 <= i < |BankNames| ==> !test(i, text)
    ensures r.Some? ==> exists i :: 0 <= i < |BankNames| && test(i, text) && r.value == BankNames[i] &&
                                    forall j :: 0 <= j < i ==> !test(j, text)
  {
    var k := FirstBank(test, text, 0);
    if k < |BankNames| then Some(BankNames[k]) else None
  }

  /** Index of the first pattern from `i` on that matches, or the number of patterns. */
  function FirstBank(test: (nat, string) -> bool, text: string, i: nat): (k: nat)
    requires i <= |BankNames|
    ensures i <= k <= |BankNames|
    ensures k < |BankNames| ==> test(k, text)
    ensures forall j :: i <= j < k ==> !test(j, text)
    decreases |BankNames| - i
  {
    if i == |BankNames| then i
    else if test(i, text) then i
    else FirstBank(test, text, i + 1)
  }

  // ------------------------------------------------------------------ parseDate

  /** `^(\d{2})\/(\d{2})\/(\d{4})$`. */
  predicate FullDateShape(s: string)
  {
    |s| == 10 && s[2] == '/' && s[5] == '/' && AllDigits(s[..2]) && AllDigits(s[3..5]) && AllDigits(s[6..])
  }

  /** `^(\d{2})\/(\d{2})$`. */
  predicate ShortDateShape(s: string)
  {
    |s| == 5 && s[2] == '/' && AllDigits(s[..2]) && AllDigits(s[3..])
  }

  /** A reference year that JavaScript treats as present: defined and not 0. */
  predicate HasYear(referenceYear: Option<int>)
  {
    referenceYear.Some? && referenceYear.value != 0
  }

  /**
   * `parseDate(dateStr, referenceYear)`: `DD/MM/YYYY` becomes `YYYY-MM-DD`,
   * `DD/MM` becomes `<referenceYear>-MM-DD` when a year is given; anything
   * else is None (null).
   */
  function ParseDate(dateStr: string, referenceYear: Option<int>): (r: Option<string>)
    ensures r.Some? <==> FullDateShape(Trim(dateStr)) || (ShortDateShape(Trim(dateStr)) && HasYear(referenceYear))
  {
    var s := Trim(dateStr);
    if FullDateShape(s) then Some(s[6..] + "-" + s[3..5] + "-" + s[..2])
    else if ShortDateShape(s) && HasYear(referenceYear) then
      Some(IntToString(referenceYear.value) + "-" + s[3..] + "-" + s[..2])
    else None
  }

  /** Day, month and year digits are only rearranged: no range is checked, so `31/02/2025` gives `2025-02-31`. */
  lemma ParseDateFull(day: string, month: string, year: string, referenceYear: Option<int>)
    requires |day| == 2 && |month| == 2 && |year| == 4 && AllDigits(day) && AllDigits(month) && AllDigits(year)
    ensures ParseDate(day + "/" + month + "/" + year, referenceYear) == Some(year + "-" + month + "-" + day)
  {
    var s := day + "/" + month + "/" + year;
    TrimUnchanged(s);
    assert s[..2] == day && s[3..5] == month && s[6..] == year;
  }

  /** `DD/MM` takes the reference year, and is None without one. */
  lemma ParseDateShort(day: string, month: string, referenceYear: Option<int>)
    requires |day| == 2 && |month| == 2 && AllDigits(day) && AllDigits(month)
    ensures HasYear(referenceYear) ==>
      ParseDate(day + "/" + month, referenceYear) == Some(IntToString(referenceYear.value) + "-" + month + "-" + day)
    ensures !HasYear(referenceYear) ==> ParseDate(day + "/" + month, referenceYear) == None
  {
    var s := day + "/" + month;
    TrimUnchanged(s);
    assert s[..2] == day && s[3..] == month;
  }

  // ---------------------------------------------------------------- parseAmount

  /**
   * `parseAmount(amountStr)`: `R$` removed and trimmed, a leading `-` read
   * as the sign, every `.` (thousands) removed, the first `,` read as the
   * decimal point, then `parseFloat`; None stands for null.
   */
  function ParseAmount(amountStr: string): Option<real>
  {
    ParseCleaned(Trim(StripCurrency(amountStr)))
  }

  /** The part of `parseAmount` after the currency is removed and the text trimmed. */
  function ParseCleaned(cleaned: string): Option<real>
  {
    var isNegative := StartsWith(cleaned, "-");
    var unsigned := if isNegative then cleaned[1..] else cleaned;
    match ParseFloat(ReplaceFirst(Remove(unsigned, IsDot), ',', "."))
    case None => None
    case Some(value) => Some(if isNegative then -value else value)
  }

  /** A leading `-` negates the amount the rest of the cleaned text gives. */
  lemma ParseCleanedNegates(u: string)
    requires !StartsWith(u, "-")
    ensures ParseCleaned("-" + u) == match ParseCleaned(u) case None => None case Some(v) => Some(-v)
  {
    assert ("-" + u)[1..] == u;
    assert StartsWith("-" + u, "-");
  }

  /**
   * The Brazilian format `R$ 1.234,56`: the digits before the comma, without
   * their thousands dot, are the integer part and those after it the cents.
   */
  lemma ParseAmountBrazilian(thousands: string, units: string, cents: string)
    requires thousands != [] && AllDigits(thousands) && AllDigits(units) && AllDigits(cents)
    ensures ParseAmount("R$ " + thousands + "." + units + "," + cents) == Some(DecimalValue(thousands + units, cents))
  {
    var body := thousands + "." + units + "," + cents;
    assert "R$ " + thousands + "." + units + "," + cents == "R$" + " " + body;
    BrazilianTrimmed(thousands, units, cents);
    StripCurrencyPrefix(" ", body);
    assert ParseAmount("R$" + " " + body) == ParseCleaned(body);
    BrazilianCleaned(thousands, units, cents);
  }

  lemma BrazilianCleaned(thousands: string, units: string, cents: string)
    requires thousands != [] && AllDigits(thousands) && AllDigits(units) && AllDigits(cents)
    ensures ParseCleaned(thousands + "." + units + "," + cents) == Some(DecimalValue(thousands + units, cents))
  {
    var body := thousands + "." + units + "," + cents;
    var digits := thousands + units;
    assert body == thousands + "." + (units + "," + cents);
    assert body[0] == thousands[0] && !StartsWith(body, "-");
    RemoveDot(thousands, units + "," + cents);
    RemoveNone(units + "," + cents);
    assert Remove(body, IsDot) == digits + "," + cents;
    ReplaceFirstComma(digits, cents);
    ParseFloatDecimal(digits, cents);
  }

  lemma BrazilianTrimmed(thousands: string, units: string, cents: string)
    requires thousands != [] && AllDigits(thousands) && AllDigits(units) && AllDigits(cents)
    ensures var body := thousands + "." + units + "," + cents;
      Trim(body) == body && !StartsWith(body, "-")
  {
    var body := thousands + "." + units + "," + cents;
    assert body[0] == thousands[0];
    if cents != [] {
      assert body[|body| - 1] == cents[|cents| - 1];
    }
    TrimUnchanged(body);
  }

  // ------------------------------------------------------------- reference year

  /** A `202d` year standing as a whole word at `i`: `\b(202[0-9])\b`. */
  predicate YearAt(text: string, i: nat)
  {
    i + 4 <= |text| && text[i] == '2' && text[i + 1] == '0' && text[i + 2] == '2' && IsDigit(text[i + 3]) &&
    (i == 0 || !IsWordChar(text[i - 1])) && (i + 4 == |text| || !IsWordChar(text[i + 4]))
  }

  /** Index of the first year word from `i` on, or `|text|`. */
  function FirstYearAt(text: string, i: nat): (k: nat)
    requires i <= |text|
    ensures i <= k <= |text|
    ensures k < |text| ==> YearAt(text, k)
    ensures forall j :: i <= j < k ==> !YearAt(text, j)
    decreases |text| - i
  {
    if i == |text| then i
    else if YearAt(text, i) then i
    else FirstYearAt(text, i + 1)
  }

  /** The C6 statement's year: the first `202d` word in the text, or the current year. */
  function ReferenceYear(text: string, currentYear: int): (y: int)
    ensures (2020 <= y <= 2029 && exists k :: 0 <= k < |text| && YearAt(text, k)) ||
            (y == currentYear && forall k :: 0 <= k < |text| ==> !YearAt(text, k))
  {
    var k := FirstYearAt(text, 0);
    if k < |text| then 2020 + DigitValue(text[k + 3]) else currentYear
  }

  // ------------------------------------------------------------ C6 Bank parser

  /** One match of the C6 transaction pattern: launch date, label, description and amount. */
  datatype C6Match = C6Match(launchDate: string, transactionType: string, description: string, amountStr: string)

  /** "entrada" when the label says so (in any case) or the amount is positive. */
  function C6Kind(transactionType: string, amount: real): string
  {
    if Contains(Lower(transactionType), "entrada") || amount > 0.0 then "entrada" else "saida"
  }

  /** The transaction one C6 match gives, or None when its date or amount does not parse. */
  function C6Transaction(m: C6Match, referenceYear: int): Option<ParsedTransaction>
  {
    match (ParseDate(m.launchDate, Some(referenceYear)), ParseAmount(m.amountStr))
    case (Some(date), Some(amount)) =>
      Some(ParsedTransaction(date, C6Kind(m.transactionType, amount), Abs(amount), Trim(m.description), Some(m.transactionType)))
    case _ => None
  }

  /** Reference definition: the transactions of the matches, in order, the unparseable ones skipped. */
  function C6Transactions(matches: seq<C6Match>, referenceYear: int): seq<ParsedTransaction>
  {
    if matches == [] then []
    else
      var before := C6Transactions(matches[..|matches| - 1], referenceYear);
      match C6Transaction(matches[|matches| - 1], referenceYear)
      case None => before
      case Some(t) => before + [t]
  }

  /** `parseC6BankExtract(text)`, over the pattern's matches in the text. */
  method ParseC6BankExtract(text: string, c6Matches: seq<C6Match>, currentYear: int)
    returns (transactions: seq<ParsedTransaction>)
    ensures transactions == C6Transactions(c6Matches, ReferenceYear(text, currentYear))
  {
    transactions := [];
    var referenceYear := ReferenceYear(text, currentYear);
    var i := 0;
    while i < |c6Matches|
      invariant 0 <= i <= |c6Matches|
      invariant transactions == C6Transactions(c6Matches[..i], referenceYear)
    {
      assert c6Matches[..i + 1][..i] == c6Matches[..i];
      var transaction := C6Transaction(c6Matches[i], referenceYear);
      i := i + 1;
      if transaction.None? {
        continue;
      }
      transactions := transactions + [transaction.value];
    }
    assert c6Matches[..i] == c6Matches;
  }

  /**
   * A C6 transaction carries the amount's absolute value and is an
   * "entrada" exactly when its label contains "entrada" or the amount is
   * positive; it is emitted exactly when the date and amount parse.
   */
  lemma C6TransactionRule(m: C6Match, referenceYear: int)
    ensures C6Transaction(m, referenceYear).Some? <==>
      ParseDate(m.launchDate, Some(referenceYear)).Some? && ParseAmount(m.amountStr).Some?
    ensures C6Transaction(m, referenceYear).Some? ==>
      var t := C6Transaction(m, referenceYear).value;
      var amount := ParseAmount(m.amountStr).value;
      t.amount >= 0.0 && (t.amount == amount || t.amount == -amount) &&
      (t.kind == "entrada" <==> Contains(Lower(m.transactionType), "entrada") || amount > 0.0) &&
      (t.kind == "entrada" || t.kind == "saida")
  {
  }

  /** Every C6 transaction has a non-negative amount and is an "entrada" or a "saida". */
  lemma {:induction false} C6TransactionsWellFormed(matches: seq<C6Match>, referenceYear: int)
    ensures forall k :: 0 <= k < |C6Transactions(matches, referenceYear)| ==>
      WellFormed(C6Transactions(matches, referenceYear)[k])
    ensures |C6Transactions(matches, referenceYear)| <= |matches|
  {
    if matches != [] {
      C6TransactionsWellFormed(matches[..|matches| - 1], referenceYear);
      C6TransactionRule(matches[|matches| - 1], referenceYear);
    }
  }

  /** What every parser emits: a non-negative amount and one of the two types. */
  predicate WellFormed(t: ParsedTransaction)
  {
    t.amount >= 0.0 && (t.kind == "entrada" || t.kind == "saida")
  }

  // ------------------------------------------------------------- generic parser

  /** What a generic pattern captures on a line: date, description and amount. */
  datatype GenericMatch = GenericMatch(dateStr: string, description: string, amountStr: string)

  /** The generic patterns: date-description-amount, then date-date-description-amount. */
  const GenericPatternCount: nat := 2

  /** The first of patterns `p..` that matches the line. */
  function FirstPatternMatch(patternMatch: (nat, string) -> Option<GenericMatch>, line: string, p: nat): Option<GenericMatch>
    requires p <= GenericPatternCount
    decreases GenericPatternCount - p
  {
    if p == GenericPatternCount then None
    else if patternMatch(p, line).Some? then patternMatch(p, line)
    else FirstPatternMatch(patternMatch, line, p + 1)
  }

  /** The transaction a generic match gives: "entrada" iff the amount is not negative. */
  function GenericTransaction(m: GenericMatch, referenceYear: int): Option<ParsedTransaction>
  {
    match (ParseDate(m.dateStr, Some(referenceYear)), ParseAmount(m.amountStr))
    case (Some(date), Some(amount)) =>
      Some(ParsedTransaction(date, if amount >= 0.0 then "entrada" else "saida", Abs(amount), Trim(m.description), None))
    case _ => None
  }

  /** The transaction of a line: only its first matching pattern is tried. */
  function LineTransaction(patternMatch: (nat, string) -> Option<GenericMatch>, line: string, referenceYear: int)
    : Option<ParsedTransaction>
  {
    match FirstPatternMatch(patternMatch, line, 0)
    case None => None
    case Some(m) => GenericTransaction(m, referenceYear)
  }

  /** Reference definition: the lines' transactions, in order. */
  function GenericTransactions(lines: seq<string>, patternMatch: (nat, string) -> Option<GenericMatch>, referenceYear: int)
    : seq<ParsedTransaction>
  {
    if lines == [] then []
    else
      var before := GenericTransactions(lines[..|lines| - 1], patternMatch, referenceYear);
      match LineTransaction(patternMatch, lines[|lines| - 1], referenceYear)
      case None => before
      case Some(t) => before + [t]
  }

  /** `parseGenericExtract(text)`: line by line, pattern by pattern, stopping at the first match. */
  method ParseGenericExtract(text: string, patternMatch: (nat, string) -> Option<GenericMatch>, currentYear: int)
    returns (transactions: seq<ParsedTransaction>)
    ensures transactions == GenericTransactions(Split(text, '\n'), patternMatch, currentYear)
  {
    transactions := [];
    var lines := Split(text, '\n');
    var referenceYear := currentYear;
    for i := 0 to |lines|
      invariant transactions == GenericTransactions(lines[..i], patternMatch, referenceYear)
    {
      GenericTransactionsNext(lines, i, patternMatch, referenceYear);
      var m := MatchLine(patternMatch, lines[i]);
      if m.Some? {
        var transaction := GenericTransaction(m.value, referenceYear);
        if transaction.Some? {
          transactions := transactions + [transaction.value];
        }
      }
    }
    assert lines[..|lines|] == lines;
  }

  /** The inner loop of `parseGenericExtract`: the patterns in order, up to the first that matches. */
  method MatchLine(patternMatch: (nat, string) -> Option<GenericMatch>, line: string) returns (m: Option<GenericMatch>)
    ensures m == FirstPatternMatch(patternMatch, line, 0)
  {
    var p := 0;
    while p < GenericPatternCount
      invariant p <= GenericPatternCount
      invariant FirstPatternMatch(patternMatch, line, p) == FirstPatternMatch(patternMatch, line, 0)
    {
      m := patternMatch(p, line);
      if m.Some? {
        return;
      }
      p := p + 1;
    }
    m := None;
  }

  /** One more line adds the transaction of its first matching pattern, if that parses. */
  lemma GenericTransactionsNext(lines: seq<string>, i: nat, patternMatch: (nat, string) -> Option<GenericMatch>, referenceYear: int)
    requires i < |lines|
    ensures var m := FirstPatternMatch(patternMatch, lines[i], 0);
      var before := GenericTransactions(lines[..i], patternMatch, referenceYear);
      GenericTransactions(lines[..i + 1], patternMatch, referenceYear) ==
        if m.Some? && GenericTransaction(m.value, referenceYear).Some? then before + [GenericTransaction(m.value, referenceYear).value]
        else before
  {
    assert lines[..i + 1][..i] == lines[..i];
  }

  /**
   * A line whose first matching pattern fails to parse gives nothing, even
   * when a later pattern would have parsed.
   */
  lemma FirstPatternOnly(patternMatch: (nat, string) -> Option<GenericMatch>, line: string, referenceYear: int)
    requires patternMatch(0, line).Some?
    ensures LineTransaction(patternMatch, line, referenceYear) == GenericTransaction(patternMatch(0, line).value, referenceYear)
  {
  }

  /** Generic transactions: absolute amounts; "entrada" exactly for a non-negative amount. */
  lemma GenericTransactionRule(m: GenericMatch, referenceYear: int)
    ensures GenericTransaction(m, referenceYear).Some? ==>
      var t := GenericTransaction(m, referenceYear).value;
      var amount := ParseAmount(m.amountStr).value;
      WellFormed(t) && t.amount == Abs(amount) && (t.kind == "entrada" <==> amount >= 0.0)
  {
  }

  lemma {:induction false} GenericTransactionsWellFormed(lines: seq<string>, patternMatch: (nat, string) -> Option<GenericMatch>, referenceYear: int)
    ensures forall k :: 0 <= k < |GenericTransactions(lines, patternMatch, referenceYear)| ==>
      WellFormed(GenericTransactions(lines, patternMatch, referenceYear)[k])
    ensures |GenericTransactions(lines, patternMatch, referenceYear)| <= |lines|
  {
    if lines != [] {
      GenericTransactionsWellFormed(lines[..|lines| - 1], patternMatch, referenceYear);
      var last := lines[|lines| - 1];
      match FirstPatternMatch(patternMatch, last, 0)
      case None =>
      case Some(m) => GenericTransactionRule(m, referenceYear);
    }
  }

  // ------------------------------------------------------- parseBankStatementPDF

  /** What text extraction gave: the text, or the exception it threw (`name`, `message`, `instanceof Error`). */
  datatype Extraction = Extracted(text: string) | Thrown(name: string, message: Option<string>, isError: bool)

  datatype ParseResult = ParseResult(
    success: bool, transactions: seq<ParsedTransaction>, errors: seq<string>, bankName: Option<string>, needsPassword: bool)

  const EmptyText := "PDF vazio ou não foi possível extrair texto"
  const UnknownFormat := "Formato de extrato não reconhecido. Adicione suporte para este banco."
  const NoTransactions := "Nenhuma transação encontrada no PDF"
  const UnknownBank := "Desconhecido"

  /** The exception is about a password: named `PasswordException`, or its message mentions "password". */
  predicate IsPasswordError(e: Extraction)
    requires e.Thrown?
  {
    e.name == "PasswordException" || (e.message.Some? && Contains(e.message.value, "password"))
  }

  /** The transactions the statement's text gives: the C6 parser for C6 Bank, the generic parser otherwise. */
  function StatementTransactions(text: string, test: (nat, string) -> bool, c6Matches: seq<C6Match>,
                                 patternMatch: (nat, string) -> Option<GenericMatch>, currentYear: int): seq<ParsedTransaction>
  {
    if IdentifyBank(test, text) == Some("C6 Bank") then C6Transactions(c6Matches, ReferenceYear(text, currentYear))
    else GenericTransactions(Split(text, '\n'), patternMatch, currentYear)
  }

  /**
   * `parseBankStatementPDF(file, password)`, given the extracted text (or the
   * exception), the bank pattern outcomes, the regex matches and the year.
   * `password` is "" when none was given.
   */
  method ParseBankStatementPDF(extraction: Extraction, password: string, test: (nat, string) -> bool,
                               c6Matches: seq<C6Match>, patternMatch: (nat, string) -> Option<GenericMatch>,
                               currentYear: int)
    returns (r: ParseResult)
    ensures r.success ==> r.transactions != [] && r.errors == []
    ensures !r.success ==> r.transactions == [] && |r.errors| == 1
    ensures extraction.Extracted? && |extraction.text| < 50 ==> r == ParseResult(false, [], [EmptyText], None, false)
    ensures extraction.Extracted? && |extraction.text| >= 50 ==>
      var ts := StatementTransactions(extraction.text, test, c6Matches, patternMatch, currentYear);
      r.bankName == Some(IdentifyBank(test, extraction.text).GetOr(UnknownBank)) && !r.needsPassword &&
      (r.success <==> ts != []) && (r.success ==> r.transactions == ts) &&
      (!r.success ==> r.errors == [NoTransactions])
    ensures extraction.Thrown? ==> !r.success && r.bankName.None? && (r.needsPassword <==> IsPasswordError(extraction))
  {
    if extraction.Thrown? {
      if IsPasswordError(extraction) {
        var message := if password != "" then "Senha incorreta. Tente novamente." else "Este PDF está protegido com senha.";
        return ParseResult(false, [], [message], None, true);
      }
      var message := if extraction.isError then "Erro ao processar PDF: " + extraction.message.GetOr("") else "Erro desconhecido ao processar PDF";
      return ParseResult(false, [], [message], None, false);
    }
    var text := extraction.text;
    if text == "" || |text| < 50 {
      return ParseResult(false, [], [EmptyText], None, false);
    }
    var errors: seq<string> := [];
    var bankName := IdentifyBank(test, text);
    var transactions: seq<ParsedTransaction>;
    if bankName == Some("C6 Bank") {
      transactions := ParseC6BankExtract(text, c6Matches, currentYear);
    } else {
      transactions := ParseGenericExtract(text, patternMatch, currentYear);
      if |transactions| == 0 {
        errors := errors + [UnknownFormat];
      }
    }
    if |transactions| == 0 {
      return ParseResult(false, [], [NoTransactions], Some(bankName.GetOr(UnknownBank)), false);
    }
    return ParseResult(true, transactions, errors, Some(bankName.GetOr(UnknownBank)), false);
  }

  /** Every transaction a statement yields is well formed. */
  lemma StatementWellFormed(text: string, test: (nat, string) -> bool, c6Matches: seq<C6Match>,
                            patternMatch: (nat, string) -> Option<GenericMatch>, currentYear: int)
    ensures var ts := StatementTransactions(text, test, c6Matches, patternMatch, currentYear);
      forall k :: 0 <= k < |ts| ==> WellFormed(ts[k])
  {
    C6TransactionsWellFormed(c6Matches, ReferenceYear(text, currentYear));
    GenericTransactionsWellFormed(Split(text, '\n'), patternMatch, currentYear);
  }
}
