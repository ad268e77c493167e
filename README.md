# Personal finance app: a verified model of its core logic

This project models the business rules of a personal-finance web
application (React and TypeScript over Supabase or a local SQLite file),
together with its data scripts. These are the parts that decide amounts,
balances, routing and parsing:

- **Lançamentos (entries).** This covers the entries page's filter and
  selection state, the unit summaries, the bank-name formatting, the
  installment end month and the CSV export of the offline launches page.
  It also covers the bulk-edit dialog and the routing of single and bulk
  deletes to the three tables an entry can live in.
- **Contas (bills and cards).** This covers the monthly value and paid
  state of recurring bills, the bank balances of the bills page (both the
  current hook and the older one) and the bill form. It also covers the
  credit-card invoice dates, the per-card monthly totals and the charges
  filter.
- **Bank balances.** This covers the bank list and the current and
  period balances, plus the balance form that validates what it saves.
- **Dashboard.** This covers the totals, monthly averages, largest
  categories, breakdowns, monthly buckets and category trends.
- **Orçamentos (budgets).** This covers how budgets are resolved to
  business units, spend per unit, the update payload, and the progress
  classification with its warnings.
- **Fluxo de caixa.** This is the cash-flow projection over the recurring
  bills.
- **Imports.**
  - The pasted-text readers for entries, monthly expense summaries and
    monthly income summaries.
  - The CSV file import.
  - The bank-statement parsers that run once a PDF's text has been
    extracted.
  - The Levenshtein-based duplicate detector.
  - The import of the historical CSV files into the local database.
- **Onboarding.** This is the three-step flow and its unit and category
  pickers.
- **Backups.** This covers the JSON and CSV backup scripts (Supabase and
  local) and the PostgreSQL dump converter `scripts/sql-to-csv.py`.
  It includes the proof that the CSV lines they write read back through
  the application's own line splitter.

Code that changes state step by step is modelled as methods proved against
specification functions. This covers loops over lines, handlers that update
a component's state, and the request sequences of mutations. Component
state becomes a class whose methods carry `modifies` clauses. Pure helpers
become functions, and the properties the application relies on are lemmas.

Shared helper modules sit beside the core modules:

- `Wrappers`: Option and Result.
- `Strings`: trim, split, join, replace, case mapping and padStart.
- `Numbers`: `parseFloat`, `Number` and `Math.round` on exact reals.
- `Lists`: filtering, first-by-key de-duplication, removal and toggling.
- `Sorting`: JavaScript's default string order and insertion sorts by a
  key, ascending or descending.
- `Records`: a `Record<string, number>` together with its key order.
- `Calendar`: Gregorian dates and the `YYYY-MM[-DD]` texts.
- `Csv`: field quoting as section 2 of RFC 4180 describes it.

The program's environment enters every model as a parameter. This covers
today's date and the time-zone offset, each database reply, locale
comparisons, the Unicode part of accent stripping, the regular-expression
matches of the PDF parsers and the table reads of the backup scripts.

## Model

| member | source | states |
|---|---|---|
| ContasBills.FindInstance | src/hooks/contas/useContasBills.ts:104 | the instance found is one of the month's instances and belongs to the bill; None iff no instance belongs to it |
| ContasBills.FindAdjustment | src/hooks/contas/useContasBills.ts:110 | the adjustment found is one of the month's adjustments and belongs to the bill; None iff none belongs to it |
| ContasBills.FindInstanceFirst | src/hooks/contas/useContasBills.ts:104 | the instance found is the one at the first index carrying the bill's id |
| ContasBills.CurrentValueFirstInstance | src/hooks/contas/useContasBills.ts:103-112 | only the bill's first instance is consulted: its adjusted value wins when present, whatever later instances hold |
| ContasBills.CurrentValueDefault | src/hooks/contas/useContasBills.ts:103-112 | with neither an instance value nor an adjustment the bill's own value is its current value |
| ContasBills.CurrentValueLegacy | src/hooks/contas/useContasBills.ts:103-112 | with no adjusted instance value the first legacy adjustment of the bill gives the current value |
| ContasBills.FindAdjustmentFirst | src/hooks/contas/useContasBills.ts:110 | the adjustment found is the one at the first index carrying the bill's id |
| ContasBills.IsBillPaidThisMonth | src/hooks/contas/useContasBills.ts:115-118 | a bill is paid this month iff its first instance of the month exists and is marked paid |
| ContasBills.FindInstanceIndex | src/hooks/contas/useContasBills.ts:104 | a found instance is the one at the first index with the bill's id, and no instance before it has that id |
| ContasBills.FindInstanceFound | src/hooks/contas/useContasBills.ts:104 | a found instance sits at some index with no earlier instance of the same bill |
| ContasBills.GetBillsWithMonthlyData | src/hooks/contas/useContasBills.ts:120-127 | one entry per bill in order, each keeping the bill's fields and adding whether it is paid this month and its current value |
| ContasBills.UserBanksSpec | src/hooks/contas/useContasBills.ts:94-97 | the bank list is sorted, free of repeats, and holds exactly the configured bank names and the non-empty banks of the transactions |
| ContasCalculations.GetBaselineDate | src/hooks/contas/useContasCalculations.ts:120-128 | a set baseline date wins; with neither a baseline date nor an update time the baseline is 1970-01-01 |
| ContasCalculations.BaselineFromUpdatedAt | src/hooks/contas/useContasCalculations.ts:124-126 | without a baseline date, an update time `D` + "T" + time gives the day `D` |
| ContasCalculations.MovementsConcat | src/hooks/contas/useContasCalculations.ts:138-166 | the movements of two lists of items add up |
| ContasCalculations.MovementsIgnore | src/hooks/contas/useContasCalculations.ts:139-144 | items of other banks, imported items and items outside baseline..today contribute nothing |
| ContasCalculations.SaidaAnyCase | src/hooks/contas/useContasCalculations.ts:146-160 | the type is compared lower-cased and without accents, so "SAÍDA" subtracts its amount |
| ContasCalculations.UnknownTypeAdds | src/hooks/contas/useContasCalculations.ts:162-163 | a type that is none of entrada/receita/saida/despesa adds its amount |
| ContasCalculations.CalculateCurrentBalances | src/hooks/contas/useContasCalculations.ts:131-170 | the loop builds the balances record of the specification: a key exactly for each configured bank name, holding the initial balance plus movements of the last row with that name |
| ContasCalculations.BalancesValid | src/hooks/contas/useContasCalculations.ts:132-169 | the balances record lists each key once, exactly the keys that have a value |
| ContasCalculations.BalancesKeys | src/hooks/contas/useContasCalculations.ts:135-168 | there is a balance for a bank name iff some configured row has that name |
| ContasCalculations.BalancesLast | src/hooks/contas/useContasCalculations.ts:168 | a later row of the same bank overwrites an earlier one: the balance is that of the last row with the name |
| ContasCalculations.BalancesOfSpec | src/hooks/contas/useContasCalculations.ts:131-170 | the balances record is well formed, keyed by exactly the configured bank names, each holding the last such row's balance |
| ContasCalculations.NewBank | src/hooks/contas/useContasCalculations.ts:168 | with distinct bank names a row's bank is not among the earlier rows' keys |
| ContasCalculations.DistinctBanksOnePerRow | src/hooks/contas/useContasCalculations.ts:135-168 | with distinct bank names there is one balance per row, keyed in row order |
| ContasCalculations.CalculateTotals | src/hooks/contas/useContasCalculations.ts:173-189 | the unpaid total is the sum over unpaid bills and the remaining cash is the cash less that |
| ContasCalculations.UnpaidIsDifference | src/hooks/contas/useContasCalculations.ts:174-176 | the total less the paid total is exactly the sum of the unpaid bills |
| ContasCalculations.TotalCashSpec | src/hooks/contas/useContasCalculations.ts:178-180 | with distinct bank names the cash is the sum over the configured rows of their balances |
| ContasCalculations.RequestFor | src/hooks/contas/useContasCalculations.ts:87-110 | an update with an id becomes an update of that row; one without becomes an insert |
| ContasCalculations.RequestsFor | src/hooks/contas/useContasCalculations.ts:86-111 | one request per update, in order |
| ContasCalculations.UpdateBankBalances | src/hooks/contas/useContasCalculations.ts:79-112 | without a user nothing is sent and the mutation fails; otherwise the requests are sent in order and stop at the first that fails, success meaning every request went through |
| ContasLogic.BanksDistinct | src/hooks/useContasLogic.ts:7 | the five fixed bank names are pairwise different |
| ContasLogic.GetCurrentBillValue | src/hooks/useContasLogic.ts:282-285 | without an adjustment of the bill its own value is used; otherwise the value of one of its adjustments |
| ContasLogic.CurrentValueFirstAdjustment | src/hooks/useContasLogic.ts:283-284 | of several adjustments of a bill the first in the list gives the value |
| ContasLogic.CalculateCurrentBalances | src/hooks/useContasLogic.ts:288-305 | the loop over the five banks builds a record keyed by exactly those banks, in order, each holding its initial balance plus movements |
| ContasLogic.BalancesOverKeys | src/hooks/useContasLogic.ts:291-302 | over distinct banks the record is well formed and lists exactly those banks in order |
| ContasLogic.BalancesOverValues | src/hooks/useContasLogic.ts:291-302 | over distinct banks each bank holds its own balance |
| ContasLogic.BalancesOverSpec | src/hooks/useContasLogic.ts:288-305 | over distinct banks the record lists exactly those banks in order, each with its balance |
| ContasLogic.UnconfiguredBank | src/hooks/useContasLogic.ts:292-293 | a bank without a configuration row starts from zero, so its balance is its movements |
| ContasLogic.ItemMovesBalance | src/hooks/useContasLogic.ts:295-299 | one more item of the bank adds its amount when its type is 'entrada' and subtracts it otherwise |
| ContasLogic.UnpaidIsDifference | src/hooks/useContasLogic.ts:309-311 | the total less the paid total is exactly the sum over the unpaid bills |
| ContasLogic.BalancesTotal | src/hooks/useContasLogic.ts:313-314 | over distinct banks the total of the record is the sum of their balances |
| ContasLogic.CalculateTotals | src/hooks/useContasLogic.ts:308-323 | paid plus unpaid is the total of the bills, unpaid is the sum over unpaid bills, and the remaining cash is the cash less the unpaid total |
| ContasLogic.TotalCashSpec | src/hooks/useContasLogic.ts:313-314 | the cash is the sum of the five banks' balances |
| CreditCardChargesSection.FilteredChargesSpec | src/components/contas/CreditCardChargesSection.tsx:54-62 | the shown charges keep their order, and a charge is shown iff its card and type match the chosen ones (or "all"), it is active under "ativo" and inactive under "inativo"; any other status keeps every charge |
| CreditCardChargesSection.AllFiltersKeepAll | src/components/contas/CreditCardChargesSection.tsx:54-62 | with every filter on "all" every charge is shown |
| CreditCardChargesSection.Parsed | src/components/contas/CreditCardChargesSection.tsx:33-39 | the submitted data keeps every field and replaces the value by its parsed number |
| CreditCardChargesSection.Section.constructor | src/components/contas/CreditCardChargesSection.tsx:14-21 | the form starts closed with nothing edited, on the current month, every filter on "all" |
| CreditCardChargesSection.Section.Shown | src/components/contas/CreditCardChargesSection.tsx:54-62 | the charges shown are some of the charges, in their order |
| CreditCardChargesSection.Section.HandleSubmit | src/components/contas/CreditCardChargesSection.tsx:30-42 | while a charge is edited the submit updates that charge, otherwise it creates one, in both cases with the value parsed |
| CreditCardChargesSection.Section.HandleEdit | src/components/contas/CreditCardChargesSection.tsx:44-47 | the charge becomes the edited one and the form opens; month and filters are kept |
| CreditCardChargesSection.Section.HandleCloseModal | src/components/contas/CreditCardChargesSection.tsx:49-52 | the form closes and nothing is edited; month and filters are kept |
| CreditCardChargesSection.Section.OpenNew | src/components/contas/CreditCardChargesSection.tsx:70 | "Nova Cobrança" opens the form and leaves the edited charge, month and filters as they were |
| CreditCardChargesSection.Section.SetFilters | src/components/contas/CreditCardChargesSection.tsx:90 | the filter bar replaces the filters and nothing else |
| CreditCardChargesSection.Section.SetSelectedMonth | src/components/contas/CreditCardChargesSection.tsx:82 | the month selector replaces the month and nothing else |
| CreditCardChargesSection.SubmitAfterEditOrClose | src/components/contas/CreditCardChargesSection.tsx:30-52 | a submit after choosing a charge updates it; a submit after closing the form creates a new charge |
| CreditCardMonthlySummary.MonthlyValueCases | src/components/contas/CreditCardMonthlySummary.tsx:34-70 | a recurring charge counts its value; an installment charge counts value / installments while the month is within its installments and nothing otherwise; a one-off charge counts its value in its own month only; an installment charge without installments and any other type count nothing |
| CreditCardMonthlySummary.InstallmentMonths | src/components/contas/CreditCardMonthlySummary.tsx:43-58 | an installment charge of n installments counts in exactly the n consecutive months starting with its creation month |
| CreditCardMonthlySummary.CalculateMonthlyTotals | src/components/contas/CreditCardMonthlySummary.tsx:25-83 | the loop over the active charges builds the totals: a card is a key iff some charge counts for it, and holds the positive sum of what its charges add |
| CreditCardMonthlySummary.TotalsSpec | src/components/contas/CreditCardMonthlySummary.tsx:25-83 | the totals are well formed; a card is a key iff some active charge of it adds a positive value, and its total is that sum, above zero |
| CreditCardMonthlySummary.TotalsValid | src/components/contas/CreditCardMonthlySummary.tsx:72-79 | every card is listed in the totals once |
| CreditCardMonthlySummary.TotalsKeys | src/components/contas/CreditCardMonthlySummary.tsx:72-79 | a card is a key iff some charge counts for it |
| CreditCardMonthlySummary.SomeCountsSnoc | src/components/contas/CreditCardMonthlySummary.tsx:33-80 | some charge of a longer list counts for a card iff one of the earlier ones does or the new one does |
| CreditCardMonthlySummary.TotalsValues | src/components/contas/CreditCardMonthlySummary.tsx:72-79 | the total of a card is the sum of what its charges add, and above zero |
| CreditCardMonthlySummary.NoCountZero | src/components/contas/CreditCardMonthlySummary.tsx:72 | a card that no charge counts for sums to zero |
| CreditCardMonthlySummary.AddChargeTotal | src/components/contas/CreditCardMonthlySummary.tsx:72-79 | adding one charge raises the grand total by its value when positive and leaves it alone otherwise |
| CreditCardMonthlySummary.GrandTotalSpec | src/components/contas/CreditCardMonthlySummary.tsx:85-87 | the grand total is the sum over every active charge of its positive monthly value |
| CreditCardMonthlySummary.NoCardsZero | src/components/contas/CreditCardMonthlySummary.tsx:86-91 | the card list is empty iff no active charge adds a positive monthly value, and then the grand total is zero |
| CreditCardUtils.CalculateInvoiceReferenceMonth | src/utils/creditCardUtils.ts:20-46 | the text returned is the first day of the reference month of the purchase |
| CreditCardUtils.ReferenceMonth | src/utils/creditCardUtils.ts:28-42 | the reference month is a valid month, the purchase's own month or, when the purchase day is past the closing day, the month after it |
| CreditCardUtils.SameMonthUpToClosing | src/utils/creditCardUtils.ts:8-9 | a purchase up to the closing day goes to the invoice of its own month |
| CreditCardUtils.NextMonthAfterClosing | src/utils/creditCardUtils.ts:33-41 | a purchase after the closing day goes to the next month's invoice, December rolling over to January of the next year |
| CreditCardUtils.ReferenceMonthShape | src/utils/creditCardUtils.ts:44-45 | the result always has the `YYYY-MM-DD` shape and spells day 1 of the reference month |
| CreditCardUtils.DocumentedExamples | src/utils/creditCardUtils.ts:11-14 | the three documented purchases (5 Oct closing 7, 10 Oct closing 7, 31 Oct closing 15) go to the October, November and November invoices |
| CreditCardUtils.PartNumber | src/utils/creditCardUtils.ts:59 | `Number` of a part: a missing part is NaN, a blank part is 0, and a digit run is the number it writes |
| CreditCardUtils.YearHasNoDash | src/utils/creditCardUtils.ts:45 | a year is written as a non-empty digit run, so splitting at `-` cannot cut it |
| CreditCardUtils.DueDateOfParts | src/utils/creditCardUtils.ts:59-73 | a text of three dash-separated parts whose first two are digit runs is read as that year and month |
| CreditCardUtils.DueDateBlankMonth | src/utils/creditCardUtils.ts:59-73 | a blank month part reads as 0, so a text like `2025--01` is due in January of the year read |
| CreditCardUtils.DueDateOfReference | src/utils/creditCardUtils.ts:55-74 | the due date of an invoice month is in the month after it, December rolling over, on the due day itself, zero-padded |
| CreditCardUtils.MonthStartParts | src/utils/creditCardUtils.ts:45 | the first of a month splits at the dashes into the year, the padded month (which reads back as the month) and "01" |
| CreditCardUtils.DueDateTextNext | src/utils/creditCardUtils.ts:62-73 | the due date text of a valid month spells the next month |
| CreditCardUtils.InvoiceDueDate | src/utils/creditCardUtils.ts:98-110 | for one purchase the due date is one or two months after the purchase's month: two when bought after the closing day |
| CreditCardUtils.DueDayNotClamped | src/utils/creditCardUtils.ts:70-73 | the due day is not clamped: a January invoice due on the 31st spells 2025-02-31, which is no date |
| CreditCardUtils.ValidDayIsDayOfSomeMonth | src/utils/creditCardUtils.ts:121-123 | a day is valid iff some month has it, which is iff January has it |
| CsvImportModal.DetectSeparator | src/components/CSVImportModal.tsx:33-41 | the separator is always `;` or `,` |
| CsvImportModal.DetectSeparatorRule | src/components/CSVImportModal.tsx:33-41 | the separator is `;` exactly when semicolons outnumber commas on the first line; a tie gives `,` |
| CsvImportModal.DetectSeparatorPlain | src/components/CSVImportModal.tsx:33-41 | a first line with neither separator gives `,` |
| CsvImportModal.Headers | src/components/CSVImportModal.tsx:48 | one header per separated cell of the first line, each trimmed and lower-cased |
| CsvImportModal.RowOfSpec | src/components/CSVImportModal.tsx:54-59 | the record's keys are exactly the headers, and a header not repeated later holds the cell in its column |
| CsvImportModal.RowOfKeys | src/components/CSVImportModal.tsx:56-58 | the record's keys are exactly the headers |
| CsvImportModal.RowOfLast | src/components/CSVImportModal.tsx:56-58 | the last occurrence of a header wins: it holds the cell in its own column |
| CsvImportModal.BuildRow | src/components/CSVImportModal.tsx:55-59 | the `forEach` loop over the headers builds the record of the line |
| CsvImportModal.RecordsSpec | src/components/CSVImportModal.tsx:52-60 | one record per non-blank data line, each keyed by exactly the headers |
| CsvImportModal.ShortLine | src/components/CSVImportModal.tsx:57 | a header the data line has no cell for holds the empty text |
| CsvImportModal.FieldSpec | src/components/CSVImportModal.tsx:83-93 | the aliases of a field are tried in order: the first one present wins, and with none present the fixed default is used |
| CsvImportModal.NormalizeType | src/components/CSVImportModal.tsx:95-105 | the stored type is always `saida`, `entrada` or `transferencia` |
| CsvImportModal.NormalizeTypeCases | src/components/CSVImportModal.tsx:95-105 | expense words give `saida`, transfer words `transferencia`, and income words and every unknown word `entrada` |
| CsvImportModal.Amount | src/components/CSVImportModal.tsx:88-113 | an amount that is kept is never zero |
| CsvImportModal.ValidDate | src/components/CSVImportModal.tsx:115-127 | a date the parser rejects is replaced by today |
| CsvImportModal.RecordItem | src/components/CSVImportModal.tsx:82-139 | a record gives an item iff its amount parses and is not zero; the item's amount is the positive absolute value, its type the normalised type word and its source `CSV Import` |
| CsvImportModal.HandleImport | src/components/CSVImportModal.tsx:63-156 | the import loop inserts the item of every record in order, counting each accepted insert once as a success and each refused one as an error; every inserted item is positive and tagged `CSV Import` |
| CsvImportModal.ImportItems | src/components/CSVImportModal.tsx:80-155 | the insert loop computes the import of the items one record at a time |
| CsvImportModal.ImportAllCounts | src/components/CSVImportModal.tsx:77-155 | the successes are the inserted items, and successes and errors together never exceed the records |
| CsvImportModal.RecordItemsChecked | src/components/CSVImportModal.tsx:110-139 | every item built from a record has a positive amount and the `CSV Import` source |
| CsvImportModal.ImportedItems | src/components/CSVImportModal.tsx:130-150 | every inserted item has a positive amount and the `CSV Import` source, and there are never more inserted items than records |
| CsvImportModal.ImportAllAccepted | src/components/CSVImportModal.tsx:141-150 | when the database accepts every insert there is no error and exactly the records with an amount are inserted, in order |
| CsvImportModal.CleanAmountComma | src/components/CSVImportModal.tsx:88-90 | `R$ 10,50` is cleaned to `10.50` and parsed as its decimal value |
| CsvImportModal.DigitsNoJunk | src/components/CSVImportModal.tsx:89 | the cleaning never drops a digit |
| CsvImportModal.CurrencyPrefixDropped | src/components/CSVImportModal.tsx:89 | a leading `R$ ` is dropped whole |
| CsvImportModal.ThousandsDotIsDecimal | src/components/CSVImportModal.tsx:88-90 | dots are kept, so `1.234,56` is cleaned to `1.234.56` and parsed as 1.234: the thousands separator is read as the decimal point |
| CsvImportModal.ThousandsCleaned | src/components/CSVImportModal.tsx:89 | a thousands amount loses nothing and its comma becomes a second point |
| CsvImportModal.ThousandsNoJunk | src/components/CSVImportModal.tsx:89 | digits, a dot and a comma hold nothing the character class drops |
| CsvImportModal.ThousandsCommaReplaced | src/components/CSVImportModal.tsx:89 | only the first comma is replaced by a point |
| BankBalancesCalculations.FindConfig | src/hooks/useBankBalancesCalculations.ts:16 | the row found is configured for the bank; None iff no row is |
| BankBalancesCalculations.BaseBalanceSpec | src/hooks/useBankBalancesCalculations.ts:16-17 | the base balance is that of the first row of the bank |
| BankBalancesCalculations.UnconfiguredBaseZero | src/hooks/useBankBalancesCalculations.ts:17 | an unconfigured bank starts from zero |
| BankBalancesCalculations.MovementsNone | src/hooks/useBankBalancesCalculations.ts:24-34 | a list with no qualifying item moves nothing |
| BankBalancesCalculations.MovementsAppend | src/hooks/useBankBalancesCalculations.ts:24-34 | the movements of two lists of items add up |
| BankBalancesCalculations.BankResults | src/hooks/useBankBalancesCalculations.ts:14-49 | one result per bank, in order, naming the bank, keeping its base as previous balance and moving it by exactly its movements |
| BankBalancesCalculations.NewItemEffect | src/hooks/useBankBalancesCalculations.ts:24-37 | a new item changes only its own bank's balance, by its signed amount when it qualifies, and no previous balance |
| BankBalancesCalculations.CalculateBankBalances | src/hooks/useBankBalancesCalculations.ts:11-50 | one result per available bank, in order |
| BankBalancesCalculations.CalculateBankBalancesSpec | src/hooks/useBankBalancesCalculations.ts:14-49 | each result keeps the configured base as previous balance, and its balance is the base plus the signed sum of the bank's manual items dated up to today |
| BankBalancesCalculations.FutureOrImportedIgnored | src/hooks/useBankBalancesCalculations.ts:25-29 | an item dated after today, or an imported one, changes no balance |
| BankBalancesCalculations.ManualItemMoves | src/hooks/useBankBalancesCalculations.ts:30-33 | a manual 'entrada' up to today raises its bank by its amount; any other type lowers it |
| BankBalances.BanksFromBalances | src/hooks/useBankBalances.ts:40 | the configured names, one per row, in order |
| BankBalances.BanksFromItemsSpec | src/hooks/useBankBalances.ts:39 | the item banks have no repeats and are exactly the non-empty banks of the items |
| BankBalances.AvailableBanksMembers | src/hooks/useBankBalances.ts:39-45 | the available banks have no repeats and are exactly the non-empty item banks and the configured names |
| BankBalances.AvailableBanksOrder | src/hooks/useBankBalances.ts:43 | the list begins with the item banks in the order first seen, then the configured names that are not item banks |
| BankBalances.FilterDedupDistinct | src/hooks/useBankBalances.ts:39 | filtering a list without repeats leaves it without repeats |
| BankBalances.CalculatedBankBalances | src/hooks/useBankBalances.ts:56-104 | one result per available bank, in order |
| BankBalances.CalculatedBankBalancesSpec | src/hooks/useBankBalances.ts:66-99 | the previous balance is the configured base (0 for an unconfigured bank), and the balance moves from it by the signed manual period items of the bank dated today or later |
| BankBalances.PastOrImportedIgnored | src/hooks/useBankBalances.ts:78-82 | a period item dated before today, or an imported one, changes no balance |
| BankBalancesManager.NormalizeAll | src/components/contas/BankBalancesManager.tsx:58 | each name trimmed and upper-cased, one per name, in order |
| BankBalancesManager.Names | src/components/contas/BankBalancesManager.tsx:63 | the bank name of each configured row, in order |
| BankBalancesManager.SetEach | src/components/contas/BankBalancesManager.tsx:60-65 | setting each key into the map gives the earlier keys followed by the new ones first seen, without repeats |
| BankBalancesManager.KeysSnoc | src/components/contas/BankBalancesManager.tsx:56-60 | one more bank adds its normalised name unless that is empty |
| BankBalancesManager.SetDefaults | src/components/contas/BankBalancesManager.tsx:49-54 | the loop over the defaults sets each non-empty normalised default once, in order |
| BankBalancesManager.AvailableBanks | src/components/contas/BankBalancesManager.tsx:46-70 | the method fills the map from the defaults, the user's banks and the configured names and returns its values sorted, as the specification gives them |
| BankBalancesManager.DefaultsKeepLength | src/components/contas/BankBalancesManager.tsx:33 | normalising a default keeps its length, so no default becomes empty or 'NONE' |
| BankBalancesManager.DefaultKeysAll | src/components/contas/BankBalancesManager.tsx:49-54 | every default is set into the map |
| BankBalancesManager.NormalizeAllMembers | src/components/contas/BankBalancesManager.tsx:58 | a name is in the normalised list iff it normalises one of the names |
| BankBalancesManager.AvailableSorted | src/components/contas/BankBalancesManager.tsx:67-69 | the banks offered are sorted and each is listed once |
| BankBalancesManager.NamedWitness | src/components/contas/BankBalancesManager.tsx:56-58 | normalising the non-empty user banks reaches exactly the names a non-empty user bank normalises to |
| BankBalancesManager.UserKeysMembers | src/components/contas/BankBalancesManager.tsx:56-60 | a key comes from the user's banks iff it is the non-empty normalised form, other than 'NONE', of a non-empty user bank |
| BankBalancesManager.RowKeysMembers | src/components/contas/BankBalancesManager.tsx:62-65 | a key comes from the rows iff it is the non-empty normalised name of a row |
| BankBalancesManager.AvailableMembers | src/components/contas/BankBalancesManager.tsx:46-70 | a bank is offered iff it is a default, or the normalised form of a non-empty user bank other than 'NONE', or the non-empty normalised name of a configured row |
| BankBalancesManager.DefaultsAvailable | src/components/contas/BankBalancesManager.tsx:49-54 | the five defaults are always offered |
| BankBalancesManager.AvailableNormalized | src/components/contas/BankBalancesManager.tsx:46-70 | every bank offered is non-empty, has no whitespace at either end and no lower-case letter |
| BankBalancesManager.AvailableSource | src/components/contas/BankBalancesManager.tsx:46-70 | every bank offered is the non-empty normalised form of some name |
| BankBalancesManager.NormalizedShape | src/components/contas/BankBalancesManager.tsx:50 | a trimmed, upper-cased name has no whitespace at either end and no lower-case letter |
| BankBalancesManager.NoneOnlyFromRows | src/components/contas/BankBalancesManager.tsx:59-65 | 'NONE' is offered only when a configured row is named so; the user's banks never bring it in |
| BankBalancesManager.FirstRow | src/components/contas/BankBalancesManager.tsx:80-82 | the scan stops at the first row from the start index whose normalised name is the bank, or at the end |
| BankBalancesManager.FindRow | src/components/contas/BankBalancesManager.tsx:80-82 | the row found is the first whose trimmed, upper-cased name is the bank; None iff no row has it |
| BankBalancesManager.SyncedEntrySpec | src/components/contas/BankBalancesManager.tsx:84-95 | a bank with a configured row takes its id, balance text and date from the first such row and is marked existing |
| BankBalancesManager.SyncedEntryUnconfigured | src/components/contas/BankBalancesManager.tsx:86-95 | a bank without a configured row has no id and keeps the typed balance and date, or starts empty and dated today |
| BankBalancesManager.CheckEntry | src/components/contas/BankBalancesManager.tsx:126-149 | a blank balance is skipped; a balance that does not parse or a missing date is rejected; otherwise the update names the bank and carries the entry's id, its date and the parsed balance |
| BankBalancesManager.CommaAccepted | src/components/contas/BankBalancesManager.tsx:132 | a decimal comma is read as a point: the first ',' becomes '.' before parsing |
| BankBalancesManager.SaveStep | src/components/contas/BankBalancesManager.tsx:126-150 | one more bank adds its accepted update, or its error, or nothing when its entry is blank |
| BankBalancesManager.ErrorsSpec | src/components/contas/BankBalancesManager.tsx:126-159 | there is an error exactly when some bank's entry is rejected |
| BankBalancesManager.UpdatesSpec | src/components/contas/BankBalancesManager.tsx:144-149 | each update is an accepted entry of a bank of the form, and there is none iff no entry is accepted |
| BankBalancesManager.UpdatesAccepted | src/components/contas/BankBalancesManager.tsx:144-149 | each update comes from an accepted entry of one of the banks |
| BankBalancesManager.UpdatesEmpty | src/components/contas/BankBalancesManager.tsx:161-168 | there is no update iff no entry is accepted |
| BankBalancesManager.SaveCounts | src/components/contas/BankBalancesManager.tsx:126-150 | updates and errors together never outnumber the banks, and match them when no entry is blank |
| BankBalancesManager.SaveSpec | src/components/contas/BankBalancesManager.tsx:122-176 | `onSave` is called exactly when no entry is rejected and at least one is accepted; every update it gets is an accepted entry |
| BankBalancesManager.Form.constructor | src/components/contas/BankBalancesManager.tsx:72 | the form starts with no bank and no entry |
| BankBalancesManager.Form.Sync | src/components/contas/BankBalancesManager.tsx:74-100 | after synchronising the form holds one entry per offered bank, in their order, each derived from the first configured row or the previous entry |
| BankBalancesManager.Form.BalanceChange | src/components/contas/BankBalancesManager.tsx:102-110 | the bank's entry takes the typed balance and keeps its other fields; a bank without an entry gets one, last |
| BankBalancesManager.Form.DateChange | src/components/contas/BankBalancesManager.tsx:112-120 | the bank's entry takes the typed date and keeps its other fields; a bank without an entry gets one, last |
| BankBalancesManager.Form.Save | src/components/contas/BankBalancesManager.tsx:122-176 | every entry is checked in the form's order; any error stops the save, so does having no update, otherwise the updates are sent |
| BankBalancesManager.Edited | src/components/contas/BankBalancesManager.tsx:106 | the bank's entry, or an entry with every field undefined when there is none |
| BankBalancesManager.SyncedForm | src/components/contas/BankBalancesManager.tsx:67-79 | the offered banks have no repeats, so the synchronised form has one entry per offered bank |
| DashboardData.MonthsDiff | src/hooks/useDashboardData.ts:64 | the month count of the period is never below one |
| DashboardData.MonthsDiffRounds | src/hooks/useDashboardData.ts:64 | from one month on the count is the elapsed 30-day months rounded to the nearest whole, below two months it is one |
| DashboardData.GetOverview | src/hooks/useDashboardData.ts:52-67 | income sums the 'receita' items, expenses the 'despesa' items, the balance is income minus expenses, the month count is at least one and the averages are those of OverviewOf |
| DashboardData.OverviewOf | src/hooks/useDashboardData.ts:60-67 | the balance is income minus expenses, and the monthly income and monthly savings times the month count give back the income and the balance |
| DashboardData.PerMonth | src/hooks/useDashboardData.ts:66-67 | a monthly average times the month count gives back the total |
| DashboardData.GroupTotalsValid | src/hooks/useDashboardData.ts:70-76 | the grouped record lists each key once and has a total for exactly the listed keys |
| DashboardData.GroupTotalsKeys | src/hooks/useDashboardData.ts:70-76 | a key is grouped iff some counted item carries it |
| DashboardData.GroupTotalsValues | src/hooks/useDashboardData.ts:70-76 | each group's total is the sum of the counted items with that key |
| DashboardData.GroupTotalsTotal | src/hooks/useDashboardData.ts:70-76 | the group totals add up to the sum of all counted items |
| DashboardData.MaxOverBound | src/hooks/useDashboardData.ts:78-82 | the winner is at least the start and every visited total, and is the start when nothing beats it |
| DashboardData.MaxOverFirst | src/hooks/useDashboardData.ts:78-82 | a winner other than the start is a visited key whose total is above the start and strictly above every earlier key, so the first of equal maxima wins |
| DashboardData.MaiorDespesaSpec | src/hooks/useDashboardData.ts:78-82 | the largest expense category is null iff there is no 'despesa' item, otherwise no category total exceeds it |
| DashboardData.SharesOf | src/hooks/useDashboardData.ts:123-128 | one share per category, in order, each carrying its category's total |
| DashboardData.SharesSum | src/hooks/useDashboardData.ts:123-128 | the shares' values add up to the record's total |
| DashboardData.CategoryBreakdownSpec | src/hooks/useDashboardData.ts:123-129 | the category breakdown is sorted by non-increasing value, has one share per category, and its values add up to the 'despesa' total |
| DashboardData.BankDistributionSpec | src/hooks/useDashboardData.ts:132-146 | the bank distribution is sorted by non-increasing value and its values add up to the sum of every amount |
| DashboardData.MonthlyDataSpec | src/hooks/useDashboardData.ts:100-111 | a month has a bucket iff some item falls in it; its income is the sum of its 'receita' items and its expenses the sum of all its other items |
| DashboardData.MonthlyKeys | src/hooks/useDashboardData.ts:100-111 | a month has a bucket iff some item is dated in it |
| DashboardData.MonthlySums | src/hooks/useDashboardData.ts:100-111 | a bucket's income and expenses are the sums of that month's 'receita' and other items, and a month without a bucket has none |
| DashboardData.TrendOf | src/hooks/useDashboardData.ts:172-188 | the trend carries the category and its two month amounts; without a positive previous amount it is stable at 0%; otherwise the percentage times the previous amount is 100 times the change, and the trend is up iff the rise exceeds 5% of the previous amount and down iff the fall does |
| DashboardData.PercentCompare | src/hooks/useDashboardData.ts:175-180 | over a positive base a change beyond 5% is a change beyond a twentieth of the base, with the change's own sign |
| DashboardData.SignOfProduct | src/hooks/useDashboardData.ts:179 | multiplying by a positive factor keeps the sign |
| DashboardData.Candidates | src/hooks/useDashboardData.ts:152-190 | a category has a trend iff its 'despesa' items add up to more than zero in the current or the previous month; it has exactly one, carrying those two month totals, and every trend kept had spending |
| DashboardData.CategoryTrendsSpec | src/hooks/useDashboardData.ts:152-192 | at most ten trends, largest current amount first, one per category, each that category's trend over its two month 'despesa' totals and with spending in one of them; a category with spending is left out only when ten trends were kept, none with a current amount below its own |
| DashboardData.TopTenSpec | src/hooks/useDashboardData.ts:191-192 | the min(10, n) trends of the input with the largest current amounts, largest first: taken from the input, the whole input when it has at most ten, and no trend left out above one kept |
| DashboardData.LeftOutBelow | src/hooks/useDashboardData.ts:191-192 | a trend the top ten leaves out is below every kept one, and then ten were kept |
| OnboardingFlow.AppliedOnlyField | src/components/onboarding/OnboardingFlow.tsx:51-53 | `updateFormData` sets exactly the named field; the other two fields keep their values |
| OnboardingFlow.CanProceedSpec | src/components/onboarding/OnboardingFlow.tsx:55-66 | step 1 may go on iff the display name is not blank after trimming, step 2 iff a unit is selected, step 3 iff a category is selected, any other step never |
| OnboardingFlow.Flow.constructor | src/components/onboarding/OnboardingFlow.tsx:16-21 | the flow starts on step 1 with an empty name and no units or categories |
| OnboardingFlow.Flow.Progress | src/components/onboarding/OnboardingFlow.tsx:25-26 | the progress is a positive percentage of the three steps, 100 exactly on the last step |
| OnboardingFlow.Flow.HandleNext | src/components/onboarding/OnboardingFlow.tsx:28-32 | moves one step forward except from step 3, stays within the three steps, leaves the form data alone |
| OnboardingFlow.Flow.HandleBack | src/components/onboarding/OnboardingFlow.tsx:34-38 | moves one step back except from step 1, stays within the three steps, leaves the form data alone |
| OnboardingFlow.Flow.ClickNext | src/components/onboarding/OnboardingFlow.tsx:116-121 | the "Próximo" button advances only when the current step may go on; otherwise the step is unchanged |
| OnboardingFlow.Flow.UpdateFormData | src/components/onboarding/OnboardingFlow.tsx:51-53 | the form data becomes the old data with the one named field replaced; the step is unchanged |
| OnboardingFlow.Flow.ToggleUnit | src/components/onboarding/OnboardingFlow.tsx:91-96 | a unit click stores the toggled unit list as the selected units and changes nothing else |
| OnboardingFlow.Flow.ToggleCategory | src/components/onboarding/OnboardingFlow.tsx:97-102 | a category click stores the toggled category list and changes nothing else |
| OnboardingFlow.Flow.AddCustomUnit | src/components/onboarding/OnboardingFlow.tsx:91-96 | a typed unit that is not blank and not selected joins the selected units trimmed and the box is cleared; otherwise nothing changes |
| OnboardingFlow.Flow.AddCustomCategory | src/components/onboarding/OnboardingFlow.tsx:97-102 | a typed category that is not blank and not selected joins the selected categories trimmed and the box is cleared; otherwise nothing changes |
| OnboardingFlow.Flow.HandleComplete | src/components/onboarding/OnboardingFlow.tsx:40-49 | sends the display name as typed, untrimmed, and marks the onboarding complete |
| OnboardingFlow.ClickNextFromStart | src/components/onboarding/OnboardingFlow.tsx:116-121 | from a fresh flow with a blank name, any number of "Próximo" clicks leaves the flow on step 1 |
| OnboardingSteps.Toggle | src/components/onboarding/UnitsStep.tsx:28-34 | an unselected name is appended; a selected name is removed everywhere and every other name stays |
| OnboardingSteps.RemoveKeepsOthers | src/components/onboarding/CategoriesStep.tsx:32-38 | filtering a name out keeps exactly the other names, and shortens the list when the name was there |
| OnboardingSteps.ToggleTwice | src/components/onboarding/UnitsStep.tsx:28-34 | toggling an unselected name twice gives the original list back |
| OnboardingSteps.Picker.constructor | src/components/onboarding/UnitsStep.tsx:25-26 | the picker starts with an empty box and no added names |
| OnboardingSteps.Picker.SetCustom | src/components/onboarding/UnitsStep.tsx:123 | typing replaces the box text and keeps the added names |
| OnboardingSteps.Picker.AddCustom | src/components/onboarding/UnitsStep.tsx:36-43 | a non-blank typed name not yet selected is added trimmed to the picker's names and to the selected list and the box is cleared; otherwise nothing changes and no callback runs |
| BillForm.BankRoundTrip | src/components/contas/useBillForm.ts:12-14 | the select never holds an empty bank, and every bank other than "NONE" is submitted as it was shown |
| BillForm.Initial | src/components/contas/useBillForm.ts:9-27 | a new bill starts with empty text, bank "NONE" and recurring on; an edited bill starts from its own fields, its bank shown through the "NONE" substitution |
| BillForm.Form.constructor | src/components/contas/useBillForm.ts:9-27 | the form state starts as the initial form of the bill being edited |
| BillForm.Form.HandleSubmit | src/components/contas/useBillForm.ts:29-51 | the data is handed on iff name, value, due day and category are all filled, and then with bank "NONE" turned back into "" and every other field as in the form |
| BillForm.Form.HandleInputChange | src/components/contas/useBillForm.ts:53-56 | a text field change replaces that field and only that field |
| BillForm.Form.HandleRecurringChange | src/components/contas/useBillForm.ts:53-56 | the recurring switch replaces `recurring` and only it |
| BillForm.UpdatedOnlyField | src/components/contas/useBillForm.ts:53-56 | after a change the named field holds the new text and every other field, `recurring` included, holds its old value |
| BillForm.EditAndSubmit | src/components/contas/useBillForm.ts:9-51 | an edited bill with its required fields filled is submitted unchanged, with its own name, category, recurring flag and bank (unless the bank is literally "NONE") |
| BillForm.NewFormRejected | src/components/contas/useBillForm.ts:29-41 | a fresh form for a new bill is refused on submit because its name is empty |
| BulkEditModal.FindUnit | src/components/BulkEditModal.tsx:101 | the unit found carries the id and is the first unit with it; None iff no unit has the id |
| BulkEditModal.RenameBack | src/components/BulkEditModal.tsx:129-147 | renaming a category to a name not listed and back again restores the list |
| BulkEditModal.RenameMoves | src/components/BulkEditModal.tsx:131-133 | after renaming to a different name the old name is gone and the new name is listed iff the old one was |
| BulkEditModal.RenameKeeps | src/components/BulkEditModal.tsx:131-133 | the rename keeps the length and every other entry, and puts the new name exactly where the old one stood |
| BulkEditModal.Modal.constructor | src/components/BulkEditModal.tsx:44-54 | the dialog opens with no unit, type or category picked, no units or categories listed, nothing being edited and both panels closed |
| BulkEditModal.Modal.SyncCategories | src/components/BulkEditModal.tsx:99-110 | with a type and a known unit the list becomes that unit's default categories for the type and the pick is cleared; with the unit unknown nothing changes; without a type or a unit the list is emptied |
| BulkEditModal.Modal.ChangeUnit | src/components/BulkEditModal.tsx:246-249 | choosing a unit sets it, clears the picked category, and re-derives the category list |
| BulkEditModal.Modal.SetItemsType | src/components/BulkEditModal.tsx:74-90 | the fetched entry type is stored and the category list re-derived |
| BulkEditModal.Modal.SetBusinessUnits | src/components/BulkEditModal.tsx:58-72 | the fetched units are stored and the category list re-derived |
| BulkEditModal.Modal.SetCategory | src/components/BulkEditModal.tsx:369 | the category select stores the chosen category and changes nothing else |
| BulkEditModal.Modal.SetNewCategory | src/components/BulkEditModal.tsx:296-297 | typing stores the new category text and changes nothing else |
| BulkEditModal.Modal.AddCategory | src/components/BulkEditModal.tsx:112-122 | a non-blank typed name not yet listed is appended trimmed, the box cleared and closed; otherwise nothing changes |
| BulkEditModal.Modal.StartEditCategory | src/components/BulkEditModal.tsx:124-127 | the category becomes the one being edited with its own name in the edit box |
| BulkEditModal.Modal.SetEditedCategoryName | src/components/BulkEditModal.tsx:321 | typing stores the edited name and changes nothing else |
| BulkEditModal.Modal.SaveEditCategory | src/components/BulkEditModal.tsx:129-147 | with a non-blank new name and a category being edited every occurrence is renamed to the trimmed name, the pick follows the rename, and the edit ends; otherwise nothing changes |
| BulkEditModal.Modal.RemoveCategory | src/components/BulkEditModal.tsx:149-158 | every occurrence of the category leaves the list and a picked category that is removed is unpicked |
| BulkEditModal.Modal.Submit | src/components/BulkEditModal.tsx:160-212 | an error when no unit, then when no category, is picked; otherwise the update of every selected entry to the picked unit and category |
| BulkEditModal.Modal.Reset | src/components/BulkEditModal.tsx:214-221 | closing clears unit, category, list, type and both panels: the add-category and the manage-categories panel |
| BulkEditModal.Modal.ToggleManageCategories | src/components/BulkEditModal.tsx:277 | the pencil button opens or closes the manage-categories panel and changes nothing else |
| BulkEditModal.Modal.ToggleAddCategory | src/components/BulkEditModal.tsx:285 | the plus button opens or closes the add-category panel and changes nothing else |
| ImportData.Step | src/services/import-data.ts:210-226 | each turn of the `parseCSVLine` loop consumes input, so the loop ends |
| ImportData.Run | src/services/import-data.ts:210-229 | the loop always completes at least one more field than it started with |
| ImportData.RawFields | src/services/import-data.ts:205-231 | a line always has at least one field |
| ImportData.Fields | src/services/import-data.ts:205-231 | one returned field per untrimmed field |
| ImportData.ParseCsvLine | src/services/import-data.ts:205-231 | the imperative loop, with its skip of the second quote of an escaped pair, returns exactly the fields of the reference scan |
| ImportData.FieldCount | src/services/import-data.ts:220-229 | the line gives one field more than there are commas outside quotes |
| ImportData.FieldsTrimmed | src/services/import-data.ts:222-230 | every field returned is already trimmed |
| ImportData.PlainStep | src/services/import-data.ts:225-226 | outside quotes a plain piece is appended to the current field |
| ImportData.QuotedHead | src/services/import-data.ts:214-226 | inside quotes one character, written as its escaped piece, is read as itself |
| ImportData.QuotedClose | src/services/import-data.ts:218-220 | a quote not followed by another inside quotes closes the quoted part |
| ImportData.QuotedConsText | src/services/import-data.ts:214-217 | the quoted form of a value is its first character's piece followed by the quoted form of the rest |
| ImportData.QuotedStep | src/services/import-data.ts:214-220 | inside quotes the escaped text of a value, doubled quotes included, reads back as the value and the closing quote leaves quote mode |
| ImportData.FieldStep | src/services/import-data.ts:214-226 | a whole encoded field, quoted or not, reads back as its value |
| ImportData.CommaStep | src/services/import-data.ts:221-223 | a comma outside quotes completes the current field and starts an empty one |
| ImportData.FieldThenComma | src/services/import-data.ts:214-226 | an encoded field followed by a comma completes a field holding the value |
| ImportData.LastField | src/services/import-data.ts:210-230 | an encoded field at the end of the line, followed by whitespace, is the last field |
| ImportData.RunJoined | src/services/import-data.ts:210-230 | the comma-joined encoded values are read back as the values, the last one followed by the trailing whitespace |
| ImportData.ParseJoined | src/services/import-data.ts:205-231 | encoded fields joined by commas, with trailing whitespace such as the `\r` of a CRLF line end, read back as the trimmed values |
| ImportData.ParseLine | src/services/import-data.ts:205-231 | a line that is the comma join of encoded fields plus whitespace is read as the trimmed values |
| ImportData.TrimEachBlankLast | src/services/import-data.ts:230 | trailing whitespace on the last field does not survive the trim |
| ImportData.FieldsWithoutQuotes | src/services/import-data.ts:205-231 | on a line without quotes `parseCSVLine` is a split on commas with each part trimmed |
| ImportData.Records | src/services/import-data.ts:27-29 | skipping blank lines never yields more records than lines |
| ImportData.RecordsNonEmpty | src/services/import-data.ts:205-231 | every parsed record has at least one field |
| ImportData.Cell | src/services/import-data.ts:29 | a destructured element is defined iff the line has that many fields |
| ImportData.OrNull | src/services/import-data.ts:37 | the "or null" default keeps a non-empty cell and turns undefined and the empty text into null |
| ImportData.OrElse | src/services/import-data.ts:37 | the "or fallback" default keeps a non-empty cell and otherwise gives the fallback |
| ImportData.UnitInsertOf | src/services/import-data.ts:29-38 | the insert carries the line's id and name, and a creation time whenever the clock gives one |
| ImportData.UnitInserts | src/services/import-data.ts:35-38 | one insert per kept line, in order |
| ImportData.UnitsStep | src/services/import-data.ts:27-38 | one more line: a blank one changes nothing, a new name adds its insert and joins the seen set, a seen name is skipped |
| ImportData.ImportBusinessUnits | src/services/import-data.ts:21-41 | the loop inserts the first line of each name, in file order, and the seen set ends with as many names as there are inserts and distinct names |
| ImportData.UnitsDone | src/services/import-data.ts:27-40 | after every line the inserts are those of the first line of each name, one per distinct name |
| ImportData.BusinessUnitsFirstWins | src/services/import-data.ts:31-33 | each name is inserted once, by the first line that has it, and every name of the file is inserted |
| ImportData.CategoryInsertOf | src/services/import-data.ts:49-55 | the insert carries the line's id and name |
| ImportData.CategoriesStep | src/services/import-data.ts:47-56 | one more categories line adds its insert unless it is blank |
| ImportData.ImportCategories | src/services/import-data.ts:43-57 | one insert per non-blank line, in order |
| ImportData.FirstIdOfFirst | src/services/import-data.ts:74-76 | the first record of a name gives that name's id |
| ImportData.FirstIdOfSome | src/services/import-data.ts:74-76 | a name's id is that of the first record with the name |
| ImportData.FirstIdOfKey | src/services/import-data.ts:74-76 | only names of the records get an id |
| ImportData.NameIdsSpec | src/services/import-data.ts:69-78 | `nameToId` holds exactly the names of the records, each with the id of its first record |
| ImportData.UnitMapKeys | src/services/import-data.ts:77 | `unitMapping` holds exactly the ids of the records |
| ImportData.UnitMapLast | src/services/import-data.ts:77 | `unitMapping` sends the id of the last record with that id to the first id of that record's name |
| ImportData.UnitMapIdempotent | src/services/import-data.ts:69-78 | with distinct ids every mapped id maps to itself, so mapping twice changes nothing |
| ImportData.UnitMappingStep | src/services/import-data.ts:71-78 | one more business_units line updates both maps as the loop body does, unless it is blank |
| ImportData.BuildUnitMapping | src/services/import-data.ts:64-78 | the loop over the business_units file builds the unit mapping of the specification |
| ImportData.MappedUnit | src/services/import-data.ts:88 | a known id with a non-empty target maps to the target; an unknown id, or one mapped to the empty text, stays itself |
| ImportData.UnitCategoryInsertOf | src/services/import-data.ts:85-99 | the insert carries the mapped unit, the type and the name of the line |
| ImportData.UnitCategoryInserts | src/services/import-data.ts:95-99 | one insert per kept line, in order |
| ImportData.UnitCategoriesStep | src/services/import-data.ts:83-101 | one more line: a blank one changes nothing, a new unit-type-name key adds its insert, a seen key is skipped |
| ImportData.ImportUnitCategories | src/services/import-data.ts:59-102 | the unit mapping is built from business_units, then the first line of each mapped key is inserted; the count is the number of distinct keys and of inserts |
| ImportData.UnitCategoriesDone | src/services/import-data.ts:83-101 | after every line the inserts are those of the first line of each key, one per distinct key |
| ImportData.BalanceInsertOf | src/services/import-data.ts:111-116 | the insert carries the line's id and bank name |
| ImportData.BalanceInserts | src/services/import-data.ts:113-116 | one insert per record, in order |
| ImportData.BalanceDefaultsToZero | src/services/import-data.ts:115 | a missing or empty opening balance is stored as 0 |
| ImportData.BalancesStep | src/services/import-data.ts:109-117 | one more bank_balances line adds its insert unless it is blank |
| ImportData.ImportBankBalances | src/services/import-data.ts:104-122 | a missing file inserts nothing; otherwise one insert per non-blank line, in order |
| ImportData.BillInsertOf | src/services/import-data.ts:132-137 | a missing value or due day is stored as null |
| ImportData.BillInserts | src/services/import-data.ts:134-137 | one insert per record, in order |
| ImportData.BillsStep | src/services/import-data.ts:129-139 | one more recurring_bills line adds its insert unless it is blank |
| ImportData.ImportRecurringBills | src/services/import-data.ts:124-141 | one insert per non-blank line; the count is their number |
| ImportData.IntOrNull | src/services/import-data.ts:189-190 | an empty or missing cell is null, any other is its parsed integer |
| ImportData.ItemInsertFields | src/services/import-data.ts:168-198 | the installment flag is 1 exactly for `t`, `1` and `true`; an empty type becomes 'saida'; an empty unit is null and any other goes through the unit mapping |
| ImportData.ItemInserts | src/services/import-data.ts:173-198 | one insert per record, in order |
| ImportData.ItemsStep | src/services/import-data.ts:163-199 | one more financial_items line adds its insert unless it is blank |
| ImportData.ImportFinancialItems | src/services/import-data.ts:143-201 | the unit mapping is built from business_units, then one insert per non-blank line, in order; the count is their number |
| ImportData.ImportHistoricalData | src/services/import-data.ts:7-19 | the six imports run in order on their files; the business_units file feeds the units, the unit categories and the items alike; a missing bank_balances file inserts no balance |
| CsvRoundTrip.BackupValues | scripts/backup-supabase.ts:66-70 | one value per header, in header order |
| CsvRoundTrip.BackupLineReadBack | src/services/import-data.ts:205-232 | a backup row line read back by `parseCSVLine` gives one field per header: the row's values, trimmed |
| CsvRoundTrip.TrimEachTrimmed | src/services/import-data.ts:205-232 | values without surrounding whitespace are unchanged by the trimming of the reader |
| CsvRoundTrip.BackupReadBack | scripts/backup-supabase.ts:61-79 | a backup file split into lines and read by `parseCSVLine` is the header line, then one line per row holding that row's values, trimmed, one per header key |
| CsvRoundTrip.BackupReadBackExact | scripts/backup-supabase.ts:61-79 | a backup row whose values have no surrounding whitespace is read back exactly |
| CsvRoundTrip.RecordReadBack | scripts/sql-to-csv.py:60-69 | a record written by the Python CSV writer and read by `parseCSVLine` gives the row's cells, trimmed (the `\r` of `\r\n` is trimmed off) |
| CsvRoundTrip.SqlExportReadBack | scripts/sql-to-csv.py:49-72 | a CSV file written by `export_to_csv`, split into lines and read by `parseCSVLine`, gives the columns on line 0 and row k on line k + 1, each trimmed |
| CsvRoundTrip.LinesReadBack | scripts/sql-to-csv.py:60-69 | the header line, the row lines and the empty last line read back as the header and the rows |
| CsvRoundTrip.RecordLinesReadBack | scripts/sql-to-csv.py:66-69 | each written row line reads back as its row, trimmed |
| BackupSupabase.EscapeValue | scripts/backup-supabase.ts:66-75 | null and undefined give the empty field; every other value gives a field that encodes its text, quoted with inner quotes doubled when needed |
| BackupSupabase.EscapeValueBare | scripts/backup-supabase.ts:71-74 | a value is written bare exactly when it holds no comma, quote or line feed |
| BackupSupabase.ReplaceAllLength | scripts/backup-supabase.ts:72 | doubling quotes never shortens a value |
| BackupSupabase.RowFields | scripts/backup-supabase.ts:65-76 | one field per header, in header order |
| BackupSupabase.CsvLines | scripts/backup-supabase.ts:63-77 | the header line, then one line per row |
| BackupSupabase.ExportTable | scripts/backup-supabase.ts:33-82 | a fetch error or an empty table writes nothing; otherwise the table's JSON file and then its CSV file, both in the day's backup folder |
| BackupSupabase.BackupAll | scripts/backup-supabase.ts:85-95 | every table of the fixed list is exported in turn, at most two files each |
| BackupSupabase.SkippedTable | scripts/backup-supabase.ts:40-48 | a table whose fetch fails or comes back empty adds no file |
| BackupSupabase.RowFieldsSingleLine | scripts/backup-supabase.ts:66-75 | when none of its values holds a line feed, no field of a row holds one either: quoting adds only quotes |
| BackupSupabase.CsvTextSplit | scripts/backup-supabase.ts:63-78 | when no value holds a line feed, splitting the CSV file at line feeds gives the header line and then exactly one line per row, in order |
| ExportLocalData.TableWrites | backups/code-backup/scripts/export-local-data.ts:41-72 | an empty table writes nothing; otherwise its JSON file, then its CSV file, exactly as the Supabase backup writes them |
| ExportLocalData.ExportLocal | backups/code-backup/scripts/export-local-data.ts:20-90 | the loop over the tables writes the files of each in turn and stops at the first read that throws |
| ExportLocalData.LocalFailedStays | backups/code-backup/scripts/export-local-data.ts:82-90 | once a read has thrown no further file is written and the export ends in failure |
| ExportLocalData.SameAsSupabase | backups/code-backup/scripts/export-local-data.ts:37-72 | without read errors the local export writes, table by table, what the Supabase backup writes for the same rows |
| SqlToCsv.WordRun | scripts/sql-to-csv.py:18 | the run `[^\s]+` ends at the end of the text or at a whitespace character |
| SqlToCsv.AfterName | scripts/sql-to-csv.py:18 | what follows group 1 either fails or consumes more text and records group 1 as the table name |
| SqlToCsv.OpenFrom | scripts/sql-to-csv.py:18 | the `\s*\(` stage fails or moves forward, keeping the name |
| SqlToCsv.ColumnsFrom | scripts/sql-to-csv.py:18 | the `([^)]+)\)` stage fails or moves forward, keeping the name |
| SqlToCsv.StdinFrom | scripts/sql-to-csv.py:18 | the `\s+FROM stdin;` stage fails or moves forward, keeping the name and the column list |
| SqlToCsv.DataFrom | scripts/sql-to-csv.py:18 | the lazy `(.*?)\n\\\.\n` stage fails or moves forward, keeping the name and the column list |
| SqlToCsv.NameCandidates | scripts/sql-to-csv.py:18 | backtracking over the extents of group 1, longest first, fails or ends past the start |
| SqlToCsv.MatchAt | scripts/sql-to-csv.py:18-20 | one attempt of the pattern at a position fails or consumes text |
| SqlToCsv.FirstTerminatorSlice | scripts/sql-to-csv.py:18 | the data cut out of the text, followed by the terminator, holds no earlier terminator |
| SqlToCsv.AfterNameShape | scripts/sql-to-csv.py:18 | what a successful candidate consumed ends with the first terminator after the data |
| SqlToCsv.MatchAtShape | scripts/sql-to-csv.py:18-20 | every match has a non-blank name without whitespace, a non-empty column list without `)`, and data ending at the first terminator that follows the match's start |
| SqlToCsv.NoTerminatorNoMatch | scripts/sql-to-csv.py:18-20 | a text with no terminator after a position holds no match from there on |
| SqlToCsv.StripQuotes | scripts/sql-to-csv.py:26 | the name loses every leading and trailing double quote and nothing else; a name without edge quotes is unchanged |
| SqlToCsv.StripQuotedName | scripts/sql-to-csv.py:25-26 | a name written as a quoted identifier comes out without its quotes |
| SqlToCsv.ColumnsOf | scripts/sql-to-csv.py:29 | one column per comma-separated piece of the column list |
| SqlToCsv.ColumnsClean | scripts/sql-to-csv.py:29 | every column name is trimmed and holds no comma |
| SqlToCsv.NonBlankTrimmed | scripts/sql-to-csv.py:32 | the kept lines are no more than the lines |
| SqlToCsv.NonBlankTrimmedClean | scripts/sql-to-csv.py:32 | each kept line is non-empty and already stripped |
| SqlToCsv.NonBlankTrimmedAbsent | scripts/sql-to-csv.py:32 | a character in none of the lines is in none of the kept lines |
| SqlToCsv.RowsOf | scripts/sql-to-csv.py:42-45 | one row per line, each the line split on tab |
| SqlToCsv.PutValid | scripts/sql-to-csv.py:37-40 | storing a table keeps the dump free of repeated names, its names exactly its keys |
| SqlToCsv.CollectValid | scripts/sql-to-csv.py:22-47 | the parsed dump never repeats a name and its names are exactly its keys |
| SqlToCsv.CollectNames | scripts/sql-to-csv.py:37 | the names appear in the order they first occurred in a block with rows |
| SqlToCsv.CollectTables | scripts/sql-to-csv.py:34-45 | a name is a key iff some block with rows has it, and holds the table of the last such block |
| SqlToCsv.EmptyBlockIgnored | scripts/sql-to-csv.py:34-35 | a block without data lines adds nothing and overwrites nothing |
| SqlToCsv.ReplaceKeepsPosition | scripts/sql-to-csv.py:37-40 | a later block with rows replaces the table under its name but keeps the name's position |
| SqlToCsv.SplitRows | scripts/sql-to-csv.py:42-45 | the loop appends, per data line, its tab-split cells, giving the rows of the specification |
| SqlToCsv.ParsePostgresDump | scripts/sql-to-csv.py:11-47 | the parsed dump is the collection of every block the pattern finds in the file, and it is well formed |
| SqlToCsv.DataTerminator | scripts/sql-to-csv.py:18 | in data followed by `\n\.\n`, the first terminator is the final one |
| SqlToCsv.FirstLineNoTerminator | scripts/sql-to-csv.py:18 | no terminator starts inside a line feed followed by a plain line |
| SqlToCsv.LinesTextJoin | scripts/sql-to-csv.py:32 | rendered data is a line feed followed by the lines joined with line feeds |
| SqlToCsv.DataLinesOfRender | scripts/sql-to-csv.py:32-45 | the data lines of rendered data are the rendered lines, and splitting them on tab gives back the rows |
| SqlToCsv.DataLinesOfLines | scripts/sql-to-csv.py:32 | lines that are non-blank, trimmed and free of line feeds are read back as written |
| SqlToCsv.JoinEdges | scripts/sql-to-csv.py:32 | joined trimmed lines start and end with a non-space |
| SqlToCsv.TrimAfterLineFeed | scripts/sql-to-csv.py:32 | the line feed before the data is stripped away |
| SqlToCsv.RowsOfLines | scripts/sql-to-csv.py:44 | splitting each rendered line on tab gives back its cells |
| SqlToCsv.Spaced | scripts/sql-to-csv.py:29 | each column gains the leading blank it has after a comma |
| SqlToCsv.JoinSpaced | scripts/sql-to-csv.py:29 | `c1, c2, ...` split on commas gives the first column and the others with a leading blank |
| SqlToCsv.ColumnsOfRender | scripts/sql-to-csv.py:29 | a column list written `c1, c2, ...` parses back to the columns |
| SqlToCsv.SpacedPieces | scripts/sql-to-csv.py:29 | the comma-separated pieces of `c1, c2, ...` hold no comma and strip to the columns |
| SqlToCsv.WordRunTo | scripts/sql-to-csv.py:18 | a word of non-whitespace followed by whitespace is one whole run |
| SqlToCsv.DataTo | scripts/sql-to-csv.py:18 | the lazy data scan stops at the first terminator |
| SqlToCsv.ColumnsTo | scripts/sql-to-csv.py:18 | the column scan stops at the first `)` |
| SqlToCsv.DataAt | scripts/sql-to-csv.py:18 | the data stage on a rest made of the data and the terminator matches to the end |
| SqlToCsv.TerminatorAt | scripts/sql-to-csv.py:18 | the terminator after the data is the first one in the rest |
| SqlToCsv.PieceAt | scripts/sql-to-csv.py:18 | a piece of the block sits at its index, followed by the rest |
| SqlToCsv.StdinAt | scripts/sql-to-csv.py:18 | `) FROM stdin;`, the data and the terminator are matched to the end |
| SqlToCsv.OpenAt | scripts/sql-to-csv.py:18 | ` (`, the column list and the rest of a block are matched to the end |
| SqlToCsv.ColumnsAt | scripts/sql-to-csv.py:18 | the column list, `) FROM stdin;`, the data and the terminator are matched to the end |
| SqlToCsv.MatchPieces | scripts/sql-to-csv.py:18-20 | a block whose groups have the shapes a match gives is matched whole |
| SqlToCsv.MatchRendered | scripts/sql-to-csv.py:18-20 | a COPY block written as pg_dump writes it is matched whole, with its name, its column list and its data |
| SqlToCsv.FindWhole | scripts/sql-to-csv.py:20 | a text matched whole from its start holds exactly that one block |
| SqlToCsv.CollectOne | scripts/sql-to-csv.py:22-47 | a single block with rows is collected as the only table |
| SqlToCsv.ParseRendered | scripts/sql-to-csv.py:11-47 | parsing a dump made of one well-formed COPY block gives exactly that table: its name unquoted, its columns and its rows |
| SqlToCsv.NormalizeRow | scripts/sql-to-csv.py:67-68 | the cleaned row has one cell per cell |
| SqlToCsv.NormalizeRowCells | scripts/sql-to-csv.py:67-68 | exactly the cells equal to `\N` become empty; a cell that merely contains it is kept |
| SqlToCsv.NormalizeRowIdempotent | scripts/sql-to-csv.py:67-68 | no NULL marker survives, so cleaning again changes nothing |
| SqlToCsv.WriterField | scripts/sql-to-csv.py:60-69 | a field written by `csv.writer` (excel dialect, minimal quoting) encodes its cell |
| SqlToCsv.WriterEachEncodes | scripts/sql-to-csv.py:60-69 | each written field encodes its cell, and no field gains a line feed |
| SqlToCsv.WriterFields | scripts/sql-to-csv.py:63-69 | one written field per cell |
| SqlToCsv.PathJoinEnds | scripts/sql-to-csv.py:57 | the joined path ends with the file name and, unless that is absolute, starts with the directory |
| SqlToCsv.WriteTable | scripts/sql-to-csv.py:59-69 | the file of one table is the header record, then one record per cleaned row |
| SqlToCsv.FilesOf | scripts/sql-to-csv.py:56-69 | one file per table name |
| SqlToCsv.FilesOfAt | scripts/sql-to-csv.py:56-69 | file i is the one written for the i-th table name |
| SqlToCsv.ExportToCsv | scripts/sql-to-csv.py:49-73 | the loop writes one file per table, in the dump's order |
| SqlToCsv.CsvLines | scripts/sql-to-csv.py:63-69 | the records of a file are the header's and one per row |
| SqlToCsv.CsvTextLines | scripts/sql-to-csv.py:63-69 | the written text is the records joined by line feeds, with a final line feed |
| SqlToCsv.CsvTextSplit | scripts/sql-to-csv.py:59-69 | when no cell holds a line feed, the file's lines are the header record, one record per row in order, and the empty piece after the last line feed |
| SqlToCsv.ParsedCellsSingleLine | scripts/sql-to-csv.py:32-45 | the cells of a parsed table come from single data lines, so none holds a line feed |
| DuplicateDetector.NormalizeStringClean | src/services/duplicateDetector.ts:15-22 | a normalised description keeps no punctuation and no surrounding whitespace |
| DuplicateDetector.LevenshteinDistance | src/services/duplicateDetector.ts:48-74 | the matrix filled row by row ends in the edit distance between the two strings |
| DuplicateDetector.FillRow | src/services/duplicateDetector.ts:59-71 | after one row is filled each of its cells is the edit distance of the matching prefixes and every other row is unchanged |
| DuplicateDetector.LevSelf | src/services/duplicateDetector.ts:48-74 | a string is at edit distance zero from itself |
| DuplicateDetector.LevBounds | src/services/duplicateDetector.ts:48-74 | the edit distance is at least the difference of the lengths and at most the larger length |
| DuplicateDetector.LevEmpty | src/services/duplicateDetector.ts:51-58 | against the empty string the distance is the other string's length, either way round |
| DuplicateDetector.SimilarityOf | src/services/duplicateDetector.ts:31-42 | equal normalised texts score 100 and no score exceeds 100 |
| DuplicateDetector.Round100 | src/services/duplicateDetector.ts:185 | a rounded share of a whole lies in 0..100, is 100 for the whole and 0 for nothing |
| DuplicateDetector.CalculateStringSimilarity | src/services/duplicateDetector.ts:27-43 | the score is at most 100, and 100 whenever the normalised texts are equal |
| DuplicateDetector.SimilarityRounds | src/services/duplicateDetector.ts:34-42 | the score is the share of the longer length not spent on edits, in percent, rounded to the nearest whole |
| DuplicateDetector.FirstDuplicate | src/services/duplicateDetector.ts:113-141 | the index found is the first existing item with the same date, type, an amount within 0.01 and a similarity of at least 80, or past the end when none qualifies |
| DuplicateDetector.MaxSimilarityIsMax | src/services/duplicateDetector.ts:126-133 | the reported similarity is the largest score among the items with the same date, amount and type, and is reached by one of them unless it is 0 |
| DuplicateDetector.CheckOne | src/services/duplicateDetector.ts:107-148 | a result always carries its own transaction |
| DuplicateDetector.CheckTransaction | src/services/duplicateDetector.ts:108-148 | the inner scan gives the reference result: a duplicate of the first qualifying item with the largest similarity seen up to it, or not a duplicate with the largest similarity over all items |
| DuplicateDetector.CheckForDuplicates | src/services/duplicateDetector.ts:80-162 | one result per transaction in order, all unchecked with similarity 0 when the fetch fails, otherwise each the reference result against the fetched items |
| DuplicateDetector.CheckOneSound | src/services/duplicateDetector.ts:113-141 | a duplicate names an existing item with the same date and type and a similarity of at least 80; a non-duplicate has no id and no qualifying item at all |
| DuplicateDetector.CheckOneSimilarity | src/services/duplicateDetector.ts:110-147 | the reported similarity lies in 0..100 and is at least 80 for a duplicate |
| DuplicateDetector.FilterNonDuplicates | src/services/duplicateDetector.ts:167-171 | the kept transactions are exactly those of the results not marked duplicate, in their order, as many as the results less the duplicates |
| DuplicateDetector.FilterNonDuplicatesMembers | src/services/duplicateDetector.ts:167-171 | a transaction is kept iff some result not marked duplicate is about it |
| DuplicateDetector.DuplicateCount | src/services/duplicateDetector.ts:183 | there are never more duplicates than results |
| DuplicateDetector.FilterKeepsAll | src/services/duplicateDetector.ts:167-171 | without duplicates every transaction is kept, in order |
| DuplicateDetector.UncheckedKeepsAll | src/services/duplicateDetector.ts:95-103 | after a failed fetch no result is a duplicate and every transaction is kept, in order |
| DuplicateDetector.GetDuplicateStats | src/services/duplicateDetector.ts:176-188 | total is the number of results, unique is total minus duplicates and equals the kept transactions, the percentage lies in 0..100, is 0 without results and 100 when all are duplicates |
| FinancialDataTransforms.SummaryToItem | src/utils/financialDataTransforms.ts:5-16 | a monthly summary is shown as a 'saida' entry of the 'RESUMO MENSAL' bank tagged 'financial_summary', with the summary's id, creation time, user, month, total and category and the description 'Resumo mensal - ' and the category |
| FinancialDataTransforms.IncomeSummaryToItem | src/utils/financialDataTransforms.ts:19-30 | an income summary is shown as an 'entrada' entry of the 'RECEITA MENSAL' bank tagged 'financial_summary_income', with the summary's id, creation time, user, month, total and source and the description 'Receita mensal - ' and the source |
| FinancialDataTransforms.SummaryRoundTrip | src/utils/financialDataTransforms.ts:5-16 | the shown entry loses nothing: the summary can be read back from it, and the description after its prefix is the category |
| FinancialDataTransforms.IncomeSummaryRoundTrip | src/utils/financialDataTransforms.ts:19-30 | the shown income entry loses nothing: the summary can be read back from it, and the description after its prefix is the source |
| FinancialDataTransforms.SummaryToItemInjective | src/utils/financialDataTransforms.ts:5-16 | two different summaries are never shown as the same entry |
| FinancialDataTransforms.SummariesRouteHome | src/hooks/useFinancialMutations.ts:23-39 | deleting a shown summary goes back to the table it came from, expense summaries to financial_summary and income summaries to financial_summary_income |
| FinancialMutations.RouteOf | src/hooks/useFinancialMutations.ts:23-47 | a single delete goes to financial_summary iff the source is 'financial_summary', to financial_summary_income iff it is 'financial_summary_income', and to financial_items otherwise |
| FinancialMutations.Find | src/hooks/useFinancialMutations.ts:16 | nothing is found iff no known entry has the id; a found entry is a known entry with that id |
| FinancialMutations.DeleteOne | src/hooks/useFinancialMutations.ts:12-50 | an unknown id fails with 'Item não encontrado' before anything is sent; a success deleted one entry with a single request on the entry's table for that id |
| FinancialMutations.DeleteOneKnown | src/hooks/useFinancialMutations.ts:23-49 | a single delete of a known id fails iff the database reports an error for its request |
| FinancialMutations.Ids | src/hooks/useFinancialMutations.ts:78-80 | one id per entry, in order |
| FinancialMutations.Requests | src/hooks/useFinancialMutations.ts:78-136 | the bulk delete as written issues three requests, on financial_items, financial_summary and financial_summary_income in that order, each on its group as line 78-80 filters it |
| FinancialMutations.RequestsCorrected | src/hooks/useFinancialMutations.ts:78-136 | the corrected bulk delete issues the same three requests in the same order, each on the entries a single delete sends to that table |
| FinancialMutations.RunWithoutErrors | src/hooks/useFinancialMutations.ts:82-139 | without errors every request that has ids is sent, in order, and the total deleted is the sum of their counts |
| FinancialMutations.RunStopsAtError | src/hooks/useFinancialMutations.ts:90-136 | after an error the requests sent are the first ones with ids, the last of them the only one that failed, and its error is the result |
| FinancialMutations.DeleteGroup | src/hooks/useFinancialMutations.ts:90-104 | a group without ids sends nothing; otherwise its request is sent, its error is the block's error, and without one its count (0 when absent) is added to the total |
| FinancialMutations.RunRequests | src/hooks/useFinancialMutations.ts:82-139 | the three blocks run in order give the outcome RunFrom specifies |
| FinancialMutations.DeleteMultiple | src/hooks/useFinancialMutations.ts:70-140 | an empty selection fails with 'Nenhum item selecionado para deletar' and sends nothing; otherwise the selected known entries are split into the three groups as written (null or empty source, expense summary tag, income summary tag), whose deletes run in order |
| FinancialMutations.DeleteMultipleCorrected | src/hooks/useFinancialMutations.ts:70-140 | the corrected bulk delete: the same empty-selection error, and otherwise the selected entries grouped by the table a single delete sends each to, deleted in the same order |
| FinancialMutations.ItemsToDeleteSpec | src/hooks/useFinancialMutations.ts:77 | the entries to delete are exactly the known entries whose id was selected, in their original order; unknown ids are ignored |
| FinancialMutations.GroupsPartition | src/hooks/useFinancialMutations.ts:78-80 | with the corrected filter an entry is in a table's group iff it is to be deleted and a single delete would send it to that table, so the groups partition the selection |
| FinancialMutations.GroupsAsWrittenSpec | src/hooks/useFinancialMutations.ts:78-80 | as written the items group holds exactly the selected entries with a null or empty source, and each summary group exactly those with its tag |
| FinancialMutations.GroupsAsWrittenMiss | src/hooks/useFinancialMutations.ts:78-80 | as written the three groups are disjoint, but an entry with a non-empty source other than the two summary tags is in none of them |
| FinancialMutations.AsWrittenAgrees | src/hooks/useFinancialMutations.ts:78-80 | when every selected entry has no source or a summary tag, the bulk delete as written issues exactly the corrected requests |
| FinancialMutations.CsvImportNotBulkDeleted | src/hooks/useFinancialMutations.ts:78 | an entry with source 'CSV Import' is deleted from financial_items by a single delete, yet the bulk delete as written sends no request for it and reports 0 deleted |
| FinancialMutations.CsvImportDeleted | src/hooks/useFinancialMutations.ts:78 | the corrected bulk delete of the same entry sends exactly one request, on financial_items for its id |
| FinancialMutations.DeleteMultipleTotal | src/hooks/useFinancialMutations.ts:82-139 | without database errors the bulk delete as written sends each non-empty group in the order items, summaries, income summaries and reports the sum of their counts; each selected entry with no source or a summary tag is in its group |
| FinancialMutations.DeleteMultipleCorrectedTotal | src/hooks/useFinancialMutations.ts:82-139 | without database errors the corrected bulk delete sends each non-empty group in order and reports the sum of their counts; every selected entry is in the group of the table a single delete sends it to |
| FluxoCaixa.CurrentBalanceAppend | src/hooks/useFluxoCaixa.ts:20-26 | a 'receita' adds its amount to the current balance and any other type subtracts it |
| FluxoCaixa.CurrentBalanceConcat | src/hooks/useFluxoCaixa.ts:20-26 | the balance of two lists of entries is the sum of their balances |
| FluxoCaixa.Projection | src/hooks/useFluxoCaixa.ts:51-89 | the loop builds exactly the month-by-month projection ProjectionFrom defines from the current balance and the total of the recurring bills |
| FluxoCaixa.AfterShift | src/hooks/useFluxoCaixa.ts:76-88 | paying one month of bills and then j more is paying j + 1 months |
| FluxoCaixa.AfterClosedForm | src/hooks/useFluxoCaixa.ts:76-88 | after j months the balance is the starting balance less j times the bills |
| FluxoCaixa.ProjectionFromSpec | src/hooks/useFluxoCaixa.ts:54-89 | one month per month ahead and none for a count below one, the j-th starting after j months of bills |
| FluxoCaixa.ProjectionChain | src/hooks/useFluxoCaixa.ts:51-89 | the projection has monthsAhead months; the first starts from the current balance, each later one from the previous month's end, and each has no income, the bills as expenses and ends at its start plus income less expenses |
| FluxoCaixa.ProjectionLast | src/hooks/useFluxoCaixa.ts:51-89 | the last month ends monthsAhead months of bills below the current balance |
| IncomeSummaryModal.PositiveValue | src/components/IncomeSummaryModal.tsx:58-64 | a value is accepted only when it parses to a number above zero |
| IncomeSummaryModal.CheckColumns | src/components/IncomeSummaryModal.tsx:43-76 | a line's trimmed columns pass iff the month has the shape AAAA-MM, the value is above zero and the source is not empty, and then give the month's first day, the source and the value |
| IncomeSummaryModal.CheckLine | src/components/IncomeSummaryModal.tsx:32-38 | a line that does not split into exactly three tab-separated columns is an error |
| IncomeSummaryModal.Outcomes | src/components/IncomeSummaryModal.tsx:28-80 | one outcome per non-blank line, each the validation of that line at its position |
| IncomeSummaryModal.ValidateAndParseData | src/components/IncomeSummaryModal.tsx:20-85 | the loop collects, in order, the summaries of the lines that pass and the errors of those that do not, so every line gives exactly one of the two |
| IncomeSummaryModal.HandleImport | src/components/IncomeSummaryModal.tsx:87-131 | rows are sent iff the text is not blank, no line has an error and some line remains, and then one row per line, each that line's checked summary |
| IncomeSummaryModal.ColumnsRequired | src/components/IncomeSummaryModal.tsx:35-38 | a line whose tab count is not two, so not three columns, is an error |
| IncomeSummaryModal.MonthThirteenShape | src/components/IncomeSummaryModal.tsx:44 | the month check is on shape only, so 2024-13 passes it |
| IncomeSummaryModal.LineColumns | src/components/IncomeSummaryModal.tsx:40 | a line of three columns is judged by its trimmed month, source and value |
| IncomeSummaryModal.MonthShapeOnly | src/components/IncomeSummaryModal.tsx:44-51 | a line with month 2024-13 is stored with the month 2024-13-01 |
| IncomeSummaryModal.SourceRequired | src/components/IncomeSummaryModal.tsx:66-70 | a blank source is an error even when month and value are fine |
| IncomeSummaryModal.CleanValueBrazilian | src/components/IncomeSummaryModal.tsx:55-58 | 'R$ ', the thousands dots and the decimal comma of a Brazilian amount are cleaned so that R$ 1.500,50 parses to 1500.5 |
| Lancamentos.NormalizeType | backups/code-backup/src/pages/Lancamentos.tsx:35-40 | the normalised type is always 'entrada' or 'saida' |
| Lancamentos.NormalizeTypeCases | backups/code-backup/src/pages/Lancamentos.tsx:35-40 | the type is 'entrada' iff the lower-cased text is 'receita' or 'entrada', and 'saida' for every other text |
| Lancamentos.NormalizeTypeIdempotent | backups/code-backup/src/pages/Lancamentos.tsx:35-40 | normalising a type twice gives the same as once |
| Lancamentos.CollapseSpaced | backups/code-backup/src/pages/Lancamentos.tsx:65 | collapsing whitespace runs leaves single plain spaces and keeps the first and last non-space characters |
| Lancamentos.SplitSpaced | backups/code-backup/src/pages/Lancamentos.tsx:65-66 | splitting a collapsed, trimmed name at spaces gives non-empty tokens without whitespace |
| Lancamentos.FormatToken | backups/code-backup/src/pages/Lancamentos.tsx:67-74 | formatting a token keeps its length |
| Lancamentos.FormatTokens | backups/code-backup/src/pages/Lancamentos.tsx:67-74 | one formatted token per token, in order |
| Lancamentos.FormatTokenWord | backups/code-backup/src/pages/Lancamentos.tsx:67-74 | a formatted token is still a non-empty word without whitespace |
| Lancamentos.FormatTokenRule | backups/code-backup/src/pages/Lancamentos.tsx:68-73 | a token with a special character or of at most two characters is upper-cased; any other gets a capital first letter and the rest in lower case |
| Lancamentos.FormatBankNameShape | backups/code-backup/src/pages/Lancamentos.tsx:62-76 | a blank name gives '' and only a blank name does; otherwise the result is the formatted tokens of the trimmed, collapsed name joined by single spaces, and splitting it at spaces gives those tokens back |
| Lancamentos.NumberOfDigits | backups/code-backup/src/pages/Lancamentos.tsx:83-84 | a text of decimal digits reads as the number it writes |
| Lancamentos.MonthTextParts | backups/code-backup/src/pages/Lancamentos.tsx:82 | a YYYY-MM month splits at its dash into the year and the two month digits |
| Lancamentos.EndMonthOfParts | backups/code-backup/src/pages/Lancamentos.tsx:80-89 | a start month whose parts read as numbers ends n - 1 months after the month they write |
| Lancamentos.EndMonthFromWhole | backups/code-backup/src/pages/Lancamentos.tsx:86-88 | with a whole year from 100 on and a whole month, the date arithmetic is plain month arithmetic |
| Lancamentos.EndMonthSpec | backups/code-backup/src/pages/Lancamentos.tsx:80-89 | from a start month YYYY-MM with a year from 100 on, n installments end n - 1 months later, so one installment ends in the start month |
| Lancamentos.EndMonthNone | backups/code-backup/src/pages/Lancamentos.tsx:81 | without a start month or with a count that is not positive the end month is '' |
| Lancamentos.MonthLabelSpec | backups/code-backup/src/pages/Lancamentos.tsx:91-96 | a month YYYY-MM and a date YYYY-MM-DD are both labelled MM/YYYY |
| Lancamentos.RowValues | backups/code-backup/src/pages/Lancamentos.tsx:114-132 | one value per header column |
| Lancamentos.RowFields | backups/code-backup/src/pages/Lancamentos.tsx:114-132 | one written field per header column |
| Lancamentos.RowLines | backups/code-backup/src/pages/Lancamentos.tsx:134 | one line per item, in order |
| Lancamentos.RowFieldsEncode | backups/code-backup/src/pages/Lancamentos.tsx:114-132 | every field writes its value, the bare ones as they are and the text ones in quotes with inner quotes doubled, and no field holds a line break |
| Lancamentos.RowLineReadBack | backups/code-backup/src/pages/Lancamentos.tsx:114-134 | an item's line holds no line break and the application's CSV line reader gives back the item's values, trimmed |
| Lancamentos.RowLinesReadBack | backups/code-backup/src/pages/Lancamentos.tsx:114-134 | every item line holds no line break and reads back as its item's values, trimmed |
| Lancamentos.HeaderLineSingle | backups/code-backup/src/pages/Lancamentos.tsx:99-113 | the header line holds no line break |
| Lancamentos.SplitLines | backups/code-backup/src/pages/Lancamentos.tsx:134 | lines without line breaks joined by line breaks split back into the same lines |
| Lancamentos.BuildCsvReadBack | backups/code-backup/src/pages/Lancamentos.tsx:98-135 | the export splits into one header line and one line per item, and each item line read back with the CSV line reader gives the item's values, trimmed, doubled quotes undone |
| Lancamentos.ReadBackLines | backups/code-backup/src/pages/Lancamentos.tsx:134 | a header and the item lines joined by line breaks split back into the header and those lines, each reading back as its item's values |
| Lancamentos.QuotedCount | backups/code-backup/src/pages/Lancamentos.tsx:117-121 | a quoted text field holds two quotes per quote of its value plus the enclosing pair |
| Lancamentos.Ensure | backups/code-backup/src/pages/Lancamentos.tsx:375-380 | after ensure the id has a summary |
| Lancamentos.EnsureSpec | backups/code-backup/src/pages/Lancamentos.tsx:375-380 | ensure keeps the map valid, adds only its own id, adds nothing to any total, and a new summary gets the given name |
| Lancamentos.StepSpec | backups/code-backup/src/pages/Lancamentos.tsx:391-403 | ensuring a summary and adding an amount changes only that id, by the amount on the entrada or the saida side |
| Lancamentos.StepSums | backups/code-backup/src/pages/Lancamentos.tsx:391-403 | ensuring a summary and adding an amount changes only the totals of that id |
| Lancamentos.AddItemSpec | backups/code-backup/src/pages/Lancamentos.tsx:386-404 | one item adds only the keys 'all' and its bucket, keeps the map valid, and adds its amount to each of those two on its type's side |
| Lancamentos.AddItemValid | backups/code-backup/src/pages/Lancamentos.tsx:386-404 | adding one item keeps the map valid |
| Lancamentos.AddItemSums | backups/code-backup/src/pages/Lancamentos.tsx:386-404 | adding one item adds its share to every key |
| Lancamentos.AddItemKeys | backups/code-backup/src/pages/Lancamentos.tsx:386-404 | adding one item adds the keys 'all' and its bucket and removes none |
| Lancamentos.AccumulateSpec | backups/code-backup/src/pages/Lancamentos.tsx:386-404 | after the items every key holds its starting totals plus each item's amount once if it is 'all' and once if it is the item's bucket, and no key is lost |
| Lancamentos.AccumulateBuckets | backups/code-backup/src/pages/Lancamentos.tsx:386-404 | after the items 'all' is kept and every item's bucket is a key |
| Lancamentos.AccumulateKeepsKeys | backups/code-backup/src/pages/Lancamentos.tsx:386-404 | adding items removes no key |
| Lancamentos.AccumulateHasBuckets | backups/code-backup/src/pages/Lancamentos.tsx:386-404 | after the items each item's bucket is a key |
| Lancamentos.SeededSpec | backups/code-backup/src/pages/Lancamentos.tsx:382-383 | ensuring 'all' and then each unit gives a valid map holding 'all' and every unit with all totals zero |
| Lancamentos.StartSpec | backups/code-backup/src/pages/Lancamentos.tsx:382-384 | the starting map is valid, holds 'all', every unit and 'none', and every total in it is zero |
| Lancamentos.ValuesMembers | backups/code-backup/src/pages/Lancamentos.tsx:410 | the values listed are exactly the summaries stored under the listed keys |
| Lancamentos.Insert | backups/code-backup/src/pages/Lancamentos.tsx:410-416 | inserting adds the element and loses none |
| Lancamentos.SortSummaries | backups/code-backup/src/pages/Lancamentos.tsx:410-416 | the sorted list is a permutation of the summaries |
| Lancamentos.InsertSorted | backups/code-backup/src/pages/Lancamentos.tsx:410-416 | inserting into a rank-sorted list keeps it rank-sorted |
| Lancamentos.SortSorted | backups/code-backup/src/pages/Lancamentos.tsx:410-416 | the sorted list is ordered 'all' first, the units, then 'none' last |
| Lancamentos.SortedEnds | backups/code-backup/src/pages/Lancamentos.tsx:410-416 | a rank-sorted list holding an 'all' and a 'none' summary starts with 'all' and ends with 'none' |
| Lancamentos.ListMapSpec | backups/code-backup/src/pages/Lancamentos.tsx:418-419 | the index of a list has exactly the list's ids as keys and each maps to the stored summary |
| Lancamentos.UnitSummaries | backups/code-backup/src/pages/Lancamentos.tsx:371-422 | the list is the sorted summaries of all seeded and accumulated keys with their balances, starts with 'all' and ends with 'none', and the index maps each id to its summary |
| Lancamentos.IndexById | backups/code-backup/src/pages/Lancamentos.tsx:418-419 | the loop builds the index of the list, each entry under its own id |
| Lancamentos.SeedSummaries | backups/code-backup/src/pages/Lancamentos.tsx:382-384 | the seeding loop gives the starting map: valid, holding 'all', 'none' and every unit |
| Lancamentos.AddItems | backups/code-backup/src/pages/Lancamentos.tsx:386-404 | the forEach over the items gives the accumulated map |
| Lancamentos.SummariesSpec | backups/code-backup/src/pages/Lancamentos.tsx:371-422 | the list starts with 'all' and ends with 'none', its index has exactly the map's keys, and every summary's entradas and saidas are the sums for its key with saldo their difference |
| Lancamentos.SummariesTotals | backups/code-backup/src/pages/Lancamentos.tsx:382-408 | the accumulated map is valid, holds 'all', 'none', every unit and every bucket, and each summary's totals are its items' sums with saldo entradas minus saidas |
| Lancamentos.SortedIndex | backups/code-backup/src/pages/Lancamentos.tsx:410-421 | the sorted values start with 'all', end with 'none', and their index has exactly the map's keys with each id mapped to its summary |
| Lancamentos.ListEntries | backups/code-backup/src/pages/Lancamentos.tsx:406-416 | the sorted list holds exactly the stored summaries, each with its balance |
| Lancamentos.SaldoIds | backups/code-backup/src/pages/Lancamentos.tsx:406-408 | adding the balances keeps the keys, and each summary keeps its key as id |
| Lancamentos.ListStored | backups/code-backup/src/pages/Lancamentos.tsx:410 | every summary of the list is the one stored under its id |
| Lancamentos.ListComplete | backups/code-backup/src/pages/Lancamentos.tsx:410 | the list holds the summary of every key |
| Lancamentos.ListIds | backups/code-backup/src/pages/Lancamentos.tsx:418-419 | the list's ids are exactly the map's keys |
| Lancamentos.ListEnds | backups/code-backup/src/pages/Lancamentos.tsx:382-416 | with 'all' and 'none' stored, the sorted list starts with 'all' and ends with 'none' |
| Lancamentos.SelectedSummary | backups/code-backup/src/pages/Lancamentos.tsx:434-440 | a selected id with a summary shows that summary |
| Lancamentos.SelectedFallsBackToAll | backups/code-backup/src/pages/Lancamentos.tsx:434 | since the index always holds 'all', an unknown selection shows the 'all' summary with the income of every item |
| Lancamentos.AllCountsOnce | backups/code-backup/src/pages/Lancamentos.tsx:386-404 | with no item in a bucket named 'all', the 'all' totals are the income and expense totals of every item, each item counted once |
| Lancamentos.FilteredItemsSpec | backups/code-backup/src/pages/Lancamentos.tsx:424-432 | the filter keeps the order; 'all' keeps every item, 'none' exactly the items without a unit, any other id exactly the items of that unit |
| LancamentosState.FilterItemsSpec | src/hooks/useLancamentosState.ts:53-64 | the visible items keep their order and an item is visible iff its description contains the search case-insensitively and every filter not left at its default matches it exactly |
| LancamentosState.DefaultFiltersKeepAll | src/hooks/useLancamentosState.ts:7-11 | with an empty search, the three filters at 'all' and no unit, every item is visible |
| LancamentosState.Ids | src/hooks/useLancamentosState.ts:36 | one id per item, in order |
| LancamentosState.State.constructor | src/hooks/useLancamentosState.ts:7-16 | the state starts with no search, every filter at 'all', no unit, nothing selected, today's month and the period 'month' |
| LancamentosState.State.GetFilteredItems | src/hooks/useLancamentosState.ts:53-64 | the filtered items are a subsequence of the items holding exactly those that pass the current filters |
| LancamentosState.State.ClearFilters | src/hooks/useLancamentosState.ts:18-24 | the five filters return to their initial values while the selection, month and period are untouched |
| LancamentosState.State.SelectItem | src/hooks/useLancamentosState.ts:26-32 | checking appends the id even when it is already selected, unchecking removes every occurrence, and the filters, month and period are untouched |
| LancamentosState.State.SelectAll | src/hooks/useLancamentosState.ts:34-51 | selecting all sets the selection to the given items' ids in order, unselecting empties it, and nothing else changes |
| LancamentosState.State.SetSearchTerm | src/hooks/useLancamentosState.ts:7 | the search takes the new text and nothing else changes |
| LancamentosState.State.SetFilterBusinessUnit | src/hooks/useLancamentosState.ts:11 | the unit filter takes the new unit and nothing else changes |
| LancamentosState.FilterItemsSpecAll | src/hooks/useLancamentosState.ts:53-64 | for every item at once, the visible items are a subsequence of the items and an item is visible iff it passes |
| LancamentosState.UncheckRemovesAll | src/hooks/useLancamentosState.ts:30 | unchecking leaves no occurrence of the id and keeps every other id, in order |
| MonthlySummaryModal.ParseMonth | src/components/MonthlySummaryModal.tsx:22-47 | an accepted month becomes a ten-character date ending in '-01' |
| MonthlySummaryModal.ParseMonthAccepts | src/components/MonthlySummaryModal.tsx:25-46 | a month is accepted iff its trimmed text is four digits, a dash and two digits naming a month 01 to 12, and it then becomes that month's first day |
| MonthlySummaryModal.ParseMonthRejects | src/components/MonthlySummaryModal.tsx:25-46 | a blank text, month 00 and months from 13 on are rejected |
| MonthlySummaryModal.ParseMonthExample | src/components/MonthlySummaryModal.tsx:40 | 2024-06 becomes 2024-06-01 |
| MonthlySummaryModal.ReadNumber | src/components/MonthlySummaryModal.tsx:77-80 | a number is read only when it is above zero |
| MonthlySummaryModal.ReadPositive | src/components/MonthlySummaryModal.tsx:75-80 | the number read from a cleaned text is above zero |
| MonthlySummaryModal.ParseAmount | src/components/MonthlySummaryModal.tsx:49-84 | an empty amount is rejected and an accepted amount is above zero |
| MonthlySummaryModal.CleanAmountPlain | src/components/MonthlySummaryModal.tsx:53-56 | an amount without currency sign or whitespace is left as it is by the cleaning |
| MonthlySummaryModal.CleanAmountCurrency | src/components/MonthlySummaryModal.tsx:53-56 | 'R$' and whitespace in front of an amount are dropped |
| MonthlySummaryModal.KeepLastDotThousands | src/components/MonthlySummaryModal.tsx:66-72 | of several dots only the last is kept as the decimal point |
| MonthlySummaryModal.KeepLastOfThree | src/components/MonthlySummaryModal.tsx:66-72 | a text with exactly two dots keeps only its last dot |
| MonthlySummaryModal.ReadDecimal | src/components/MonthlySummaryModal.tsx:75-80 | a digits-point-cents text is read as the decimal it writes when that is positive and rejected otherwise |
| MonthlySummaryModal.CommaBecomesPoint | src/components/MonthlySummaryModal.tsx:61-63 | the first comma becomes the decimal point |
| MonthlySummaryModal.ParseAmountThousands | src/components/MonthlySummaryModal.tsx:49-84 | a Brazilian amount 'R$ t.u,c' reads as the decimal with integer part tu and cents c |
| MonthlySummaryModal.ParseAmountExample | src/components/MonthlySummaryModal.tsx:49-84 | R$ 2.331,59 reads as 2331.59 |
| MonthlySummaryModal.NonBlankLines | src/components/MonthlySummaryModal.tsx:87 | the kept lines are no more than the lines and none of them is blank |
| MonthlySummaryModal.LineValues | src/components/MonthlySummaryModal.tsx:94-103 | a line has values iff it holds a tab or a semicolon |
| MonthlySummaryModal.LineRecord | src/components/MonthlySummaryModal.tsx:90-116 | a line gives a record iff it holds a tab or a semicolon and splits into exactly three values |
| MonthlySummaryModal.LineResults | src/components/MonthlySummaryModal.tsx:90 | one result per line |
| MonthlySummaryModal.ParseRawTextSpec | src/components/MonthlySummaryModal.tsx:86-117 | the text parses iff every non-blank line gives a record, and then there is one record per such line in order; otherwise the error is that of the first line that fails |
| MonthlySummaryModal.TabFirst | src/components/MonthlySummaryModal.tsx:95-96 | a tab decides the split even when the line also holds semicolons |
| MonthlySummaryModal.SemicolonRecord | src/components/MonthlySummaryModal.tsx:97-115 | three tab-free values separated by semicolons make one record of the trimmed values |
| MonthlySummaryModal.RecordSummary | src/components/MonthlySummaryModal.tsx:143-149 | a record becomes a summary only when its month and amount parse, and then with an amount above zero and a non-empty category |
| MonthlySummaryModal.RecordSummaries | src/components/MonthlySummaryModal.tsx:141-149 | one outcome per record |
| MonthlySummaryModal.HandleImport | src/components/MonthlySummaryModal.tsx:119-193 | blank text imports nothing, a text the parser rejects reports its error, and otherwise every record is counted once as a success, an error or a duplicate, with as many successes as inserted summaries |
| MonthlySummaryModal.ImportRecords | src/components/MonthlySummaryModal.tsx:137-193 | the insert loop gives the tally ImportAll defines |
| MonthlySummaryModal.ImportAllCounts | src/components/MonthlySummaryModal.tsx:137-193 | successes, errors and duplicates add up to the number of records, and the successes are the inserted summaries |
| MonthlySummaryModal.ImportAllFresh | src/components/MonthlySummaryModal.tsx:151-183 | no month and category pair is inserted twice or when it was already stored |
| Orcamentos.UnitById | src/hooks/useOrcamentos.ts:51-53 | the lookup finds nothing iff no unit has the id, and a found unit is one of the units with that id |
| Orcamentos.UnitByIdLast | src/hooks/useOrcamentos.ts:51-53 | when several units share an id the map holds the last of them |
| Orcamentos.FindByNameFrom | src/hooks/useOrcamentos.ts:75-79 | nothing is found iff no unit from the position on has the name under the comparison, otherwise the first unit that has it |
| Orcamentos.ResolveById | src/hooks/useOrcamentos.ts:83-97 | a category that is a unit id keeps that id and shows the name of a unit with that id |
| Orcamentos.ResolveByName | src/hooks/useOrcamentos.ts:86-92 | a category that is no unit id but is a unit's name takes the id and name of the first unit with that name |
| Orcamentos.ResolveUnknown | src/hooks/useOrcamentos.ts:83-97 | a category that names no unit is kept as both the unit id and the unit name |
| Orcamentos.ResolveCopies | src/hooks/useOrcamentos.ts:94-101 | the id, limit and month are copied; a missing threshold becomes 80 and a given one, 0 included, is kept |
| Orcamentos.ResolveAll | src/hooks/useOrcamentos.ts:81-102 | one resolved budget per raw row, in order |
| Orcamentos.BudgetsSpec | src/hooks/useOrcamentos.ts:74-104 | one budget per raw row, the resolved rows and no others, sorted by unit name |
| Orcamentos.GastosPorUnidade | src/hooks/useOrcamentos.ts:127-131 | the reduce over the expense rows gives the per-unit spending Spend defines |
| Orcamentos.SpendValid | src/hooks/useOrcamentos.ts:127-131 | the spending record lists each unit once and has a total for exactly the listed units |
| Orcamentos.SpendKeys | src/hooks/useOrcamentos.ts:127-131 | a unit has an entry iff some row is under it, rows without a unit being under 'sem-unidade' |
| Orcamentos.SpendValues | src/hooks/useOrcamentos.ts:127-131 | each unit's entry is the sum of the amounts of its rows, zero for a unit without rows |
| Orcamentos.SpendTotal | src/hooks/useOrcamentos.ts:127-131 | the entries add up to the sum of all amounts |
| Orcamentos.Create | src/hooks/useOrcamentos.ts:140-155 | a budget is inserted iff a user is signed in and a unit is chosen; otherwise the error 'User not authenticated' or 'Selecione uma unidade de negócio', in that order |
| Orcamentos.CreateThenResolve | src/hooks/useOrcamentos.ts:140-155 | a created budget for an existing unit is shown under that unit, in the selected month, with the given limit and threshold |
| Orcamentos.UpdatePayload | src/hooks/useOrcamentos.ts:168-181 | no request is sent iff no unit id, limit or threshold was given, an empty unit id counting as not given; otherwise the payload carries exactly the given fields |
| Orcamentos.UpdateChangesGiven | src/hooks/useOrcamentos.ts:168-188 | an update changes exactly the fields it was given and never the id or the month |
| OrcamentosProgress.PercentOf | src/components/orcamentos/OrcamentosProgress.tsx:81 | over a non-zero limit the percentage is finite and times the limit gives 100 times the spending; over a zero limit it is +Infinity, -Infinity or NaN as the spending is positive, negative or zero |
| OrcamentosProgress.Capped | src/components/orcamentos/OrcamentosProgress.tsx:102 | the bar value is never above 100, keeps a finite value up to 100, is 100 from 100 on and for +Infinity, and is not finite only for NaN and -Infinity |
| OrcamentosProgress.StatusSpec | src/components/orcamentos/OrcamentosProgress.tsx:32-36 | the icon is red iff the percentage reaches 100, orange iff it reaches the threshold but not 100, green otherwise, so for a finite percentage orange means threshold to below 100 |
| OrcamentosProgress.CardDefaults | src/components/orcamentos/OrcamentosProgress.tsx:80-82 | a category without spending counts as 0 spent, and a missing or zero threshold becomes 80 while any other is kept |
| OrcamentosProgress.CardMessages | src/components/orcamentos/OrcamentosProgress.tsx:108-117 | the two warnings never show together; 'Limite ultrapassado!' shows exactly when the icon is red and 'Próximo do limite!' exactly when it is orange |
| OrcamentosProgress.CardBar | src/components/orcamentos/OrcamentosProgress.tsx:101-104 | a card's bar is never above 100, shows the percentage itself up to 100 and is full when the limit is exceeded |
| OrcamentosProgress.SummarySpec | src/components/orcamentos/OrcamentosProgress.tsx:38-73 | without a positive total budget the overall percentage is 0 and the icon green; otherwise the percentage times the budget is 100 times the spending; the bar is the percentage capped at 100 and what is available is the budget less the spending |
| OrcamentosProgress.SummaryStatus | src/components/orcamentos/OrcamentosProgress.tsx:40-49 | the overall icon is red once the whole budget is spent and green while under 80% |
| OrcamentosProgress.PercentBounds | src/components/orcamentos/OrcamentosProgress.tsx:40 | a spending of at least the budget is at least 100% and one under 80% of it stays under 80% |
| OrcamentosProgress.TotalOrcamentoConcat | src/components/orcamentos/OrcamentosProgress.tsx:38 | the total budget of two lists is the sum of their totals |
| PdfParser.IdentifyBank | src/services/pdfParser.ts:57-74 | no bank is named iff no pattern matches the text; otherwise the name of the first pattern that matches |
| PdfParser.FirstBank | src/services/pdfParser.ts:67-73 | the scan stops at the first matching pattern from its start, or past the last pattern when none matches |
| PdfParser.ParseDate | src/services/pdfParser.ts:80-99 | a date parses iff its trimmed text is DD/MM/YYYY, or DD/MM with a reference year given |
| PdfParser.ParseDateFull | src/services/pdfParser.ts:85-89 | DD/MM/YYYY is only rearranged into YYYY-MM-DD, with no range check, so 31/02/2025 gives 2025-02-31 |
| PdfParser.ParseDateShort | src/services/pdfParser.ts:92-98 | DD/MM takes the reference year when one is given and does not parse without one |
| PdfParser.ParseCleanedNegates | src/services/pdfParser.ts:110-122 | a leading minus negates the amount the rest of the cleaned text gives |
| PdfParser.ParseAmountBrazilian | src/services/pdfParser.ts:105-123 | R$ t.u,c reads as the decimal with integer part tu and cents c |
| PdfParser.FirstYearAt | src/services/pdfParser.ts:138 | the scan stops at the first 202d year word from its start, or at the end of the text |
| PdfParser.ReferenceYear | src/services/pdfParser.ts:138-139 | the statement's year is a 202d year written in the text, or the current year when the text has none |
| PdfParser.ParseC6BankExtract | src/services/pdfParser.ts:129-168 | the loop over the pattern's matches gives the C6 transactions C6Transactions defines, in the year ReferenceYear picks |
| PdfParser.C6TransactionRule | src/services/pdfParser.ts:143-164 | a match gives a transaction iff its date and amount parse; the transaction carries the amount's absolute value and is an 'entrada' iff its label contains 'entrada' or the amount is positive |
| PdfParser.C6TransactionsWellFormed | src/services/pdfParser.ts:142-165 | every C6 transaction has a non-negative amount and is an 'entrada' or a 'saida', and there are no more transactions than matches |
| PdfParser.ParseGenericExtract | src/services/pdfParser.ts:173-212 | the nested loops give the transactions GenericTransactions defines over the text's lines |
| PdfParser.MatchLine | src/services/pdfParser.ts:188-208 | the inner loop finds the line's first matching pattern |
| PdfParser.GenericTransactionsNext | src/services/pdfParser.ts:187-209 | one more line adds the transaction of its first matching pattern when that parses, and nothing otherwise |
| PdfParser.FirstPatternOnly | src/services/pdfParser.ts:190-206 | a line whose first matching pattern does not parse gives nothing, even when a later pattern would have parsed |
| PdfParser.GenericTransactionRule | src/services/pdfParser.ts:196-204 | a generic transaction is well formed, carries the amount's absolute value, and is an 'entrada' iff the amount is not negative |
| PdfParser.GenericTransactionsWellFormed | src/services/pdfParser.ts:187-209 | every generic transaction is well formed and there is at most one per line |
| PdfParser.ParseBankStatementPDF | src/services/pdfParser.ts:219-291 | under 50 characters of text is the empty-text failure; otherwise success iff the bank's parser yields transactions, then with those and no errors, with the identified bank or the unknown bank; a thrown extraction fails with needsPassword iff it is a password error; a failure has no transactions and one error |
| PdfParser.StatementWellFormed | src/services/pdfParser.ts:235-260 | every transaction a statement yields is well formed |
| RawPasteModal.FullYear | src/components/RawPasteModal.tsx:50-53 | a two-digit year becomes four digits and a longer year keeps its length |
| RawPasteModal.FullYearValue | src/components/RawPasteModal.tsx:50-53 | a two-digit year above 50 is read as 19YY and any other as 20YY |
| RawPasteModal.TwoDigitsValue | src/components/RawPasteModal.tsx:51 | a two-digit text is worth ten times its first digit plus its second |
| RawPasteModal.DateOnly | src/components/RawPasteModal.tsx:36-37 | `new Date(text)` as V8 reads it: a date iff the text has the YYYY-MM-DD shape with month 01..12 and day 01..31; the date is a real day, and is the day the text names iff that day exists, a day past the month's end rolling over |
| RawPasteModal.PadStart2Value | src/components/RawPasteModal.tsx:55-56 | a padded day or month has two digits and the value of the digits it pads |
| RawPasteModal.FormattedBrDateShape | src/components/RawPasteModal.tsx:47-58 | the rebuilt text has the YYYY-MM-DD shape iff the year has four digits once completed, and then names the parts' date |
| RawPasteModal.FormattedBrDateValid | src/components/RawPasteModal.tsx:58-65 | the rebuilt text is read back in UTC as the day it names iff its year has four digits and that day exists; a rolled-over date never passes the getter comparison |
| RawPasteModal.BrTextParts | src/components/RawPasteModal.tsx:44-47 | day, month and year joined by slashes split back into them and do not have the YYYY-MM-DD shape |
| RawPasteModal.ParseDateResult | src/components/RawPasteModal.tsx:22-75 | the result is today's date or a YYYY-MM-DD text with month 01..12 and day 01..31; unless it is the trimmed input kept unchanged, it names a real day |
| RawPasteModal.ParseDateIso | src/components/RawPasteModal.tsx:34-40 | a trimmed YYYY-MM-DD text is kept iff its month is 01..12 and its day 01..31, otherwise today's date; the code as written and the corrected reader agree on it |
| RawPasteModal.ParseDateRollover | src/components/RawPasteModal.tsx:34-40 | `new Date("2024-02-30")` is 1 March 2024, so `2024-02-30` is kept unchanged |
| RawPasteModal.ParseDateBrazilian | src/components/RawPasteModal.tsx:43-74 | DD/MM/YYYY and DD/MM/YY become YYYY-MM-DD with day and month zero-padded and a two-digit year completed exactly when that day exists, and today's date otherwise |
| RawPasteModal.AsWrittenEastOfUtc | src/components/RawPasteModal.tsx:61-65 | at UTC and east of it the code as written reads every date as intended |
| RawPasteModal.AsWrittenWestOfUtc | src/components/RawPasteModal.tsx:61-65 | west of UTC the code as written accepts no DD/MM/YYYY text, every one becoming today's date |
| RawPasteModal.AsWrittenBrasilia | src/components/RawPasteModal.tsx:61-65 | at UTC-3 the code as written turns 15/03/2024 into today's date where 2024-03-15 was meant |
| RawPasteModal.NormalizeType | src/components/RawPasteModal.tsx:77-92 | the type is always 'saida', 'entrada' or 'transferencia' |
| RawPasteModal.NormalizeTypeCases | src/components/RawPasteModal.tsx:77-92 | expense words give 'saida' and transfer words 'transferencia' whatever their case and surrounding spaces, and every other text, the empty one included, gives 'entrada' |
| RawPasteModal.WordListsApart | src/components/RawPasteModal.tsx:82-87 | no word is both a transfer word and an expense or income word, and the empty text is in neither list |
| RawPasteModal.StripDollar | src/components/RawPasteModal.tsx:100 | stripping removes every dollar sign and changes nothing in a text without one |
| RawPasteModal.ReadSettled | src/components/RawPasteModal.tsx:156-157 | the number read is never negative |
| RawPasteModal.ReadCleaned | src/components/RawPasteModal.tsx:154-157 | the number read from a cleaned text is never negative |
| RawPasteModal.ParseAmount | src/components/RawPasteModal.tsx:94-161 | the amount is never negative and an empty text is 0 |
| RawPasteModal.ParseAmountNoDigit | src/components/RawPasteModal.tsx:94-161 | a text with no digit is amount 0 |
| RawPasteModal.CleanAmountPlain | src/components/RawPasteModal.tsx:98-102 | a text of digits, dots and commas comes out of the cleaning untouched |
| RawPasteModal.CleanAmountCurrency | src/components/RawPasteModal.tsx:98-102 | a leading 'R$' and the spaces after it are dropped |
| RawPasteModal.ParseDigitsText | src/components/RawPasteModal.tsx:154 | the final filter leaves a text of digits, dots and minus signs as it is |
| RawPasteModal.CurrencyIgnored | src/components/RawPasteModal.tsx:94-161 | a leading 'R$' and spaces do not change the amount |
| RawPasteModal.ParseAmountBrazilian | src/components/RawPasteModal.tsx:107-115 | with a dot and a comma followed by at most two digits, the dots are thousands marks and the comma the decimal point, so t.u,c reads as tu.c |
| RawPasteModal.BrazilianMarks | src/components/RawPasteModal.tsx:107-115 | the Brazilian marks are settled into digits, one point and the cents |
| RawPasteModal.ReadDecimal | src/components/RawPasteModal.tsx:156-157 | a settled digits-point-cents text reads as the decimal it writes |
| RawPasteModal.ParseAmountExample | src/components/RawPasteModal.tsx:106-115 | 1.391,76 reads as 1391.76 |
| RawPasteModal.ParseAmountExampleCurrency | src/components/RawPasteModal.tsx:94-161 | R$ 1.391,76 reads as 1391.76 as well |
| RawPasteModal.DotDecimalMarks | src/components/RawPasteModal.tsx:130-134 | a single dot followed by at most two digits is kept as the decimal point |
| RawPasteModal.ParseAmountCommaDecimal | src/components/RawPasteModal.tsx:117-122 | with only a comma and one or two digits after it, the comma is the decimal point, so 12,5 reads as 12.5 |
| RawPasteModal.CommaDecimalMarks | src/components/RawPasteModal.tsx:117-122 | the lone comma before at most two digits becomes the point |
| RawPasteModal.ParseAmountCommaThousands | src/components/RawPasteModal.tsx:117-127 | with only a comma and three or more digits after it, the comma is a thousands mark, so 1,500 reads as 1500 |
| RawPasteModal.CommaThousandsMarks | src/components/RawPasteModal.tsx:123-127 | a lone comma before three or more digits is removed |
| RawPasteModal.SpaceRun | src/components/RawPasteModal.tsx:213 | the run of whitespace at the start ends at the first non-space character or at the end |
| RawPasteModal.SplitWide | src/components/RawPasteModal.tsx:213 | a split always has a value; the first is empty iff the text is empty or starts with a wide gap, and otherwise starts with the text's first character |
| RawPasteModal.SplitWideFields | src/components/RawPasteModal.tsx:213 | no value holds two whitespace characters in a row, those runs being the separators |
| RawPasteModal.SplitWideSingle | src/components/RawPasteModal.tsx:213 | a text without such a run is a single value |
| RawPasteModal.SplitWideSeparator | src/components/RawPasteModal.tsx:213 | a value, a wide gap and the rest split into the value followed by the rest's values |
| RawPasteModal.LineRow | src/components/RawPasteModal.tsx:204-248 | a line gives a row iff it splits into at least six values |
| RawPasteModal.Rows | src/components/RawPasteModal.tsx:200-250 | there are no more rows than lines |
| RawPasteModal.RowsAppend | src/components/RawPasteModal.tsx:200-250 | lines are read independently: the rows of two blocks are the rows of each, in order |
| RawPasteModal.ParseRawTextLines | src/components/RawPasteModal.tsx:200-250 | lines joined by line feeds are read back line by line |
| RawPasteModal.TabRow | src/components/RawPasteModal.tsx:176-247 | six tab-separated fields make one row, ordered date, description, amount, type, bank, category when the third field looks like an amount, and date, description, type, category, bank, amount otherwise |
| RawPasteModal.SemicolonValues | src/components/RawPasteModal.tsx:209-216 | a line of tab-free values separated by semicolons splits at the semicolons into the trimmed values |
| RawPasteModal.RowItem | src/components/RawPasteModal.tsx:278-323 | the item of a row, dated by `parseDate` as written in the local time zone, is built only with a description and a positive amount, and its type is 'saida', 'entrada' or 'transferencia' |
| RawPasteModal.RowItemCorrected | src/components/RawPasteModal.tsx:278-323 | with the corrected date reader an item is likewise built only with a description and a positive amount |
| RawPasteModal.RowItemEastOfUtc | src/components/RawPasteModal.tsx:278-323 | at UTC and east of it a row's item is the one the corrected date reader gives |
| RawPasteModal.RowItemWestOfUtc | src/components/RawPasteModal.tsx:278-323 | west of UTC the item of a DD/MM/YYYY or DD/MM/YY row is dated today, where the corrected reader dates it with the day typed |
| RawPasteModal.RowItems | src/components/RawPasteModal.tsx:276 | one outcome per row |
| RawPasteModal.ImportAll | src/components/RawPasteModal.tsx:276-341 | the loop gives the tally ImportItems defines; every item is counted once as a success, an error, a skip or a duplicate, and the successes are the inserted items |
| RawPasteModal.HandleImport | src/components/RawPasteModal.tsx:252-341 | the rows, dated as written in the local time zone, give the tally ImportItems defines; every row is counted once, and the successes are the inserted items |
| RawPasteModal.HandleImportCorrected | src/components/RawPasteModal.tsx:252-341 | the same import with the rows dated by the corrected reader |
| RawPasteModal.ImportEastOfUtc | src/components/RawPasteModal.tsx:276-323 | at UTC and east of it the items the import builds are those of the corrected import |
| RawPasteModal.ImportNext | src/components/RawPasteModal.tsx:276-341 | the tally of one more item is the next step from the tally so far |
| RawPasteModal.ImportFresh | src/components/RawPasteModal.tsx:299-336 | an import never inserts the same date, description and amount twice nor one the table already had, and every inserted item has a description and a positive amount |
| RawPasteModal.RowItemsChecked | src/components/RawPasteModal.tsx:278-292 | the items built from pasted rows all pass the basic checks, with either date reader |
| RawPasteModal.ImportNothingValid | src/components/RawPasteModal.tsx:281-292 | when no row passes the basic checks every row is skipped and nothing is inserted |

## Left out

- Floating point. Amounts are exact `real`s, so IEEE-754 rounding, `toFixed` and number-to-text conversion are not modelled. `Math.round` of the similarity score is exact rounding of a non-negative ratio.
- Numbers: `parseFloat` and `Number` read decimal text only. Exponent notation, `Infinity` and hexadecimal literals are not read.
- CreditCardUtils.PartNumber: `Number` of a part reads a decimal literal, a blank part as 0 and a missing part as NaN. Exponent, hexadecimal and `Infinity` forms are read as NaN, as the line above says.
- CreditCardUtils.CalculateDueDate: a year or month with a fractional part gives None. The source instead prints the fractional month (`2025-1.5` would give a month text `2.5`). Texts built by `calculateInvoiceReferenceMonth` never have one.
- RawPasteModal.DateOnly: `new Date(text)` is modelled as V8 (the engine of Chromium, Electron and Node) parses `YYYY-MM-DD`. Other engines reject a day past the month's end, where V8 rolls it over. A pasted `DD/MM/YYY` date with a three-digit year builds a text of another shape, which V8 hands to its engine-specific fallback parser. The model treats that text as an invalid date, so such a row is dated today.
- JavaScript `Date` and date-fns. Month keys, month names, `addMonths`/`subMonths` formatting, `toLocaleDateString` and `new Date(created_at)` read in local time are parameters. The clock is the `today` parameter, or a period length in milliseconds for the dashboard's `getDateRange`.
- The time zone enters only the pasted-text date reader and the pasted-text import, as a UTC offset in minutes. Daylight-saving changes within a day are not modelled.
- Whitespace is the ASCII set for JavaScript `trim`, Python `strip` and regex `\s`. The other characters those also remove are not modelled: Unicode spaces and, for Python `strip` and `re`'s `\s`, the ASCII separators `\x1c`-`\x1f`.
- Case mapping covers ASCII and Latin-1 letters only. Letters whose upper case is longer (such as `ß`) are not modelled.
- Accent stripping (`normalize('NFD')` and removal of combining marks) is a parameter. This holds in the duplicate detector and in the type comparison of the bills page.
- `localeCompare('pt-BR')` sorts are modelled by code-unit order. The accent-sensitive name comparison of budgets is the parameter `sameName`.
- JavaScript puts integer-like object keys first. The model keeps a `Record`'s keys in insertion order. Strings are sequences of code points rather than UTF-16 code units.
- DashboardData.SharesOf: a percentage with a zero total is `None`, where JavaScript produces `NaN` or `Infinity`.
- The dashboard's `monthlyTrends` labels (`format(…, 'MMM/yy')` with the Portuguese locale) and their `localeCompare` sort are not modelled. The monthly buckets they are built from are.
- Database and network calls are not modelled; fetched rows are parameters and each reply is a parameter. A mutation is modelled as the request it sends. Not modelled:
  - query caching, invalidation and retries;
  - toasts, `console` logging and JSX rendering;
  - `downloadTemplate` of the CSV import dialog.
- The bill mutations of `src/hooks/useContasLogic.ts` (create, update, adjust, delete and toggle paid) are not modelled, being single database writes with no rule of their own. The same holds for the budget delete of `src/hooks/useOrcamentos.ts` and the charge delete and toggle of the charges page.
- The bulk-edit category table `CATEGORIES_BY_TYPE_AND_UNIT` is a parameter rather than the constant data.
- `handleInputChange` of the bill form is modelled for its six known fields. A mistyped field name or a value of the wrong type is not.
- Currency formatting (`Intl.NumberFormat`) is display only and is not modelled.
- `formatInvoiceMonth` gives the invoice month's name through `toLocaleDateString`. It is not modelled, so `getInvoiceInfo` is modelled for its reference month and due date only.
- `getProgressColor` of the budget cards is not modelled, because nothing calls it.
- PDF text extraction (`extractTextFromPDF`, pdfjs) is left out, and the parsers take the extracted text. The transaction regular expressions are parameters giving their match groups. The year and date shapes are written out.
- `toTitleCase` of the offline launches page is not part of this model.
- `scripts/sql-to-csv.py` has three parts that are not modelled:
  - reading the dump file, `os.makedirs`, the progress messages and the `__main__` block with its fixed paths;
  - the export, which is modelled as the files and their CSV text;
  - Python's `csv.writer`, which is modelled only by its minimal quoting.
- The backup scripts' JSON files are modelled as the rows they encode, not as `JSON.stringify` text.
- Id generation, the local database and IPC layers, and the table-copy scripts are not part of this model.

The dump converter is modelled as `scripts/sql-to-csv.py` is written. Where that script differs from a plain reading of the COPY text format, the model follows the script:
- Each data line is stripped of surrounding whitespace before it is split on tabs. An empty first or last cell at the edge of a line is therefore lost.
- A block is found only when its `\.` terminator is followed by a line feed.

## Findings

| source | as written | input that shows it | evidently intended | confidence | as-written member | corrected member |
|---|---|---|---|---|---|---|
| src/components/RawPasteModal.tsx:61-65 | The date is checked with `new Date("YYYY-MM-DD")`, which is UTC midnight, but is read back with the local `getFullYear`/`getMonth`/`getDate`. West of UTC that is the previous day, so every `DD/MM/YYYY` date fails the validation and becomes today. | `15/03/2024` pasted in Brasilia (UTC-3) | `2024-03-15`, the date typed | not executed | RawPasteModal.AsWrittenBrasilia | RawPasteModal.ParseDateBrazilian |
| src/hooks/useFinancialMutations.ts:78 | The bulk delete puts an entry in the items group only when its source is empty (`!item.source`). An entry with any other source that is not a summary tag lands in no group and is not deleted. Such sources include `CSV Import` and `Raw Paste Import`. | bulk-deleting one entry whose source is `CSV Import` | the entry is deleted from `financial_items`, as the single delete does | not executed | FinancialMutations.CsvImportNotBulkDeleted | FinancialMutations.CsvImportDeleted |
