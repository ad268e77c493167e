/**
 * The conversions of src/utils/financialDataTransforms.ts that show a
 * monthly expense summary or a monthly income summary as an entry of the
 * entries page.
 */
module FinancialDataTransforms {
  import opened Wrappers
  import FinancialMutations

  /** `FinancialItem`; a null source is None. */
  datatype FinancialItem = FinancialItem(
    id: string, createdAt: string, date: string, kind: string, amount: real,
    description: string, category: string, bank: string, source: Option<string>, userId: string)

  /** `FinancialSummary`: one month's spending in a category. */
  datatype FinancialSummary = FinancialSummary(id: string, createdAt: string, month: string, category: string, totalValue: real, userId: string)

  /** `IncomeSummary`: one month's income from a source. */
  datatype IncomeSummary = IncomeSummary(id: string, createdAt: string, month: string, source: string, totalValue: real, userId: string)

  const SummaryPrefix := "Resumo mensal - "
  const IncomePrefix := "Receita mensal - "

  /** `summaryToItem`. */
  function SummaryToItem(summary: FinancialSummary): (item: FinancialItem)
    ensures item.kind == "saida" && item.source == Some(FinancialMutations.SummarySource) && item.bank == "RESUMO MENSAL"
    ensures item.id == summary.id && item.createdAt == summary.createdAt && item.userId == summary.userId
    ensures item.date == summary.month && item.amount == summary.totalValue && item.category == summary.category
    ensures item.description == SummaryPrefix + summary.category
  {
    FinancialItem(summary.id, summary.createdAt, summary.month, "saida", summary.totalValue,
      SummaryPrefix + summary.category, summary.category, "RESUMO MENSAL", Some("financial_summary"), summary.userId)
  }

  /** `incomeSummaryToItem`. */
  function IncomeSummaryToItem(summary: IncomeSummary): (item: FinancialItem)
    ensures item.kind == "entrada" && item.source == Some(FinancialMutations.IncomeSummarySource) && item.bank == "RECEITA MENSAL"
    ensures item.id == summary.id && item.createdAt == summary.createdAt && item.userId == summary.userId
    ensures item.date == summary.month && item.amount == summary.totalValue && item.category == summary.source
    ensures item.description == IncomePrefix + summary.source
  {
    FinancialItem(summary.id, summary.createdAt, summary.month, "entrada", summary.totalValue,
      IncomePrefix + summary.source, summary.source, "RECEITA MENSAL", Some("financial_summary_income"), summary.userId)
  }

  /** The summary an entry shows, read back from its fields. */
  function SummaryOf(item: FinancialItem): FinancialSummary
  {
    FinancialSummary(item.id, item.createdAt, item.date, item.category, item.amount, item.userId)
  }

  /** The income summary an entry shows, read back from its fields. */
  function IncomeSummaryOf(item: FinancialItem): IncomeSummary
  {
    IncomeSummary(item.id, item.createdAt, item.date, item.category, item.amount, item.userId)
  }

  /** The shown entry keeps everything of the summary: reading it back gives the summary. */
  lemma SummaryRoundTrip(summary: FinancialSummary)
    ensures SummaryOf(SummaryToItem(summary)) == summary
    ensures SummaryToItem(summary).description[|SummaryPrefix|..] == summary.category
  {
  }

  /** The shown income entry keeps everything of the summary: reading it back gives the summary. */
  lemma IncomeSummaryRoundTrip(summary: IncomeSummary)
    ensures IncomeSummaryOf(IncomeSummaryToItem(summary)) == summary
    ensures IncomeSummaryToItem(summary).description[|IncomePrefix|..] == summary.source
  {
  }

  /** Two different summaries are shown as different entries. */
  lemma SummaryToItemInjective(a: FinancialSummary, b: FinancialSummary)
    ensures SummaryToItem(a) == SummaryToItem(b) ==> a == b
  {
    SummaryRoundTrip(a);
    SummaryRoundTrip(b);
  }

  /** The fields a delete reads. */
  function ForDelete(item: FinancialItem): FinancialMutations.Item
  {
    FinancialMutations.Item(item.id, item.source)
  }

  /**
   * Deleting a shown summary goes back to the table it came from: expense
   * summaries to `financial_summary`, income summaries to
   * `financial_summary_income`.
   */
  lemma SummariesRouteHome(summary: FinancialSummary, income: IncomeSummary)
    ensures FinancialMutations.RouteOf(ForDelete(SummaryToItem(summary))) == FinancialMutations.FinancialSummary
    ensures FinancialMutations.RouteOf(ForDelete(IncomeSummaryToItem(income))) == FinancialMutations.FinancialSummaryIncome
  {
  }
}
