/**
 * The budget progress cards of src/components/orcamentos/OrcamentosProgress.tsx:
 * how much of each budget is spent, the status icon, the capped progress
 * bar and the two warnings, and the same for all budgets together.
 *
 * A budget's percentage divides by its limit, which may be 0; the division
 * is modelled with JavaScript's results for a zero divisor (an infinity,
 * or NaN for 0 / 0).
 */
module OrcamentosProgress {
  import opened Wrappers
  import Records

  /** The fields of an `Orcamento` the cards read. */
  datatype Orcamento = Orcamento(category: string, limitAmount: real, alertThreshold: Option<real>)

  /** A JavaScript number as a percentage can be: finite, an infinity, or NaN. */
  datatype Percent = Finite(v: real) | PosInfinity | NegInfinity | NotANumber

  /** `(part / whole) * 100`. */
  function PercentOf(part: real, whole: real): (p: Percent)
    ensures whole != 0.0 ==> p.Finite? && p.v * whole == part * 100.0
    ensures whole == 0.0 ==> (p == PosInfinity <==> part > 0.0) && (p == NegInfinity <==> part < 0.0) && (p == NotANumber <==> part == 0.0)
  {
    if whole != 0.0 then Finite(part / whole * 100.0)
    else if part > 0.0 then PosInfinity
    else if part < 0.0 then NegInfinity
    else NotANumber
  }

  /** `p >= t`; NaN compares false. */
  predicate AtLeast(p: Percent, t: real)
  {
    match p
    case Finite(v) => v >= t
    case PosInfinity => true
    case NegInfinity => false
    case NotANumber => false
  }

  /** `p < t`; NaN compares false. */
  predicate Below(p: Percent, t: real)
  {
    match p
    case Finite(v) => v < t
    case PosInfinity => false
    case NegInfinity => true
    case NotANumber => false
  }

  /** The three looks of a budget. */
  datatype Status = Exceeded | NearLimit | OnTrack

  /** `getStatusIcon` (and `getProgressColor`): red at 100% or more, orange at the threshold or more, green otherwise. */
  function StatusOf(p: Percent, alertThreshold: real): Status
  {
    if AtLeast(p, 100.0) then Exceeded
    else if AtLeast(p, alertThreshold) then NearLimit
    else OnTrack
  }

  /** `Math.min(p, 100)`; NaN stays NaN. */
  function Capped(p: Percent): (c: Percent)
    ensures c.Finite? ==> c.v <= 100.0
    ensures c.Finite? <==> p.Finite? || p == PosInfinity
    ensures p.Finite? && p.v <= 100.0 ==> c == p
    ensures AtLeast(p, 100.0) ==> c == Finite(100.0)
  {
    match p
    case Finite(v) => if v < 100.0 then p else Finite(100.0)
    case PosInfinity => Finite(100.0)
    case NegInfinity => NegInfinity
    case NotANumber => NotANumber
  }

  /** The classification follows the comparisons with 100 and with the threshold. */
  lemma StatusSpec(p: Percent, alertThreshold: real)
    ensures StatusOf(p, alertThreshold) == Exceeded <==> AtLeast(p, 100.0)
    ensures StatusOf(p, alertThreshold) == NearLimit <==> AtLeast(p, alertThreshold) && !AtLeast(p, 100.0)
    ensures StatusOf(p, alertThreshold) == OnTrack <==> !AtLeast(p, alertThreshold) && !AtLeast(p, 100.0)
    ensures p.Finite? ==> (StatusOf(p, alertThreshold) == NearLimit <==> alertThreshold <= p.v < 100.0)
  {
  }

  // ------------------------------------------------------------ one budget

  /** What one budget card shows. */
  datatype Card = Card(gasto: real, percentual: Percent, alertThreshold: real, bar: Percent, status: Status, nearMessage: bool, exceededMessage: bool)

  /** `alert_threshold || 80`: absent or 0 gives 80. */
  function ThresholdOf(orcamento: Orcamento): real
  {
    if orcamento.alertThreshold.None? || orcamento.alertThreshold.value == 0.0 then 80.0 else orcamento.alertThreshold.value
  }

  /** The card of one budget. */
  function CardOf(orcamento: Orcamento, gastos: Records.Record): Card
  {
    var gasto := Records.Get(gastos, orcamento.category);
    var percentual := PercentOf(gasto, orcamento.limitAmount);
    var alertThreshold := ThresholdOf(orcamento);
    Card(gasto, percentual, alertThreshold, Capped(percentual), StatusOf(percentual, alertThreshold),
      AtLeast(percentual, alertThreshold) && Below(percentual, 100.0),
      AtLeast(percentual, 100.0))
  }

  /**
   * A category without spending counts as 0 spent; a missing or zero
   * threshold is 80, any other is kept.
   */
  lemma CardDefaults(orcamento: Orcamento, gastos: Records.Record)
    ensures orcamento.category !in gastos.values ==> CardOf(orcamento, gastos).gasto == 0.0
    ensures orcamento.category in gastos.values ==> CardOf(orcamento, gastos).gasto == gastos.values[orcamento.category]
    ensures orcamento.alertThreshold.None? ==> CardOf(orcamento, gastos).alertThreshold == 80.0
    ensures orcamento.alertThreshold == Some(0.0) ==> CardOf(orcamento, gastos).alertThreshold == 80.0
    ensures orcamento.alertThreshold.Some? && orcamento.alertThreshold.value != 0.0 ==> CardOf(orcamento, gastos).alertThreshold == orcamento.alertThreshold.value
  {
  }

  /**
   * The two warnings never show together; "Limite ultrapassado!" shows
   * exactly when the icon is red and "Próximo do limite!" exactly when it
   * is orange, which for a finite percentage means threshold <= pct < 100.
   */
  lemma {:induction false} CardMessages(orcamento: Orcamento, gastos: Records.Record)
    ensures !(CardOf(orcamento, gastos).nearMessage && CardOf(orcamento, gastos).exceededMessage)
    ensures CardOf(orcamento, gastos).exceededMessage <==> CardOf(orcamento, gastos).status == Exceeded
    ensures CardOf(orcamento, gastos).nearMessage <==> CardOf(orcamento, gastos).status == NearLimit
    ensures var c := CardOf(orcamento, gastos);
      c.percentual.Finite? ==> (c.nearMessage <==> c.alertThreshold <= c.percentual.v < 100.0)
  {
    var c := CardOf(orcamento, gastos);
    StatusSpec(c.percentual, c.alertThreshold);
  }

  /** The bar is never above 100, and shows the percentage itself up to 100. */
  lemma CardBar(orcamento: Orcamento, gastos: Records.Record)
    ensures var c := CardOf(orcamento, gastos);
      (c.bar.Finite? ==> c.bar.v <= 100.0) &&
      (c.percentual.Finite? && c.percentual.v <= 100.0 ==> c.bar == c.percentual) &&
      (c.status == Exceeded ==> c.bar == Finite(100.0))
  {
  }

  // ------------------------------------------------------------ all budgets

  /** `orcamentos.reduce((sum, orc) => sum + orc.limit_amount, 0)`. */
  function TotalOrcamento(orcamentos: seq<Orcamento>): real
  {
    if orcamentos == [] then 0.0 else TotalOrcamento(orcamentos[..|orcamentos| - 1]) + orcamentos[|orcamentos| - 1].limitAmount
  }

  /** The summary card. */
  datatype Summary = Summary(totalOrcamento: real, totalGasto: real, percentualGeral: real, bar: real, status: Status, disponivel: real)

  /** `percentualGeral`: 0 unless the total budget is positive. */
  function PercentualGeral(totalGasto: real, totalOrcamento: real): real
  {
    if totalOrcamento > 0.0 then totalGasto / totalOrcamento * 100.0 else 0.0
  }

  /** The summary of all budgets against all spending. */
  function SummaryOf(orcamentos: seq<Orcamento>, gastos: Records.Record): Summary
  {
    var totalOrcamento := TotalOrcamento(orcamentos);
    var totalGasto := Records.Total(gastos);
    var percentualGeral := PercentualGeral(totalGasto, totalOrcamento);
    Summary(totalOrcamento, totalGasto, percentualGeral, if percentualGeral < 100.0 then percentualGeral else 100.0,
      StatusOf(Finite(percentualGeral), 80.0), totalOrcamento - totalGasto)
  }

  /**
   * With no positive total budget the overall percentage is 0 and the icon
   * green; otherwise the percentage times the total budget is 100 times the
   * total spent. The bar is the percentage capped at 100; what is left is
   * the budget less the spending.
   */
  lemma SummarySpec(orcamentos: seq<Orcamento>, gastos: Records.Record)
    ensures var s := SummaryOf(orcamentos, gastos);
      (s.totalOrcamento <= 0.0 ==> s.percentualGeral == 0.0 && s.status == OnTrack) &&
      (s.totalOrcamento > 0.0 ==> s.percentualGeral * s.totalOrcamento == s.totalGasto * 100.0) &&
      s.bar <= 100.0 && (s.percentualGeral <= 100.0 ==> s.bar == s.percentualGeral) &&
      s.disponivel + s.totalGasto == s.totalOrcamento
  {
  }

  /** The overall icon is red once everything budgeted is spent, and green while under 80%. */
  lemma SummaryStatus(orcamentos: seq<Orcamento>, gastos: Records.Record)
    requires TotalOrcamento(orcamentos) > 0.0
    ensures Records.Total(gastos) >= TotalOrcamento(orcamentos) ==> SummaryOf(orcamentos, gastos).status == Exceeded
    ensures Records.Total(gastos) * 100.0 < TotalOrcamento(orcamentos) * 80.0 ==> SummaryOf(orcamentos, gastos).status == OnTrack
  {
    PercentBounds(Records.Total(gastos), TotalOrcamento(orcamentos));
  }

  /** `g / t * 100` reaches 100 when `g >= t` and stays under 80 when `100 g < 80 t`. */
  lemma PercentBounds(g: real, t: real)
    requires t > 0.0
    ensures g >= t ==> g / t * 100.0 >= 100.0
    ensures g * 100.0 < t * 80.0 ==> g / t * 100.0 < 80.0
  {
    var q := g / t;
    assert (q - 1.0) * t == g - t;
    var r := q * 100.0 - 80.0;
    assert r * t == g * 100.0 - t * 80.0;
  }

  /** Adding a budget adds its limit to the total budget. */
  lemma {:induction false} TotalOrcamentoConcat(a: seq<Orcamento>, b: seq<Orcamento>)
    ensures TotalOrcamento(a + b) == TotalOrcamento(a) + TotalOrcamento(b)
  {
    if b == [] {
      assert a + b == a;
    } else {
      var n := |b| - 1;
      assert (a + b)[..|a + b| - 1] == a + b[..n];
      TotalOrcamentoConcat(a, b[..n]);
    }
  }
}
