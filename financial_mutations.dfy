/**
 * Deleting entries (src/hooks/useFinancialMutations.ts). An entry shown
 * on the entries page lives in one of three tables, told apart by its
 * `source`: the monthly expense summaries, the monthly income summaries,
 * or the plain items. A single delete routes by that tag; a bulk delete
 * splits the selected ids into three groups and issues one delete per
 * non-empty group, in order, adding up the counts the database reports.
 *
 * The database is the parameter `reply`: for each request, the error it
 * returns, if any, and the count it reports, if any.
 */
module FinancialMutations {
  import opened Wrappers
  import Lists

  /** The fields of a `FinancialItem` the deletes read; a null source is None. */
  datatype Item = Item(id: string, source: Option<string>)

  /** The three tables an entry can come from. */
  datatype Table = FinancialItems | FinancialSummary | FinancialSummaryIncome

  const SummarySource := "financial_summary"
  const IncomeSummarySource := "financial_summary_income"

  /** The table a single delete goes to: by the two summary tags, anything else to the items. */
  function RouteOf(item: Item): (t: Table)
    ensures t == FinancialSummary <==> item.source == Some(SummarySource)
    ensures t == FinancialSummaryIncome <==> item.source == Some(IncomeSummarySource)
    ensures t == FinancialItems <==> item.source != Some(SummarySource) && item.source != Some(IncomeSummarySource)
  {
    if item.source == Some(SummarySource) then FinancialSummary
    else if item.source == Some(IncomeSummarySource) then FinancialSummaryIncome
    else FinancialItems
  }

  /** `allItems.find(item => item.id === id)`. */
  function Find(allItems: seq<Item>, id: string): (r: Option<Item>)
    ensures r.None? <==> forall i :: 0 <= i < |allItems| ==> allItems[i].id != id
    ensures r.Some? ==> r.value in allItems && r.value.id == id
  {
    if allItems == [] then None
    else if allItems[0].id == id then Some(allItems[0])
    else
      var r := Find(allItems[1..], id);
      assert forall i :: 1 <= i < |allItems| ==> allItems[i] == allItems[1..][i - 1];
      r
  }

  /** One delete request: `supabase.from(table).delete()` on the given ids. */
  datatype Request = Request(table: Table, ids: seq<string>)

  /** What the database answers a request. */
  datatype Reply = Reply(error: Option<string>, count: Option<nat>)

  /** The single delete's outcome: the request it issued and one deleted entry, or the error. */
  datatype Deleted = Deleted(request: Request, deleted: nat)

  /**
   * `deleteMutation`: an unknown id fails before anything is sent;
   * otherwise one delete on the entry's table, failing with the database's
   * error.
   */
  function DeleteOne(allItems: seq<Item>, id: string, reply: Request -> Reply): (r: Result<Deleted>)
    ensures Find(allItems, id).None? ==> r == Err("Item não encontrado")
    ensures r.Ok? ==> (Find(allItems, id).Some? && r.value.deleted == 1 &&
      r.value.request == Request(RouteOf(Find(allItems, id).value), [id]))
  {
    match Find(allItems, id)
    case None => Err("Item não encontrado")
    case Some(item) =>
      var request := Request(RouteOf(item), [id]);
      if reply(request).error.Some? then Err(reply(request).error.value) else Ok(Deleted(request, 1))
  }

  /** A single delete of a known id fails only when the database reports an error. */
  lemma DeleteOneKnown(allItems: seq<Item>, id: string, reply: Request -> Reply, k: nat)
    requires k < |allItems| && allItems[k].id == id
    ensures DeleteOne(allItems, id, reply).Err? <==> reply(Request(RouteOf(Find(allItems, id).value), [id])).error.Some?
  {
  }

  /** `allItems.filter(item => ids.includes(item.id))`. */
  function ItemsToDelete(allItems: seq<Item>, ids: seq<string>): seq<Item>
  {
    Lists.Filter(allItems, (item: Item) => item.id in ids)
  }

  /** The ids of the items, in order. */
  function Ids(items: seq<Item>): (r: seq<string>)
    ensures |r| == |items| && forall i :: 0 <= i < |items| ==> r[i] == items[i].id
  {
    seq(|items|, i requires 0 <= i < |items| => items[i].id)
  }

  /** `!item.source`: a null or empty source. */
  predicate NoSource(item: Item)
  {
    item.source == None || item.source == Some("")
  }

  /** The items the bulk delete sends to the given table, as the code is written. */
  function GroupAsWritten(items: seq<Item>, table: Table): seq<Item>
  {
    match table
    case FinancialItems => Lists.Filter(items, NoSource)
    case FinancialSummary => Lists.Filter(items, (item: Item) => item.source == Some(SummarySource))
    case FinancialSummaryIncome => Lists.Filter(items, (item: Item) => item.source == Some(IncomeSummarySource))
  }

  /** The items the bulk delete, corrected, sends to the given table: those a single delete sends there. */
  function Group(items: seq<Item>, table: Table): seq<Item>
  {
    Lists.Filter(items, (item: Item) => RouteOf(item) == table)
  }

  /** The three requests of the bulk delete as written, in the order they are issued, each on its group's ids. */
  function Requests(items: seq<Item>): (r: seq<Request>)
    ensures |r| == 3
    ensures r[0].table == FinancialItems && r[1].table == FinancialSummary && r[2].table == FinancialSummaryIncome
  {
    [Request(FinancialItems, Ids(GroupAsWritten(items, FinancialItems))),
     Request(FinancialSummary, Ids(GroupAsWritten(items, FinancialSummary))),
     Request(FinancialSummaryIncome, Ids(GroupAsWritten(items, FinancialSummaryIncome)))]
  }

  /** The three requests of the corrected bulk delete, each on the ids a single delete sends to its table. */
  function RequestsCorrected(items: seq<Item>): (r: seq<Request>)
    ensures |r| == 3
    ensures r[0].table == FinancialItems && r[1].table == FinancialSummary && r[2].table == FinancialSummaryIncome
  {
    [Request(FinancialItems, Ids(Group(items, FinancialItems))),
     Request(FinancialSummary, Ids(Group(items, FinancialSummary))),
     Request(FinancialSummaryIncome, Ids(Group(items, FinancialSummaryIncome)))]
  }

  /** The outcome of running requests in order: what was sent, and the total or the first error. */
  datatype Run = Run(sent: seq<Request>, result: Result<nat>)

  /**
   * Each request with ids is sent; the first error stops the rest; each
   * reported count is added, a missing one as 0.
   */
  function RunFrom(requests: seq<Request>, reply: Request -> Reply, total: nat): Run
  {
    if requests == [] then Run([], Ok(total))
    else if requests[0].ids == [] then RunFrom(requests[1..], reply, total)
    else if reply(requests[0]).error.Some? then Run([requests[0]], Err(reply(requests[0]).error.value))
    else
      var rest := RunFrom(requests[1..], reply, total + reply(requests[0]).count.GetOr(0));
      Run([requests[0]] + rest.sent, rest.result)
  }

  /** The requests with ids, in order. */
  function NonEmpty(requests: seq<Request>): seq<Request>
  {
    if requests == [] then []
    else if requests[0].ids == [] then NonEmpty(requests[1..])
    else [requests[0]] + NonEmpty(requests[1..])
  }

  /** The counts reported for the requests, a missing one as 0. */
  function CountSum(requests: seq<Request>, reply: Request -> Reply): nat
  {
    if requests == [] then 0 else reply(requests[0]).count.GetOr(0) + CountSum(requests[1..], reply)
  }

  /** Without errors every request with ids is sent, and the total is the sum of their counts. */
  lemma {:induction false} RunWithoutErrors(requests: seq<Request>, reply: Request -> Reply, total: nat)
    requires forall r :: r in requests && r.ids != [] ==> reply(r).error.None?
    ensures RunFrom(requests, reply, total) == Run(NonEmpty(requests), Ok(total + CountSum(NonEmpty(requests), reply)))
  {
    if requests != [] {
      assert forall r :: r in requests[1..] ==> r in requests;
      if requests[0].ids == [] {
        RunWithoutErrors(requests[1..], reply, total);
        assert NonEmpty(requests) == NonEmpty(requests[1..]);
      } else {
        RunWithoutErrors(requests[1..], reply, total + reply(requests[0]).count.GetOr(0));
        assert NonEmpty(requests) == [requests[0]] + NonEmpty(requests[1..]);
      }
    }
  }

  /** The last request a run sends, when it ends in an error, is the failing one. */
  ghost predicate StopsAtError(run: Run, requests: seq<Request>, reply: Request -> Reply)
  {
    run.result.Err? ==>
      run.sent != [] && run.sent <= NonEmpty(requests) &&
      reply(run.sent[|run.sent| - 1]).error == Some(run.result.error) &&
      forall i :: 0 <= i < |run.sent| - 1 ==> reply(run.sent[i]).error.None?
  }

  /**
   * With an error, the requests sent are the first ones with ids, the last
   * of them the only failing one, and its error is the result.
   */
  lemma {:induction false} RunStopsAtError(requests: seq<Request>, reply: Request -> Reply, total: nat)
    ensures StopsAtError(RunFrom(requests, reply, total), requests, reply)
  {
    if requests != [] && requests[0].ids != [] && reply(requests[0]).error.None? {
      var r0 := requests[0];
      var rest := RunFrom(requests[1..], reply, total + reply(r0).count.GetOr(0));
      RunStopsAtError(requests[1..], reply, total + reply(r0).count.GetOr(0));
      assert RunFrom(requests, reply, total) == Run([r0] + rest.sent, rest.result);
      if rest.result.Err? {
        var sent := [r0] + rest.sent;
        assert NonEmpty(requests) == [r0] + NonEmpty(requests[1..]);
        assert sent[|sent| - 1] == rest.sent[|rest.sent| - 1];
        assert forall i :: 1 <= i < |sent| ==> sent[i] == rest.sent[i - 1];
      }
    } else if requests != [] && requests[0].ids == [] {
      RunStopsAtError(requests[1..], reply, total);
      assert RunFrom(requests, reply, total) == RunFrom(requests[1..], reply, total);
      assert NonEmpty(requests) == NonEmpty(requests[1..]);
    }
  }

  /** `sent` followed by a run. */
  function Prepend(sent: seq<Request>, run: Run): Run
  {
    Run(sent + run.sent, run.result)
  }

  /** One group's block: when it has ids, send them, fail on an error, add the count. */
  method DeleteGroup(request: Request, reply: Request -> Reply, totalDeleted: nat, sent: seq<Request>)
    returns (total: nat, sent': seq<Request>, error: Option<string>)
    ensures request.ids == [] ==> total == totalDeleted && sent' == sent && error == None
    ensures request.ids != [] ==> (sent' == sent + [request] && error == reply(request).error &&
      (error.None? ==> total == totalDeleted + reply(request).count.GetOr(0)))
  {
    total, sent', error := totalDeleted, sent, None;
    if |request.ids| > 0 {
      sent' := sent + [request];
      var answer := reply(request);
      if answer.error.Some? {
        error := answer.error;
        return;
      }
      total := totalDeleted + answer.count.GetOr(0);
    }
  }

  /** After a block that sends nothing or succeeds, the run goes on with the next request. */
  lemma Advance(requests: seq<Request>, reply: Request -> Reply, total: nat, before: seq<Request>, total': nat, after: seq<Request>)
    requires requests != []
    requires requests[0].ids == [] ==> total' == total && after == before
    requires requests[0].ids != [] ==>
      after == before + [requests[0]] && reply(requests[0]).error.None? && total' == total + reply(requests[0]).count.GetOr(0)
    ensures Prepend(before, RunFrom(requests, reply, total)) == Prepend(after, RunFrom(requests[1..], reply, total'))
  {
    if requests[0].ids != [] {
      assert before + ([requests[0]] + RunFrom(requests[1..], reply, total').sent) == after + RunFrom(requests[1..], reply, total').sent;
    }
  }

  /** After a block that fails, the run ends with that block's request and error. */
  lemma Stop(requests: seq<Request>, reply: Request -> Reply, total: nat, before: seq<Request>)
    requires requests != [] && requests[0].ids != [] && reply(requests[0]).error.Some?
    ensures Prepend(before, RunFrom(requests, reply, total)) == Run(before + [requests[0]], Err(reply(requests[0]).error.value))
  {
  }

  /** The three blocks of the bulk delete, one per group, in order. */
  method RunRequests(requests: seq<Request>, reply: Request -> Reply) returns (outcome: Run)
    requires |requests| == 3
    ensures outcome == RunFrom(requests, reply, 0)
  {
    var totalDeleted: nat := 0;
    var sent: seq<Request> := [];
    var error: Option<string>;
    ghost var run := RunFrom(requests, reply, 0);
    assert run == Prepend(sent, RunFrom(requests, reply, totalDeleted));
    ghost var before, total := sent, totalDeleted;
    totalDeleted, sent, error := DeleteGroup(requests[0], reply, totalDeleted, sent);
    if error.Some? {
      Stop(requests, reply, total, before);
      return Run(sent, Err(error.value));
    }
    Advance(requests, reply, total, before, totalDeleted, sent);
    assert requests[1..][0] == requests[1] && requests[1..][1..] == requests[2..];
    before, total := sent, totalDeleted;
    totalDeleted, sent, error := DeleteGroup(requests[1], reply, totalDeleted, sent);
    if error.Some? {
      Stop(requests[1..], reply, total, before);
      return Run(sent, Err(error.value));
    }
    Advance(requests[1..], reply, total, before, totalDeleted, sent);
    assert requests[2..][0] == requests[2] && requests[2..][1..] == [];
    before, total := sent, totalDeleted;
    totalDeleted, sent, error := DeleteGroup(requests[2], reply, totalDeleted, sent);
    if error.Some? {
      Stop(requests[2..], reply, total, before);
      return Run(sent, Err(error.value));
    }
    Advance(requests[2..], reply, total, before, totalDeleted, sent);
    outcome := Run(sent, Ok(totalDeleted));
  }

  /**
   * `deleteMultipleMutation`: an empty selection fails; otherwise the
   * selected entries known to the page are split into the three groups as
   * written (an entry without source, an expense summary, an income
   * summary), whose deletes run in order as `RunFrom` describes.
   */
  method DeleteMultiple(allItems: seq<Item>, ids: seq<string>, reply: Request -> Reply) returns (outcome: Run)
    ensures ids == [] ==> outcome == Run([], Err("Nenhum item selecionado para deletar"))
    ensures ids != [] ==> outcome == RunFrom(Requests(ItemsToDelete(allItems, ids)), reply, 0)
  {
    if |ids| == 0 {
      return Run([], Err("Nenhum item selecionado para deletar"));
    }
    var itemsToDelete := ItemsToDelete(allItems, ids);
    outcome := RunRequests(Requests(itemsToDelete), reply);
  }

  /** The bulk delete with each entry grouped by the table a single delete sends it to. */
  method DeleteMultipleCorrected(allItems: seq<Item>, ids: seq<string>, reply: Request -> Reply) returns (outcome: Run)
    ensures ids == [] ==> outcome == Run([], Err("Nenhum item selecionado para deletar"))
    ensures ids != [] ==> outcome == RunFrom(RequestsCorrected(ItemsToDelete(allItems, ids)), reply, 0)
  {
    if |ids| == 0 {
      return Run([], Err("Nenhum item selecionado para deletar"));
    }
    var itemsToDelete := ItemsToDelete(allItems, ids);
    outcome := RunRequests(RequestsCorrected(itemsToDelete), reply);
  }

  /** The entries to delete are the known entries whose id was selected; unknown ids are ignored. */
  lemma ItemsToDeleteSpec(allItems: seq<Item>, ids: seq<string>, x: Item)
    ensures x in ItemsToDelete(allItems, ids) <==> x in allItems && x.id in ids
    ensures Lists.IsSubsequence(ItemsToDelete(allItems, ids), allItems)
  {
    Lists.FilterMembers(allItems, (item: Item) => item.id in ids, x);
    Lists.FilterSubsequence(allItems, (item: Item) => item.id in ids);
  }

  /**
   * Every entry to delete is in exactly one group, the one for the table a
   * single delete would send it to: the groups are disjoint and cover the
   * selection.
   */
  lemma GroupsPartition(items: seq<Item>, x: Item, table: Table)
    ensures x in Group(items, table) <==> x in items && RouteOf(x) == table
    ensures x in items ==> x in Group(items, RouteOf(x))
  {
    Lists.FilterMembers(items, (item: Item) => RouteOf(item) == table, x);
    Lists.FilterMembers(items, (item: Item) => RouteOf(item) == RouteOf(x), x);
  }

  /**
   * As written, the items group holds the entries without a source (null
   * or empty), and each summary group the entries with its tag.
   */
  lemma GroupsAsWrittenSpec(items: seq<Item>, x: Item)
    ensures x in GroupAsWritten(items, FinancialItems) <==> x in items && NoSource(x)
    ensures x in GroupAsWritten(items, FinancialSummary) <==> x in items && x.source == Some(SummarySource)
    ensures x in GroupAsWritten(items, FinancialSummaryIncome) <==> x in items && x.source == Some(IncomeSummarySource)
  {
    Lists.FilterMembers(items, NoSource, x);
    Lists.FilterMembers(items, (item: Item) => item.source == Some(SummarySource), x);
    Lists.FilterMembers(items, (item: Item) => item.source == Some(IncomeSummarySource), x);
  }

  /**
   * As written, the three groups are still disjoint, but an entry whose
   * source is set and is neither summary tag is in none of them.
   */
  lemma GroupsAsWrittenMiss(items: seq<Item>, x: Item)
    ensures forall t, u :: t != u ==> !(x in GroupAsWritten(items, t) && x in GroupAsWritten(items, u))
    ensures x.source.Some? && x.source.value != "" && RouteOf(x) == FinancialItems ==>
      forall t :: x !in GroupAsWritten(items, t)
  {
    GroupsAsWrittenSpec(items, x);
  }

  /**
   * When every selected entry has no source or one of the two summary tags,
   * the bulk delete as written issues the corrected requests.
   */
  lemma AsWrittenAgrees(items: seq<Item>)
    requires forall i :: 0 <= i < |items| ==>
      NoSource(items[i]) || items[i].source == Some(SummarySource) || items[i].source == Some(IncomeSummarySource)
    ensures Requests(items) == RequestsCorrected(items)
  {
    Lists.FilterAgree(items, NoSource, (item: Item) => RouteOf(item) == FinancialItems);
    Lists.FilterAgree(items, (item: Item) => item.source == Some(SummarySource), (item: Item) => RouteOf(item) == FinancialSummary);
    Lists.FilterAgree(items, (item: Item) => item.source == Some(IncomeSummarySource), (item: Item) => RouteOf(item) == FinancialSummaryIncome);
  }

  /**
   * An entry imported from a CSV file (source 'CSV Import') is deleted
   * from the items table by a single delete, but a bulk delete of it, as
   * written, sends no request at all and reports nothing deleted.
   */
  lemma CsvImportNotBulkDeleted(reply: Request -> Reply)
    ensures var allItems := [Item("a", Some("CSV Import"))];
      DeleteOne(allItems, "a", reply).Ok? ==> DeleteOne(allItems, "a", reply).value.request == Request(FinancialItems, ["a"])
    ensures RunFrom(Requests(ItemsToDelete([Item("a", Some("CSV Import"))], ["a"])), reply, 0) == Run([], Ok(0))
  {
    var allItems := [Item("a", Some("CSV Import"))];
    var items := ItemsToDelete(allItems, ["a"]);
    assert items == allItems;
    assert GroupAsWritten(items, FinancialItems) == [];
    assert GroupAsWritten(items, FinancialSummary) == [];
    assert GroupAsWritten(items, FinancialSummaryIncome) == [];
    var requests := Requests(items);
    assert requests[1..][1..][1..] == [];
  }

  /** With the corrected groups, the same entry is deleted from the items table. */
  lemma CsvImportDeleted(reply: Request -> Reply)
    requires reply(Request(FinancialItems, ["a"])).error.None?
    ensures RunFrom(RequestsCorrected(ItemsToDelete([Item("a", Some("CSV Import"))], ["a"])), reply, 0).sent == [Request(FinancialItems, ["a"])]
  {
    var items := ItemsToDelete([Item("a", Some("CSV Import"))], ["a"]);
    assert items == [Item("a", Some("CSV Import"))];
    assert Group(items, FinancialItems) == items;
    assert Group(items, FinancialSummary) == [];
    assert Group(items, FinancialSummaryIncome) == [];
    var requests := RequestsCorrected(items);
    assert requests[0] == Request(FinancialItems, ["a"]);
    var total := reply(requests[0]).count.GetOr(0);
    var tail1, tail2 := requests[1..], requests[1..][1..];
    assert tail1[0].ids == [] && tail2[0].ids == [] && tail2[1..] == [];
    assert RunFrom(tail2[1..], reply, total) == Run([], Ok(total));
    assert RunFrom(tail2, reply, total) == Run([], Ok(total));
    assert RunFrom(tail1, reply, total) == Run([], Ok(total));
  }

  /**
   * Without database errors, the bulk delete as written sends each
   * non-empty group in the order items, summaries, income summaries, and
   * reports the sum of their counts; the ids sent are those of the selected
   * entries without a source or with a summary tag.
   */
  lemma DeleteMultipleTotal(allItems: seq<Item>, ids: seq<string>, reply: Request -> Reply)
    requires forall r :: reply(r).error.None?
    ensures RunFrom(Requests(ItemsToDelete(allItems, ids)), reply, 0) ==
      Run(NonEmpty(Requests(ItemsToDelete(allItems, ids))), Ok(CountSum(NonEmpty(Requests(ItemsToDelete(allItems, ids))), reply)))
    ensures forall x :: x in ItemsToDelete(allItems, ids) ==>
      ((NoSource(x) ==> x in GroupAsWritten(ItemsToDelete(allItems, ids), FinancialItems)) &&
       (x.source == Some(SummarySource) ==> x in GroupAsWritten(ItemsToDelete(allItems, ids), FinancialSummary)) &&
       (x.source == Some(IncomeSummarySource) ==> x in GroupAsWritten(ItemsToDelete(allItems, ids), FinancialSummaryIncome)))
  {
    var items := ItemsToDelete(allItems, ids);
    RunWithoutErrors(Requests(items), reply, 0);
    forall x | x in items
      ensures (NoSource(x) ==> x in GroupAsWritten(items, FinancialItems)) &&
        (x.source == Some(SummarySource) ==> x in GroupAsWritten(items, FinancialSummary)) &&
        (x.source == Some(IncomeSummarySource) ==> x in GroupAsWritten(items, FinancialSummaryIncome))
    {
      GroupsAsWrittenSpec(items, x);
    }
  }

  /**
   * Without database errors, the corrected bulk delete sends each non-empty
   * group in order and reports the sum of their counts; every selected
   * entry is in the group of the table a single delete sends it to.
   */
  lemma DeleteMultipleCorrectedTotal(allItems: seq<Item>, ids: seq<string>, reply: Request -> Reply)
    requires forall r :: reply(r).error.None?
    ensures RunFrom(RequestsCorrected(ItemsToDelete(allItems, ids)), reply, 0) ==
      Run(NonEmpty(RequestsCorrected(ItemsToDelete(allItems, ids))), Ok(CountSum(NonEmpty(RequestsCorrected(ItemsToDelete(allItems, ids))), reply)))
    ensures forall x :: x in ItemsToDelete(allItems, ids) ==> x in Group(ItemsToDelete(allItems, ids), RouteOf(x))
  {
    var items := ItemsToDelete(allItems, ids);
    RunWithoutErrors(RequestsCorrected(items), reply, 0);
    forall x | x in items
      ensures x in Group(items, RouteOf(x))
    {
      GroupsPartition(items, x, RouteOf(x));
    }
  }
}
