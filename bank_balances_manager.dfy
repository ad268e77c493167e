/**
 * The bank balance form of src/components/contas/BankBalancesManager.tsx:
 * the list of banks offered (five defaults, the user's banks and the
 * configured ones, trimmed and upper-cased), the form entry kept per bank,
 * and the validation that turns the form into the updates sent to the
 * database.
 *
 * `String(number)` is the parameter `show`, `Number(text)` the parameter
 * `parse` (None for NaN), today's date the parameter `today`; the banks are
 * ordered by code unit where the source uses `localeCompare('pt-BR')`.
 */
module BankBalancesManager {
  import opened Wrappers
  import opened Strings
  import Lists
  import Sorting

  /** The fields of a `bank_balances` row the form reads. */
  datatype Row = Row(id: string, bankName: string, initialBalance: real, baselineDate: string)

  /** `DEFAULT_BANKS`. */
  const DefaultBanks: seq<string> := ["C6 BANK", "CONTA SIMPLES", "ASAAS", "NOMAD", "NUBANK"]

  /** `bank.trim().toUpperCase()`. */
  function Normalize(bank: string): string
  {
    Upper(Trim(bank))
  }

  function NormalizeAll(banks: seq<string>): (r: seq<string>)
    ensures |r| == |banks| && forall i :: 0 <= i < |banks| ==> r[i] == Normalize(banks[i])
  {
    seq(|banks|, i requires 0 <= i < |banks| => Normalize(banks[i]))
  }

  /** `balance.bank_name` of each row. */
  function Names(rows: seq<Row>): (r: seq<string>)
    ensures |r| == |rows| && forall i :: 0 <= i < |rows| ==> r[i] == rows[i].bankName
  {
    seq(|rows|, i requires 0 <= i < |rows| => rows[i].bankName)
  }

  /** `filter(Boolean)` on names. */
  predicate Named(bank: string)
  {
    bank != ""
  }

  /** `bank && bank !== 'NONE'`. */
  predicate Usable(bank: string)
  {
    bank != "" && bank != "NONE"
  }

  /** The default banks, normalised, the empty ones dropped. */
  function DefaultKeys(): seq<string>
  {
    Lists.Filter(NormalizeAll(DefaultBanks), Named)
  }

  /** The user's non-empty banks, normalised, then empty and 'NONE' dropped. */
  function UserKeys(userBanks: seq<string>): seq<string>
  {
    Lists.Filter(NormalizeAll(Lists.Filter(userBanks, Named)), Usable)
  }

  /** The configured names, normalised, the empty ones dropped. */
  function RowKeys(rows: seq<Row>): seq<string>
  {
    Lists.Filter(NormalizeAll(Names(rows)), Named)
  }

  /** Every key set into the map, in the order it is set. */
  function Keys(userBanks: seq<string>, rows: seq<Row>): seq<string>
  {
    DefaultKeys() + UserKeys(userBanks) + RowKeys(rows)
  }

  /** `availableBanks`: the map's values, each key once, sorted. */
  function Available(userBanks: seq<string>, rows: seq<Row>): seq<string>
  {
    Sorting.Sort(Lists.Dedup(Keys(userBanks, rows)))
  }

  /** `keys.forEach(bank => normalizedBanks.set(bank, bank))` on a map whose values are `values`. */
  method SetEach(values: seq<string>, keys: seq<string>, ghost before: seq<string>) returns (r: seq<string>)
    requires values == Lists.Dedup(before)
    ensures r == Lists.Dedup(before + keys)
  {
    r := values;
    assert before + keys[..0] == before;
    for i := 0 to |keys|
      invariant r == Lists.Dedup(before + keys[..i])
    {
      assert before + keys[..i + 1] == (before + keys[..i]) + [keys[i]];
      Lists.DedupSnoc(before + keys[..i], keys[i]);
      Lists.DedupSpec(before + keys[..i]);
      if keys[i] !in r {
        r := r + [keys[i]];
      }
    }
    assert keys[..|keys|] == keys;
  }

  /** The keys of one more bank: its normalised name, unless empty. */
  lemma KeysSnoc(banks: seq<string>, i: nat)
    requires i < |banks|
    ensures Lists.Filter(NormalizeAll(banks[..i + 1]), Named) ==
      Lists.Filter(NormalizeAll(banks[..i]), Named) + (if Normalize(banks[i]) != "" then [Normalize(banks[i])] else [])
  {
    assert NormalizeAll(banks[..i + 1]) == NormalizeAll(banks[..i]) + [Normalize(banks[i])];
    Lists.FilterConcat(NormalizeAll(banks[..i]), [Normalize(banks[i])], Named);
  }

  /** `DEFAULT_BANKS.forEach(...)`: each bank, normalised, set into the empty map unless empty. */
  method SetDefaults(defaults: seq<string>) returns (normalized: seq<string>)
    ensures normalized == Lists.Dedup(Lists.Filter(NormalizeAll(defaults), Named))
  {
    normalized := [];
    for i := 0 to |defaults|
      invariant normalized == Lists.Dedup(Lists.Filter(NormalizeAll(defaults[..i]), Named))
    {
      var key := Normalize(defaults[i]);
      ghost var done := Lists.Filter(NormalizeAll(defaults[..i]), Named);
      KeysSnoc(defaults, i);
      if key != "" {
        Lists.DedupSnoc(done, key);
        Lists.DedupSpec(done);
        if key !in normalized {
          normalized := normalized + [key];
        }
      } else {
        assert done + [] == done;
      }
    }
    assert defaults[..|defaults|] == defaults;
  }

  /**
   * `availableBanks`: the defaults, then the user's banks, then the
   * configured names go into a map keyed by the normalised name; its
   * values are sorted.
   */
  method AvailableBanks(userBanks: seq<string>, rows: seq<Row>) returns (banks: seq<string>)
    ensures banks == Available(userBanks, rows)
  {
    var normalized := SetDefaults(DefaultBanks);
    normalized := SetEach(normalized, UserKeys(userBanks), DefaultKeys());
    normalized := SetEach(normalized, RowKeys(rows), DefaultKeys() + UserKeys(userBanks));
    banks := Sorting.Sort(normalized);
  }

  /**
   * Each default begins and ends with a letter, so normalising keeps its
   * length: none becomes empty, none becomes 'NONE'.
   */
  lemma DefaultsKeepLength()
    ensures forall i :: 0 <= i < |DefaultBanks| ==> |Normalize(DefaultBanks[i])| == |DefaultBanks[i]|
    ensures forall i :: 0 <= i < |DefaultBanks| ==> Normalize(DefaultBanks[i]) != "" && Normalize(DefaultBanks[i]) != "NONE"
  {
    forall i | 0 <= i < |DefaultBanks|
      ensures |Normalize(DefaultBanks[i])| == |DefaultBanks[i]|
      ensures Normalize(DefaultBanks[i]) != "" && Normalize(DefaultBanks[i]) != "NONE"
    {
      var d := DefaultBanks[i];
      assert 'A' <= d[0] <= 'Z' && 'A' <= d[|d| - 1] <= 'Z' && |d| >= 5 by {
        assert i == 0 || i == 1 || i == 2 || i == 3 || i == 4;
      }
      TrimUnchanged(d);
    }
  }

  /** No default is blank, so each is set into the map. */
  lemma DefaultKeysAll()
    ensures DefaultKeys() == NormalizeAll(DefaultBanks)
  {
    DefaultsKeepLength();
    Lists.FilterAll(NormalizeAll(DefaultBanks), Named);
  }

  /** A name is in the normalised list iff it normalises one of the names. */
  lemma NormalizeAllMembers(banks: seq<string>, b: string)
    ensures b in NormalizeAll(banks) <==> exists i :: 0 <= i < |banks| && Normalize(banks[i]) == b
  {
    if b in NormalizeAll(banks) {
      var i :| 0 <= i < |banks| && NormalizeAll(banks)[i] == b;
    }
  }

  /** The banks offered are sorted and each is listed once. */
  lemma AvailableSorted(userBanks: seq<string>, rows: seq<Row>)
    ensures Sorting.Sorted(Available(userBanks, rows))
    ensures Lists.Distinct(Available(userBanks, rows))
  {
    Lists.DedupSpec(Keys(userBanks, rows));
    Sorting.SortSorted(Lists.Dedup(Keys(userBanks, rows)));
    Sorting.SortDistinct(Lists.Dedup(Keys(userBanks, rows)));
  }

  /** Normalising the non-empty user banks reaches exactly the names a non-empty user bank normalises to. */
  lemma NamedWitness(userBanks: seq<string>, b: string)
    ensures (exists i :: 0 <= i < |Lists.Filter(userBanks, Named)| && Normalize(Lists.Filter(userBanks, Named)[i]) == b) <==>
      (exists i :: 0 <= i < |userBanks| && userBanks[i] != "" && Normalize(userBanks[i]) == b)
  {
    var named := Lists.Filter(userBanks, Named);
    if exists i :: 0 <= i < |named| && Normalize(named[i]) == b {
      var i :| 0 <= i < |named| && Normalize(named[i]) == b;
      Lists.FilterMembers(userBanks, Named, named[i]);
      var j :| 0 <= j < |userBanks| && userBanks[j] == named[i];
    }
    if exists i :: 0 <= i < |userBanks| && userBanks[i] != "" && Normalize(userBanks[i]) == b {
      var i :| 0 <= i < |userBanks| && userBanks[i] != "" && Normalize(userBanks[i]) == b;
      Lists.FilterMembers(userBanks, Named, userBanks[i]);
      var j :| 0 <= j < |named| && named[j] == userBanks[i];
    }
  }

  /** A key comes from the user's banks iff it is a usable normalised form of a non-empty user bank. */
  lemma UserKeysMembers(userBanks: seq<string>, b: string)
    ensures b in UserKeys(userBanks) <==> Usable(b) && exists i :: 0 <= i < |userBanks| && userBanks[i] != "" && Normalize(userBanks[i]) == b
  {
    var named := Lists.Filter(userBanks, Named);
    Lists.FilterMembers(NormalizeAll(named), Usable, b);
    NormalizeAllMembers(named, b);
    NamedWitness(userBanks, b);
  }

  /** A key comes from the rows iff it is the non-empty normalised name of a row. */
  lemma RowKeysMembers(rows: seq<Row>, b: string)
    ensures b in RowKeys(rows) <==> b != "" && exists i :: 0 <= i < |rows| && Normalize(rows[i].bankName) == b
  {
    Lists.FilterMembers(NormalizeAll(Names(rows)), Named, b);
    NormalizeAllMembers(Names(rows), b);
  }

  /**
   * A bank is offered iff it is a default, or the normalised form of a
   * non-empty user bank other than 'NONE', or the normalised non-empty
   * name of a configured row.
   */
  lemma AvailableMembers(userBanks: seq<string>, rows: seq<Row>, b: string)
    ensures b in Available(userBanks, rows) <==>
      (exists i :: 0 <= i < |DefaultBanks| && Normalize(DefaultBanks[i]) == b) ||
      (Usable(b) && exists i :: 0 <= i < |userBanks| && userBanks[i] != "" && Normalize(userBanks[i]) == b) ||
      (b != "" && exists i :: 0 <= i < |rows| && Normalize(rows[i].bankName) == b)
  {
    var keys := Keys(userBanks, rows);
    Sorting.SortSorted(Lists.Dedup(keys));
    Lists.DedupSpec(keys);
    DefaultKeysAll();
    NormalizeAllMembers(DefaultBanks, b);
    UserKeysMembers(userBanks, b);
    RowKeysMembers(rows, b);
    assert b in keys <==> b in DefaultKeys() || b in UserKeys(userBanks) || b in RowKeys(rows);
  }

  /** The five defaults, normalised, are always offered. */
  lemma DefaultsAvailable(userBanks: seq<string>, rows: seq<Row>)
    ensures forall i :: 0 <= i < |DefaultBanks| ==> Normalize(DefaultBanks[i]) in Available(userBanks, rows)
  {
    forall i | 0 <= i < |DefaultBanks| ensures Normalize(DefaultBanks[i]) in Available(userBanks, rows) {
      AvailableMembers(userBanks, rows, Normalize(DefaultBanks[i]));
    }
  }

  /** Every bank offered is non-empty, has no whitespace at either end and no lower-case letter. */
  lemma AvailableNormalized(userBanks: seq<string>, rows: seq<Row>, b: string)
    requires b in Available(userBanks, rows)
    ensures b != "" && !IsSpace(b[0]) && !IsSpace(b[|b| - 1])
    ensures forall k :: 0 <= k < |b| ==> !IsLower(b[k])
  {
    var source := AvailableSource(userBanks, rows, b);
    NormalizedShape(source, b);
  }

  /** An offered bank is the non-empty normalised form of some name. */
  lemma AvailableSource(userBanks: seq<string>, rows: seq<Row>, b: string) returns (source: string)
    requires b in Available(userBanks, rows)
    ensures Normalize(source) == b && b != ""
  {
    AvailableMembers(userBanks, rows, b);
    DefaultsKeepLength();
    if exists i :: 0 <= i < |DefaultBanks| && Normalize(DefaultBanks[i]) == b {
      var i :| 0 <= i < |DefaultBanks| && Normalize(DefaultBanks[i]) == b;
      source := DefaultBanks[i];
    } else if exists i :: 0 <= i < |userBanks| && userBanks[i] != "" && Normalize(userBanks[i]) == b {
      var i :| 0 <= i < |userBanks| && userBanks[i] != "" && Normalize(userBanks[i]) == b;
      source := userBanks[i];
    } else {
      var i :| 0 <= i < |rows| && Normalize(rows[i].bankName) == b;
      source := rows[i].bankName;
    }
  }

  /** A normalised name has no whitespace at either end and no lower-case letter. */
  lemma NormalizedShape(s: string, r: string)
    requires r == Normalize(s)
    ensures (r != [] ==> !IsSpace(r[0]) && !IsSpace(r[|r| - 1])) && forall k :: 0 <= k < |r| ==> !IsLower(r[k])
  {
    var t := Trim(s);
    if t != [] {
      SpacePreservedByCase(t[0]);
      SpacePreservedByCase(t[|t| - 1]);
    }
  }

  /** 'NONE' is offered only when a configured row is named so; the user's banks never bring it in. */
  lemma NoneOnlyFromRows(userBanks: seq<string>, rows: seq<Row>)
    ensures "NONE" in Available(userBanks, rows) ==> exists i :: 0 <= i < |rows| && Normalize(rows[i].bankName) == "NONE"
  {
    AvailableMembers(userBanks, rows, "NONE");
    DefaultsKeepLength();
  }

  // ------------------------------------------------------------------ form

  /**
   * `BankBalanceFormEntry`; a field the source leaves undefined (an entry
   * edited before it was synchronised) is None.
   */
  datatype FormEntry = FormEntry(id: Option<string>, initialBalance: Option<string>, baselineDate: Option<string>, hasExisting: bool)

  /** The index of the first row from `k` on whose normalised name is `bank`, or `|rows|`. */
  function FirstRow(rows: seq<Row>, bank: string, k: nat): (i: nat)
    requires k <= |rows|
    ensures k <= i <= |rows|
    ensures i < |rows| ==> Normalize(rows[i].bankName) == bank
    ensures forall j :: k <= j < i ==> Normalize(rows[j].bankName) != bank
    decreases |rows| - k
  {
    if k == |rows| then k
    else if Normalize(rows[k].bankName) == bank then k
    else
      var i := FirstRow(rows, bank, k + 1);
      assert forall j :: k + 1 <= j < i ==> Normalize(rows[j].bankName) != bank;
      i
  }

  /** `bankBalances.find(balance => balance.bank_name.trim().toUpperCase() === bank)`. */
  function FindRow(rows: seq<Row>, bank: string): (r: Option<Row>)
    ensures r.None? <==> forall i :: 0 <= i < |rows| ==> Normalize(rows[i].bankName) != bank
    ensures r.Some? ==> exists i ::
      0 <= i < |rows| && rows[i] == r.value && Normalize(rows[i].bankName) == bank &&
      (forall j :: 0 <= j < i ==> Normalize(rows[j].bankName) != bank)
  {
    var i := FirstRow(rows, bank, 0);
    if i < |rows| then Some(rows[i]) else None
  }

  /** The entry the synchronisation gives `bank`. */
  function SyncedEntry(bank: string, rows: seq<Row>, previous: map<string, FormEntry>, today: string, show: real -> string): FormEntry
  {
    match FindRow(rows, bank)
    case Some(existing) => FormEntry(Some(existing.id), Some(show(existing.initialBalance)), Some(existing.baselineDate), true)
    case None =>
      var initialBalance := if bank in previous && previous[bank].initialBalance.Some? then previous[bank].initialBalance.value else "";
      var baselineDate := if bank in previous && previous[bank].baselineDate.Some? then previous[bank].baselineDate.value else today;
      FormEntry(None, Some(initialBalance), Some(baselineDate), false)
  }

  /**
   * A bank with a configured row takes its id, balance and date from the
   * first such row; any other bank has no id and keeps what the user had
   * typed, an empty balance and today's date when nothing was.
   */
  lemma SyncedEntrySpec(bank: string, rows: seq<Row>, previous: map<string, FormEntry>, today: string, show: real -> string, k: nat)
    requires k < |rows| && Normalize(rows[k].bankName) == bank
    requires forall j :: 0 <= j < k ==> Normalize(rows[j].bankName) != bank
    ensures SyncedEntry(bank, rows, previous, today, show) ==
      FormEntry(Some(rows[k].id), Some(show(rows[k].initialBalance)), Some(rows[k].baselineDate), true)
  {
    var r := FindRow(rows, bank);
    var i :| 0 <= i < |rows| && rows[i] == r.value && Normalize(rows[i].bankName) == bank &&
      forall j :: 0 <= j < i ==> Normalize(rows[j].bankName) != bank;
    assert i == k;
  }

  /** A bank without a configured row keeps the typed balance and date, or starts empty and dated today. */
  lemma SyncedEntryUnconfigured(bank: string, rows: seq<Row>, previous: map<string, FormEntry>, today: string, show: real -> string)
    requires forall i :: 0 <= i < |rows| ==> Normalize(rows[i].bankName) != bank
    ensures var e := SyncedEntry(bank, rows, previous, today, show);
      e.id == None && !e.hasExisting &&
      (bank !in previous ==> e.initialBalance == Some("") && e.baselineDate == Some(today)) &&
      (bank in previous && previous[bank].initialBalance.Some? ==> e.initialBalance == previous[bank].initialBalance) &&
      (bank in previous && previous[bank].baselineDate.Some? ==> e.baselineDate == previous[bank].baselineDate)
  {
  }

  /** One update sent to the database (`BankBalanceUpdatePayload`). */
  datatype BalanceUpdate = BalanceUpdate(id: Option<string>, bankName: string, initialBalance: real, baselineDate: string)

  /** What `handleSave` makes of one entry. */
  datatype Check = Blank | Rejected(message: string) | Accepted(update: BalanceUpdate)

  /** The typed balance, trimmed; an undefined one is empty. */
  function TrimmedBalance(entry: FormEntry): string
  {
    Trim(entry.initialBalance.GetOr(""))
  }

  /** One entry of `handleSave`'s loop. */
  function CheckEntry(bank: string, entry: FormEntry, parse: string -> Option<real>): (r: Check)
    ensures r.Blank? <==> IsBlank(entry.initialBalance.GetOr(""))
    ensures r.Accepted? ==> (r.update.bankName == bank && r.update.id == entry.id &&
      entry.baselineDate == Some(r.update.baselineDate) && r.update.baselineDate != "" &&
      parse(ReplaceFirst(TrimmedBalance(entry), ',', ".")) == Some(r.update.initialBalance))
    ensures r.Rejected? ==> parse(ReplaceFirst(TrimmedBalance(entry), ',', ".")).None? || entry.baselineDate in {None, Some("")}
  {
    TrimEmpty(entry.initialBalance.GetOr(""));
    var trimmedValue := TrimmedBalance(entry);
    if trimmedValue == "" then Blank
    else
      var parsedValue := parse(ReplaceFirst(trimmedValue, ',', "."));
      if parsedValue.None? then Rejected("Saldo inválido para " + bank)
      else if entry.baselineDate.None? || entry.baselineDate.value == "" then Rejected("Data de referência obrigatória para " + bank)
      else Accepted(BalanceUpdate(entry.id, bank, parsedValue.value, entry.baselineDate.value))
  }

  /** A decimal comma is read as a point: the first ',' is replaced by '.' before parsing. */
  lemma CommaAccepted(whole: string, fraction: string)
    requires ',' !in whole
    ensures ReplaceFirst(whole + "," + fraction, ',', ".") == whole + "." + fraction
  {
    var s := whole + "," + fraction;
    var k := IndexOf(s, ',');
    assert s[|whole|] == ',';
    assert s[..|whole|] == whole;
    assert k == |whole|;
    assert s[k + 1..] == fraction;
  }

  /** The updates `handleSave` collects over the banks, in order. */
  function Updates(banks: seq<string>, entries: map<string, FormEntry>, parse: string -> Option<real>): seq<BalanceUpdate>
    requires forall b :: b in banks ==> b in entries
  {
    if banks == [] then []
    else
      var bank := banks[|banks| - 1];
      var rest := Updates(banks[..|banks| - 1], entries, parse);
      match CheckEntry(bank, entries[bank], parse)
      case Accepted(update) => rest + [update]
      case _ => rest
  }

  /** The error messages `handleSave` collects over the banks, in order. */
  function Errors(banks: seq<string>, entries: map<string, FormEntry>, parse: string -> Option<real>): seq<string>
    requires forall b :: b in banks ==> b in entries
  {
    if banks == [] then []
    else
      var bank := banks[|banks| - 1];
      var rest := Errors(banks[..|banks| - 1], entries, parse);
      match CheckEntry(bank, entries[bank], parse)
      case Rejected(message) => rest + [message]
      case _ => rest
  }

  /** The updates and errors after one more bank: its entry's check adds to one of them or to neither. */
  lemma SaveStep(banks: seq<string>, entries: map<string, FormEntry>, parse: string -> Option<real>, i: int)
    requires forall b :: b in banks ==> b in entries
    requires 0 <= i < |banks|
    ensures var c := CheckEntry(banks[i], entries[banks[i]], parse);
      Updates(banks[..i + 1], entries, parse) == (if c.Accepted? then Updates(banks[..i], entries, parse) + [c.update] else Updates(banks[..i], entries, parse)) &&
      Errors(banks[..i + 1], entries, parse) == (if c.Rejected? then Errors(banks[..i], entries, parse) + [c.message] else Errors(banks[..i], entries, parse))
  {
    assert banks[..i + 1][..i] == banks[..i];
    assert banks[..i + 1][i] == banks[i];
  }

  /** How `handleSave` ends. */
  datatype SaveOutcome = Invalid(errors: seq<string>) | NothingFilled | Send(updates: seq<BalanceUpdate>)

  /** Errors stop the save; so does an empty list of updates; otherwise `onSave(updates)`. */
  function Decide(updates: seq<BalanceUpdate>, errors: seq<string>): SaveOutcome
  {
    if |errors| > 0 then Invalid(errors)
    else if |updates| == 0 then NothingFilled
    else Send(updates)
  }

  /** There is an error exactly when some bank's entry is rejected. */
  lemma {:induction false} ErrorsSpec(banks: seq<string>, entries: map<string, FormEntry>, parse: string -> Option<real>)
    requires forall b :: b in banks ==> b in entries
    ensures Errors(banks, entries, parse) == [] <==> forall i :: 0 <= i < |banks| ==> !CheckEntry(banks[i], entries[banks[i]], parse).Rejected?
  {
    if banks != [] {
      var n := |banks| - 1;
      var init := banks[..n];
      ErrorsSpec(init, entries, parse);
      forall i | 0 <= i < n ensures init[i] == banks[i] {}
      var c := CheckEntry(banks[n], entries[banks[n]], parse);
      if c.Rejected? {
        assert Errors(banks, entries, parse) == Errors(init, entries, parse) + [c.message];
      } else {
        assert Errors(banks, entries, parse) == Errors(init, entries, parse);
      }
    }
  }

  /**
   * Each update is an accepted entry: it names a bank of the form, carries
   * that entry's id and date, and the parsed balance.
   */
  lemma UpdatesSpec(banks: seq<string>, entries: map<string, FormEntry>, parse: string -> Option<real>)
    requires forall b :: b in banks ==> b in entries
    ensures forall u :: u in Updates(banks, entries, parse) ==>
      u.bankName in banks && CheckEntry(u.bankName, entries[u.bankName], parse) == Accepted(u)
    ensures Updates(banks, entries, parse) == [] <==> forall i :: 0 <= i < |banks| ==> !CheckEntry(banks[i], entries[banks[i]], parse).Accepted?
  {
    UpdatesAccepted(banks, entries, parse);
    UpdatesEmpty(banks, entries, parse);
  }

  /** Each update comes from an accepted entry of one of the banks. */
  lemma {:induction false} UpdatesAccepted(banks: seq<string>, entries: map<string, FormEntry>, parse: string -> Option<real>)
    requires forall b :: b in banks ==> b in entries
    ensures forall u :: u in Updates(banks, entries, parse) ==>
      u.bankName in banks && CheckEntry(u.bankName, entries[u.bankName], parse) == Accepted(u)
  {
    if banks != [] {
      var n := |banks| - 1;
      var init := banks[..n];
      UpdatesAccepted(init, entries, parse);
      var c := CheckEntry(banks[n], entries[banks[n]], parse);
      assert Updates(banks, entries, parse) == if c.Accepted? then Updates(init, entries, parse) + [c.update] else Updates(init, entries, parse);
      forall u | u in Updates(init, entries, parse) ensures u.bankName in banks {
        assert u.bankName in init;
      }
    }
  }

  /** There is no update iff no entry is accepted. */
  lemma {:induction false} UpdatesEmpty(banks: seq<string>, entries: map<string, FormEntry>, parse: string -> Option<real>)
    requires forall b :: b in banks ==> b in entries
    ensures Updates(banks, entries, parse) == [] <==> forall i :: 0 <= i < |banks| ==> !CheckEntry(banks[i], entries[banks[i]], parse).Accepted?
  {
    if banks != [] {
      var n := |banks| - 1;
      var init := banks[..n];
      UpdatesEmpty(init, entries, parse);
      var c := CheckEntry(banks[n], entries[banks[n]], parse);
      forall i | 0 <= i < n ensures init[i] == banks[i] {}
      if c.Accepted? {
        assert Updates(banks, entries, parse) == Updates(init, entries, parse) + [c.update];
      } else {
        assert Updates(banks, entries, parse) == Updates(init, entries, parse);
      }
    }
  }

  /** Every entry is blank, rejected or accepted: the counts add up to the number of banks. */
  lemma {:induction false} SaveCounts(banks: seq<string>, entries: map<string, FormEntry>, parse: string -> Option<real>)
    requires forall b :: b in banks ==> b in entries
    ensures |Updates(banks, entries, parse)| + |Errors(banks, entries, parse)| <= |banks|
    ensures (forall i :: 0 <= i < |banks| ==> !CheckEntry(banks[i], entries[banks[i]], parse).Blank?) ==>
      |Updates(banks, entries, parse)| + |Errors(banks, entries, parse)| == |banks|
  {
    if banks != [] {
      var n := |banks| - 1;
      SaveCounts(banks[..n], entries, parse);
      assert forall i :: 0 <= i < n ==> banks[..n][i] == banks[i];
    }
  }

  /**
   * `onSave` is called exactly when no entry is rejected and at least one
   * is accepted; then every update it gets is an accepted entry.
   */
  lemma SaveSpec(banks: seq<string>, entries: map<string, FormEntry>, parse: string -> Option<real>)
    requires forall b :: b in banks ==> b in entries
    ensures Decide(Updates(banks, entries, parse), Errors(banks, entries, parse)).Send? <==>
      (forall i :: 0 <= i < |banks| ==> !CheckEntry(banks[i], entries[banks[i]], parse).Rejected?) &&
      (exists i :: 0 <= i < |banks| && CheckEntry(banks[i], entries[banks[i]], parse).Accepted?)
    ensures Decide(Updates(banks, entries, parse), Errors(banks, entries, parse)).Send? ==>
      forall u :: u in Decide(Updates(banks, entries, parse), Errors(banks, entries, parse)).updates ==>
        u.bankName in banks && u.id == entries[u.bankName].id && Some(u.baselineDate) == entries[u.bankName].baselineDate
  {
    ErrorsSpec(banks, entries, parse);
    UpdatesSpec(banks, entries, parse);
  }

  /** The form: one entry per bank, the banks in the order they were first set. */
  class Form {
    var banks: seq<string>
    var entries: map<string, FormEntry>

    /** Each bank listed once, and exactly the listed banks have an entry. */
    ghost predicate Valid()
      reads this
    {
      Lists.Distinct(banks) && forall b :: b in entries <==> b in banks
    }

    /** `useState({})`. */
    constructor()
      ensures Valid() && banks == [] && entries == map[]
    {
      banks := [];
      entries := map[];
    }

    /**
     * The synchronisation effect: the new state has one entry per offered
     * bank, in their order, each as `SyncedEntry` gives it from the old
     * state.
     */
    method Sync(available: seq<string>, rows: seq<Row>, today: string, show: real -> string)
      modifies this
      ensures Valid()
      ensures banks == Lists.Dedup(available)
      ensures forall b :: b in entries <==> b in available
      ensures forall b :: b in entries ==> entries[b] == SyncedEntry(b, rows, old(entries), today, show)
    {
      var previous := entries;
      var nextBanks: seq<string> := [];
      var nextState: map<string, FormEntry> := map[];
      for i := 0 to |available|
        invariant nextBanks == Lists.Dedup(available[..i])
        invariant forall b :: b in nextState <==> b in available[..i]
        invariant forall b :: b in nextState ==> nextState[b] == SyncedEntry(b, rows, previous, today, show)
      {
        var bank := available[i];
        assert available[..i + 1] == available[..i] + [bank];
        Lists.DedupSnoc(available[..i], bank);
        var existing := FindRow(rows, bank);
        var previousEntry := if bank in previous then Some(previous[bank]) else None;
        var entry: FormEntry;
        if existing.Some? {
          entry := FormEntry(Some(existing.value.id), Some(show(existing.value.initialBalance)), Some(existing.value.baselineDate), true);
        } else {
          var initialBalance := if previousEntry.Some? && previousEntry.value.initialBalance.Some? then previousEntry.value.initialBalance.value else "";
          var baselineDate := if previousEntry.Some? && previousEntry.value.baselineDate.Some? then previousEntry.value.baselineDate.value else today;
          entry := FormEntry(None, Some(initialBalance), Some(baselineDate), false);
        }
        assert entry == SyncedEntry(bank, rows, previous, today, show);
        if bank !in nextState {
          nextBanks := nextBanks + [bank];
        }
        nextState := nextState[bank := entry];
      }
      assert available[..|available|] == available;
      Lists.DedupSpec(available);
      banks := nextBanks;
      entries := nextState;
    }

    /** `handleBalanceChange`: the bank's entry gets the typed balance; a bank without an entry gets one, last. */
    method BalanceChange(bank: string, value: string)
      requires Valid()
      modifies this
      ensures Valid()
      ensures banks == if bank in old(banks) then old(banks) else old(banks) + [bank]
      ensures entries == old(entries)[bank := Edited(old(entries), bank).(initialBalance := Some(value))]
    {
      var entry := Edited(entries, bank);
      if bank !in entries {
        banks := banks + [bank];
      }
      entries := entries[bank := entry.(initialBalance := Some(value))];
    }

    /** `handleDateChange`: the bank's entry gets the typed date; a bank without an entry gets one, last. */
    method DateChange(bank: string, value: string)
      requires Valid()
      modifies this
      ensures Valid()
      ensures banks == if bank in old(banks) then old(banks) else old(banks) + [bank]
      ensures entries == old(entries)[bank := Edited(old(entries), bank).(baselineDate := Some(value))]
    {
      var entry := Edited(entries, bank);
      if bank !in entries {
        banks := banks + [bank];
      }
      entries := entries[bank := entry.(baselineDate := Some(value))];
    }

    /**
     * `handleSave`: every entry, in the form's order, is skipped when blank,
     * rejected with a message, or turned into an update; errors stop the
     * save, so does having nothing to send.
     */
    method Save(parse: string -> Option<real>) returns (outcome: SaveOutcome)
      requires Valid()
      ensures outcome == Decide(Updates(banks, entries, parse), Errors(banks, entries, parse))
    {
      var updates: seq<BalanceUpdate> := [];
      var errors: seq<string> := [];
      for i := 0 to |banks|
        invariant updates == Updates(banks[..i], entries, parse)
        invariant errors == Errors(banks[..i], entries, parse)
      {
        var bank := banks[i];
        var entry := entries[bank];
        SaveStep(banks, entries, parse, i);
        var trimmedValue := Trim(entry.initialBalance.GetOr(""));
        if trimmedValue == "" {
          continue;
        }
        var parsedValue := parse(ReplaceFirst(trimmedValue, ',', "."));
        if parsedValue.None? {
          errors := errors + ["Saldo inválido para " + bank];
          continue;
        }
        if entry.baselineDate.None? || entry.baselineDate.value == "" {
          errors := errors + ["Data de referência obrigatória para " + bank];
          continue;
        }
        updates := updates + [BalanceUpdate(entry.id, bank, parsedValue.value, entry.baselineDate.value)];
      }
      assert banks[..|banks|] == banks;
      outcome := Decide(updates, errors);
    }
  }

  /** `{...state[bank]}`: the bank's entry, or an entry with every field undefined. */
  function Edited(entries: map<string, FormEntry>, bank: string): (r: FormEntry)
    ensures bank in entries ==> r == entries[bank]
    ensures bank !in entries ==> r.id.None? && r.initialBalance.None? && r.baselineDate.None?
  {
    if bank in entries then entries[bank] else FormEntry(None, None, None, false)
  }

  /**
   * Once synchronised with the offered banks, the form has exactly one
   * entry per offered bank, in the offered order.
   */
  lemma SyncedForm(userBanks: seq<string>, rows: seq<Row>)
    ensures Lists.Dedup(Available(userBanks, rows)) == Available(userBanks, rows)
  {
    AvailableSorted(userBanks, rows);
    Lists.DedupDistinct(Available(userBanks, rows));
  }
}
