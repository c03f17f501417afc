/** The lot ledger as checkpoint records, and the guarded way back. */
module LotRecords {
  import opened Options
  import opened Calendar
  import opened LotRules
  import opened Lots
  import opened OrderGates
  import opened Account
  import opened Ledger
  import opened OrderSteps
  import opened AccountRuns

  // One record; an older checkpoint has a single unclassified income instead of the two.
  datatype Row = Row(quantity: int, acquired: Day, incomeNew: Option<real>, incomeOld: Option<real>,
                     unclassified: Option<real>)

  function RowOf(lot: Lot): (row: Row)
  {
    Row(lot.quantity, lot.acquired, Some(lot.incomeNew), Some(lot.incomeOld), None)
  }

  function RowsOf(lots: seq<Lot>): (rows: seq<Row>)
    ensures |rows| == |lots| && forall i :: 0 <= i < |lots| ==> rows[i] == RowOf(lots[i])
  {
    seq(|lots|, i requires 0 <= i < |lots| => RowOf(lots[i]))
  }

  function LotRecords(a: State): (records: map<string, seq<Row>>)
  {
    map symbol | symbol in a.lots :: RowsOf(a.lots[symbol])
  }

  /** None where the source refuses the row: income neither split by rule nor plainly zero, or negative. */
  function RestoreRow(row: Row): (lot: Option<Lot>)
  {
    var complete := row.incomeNew.Some? && row.incomeOld.Some?;
    var legacyZero := row.incomeNew.None? && row.incomeOld.None? && row.unclassified == Some(0.0);
    if !complete && !legacyZero then None
    else
      var lot := if complete then Lot(row.quantity, row.acquired, row.incomeNew.value, row.incomeOld.value)
                 else Lot(row.quantity, row.acquired, 0.0, 0.0);
      if lot.incomeNew < 0.0 || lot.incomeOld < 0.0 then None else Some(lot)
  }

  function RestoreRows(rows: seq<Row>): (lots: Option<seq<Lot>>)
    ensures lots.Some? <==> forall i :: 0 <= i < |rows| ==> RestoreRow(rows[i]).Some?
    ensures lots.Some? ==> |lots.value| == |rows| && forall i :: 0 <= i < |rows| ==>
            lots.value[i] == RestoreRow(rows[i]).value
  {
    if rows == [] then Some([])
    else if RestoreRow(rows[0]).None? || RestoreRows(rows[1..]).None? then None
    else Some([RestoreRow(rows[0]).value] + RestoreRows(rows[1..]).value)
  }

  /** A row is readable exactly if its income is split by rule and neither part is negative, or it is an older row whose
      income is plainly zero; it becomes a lot of the same shares, date and incomes. */
  lemma RowsAreReadExactlyWhen(row: Row)
    ensures var split, zero := row.incomeNew.Some? && row.incomeOld.Some?,
                               row.incomeNew.None? && row.incomeOld.None? && row.unclassified == Some(0.0);
            && (RestoreRow(row).Some? <==>
                  || (split && row.incomeNew.value >= 0.0 && row.incomeOld.value >= 0.0) || zero)
            && (RestoreRow(row).Some? ==>
                  RestoreRow(row).value == Lot(row.quantity, row.acquired, if split then row.incomeNew.value else 0.0,
                                               if split then row.incomeOld.value else 0.0))
  {}

  ghost predicate Readable(records: map<string, seq<Row>>)
  {
    forall symbol :: symbol in records ==> RestoreRows(records[symbol]).Some?
  }

  /** Every held name's lots add up to its quantity, no other name has any, and none is empty. */
  predicate MatchesTheBook(profile: Profile, book: seq<Position>, lots: map<string, seq<Lot>>)
  {
    && (forall symbol :: symbol in lots ==> AllPositive(lots[symbol]))
    && (forall symbol :: symbol in lots ==> profile.dividendTax && Find(book, symbol) < |book|
                                             && Total(lots[symbol]) == book[Find(book, symbol)].quantity)
    && (profile.dividendTax ==> forall i :: 0 <= i < |book| ==> book[i].symbol in lots)
  }

  ghost function Restored(records: map<string, seq<Row>>): (lots: map<string, seq<Lot>>)
    requires Readable(records)
  {
    map symbol | symbol in records :: RestoreRows(records[symbol]).value
  }

  ghost function RestoreLots(profile: Profile, a: State, records: map<string, seq<Row>>): (restored: Option<State>)
  {
    if Readable(records) && MatchesTheBook(profile, a.book, Restored(records)) then Some(a.(lots := Restored(records)))
    else None
  }

  lemma RestoredIncomesAreNonNegative(records: map<string, seq<Row>>, symbol: string)
    requires Readable(records) && symbol in records
    ensures IncomesNonNegative(Restored(records)[symbol])
  {
    var lots := Restored(records)[symbol];
    assert forall i :: 0 <= i < |lots| ==> lots[i] == RestoreRow(records[symbol][i]).value;
  }

  lemma MatchingIsBacking(profile: Profile, a: State, lots: map<string, seq<Lot>>)
    requires Unique(a.book)
    requires forall symbol :: symbol in lots ==> IncomesNonNegative(lots[symbol])
    ensures MatchesTheBook(profile, a.book, lots) <==> LotsBackTheBook(profile, a.(lots := lots))
  {
    hide IncomesNonNegative;
    hide AllPositive;
    if profile.dividendTax {
      forall i | 0 <= i < |a.book|
        ensures Find(a.book, a.book[i].symbol) == i
      {
        FindIsThePosition(a.book, i);
      }
      if LotsBackTheBook(profile, a.(lots := lots)) {
        forall symbol | symbol in lots
          ensures AllPositive(lots[symbol]) && Total(lots[symbol]) == a.book[Find(a.book, symbol)].quantity
        {
          assert a.book[Find(a.book, symbol)].symbol == symbol;
        }
      }
    } else if lots != map[] {
      assert lots.Keys != {};
    }
  }

  /** A restored ledger backs the book again, whatever the account's lots were before, and a ledger
      that would is never turned away. */
  lemma RestoringRebuildsTheLedger(profile: Profile, a: State, records: map<string, seq<Row>>)
    requires Books(profile, a)
    ensures RestoreLots(profile, a, records).Some? <==>
              Readable(records) && LotsBackTheBook(profile, a.(lots := Restored(records)))
    ensures RestoreLots(profile, a, records).Some? ==> Valid(profile, RestoreLots(profile, a, records).value)
  {
    hide MatchesTheBook;
    hide LotsBackTheBook;
    hide BoardOf;
    if Readable(records) {
      forall symbol | symbol in Restored(records)
        ensures IncomesNonNegative(Restored(records)[symbol])
      {
        RestoredIncomesAreNonNegative(records, symbol);
      }
      MatchingIsBacking(profile, a, Restored(records));
    }
  }

  lemma RowsReadBack(lots: seq<Lot>)
    requires IncomesNonNegative(lots)
    ensures RestoreRows(RowsOf(lots)) == Some(lots)
  {
    assert forall i :: 0 <= i < |lots| ==> RestoreRow(RowOf(lots[i])) == Some(lots[i]);
    assert RestoreRows(RowsOf(lots)).value == lots;
  }

  /** Writing the ledger out and reading it back changes nothing. */
  lemma RecordsRoundTrip(profile: Profile, a: State)
    requires Valid(profile, a)
    ensures RestoreLots(profile, a, LotRecords(a)) == Some(a)
  {
    hide BoardOf;
    hide MatchesTheBook;
    forall symbol | symbol in a.lots
      ensures RestoreRows(LotRecords(a)[symbol]) == Some(a.lots[symbol])
    {
      if profile.dividendTax {
        assert SoundLots(a.lots[symbol], a.book[Find(a.book, symbol)].quantity);
      }
      RowsReadBack(a.lots[symbol]);
    }
    assert Restored(LotRecords(a)) == a.lots;
    assert a.(lots := a.lots) == a;
    RestoringRebuildsTheLedger(profile, a, LotRecords(a));
  }

  // ---- what a restore does not check ----

  function SharesBefore(rows: seq<Row>, day: Day): (n: int)
  {
    if rows == [] then 0
    else (if rows[0].acquired.Rank() < day.Rank() then rows[0].quantity else 0) + SharesBefore(rows[1..], day)
  }

  /** Rows as an account would have written them: oldest first, none from after `day`, and enough of them
      from before it for what is sellable. */
  predicate DatedRows(rows: seq<Row>, available: int, day: Day)
  {
    && (forall i, j :: 0 <= i < j < |rows| ==> rows[i].acquired.Rank() <= rows[j].acquired.Rank())
    && (forall i :: 0 <= i < |rows| ==> rows[i].acquired.Rank() <= day.Rank())
    && available <= SharesBefore(rows, day)
  }

  lemma {:induction false} RestoredSharesBefore(rows: seq<Row>, day: Day)
    requires RestoreRows(rows).Some?
    ensures TotalBefore(RestoreRows(rows).value, day) == SharesBefore(rows, day)
  {
    hide RestoreRow;
    if rows == [] {
    } else {
      RestoredSharesBefore(rows[1..], day);
      RowKeepsItsShares(rows[0]);
      assert RestoreRows(rows).value[1..] == RestoreRows(rows[1..]).value;
    }
  }

  lemma RowKeepsItsShares(row: Row)
    requires RestoreRow(row).Some?
    ensures RestoreRow(row).value.quantity == row.quantity && RestoreRow(row).value.acquired == row.acquired
  {}

  lemma DatedRowsAreDatedLots(rows: seq<Row>, available: int, day: Day)
    requires RestoreRows(rows).Some?
    ensures DatedLots(RestoreRows(rows).value, available, day) <==> DatedRows(rows, available, day)
  {
    hide RestoreRow;
    hide RestoreRows;
    RestoredSharesBefore(rows, day);
    var lots := RestoreRows(rows).value;
    forall i | 0 <= i < |rows|
      ensures lots[i].acquired == rows[i].acquired
    {
      RowKeepsItsShares(rows[i]);
    }
    assert forall i :: 0 <= i < |lots| ==> lots[i].acquired.Rank() == rows[i].acquired.Rank();
  }

  /** A restore looks at no date. With the tax on, the restored account has its sellable shares backed by
      older lots exactly when every held name's rows are dated that way. */
  lemma RestoredIsSellableExactlyWhen(profile: Profile, a: State, records: map<string, seq<Row>>)
    requires Books(profile, a) && RestoreLots(profile, a, records).Some?
    ensures SellableIsOlder(profile, RestoreLots(profile, a, records).value) <==>
              (profile.dividendTax && a.day.Some? ==>
                 forall i :: 0 <= i < |a.book| ==>
                   && a.book[i].symbol in records
                   && DatedRows(records[a.book[i].symbol], a.book[i].available, a.day.value))
  {
    hide BoardOf;
    hide DatedLots;
    hide DatedRows;
    hide RestoreRows;
    var b := RestoreLots(profile, a, records).value;
    if profile.dividendTax && a.day.Some? {
      forall i | 0 <= i < |a.book|
        ensures a.book[i].symbol in records && a.book[i].symbol in b.lots
        ensures DatedLots(b.lots[a.book[i].symbol], a.book[i].available, a.day.value)
                <==> DatedRows(records[a.book[i].symbol], a.book[i].available, a.day.value)
      {
        assert a.book[i].symbol in b.lots;
        DatedRowsAreDatedLots(records[a.book[i].symbol], a.book[i].available, a.day.value);
      }
    }
  }

  /** From such a restore on, over every run in date order, no order raises once a day is open. */
  lemma OrdersNeverRaiseAfterARestore(profile: Profile, a: State, records: map<string, seq<Row>>, events: seq<Event>,
                                      order: Order, bar: Option<Bar>, raw: Option<real>)
    requires profile.Valid() && Books(profile, a) && RestoreLots(profile, a, records).Some?
    requires a.day.Some? && forall i :: 0 <= i < |a.book| && profile.dividendTax ==>
               a.book[i].symbol in records && DatedRows(records[a.book[i].symbol], a.book[i].available, a.day.value)
    ensures Valid(profile, RestoreLots(profile, a, records).value)
    ensures var end := RunFrom(profile, RestoreLots(profile, a, records).value, events);
            InOrderFrom(a.day, events) && end.Done? ==>
              Valid(profile, end.value) && Execute(profile, end.value, order, bar, raw).Done?
  {
    hide DatedRows;
    hide BoardOf;
    hide MatchesTheBook;
    hide Books;
    hide LotsBackTheBook;
    hide SellableIsOlder;
    RestoringRebuildsTheLedger(profile, a, records);
    RestoredIsSellableExactlyWhen(profile, a, records);
    var restored := RestoreLots(profile, a, records).value;
    hide RestoreLots;
    if InOrderFrom(a.day, events) && RunFrom(profile, restored, events).Done? {
      RunsNeverRaise(profile, restored, events, order, bar, raw);
    }
  }

  lemma RunsNeverRaise(profile: Profile, a: State, events: seq<Event>, order: Order, bar: Option<Bar>,
                       raw: Option<real>)
    requires profile.Valid() && Valid(profile, a) && SellableIsOlder(profile, a) && a.day.Some?
    requires InOrderFrom(a.day, events) && RunFrom(profile, a, events).Done?
    ensures Valid(profile, RunFrom(profile, a, events).value)
    ensures Execute(profile, RunFrom(profile, a, events).value, order, bar, raw).Done?
  {
    hide BoardOf;
    hide LotsBackTheBook;
    hide SellableIsOlder;
    hide RunFrom;
    RunsKeepTheLedger(profile, a, events);
    OrdersNeverRaise(profile, RunFrom(profile, a, events).value, order, bar, raw);
  }
}
