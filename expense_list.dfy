/** The pure part of the expense list view (components/ExpenseList.tsx): the
    CSV export string and the currency symbol. */
module ExpenseList {

  import opened Types
  import Strings
  import Wrappers

  /** The data-URI scheme and media type the export starts with. */
  const DataUriPrefix: string := "data:text/csv;charset=utf-8,"

  /** The header cells, joined with commas into the first CSV line. */
  const Headers: seq<string> := ["Item", "Category", "Amount"]

  /** One CSV row: item, category and amount joined with commas, each field
      emitted as it is, without quoting. */
  function Row(e: ExpenseItem): string
  {
    Strings.Join([e.item, e.category, Strings.IntToString(e.amount)], ',')
  }

  /** The rows, one per expense, in list order. */
  function Rows(expenses: seq<ExpenseItem>): (rows: seq<string>)
    ensures |rows| == |expenses|
    ensures forall i :: 0 <= i < |expenses| ==> rows[i] == Row(expenses[i])
  {
    seq(|expenses|, i requires 0 <= i < |expenses| => Row(expenses[i]))
  }

  /** The closing line: the label, an empty category cell and the total. */
  function TotalRow(total: int): string
  {
    "TOTAL,," + Strings.IntToString(total)
  }

  /** The text of the exported data URI, before URI encoding. */
  function CsvContent(data: ExpenseResponse): string
  {
    DataUriPrefix + Strings.Join(Headers, ',') + "\n"
      + Strings.Join(Rows(data.expenses), '\n')
      + "\n" + TotalRow(data.totalAmount)
  }

  /** The header cells joined give the header line. */
  lemma HeaderLine()
    ensures Strings.Join(Headers, ',') == "Item,Category,Amount"
  {
    Strings.JoinThree("Item", "Category", "Amount", ',');
  }

  /** The export starts with the prefix followed at once by the header line
      (which `HeaderLine` spells out), and ends with a line break and the
      total row. */
  lemma CsvFraming(data: ExpenseResponse)
    ensures var csv, head, tail :=
        CsvContent(data), DataUriPrefix + Strings.Join(Headers, ',') + "\n", "\n" + TotalRow(data.totalAmount);
      && head <= csv
      && |tail| <= |csv| && csv[|csv| - |tail|..] == tail
  {
    var head := DataUriPrefix + Strings.Join(Headers, ',') + "\n";
    var body := Strings.Join(Rows(data.expenses), '\n');
    var tail := "\n" + TotalRow(data.totalAmount);
    assert CsvContent(data) == head + body + tail;
    Strings.Framed(head, body, tail);
  }

  /** No item or category holds a line break. */
  predicate SingleLineFields(expenses: seq<ExpenseItem>)
  {
    forall i :: 0 <= i < |expenses| ==> '\n' !in expenses[i].item && '\n' !in expenses[i].category
  }

  /** The lines between the header and the total: the rows, or one empty
      line when there are no expenses (the empty join). */
  function BodyLines(expenses: seq<ExpenseItem>): seq<string>
  {
    if expenses == [] then [""] else Rows(expenses)
  }

  lemma RowSingleLine(e: ExpenseItem)
    requires '\n' !in e.item && '\n' !in e.category
    ensures '\n' !in Row(e)
  {
    var cells := [e.item, e.category, Strings.IntToString(e.amount)];
    assert forall i :: 0 <= i < |cells| ==> '\n' !in cells[i];
    Strings.JoinFree(cells, ',', '\n');
  }

  /** The lines of the export after the data-URI prefix. */
  function CsvLineList(data: ExpenseResponse): seq<string>
  {
    [Strings.Join(Headers, ',')] + BodyLines(data.expenses) + [TotalRow(data.totalAmount)]
  }

  lemma CsvIsJoinedLines(data: ExpenseResponse)
    ensures CsvContent(data) == DataUriPrefix + Strings.Join(CsvLineList(data), '\n')
  {
    var header, middle, total := Strings.Join(Headers, ','), BodyLines(data.expenses), TotalRow(data.totalAmount);
    var body := Strings.Join(Rows(data.expenses), '\n');
    assert Strings.Join(middle, '\n') == body;
    Strings.JoinAround(header, middle, total, '\n');
    RegroupLines(DataUriPrefix, header, body, total);
  }

  /** Regrouping the lines after the prefix, stated over plain strings so
      that the solver does not unfold the definitions behind them. */
  lemma RegroupLines(prefix: string, header: string, body: string, total: string)
    ensures prefix + header + "\n" + body + "\n" + total
         == prefix + (header + "\n" + body + "\n" + total)
  {
  }

  lemma HeaderSingleLine()
    ensures '\n' !in Strings.Join(Headers, ',')
  {
    Strings.JoinFree(Headers, ',', '\n');
  }

  lemma TotalRowSingleLine(total: int)
    ensures '\n' !in TotalRow(total)
  {
    var digits := Strings.IntToString(total);
    assert '\n' !in digits;
    assert TotalRow(total) == "TOTAL,," + digits;
  }

  lemma CsvLinesAreSingle(data: ExpenseResponse)
    requires SingleLineFields(data.expenses)
    ensures forall i :: 0 <= i < |CsvLineList(data)| ==> '\n' !in CsvLineList(data)[i]
  {
    var middle := BodyLines(data.expenses);
    var lines := CsvLineList(data);
    assert lines == [Strings.Join(Headers, ',')] + middle + [TotalRow(data.totalAmount)];
    HeaderSingleLine();
    TotalRowSingleLine(data.totalAmount);
    forall i | 0 <= i < |middle|
      ensures '\n' !in middle[i]
    {
      if data.expenses != [] {
        RowSingleLine(data.expenses[i]);
      }
    }
    forall i | 0 <= i < |lines|
      ensures '\n' !in lines[i]
    {
      if 0 < i < |lines| - 1 {
        assert lines[i] == middle[i - 1];
      }
    }
  }

  /** Split at line breaks, the content after the prefix is the header, one
      row per expense in order (or a single empty line when there are none),
      and the total row: |expenses| + 2 lines, or 3 for no expenses. */
  lemma CsvLines(data: ExpenseResponse)
    requires SingleLineFields(data.expenses)
    ensures var csv := CsvContent(data);
      && |DataUriPrefix| <= |csv|
      && var lines := Strings.SplitOn(csv[|DataUriPrefix|..], '\n');
      && lines == ["Item,Category,Amount"] + BodyLines(data.expenses) + [TotalRow(data.totalAmount)]
      && |lines| == (if data.expenses == [] then 3 else |data.expenses| + 2)
  {
    var lines := CsvLineList(data);
    HeaderLine();
    CsvIsJoinedLines(data);
    CsvLinesAreSingle(data);
    Strings.SplitJoin(lines, '\n');
    var csv := CsvContent(data);
    assert csv[|DataUriPrefix|..] == Strings.Join(lines, '\n');
  }

  /** A row has three comma-separated columns plus one for every comma
      inside the item or the category: nothing is quoted. */
  lemma RowColumns(e: ExpenseItem)
    ensures |Strings.SplitOn(Row(e), ',')|
      == 3 + Strings.Occurrences(e.item, ',') + Strings.Occurrences(e.category, ',')
  {
    var amount := Strings.IntToString(e.amount);
    Strings.JoinThree(e.item, e.category, amount, ',');
    assert Row(e) == e.item + [','] + (e.category + [','] + amount);
    Strings.OccurrencesAppend(e.item + [','], e.category + [','] + amount, ',');
    Strings.OccurrencesAppend(e.item, [','], ',');
    Strings.OccurrencesAppend(e.category + [','], amount, ',');
    Strings.OccurrencesAppend(e.category, [','], ',');
    Strings.OccurrencesPositive(amount, ',');
  }

  /** A row reads back as exactly its three fields when the item and the
      category hold no comma, and has more columns otherwise. */
  lemma RowFields(e: ExpenseItem)
    ensures var cells := Strings.SplitOn(Row(e), ',');
      (|cells| == 3 <==> ',' !in e.item && ',' !in e.category)
      && (|cells| == 3 ==>
            cells == [e.item, e.category, Strings.IntToString(e.amount)]
            && Strings.ParseInt(cells[2]) == Wrappers.Some(e.amount))
  {
    RowColumns(e);
    Strings.OccurrencesPositive(e.item, ',');
    Strings.OccurrencesPositive(e.category, ',');
    if ',' !in e.item && ',' !in e.category {
      Strings.SplitJoin([e.item, e.category, Strings.IntToString(e.amount)], ',');
      Strings.IntRoundTrip(e.amount);
    }
  }

  /** The symbol shown before amounts: the rupee sign exactly for "INR",
      the dollar sign for every other currency. */
  function CurrencySymbol(currency: string): (symbol: string)
    ensures symbol == "\U{20B9}" <==> currency == "INR"
    ensures symbol == "$" <==> currency != "INR"
  {
    if currency == "INR" then "\U{20B9}" else "$"
  }

  // The export of a two-line report, spelled out.

  const Aaloo: ExpenseItem := ExpenseItem("aaloo", 200, "Food & Vegetables")
  const Petrol: ExpenseItem := ExpenseItem("petrol", 500, "Transportation")

  lemma AalooRow()
    ensures Row(Aaloo) == "aaloo" + "," + "Food & Vegetables" + "," + "200"
  {
    assert Strings.NatToString(200) == "200";
    Strings.JoinThree(Aaloo.item, Aaloo.category, "200", ',');
  }

  lemma PetrolRow()
    ensures Row(Petrol) == "petrol" + "," + "Transportation" + "," + "500"
  {
    assert Strings.NatToString(50) == "50";
    assert Strings.IntToString(500) == "500";
    Strings.JoinThree(Petrol.item, Petrol.category, "500", ',');
  }

  lemma ExampleTotalRow()
    ensures TotalRow(700) == "TOTAL,,700"
  {
    assert Strings.NatToString(700) == "700";
  }

  lemma ExampleBody()
    ensures Strings.Join(Rows([Aaloo, Petrol]), '\n') == Row(Aaloo) + "\n" + Row(Petrol)
  {
    var rows := Rows([Aaloo, Petrol]);
    assert rows[1..] == [rows[1]];
  }

  /** Two expenses totalling 700 export as the header, the two rows in
      order (spelled out by `AalooRow` and `PetrolRow`) and `TOTAL,,700`. */
  lemma ExampleExport()
    ensures CsvContent(ExpenseResponse("", "", [Aaloo, Petrol], 700, "INR"))
         == DataUriPrefix + "Item,Category,Amount" + "\n"
            + Row(Aaloo) + "\n" + Row(Petrol) + "\n" + "TOTAL,,700"
  {
    HeaderLine();
    ExampleBody();
    ExampleTotalRow();
    RegroupRows("Item,Category,Amount", Row(Aaloo), Row(Petrol), "TOTAL,,700");
  }

  /** Regrouping the joined body, kept apart from the literal strings of the
      example so that the solver sees only the shape of the concatenation. */
  lemma RegroupRows(header: string, first: string, second: string, total: string)
    ensures DataUriPrefix + header + "\n" + (first + "\n" + second) + "\n" + total
         == DataUriPrefix + header + "\n" + first + "\n" + second + "\n" + total
  {
  }
}
