/**
 * Resource records and what `parseCSV` extracts from CSV text: the header
 * heuristics that locate each column, the per-row acceptance rules and the
 * cleaning of the text fields. `WelfareMap.ParseCSV` runs this row by row.
 */
module Records {
  import opened Text
  import opened Optional
  import opened Categories

  /** One community resource. Its map position is attached later by geocoding and is not modelled. */
  datatype Resource = Resource(id: int, name: string, category: Category, address: string, phone: string)

  /** Placeholders the parser substitutes for a missing or empty cell. */
  const UnknownName: string := "未知名稱"
  const UnknownAddress: string := "未知地址"
  const UnknownPhone: string := "未知電話"

  /** The four columns the parser looks for. */
  datatype Field = NameField | CategoryField | AddressField | PhoneField

  /** Whether header cell `h`, trimmed, names field `f` (Chinese synonyms as written, English ones case-insensitively). */
  predicate HeaderMatches(f: Field, h: string) {
    var t := Trim(h);
    match f
    case NameField =>
      Contains(t, "名稱") || Contains(t, "機構") || Contains(Lower(t), "name")
    case CategoryField =>
      Contains(t, "類別") || Contains(t, "分類") || Contains(t, "種類") ||
      Contains(Lower(t), "category") || Contains(Lower(t), "type")
    case AddressField =>
      Contains(t, "地址") || Contains(Lower(t), "address")
    case PhoneField =>
      Contains(t, "電話") || Contains(t, "聯絡") ||
      Contains(Lower(t), "phone") || Contains(Lower(t), "contact")
  }

  /** `findIndex`: the first header naming `f`, or -1. */
  function FindHeader(headers: seq<string>, f: Field): int {
    if headers == [] then -1
    else if HeaderMatches(f, headers[0]) then 0
    else
      var k := FindHeader(headers[1..], f);
      if k == -1 then -1 else k + 1
  }

  /** `FindHeader` yields the position of the first header naming the field, or -1 when none does. */
  lemma {:induction false} FindHeaderSpec(headers: seq<string>, f: Field)
    ensures -1 <= FindHeader(headers, f) < |headers|
    ensures FindHeader(headers, f) >= 0 ==>
              HeaderMatches(f, headers[FindHeader(headers, f)]) &&
              forall j :: 0 <= j < FindHeader(headers, f) ==> !HeaderMatches(f, headers[j])
    ensures FindHeader(headers, f) == -1 ==> forall j :: 0 <= j < |headers| ==> !HeaderMatches(f, headers[j])
  {
    if headers != [] && !HeaderMatches(f, headers[0]) {
      FindHeaderSpec(headers[1..], f);
      assert forall j :: 1 <= j < |headers| ==> headers[j] == headers[1..][j - 1];
    }
  }

  /** The fixed column used when no header names the field (second to fifth column). */
  function DefaultColumn(f: Field): nat {
    match f
    case NameField => 1
    case AddressField => 2
    case PhoneField => 3
    case CategoryField => 4
  }

  /** The column the parser reads field `f` from. */
  function ColumnOf(headers: seq<string>, f: Field): nat {
    var k := FindHeader(headers, f);
    if k < 0 then DefaultColumn(f) else k
  }

  /** Each field is read from the first header naming it, and from its fixed default when no header does. */
  lemma ColumnChoice(headers: seq<string>, f: Field)
    ensures (exists j :: 0 <= j < |headers| && HeaderMatches(f, headers[j])) ==>
              ColumnOf(headers, f) < |headers| && HeaderMatches(f, headers[ColumnOf(headers, f)]) &&
              forall j :: 0 <= j < ColumnOf(headers, f) ==> !HeaderMatches(f, headers[j])
    ensures (forall j :: 0 <= j < |headers| ==> !HeaderMatches(f, headers[j])) ==> ColumnOf(headers, f) == DefaultColumn(f)
  {
    FindHeaderSpec(headers, f);
  }

  /** Where each field is read from; every field is located independently of the others. */
  datatype Layout = Layout(name: nat, category: nat, address: nat, phone: nat)

  function LayoutOf(headers: seq<string>): Layout {
    Layout(ColumnOf(headers, NameField), ColumnOf(headers, CategoryField),
           ColumnOf(headers, AddressField), ColumnOf(headers, PhoneField))
  }

  /** `columns[idx] || placeholder`: a missing cell or an empty one becomes the placeholder. */
  function Cell(columns: seq<string>, idx: nat, placeholder: string): string {
    if idx < |columns| && columns[idx] != "" then columns[idx] else placeholder
  }

  /** Quote removal followed by trimming, as applied to name, address and phone. */
  function Clean(s: string): string {
    Trim(StripQuotes(s))
  }

  /** Text with no quote character and no white space at either end. */
  predicate IsCleanText(s: string) {
    NoEdgeSpace(s) && forall i :: 0 <= i < |s| ==> !IsQuote(s[i])
  }

  lemma CleanIsClean(s: string)
    ensures IsCleanText(Clean(s))
  {
    TrimSpec(StripQuotes(s));
  }

  /** What every accepted record satisfies. */
  predicate WellFormed(r: Resource) {
    IsCleanText(r.name) && IsCleanText(r.address) && IsCleanText(r.phone) &&
    r.address != "" && r.address != UnknownAddress
  }

  /** The cleaned address a row yields. */
  function RowAddress(columns: seq<string>, layout: Layout): string {
    Clean(Cell(columns, layout.address, UnknownAddress))
  }

  /** The record data line `row` (line number `id`) yields, or None when the row is skipped. */
  function ParseRow(row: string, id: int, layout: Layout): Option<Resource> {
    if Trim(row) == "" then None
    else
      var columns := Split(row, ',');
      if |columns| < 3 then None
      else
        var address := RowAddress(columns, layout);
        if address == "" || address == UnknownAddress then None
        else Some(Resource(id,
                           Clean(Cell(columns, layout.name, UnknownName)),
                           NormalizeCategory(Cell(columns, layout.category, "")),
                           address,
                           Clean(Cell(columns, layout.phone, UnknownPhone))))
  }

  /** A row is kept exactly when it is not blank, has three or more fields and a usable cleaned address. */
  lemma ParseRowAccepts(row: string, id: int, layout: Layout)
    ensures ParseRow(row, id, layout).Some? <==>
              !AllSpace(row) && |Split(row, ',')| >= 3 &&
              RowAddress(Split(row, ','), layout) != "" &&
              RowAddress(Split(row, ','), layout) != UnknownAddress
    ensures ParseRow(row, id, layout).Some? ==>
              var r := ParseRow(row, id, layout).value;
              r.id == id && WellFormed(r) &&
              r.category == NormalizeCategory(Cell(Split(row, ','), layout.category, ""))
  {
    TrimEmptyIff(row);
    var columns := Split(row, ',');
    CleanIsClean(Cell(columns, layout.name, UnknownName));
    CleanIsClean(Cell(columns, layout.address, UnknownAddress));
    CleanIsClean(Cell(columns, layout.phone, UnknownPhone));
  }

  /** The three cases `parseCSV` tells apart while reading a row, in the order it tests them. */
  lemma ParseRowCases(row: string, id: int, layout: Layout, name: string, category: Category, address: string, phone: string)
    requires Trim(row) != "" && |Split(row, ',')| >= 3
    requires var columns := Split(row, ',');
             name == Clean(Cell(columns, layout.name, UnknownName)) &&
             category == NormalizeCategory(Cell(columns, layout.category, "")) &&
             address == Clean(Cell(columns, layout.address, UnknownAddress)) &&
             phone == Clean(Cell(columns, layout.phone, UnknownPhone))
    ensures ParseRow(row, id, layout) ==
              if address == "" || address == UnknownAddress then None
              else Some(Resource(id, name, category, address, phone))
  {
  }

  /** Text made only of white space and quote characters (the empty text included). */
  predicate BlankOrQuotes(s: string) {
    forall i :: 0 <= i < |s| ==> IsSpace(s[i]) || IsQuote(s[i])
  }

  /** Text made only of white space and quotes cleans to the empty string. */
  lemma BlankCleansEmpty(s: string)
    requires BlankOrQuotes(s)
    ensures Clean(s) == ""
  {
    var q := StripQuotes(s);
    forall i | 0 <= i < |q| ensures IsSpace(q[i]) {
      assert q[i] in q;
      var j :| 0 <= j < |s| && s[j] == q[i];
    }
    TrimEmptyIff(q);
  }

  /** Clean text is its own cleaned form. */
  lemma CleanKeeps(s: string)
    requires IsCleanText(s)
    ensures Clean(s) == s
  {
    StripQuotesKeeps(s);
    TrimKeeps(s);
  }

  /** The placeholders survive cleaning unchanged. */
  lemma UnknownNameClean()
    ensures Clean(UnknownName) == UnknownName
  {
    assert UnknownName == ['未', '知', '名', '稱'];
    CleanKeeps(UnknownName);
  }

  lemma UnknownAddressClean()
    ensures Clean(UnknownAddress) == UnknownAddress
  {
    assert UnknownAddress == ['未', '知', '地', '址'];
    CleanKeeps(UnknownAddress);
  }

  lemma UnknownPhoneClean()
    ensures Clean(UnknownPhone) == UnknownPhone
  {
    assert UnknownPhone == ['未', '知', '電', '話'];
    CleanKeeps(UnknownPhone);
  }

  /**
   * A row whose address column is missing, empty, or only white space and
   * quotes yields no record: the placeholder is rejected, and a blank cell
   * survives the `||` default only to clean to the empty string.
   */
  lemma AddressRequired(row: string, id: int, layout: Layout)
    requires var columns := Split(row, ',');
             layout.address >= |columns| || BlankOrQuotes(columns[layout.address])
    ensures ParseRow(row, id, layout) == None
  {
    var columns := Split(row, ',');
    if Trim(row) != "" && |columns| >= 3 {
      if layout.address < |columns| && columns[layout.address] != "" {
        BlankCleansEmpty(columns[layout.address]);
      } else {
        UnknownAddressClean();
      }
    }
  }

  /** In a kept record, a missing or empty name or phone cell becomes its placeholder, and a missing or empty category cell gives `foundation`. */
  lemma PlaceholderFields(row: string, id: int, layout: Layout)
    ensures ParseRow(row, id, layout).Some? ==>
            var columns := Split(row, ','); var r := ParseRow(row, id, layout).value;
            ((layout.name >= |columns| || columns[layout.name] == "") ==> r.name == UnknownName) &&
            ((layout.phone >= |columns| || columns[layout.phone] == "") ==> r.phone == UnknownPhone) &&
            ((layout.category >= |columns| || columns[layout.category] == "") ==> r.category == Foundation)
  {
    UnknownNameClean();
    UnknownPhoneClean();
  }

  /** In a kept record, a name or phone cell that is present but only white space and quotes is kept by the `||` default and cleans to the empty string. */
  lemma BlankFieldsKept(row: string, id: int, layout: Layout)
    ensures ParseRow(row, id, layout).Some? ==>
            var columns := Split(row, ','); var r := ParseRow(row, id, layout).value;
            (layout.name < |columns| && columns[layout.name] != "" && BlankOrQuotes(columns[layout.name]) ==> r.name == "") &&
            (layout.phone < |columns| && columns[layout.phone] != "" && BlankOrQuotes(columns[layout.phone]) ==> r.phone == "")
  {
    var columns := Split(row, ',');
    if layout.name < |columns| && BlankOrQuotes(columns[layout.name]) {
      BlankCleansEmpty(columns[layout.name]);
    }
    if layout.phone < |columns| && BlankOrQuotes(columns[layout.phone]) {
      BlankCleansEmpty(columns[layout.phone]);
    }
  }

  /** The lines of the text, then the header cells of its first line. */
  function Lines(csv: string): seq<string> {
    Split(csv, '\n')
  }

  function Headers(csv: string): seq<string> {
    Split(Lines(csv)[0], ',')
  }

  /** What each line yields: nothing for the header line, `ParseRow` for every data line. */
  function RowResults(rows: seq<string>, layout: Layout): (r: seq<Option<Resource>>)
    ensures |r| == |rows|
  {
    seq(|rows|, i requires 0 <= i < |rows| => if i == 0 then None else ParseRow(rows[i], i, layout))
  }

  /** The records among the first n row results, in line order. */
  function Collect(results: seq<Option<Resource>>, n: nat): seq<Resource>
    requires n <= |results|
  {
    if n == 0 then []
    else Collect(results, n - 1) +
         match results[n - 1]
         case Some(r) => [r]
         case None => []
  }

  /** Everything one `parseCSV` call appends to the directory. */
  function Parsed(csv: string): seq<Resource> {
    var rows := Lines(csv);
    Collect(RowResults(rows, LayoutOf(Headers(csv))), |rows|)
  }

  /** Each row result carries its own line number as id, and is well formed; the header line yields nothing. */
  predicate ResultsSound(results: seq<Option<Resource>>) {
    |results| >= 1 && results[0].None? &&
    forall i :: 0 <= i < |results| && results[i].Some? ==> results[i].value.id == i && WellFormed(results[i].value)
  }

  lemma RowResultsSound(rows: seq<string>, layout: Layout)
    requires |rows| >= 1
    ensures ResultsSound(RowResults(rows, layout))
  {
    var results := RowResults(rows, layout);
    forall i | 1 <= i < |rows| && results[i].Some?
      ensures results[i].value.id == i && WellFormed(results[i].value)
    {
      ParseRowAccepts(rows[i], i, layout);
    }
  }

  /** Each collected record is the result of the line its id names, below n; ids strictly increase. */
  lemma {:induction false} CollectFrom(results: seq<Option<Resource>>, n: nat)
    requires n <= |results| && ResultsSound(results)
    ensures forall k :: 0 <= k < |Collect(results, n)| ==>
              var r := Collect(results, n)[k]; 0 <= r.id < n && results[r.id] == Some(r)
    ensures forall j, k :: 0 <= j < k < |Collect(results, n)| ==> Collect(results, n)[j].id < Collect(results, n)[k].id
  {
    if n > 0 {
      CollectFrom(results, n - 1);
    }
  }

  /** Every record among the first n row results is collected. */
  lemma {:induction false} CollectHas(results: seq<Option<Resource>>, n: nat, i: nat)
    requires i < n <= |results| && results[i].Some?
    ensures exists k :: 0 <= k < |Collect(results, n)| && Collect(results, n)[k] == results[i].value
  {
    var all := Collect(results, n);
    if i < n - 1 {
      CollectHas(results, n - 1, i);
      var prev := Collect(results, n - 1);
      var k :| 0 <= k < |prev| && prev[k] == results[i].value;
      assert all[k] == prev[k];
    } else {
      assert all[|all| - 1] == results[i].value;
    }
  }

  /**
   * What one `parseCSV` call yields: well-formed records in line order with
   * strictly increasing line-number ids, one for each data line that the row
   * rules keep and none for the others.
   */
  lemma ParsedSpec(csv: string)
    ensures forall k :: 0 <= k < |Parsed(csv)| ==> WellFormed(Parsed(csv)[k])
    ensures forall k :: 0 <= k < |Parsed(csv)| ==> 1 <= Parsed(csv)[k].id < |Lines(csv)|
    ensures forall j, k :: 0 <= j < k < |Parsed(csv)| ==> Parsed(csv)[j].id < Parsed(csv)[k].id
    ensures forall i :: 1 <= i < |Lines(csv)| ==>
              ((exists k :: 0 <= k < |Parsed(csv)| && Parsed(csv)[k].id == i) <==>
                 ParseRow(Lines(csv)[i], i, LayoutOf(Headers(csv))).Some?)
  {
    var rows, layout := Lines(csv), LayoutOf(Headers(csv));
    var results := RowResults(rows, layout);
    var all := Parsed(csv);
    assert all == Collect(results, |rows|);
    RowResultsSound(rows, layout);
    CollectFrom(results, |rows|);
    forall k | 0 <= k < |all| ensures WellFormed(all[k]) && all[k].id != 0 {
      assert results[all[k].id] == Some(all[k]);
    }
    forall i | 1 <= i < |rows|
      ensures (exists k :: 0 <= k < |all| && all[k].id == i) <==> ParseRow(rows[i], i, layout).Some?
    {
      assert results[i] == ParseRow(rows[i], i, layout);
      if results[i].Some? {
        CollectHas(results, |rows|, i);
      }
    }
  }
}
