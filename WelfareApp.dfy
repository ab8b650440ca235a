/**
 * The page's mutable state: the resource directory every operation reads
 * and the markers placed for its geocoded records. `parseCSV` appends to
 * the directory row by row, `useSampleData` replaces it, the loader chooses
 * between the two, and `filterResources` switches each marker on or off.
 */
module WelfareApp {
  import opened Text
  import opened Optional
  import opened Categories
  import opened Records
  import opened ResourceFilter
  import opened Loader

  /** A map marker: the record it stands for, and whether it is shown. */
  class Marker {
    const resource: Resource
    var visible: bool

    /** A new marker is visible, as a freshly placed map marker is. */
    constructor (resource: Resource)
      ensures this.resource == resource && visible
    {
      this.resource := resource;
      visible := true;
    }
  }

  /** Some record in `rs` carries `id` (`filteredResources.some(r => r.id === id)`). */
  predicate HasId(rs: seq<Resource>, id: int) {
    exists k :: 0 <= k < |rs| && rs[k].id == id
  }

  class WelfareMap {
    var resources: seq<Resource>
    var markers: seq<Marker>

    constructor ()
      ensures resources == [] && markers == []
    {
      resources := [];
      markers := [];
    }

    /**
     * `parseCSV`: locates the columns from the header line, then appends the
     * record of every data line the row rules keep, in line order; what the
     * directory held before is kept in front.
     */
    method ParseCSV(csvData: string)
      modifies this
      ensures resources == old(resources) + Parsed(csvData)
      ensures markers == old(markers)
    {
      var rows := Split(csvData, '\n');
      var headers := Split(rows[0], ',');
      var layout := LocateColumns(headers);
      assert rows == Lines(csvData) && headers == Headers(csvData);
      AppendRows(rows, layout, RowResults(rows, layout));
    }

    /**
     * The row loop of `parseCSV`: every line after the header, in order,
     * appended when it yields a record. `results[k]` is what line `k` yields.
     */
    method AppendRows(rows: seq<string>, layout: Layout, ghost results: seq<Option<Resource>>)
      requires |rows| >= 1 && |results| == |rows| && results[0] == None
      requires forall k {:trigger ParseRow(rows[k], k, layout)} :: 1 <= k < |rows| ==> results[k] == ParseRow(rows[k], k, layout)
      modifies this
      ensures resources == old(resources) + Collect(results, |rows|)
      ensures markers == old(markers)
    {
      var i := 1;
      while i < |rows|
        invariant 1 <= i <= |rows|
        invariant resources == old(resources) + Collect(results, i)
        invariant markers == old(markers)
      {
        var row := ReadRow(rows, i, layout, results);
        if row.Some? {
          resources := resources + [row.value];
        }
        i := i + 1;
      }
    }

    /** `useSampleData`: the directory becomes the four built-in records. */
    method UseSampleData()
      modifies this
      ensures resources == SampleResources()
      ensures markers == old(markers)
    {
      resources := SampleResources();
    }

    /**
     * `loadCSV`: tries the two file names in order; the first text received
     * is parsed (an empty one is ignored), and when no file loads the sample
     * records are used instead.
     */
    method LoadCSV(server: string -> Response) returns (attempted: seq<string>, data: Option<string>)
      modifies this
      ensures |attempted| <= |FileNames| && attempted == FileNames[..|attempted|] && attempted != []
      ensures data.Some? <==> exists k :: 0 <= k < |FileNames| && server(FileNames[k]).status == 200
      ensures forall k :: 0 <= k < |attempted| - 1 ==> server(attempted[k]).status != 200
      ensures data.Some? ==>
                server(attempted[|attempted| - 1]).status == 200 &&
                data.value == server(attempted[|attempted| - 1]).body
      ensures data.None? ==> attempted == FileNames
      ensures data.None? ==> resources == SampleResources()
      ensures data.Some? && data.value != "" ==> resources == old(resources) + Parsed(data.value)
      ensures data == Some("") ==> resources == old(resources)
      ensures markers == old(markers)
    {
      attempted, data := TryLoadCSV(FileNames, server);
      match data {
        case Some(csvData) =>
          if csvData != "" {
            ParseCSV(csvData);
          }
        case None =>
          UseSampleData();
      }
    }

    /**
     * The completion of one record's geocode request: on OK a visible marker
     * for the record is added after the existing ones; otherwise nothing changes.
     */
    method GeocodeCompleted(resource: Resource, status: string)
      modifies this
      ensures resources == old(resources)
      ensures status == "OK" ==>
                |markers| == |old(markers)| + 1 && markers[..|old(markers)|] == old(markers) &&
                fresh(markers[|old(markers)|]) &&
                markers[|old(markers)|].resource == resource && markers[|old(markers)|].visible
      ensures status != "OK" ==> markers == old(markers)
    {
      if status == "OK" {
        var marker := new Marker(resource);
        markers := markers + [marker];
      }
    }

    /**
     * `filterResources`: the records matching the lower-cased search text and
     * the active category button, in directory order; afterwards each marker
     * is visible exactly when its record's id is among them.
     */
    method FilterResources(searchInput: string, activeCategory: string) returns (filtered: seq<Resource>)
      modifies set m | m in markers
      ensures filtered == Filter(resources, Lower(searchInput), activeCategory)
      ensures forall k :: 0 <= k < |markers| ==> markers[k].visible == HasId(filtered, markers[k].resource.id)
    {
      var searchText := Lower(searchInput);
      filtered := Filter(resources, searchText, activeCategory);
      var k := 0;
      while k < |markers|
        invariant 0 <= k <= |markers|
        invariant forall j :: 0 <= j < k ==> markers[j].visible == HasId(filtered, markers[j].resource.id)
      {
        markers[k].visible := HasId(filtered, markers[k].resource.id);
        k := k + 1;
      }
    }
  }

  /** The `findIndex` scans of `parseCSV`, each falling back to its fixed column when the header is not found. */
  method LocateColumns(headers: seq<string>) returns (layout: Layout)
    ensures layout == LayoutOf(headers)
  {
    var nameIndex := FindHeader(headers, NameField);
    var categoryIndex := FindHeader(headers, CategoryField);
    var addressIndex := FindHeader(headers, AddressField);
    var phoneIndex := FindHeader(headers, PhoneField);
    FindHeaderSpec(headers, NameField);
    FindHeaderSpec(headers, CategoryField);
    FindHeaderSpec(headers, AddressField);
    FindHeaderSpec(headers, PhoneField);
    layout := Layout(if nameIndex != -1 then nameIndex else 1,
                     if categoryIndex != -1 then categoryIndex else 4,
                     if addressIndex != -1 then addressIndex else 2,
                     if phoneIndex != -1 then phoneIndex else 3);
  }

  /**
   * One pass of the `parseCSV` row loop, on line `i`: skips a blank row, a
   * row of fewer than three fields and a row whose cleaned address is empty
   * or the placeholder; otherwise builds the record, cleaning name, address
   * and phone after the placeholders are filled in. The result is the one
   * `ParseRow` gives for the line, recorded in `results`.
   */
  method ReadRow(rows: seq<string>, i: nat, layout: Layout, ghost results: seq<Option<Resource>>)
    returns (r: Option<Resource>)
    requires 1 <= i < |rows| && |results| == |rows|
    requires forall k {:trigger ParseRow(rows[k], k, layout)} :: 1 <= k < |rows| ==> results[k] == ParseRow(rows[k], k, layout)
    ensures r == results[i]
  {
    var row := rows[i];
    assert results[i] == ParseRow(row, i, layout);
    if Trim(row) == "" {
      return None;
    }
    var columns := Split(row, ',');
    if |columns| < 3 {
      return None;
    }
    var category := MapCategory(Cell(columns, layout.category, ""));
    var resource := Resource(i, Cell(columns, layout.name, UnknownName), category,
                             Cell(columns, layout.address, UnknownAddress),
                             Cell(columns, layout.phone, UnknownPhone));
    resource := resource.(name := Trim(StripQuotes(resource.name)));
    resource := resource.(address := Trim(StripQuotes(resource.address)));
    resource := resource.(phone := Trim(StripQuotes(resource.phone)));
    ParseRowCases(row, i, layout, resource.name, resource.category, resource.address, resource.phone);
    if resource.address == "" || resource.address == UnknownAddress {
      return None;
    }
    return Some(resource);
  }

  /**
   * When ids are unique in the directory, a marker for one of its records is
   * shown after filtering exactly when that record matches.
   */
  lemma VisibleIffMatches(rs: seq<Resource>, searchText: string, activeCategory: string, r: Resource)
    requires r in rs
    requires forall i, j :: 0 <= i < j < |rs| ==> rs[i].id != rs[j].id
    ensures HasId(Filter(rs, searchText, activeCategory), r.id) <==> Matches(r, searchText, activeCategory)
  {
    var f := Filter(rs, searchText, activeCategory);
    FilterMembers(rs, searchText, activeCategory, r);
    if Matches(r, searchText, activeCategory) {
      var k :| 0 <= k < |f| && f[k] == r;
    }
    if HasId(f, r.id) {
      var k :| 0 <= k < |f| && f[k].id == r.id;
      FilterMembers(rs, searchText, activeCategory, f[k]);
      var i :| 0 <= i < |rs| && rs[i] == f[k];
      var j :| 0 <= j < |rs| && rs[j] == r;
      assert i == j;
    }
  }

  /** After one `parseCSV` into an empty directory, ids are unique, so visibility follows the match exactly. */
  lemma ParsedIdsUnique(csv: string)
    ensures forall i, j :: 0 <= i < j < |Parsed(csv)| ==> Parsed(csv)[i].id != Parsed(csv)[j].id
  {
    ParsedSpec(csv);
  }
}
