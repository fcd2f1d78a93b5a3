/**
 * The spreadsheet-to-record part of the parts-database generator: how the
 * sheet's columns are named, which rows are kept, how each cell becomes a
 * field of a part record, and how the records are collected in a
 * dictionary keyed by part number.
 */
module PartSheet {
  import opened Wrappers
  import opened PyText
  import opened PyList

  /** Where the app keeps the part pictures. */
  const IMAGE_BASE_PATH: string := "assets/images"

  /** The names the reader gives the columns by position. */
  const POSITIONAL_NAMES: seq<string> := ["TempCol0", "Teile-Nr", "Name", "Anzahl", "Kasten-Nr", "Fach"]

  /** The categories a part can be given; the last one is the default. */
  const CATEGORIES: set<string> := {"Strebe", "Winkelträger", "Riegel", "Statik", "Baustein"}

  /** One spreadsheet cell as pandas hands it over: an integral float, a string, or NaN. */
  datatype Cell = Num(n: int) | Text(s: string) | Empty

  /**
   * Sheet 0 with its first physical row skipped: `header` holds the names
   * pandas read from the next row, `rows` the cells below it.
   */
  datatype Sheet = Sheet(header: seq<string>, rows: seq<seq<Cell>>)

  /** The frame after the columns are named and the rows filtered. */
  datatype Table = Table(columns: seq<string>, rows: seq<seq<Cell>>)

  /** Why the reader gives up; the script prints it and exits. */
  datatype ReadError =
    | ColumnCountMismatch(columns: nat)   // more than six columns: pandas rejects six names
    | NoIdColumn                          // no column called Teile-Nr: `df['Teile-Nr']` raises KeyError

  /** Why one row is skipped; the script prints it and goes on with the next row. */
  datatype RowError =
    | MissingColumn(column: string)       // `row[name]` raises KeyError
    | AmbiguousColumn(column: string)     // two columns carry the name: the truth value of a Series is ambiguous
    | BadQuantity(text: string)           // `int(text)` raises ValueError

  /** The record stored for one part; `technicalDetails` keeps its four entries in order. */
  datatype PartInfo = PartInfo(
    name: string,
    description: string,
    category: string,
    technicalDetails: seq<(string, string)>,
    imagePath: string)

  /** What the row loop does with one row. */
  datatype RowOutcome = Stored(key: string, info: PartInfo) | Skipped | Failed(error: RowError)

  // ---------------------------------------------------------------- reading

  /** The first row that was read and the rows after it, with the columns named by position. */
  function AssignColumns(sheet: Sheet): (r: Result<Table, ReadError>)
    ensures |sheet.header| > 6 <==> r.Err?
    ensures r.Ok? && |sheet.header| >= 5 ==>
      r.value.columns == POSITIONAL_NAMES[1..|sheet.header|] && |r.value.rows| == |sheet.rows|
    ensures r.Ok? && |sheet.header| < 5 ==> r.value == Table(sheet.header, sheet.rows)
  {
    var n := |sheet.header|;
    if n < 5 then Ok(Table(sheet.header, sheet.rows))
    else if n > 6 then Err(ColumnCountMismatch(n))
    else Ok(Table(POSITIONAL_NAMES[1..n], DropFirstCells(sheet.rows)))
  }

  /** Drops the placeholder column from every row. */
  function DropFirstCells(rows: seq<seq<Cell>>): (r: seq<seq<Cell>>)
    ensures |r| == |rows|
    ensures forall i | 0 <= i < |rows| :: r[i] == if rows[i] == [] then [] else rows[i][1..]
  {
    seq(|rows|, i requires 0 <= i < |rows| => if rows[i] == [] then [] else rows[i][1..])
  }

  /** `row[name]`: the cell under the only column called `name`; a short row reads as NaN. */
  function Field(columns: seq<string>, row: seq<Cell>, name: string): (r: Result<Cell, RowError>)
    ensures r == Err(MissingColumn(name)) <==> name !in columns
    ensures r.Ok? ==> exists i | 0 <= i < |columns| :: columns[i] == name && r.value == CellAt(row, i)
  {
    match IndexOf(columns, name)
    case None => Err(MissingColumn(name))
    case Some(i) =>
      if name in columns[i + 1..] then Err(AmbiguousColumn(name)) else Ok(CellAt(row, i))
  }

  function CellAt(row: seq<Cell>, i: nat): Cell {
    if i < |row| then row[i] else Empty
  }

  /** Lines 26 and 28: the part number is present and is not the header text itself. */
  predicate KeepRow(columns: seq<string>, row: seq<Cell>) {
    match IndexOf(columns, "Teile-Nr")
    case None => false
    case Some(i) => CellAt(row, i) != Empty && CellAt(row, i) != Text("Teile-Nr")
  }

  /** The rows `KeepRow` accepts, in their order. */
  function FilterRows(columns: seq<string>, rows: seq<seq<Cell>>): (r: seq<seq<Cell>>)
    ensures |r| <= |rows|
  {
    if rows == [] then []
    else if KeepRow(columns, rows[0]) then [rows[0]] + FilterRows(columns, rows[1..])
    else FilterRows(columns, rows[1..])
  }

  /** Lines 26-28: exactly the rows with a part number other than the text `Teile-Nr` are kept. */
  lemma {:induction false} FilterRowsMembers(columns: seq<string>, rows: seq<seq<Cell>>)
    ensures forall row :: row in FilterRows(columns, rows) <==> row in rows && KeepRow(columns, row)
    decreases |rows|
  {
    if rows != [] {
      FilterRowsMembers(columns, rows[1..]);
      assert rows == [rows[0]] + rows[1..];
    }
  }

  /** A row that `KeepRow` refuses makes no difference wherever it stands. */
  lemma {:induction false} FilterDropsRefusedRow(columns: seq<string>, a: seq<seq<Cell>>, row: seq<Cell>, b: seq<seq<Cell>>)
    requires !KeepRow(columns, row)
    ensures FilterRows(columns, a + [row] + b) == FilterRows(columns, a + b)
    decreases |a|
  {
    if a == [] {
      assert a + [row] + b == [row] + b;
      assert a + b == b;
      assert ([row] + b)[1..] == b;
    } else {
      FilterDropsRefusedRow(columns, a[1..], row, b);
      assert (a + [row] + b)[1..] == a[1..] + [row] + b;
      assert (a + b)[1..] == a[1..] + b;
    }
  }

  /** Filtering a single row keeps it exactly when `KeepRow` accepts it. */
  lemma FilterOne(columns: seq<string>, row: seq<Cell>)
    ensures FilterRows(columns, [row]) == if KeepRow(columns, row) then [row] else []
  {
    assert [row][1..] == [];
  }

  /** Filtering keeps the sheet's order: the rows of `a` that are kept come before those of `b`. */
  lemma {:induction false} FilterAppend(columns: seq<string>, a: seq<seq<Cell>>, b: seq<seq<Cell>>)
    ensures FilterRows(columns, a + b) == FilterRows(columns, a) + FilterRows(columns, b)
    decreases |a|
  {
    if a == [] {
      assert a + b == b;
    } else {
      FilterAppend(columns, a[1..], b);
      assert (a + b)[0] == a[0];
      assert (a + b)[1..] == a[1..] + b;
    }
  }

  function StripAll(names: seq<string>): (r: seq<string>)
    ensures |r| == |names|
    ensures forall i | 0 <= i < |names| :: r[i] == Strip(names[i])
  {
    seq(|names|, i requires 0 <= i < |names| => Strip(names[i]))
  }

  /**
   * Lines 15-41: name the columns, keep the rows with a real part number,
   * then strip the column names. pandas never hands over two header cells
   * with the same text (it renames the second one), hence the requirement.
   */
  function ReadTable(sheet: Sheet): (r: Result<Table, ReadError>)
    requires NoDuplicates(sheet.header)
    ensures r.Err? <==> |sheet.header| > 6 || (|sheet.header| < 5 && "Teile-Nr" !in sheet.header)
    ensures r.Ok? ==> |r.value.rows| <= |sheet.rows|
  {
    match AssignColumns(sheet)
    case Err(e) => Err(e)
    case Ok(t) =>
      assert |sheet.header| >= 5 ==> t.columns[0] == "Teile-Nr";
      if "Teile-Nr" !in t.columns then Err(NoIdColumn)
      else Ok(Table(StripAll(t.columns), FilterRows(t.columns, t.rows)))
  }

  // ---------------------------------------------------------- normalising

  /** `str(x)` of a float with an integral value. */
  function FloatRepr(n: int): string {
    IntToString(n) + ".0"
  }

  /** `str(x).strip()` for a non-empty cell, `''` for NaN (Kasten-Nr before line 65, Fach). */
  function CellString(c: Cell): string {
    match c
    case Num(n) => Strip(FloatRepr(n))
    case Text(s) => Strip(s)
    case Empty => ""
  }

  /** A part number or box number: a float as `str(int(x))`, anything else stripped, NaN as `''`. */
  function IdString(c: Cell): (r: string)
    ensures c.Num? ==> ParseInt(r) == Some(c.n) && '.' !in r
    ensures c.Text? ==> r == Strip(c.s)
    ensures c.Empty? ==> r == ""
  {
    match c
    case Num(n) => IntToStringRoundTrip(n); IntToString(n)
    case Text(s) => Strip(s)
    case Empty => ""
  }

  /** Lines 59-61: the cell as a stripped string with line breaks turned into blanks, or `Unbekannt`. */
  function NameString(c: Cell): (r: string)
    ensures '\n' !in r && '\r' !in r
    ensures c.Empty? ==> r == "Unbekannt"
    ensures !c.Empty? ==> (|r| == |CellString(c)| &&
      forall k | 0 <= k < |r| :: r[k] == (if CellString(c)[k] in {'\n', '\r'} then ' ' else CellString(c)[k]))
  {
    var s := if c.Empty? then "Unbekannt" else CellString(c);
    ReplaceChar(ReplaceChar(s, '\n', ' '), '\r', ' ')
  }

  /** Line 62: `int(x)` of the Anzahl cell, 0 for NaN. */
  function Quantity(c: Cell): (r: Result<int, RowError>)
    ensures c.Empty? ==> r == Ok(0)
    ensures c.Num? ==> r == Ok(c.n)
    ensures c.Text? ==> (r.Ok? <==> ParseInt(c.s).Some?)
    ensures c.Text? && r.Ok? ==> Some(r.value) == ParseInt(c.s)
  {
    match c
    case Empty => Ok(0)
    case Num(n) => Ok(n)
    case Text(s) => match ParseInt(s)
      case Some(v) => Ok(v)
      case None => Err(BadQuantity(s))
  }

  /** Lines 73-81: the category by keyword, matched against the lower-cased name in a fixed order. */
  function Category(name: string): (r: string)
    ensures r in CATEGORIES
  {
    var l := Lower(name);
    if Contains(l, "strebe") then "Strebe"
    else if Contains(l, "winkel") then "Winkelträger"
    else if Contains(l, "riegel") then "Riegel"
    else if Contains(l, "statik") then "Statik"
    else "Baustein"
  }

  /** The keyword table of lines 73-81 in priority order. */
  const KEYWORDS: seq<(string, string)> :=
    [("strebe", "Strebe"), ("winkel", "Winkelträger"), ("riegel", "Riegel"), ("statik", "Statik")]

  /** The category of the first keyword, from `keywords[from..]`, that `lowered` contains. */
  function FirstKeywordHit(keywords: seq<(string, string)>, lowered: string, from: nat): (r: string)
    requires from <= |keywords|
    ensures r == "Baustein" || exists i | from <= i < |keywords| :: r == keywords[i].1
    decreases |keywords| - from
  {
    if from == |keywords| then "Baustein"
    else if Contains(lowered, keywords[from].0) then keywords[from].1
    else FirstKeywordHit(keywords, lowered, from + 1)
  }

  /** The category is the one of the first keyword in the table that occurs in the lower-cased name. */
  lemma CategoryIsFirstHit(name: string)
    ensures Category(name) == FirstKeywordHit(KEYWORDS, Lower(name), 0)
  {
  }

  /** Position `i` of the table decides exactly when no earlier keyword and keyword `i` occur. */
  lemma CategoryPriority(name: string, i: nat)
    requires i < |KEYWORDS|
    requires Contains(Lower(name), KEYWORDS[i].0)
    requires forall j | 0 <= j < i :: !Contains(Lower(name), KEYWORDS[j].0)
    ensures Category(name) == KEYWORDS[i].1
  {
    if i > 0 { assert !Contains(Lower(name), KEYWORDS[0].0); }
    if i > 1 { assert !Contains(Lower(name), KEYWORDS[1].0); }
    if i > 2 { assert !Contains(Lower(name), KEYWORDS[2].0); }
  }

  /** No keyword occurs: the default category. */
  lemma CategoryDefault(name: string)
    requires forall j | 0 <= j < |KEYWORDS| :: !Contains(Lower(name), KEYWORDS[j].0)
    ensures Category(name) == "Baustein"
  {
    assert !Contains(Lower(name), KEYWORDS[0].0);
    assert !Contains(Lower(name), KEYWORDS[1].0);
    assert !Contains(Lower(name), KEYWORDS[2].0);
    assert !Contains(Lower(name), KEYWORDS[3].0);
  }

  /** The category of a name is the category of its lower-cased form. */
  lemma CategoryOfLowered(name: string)
    ensures Category(Lower(name)) == Category(name)
  {
    LowerIdempotent(name);
  }

  /** "Winkelstrebe" contains both "winkel" and "strebe"; "strebe" comes first in the table. */
  lemma WinkelstrebeIsStrebe()
    ensures Category("Winkelstrebe") == "Strebe"
  {
    var l := Lower("Winkelstrebe");
    assert l == "winkelstrebe";
    assert l[6..12] == "strebe";
    ContainsIff(l, "strebe");
    assert OccursAt(l, "strebe", 6);
  }

  /**
   * What every stored record satisfies: the image path and the description
   * follow their templates, the first technical detail is the key, the name
   * has no line break and the category is one of the five.
   */
  predicate WellFormedRecord(key: string, info: PartInfo) {
    && info.imagePath == IMAGE_BASE_PATH + "/" + key + ".png"
    && info.description == info.name + " aus dem fischertechnik Sortiment."
    && |info.technicalDetails| == 4
    && info.technicalDetails[0] == ("Teile-Nr", key)
    && '\n' !in info.name && '\r' !in info.name
    && info.category in CATEGORIES
  }

  /** Lines 70 and 84-95: the record built from the normalised fields. */
  function MakeInfo(key: string, name: string, quantity: int, box: string, compartment: string): (r: PartInfo)
    ensures '\n' !in name && '\r' !in name ==> WellFormedRecord(key, r)
    ensures r.name == name && r.category == Category(name)
    ensures |r.technicalDetails| == 4 && r.technicalDetails[1..] == [("Kasten", box), ("Fach", compartment), ("Anzahl verfügbar", IntToString(quantity))]
  {
    PartInfo(
      name,
      name + " aus dem fischertechnik Sortiment.",
      Category(name),
      [("Teile-Nr", key), ("Kasten", box), ("Fach", compartment), ("Anzahl verfügbar", IntToString(quantity))],
      IMAGE_BASE_PATH + "/" + key + ".png")
  }

  /** Lines 59-95 after the part number is known, in the order the script reads the cells. */
  function NormalizeFields(columns: seq<string>, row: seq<Cell>, key: string): (r: Result<PartInfo, RowError>)
    ensures r.Ok? ==> WellFormedRecord(key, r.value)
    ensures r.Ok? ==> "Name" in columns && "Anzahl" in columns && "Kasten-Nr" in columns && "Fach" in columns
  {
    var nameCell :- Field(columns, row, "Name");
    var name := NameString(nameCell);
    var quantityCell :- Field(columns, row, "Anzahl");
    var quantity :- Quantity(quantityCell);
    var boxCell :- Field(columns, row, "Kasten-Nr");
    var compartmentCell :- Field(columns, row, "Fach");
    Ok(MakeInfo(key, name, quantity, IdString(boxCell), CellString(compartmentCell)))
  }

  /**
   * Lines 59-95: the fields succeed exactly when the four columns can be read
   * and `int()` accepts the quantity, and the record then holds the cells'
   * renderings: the name normalised, the box like a part number and the
   * compartment as its stripped text.
   */
  lemma NormalizeFieldsValues(columns: seq<string>, row: seq<Cell>, key: string)
    ensures NormalizeFields(columns, row, key).Ok? <==>
      && Field(columns, row, "Name").Ok? && Field(columns, row, "Anzahl").Ok?
      && Quantity(Field(columns, row, "Anzahl").value).Ok?
      && Field(columns, row, "Kasten-Nr").Ok? && Field(columns, row, "Fach").Ok?
    ensures NormalizeFields(columns, row, key).Ok? ==> NormalizeFields(columns, row, key).value == MakeInfo(key,
      NameString(Field(columns, row, "Name").value),
      Quantity(Field(columns, row, "Anzahl").value).value,
      IdString(Field(columns, row, "Kasten-Nr").value),
      CellString(Field(columns, row, "Fach").value))
  {
  }

  /** Lines 47-101 for one row: the entry to store, or why the row is left out. */
  function NormalizeRow(columns: seq<string>, row: seq<Cell>): (r: RowOutcome)
    ensures r.Skipped? <==> Field(columns, row, "Teile-Nr") == Ok(Empty)
    ensures r.Stored? ==> Field(columns, row, "Teile-Nr").Ok? && r.key == IdString(Field(columns, row, "Teile-Nr").value)
    ensures r.Stored? ==> WellFormedRecord(r.key, r.info)
    ensures r.Stored? ==> "Fach" in columns
  {
    match Field(columns, row, "Teile-Nr")
    case Err(e) => Failed(e)
    case Ok(Empty) => Skipped
    case Ok(idCell) =>
      var key := IdString(idCell);
      match NormalizeFields(columns, row, key)
      case Err(e) => Failed(e)
      case Ok(info) => Stored(key, info)
  }

  /**
   * The three ways a row ends: skipped for a NaN part number, failed when a
   * column is missing or a field cannot be read, and otherwise stored with
   * the record `NormalizeFields` builds from its cells.
   */
  lemma NormalizeRowCases(columns: seq<string>, row: seq<Cell>)
    ensures var r := NormalizeRow(columns, row);
      r.Stored? ==> NormalizeFields(columns, row, r.key) == Ok(r.info)
    ensures NormalizeRow(columns, row).Failed? <==>
      (|| Field(columns, row, "Teile-Nr").Err?
       || (&& Field(columns, row, "Teile-Nr").Ok? && Field(columns, row, "Teile-Nr").value != Empty
           && NormalizeFields(columns, row, IdString(Field(columns, row, "Teile-Nr").value)).Err?))
  {
  }

  // -------------------------------------------------------------- storing

  /** A Python dict with string keys: key/value pairs in insertion order. */
  type Store = seq<(string, PartInfo)>

  function Keys(store: Store): (r: seq<string>)
    ensures |r| == |store| && forall i | 0 <= i < |store| :: r[i] == store[i].0
  {
    seq(|store|, i requires 0 <= i < |store| => store[i].0)
  }

  predicate UniqueKeys(store: Store) {
    NoDuplicates(Keys(store))
  }

  /** `store.get(key)`. */
  function Get(store: Store, key: string): (r: Option<PartInfo>)
    ensures r.None? <==> key !in Keys(store)
    ensures r.Some? ==> exists i | 0 <= i < |store| :: store[i] == (key, r.value)
  {
    match IndexOf(Keys(store), key)
    case None => None
    case Some(i) => Some(store[i].1)
  }

  /** `store[key] = info`: a new key goes to the end, an old key keeps its place and takes the new value. */
  function Put(store: Store, key: string, info: PartInfo): (r: Store)
    ensures Get(r, key) == Some(info)
    ensures forall k | k != key :: Get(r, k) == Get(store, k)
    ensures Keys(r) == if key in Keys(store) then Keys(store) else Keys(store) + [key]
    ensures UniqueKeys(store) ==> UniqueKeys(r)
  {
    match IndexOf(Keys(store), key)
    case Some(i) =>
      var r := store[i := (key, info)];
      assert Keys(r) == Keys(store);
      r
    case None =>
      var r := store + [(key, info)];
      assert Keys(r) == Keys(store) + [key];
      assert forall k | k != key && k in Keys(store) :: IndexOf(Keys(r), k) == IndexOf(Keys(store), k) by {
        forall k | k != key && k in Keys(store) ensures IndexOf(Keys(r), k) == IndexOf(Keys(store), k) {
          IndexOfAppend(Keys(store), k, key);
        }
      }
      assert IndexOf(Keys(r), key) == Some(|store|) by {
        IndexOfAppendNew(Keys(store), key);
      }
      r
  }

  /** What one row does to the store. */
  function Apply(store: Store, outcome: RowOutcome): Store {
    if outcome.Stored? then Put(store, outcome.key, outcome.info) else store
  }

  /** The outcome of each row, in row order. */
  function Outcomes(columns: seq<string>, rows: seq<seq<Cell>>): (r: seq<RowOutcome>)
    ensures |r| == |rows|
    ensures forall i | 0 <= i < |rows| :: r[i] == NormalizeRow(columns, rows[i])
  {
    seq(|rows|, i requires 0 <= i < |rows| => NormalizeRow(columns, rows[i]))
  }

  /** The store after the row outcomes have been applied one after the other to an empty dict. */
  function Fold(outcomes: seq<RowOutcome>): Store
    decreases |outcomes|
  {
    if outcomes == [] then []
    else Apply(Fold(outcomes[..|outcomes| - 1]), outcomes[|outcomes| - 1])
  }

  /** The store after the loop of lines 46-101 has run over `rows`. */
  function Build(columns: seq<string>, rows: seq<seq<Cell>>): Store {
    Fold(Outcomes(columns, rows))
  }

  /** Lines 44-101: the row loop, with `parts_data` updated in place. */
  method BuildStore(table: Table) returns (store: Store)
    ensures store == Build(table.columns, table.rows)
    ensures UniqueKeys(store)
  {
    ghost var outcomes := Outcomes(table.columns, table.rows);
    store := [];
    var i := 0;
    while i < |table.rows|
      invariant 0 <= i <= |table.rows|
      invariant store == Fold(outcomes[..i])
    {
      var outcome := NormalizeRow(table.columns, table.rows[i]);
      assert outcome == outcomes[i];
      FoldStep(outcomes, i);
      if outcome.Stored? {
        store := Put(store, outcome.key, outcome.info);
      }
      i := i + 1;
    }
    assert outcomes[..i] == outcomes;
    FoldUniqueKeys(outcomes);
  }

  /** The whole reader and row loop: from the sheet to the dictionary. */
  function Convert(sheet: Sheet): (r: Result<Store, ReadError>)
    requires NoDuplicates(sheet.header)
    ensures r.Ok? ==> UniqueKeys(r.value)
  {
    match ReadTable(sheet)
    case Err(e) => Err(e)
    case Ok(t) =>
      FoldKeyOrder(Outcomes(t.columns, t.rows));
      Ok(Build(t.columns, t.rows))
  }

  // ------------------------------------------------------- store properties

  /** The keys of the stored outcomes, in order, repetitions included. */
  function StoredKeys(outcomes: seq<RowOutcome>): seq<string>
    decreases |outcomes|
  {
    if outcomes == [] then []
    else
      var o := outcomes[|outcomes| - 1];
      StoredKeys(outcomes[..|outcomes| - 1]) + (if o.Stored? then [o.key] else [])
  }

  /** The elements of `s` at their first occurrence, in order. */
  function FirstOccurrences(s: seq<string>): (r: seq<string>)
    ensures forall x :: x in r <==> x in s
    ensures NoDuplicates(r)
    decreases |s|
  {
    if s == [] then []
    else
      var init := s[..|s| - 1];
      var d := FirstOccurrences(init);
      assert s == init + [s[|s| - 1]];
      if s[|s| - 1] in init then d else d + [s[|s| - 1]]
  }

  /** Keys never repeat, and they stand in the order of their first successful row. */
  lemma {:induction false} FoldKeyOrder(outcomes: seq<RowOutcome>)
    ensures Keys(Fold(outcomes)) == FirstOccurrences(StoredKeys(outcomes))
    ensures UniqueKeys(Fold(outcomes))
    decreases |outcomes|
  {
    if outcomes != [] {
      var init := outcomes[..|outcomes| - 1];
      FoldKeyOrder(init);
      var o := outcomes[|outcomes| - 1];
      var ks := StoredKeys(init);
      if o.Stored? {
        assert StoredKeys(outcomes) == ks + [o.key];
        assert (ks + [o.key])[..|ks|] == ks;
        assert o.key in Keys(Fold(init)) <==> o.key in ks;
      } else {
        assert StoredKeys(outcomes) == ks;
      }
    }
  }

  /** Last write wins: a key holds the record of the last outcome that stored it. */
  lemma {:induction false} FoldLastWriteWins(outcomes: seq<RowOutcome>, i: nat)
    requires i < |outcomes| && outcomes[i].Stored?
    requires forall j | i < j < |outcomes| :: !(outcomes[j].Stored? && outcomes[j].key == outcomes[i].key)
    ensures Get(Fold(outcomes), outcomes[i].key) == Some(outcomes[i].info)
    decreases |outcomes|
  {
    var init := outcomes[..|outcomes| - 1];
    if i < |outcomes| - 1 {
      FoldLastWriteWins(init, i);
    }
  }

  /** A key is in the store exactly when some outcome stored it. */
  lemma {:induction false} FoldHasKey(outcomes: seq<RowOutcome>, key: string)
    ensures key in Keys(Fold(outcomes)) <==> exists i | 0 <= i < |outcomes| :: outcomes[i].Stored? && outcomes[i].key == key
    decreases |outcomes|
  {
    if outcomes != [] {
      var init := outcomes[..|outcomes| - 1];
      var o := outcomes[|outcomes| - 1];
      FoldHasKey(init, key);
      assert outcomes == init + [o];
      FoldSnoc(init, o);
      assert key in Keys(Fold(outcomes)) <==> key in Keys(Fold(init)) || (o.Stored? && o.key == key);
      if key in Keys(Fold(init)) {
        var i :| 0 <= i < |init| && init[i].Stored? && init[i].key == key;
        assert outcomes[i] == init[i];
      }
      if exists i | 0 <= i < |outcomes| :: outcomes[i].Stored? && outcomes[i].key == key {
        var i :| 0 <= i < |outcomes| && outcomes[i].Stored? && outcomes[i].key == key;
        if i < |init| {
          assert init[i] == outcomes[i];
        }
      }
    }
  }

  /** Applying one more outcome. */
  lemma FoldSnoc(s: seq<RowOutcome>, o: RowOutcome)
    ensures Fold(s + [o]) == Apply(Fold(s), o)
  {
    assert (s + [o])[..|s|] == s;
  }

  /** The loop step: one more row applied to the store. */
  lemma FoldStep(outcomes: seq<RowOutcome>, i: nat)
    requires i < |outcomes|
    ensures Fold(outcomes[..i + 1]) == Apply(Fold(outcomes[..i]), outcomes[i])
  {
    assert outcomes[..i + 1] == outcomes[..i] + [outcomes[i]];
    FoldSnoc(outcomes[..i], outcomes[i]);
  }

  /** The dictionary built by the loop never holds a key twice. */
  lemma FoldUniqueKeys(outcomes: seq<RowOutcome>)
    ensures UniqueKeys(Fold(outcomes))
  {
    FoldKeyOrder(outcomes);
  }

  /** An outcome that stores nothing leaves the store as if it were not there. */
  lemma {:induction false} FoldIgnoresUnstored(a: seq<RowOutcome>, o: RowOutcome, b: seq<RowOutcome>)
    requires !o.Stored?
    ensures Fold(a + [o] + b) == Fold(a + b)
    decreases |b|
  {
    if b == [] {
      assert a + [o] + b == a + [o];
      assert a + b == a;
      FoldSnoc(a, o);
    } else {
      var b' := b[..|b| - 1];
      var last := b[|b| - 1];
      FoldIgnoresUnstored(a, o, b');
      assert a + [o] + b == (a + [o] + b') + [last];
      assert a + b == (a + b') + [last];
      FoldSnoc(a + [o] + b', last);
      FoldSnoc(a + b', last);
    }
  }

  /** Outcomes none of which stores anything give an empty store. */
  lemma {:induction false} FoldNothingStored(outcomes: seq<RowOutcome>)
    requires forall i | 0 <= i < |outcomes| :: !outcomes[i].Stored?
    ensures Fold(outcomes) == []
    decreases |outcomes|
  {
    if outcomes != [] {
      FoldNothingStored(outcomes[..|outcomes| - 1]);
    }
  }

  /** The positional names carry no white space, so the strip at line 41 leaves them as they are. */
  lemma PositionalNamesStripped(n: nat)
    requires 1 <= n <= |POSITIONAL_NAMES|
    ensures StripAll(POSITIONAL_NAMES[1..n]) == POSITIONAL_NAMES[1..n]
  {
    var names := POSITIONAL_NAMES[1..n];
    forall i | 0 <= i < |names| ensures Strip(names[i]) == names[i] {
      assert names[i] == POSITIONAL_NAMES[i + 1];
      StripUnchanged(names[i]);
    }
  }

  /** None of the four names the reader keeps for five columns is Fach. */
  lemma FourNamesWithoutCompartment()
    ensures "Fach" !in POSITIONAL_NAMES[1..5]
  {
    var names := POSITIONAL_NAMES[1..5];
    forall i | 0 <= i < |names| ensures names[i] != "Fach" {
      assert names[i][0] != 'F';
    }
  }

  /** The table the reader makes of a five-column sheet. */
  lemma ReadFiveColumns(sheet: Sheet)
    requires NoDuplicates(sheet.header) && |sheet.header| == 5
    ensures ReadTable(sheet) == Ok(Table(POSITIONAL_NAMES[1..5], FilterRows(POSITIONAL_NAMES[1..5], DropFirstCells(sheet.rows))))
  {
    assert AssignColumns(sheet) == Ok(Table(POSITIONAL_NAMES[1..5], DropFirstCells(sheet.rows)));
    assert POSITIONAL_NAMES[1..5][0] == "Teile-Nr";
    PositionalNamesStripped(5);
  }

  /** Without a Fach column every row fails or is skipped, so the dictionary stays empty. */
  lemma NoCompartmentStoresNothing(columns: seq<string>, rows: seq<seq<Cell>>)
    requires "Fach" !in columns
    ensures Build(columns, rows) == []
  {
    var outcomes := Outcomes(columns, rows);
    forall i | 0 <= i < |outcomes| ensures !outcomes[i].Stored? {
      assert outcomes[i] == NormalizeRow(columns, rows[i]);
    }
    FoldNothingStored(outcomes);
  }

  /** With exactly five columns the first column is thrown away, no column is called Fach, and nothing is stored. */
  lemma FiveColumnsStoreNothing(sheet: Sheet)
    requires NoDuplicates(sheet.header) && |sheet.header| == 5
    ensures Convert(sheet) == Ok([])
  {
    var cols := POSITIONAL_NAMES[1..5];
    var rows := FilterRows(cols, DropFirstCells(sheet.rows));
    ReadFiveColumns(sheet);
    FourNamesWithoutCompartment();
    NoCompartmentStoresNothing(cols, rows);
    assert Convert(sheet) == Ok(Build(cols, rows));
  }

  /** With six columns the five names after the placeholder are the usual ones. */
  lemma SixColumnNamesUsual()
    ensures UsualColumns(POSITIONAL_NAMES[1..6])
  {
    var names := POSITIONAL_NAMES[1..6];
    assert names == ["Teile-Nr", "Name", "Anzahl", "Kasten-Nr", "Fach"];
    forall i, j | 0 <= i < j < |names| ensures names[i] != names[j] {
      assert names[i][0] != names[j][0];
    }
  }

  /** The table the reader makes of a six-column sheet: the usual names, the kept rows in sheet order. */
  lemma ReadSixColumns(sheet: Sheet)
    requires NoDuplicates(sheet.header) && |sheet.header| == 6
    ensures ReadTable(sheet) == Ok(Table(POSITIONAL_NAMES[1..6], FilterRows(POSITIONAL_NAMES[1..6], DropFirstCells(sheet.rows))))
  {
    assert AssignColumns(sheet) == Ok(Table(POSITIONAL_NAMES[1..6], DropFirstCells(sheet.rows)));
    assert POSITIONAL_NAMES[1..6][0] == "Teile-Nr";
    PositionalNamesStripped(6);
  }

  /** Lines 15-101 on a six-column sheet: the dictionary is built from the kept rows, in sheet order. */
  lemma ConvertSixColumns(sheet: Sheet)
    requires NoDuplicates(sheet.header) && |sheet.header| == 6
    ensures Convert(sheet) == Ok(Build(POSITIONAL_NAMES[1..6], FilterRows(POSITIONAL_NAMES[1..6], DropFirstCells(sheet.rows))))
  {
    ReadSixColumns(sheet);
  }

  // ----------------------------------------------------- a worked example

  /** In a header without repetitions, each name reads the cell at its own position. */
  lemma FieldOfUnique(columns: seq<string>, row: seq<Cell>, i: nat)
    requires NoDuplicates(columns) && i < |columns|
    ensures Field(columns, row, columns[i]) == Ok(CellAt(row, i))
  {
    var j := IndexOf(columns, columns[i]);
    assert j == Some(i) by {
      assert j.Some?;
      assert columns[j.value] == columns[i];
    }
    var later := columns[i + 1..];
    forall k | 0 <= k < |later| ensures later[k] != columns[i] {
      assert later[k] == columns[i + 1 + k];
    }
  }

  /**
   * The five columns a six-column sheet ends with, in their order; `PlainRow`
   * fills them.
   */
  predicate UsualColumns(columns: seq<string>) {
    && |columns| == 5 && NoDuplicates(columns)
    && columns[0] == "Teile-Nr" && columns[1] == "Name" && columns[2] == "Anzahl"
    && columns[3] == "Kasten-Nr" && columns[4] == "Fach"
  }

  /** A row with a numeric part number, a name, a numeric quantity and neither box nor compartment. */
  function PlainRow(n: int, name: string, q: int): seq<Cell> {
    [Num(n), Text(name), Num(q), Empty, Empty]
  }

  /**
   * Line 28 compares the raw cell, so a part number ` Teile-Nr` with a blank
   * in front passes the header-row filter, and line 55 strips it to the key
   * `Teile-Nr`.
   */
  lemma SpacedHeaderCellKept(columns: seq<string>, row: seq<Cell>)
    requires UsualColumns(columns) && |row| > 0 && row[0] == Text(" Teile-Nr")
    ensures KeepRow(columns, row)
    ensures IdString(row[0]) == "Teile-Nr"
  {
    assert IndexOf(columns, "Teile-Nr") == Some(0);
    assert |" Teile-Nr"| != |"Teile-Nr"|;
    assert " Teile-Nr" == [' '] + "Teile-Nr";
    StripLeadingSpace(' ', "Teile-Nr");
    StripUnchanged("Teile-Nr");
  }

  /** Each of the usual columns reads its own cell of a five-cell row. */
  lemma UsualFields(columns: seq<string>, row: seq<Cell>)
    requires UsualColumns(columns) && |row| == 5
    ensures Field(columns, row, "Teile-Nr") == Ok(row[0]) && Field(columns, row, "Name") == Ok(row[1])
    ensures Field(columns, row, "Anzahl") == Ok(row[2]) && Field(columns, row, "Kasten-Nr") == Ok(row[3])
    ensures Field(columns, row, "Fach") == Ok(row[4])
  {
    FieldOfUnique(columns, row, 0);
    FieldOfUnique(columns, row, 1);
    FieldOfUnique(columns, row, 2);
    FieldOfUnique(columns, row, 3);
    FieldOfUnique(columns, row, 4);
  }

  /**
   * Lines 46-97 on a row of the usual columns with a part number and a
   * quantity `int()` accepts: stored under the rendered part number, with the
   * name normalised, the box rendered like a part number and the compartment
   * as its text.
   */
  lemma UsualRowStored(columns: seq<string>, id: Cell, name: Cell, quantity: Cell, box: Cell, compartment: Cell)
    requires UsualColumns(columns) && id != Empty && Quantity(quantity).Ok?
    ensures NormalizeRow(columns, [id, name, quantity, box, compartment])
      == Stored(IdString(id), MakeInfo(IdString(id), NameString(name), Quantity(quantity).value, IdString(box), CellString(compartment)))
  {
    var row := [id, name, quantity, box, compartment];
    UsualFields(columns, row);
    NormalizeFieldsValues(columns, row, IdString(id));
  }

  /** Line 62 on such a row: a quantity `int()` refuses makes the row fail, and nothing is stored. */
  lemma UsualRowBadQuantity(columns: seq<string>, id: Cell, name: Cell, text: string, box: Cell, compartment: Cell)
    requires UsualColumns(columns) && id != Empty && ParseInt(text).None?
    ensures NormalizeRow(columns, [id, name, Text(text), box, compartment]) == Failed(BadQuantity(text))
  {
    UsualFields(columns, [id, name, Text(text), box, compartment]);
  }

  /** A float cell read as text keeps its `.0` (line 67); read as a part or box number it loses it (lines 53, 66). */
  lemma FloatCellStrings(n: int)
    ensures CellString(Num(n)) == IntToString(n) + ".0"
    ensures IdString(Num(n)) == IntToString(n)
  {
    var s := IntToString(n) + ".0";
    assert s[0] == IntToString(n)[0] && s[|s| - 1] == '0';
    StripUnchanged(s);
  }

  /** Lines 63-67: a numeric box number is stored without `.0`, a numeric compartment with it. */
  lemma NumericBoxAndCompartment(columns: seq<string>, id: Cell, name: Cell, quantity: Cell, box: int, compartment: int)
    requires UsualColumns(columns) && id != Empty && Quantity(quantity).Ok?
    ensures var r := NormalizeRow(columns, [id, name, quantity, Num(box), Num(compartment)]);
      && r.Stored?
      && r.info.technicalDetails[1] == ("Kasten", IntToString(box))
      && r.info.technicalDetails[2] == ("Fach", IntToString(compartment) + ".0")
  {
    var r := NormalizeRow(columns, [id, name, quantity, Num(box), Num(compartment)]);
    var info := MakeInfo(IdString(id), NameString(name), Quantity(quantity).value, IntToString(box), IntToString(compartment) + ".0");
    assert r == Stored(IdString(id), info) by {
      UsualRowStored(columns, id, name, quantity, Num(box), Num(compartment));
      FloatCellStrings(box);
      FloatCellStrings(compartment);
    }
    assert info.technicalDetails[1..][0] == info.technicalDetails[1];
    assert info.technicalDetails[1..][1] == info.technicalDetails[2];
  }

  /** A plain row is stored under `str(n)`, with the name normalised and neither box nor compartment. */
  lemma PlainRowStored(columns: seq<string>, n: int, name: string, q: int)
    requires UsualColumns(columns)
    ensures NormalizeRow(columns, PlainRow(n, name, q))
      == Stored(IntToString(n), MakeInfo(IntToString(n), NameString(Text(name)), q, "", ""))
  {
    assert IdString(Num(n)) == IntToString(n) && IdString(Empty) == "" && CellString(Empty) == "";
    assert Quantity(Num(q)) == Ok(q);
    UsualRowStored(columns, Num(n), Text(name), Num(q), Empty, Empty);
  }

  /** The three rows of the duplicate-row example: stored, skipped for the missing part number, stored again. */
  lemma DuplicateRowsOutcomes(columns: seq<string>, n: int, first: string, q1: int, other: string, second: string, q2: int)
    requires UsualColumns(columns)
    ensures Outcomes(columns, [PlainRow(n, first, q1), [Empty, Text(other)], PlainRow(n, second, q2)])
      == [Stored(IntToString(n), MakeInfo(IntToString(n), NameString(Text(first)), q1, "", "")),
          Skipped,
          Stored(IntToString(n), MakeInfo(IntToString(n), NameString(Text(second)), q2, "", ""))]
  {
    PlainRowStored(columns, n, first, q1);
    PlainRowStored(columns, n, second, q2);
    FieldOfUnique(columns, [Empty, Text(other)], 0);
    OutcomesOfThree(columns, PlainRow(n, first, q1), [Empty, Text(other)], PlainRow(n, second, q2));
  }

  /** The outcomes of three rows. */
  lemma OutcomesOfThree(columns: seq<string>, r0: seq<Cell>, r1: seq<Cell>, r2: seq<Cell>)
    ensures Outcomes(columns, [r0, r1, r2]) == [NormalizeRow(columns, r0), NormalizeRow(columns, r1), NormalizeRow(columns, r2)]
  {
  }

  /** A key stored, a row skipped, the same key stored again: one entry, with the second record. */
  lemma StoredTwiceSkippedBetween(key: string, a: PartInfo, b: PartInfo)
    ensures Fold([Stored(key, a), Skipped, Stored(key, b)]) == [(key, b)]
  {
    var s1 := [] + [Stored(key, a)];
    var s2 := s1 + [Skipped];
    var all := s2 + [Stored(key, b)];
    assert all == [Stored(key, a), Skipped, Stored(key, b)];
    FoldSnoc([], Stored(key, a));
    FoldSnoc(s1, Skipped);
    FoldSnoc(s2, Stored(key, b));
    var one := Put([], key, a);
    assert Keys(one) == [key];
    var two := Put(one, key, b);
    assert Keys(two) == [key] && Get(two, key) == Some(b);
    assert two[0] == (key, b);
  }

  /**
   * Lines 46-101 on three rows: part `n` under `first`, a row without a part
   * number, and part `n` again under `second`. The dictionary ends with the
   * one key `str(n)`, holding the record of the third row; with `strebe` in
   * the second name, that record is a Strebe.
   */
  lemma DuplicateRowsLastWins(columns: seq<string>, n: int, first: string, q1: int, other: string, second: string, q2: int)
    requires UsualColumns(columns)
    ensures var store := Build(columns, [PlainRow(n, first, q1), [Empty, Text(other)], PlainRow(n, second, q2)]);
      && Keys(store) == [IntToString(n)]
      && Get(store, IntToString(n)) == Some(MakeInfo(IntToString(n), NameString(Text(second)), q2, "", ""))
    ensures Contains(Lower(NameString(Text(second))), "strebe") ==>
      MakeInfo(IntToString(n), NameString(Text(second)), q2, "", "").category == "Strebe"
  {
    var key := IntToString(n);
    var b := MakeInfo(key, NameString(Text(second)), q2, "", "");
    DuplicateRowsStore(columns, n, first, q1, other, second, q2);
    assert Keys([(key, b)]) == [key];
    if Contains(Lower(NameString(Text(second))), "strebe") {
      CategoryPriority(NameString(Text(second)), 0);
    }
  }

  /** The dictionary the three example rows leave: one entry, holding the second record. */
  lemma DuplicateRowsStore(columns: seq<string>, n: int, first: string, q1: int, other: string, second: string, q2: int)
    requires UsualColumns(columns)
    ensures Build(columns, [PlainRow(n, first, q1), [Empty, Text(other)], PlainRow(n, second, q2)])
      == [(IntToString(n), MakeInfo(IntToString(n), NameString(Text(second)), q2, "", ""))]
  {
    var key := IntToString(n);
    DuplicateRowsOutcomes(columns, n, first, q1, other, second, q2);
    StoredTwiceSkippedBetween(key, MakeInfo(key, NameString(Text(first)), q1, "", ""), MakeInfo(key, NameString(Text(second)), q2, "", ""));
  }
}
