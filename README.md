# Parts database generator and labelling tool, modelled in Dafny

The model covers two programs of a fischertechnik part-recognition project.

**`excel_to_dart.py`** reads a spreadsheet of parts and derives a record for each row. The record holds a name, a description, a category looked up by keyword, four technical details and an image path. The script collects the records in a dictionary keyed by part number, where the last row wins, and writes them out as a Dart class. That class has a map literal and a `getPartInfo(label)` lookup, which tries three tiers in turn: the exact key, a substring match in either direction (first key in dictionary order), and a fixed "unknown part" record.

**`1_sammeln/collector_pro.py`** is the labelling tool. It saves camera frames into one folder per class: one frame per space-key press, or every fifth frame in auto mode. It shows how many images the current folder holds. A dialog lets the user search, pick, add and delete classes.

The modules follow the programs:

| module | what it holds |
|---|---|
| `Wrappers` | `Option` and `Result` |
| `PyText` | the Python string operations the scripts use: `strip`, `lower`, `in`, `str(int)` and `int(str)` |
| `PyList` | `list.index` and `list.remove` |
| `Sorting` | Python's string order and the sort that `list.sort()` performs |
| `PartSheet` | reading the sheet, normalising a row, the row loop and its dictionary |
| `DartOutput` | the emitted Dart text and the `getPartInfo` lookup |
| `ClassList` | the class dialog, as class `ClassDialog` |
| `Capture` | the image count and the capture loop, as class `Collector` and the step function `Next` |

Spreadsheet cells are `Empty`, `Text(s)` or `Num(n)`. `Num(n)` is a cell holding a whole number. For the part number, the box and the quantity, the script gives the same text from a float (`str(int(x))`, lines 53 and 66; `int(x)`, line 62) and from an int (`str(x).strip()`, lines 55 and 63), so `Num` models both. For `Name` and `Fach` only the float rendering is modelled (see "## Left out").

Each loop that builds a value is a method with loop invariants, proved equal to a specification function:
- the row loop, `PartSheet.BuildStore`;
- the text emission, `DartOutput.EmitEntry`, `AppendEntries` and `EmitDart`;
- the dialog's refiltering, `ClassList.ClassDialog.FilterClasses`.

The capture loop works differently. Its body is the method `Capture.Collector.Frame`, which updates the collector's variables once, as the function `Next` specifies. The `while True` loop itself is the sequence of such passes, and `AutoSaves` follows it over a list of frame inputs.

The properties are proved about those functions.

Only a NaN part number skips a row (line 57). A part number cell holding only white space passes the filter at line 26 and, if its other cells read, is stored under the key `""` (lines 55 and 97).

A sheet with exactly five columns keeps the placeholder name `TempCol0` for its first column and drops it, so no column is called `Fach` and every row fails (`PartSheet.FiveColumnsStoreNothing`). The model keeps this behaviour of the code.

The header-row filter at line 28 compares the raw cell with `Teile-Nr`, before any strip. So a cell ` Teile-Nr` with blanks survives the filter, and the strip at line 55 turns it into the key `Teile-Nr` (`PartSheet.SpacedHeaderCellKept`). Whether the row is then stored depends on its other cells, as for any row. A repeated header row still holds the text `Anzahl` in its quantity column; `int()` refuses that text at line 62, so the row fails (lines 99-101) and is not stored (`PartSheet.UsualRowBadQuantity`).

## Model

| member | source | states |
|---|---|---|
| PyText.Strip | excel_to_dart.py:55 | the result is the slice of the input left after white space is cut off at both ends, and it neither starts nor ends with white space |
| PyText.StripEmptyIff | 1_sammeln/collector_pro.py:86-87 | stripping leaves nothing exactly when the text is all white space |
| PyText.StripUnchanged | excel_to_dart.py:55 | text with no white space at either end is its own strip |
| PyText.Lower | excel_to_dart.py:74 | `lower()` keeps the length and lower-cases each character |
| PyText.LowerIdempotent | 1_sammeln/collector_pro.py:68-73 | lower-casing twice is lower-casing once |
| PyText.ContainsIff | excel_to_dart.py:74-81 | `sub in s` holds exactly when `sub` occurs at some offset of `s` |
| PyText.Contains | excel_to_dart.py:74-81 | definition of `sub in s` (a prefix here or further on); its meaning as an occurrence at an offset is `PyText.ContainsIff` |
| PyText.NotContainsWithoutFirstChar | excel_to_dart.py:157 | a non-empty text whose first character does not occur in `s` is not contained in `s` |
| PyText.ReplaceChar | excel_to_dart.py:61 | `replace` swaps exactly the given character and keeps the others and the length |
| PyText.IntToString | excel_to_dart.py:53 | `str(n)` is non-empty, has only digits after an optional sign for negative numbers, and has no `.` |
| PyText.NatToString | excel_to_dart.py:53 | the digits of a natural number have no leading zero |
| PyText.ParseUnsigned | excel_to_dart.py:62 | `int()` of a digit string (single `_` allowed between digits) is its value |
| PyText.ParseNegative | excel_to_dart.py:62 | `int()` of `-` and a digit string is the negated value |
| PyText.ParseInt | excel_to_dart.py:62 | `int()` of a string: blank text is refused; an accepted text holds none of the separators U+001C-U+001F that `int()` does not skip, and after the strip has `int()`'s shape (a sign only in front, digits and single underscores, a digit first and last); a negative value needs a leading `-` |
| PyText.ParseIntIff | excel_to_dart.py:62 | both directions: `int()` accepts exactly a text without separators whose strip is digits with single underscores, with at most one sign in front |
| PyText.ParseIntRefusesChar | excel_to_dart.py:62 | any character other than a digit, an underscore or a leading sign makes `int()` fail |
| PyText.ParseIntRefusesDoubled | excel_to_dart.py:62 | two underscores in a row make `int()` fail |
| PyText.ParseIntRefusesFloatText | excel_to_dart.py:62 | the text of a whole float, such as `5.0`, is refused for every value |
| PyText.ParseIntRefusesSeparator | excel_to_dart.py:62 | `int("\x1c5")` is refused, though `str.strip()` would cut the `\x1c` |
| PyText.ParseSpaced | excel_to_dart.py:62 | white space other than the separators around an unsigned number is skipped and the value is the digits' value |
| PyText.IntToStringRoundTrip | excel_to_dart.py:53 | `int(str(n)) == n` for every integer |
| PyText.IntToStringInjective | excel_to_dart.py:53 | two different part numbers never render alike, so they never share a key |
| Sorting.Sort | 1_sammeln/collector_pro.py:89 | the result is in ascending string order and a permutation of the input |
| Sorting.SortedUnique | 1_sammeln/collector_pro.py:89 | two ascending permutations of one list are equal, so the sorted list is determined |
| Sorting.LessEqTotal | 1_sammeln/collector_pro.py:89 | any two strings are ordered one way or the other |
| Sorting.LessEqTransitive | 1_sammeln/collector_pro.py:89 | the string order is transitive |
| Sorting.LessEqAntisymmetric | 1_sammeln/collector_pro.py:89 | strings ordered both ways are equal |
| Sorting.LessEq | 1_sammeln/collector_pro.py:89 | definition of Python's `<=` on strings, code point by code point, a prefix first; its order laws are the LessEq lemmas |
| Sorting.Insert | 1_sammeln/collector_pro.py:89 | inserting into an ascending list keeps it ascending and adds exactly one copy of the element |
| PyList.IndexOf | 1_sammeln/collector_pro.py:79 | `index` gives the first position of the element, and there is none exactly when the element is absent |
| PyList.RemoveFirst | 1_sammeln/collector_pro.py:123 | `remove` drops the first occurrence only, keeping the rest in order, and the multiset loses one copy |
| PyList.IndexOfAppend | excel_to_dart.py:97 | appending does not move the first position of an element already present |
| PyList.IndexOfAppendNew | excel_to_dart.py:97 | an element appended to a list without it is found at the end |
| PartSheet.AssignColumns | excel_to_dart.py:15-23 | more than six columns is fatal; five or six columns take the positional names; fewer keep the header |
| PartSheet.DropFirstCells | excel_to_dart.py:22-23 | the placeholder column is removed from every row |
| PartSheet.Field | excel_to_dart.py:49 | a missing column is an error exactly when the name is absent; otherwise the cell comes from a column with that name |
| PartSheet.FilterRows | excel_to_dart.py:26-28 | no more rows come out than go in; which rows and in what order are the next three lemmas |
| PartSheet.FilterRowsMembers | excel_to_dart.py:26-28 | a row is kept exactly when it has a part number other than the text `Teile-Nr` |
| PartSheet.FilterOne | excel_to_dart.py:26-28 | a single row is kept exactly when `KeepRow` accepts it |
| PartSheet.FilterAppend | excel_to_dart.py:26-28 | the filter keeps sheet order: filtering two blocks of rows filters each and joins them in order |
| PartSheet.KeepRow | excel_to_dart.py:26-28 | definition of the two row filters: the `Teile-Nr` cell is not NaN and not the text `Teile-Nr` |
| PartSheet.FilterDropsRefusedRow | excel_to_dart.py:26-28 | a refused row makes no difference wherever it stands |
| PartSheet.StripAll | excel_to_dart.py:41 | each column name is stripped |
| PartSheet.ReadTable | excel_to_dart.py:13-41 | reading fails exactly with more than six columns, or with fewer than five and no `Teile-Nr` column |
| PartSheet.IdString | excel_to_dart.py:50-55 | a numeric part number renders with no `.0` and reads back as the same number; text is stripped |
| PartSheet.FloatRepr | excel_to_dart.py:53-67 | definition of `str(x)` for an integral float, the digits followed by `.0`; used in `PartSheet.FloatCellStrings` |
| PartSheet.CellString | excel_to_dart.py:55-67 | definition of `str(x).strip()` of a cell and `''` for NaN; `PartSheet.FloatCellStrings` shows a float keeps its `.0` here |
| PartSheet.FloatCellStrings | excel_to_dart.py:53-67 | a float cell read as text keeps `.0`, read as a part or box number it loses it |
| PartSheet.NameString | excel_to_dart.py:59-61 | the name has no line breaks, each break became a blank, and a missing name is `Unbekannt` |
| PartSheet.Quantity | excel_to_dart.py:62 | NaN gives 0, a number gives itself, and text gives `int(text)` or an error |
| PartSheet.Category | excel_to_dart.py:73-81 | the category is one of the five |
| PartSheet.CategoryIsFirstHit | excel_to_dart.py:73-81 | the category is that of the first keyword, in the fixed order strebe, winkel, riegel, statik, that the lower-cased name contains, and Baustein when none is |
| PartSheet.CategoryPriority | excel_to_dart.py:73-81 | keyword `i` decides when it occurs and no earlier keyword does |
| PartSheet.CategoryDefault | excel_to_dart.py:73 | with no keyword present the category is `Baustein` |
| PartSheet.CategoryOfLowered | excel_to_dart.py:74-80 | a lower-cased name gets the same category as the name |
| PartSheet.WinkelstrebeIsStrebe | excel_to_dart.py:74-77 | `Winkelstrebe` holds both `winkel` and `strebe` and is a Strebe, because `strebe` is checked first |
| PartSheet.MakeInfo | excel_to_dart.py:70-95 | the image path and description follow their templates, the first detail is the key, and the other three details are box, compartment and quantity in that order |
| PartSheet.NormalizeFields | excel_to_dart.py:59-95 | a record built from a row is well formed, which needs all four other columns |
| PartSheet.NormalizeFieldsValues | excel_to_dart.py:59-95 | the fields succeed exactly when the four columns are readable and `int()` accepts the quantity, and the record then holds the normalised name, the quantity, the box rendered like a part number and the compartment text |
| PartSheet.NormalizeRow | excel_to_dart.py:47-101 | a row is skipped exactly when its part number is NaN; a stored row's key is the rendered part number and its record is well formed; storing needs a Fach column |
| PartSheet.NormalizeRowCases | excel_to_dart.py:47-101 | a stored row holds the record built from its cells; a row fails exactly when a column is missing or a field cannot be read |
| PartSheet.Keys | excel_to_dart.py:134 | the keys in dictionary order |
| PartSheet.Get | excel_to_dart.py:151-152 | a lookup finds nothing exactly when the key is absent, and otherwise finds the key's entry |
| PartSheet.Put | excel_to_dart.py:97 | the key gets the new record; a new key goes to the end; an old key keeps its place; no other key changes |
| PartSheet.Outcomes | excel_to_dart.py:46-101 | one outcome per row, in row order |
| PartSheet.Fold | excel_to_dart.py:46-101 | definition of the dictionary after one row after the other is applied; its properties are the Fold lemmas |
| PartSheet.Build | excel_to_dart.py:46-101 | definition of the loop's result for a table; `PartSheet.BuildStore` computes it |
| PartSheet.BuildStore | excel_to_dart.py:44-101 | the loop builds the dictionary the fold of the row outcomes specifies, and no key occurs twice |
| PartSheet.Convert | excel_to_dart.py:13-101 | a dictionary from the reader and loop never repeats a key |
| PartSheet.FirstOccurrences | excel_to_dart.py:97 | keeps each element once, keeping the same elements |
| PartSheet.FoldKeyOrder | excel_to_dart.py:97 | the keys stand in the order of the first row that stored each, without repeats |
| PartSheet.FoldLastWriteWins | excel_to_dart.py:97 | a key holds the record of the last row that stored it |
| PartSheet.FoldHasKey | excel_to_dart.py:97 | a key is present exactly when some row stored it |
| PartSheet.FoldIgnoresUnstored | excel_to_dart.py:57-101 | a skipped or failing row leaves the dictionary as if it were not there |
| PartSheet.FoldNothingStored | excel_to_dart.py:99-101 | rows that all fail or are skipped give an empty dictionary |
| PartSheet.FoldUniqueKeys | excel_to_dart.py:97 | the dictionary never holds a key twice |
| PartSheet.ReadFiveColumns | excel_to_dart.py:19-28 | with five columns the first is dropped and the other four are named Teile-Nr, Name, Anzahl and Kasten-Nr |
| PartSheet.NoCompartmentStoresNothing | excel_to_dart.py:67-101 | without a Fach column every row fails or is skipped, leaving the dictionary empty |
| PartSheet.FiveColumnsStoreNothing | excel_to_dart.py:19-67 | a five-column sheet converts to an empty dictionary |
| PartSheet.PositionalNamesStripped | excel_to_dart.py:20-41 | the positional names survive the strip at line 41 unchanged |
| PartSheet.SixColumnNamesUsual | excel_to_dart.py:20-23 | with six columns the names after the placeholder are Teile-Nr, Name, Anzahl, Kasten-Nr and Fach, without repeats |
| PartSheet.ReadSixColumns | excel_to_dart.py:15-41 | a six-column sheet reads as the usual names and the kept rows, in sheet order, without the first cell |
| PartSheet.ConvertSixColumns | excel_to_dart.py:15-101 | a six-column sheet converts to the dictionary the row loop builds from those rows, in sheet order |
| PartSheet.FieldOfUnique | excel_to_dart.py:49 | in a header without repeats, each name reads the cell at its own position |
| PartSheet.SpacedHeaderCellKept | excel_to_dart.py:26-55 | a part number ` Teile-Nr` with a blank in front passes the raw comparison at line 28 and becomes the key `Teile-Nr` |
| PartSheet.UsualFields | excel_to_dart.py:49-67 | in the usual columns each name reads its own cell of a five-cell row |
| PartSheet.UsualRowStored | excel_to_dart.py:46-97 | any such row with a part number and a quantity `int()` accepts is stored under its rendered part number, with the record of the normalised name, the quantity, the box like a part number and the compartment text |
| PartSheet.UsualRowBadQuantity | excel_to_dart.py:62-101 | a quantity text `int()` refuses makes the row fail with that text |
| PartSheet.NumericBoxAndCompartment | excel_to_dart.py:63-67 | a numeric box is stored without `.0`, a numeric compartment with it |
| PartSheet.PlainRowStored | excel_to_dart.py:46-97 | a row with a numeric part number and quantity, a name and no box or compartment is stored under `str(n)` with the normalised record |
| PartSheet.DuplicateRowsOutcomes | excel_to_dart.py:46-97 | the three example rows are stored, skipped for the missing part number, and stored again |
| PartSheet.StoredTwiceSkippedBetween | excel_to_dart.py:57-97 | storing a key, skipping a row and storing the key again leaves one entry, holding the second record |
| PartSheet.DuplicateRowsLastWins | excel_to_dart.py:46-101 | part `n`, then a row without a number, then part `n` again under a new name: the dictionary is one key `str(n)` holding the third row's record; it is a Strebe if that name contains `strebe` |
| PartSheet.DuplicateRowsStore | excel_to_dart.py:46-101 | the three example rows leave one entry, under the part number, holding the second row's record |
| DartOutput.DetailLines | excel_to_dart.py:140-141 | one detail line per technical detail, in order |
| DartOutput.EntryTexts | excel_to_dart.py:134-144 | one literal per record, in dictionary order |
| DartOutput.EntryText | excel_to_dart.py:135-144 | definition of one record's literal; `DartOutput.EmitEntry` builds it and `DartOutput.DetailEmitted` shows each detail line in it |
| DartOutput.EmitEntry | excel_to_dart.py:135-144 | the loop over the details builds the record's literal |
| DartOutput.AppendEntries | excel_to_dart.py:134-144 | the loop over the records appends their literals in dictionary order |
| DartOutput.EmitDart | excel_to_dart.py:111-175 | the generated text is the header, the records' literals in order, then the footer |
| DartOutput.ConcatAppend | excel_to_dart.py:134-144 | concatenating two lists of parts concatenates their texts |
| DartOutput.ConcatAt | excel_to_dart.py:134-144 | each part stands right after the parts before it |
| DartOutput.ConcatBefore | excel_to_dart.py:134-144 | a part ends before any later part starts |
| DartOutput.EntryAt | excel_to_dart.py:134-144 | the `i`-th record's literal stands in the file at its offset |
| DartOutput.EntriesInOrder | excel_to_dart.py:134 | literals come in dictionary order, without overlap |
| DartOutput.EveryRecordEmitted | excel_to_dart.py:134-144 | every key's record appears in the generated file |
| DartOutput.DetailEmitted | excel_to_dart.py:140-141 | each detail line appears in its record's literal |
| DartOutput.FirstMatch | excel_to_dart.py:156-160 | the first key in dictionary order that the label contains or that contains the label; there is none exactly when no key matches |
| DartOutput.Matches | excel_to_dart.py:157 | definition of the tier-2 test, the label contains the key or the key contains the label |
| DartOutput.Sentinel | excel_to_dart.py:163-172 | definition of the tier-3 record; `DartOutput.LookupSentinel` states its name, category and label detail |
| DartOutput.GetPartInfo | excel_to_dart.py:149-173 | an exact key gives its record; otherwise the result is a stored record, or the sentinel when nothing matches; it never fails |
| DartOutput.LookupExact | excel_to_dart.py:151-152 | tier 1: a label that is a key gives that key's record |
| DartOutput.LookupFirstMatch | excel_to_dart.py:156-160 | tier 2: otherwise the first matching key in dictionary order wins |
| DartOutput.LookupSentinel | excel_to_dart.py:163-172 | tier 3: with no match the result is `Unbekanntes Teil`, `Nicht klassifiziert`, carrying the label under `Erkanntes Label` |
| DartOutput.LookupEmptyLabel | excel_to_dart.py:157 | an empty label matches the first key |
| DartOutput.LookupWithSuffix | excel_to_dart.py:156-160 | `32064-used` finds the record of `32064` |
| DartOutput.LookupUnknown | excel_to_dart.py:163-172 | `99999` against key `32064` gives the sentinel carrying `99999` |
| DartOutput.LookupAmbiguous | excel_to_dart.py:156-160 | with keys `3` and `32064`, `32064-used` gives the record of `3` |
| ClassList.Matching | 1_sammeln/collector_pro.py:72-75 | a helper bound only: the filtered list is no longer than the class list; what it holds is `ClassList.MatchingMembers` and the order is `ClassList.MatchingAppend` |
| ClassList.MatchingMembers | 1_sammeln/collector_pro.py:72-75 | a class is shown exactly when it is in the list and its lower-case form contains the term |
| ClassList.MatchingAppend | 1_sammeln/collector_pro.py:72-75 | filtering keeps list order: filtering a concatenation concatenates the filtered parts |
| ClassList.MatchingEverything | 1_sammeln/collector_pro.py:68-75 | an empty search shows the whole list, in order |
| ClassList.MatchingIgnoresCase | 1_sammeln/collector_pro.py:73 | a class and its lower-cased form are found by the same terms |
| ClassList.WithClass | 1_sammeln/collector_pro.py:88-89 | the list after adding is sorted, is the old list plus the name as a multiset, and has no repeats if the old list had none |
| ClassList.AddedOnce | 1_sammeln/collector_pro.py:87-89 | adding a name not yet present keeps the list free of repeats |
| ClassList.NoDuplicatesByMultiset | 1_sammeln/collector_pro.py:89 | sorting a list without repeats keeps it without repeats |
| ClassList.WithoutClass | 1_sammeln/collector_pro.py:123 | only the first occurrence goes and the rest stays in order; in a list without repeats the name is gone and every other class stays |
| ClassList.RemovedEntirely | 1_sammeln/collector_pro.py:123 | in a list without repeats, removing one occurrence removes the name entirely |
| ClassList.SelectionAfterDelete | 1_sammeln/collector_pro.py:127-129 | deleting the selected class moves the selection to the first remaining class, or to none when none remain; any other selection stays |
| ClassList.Highlight | 1_sammeln/collector_pro.py:77-81 | the highlighted row is the first row that shows the current class, and there is none exactly when the filtered list lacks it |
| ClassList.ClassDialog.constructor | 1_sammeln/collector_pro.py:178-179 | the dialog opens unmodified, on the whole list, with the current class highlighted |
| ClassList.ClassDialog.FilterClasses | 1_sammeln/collector_pro.py:67-81 | the loop refills the filtered list with the matching classes in order and rehighlights; nothing else changes |
| ClassList.ClassDialog.SetSearch | 1_sammeln/collector_pro.py:146 | typing refilters with the new text |
| ClassList.ClassDialog.Pick | 1_sammeln/collector_pro.py:158 | clicking a row highlights it |
| ClassList.ClassDialog.OnSelect | 1_sammeln/collector_pro.py:58-62 | with a row highlighted, it becomes the selection and the dialog closes; otherwise nothing happens |
| ClassList.ClassDialog.AddClass | 1_sammeln/collector_pro.py:83-97 | a non-empty new stripped name is added, the list sorted, the search cleared and the modified flag set; an empty or cancelled input changes nothing; a name already present only warns |
| ClassList.ClassDialog.DeleteClass | 1_sammeln/collector_pro.py:99-132 | without a highlighted row, or unconfirmed, nothing changes; a confirmed deletion removes the first occurrence of the class, sets the modified flag, moves the selection off it and refilters |
| ClassList.SearchExample | 1_sammeln/collector_pro.py:72-75 | searching `ba` in `Bauteil_A`, `achse`, `Balken` shows `Bauteil_A` and `Balken` |
| Capture.LastDot | 1_sammeln/collector_pro.py:48 | the last dot of a name, with no dot after it, or none when there is no dot |
| Capture.IsImage | 1_sammeln/collector_pro.py:47-48 | definition of the filter, a regular file whose lower-cased extension is an image extension |
| Capture.Extension | 1_sammeln/collector_pro.py:48 | `splitext` gives the text from the last dot when something other than a dot precedes that dot, and nothing otherwise |
| Capture.ImageFiles | 1_sammeln/collector_pro.py:46-48 | exactly the regular files whose lower-cased extension is `.jpg`, `.jpeg`, `.png` or `.bmp` |
| Capture.ImageCount | 1_sammeln/collector_pro.py:39-49 | a missing folder counts 0, and otherwise the count is the number of image files |
| Capture.ImageCountAppend | 1_sammeln/collector_pro.py:46-48 | a new entry raises the count by one exactly when it is an image |
| Capture.SavedFramesAreImages | 1_sammeln/collector_pro.py:211-227 | both kinds of saved frame have the extension `.jpg` and count as images, whatever the class and clock text |
| Capture.AutoFileName | 1_sammeln/collector_pro.py:211 | definition of the auto-mode file name, class, `_auto_`, clock text and `.jpg`; `Capture.SavedFramesAreImages` shows it is counted |
| Capture.ManualFileName | 1_sammeln/collector_pro.py:227 | definition of the space-key file name, class, `_`, clock text and `.jpg`; `Capture.SavedFramesAreImages` shows it is counted |
| Capture.JpgIsImageExtension | 1_sammeln/collector_pro.py:45 | `.jpg` is one of the counted extensions |
| Capture.SavedFrameCounted | 1_sammeln/collector_pro.py:211-228 | writing a frame raises the folder's count by one |
| Capture.JpgExtension | 1_sammeln/collector_pro.py:48 | a stem with a character other than a dot, followed by `.jpg`, has the extension `.jpg` |
| Capture.UpperCaseExtensionCounted | 1_sammeln/collector_pro.py:48 | `foo.JPG` is counted |
| Capture.LastExtensionCounted | 1_sammeln/collector_pro.py:48 | `a.tar.png` is counted |
| Capture.OtherExtensionNotCounted | 1_sammeln/collector_pro.py:45-48 | `foo.gif` is not counted |
| Capture.HiddenFileNotCounted | 1_sammeln/collector_pro.py:48 | `.png` has no extension and is not counted |
| Capture.KeyCode | 1_sammeln/collector_pro.py:224 | `& 0xFF` keeps the low byte: less than 256, and congruent to the raw code |
| Capture.Choose | 1_sammeln/collector_pro.py:234-238 | a changed list is reloaded; a non-empty selection in the list becomes the current class at its first position, with its folder's count; otherwise index and count stay |
| Capture.DialogOutcome | 1_sammeln/collector_pro.py:187 | the dialog's result carries its final selection and flag, and after a change the list read back is the dialog's own list, saved at lines 90 and 124 |
| Capture.ChooseFromDialog | 1_sammeln/collector_pro.py:233-238 | after the dialog closes the loop goes on in the dialog's list when it changed, on the class the dialog selected when that list holds it, and on the old class and count when nothing was selected |
| Capture.Next | 1_sammeln/collector_pro.py:202-240 | no frame ends the loop and an out-of-range index crashes, both unchanged; otherwise the counter rises by one, `q` quits, space saves into the current class and rereads its count, and only `k` changes the class |
| Capture.Advance | 1_sammeln/collector_pro.py:207-213 | the counter rises by one; the frame is saved exactly in auto mode on a multiple of five, which rereads the count; nothing else changes |
| Capture.React | 1_sammeln/collector_pro.py:224-240 | space saves and rereads the count, `a` toggles auto mode, `k` turns it off and runs the class choice, `q` quits, and other keys change nothing |
| Capture.AutoSaveRule | 1_sammeln/collector_pro.py:210-213 | a frame is auto-saved exactly when auto mode is on and the incremented counter is a multiple of five, under the current class |
| Capture.AutoModeKeys | 1_sammeln/collector_pro.py:229-232 | `a` toggles auto mode, `k` always turns it off, other keys keep it |
| Capture.ClassIndexRule | 1_sammeln/collector_pro.py:236-237 | the index changes only through `k`, to the first position of the selected class in the possibly reloaded list; if that class is there, the index is its position |
| Capture.IndexOfFirst | 1_sammeln/collector_pro.py:237 | a position holding the element with none before is what `index` returns |
| Capture.KeyLowByte | 1_sammeln/collector_pro.py:224 | raw codes that agree in the low byte act alike; no key (-1) only counts the frame |
| Capture.EmptiedListCrashes | 1_sammeln/collector_pro.py:206-235 | once the dialog has emptied the list, the next frame ends in an `IndexError` |
| Capture.AutoSaves | 1_sammeln/collector_pro.py:202-213 | a helper bound only: no more auto saves than passes; the exact number is `Capture.AutoSavesInRun` |
| Capture.QuietStep | 1_sammeln/collector_pro.py:207-213 | a pass in auto mode with no key keeps class and mode, and saves on a multiple of five |
| Capture.FifthStep | 1_sammeln/collector_pro.py:210 | one more frame adds one to the number of multiples of five passed exactly when the new counter value is a multiple of five |
| Capture.AutoSavesInRun | 1_sammeln/collector_pro.py:202-213 | `n` quiet frames in auto mode, starting from counter `c`, save as many images as there are multiples of five in `c+1 .. c+n` |
| Capture.OneInFive | 1_sammeln/collector_pro.py:210 | any five quiet frames in auto mode save exactly one image |
| Capture.Collector.constructor | 1_sammeln/collector_pro.py:193-196 | the loop starts on the first class with its folder's count, auto mode off and no frame counted |
| Capture.Collector.Frame | 1_sammeln/collector_pro.py:202-240 | one pass updates the variables and reports the saved files as `Next` specifies |
| Capture.Collector.CountFrame | 1_sammeln/collector_pro.py:207-213 | counting and auto-saving update the variables as `Advance` specifies |
| Capture.Collector.HandleKey | 1_sammeln/collector_pro.py:224-240 | the key handling updates the variables as `React` specifies |

## Left out

- Reading the workbook (`pd.read_excel`) is left out. The model starts from the names pandas reads from the header row and the cells below it. pandas renames repeated header names, so `PartSheet.ReadTable` and `PartSheet.Convert` require a header without repeats.
- A float cell with a non-integral value, and any float of 10^16 or more, is left out. `Num(n)` renders as `str(n) + ".0"`, which matches Python only below 10^16. For `Name` and `Fach`, a whole number that pandas reads as an int is not modelled: `str(5)` gives `5` where the model's `Num` gives `5.0`. For the part number, the box and the quantity an int and a float give the same result, so `Num` covers both there. Booleans and dates are also left out.
- `PartSheet.IdString`: `str(int(x))` of a float is modelled only for integral values, as above.
- `PyText.Lower` handles ASCII and the Latin-1 capitals only. Other Unicode case mappings are not modelled.
- `PyText.ParseInt` accepts ASCII digits only. Python also accepts other Unicode decimal digits.
- The progress and error messages are left out, and so is the traceback on a fatal read error. A fatal read error is an `Err` result; the script prints it and exits.
- The JSON output (lines 105-108) and its round trip are left out, because `json.dump` is I/O on an external format. The written Dart file and the output file names are left out too.
- `DartOutput.EmitDart` concatenates text without escaping, as the script does. The model does not promise the output is valid Dart when a text holds a single quote, a backslash or a `$`, which Dart interpolates in a single-quoted string. The same goes for a line break inside a part number, box or compartment text. `Strip` keeps inner line breaks, and line 61 replaces them in the name only.
- The emission lemmas (`DartOutput.EntryAt`, `EntriesInOrder`, `EveryRecordEmitted`) are stated for any header and footer text. They therefore cover the file with the script's own header and footer (`DartOutput.DartSource`).
- `DartOutput.GetPartInfo` is modelled on the data of the emitted map literal, not by parsing the Dart text. The Dart function returns a nullable type; the model shows it never returns null.
- In the labelling tool, the tkinter widgets, message boxes, event binding and `mainloop` are left out. The dialog's operations are methods of `ClassDialog`; the prompt's answer and the yes/no answer are parameters.
- `ClassList.ClassDialog` holds its own copy of the class list. The script's dialog changes the caller's list in place, but the capture loop reads the list back from the file whenever the dialog reports a change, so the model passes that reloaded list instead. `Capture.DialogOutcome` reads the dialog's final selection, flag and list into the result the pass takes.
- `save_classes` and `load_classes` (JSON file I/O) are left out. When the dialog has changed the list, the reloaded list is a parameter of the pass. `Capture.DialogOutcome` takes it to be the dialog's own list, which the dialog saved before setting its flag; that `json.load` reads back what `json.dump` wrote is not modelled.
- `os.makedirs` and `shutil.rmtree` are left out, and folder listings are parameters. So the folder contents before and after a save are not tied to each other beyond `Capture.SavedFrameCounted`.
- OpenCV capture, `imshow`, `putText` and `imwrite` are left out. The pass returns the names of the frames it saves, and `time.time()` is a parameter.
- `ClassList.WithClass` returns the sorted list as a new value assigned to the dialog's field. The script sorts the list in place with `list.sort()`; the model does not capture that the caller sees the same list object.
- `Capture.Collector.constructor` requires a non-empty class list. The script raises `IndexError` at line 194 on an empty `classes.json`.

## Findings

None.
