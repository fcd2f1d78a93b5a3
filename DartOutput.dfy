/**
 * The generated Dart source (excel_to_dart.py, lines 110-175) and the
 * behaviour of the `getPartInfo` lookup it contains. The emitted text is
 * plain concatenation: nothing is escaped, so the model says where each
 * entry lands in the text and nothing about whether the text is valid Dart.
 */
module DartOutput {
  import opened Wrappers
  import opened PyText
  import opened PartSheet

  const EXCEL_FILE: string := "bauteile.xlsx"

  /** Lines 111-131, with the spreadsheet name filled in and `{{` read as `{`. */
  const HEADER: string :=
    "// AUTOMATISCH GENERIERT - NICHT MANUELL BEARBEITEN\n"
    + "// Generiert aus: " + EXCEL_FILE + "\n"
    + "\n"
    + "class PartInfo {\n"
    + "  final String name;\n"
    + "  final String description;\n"
    + "  final Map<String, String> technicalDetails;\n"
    + "  final String imagePath;\n"
    + "  final String category;\n"
    + "\n"
    + "  PartInfo({\n"
    + "    required this.name,\n"
    + "    required this.description,\n"
    + "    required this.technicalDetails,\n"
    + "    required this.imagePath,\n"
    + "    required this.category,\n"
    + "  });\n"
    + "\n"
    + "  // Statische Datenbank mit Teile-Informationen\n"
    + "  static final Map<String, PartInfo> partDatabase = {\n"

  /** Lines 147-175: the end of the map literal and the lookup function. */
  const FOOTER: string :=
    "  };\n"
    + "\n"
    + "  static PartInfo? getPartInfo(String label) {\n"
    + "    // Versuche direktes Match\n"
    + "    if (partDatabase.containsKey(label)) {\n"
    + "      return partDatabase[label];\n"
    + "    }\n"
    + "    \n"
    + "    // Fallback: Nach Teilenummer im Label suchen\n"
    + "    for (var key in partDatabase.keys) {\n"
    + "      if (label.contains(key) || key.contains(label)) {\n"
    + "        return partDatabase[key];\n"
    + "      }\n"
    + "    }\n"
    + "    \n"
    + "    // Wenn nichts gefunden wurde, gebe ein Standard-Teil zurück\n"
    + "    return PartInfo(\n"
    + "      name: 'Unbekanntes Teil',\n"
    + "      category: 'Nicht klassifiziert',\n"
    + "      description: 'Dieses Teil wurde erkannt, ist aber noch nicht in der Datenbank.',\n"
    + "      technicalDetails: {\n"
    + "        'Erkanntes Label': label,\n"
    + "        'Hinweis': 'Bitte füge weitere Informationen zu diesem Teil hinzu.',\n"
    + "      },\n"
    + "      imagePath: 'assets/images/unknown.png',\n"
    + "    );\n"
    + "  }\n"
    + "}\n"

  // ------------------------------------------------------------- emission

  /** Line 141: one line of the `technicalDetails` map literal. */
  function DetailLine(detail: (string, string)): string {
    "        '" + detail.0 + "': '" + detail.1 + "',\n"
  }

  /** Lines 140-141: the lines of the details map, in the order of the record's details. */
  function DetailLines(details: seq<(string, string)>): (r: seq<string>)
    ensures |r| == |details| && forall j | 0 <= j < |details| :: r[j] == DetailLine(details[j])
  {
    seq(|details|, j requires 0 <= j < |details| => DetailLine(details[j]))
  }

  function DetailsText(details: seq<(string, string)>): string {
    Concat(DetailLines(details))
  }

  /** Lines 135-139: an entry up to the opening of its details map. */
  function EntryOpen(key: string, info: PartInfo): string {
    "    '" + key + "': PartInfo(\n"
    + "      name: '" + info.name + "',\n"
    + "      category: '" + info.category + "',\n"
    + "      description: '" + info.description + "',\n"
    + "      technicalDetails: {\n"
  }

  /** Lines 142-144: an entry after its details. */
  function EntryClose(info: PartInfo): string {
    "      },\n"
    + "      imagePath: '" + info.imagePath + "',\n"
    + "    ),\n"
  }

  /** Lines 135-144: the literal emitted for one record. */
  function EntryText(key: string, info: PartInfo): string {
    EntryOpen(key, info) + DetailsText(info.technicalDetails) + EntryClose(info)
  }

  /** Lines 134-144: the literals of all records, in the order of the dictionary. */
  function EntryTexts(db: Store): (r: seq<string>)
    ensures |r| == |db| && forall i | 0 <= i < |db| :: r[i] == EntryText(db[i].0, db[i].1)
  {
    seq(|db|, i requires 0 <= i < |db| => EntryText(db[i].0, db[i].1))
  }

  /** A file made of a header, the literals of the records of `db`, and a footer. */
  function DartFile(header: string, db: Store, footer: string): string {
    header + Concat(EntryTexts(db)) + footer
  }

  /** The whole generated file for the dictionary `db`. */
  function DartSource(db: Store): string {
    DartFile(HEADER, db, FOOTER)
  }

  /** Lines 135-144: the literal of one record, its detail lines added one by one. */
  method EmitEntry(key: string, info: PartInfo) returns (entry: string)
    ensures entry == EntryText(key, info)
  {
    var open := EntryOpen(key, info);
    entry := open;
    var details := info.technicalDetails;
    ghost var lines := DetailLines(details);
    var j := 0;
    while j < |details|
      invariant 0 <= j <= |details|
      invariant entry == open + Concat(lines[..j])
    {
      var line := DetailLine(details[j]);
      ConcatStep(lines, j);
      AppendAssoc(open, Concat(lines[..j]), line);
      entry := entry + line;
      j := j + 1;
    }
    assert lines[..j] == lines;
    entry := entry + EntryClose(info);
  }

  /** Lines 134-144: the loop appending one literal per record to the text so far. */
  method AppendEntries(prefix: string, db: Store) returns (code: string)
    ensures code == prefix + Concat(EntryTexts(db))
  {
    ghost var entries := EntryTexts(db);
    code := prefix;
    var i := 0;
    while i < |db|
      invariant 0 <= i <= |db|
      invariant code == prefix + Concat(entries[..i])
    {
      var entry := EmitEntry(db[i].0, db[i].1);
      ConcatStep(entries, i);
      AppendAssoc(prefix, Concat(entries[..i]), entry);
      code := code + entry;
      i := i + 1;
    }
    assert entries[..i] == entries;
  }

  /** Lines 111-175: the header, the entries, and the lookup function that closes the class. */
  method EmitDart(db: Store) returns (code: string)
    ensures code == DartSource(db)
  {
    code := HEADER;
    code := AppendEntries(code, db);
    code := code + FOOTER;
  }

  // --------------------------------------------------- where the text goes

  /** The texts of `parts`, one after the other. */
  function Concat(parts: seq<string>): string
    decreases |parts|
  {
    if parts == [] then ""
    else Concat(parts[..|parts| - 1]) + parts[|parts| - 1]
  }

  lemma AppendAssoc(a: string, b: string, c: string)
    ensures a + (b + c) == (a + b) + c
  {
  }

  /** One more part. */
  lemma ConcatStep(parts: seq<string>, i: nat)
    requires i < |parts|
    ensures Concat(parts[..i + 1]) == Concat(parts[..i]) + parts[i]
  {
    assert parts[..i + 1][..i] == parts[..i];
  }

  /** The parts of two lists one after the other. */
  lemma {:induction false} ConcatAppend(a: seq<string>, b: seq<string>)
    ensures Concat(a + b) == Concat(a) + Concat(b)
    decreases |b|
  {
    if b == [] {
      assert a + b == a;
    } else {
      var b' := b[..|b| - 1];
      ConcatAppend(a, b');
      assert (a + b)[..|a + b| - 1] == a + b';
      assert (a + b)[|a + b| - 1] == b[|b| - 1];
    }
  }

  /** Part `i` stands right after the parts before it, whatever comes before and after the whole. */
  lemma ConcatAt(prefix: string, parts: seq<string>, suffix: string, i: nat)
    requires i < |parts|
    ensures OccursAt(prefix + Concat(parts) + suffix, parts[i], |prefix| + |Concat(parts[..i])|)
  {
    var before := Concat(parts[..i]);
    assert parts == parts[..i + 1] + parts[i + 1..];
    ConcatAppend(parts[..i + 1], parts[i + 1..]);
    ConcatStep(parts, i);
    var src := prefix + Concat(parts) + suffix;
    assert src == prefix + before + parts[i] + (Concat(parts[i + 1..]) + suffix);
    assert src[|prefix| + |before|..|prefix| + |before| + |parts[i]|] == parts[i];
  }

  /** A part ends before any later part starts. */
  lemma ConcatBefore(parts: seq<string>, i: nat, j: nat)
    requires i < j <= |parts|
    ensures |Concat(parts[..i])| + |parts[i]| <= |Concat(parts[..j])|
  {
    assert parts[..j] == parts[..i + 1] + parts[i + 1..j];
    ConcatAppend(parts[..i + 1], parts[i + 1..j]);
    ConcatStep(parts, i);
  }

  /**
   * Where the literal of the `i`-th record starts in a file with the given
   * header; the lemmas below hold for every header and footer, so in
   * particular for those of lines 111-131 and 147-175.
   */
  function EntryOffset(header: string, db: Store, i: nat): nat
    requires i <= |db|
  {
    |header| + |Concat(EntryTexts(db)[..i])|
  }

  /** The `i`-th record's literal stands in the generated file at its offset. */
  lemma EntryAt(header: string, db: Store, footer: string, i: nat)
    requires i < |db|
    ensures OccursAt(DartFile(header, db, footer), EntryText(db[i].0, db[i].1), EntryOffset(header, db, i))
  {
    var parts := EntryTexts(db);
    ConcatAt(header, parts, footer, i);
  }

  /** Literals come in the order of the dictionary: an earlier record's literal ends before a later one's starts. */
  lemma EntriesInOrder(header: string, db: Store, i: nat, j: nat)
    requires i < j <= |db|
    ensures EntryOffset(header, db, i) + |EntryText(db[i].0, db[i].1)| <= EntryOffset(header, db, j)
  {
    ConcatBefore(EntryTexts(db), i, j);
  }

  /** Every record of the dictionary is emitted. */
  lemma EveryRecordEmitted(header: string, db: Store, footer: string, key: string)
    requires key in Keys(db)
    ensures Get(db, key).Some? && Contains(DartFile(header, db, footer), EntryText(key, Get(db, key).value))
  {
    var i :| 0 <= i < |db| && db[i] == (key, Get(db, key).value);
    EntryAt(header, db, footer, i);
    ContainsIff(DartFile(header, db, footer), EntryText(key, Get(db, key).value));
  }

  /** Each detail line of a record stands inside that record's literal. */
  lemma DetailEmitted(key: string, info: PartInfo, j: nat)
    requires j < |info.technicalDetails|
    ensures Contains(EntryText(key, info), DetailLine(info.technicalDetails[j]))
  {
    var lines := DetailLines(info.technicalDetails);
    ConcatAt(EntryOpen(key, info), lines, EntryClose(info), j);
    ContainsIff(EntryText(key, info), DetailLine(info.technicalDetails[j]));
  }

  // ---------------------------------------------------------------- lookup

  /** Line 157: `label.contains(key) || key.contains(label)`. */
  predicate Matches(query: string, key: string) {
    Contains(query, key) || Contains(key, query)
  }

  /** Lines 156-160: the position of the first key, in dictionary order, that matches `label`. */
  function FirstMatch(db: Store, query: string): (r: Option<nat>)
    ensures r.Some? ==> r.value < |db| && Matches(query, db[r.value].0)
    ensures r.Some? ==> forall j | 0 <= j < r.value :: !Matches(query, db[j].0)
    ensures r.None? <==> forall j | 0 <= j < |db| :: !Matches(query, db[j].0)
    decreases |db|
  {
    if db == [] then None
    else if Matches(query, db[0].0) then Some(0)
    else
      var rest := FirstMatch(db[1..], query);
      assert forall j | 1 <= j < |db| :: db[1..][j - 1] == db[j];
      match rest
      case None => None
      case Some(k) => Some(k + 1)
  }

  /** Lines 163-172: the record returned when nothing matches. */
  function Sentinel(query: string): PartInfo {
    PartInfo(
      "Unbekanntes Teil",
      "Dieses Teil wurde erkannt, ist aber noch nicht in der Datenbank.",
      "Nicht klassifiziert",
      [("Erkanntes Label", query), ("Hinweis", "Bitte füge weitere Informationen zu diesem Teil hinzu.")],
      "assets/images/unknown.png")
  }

  /**
   * Lines 149-173: `getPartInfo(label)` on the map literal emitted for `db`,
   * whose keys and their order are those of the dictionary.
   */
  function GetPartInfo(db: Store, query: string): (r: PartInfo)
    ensures query in Keys(db) ==> Get(db, query) == Some(r)
    ensures (exists i | 0 <= i < |db| :: db[i].1 == r)
      || (r == Sentinel(query) && forall i | 0 <= i < |db| :: !Matches(query, db[i].0))
  {
    match Get(db, query)
    case Some(info) => info
    case None =>
      match FirstMatch(db, query)
      case Some(i) => db[i].1
      case None => Sentinel(query)
  }

  /** Tier 1: a label that is a key gives that key's record. */
  lemma LookupExact(db: Store, query: string, info: PartInfo)
    requires UniqueKeys(db) && (query, info) in db
    ensures GetPartInfo(db, query) == info
  {
    var i :| 0 <= i < |db| && db[i] == (query, info);
    assert Keys(db)[i] == query;
    var j :| 0 <= j < |db| && db[j] == (query, GetPartInfo(db, query));
    assert Keys(db)[j] == query;
  }

  /** Tier 2: otherwise the first matching key in dictionary order wins, not the most specific one. */
  lemma LookupFirstMatch(db: Store, query: string, i: nat)
    requires query !in Keys(db)
    requires i < |db| && Matches(query, db[i].0)
    requires forall j | 0 <= j < i :: !Matches(query, db[j].0)
    ensures GetPartInfo(db, query) == db[i].1
  {
  }

  /** Tier 3: with no match the sentinel comes back, carrying the label; the lookup never fails. */
  lemma LookupSentinel(db: Store, query: string)
    requires forall j | 0 <= j < |db| :: !Matches(query, db[j].0)
    ensures GetPartInfo(db, query) == Sentinel(query)
    ensures GetPartInfo(db, query).name == "Unbekanntes Teil"
    ensures GetPartInfo(db, query).category == "Nicht klassifiziert"
    ensures GetPartInfo(db, query).technicalDetails[0] == ("Erkanntes Label", query)
  {
    assert StartsWith(query, query);
    forall j | 0 <= j < |db| ensures Keys(db)[j] != query {
      assert !Matches(query, db[j].0);
    }
  }

  /** Every string contains the empty string, so an empty label matches the first key. */
  lemma LookupEmptyLabel(db: Store)
    requires db != [] && "" !in Keys(db)
    ensures GetPartInfo(db, "") == db[0].1
  {
    assert StartsWith(db[0].0, "");
    LookupFirstMatch(db, "", 0);
  }

  /** A part number followed by a suffix finds the part. */
  lemma LookupWithSuffix(info: PartInfo)
    ensures GetPartInfo([("32064", info)], "32064-used") == info
  {
    var db := [("32064", info)];
    assert Keys(db) == ["32064"];
    assert "32064-used"[..5] == "32064";
    assert Contains("32064-used", "32064");
    LookupFirstMatch(db, "32064-used", 0);
  }

  /** An unknown part number gets the sentinel with that label. */
  lemma LookupUnknown(info: PartInfo)
    ensures GetPartInfo([("32064", info)], "99999") == Sentinel("99999")
    ensures GetPartInfo([("32064", info)], "99999").technicalDetails[0] == ("Erkanntes Label", "99999")
  {
    var db := [("32064", info)];
    NotContainsWithoutFirstChar("99999", "32064");
    NotContainsWithoutFirstChar("32064", "99999");
    LookupSentinel(db, "99999");
  }

  /** The fallback is ambiguous: key `3` comes first and wins over the better key `32064`. */
  lemma LookupAmbiguous(short: PartInfo, long: PartInfo)
    ensures GetPartInfo([("3", short), ("32064", long)], "32064-used") == short
  {
    var db := [("3", short), ("32064", long)];
    assert Keys(db) == ["3", "32064"];
    assert "32064-used"[..1] == "3";
    assert Contains("32064-used", "3");
    LookupFirstMatch(db, "32064-used", 0);
  }
}
