/**
 * The offline indexer: walks the pack folders under `Purchased_Libraries/Other_External_Packs`
 * of the `Hedgies_Studios_Audio_Library` bucket and upserts one `audio_assets` row per file,
 * keyed by its storage path, with a category guessed from the pack name.
 */
module AudioIndexer {
  import opened Optional
  import opened Text
  import opened ListingItems
  import opened Sequences

  const Bucket: string := "Hedgies_Studios_Audio_Library"
  const BasePrefix: string := "Purchased_Libraries/Other_External_Packs"
  const LibraryGroup: string := "Other_External_Packs"

  // ---------------------------------------------------------------------------
  // Category rules
  // ---------------------------------------------------------------------------

  datatype Category = Ambience | Foley | Comms | Alarms | Movement

  /** A rule: any of these words in the lowercased pack name gives this category. */
  datatype Rule = Rule(words: seq<string>, category: Category)

  /** The rules in the order they are tried. */
  const Rules: seq<Rule> := [
    Rule(["ambience", "ambiences"], Ambience),
    Rule(["foley"], Foley),
    Rule(["radio"], Comms),
    Rule(["alarm"], Alarms),
    Rule(["movement", "clothes"], Movement)
  ]

  /** Some word of `words` occurs in `lower`. */
  predicate AnyContained(lower: string, words: seq<string>)
    decreases |words|
  {
    words != [] && (Contains(lower, words[0]) || AnyContained(lower, words[1..]))
  }

  predicate Matches(lower: string, rule: Rule) {
    AnyContained(lower, rule.words)
  }

  /** The category of the first matching rule, if any. */
  function FirstMatch(lower: string, rules: seq<Rule>): Option<Category>
    decreases |rules|
  {
    if rules == [] then None
    else if Matches(lower, rules[0]) then Some(rules[0].category)
    else FirstMatch(lower, rules[1..])
  }

  /** No category exactly when no rule matches; otherwise the category is that of the first matching rule. */
  lemma {:induction false} FirstMatchIsFirst(lower: string, rules: seq<Rule>)
    ensures FirstMatch(lower, rules).None? <==> forall i :: 0 <= i < |rules| ==> !Matches(lower, rules[i])
    ensures FirstMatch(lower, rules).Some? ==>
              exists i :: 0 <= i < |rules| && Matches(lower, rules[i]) && rules[i].category == FirstMatch(lower, rules).value
                          && (forall j :: 0 <= j < i ==> !Matches(lower, rules[j]))
    decreases |rules|
  {
    if rules != [] && !Matches(lower, rules[0]) {
      FirstMatchIsFirst(lower, rules[1..]);
      assert forall i :: 0 < i < |rules| ==> rules[i] == rules[1..][i - 1];
      var r := FirstMatch(lower, rules[1..]);
      if r.Some? {
        var i :| 0 <= i < |rules[1..]| && Matches(lower, rules[1..][i]) && rules[1..][i].category == r.value
                 && forall j :: 0 <= j < i ==> !Matches(lower, rules[1..][j]);
        assert rules[i + 1] == rules[1..][i];
      }
    }
  }

  /** `inferCategoryFromPack`: the if-chain is the rule table tried in order on the lowercased name. */
  function InferCategory(pack: string): (r: Option<Category>)
    ensures r == FirstMatch(Lower(pack), Rules)
  {
    var lower := Lower(pack);
    RulesInOrder(lower);
    if Contains(lower, "ambience") || Contains(lower, "ambiences") then Some(Ambience)
    else if Contains(lower, "foley") then Some(Foley)
    else if Contains(lower, "radio") then Some(Comms)
    else if Contains(lower, "alarm") then Some(Alarms)
    else if Contains(lower, "movement") || Contains(lower, "clothes") then Some(Movement)
    else None
  }

  /** Trying the rule table is the if-chain of `inferCategoryFromPack`, one rule at a time. */
  lemma RulesInOrder(lower: string)
    ensures FirstMatch(lower, Rules) ==
            if Contains(lower, "ambience") || Contains(lower, "ambiences") then Some(Ambience)
            else if Contains(lower, "foley") then Some(Foley)
            else if Contains(lower, "radio") then Some(Comms)
            else if Contains(lower, "alarm") then Some(Alarms)
            else if Contains(lower, "movement") || Contains(lower, "clothes") then Some(Movement)
            else None
  {
    var r4 := [Rule(["movement", "clothes"], Movement)];
    var r3 := [Rule(["alarm"], Alarms)] + r4;
    var r2 := [Rule(["radio"], Comms)] + r3;
    var r1 := [Rule(["foley"], Foley)] + r2;
    assert Rules == [Rule(["ambience", "ambiences"], Ambience)] + r1;
    assert r4[1..] == [] && r3[1..] == r4 && r2[1..] == r3 && r1[1..] == r2;
    assert AnyContained(lower, ["movement", "clothes"]) <==> Contains(lower, "movement") || Contains(lower, "clothes") by {
      assert ["movement", "clothes"][1..] == ["clothes"] && ["clothes"][1..] == [];
    }
    assert AnyContained(lower, ["ambience", "ambiences"]) <==> Contains(lower, "ambience") || Contains(lower, "ambiences") by {
      assert ["ambience", "ambiences"][1..] == ["ambiences"] && ["ambiences"][1..] == [];
    }
  }

  /** The category depends on the pack name only up to case. */
  lemma InferCategoryIgnoresCase(a: string, b: string)
    requires Lower(a) == Lower(b)
    ensures InferCategory(a) == InferCategory(b)
  {
  }

  // ---------------------------------------------------------------------------
  // Listing filters
  // ---------------------------------------------------------------------------

  /** A JSON field that may be missing, `null`, or a string. */
  datatype Field = Missing | Null | Present(value: string)

  /** A raw entry of the script's listing: folders come back without an `id`. */
  datatype StorageFile = StorageFile(name: string, id: Field, metadata: Option<Metadata>)

  /** The outcome of `list(prefix)`: `{ data, error }`; an error makes the helpers throw. */
  datatype ListResult = ListOk(data: Option<seq<StorageFile>>) | ListError

  /** `item.name && item.id === undefined`: a `null` id is not a folder. */
  predicate IsFolderEntry(f: StorageFile) {
    f.name != "" && f.id.Missing?
  }

  /** `!!item.id`: a missing, `null` or empty id is not a file. */
  predicate IsFileEntry(f: StorageFile) {
    f.id.Present? && f.id.value != ""
  }

  /** An entry is never both a folder and a file; a named entry with a `null` or empty id is neither. */
  lemma EntryKinds(f: StorageFile)
    ensures !(IsFolderEntry(f) && IsFileEntry(f))
    ensures f.id.Null? || f.id == Present("") ==> !IsFolderEntry(f) && !IsFileEntry(f)
  {
  }

  /** The folder entries of a listing (a `null` listing is empty), each as often as listed, in order. */
  function FolderEntries(entries: seq<StorageFile>): (r: seq<StorageFile>)
    ensures forall f :: multiset(r)[f] == if IsFolderEntry(f) then multiset(entries)[f] else 0
    ensures SubsequenceOf(r, entries)
    decreases |entries|
  {
    if entries == [] then []
    else
      var rest := FolderEntries(entries[1..]);
      assert entries == [entries[0]] + entries[1..];
      if IsFolderEntry(entries[0]) then
        assert ([entries[0]] + rest)[1..] == rest;
        [entries[0]] + rest
      else rest
  }

  /** `listFolders`: the names of the folder entries, in listing order. */
  function ListFolders(data: Option<seq<StorageFile>>): (names: seq<string>)
    ensures var folders := FolderEntries(data.GetOr([]));
            |names| == |folders| && forall i :: 0 <= i < |folders| ==> names[i] == folders[i].name
  {
    var folders := FolderEntries(data.GetOr([]));
    seq(|folders|, i requires 0 <= i < |folders| => folders[i].name)
  }

  /** `listFiles`: the file entries, each as often as listed, in listing order; none is a folder entry. */
  function ListFiles(data: Option<seq<StorageFile>>): (files: seq<StorageFile>)
    ensures forall f :: multiset(files)[f] == if IsFileEntry(f) then multiset(data.GetOr([]))[f] else 0
    ensures SubsequenceOf(files, data.GetOr([]))
    ensures forall f :: f in files ==> !IsFolderEntry(f)
    decreases |data.GetOr([])|
  {
    var entries := data.GetOr([]);
    if entries == [] then []
    else
      var rest := ListFiles(Some(entries[1..]));
      assert entries == [entries[0]] + entries[1..];
      if IsFileEntry(entries[0]) then
        assert ([entries[0]] + rest)[1..] == rest;
        [entries[0]] + rest
      else rest
  }

  // ---------------------------------------------------------------------------
  // Rows
  // ---------------------------------------------------------------------------

  /** A row of `audio_assets`. */
  datatype AssetRow = AssetRow(
    bucket: string, storagePath: string, fileName: string, pack: string,
    libraryGroup: string, category: Option<Category>, sizeBytes: Option<int>)

  /** `file.metadata?.size ?? null`: a defined size is kept even when it is 0. */
  function SizeBytes(f: StorageFile): (size: Option<int>)
    ensures size.Some? <==> f.metadata.Some? && f.metadata.value.size.Some?
    ensures size.Some? ==> size.value == f.metadata.value.size.value
  {
    match f.metadata
    case None => None
    case Some(m) => m.size
  }

  /** `${BASE_PREFIX}/${pack}`. */
  function PackPrefix(pack: string): string {
    BasePrefix + "/" + pack
  }

  /** The row `upsertAudioAsset` writes for one file of one pack. */
  function RowFor(pack: string, f: StorageFile): (row: AssetRow)
    ensures row.storagePath == PackPrefix(pack) + "/" + f.name
    ensures row.category == InferCategory(pack) && row.libraryGroup == LibraryGroup
    ensures row.sizeBytes == SizeBytes(f)
    ensures row.bucket == Bucket && row.fileName == f.name && row.pack == pack
  {
    AssetRow(Bucket, PackPrefix(pack) + "/" + f.name, f.name, pack, LibraryGroup, InferCategory(pack), SizeBytes(f))
  }

  /** A row's storage path splits back into the base folders, the pack and the file name. */
  lemma StoragePathSegments(pack: string, f: StorageFile)
    requires '/' !in pack && '/' !in f.name
    ensures Split(RowFor(pack, f).storagePath) == Split(BasePrefix) + [pack, f.name]
  {
    SplitAppend(BasePrefix, pack);
    SplitAppend(PackPrefix(pack), f.name);
  }

  /**
   * The index's `?? null` against the listing endpoints' `|| 0` on the same metadata: they agree
   * wherever a size is recorded, and the index records no size exactly where the endpoints
   * fall back to 0 for a missing one; a zero size is recorded as 0 by both.
   */
  lemma RecordedSizeAgreesWithListedSize(f: StorageFile)
    ensures var listed := SizeOf(Entry(f.name, f.metadata));
            && (SizeBytes(f).Some? ==> listed == SizeBytes(f).value)
            && (SizeBytes(f).None? ==> listed == 0)
            && (listed != 0 ==> SizeBytes(f) == Some(listed))
  {
  }

  /** The rows for the files of one pack, in listing order. */
  function RowsOf(pack: string, files: seq<StorageFile>): (rows: seq<AssetRow>)
    ensures |rows| == |files|
    ensures forall i :: 0 <= i < |files| ==> rows[i] == RowFor(pack, files[i])
  {
    seq(|files|, i requires 0 <= i < |files| => RowFor(pack, files[i]))
  }

  /**
   * What `run` upserts for `packs`, in order, and whether it got through them all: the
   * first pack whose listing fails stops it.
   */
  datatype PlanResult = PlanResult(rows: seq<AssetRow>, complete: bool)

  function Plan(packs: seq<string>, list: string -> ListResult): PlanResult
    decreases |packs|
  {
    if packs == [] then PlanResult([], true)
    else
      var before := Plan(packs[..|packs| - 1], list);
      var pack := packs[|packs| - 1];
      if !before.complete then PlanResult(before.rows, false)
      else match list(PackPrefix(pack))
        case ListError => PlanResult(before.rows, false)
        case ListOk(data) => PlanResult(before.rows + RowsOf(pack, ListFiles(data)), true)
  }

  /** Every planned row belongs to one of the packs and is keyed by its own file's path. */
  lemma {:induction false} PlannedRowsBelongToPacks(packs: seq<string>, list: string -> ListResult)
    ensures forall row :: row in Plan(packs, list).rows ==>
              row.pack in packs && row.storagePath == PackPrefix(row.pack) + "/" + row.fileName
              && row.category == InferCategory(row.pack) && row.libraryGroup == LibraryGroup
    decreases |packs|
  {
    if packs != [] {
      var init := packs[..|packs| - 1];
      PlannedRowsBelongToPacks(init, list);
      assert forall p :: p in init ==> p in packs;
    }
  }

  // ---------------------------------------------------------------------------
  // Upsert on storage_path
  // ---------------------------------------------------------------------------

  /** The table after upserting `rows` in order; a rejected upsert is logged and skipped. */
  function Upserted(table: map<string, AssetRow>, rows: seq<AssetRow>, rejects: AssetRow -> bool): map<string, AssetRow>
    decreases |rows|
  {
    if rows == [] then table
    else
      var t := Upserted(table, rows[..|rows| - 1], rejects);
      var row := rows[|rows| - 1];
      if rejects(row) then t else t[row.storagePath := row]
  }

  /** Upserting is overwriting: the result is the old table overridden by what the rows alone give. */
  lemma {:induction false} UpsertedOverrides(table: map<string, AssetRow>, rows: seq<AssetRow>, rejects: AssetRow -> bool)
    ensures Upserted(table, rows, rejects) == table + Upserted(map[], rows, rejects)
    decreases |rows|
  {
    if rows != [] {
      UpsertedOverrides(table, rows[..|rows| - 1], rejects);
    }
  }

  /** Re-indexing the same files changes nothing more: no duplicates, the same rows. */
  lemma UpsertIdempotent(table: map<string, AssetRow>, rows: seq<AssetRow>, rejects: AssetRow -> bool)
    ensures Upserted(Upserted(table, rows, rejects), rows, rejects) == Upserted(table, rows, rejects)
  {
    var m := Upserted(map[], rows, rejects);
    UpsertedOverrides(table, rows, rejects);
    UpsertedOverrides(table + m, rows, rejects);
    assert (table + m) + m == table + m;
  }

  /** Each row sits under its own storage path. */
  predicate KeyedByPath(table: map<string, AssetRow>) {
    forall k :: k in table ==> table[k].storagePath == k
  }

  /** Every key of an upserted table that was consistently keyed stays consistently keyed. */
  lemma {:induction false} UpsertedKeyedByPath(table: map<string, AssetRow>, rows: seq<AssetRow>, rejects: AssetRow -> bool)
    requires KeyedByPath(table)
    ensures KeyedByPath(Upserted(table, rows, rejects))
    decreases |rows|
  {
    if rows != [] {
      UpsertedKeyedByPath(table, rows[..|rows| - 1], rejects);
      var t := Upserted(table, rows[..|rows| - 1], rejects);
      var row := rows[|rows| - 1];
      assert Upserted(table, rows, rejects) == if rejects(row) then t else t[row.storagePath := row];
      assert KeyedByPath(t);
    }
  }

  /** The `audio_assets` table, keyed by `storage_path`. */
  class AssetsTable {
    var rows: map<string, AssetRow>

    constructor(rows: map<string, AssetRow>)
      ensures this.rows == rows
    {
      this.rows := rows;
    }

    /** `upsert(row, { onConflict: 'storage_path' })`; a rejected row leaves the table as it was. */
    method Upsert(row: AssetRow, rejects: AssetRow -> bool)
      modifies this
      ensures rows == Upserted(old(rows), [row], rejects)
    {
      if !rejects(row) {
        rows := rows[row.storagePath := row];
      }
    }
  }

  /**
   * `run`: list the packs, then each pack's files, upserting one row per file. A failed
   * listing aborts the run (`ok` false) with the upserts done so far kept.
   */
  method Run(table: AssetsTable, list: string -> ListResult, rejects: AssetRow -> bool) returns (ok: bool)
    modifies table
    ensures list(BasePrefix).ListError? ==> !ok && table.rows == old(table.rows)
    ensures list(BasePrefix).ListOk? ==>
              var plan := Plan(ListFolders(list(BasePrefix).data), list);
              ok == plan.complete && table.rows == Upserted(old(table.rows), plan.rows, rejects)
  {
    var top := list(BasePrefix);
    if top.ListError? {
      return false;
    }
    var packs := ListFolders(top.data);
    var i := 0;
    while i < |packs|
      invariant 0 <= i <= |packs|
      invariant Plan(packs[..i], list).complete
      invariant table.rows == Upserted(old(table.rows), Plan(packs[..i], list).rows, rejects)
    {
      var pack := packs[i];
      var listed := list(PackPrefix(pack));
      if listed.ListError? {
        PlanStops(packs, list, i);
        return false;
      }
      var files := ListFiles(listed.data);
      ghost var start := table.rows;
      var j := 0;
      while j < |files|
        invariant 0 <= j <= |files|
        invariant table.rows == Upserted(start, RowsOf(pack, files[..j]), rejects)
      {
        table.Upsert(RowFor(pack, files[j]), rejects);
        RowsOfSnoc(pack, files, j);
        j := j + 1;
      }
      assert files[..j] == files;
      PlanStep(packs, list, i);
      UpsertedConcat(old(table.rows), Plan(packs[..i], list).rows, RowsOf(pack, files), rejects);
      i := i + 1;
    }
    assert packs[..i] == packs;
    ok := true;
  }

  lemma RowsOfSnoc(pack: string, files: seq<StorageFile>, j: nat)
    requires j < |files|
    ensures RowsOf(pack, files[..j + 1]) == RowsOf(pack, files[..j]) + [RowFor(pack, files[j])]
  {
  }

  /** One more successfully listed pack extends the plan by that pack's rows. */
  lemma PlanStep(packs: seq<string>, list: string -> ListResult, i: nat)
    requires i < |packs| && Plan(packs[..i], list).complete && list(PackPrefix(packs[i])).ListOk?
    ensures Plan(packs[..i + 1], list) ==
            PlanResult(Plan(packs[..i], list).rows + RowsOf(packs[i], ListFiles(list(PackPrefix(packs[i])).data)), true)
  {
    assert packs[..i + 1][..i] == packs[..i];
  }

  /** Upserting two batches one after the other is upserting their concatenation. */
  lemma {:induction false} UpsertedConcat(table: map<string, AssetRow>, xs: seq<AssetRow>, ys: seq<AssetRow>, rejects: AssetRow -> bool)
    ensures Upserted(Upserted(table, xs, rejects), ys, rejects) == Upserted(table, xs + ys, rejects)
    decreases |ys|
  {
    if ys == [] {
      assert xs + ys == xs;
    } else {
      UpsertedConcat(table, xs, ys[..|ys| - 1], rejects);
      assert (xs + ys)[..|xs + ys| - 1] == xs + ys[..|ys| - 1];
    }
  }

  /** Once a pack's listing fails, the plan for every longer prefix is the same incomplete one. */
  lemma {:induction false} PlanStops(packs: seq<string>, list: string -> ListResult, i: nat)
    requires i < |packs| && list(PackPrefix(packs[i])).ListError?
    ensures Plan(packs, list) == PlanResult(Plan(packs[..i], list).rows, false)
    decreases |packs|
  {
    if |packs| - 1 == i {
      assert packs[..|packs| - 1] == packs[..i];
    } else {
      PlanStops(packs[..|packs| - 1], list, i);
      assert packs[..|packs| - 1][..i] == packs[..i];
    }
  }
}
