/** embed.js: which texts are sent to the embedding service and how the vectors
    that come back are paired with cells (embedCSV) or with schema keys
    (embedJSON), and main's choice between the two. The service call itself is
    the `embeddings` parameter: the vectors returned for the texts, in order. */
module Embed {
  import opened Wrappers
  import opened Tables
  import opened Records
  import opened Schema
  import opened Flags
  import opened Text
  import opened Resolver
  import opened CellRefs

  /** `embeddings[index]`: undefined past the end of the returned list. */
  function At(embeddings: seq<Vector>, i: nat): (r: Option<Vector>)
  {
    if i < |embeddings| then Some(embeddings[i]) else None
  }

  // ---------------------------------------------------------------------------
  // embedCSV

  /** `parsed.filter((item) => !!item?.value)`: the cells with a non-empty text. */
  function NonEmpty(parsed: seq<ParsedCell>): (kept: seq<ParsedCell>)
    ensures |kept| <= |parsed|
    ensures forall k :: 0 <= k < |kept| ==> kept[k].value != ""
  {
    if parsed == [] then []
    else (if parsed[0].value != "" then [parsed[0]] else []) + NonEmpty(parsed[1..])
  }

  /** `filteredList.map((item) => item?.value)`: the texts sent to the service. */
  function CsvTexts(kept: seq<ParsedCell>): (texts: seq<string>)
  {
    seq(|kept|, i requires 0 <= i < |kept| => kept[i].value)
  }

  /** A row of the written data file: the cell with its `embedding`. */
  datatype Row = Row(cell: ParsedCell, embedding: Option<Vector>)

  /** `filteredList.map((item, index) => ({...item, embedding: embeddings[index]}))` */
  function PairCsv(kept: seq<ParsedCell>, embeddings: seq<Vector>): (rows: seq<Row>)
  {
    seq(|kept|, i requires 0 <= i < |kept| => Row(kept[i], At(embeddings, i)))
  }

  /** embedCSV once the cells are parsed and their texts embedded. */
  function EmbedCsvRows(parsed: seq<ParsedCell>, embeddings: seq<Vector>): seq<Row>
  {
    PairCsv(NonEmpty(parsed), embeddings)
  }

  /** The kept cells are exactly the non-empty ones, in input order. */
  lemma {:induction false} NonEmptyKeeps(parsed: seq<ParsedCell>)
    ensures IsSubsequence(NonEmpty(parsed), parsed)
    ensures forall c :: c in NonEmpty(parsed) <==> c in parsed && c.value != ""
  {
    if parsed != [] {
      NonEmptyKeeps(parsed[1..]);
      assert parsed == [parsed[0]] + parsed[1..];
      if parsed[0].value != "" {
        assert NonEmpty(parsed)[1..] == NonEmpty(parsed[1..]);
      } else {
        assert NonEmpty(parsed) == NonEmpty(parsed[1..]);
      }
    }
  }

  /** Every row carries the vector of its own text: row `i` is the `i`-th
      non-empty cell, its text is the `i`-th one sent, and its vector is the
      `i`-th one returned; all rows have one when the service returns one vector
      per text. */
  lemma {:induction false} CsvRowsAligned(parsed: seq<ParsedCell>, embeddings: seq<Vector>)
    ensures var kept := NonEmpty(parsed);
      var texts := CsvTexts(kept);
      var rows := EmbedCsvRows(parsed, embeddings);
      && |rows| == |texts|
      && (forall i :: 0 <= i < |rows| ==> rows[i].cell.value == texts[i] && rows[i].embedding == At(embeddings, i))
      && (forall r :: r in rows ==> r.cell in parsed && r.cell.value != "")
      && (|embeddings| == |texts| ==> forall i :: 0 <= i < |rows| ==> rows[i].embedding == Some(embeddings[i]))
  {
    NonEmptyKeeps(parsed);
    var rows := EmbedCsvRows(parsed, embeddings);
    forall r | r in rows ensures r.cell in NonEmpty(parsed) {
      var i :| 0 <= i < |rows| && rows[i] == r;
    }
  }

  // ---------------------------------------------------------------------------
  // embedJSON

  /** `defer` is truthy: an alias, which embedJSON does not embed. */
  predicate IsAlias(e: Entry)
  {
    e.defer.Some? && e.defer.value != ""
  }

  /** The entries whose text is embedded, in table order. */
  function EmbeddedEntries(entries: Table<Entry>): (r: Table<Entry>)
    ensures |r| <= |entries|
    ensures forall k :: 0 <= k < |r| ==> !IsAlias(r[k].1)
  {
    if entries == [] then []
    else (if IsAlias(entries[0].1) then [] else [entries[0]]) + EmbeddedEntries(entries[1..])
  }

  /** `embeddableValues`: the `embed` of every entry that is not an alias. */
  function JsonTexts(entries: Table<Entry>): (texts: seq<Option<string>>)
  {
    var e := EmbeddedEntries(entries);
    seq(|e|, i requires 0 <= i < |e| => e[i].1.embed)
  }

  /** `jsonEmbeddings` as written: the `index`-th entry of the whole table, alias
      or not, gets `embeddings[index]`. */
  function JsonTableAsWritten(entries: Table<Entry>, embeddings: seq<Vector>): (t: Table<Option<Vector>>)
  {
    seq(|entries|, i requires 0 <= i < |entries| => (entries[i].0, At(embeddings, i)))
  }

  /** `jsonEmbeddings` as intended: the `index`-th embedded entry gets
      `embeddings[index]`, the vector of its own text; aliases get no entry. */
  function JsonTable(entries: Table<Entry>, embeddings: seq<Vector>): (t: Table<Option<Vector>>)
  {
    var e := EmbeddedEntries(entries);
    seq(|e|, i requires 0 <= i < |e| => (e[i].0, At(embeddings, i)))
  }

  /** The file as the parser reads it back: keys whose value is undefined are not
      written. */
  function Written(t: Table<Option<Vector>>): (r: Table<Vector>)
    ensures forall p :: p in r ==> (p.0, Some(p.1)) in t
  {
    if t == [] then []
    else if t[0].1.Some? then [(t[0].0, t[0].1.value)] + Written(t[1..])
    else Written(t[1..])
  }

  /** Reading a key back gives the vector it was set to, and nothing for a key that
      was undefined or never set. */
  lemma {:induction false} WrittenGet(t: Table<Option<Vector>>, key: string)
    requires UniqueKeys(t)
    ensures Get(Written(t), key) == if Get(t, key).Some? then Get(t, key).value else None
  {
    if t != [] {
      assert UniqueKeys(t[1..]) by {
        assert forall i, j :: 0 <= i < j < |t| - 1 ==> t[1..][i] == t[i + 1] && t[1..][j] == t[j + 1];
      }
      WrittenGet(t[1..], key);
      if t[0].0 == key {
        if t[0].1.None? {
          assert key !in KeySet(t[1..]) by {
            forall p | p in t[1..] ensures p.0 != key {
              var j :| 0 <= j < |t[1..]| && t[1..][j] == p;
              assert t[j + 1] == p;
            }
          }
          GetFound(t[1..], key);
        }
      }
    }
  }

  /** Without an alias among the first `n` entries, those entries are also the
      first `n` embedded ones. */
  lemma {:induction false} EmbeddedPrefix(entries: Table<Entry>, n: nat)
    requires n <= |entries| && forall j :: 0 <= j < n ==> !IsAlias(entries[j].1)
    ensures |EmbeddedEntries(entries)| >= n
    ensures forall i :: 0 <= i < n ==> EmbeddedEntries(entries)[i] == entries[i]
  {
    if n > 0 {
      assert forall j :: 0 <= j < n - 1 ==> entries[1..][j] == entries[j + 1];
      EmbeddedPrefix(entries[1..], n - 1);
    }
  }

  /** As written, an entry before the first alias gets the vector of its own text. */
  lemma {:induction false} AsWrittenAlignedBeforeAlias(entries: Table<Entry>, embeddings: seq<Vector>, i: nat)
    requires i < |entries| && forall j :: 0 <= j <= i ==> !IsAlias(entries[j].1)
    ensures i < |JsonTexts(entries)|
    ensures JsonTexts(entries)[i] == entries[i].1.embed
    ensures JsonTableAsWritten(entries, embeddings)[i] == (entries[i].0, At(embeddings, i))
  {
    EmbeddedPrefix(entries, i + 1);
  }

  /** Embedded entry `k` is text number |EmbeddedEntries(entries[..k])| of those sent. */
  lemma {:induction false} EmbeddedPosition(entries: Table<Entry>, k: nat)
    requires k < |entries| && !IsAlias(entries[k].1)
    ensures var p := |EmbeddedEntries(entries[..k])|;
      p < |EmbeddedEntries(entries)| && EmbeddedEntries(entries)[p] == entries[k]
  {
    assert entries == entries[..k] + entries[k..];
    EmbeddedAppend(entries[..k], entries[k..]);
    assert entries[k..][0] == entries[k];
  }

  /** Text number `i` of those sent comes from some non-alias entry `k` with exactly
      `i` embedded entries before it. */
  lemma {:induction false} EmbeddedSource(entries: Table<Entry>, i: nat)
    requires i < |EmbeddedEntries(entries)|
    ensures exists k :: (0 <= k < |entries| && !IsAlias(entries[k].1) &&
      |EmbeddedEntries(entries[..k])| == i && EmbeddedEntries(entries)[i] == entries[k])
  {
    var rest := entries[1..];
    if !IsAlias(entries[0].1) && i == 0 {
      assert entries[..0] == [];
    } else {
      var i' := if IsAlias(entries[0].1) then i else i - 1;
      EmbeddedSource(rest, i');
      var k' :| 0 <= k' < |rest| && !IsAlias(rest[k'].1) &&
        |EmbeddedEntries(rest[..k'])| == i' && EmbeddedEntries(rest)[i'] == rest[k'];
      var k := k' + 1;
      assert entries[..k] == [entries[0]] + rest[..k'];
      EmbeddedAppend([entries[0]], rest[..k']);
      assert [entries[0]][1..] == [];
      assert entries[k] == rest[k'];
    }
  }

  /** With an alias among the first `k` entries, fewer than `k` of them are embedded. */
  lemma {:induction false} EmbeddedCountAfterAlias(entries: Table<Entry>, j: nat, k: nat)
    requires j < k <= |entries| && IsAlias(entries[j].1)
    ensures |EmbeddedEntries(entries[..k])| < k
  {
    var a, b := entries[..j], entries[j + 1..k];
    assert entries[..k] == a + [entries[j]] + b;
    EmbeddedAppend(a + [entries[j]], b);
    EmbeddedAppend(a, [entries[j]]);
    assert [entries[j]][1..] == [];
  }

  /** As written, an entry after an alias does not get the vector of its own text:
      its text, if it has one, was sent at an earlier position than its own, and
      the vector it receives is either undefined (past the texts sent) or that of
      the text of a later entry. */
  lemma {:induction false} AsWrittenMisalignedAfterAlias(entries: Table<Entry>, embeddings: seq<Vector>, j: nat, i: nat)
    requires j < i < |entries| && IsAlias(entries[j].1)
    ensures JsonTableAsWritten(entries, embeddings)[i] == (entries[i].0, At(embeddings, i))
    ensures !IsAlias(entries[i].1) ==> var p := |EmbeddedEntries(entries[..i])|;
      p < i && p < |JsonTexts(entries)| && JsonTexts(entries)[p] == entries[i].1.embed
    ensures |embeddings| == |JsonTexts(entries)| <= i ==> JsonTableAsWritten(entries, embeddings)[i].1 == None
    ensures i < |JsonTexts(entries)| ==> exists k :: (i < k < |entries| && !IsAlias(entries[k].1) &&
      JsonTexts(entries)[i] == entries[k].1.embed)
  {
    if !IsAlias(entries[i].1) {
      EmbeddedCountAfterAlias(entries, j, i);
      EmbeddedPosition(entries, i);
    }
    if i < |JsonTexts(entries)| {
      EmbeddedSource(entries, i);
      var k :| 0 <= k < |entries| && !IsAlias(entries[k].1) &&
        |EmbeddedEntries(entries[..k])| == i && EmbeddedEntries(entries)[i] == entries[k];
      assert |EmbeddedEntries(entries[..k])| <= k;
      if k <= i {
        assert j < k;
        EmbeddedCountAfterAlias(entries, j, k);
        assert false;
      }
    }
  }

  /** As intended, every embedded key gets the vector of its own text. */
  lemma {:induction false} JsonTableAligned(entries: Table<Entry>, embeddings: seq<Vector>)
    requires |embeddings| == |JsonTexts(entries)|
    ensures var t := JsonTable(entries, embeddings);
      var texts := JsonTexts(entries);
      |t| == |texts| && forall i :: 0 <= i < |t| ==>
        Get(entries, t[i].0).Some? && t[i].1 == Some(embeddings[i]) &&
        (UniqueKeys(entries) ==> Get(entries, t[i].0).value.embed == texts[i])
  {
    var e := EmbeddedEntries(entries);
    EmbeddedSubsequence(entries);
    forall i | 0 <= i < |e|
      ensures e[i] in entries && Get(entries, e[i].0).Some?
      ensures UniqueKeys(entries) ==> Get(entries, e[i].0) == Some(e[i].1)
    {
      SubsequenceMembers(e, entries);
      assert e[i] in e;
      GetFound(entries, e[i].0);
      assert e[i].0 in KeySet(entries);
      if UniqueKeys(entries) {
        var k :| 0 <= k < |entries| && entries[k] == e[i];
        GetUnique(entries, k);
      }
    }
  }

  lemma {:induction false} EmbeddedSubsequence(entries: Table<Entry>)
    ensures IsSubsequence(EmbeddedEntries(entries), entries)
  {
    if entries != [] {
      EmbeddedSubsequence(entries[1..]);
      if !IsAlias(entries[0].1) {
        assert EmbeddedEntries(entries)[1..] == EmbeddedEntries(entries[1..]);
      } else {
        assert EmbeddedEntries(entries) == EmbeddedEntries(entries[1..]);
        SubsequenceWeaken(EmbeddedEntries(entries), entries);
      }
    }
  }

  lemma {:induction false} EmbeddedAppend(a: Table<Entry>, b: Table<Entry>)
    ensures EmbeddedEntries(a + b) == EmbeddedEntries(a) + EmbeddedEntries(b)
  {
    if a == [] {
      assert a + b == b;
    } else {
      assert (a + b)[0] == a[0] && (a + b)[1..] == a[1..] + b;
      EmbeddedAppend(a[1..], b);
    }
  }

  lemma {:induction false} EmbeddedNone(entries: Table<Entry>)
    requires forall i :: 0 <= i < |entries| ==> IsAlias(entries[i].1)
    ensures EmbeddedEntries(entries) == []
  {
    if entries != [] {
      assert forall i :: 0 <= i < |entries| - 1 ==> entries[1..][i] == entries[i + 1];
      EmbeddedNone(entries[1..]);
    }
  }

  lemma {:induction false} EmbeddedAll(entries: Table<Entry>)
    requires forall i :: 0 <= i < |entries| ==> !IsAlias(entries[i].1)
    ensures EmbeddedEntries(entries) == entries
  {
    if entries != [] {
      assert forall i :: 0 <= i < |entries| - 1 ==> entries[1..][i] == entries[i + 1];
      EmbeddedAll(entries[1..]);
    }
  }

  lemma {:induction false} ShippedFirstThree()
    ensures EmbeddedEntries(PropertyValues[..3]) == PropertyValues[..3]
  {
    EmbeddedAll(PropertyValues[..3]);
  }

  lemma {:induction false} ShippedServiceAliases()
    ensures EmbeddedEntries(PropertyValues[3..11]) == []
  {
    EmbeddedNone(PropertyValues[3..11]);
  }

  lemma {:induction false} ShippedTierCount()
    ensures EmbeddedEntries(PropertyValues[11..12]) == [PropertyValues[11]]
  {
    EmbeddedAll(PropertyValues[11..12]);
  }

  lemma {:induction false} ShippedDrugAliases()
    ensures EmbeddedEntries(PropertyValues[12..]) == []
  {
    EmbeddedNone(PropertyValues[12..]);
  }

  /** The shipped `propertyValues` embeds four texts: those of the cost, plan type,
      provider name and tier-count entries. */
  lemma {:induction false} ShippedValueTexts()
    ensures EmbeddedEntries(PropertyValues) ==
      [PropertyValues[0], PropertyValues[1], PropertyValues[2], PropertyValues[11]]
    ensures |JsonTexts(PropertyValues)| == 4
    ensures PropertyValues[11].0 == TierCountKey && PropertyValues[3].0 == UrgentCareKey
  {
    var t := PropertyValues;
    var a, b, c, d := t[..3], t[3..11], t[11..12], t[12..];
    assert t == a + b + c + d;
    EmbeddedAppend(a + b + c, d);
    EmbeddedAppend(a + b, c);
    EmbeddedAppend(a, b);
    ShippedFirstThree();
    ShippedServiceAliases();
    ShippedTierCount();
    ShippedDrugAliases();
  }

  lemma {:induction false} TierCountEntry()
    ensures Get(PropertyValues, TierCountKey) == Some(Embeds(TierCountText))
  {
    var t := PropertyValues;
    forall j | 0 <= j < 11 ensures t[j].0 != TierCountKey {
      assert t[j].0 != TierCountKey;
    }
    GetSkip(t, 11, TierCountKey);
    assert t[11..][0] == (TierCountKey, Embeds(TierCountText));
  }

  /** As written, the tier-count key gets no vector at all (its text's vector goes
      to the urgent-care alias, which never reads it), so its value vector never
      resolves and getField returns null for it. */
  lemma {:induction false} TierCountLosesVector(embeddings: seq<Vector>)
    requires |embeddings| == |JsonTexts(PropertyValues)|
    ensures |embeddings| == 4
    ensures Get(Written(JsonTableAsWritten(PropertyValues, embeddings)), UrgentCareKey) == Some(embeddings[3])
    ensures Resolve(PropertyValues, Written(JsonTableAsWritten(PropertyValues, embeddings)), TierCountKey, {}) == None
  {
    ShippedValueTexts();
    ValuesUniqueKeys();
    var t := JsonTableAsWritten(PropertyValues, embeddings);
    assert UniqueKeys(t);
    GetUnique(t, 3);
    GetUnique(t, 11);
    WrittenGet(t, UrgentCareKey);
    WrittenGet(t, TierCountKey);
    TierCountEntry();
    ResolveDirect(PropertyValues, Written(t), TierCountKey, {});
  }

  /** As intended, the tier-count key gets the vector of its own text, and every
      alias of `propertyValues` resolves to the cost vector. */
  lemma {:induction false} TierCountKeepsVector(embeddings: seq<Vector>)
    requires |embeddings| == |JsonTexts(PropertyValues)|
    ensures |embeddings| == 4
    ensures var w := Written(JsonTable(PropertyValues, embeddings));
      && Resolve(PropertyValues, w, TierCountKey, {}) == Some(embeddings[3])
      && Resolve(PropertyValues, w, CostOrCoverage, {}) == Some(embeddings[0])
      && Resolve(PropertyValues, w, UrgentCareKey, {}) == Some(embeddings[0])
      && forall key :: Get(PropertyValues, key).Some? && Get(PropertyValues, key).value.defer.Some? ==>
           Resolve(PropertyValues, w, key, {}) == Some(embeddings[0])
  {
    ShippedValueTexts();
    ValuesUniqueKeys();
    var t := JsonTable(PropertyValues, embeddings);
    assert t[0].0 == PropertyValues[0].0 && t[3].0 == PropertyValues[11].0;
    assert UniqueKeys(t) by {
      assert PropertyValues[0].0 != PropertyValues[11].0 && PropertyValues[1].0 != PropertyValues[11].0;
      assert PropertyValues[2].0 != PropertyValues[11].0;
    }
    GetUnique(t, 0);
    GetUnique(t, 3);
    WrittenGet(t, CostOrCoverage);
    WrittenGet(t, TierCountKey);
    TierCountEntry();
    ValueDefersTargetCost();
    var w := Written(t);
    ResolveDirect(PropertyValues, w, TierCountKey, {});
    ResolveDirect(PropertyValues, w, CostOrCoverage, {});
    UrgentCareBorrowsCost(w);
    forall key | Get(PropertyValues, key).Some? && Get(PropertyValues, key).value.defer.Some?
      ensures Resolve(PropertyValues, w, key, {}) == Some(embeddings[0])
    {
      ShippedAliasesBorrowCost(w, key);
    }
  }

  // ---------------------------------------------------------------------------
  // main

  /** The name of each table `module.exports` of embed-config.js, in order. */
  function EmbeddableTable(embeddableType: string): Option<Table<Entry>>
  {
    if embeddableType == "propertyChains" then Some(PropertyChains)
    else if embeddableType == "propertyValues" then Some(PropertyValues)
    else if embeddableType == "utilities" then Some(Utilities)
    else None
  }

  /** What main does: embed a CSV file, embed a schema table, or only print (a
      usage line, or the valid types for an unknown one). */
  datatype Action =
    | EmbedCsv(csvFilename: string)
    | EmbedJson(embeddableType: string)
    | InvalidType(embeddableType: string)
    | Usage

  /** main's choice given the two flag values: a CSV file name first. */
  function Choose(csvFilename: string, embeddableType: string): (a: Action)
    ensures a.EmbedCsv? <==> csvFilename != ""
    ensures a.EmbedCsv? ==> a.csvFilename == csvFilename
    ensures (a.EmbedJson? || a.InvalidType?) ==> a.embeddableType == embeddableType
    ensures csvFilename == "" && embeddableType != "" ==>
      (a.EmbedJson? <==> EmbeddableTable(embeddableType).Some?) && (a.InvalidType? <==> EmbeddableTable(embeddableType).None?)
    ensures a == Usage <==> csvFilename == "" && embeddableType == ""
  {
    if csvFilename != "" then EmbedCsv(csvFilename)
    else if embeddableType != "" then
      if EmbeddableTable(embeddableType).Some? then EmbedJson(embeddableType) else InvalidType(embeddableType)
    else Usage
  }

  /** main: `--csv` is looked at first; `--json` names a table of embed-config.js. */
  function Dispatch(args: seq<string>): Action
  {
    Choose(GetFlagKey(args, "--csv"), GetFlagKey(args, "--json"))
  }

  /** embedJSON as written, once the type is known and the texts are embedded: the
      table that is written. */
  function EmbedJsonTableAsWritten(table: Table<Entry>, embeddings: seq<Vector>): Table<Vector>
  {
    Written(JsonTableAsWritten(table, embeddings))
  }

  /** embedJSON with the corrected pairing: the table that is written. */
  function EmbedJsonTable(table: Table<Entry>, embeddings: seq<Vector>): Table<Vector>
  {
    Written(JsonTable(table, embeddings))
  }

  /** Where an argument `--<name>:<value>` is the first one starting with `flag`,
      the flag's value is `<value>`. */
  lemma {:induction false} FlagValue(args: seq<string>, flag: string, i: nat, value: string)
    requires i < |args| && args[i] == flag + ":" + value && ':' !in flag
    requires forall j :: 0 <= j < i ==> !StartsWith(args[j], flag)
    ensures GetFlagKey(args, flag) == value
  {
    assert args[i][..|flag|] == flag;
    assert forall j :: 0 <= j < |flag| ==> args[i][j] == flag[j];
    assert args[i][|flag| + 1..] == value;
    FlagAt(args, flag, i, |flag|);
  }

  /** A non-empty CSV file name wins over a JSON type, whatever their order on the
      command line, and is the file that is embedded. */
  lemma {:induction false} CsvBeforeJson(args: seq<string>, i: nat, name: string)
    requires i < |args| && args[i] == "--csv:" + name && name != ""
    requires forall j :: 0 <= j < i ==> !StartsWith(args[j], "--csv")
    ensures Dispatch(args) == EmbedCsv(name)
  {
    FlagValue(args, "--csv", i, name);
  }

  /** With `--json:propertyValues` the only argument, the propertyValues table is
      chosen. */
  lemma {:induction false} JsonSelectsTable()
    ensures Dispatch(["--json:propertyValues"]) == EmbedJson("propertyValues")
    ensures EmbeddableTable("propertyValues") == Some(PropertyValues)
  {
    var args := ["--json:propertyValues"];
    NotStartsWith(args[0], "--csv", 2);
    GetFlagKeySpec(args, "--csv");
    FlagAt(args, "--json", 0, 6);
  }

  /** Without `--csv`, a `--json` type that names no table of embed-config.js only
      prints the valid types. */
  lemma {:induction false} UnknownTypeOnlyPrints(args: seq<string>, i: nat, embeddableType: string)
    requires forall j :: 0 <= j < |args| ==> !StartsWith(args[j], "--csv")
    requires i < |args| && args[i] == "--json:" + embeddableType && embeddableType != ""
    requires forall j :: 0 <= j < i ==> !StartsWith(args[j], "--json")
    requires EmbeddableTable(embeddableType).None?
    ensures Dispatch(args) == InvalidType(embeddableType)
  {
    GetFlagKeySpec(args, "--csv");
    FlagValue(args, "--json", i, embeddableType);
  }

  /** Neither flag: only the usage line. */
  lemma {:induction false} NoFlagOnlyPrints(args: seq<string>)
    requires forall i :: 0 <= i < |args| ==> !StartsWith(args[i], "--csv") && !StartsWith(args[i], "--json")
    ensures Dispatch(args) == Usage
  {
    GetFlagKeySpec(args, "--csv");
    GetFlagKeySpec(args, "--json");
  }
}
