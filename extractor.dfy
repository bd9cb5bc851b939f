/** getField, getProperties and the order of work in main, of parser.js: for each
    scanned header match, the value cell where the plan's column meets the
    header's row, scored against the property's value vector. */
module Extractor {
  import opened Wrappers
  import opened Tables
  import opened Records
  import opened Sorting
  import opened Vectors
  import opened Schema
  import opened Resolver
  import opened Context
  import opened CellRefs
  import opened Acl
  import opened Scanner

  /** `header: {...cellMatch, value: cellB.value}` */
  datatype Header = Header(cellRef: string, similarity: real, value: string)

  /** The object getField returns. */
  datatype Field = Field(averageSimilarity: real, value: string, cellRef: string, fieldSimilarity: real,
                         header: Header)

  /** `data.find((item) => item.cell === ref)` */
  function Find(data: seq<Cell>, ref: string): (r: Option<Cell>)
    ensures r.None? <==> forall k :: 0 <= k < |data| ==> data[k].cellRef != ref
    ensures r.Some? ==> exists k :: (0 <= k < |data| && data[k] == r.value && r.value.cellRef == ref &&
                                     forall j :: 0 <= j < k ==> data[j].cellRef != ref)
  {
    if data == [] then None
    else if data[0].cellRef == ref then Some(data[0])
    else
      assert forall k :: 1 <= k < |data| ==> data[k] == data[1..][k - 1];
      Find(data[1..], ref)
  }

  /** `embedConfigs.propertyValues[propertyChain].filter`: the filter of the key's
      own entry (an alias's target is not consulted). */
  function FilterOf(key: string): Option<FilterKind>
  {
    match Get(PropertyValues, key)
    case None => None
    case Some(entry) => entry.filter
  }

  /** `filterFn ? filterFn(cell.value) : cell.value` */
  function Filter(filter: Option<FilterKind>, value: string): string
  {
    match filter
    case None => value
    case Some(kind) => ApplyFilter(kind, value)
  }

  /** The value a field of `key` reads from a cell holding `value`. */
  function FieldValue(key: string, value: string): string
  {
    Filter(FilterOf(key), value)
  }

  /** `(similarity * 3 + cellMatch.similarity) / 4` */
  function Average(fieldSimilarity: real, labelSimilarity: real): real
  {
    (fieldSimilarity * 3.0 + labelSimilarity) / 4.0
  }

  /** getField. The header cell is looked up by the match's reference, the value
      cell by the merged reference; the contextual embedding of the value cell is
      computed before the value vector is looked at, so its error comes first.
      Resolving the key's vector and filter has no effects, so they are passed in
      already resolved. */
  function GetField(sqrt: real -> real, valueEmbeddings: Table<Vector>, data: seq<Cell>, key: string,
                    cellA: Option<Cell>, cellMatch: Option<Match>): Result<Option<Field>>
    requires IsSqrt(sqrt)
  {
    FieldFrom(sqrt, data, cellA, cellMatch, Resolve(PropertyValues, valueEmbeddings, key, {}), FilterOf(key))
  }

  /** getField once the key's value vector and filter are known. */
  function FieldFrom(sqrt: real -> real, data: seq<Cell>, cellA: Option<Cell>, cellMatch: Option<Match>,
                     valueEmbedding: Option<Vector>, filter: Option<FilterKind>): Result<Option<Field>>
    requires IsSqrt(sqrt)
  {
    if cellMatch.None? || cellA.None? then Ok(None)
    else
      match Find(data, cellMatch.value.cellRef)
      case None => Ok(None)
      case Some(cellB) =>
        var cellRef := GetCellRef(MergedCoord(cellA.value.indices, cellB.indices));
        match Find(data, cellRef)
        case None => Ok(None)
        case Some(cell) =>
          var contextual :- ContextualEmbedding(sqrt, cell, data, DefaultThreshold, DefaultMergedWeight);
          if valueEmbedding.None? then Ok(None)
          else
            var similarity :- CosineSimilarity(sqrt, contextual, valueEmbedding.value);
            Ok(Some(Field(Average(similarity, cellMatch.value.similarity), Filter(filter, cell.value), cellRef,
                          similarity, Header(cellMatch.value.cellRef, cellMatch.value.similarity, cellB.value))))
  }

  /** `x` lies between `a` and `b`, in either order. */
  predicate Between(x: real, a: real, b: real)
  {
    (a <= x <= b) || (b <= x <= a)
  }

  /** The blend lies between the field's and the label's similarity. */
  lemma {:induction false} AverageBetween(f: real, l: real)
    ensures Between(Average(f, l), f, l)
    ensures f == l ==> Average(f, l) == f
  {
  }

  /** What a field is made of, once the vector and filter are known. */
  lemma {:induction false} FieldFromShape(sqrt: real -> real, data: seq<Cell>, cellA: Cell, cellMatch: Match,
                       valueEmbedding: Option<Vector>, filter: Option<FilterKind>)
    requires IsSqrt(sqrt)
    ensures var r := FieldFrom(sqrt, data, Some(cellA), Some(cellMatch), valueEmbedding, filter);
      r.Ok? && r.value.Some? ==>
        var f := r.value.value;
        && f.header.cellRef == cellMatch.cellRef && f.header.similarity == cellMatch.similarity
        && (exists b :: (b in data && b.cellRef == cellMatch.cellRef && f.header.value == b.value &&
                         f.cellRef == GetCellRef(MergedCoord(cellA.indices, b.indices))))
        && (exists c :: c in data && c.cellRef == f.cellRef && f.value == Filter(filter, c.value))
        && valueEmbedding.Some?
        && Between(f.averageSimilarity, f.fieldSimilarity, cellMatch.similarity)
  {
    var r := FieldFrom(sqrt, data, Some(cellA), Some(cellMatch), valueEmbedding, filter);
    if r.Ok? && r.value.Some? {
      AverageBetween(r.value.value.fieldSimilarity, cellMatch.similarity);
    }
  }

  /** What a field is made of: its header is the match with the header cell's value,
      its reference is the merge of the anchor with the header cell, its value is
      the merged cell's value through the key's own filter, its key has a value
      vector, and its score blends the two similarities. */
  lemma {:induction false} GetFieldShape(sqrt: real -> real, valueEmbeddings: Table<Vector>, data: seq<Cell>, key: string,
                      cellA: Cell, cellMatch: Match)
    requires IsSqrt(sqrt)
    ensures var r := GetField(sqrt, valueEmbeddings, data, key, Some(cellA), Some(cellMatch));
      r.Ok? && r.value.Some? ==>
        var f := r.value.value;
        && f.header.cellRef == cellMatch.cellRef && f.header.similarity == cellMatch.similarity
        && (exists b :: (b in data && b.cellRef == cellMatch.cellRef && f.header.value == b.value &&
                         f.cellRef == GetCellRef(MergedCoord(cellA.indices, b.indices))))
        && (exists c :: c in data && c.cellRef == f.cellRef && f.value == FieldValue(key, c.value))
        && Resolve(PropertyValues, valueEmbeddings, key, {}).Some?
        && Between(f.averageSimilarity, f.fieldSimilarity, cellMatch.similarity)
  {
    FieldFromShape(sqrt, data, cellA, cellMatch, Resolve(PropertyValues, valueEmbeddings, key, {}), FilterOf(key));
  }

  /** No cell carries the match's reference: no field. */
  lemma {:induction false} NoHeaderNoField(sqrt: real -> real, valueEmbeddings: Table<Vector>, data: seq<Cell>, key: string,
                        cellA: Cell, cellMatch: Match)
    requires IsSqrt(sqrt)
    ensures (forall k :: 0 <= k < |data| ==> data[k].cellRef != cellMatch.cellRef) ==>
      GetField(sqrt, valueEmbeddings, data, key, Some(cellA), Some(cellMatch)) == Ok(None)
  {
  }

  /** No cell sits at the merged reference: no field. */
  lemma {:induction false} NoMergedCellNoField(sqrt: real -> real, data: seq<Cell>, cellA: Cell, cellMatch: Match,
                            valueEmbedding: Option<Vector>, filter: Option<FilterKind>)
    requires IsSqrt(sqrt)
    ensures (forall k :: 0 <= k < |data| ==> data[k].cellRef == cellMatch.cellRef ==>
               forall j :: 0 <= j < |data| ==>
                 data[j].cellRef != GetCellRef(MergedCoord(cellA.indices, data[k].indices))) ==>
      FieldFrom(sqrt, data, Some(cellA), Some(cellMatch), valueEmbedding, filter) == Ok(None)
  {
    var b := Find(data, cellMatch.cellRef);
    if b.Some? {
      var k :| 0 <= k < |data| && data[k] == b.value && b.value.cellRef == cellMatch.cellRef &&
               forall j :: 0 <= j < k ==> data[j].cellRef != cellMatch.cellRef;
      assert data[k].cellRef == cellMatch.cellRef;
    }
  }

  /** The null cases of getField: no header cell, no cell at the merged reference,
      or (once the contextual embedding has been computed without error) a key
      with no value vector, such as one that is not in `propertyValues`. */
  lemma {:induction false} GetFieldNull(sqrt: real -> real, valueEmbeddings: Table<Vector>, data: seq<Cell>, key: string,
                     cellA: Cell, cellMatch: Match)
    requires IsSqrt(sqrt)
    ensures (forall k :: 0 <= k < |data| ==> data[k].cellRef != cellMatch.cellRef) ==>
      GetField(sqrt, valueEmbeddings, data, key, Some(cellA), Some(cellMatch)) == Ok(None)
    ensures (forall k :: 0 <= k < |data| ==> data[k].cellRef == cellMatch.cellRef ==>
               forall j :: 0 <= j < |data| ==>
                 data[j].cellRef != GetCellRef(MergedCoord(cellA.indices, data[k].indices))) ==>
      GetField(sqrt, valueEmbeddings, data, key, Some(cellA), Some(cellMatch)) == Ok(None)
    ensures Resolve(PropertyValues, valueEmbeddings, key, {}).None? ==>
      GetField(sqrt, valueEmbeddings, data, key, Some(cellA), Some(cellMatch)).Ok? ==>
        GetField(sqrt, valueEmbeddings, data, key, Some(cellA), Some(cellMatch)) == Ok(None)
    ensures key !in KeySet(PropertyValues) ==> Resolve(PropertyValues, valueEmbeddings, key, {}).None?
  {
    NoHeaderNoField(sqrt, valueEmbeddings, data, key, cellA, cellMatch);
    NoMergedCellNoField(sqrt, data, cellA, cellMatch, Resolve(PropertyValues, valueEmbeddings, key, {}), FilterOf(key));
    FieldFromShape(sqrt, data, cellA, cellMatch, Resolve(PropertyValues, valueEmbeddings, key, {}), FilterOf(key));
    if key !in KeySet(PropertyValues) {
      ResolveUnknown(PropertyValues, valueEmbeddings, key);
    }
  }

  /** Without an anchor or a match there is no field. */
  lemma {:induction false} GetFieldNeedsBoth(sqrt: real -> real, valueEmbeddings: Table<Vector>, data: seq<Cell>, key: string,
                          cellA: Option<Cell>, cellMatch: Option<Match>)
    requires IsSqrt(sqrt)
    ensures cellA.None? || cellMatch.None? ==> GetField(sqrt, valueEmbeddings, data, key, cellA, cellMatch) == Ok(None)
  {
  }

  lemma {:induction false} PlanTypeEntry()
    ensures FilterOf(PlanTypeKey) == Some(PlanTypeKind)
  {
    TablesUniqueKeys();
    GetUnique(PropertyValues, 1);
  }

  lemma {:induction false} ProviderNameEntry()
    ensures FilterOf(ProviderNameKey) == Some(ProviderNameKind)
  {
    TablesUniqueKeys();
    GetUnique(PropertyValues, 2);
  }

  /** A plan-type field always holds one of the plan types. */
  lemma {:induction false} PlanTypeFieldValue(sqrt: real -> real, valueEmbeddings: Table<Vector>, data: seq<Cell>,
                           cellA: Cell, cellMatch: Match)
    requires IsSqrt(sqrt)
    ensures var r := GetField(sqrt, valueEmbeddings, data, PlanTypeKey, Some(cellA), Some(cellMatch));
      r.Ok? && r.value.Some? ==> r.value.value.value in PlanTypes
  {
    PlanTypeEntry();
    PlanTypeFrom(sqrt, data, cellA, cellMatch, Resolve(PropertyValues, valueEmbeddings, PlanTypeKey, {}));
  }

  lemma {:induction false} PlanTypeFrom(sqrt: real -> real, data: seq<Cell>, cellA: Cell, cellMatch: Match, valueEmbedding: Option<Vector>)
    requires IsSqrt(sqrt)
    ensures var r := FieldFrom(sqrt, data, Some(cellA), Some(cellMatch), valueEmbedding, Some(PlanTypeKind));
      r.Ok? && r.value.Some? ==> r.value.value.value in PlanTypes
  {
    FieldFromShape(sqrt, data, cellA, cellMatch, valueEmbedding, Some(PlanTypeKind));
    var r := FieldFrom(sqrt, data, Some(cellA), Some(cellMatch), valueEmbedding, Some(PlanTypeKind));
    if r.Ok? && r.value.Some? {
      var f := r.value.value;
      var c :| c in data && c.cellRef == f.cellRef && f.value == Filter(Some(PlanTypeKind), c.value);
      assert f.value == PlanTypeFilter(c.value);
    }
  }

  /** A provider-name field holds the cell's text, or "-". */
  lemma {:induction false} ProviderNameFieldValue(sqrt: real -> real, valueEmbeddings: Table<Vector>, data: seq<Cell>,
                               cellA: Cell, cellMatch: Match)
    requires IsSqrt(sqrt)
    ensures var r := GetField(sqrt, valueEmbeddings, data, ProviderNameKey, Some(cellA), Some(cellMatch));
      r.Ok? && r.value.Some? ==>
        exists c :: c in data && c.cellRef == r.value.value.cellRef && (r.value.value.value in {c.value, "-"})
  {
    ProviderNameEntry();
    ProviderNameFrom(sqrt, data, cellA, cellMatch, Resolve(PropertyValues, valueEmbeddings, ProviderNameKey, {}));
  }

  lemma {:induction false} ProviderNameFrom(sqrt: real -> real, data: seq<Cell>, cellA: Cell, cellMatch: Match, valueEmbedding: Option<Vector>)
    requires IsSqrt(sqrt)
    ensures var r := FieldFrom(sqrt, data, Some(cellA), Some(cellMatch), valueEmbedding, Some(ProviderNameKind));
      r.Ok? && r.value.Some? ==>
        exists c :: c in data && c.cellRef == r.value.value.cellRef && (r.value.value.value in {c.value, "-"})
  {
    FieldFromShape(sqrt, data, cellA, cellMatch, valueEmbedding, Some(ProviderNameKind));
    var r := FieldFrom(sqrt, data, Some(cellA), Some(cellMatch), valueEmbedding, Some(ProviderNameKind));
    if r.Ok? && r.value.Some? {
      var f := r.value.value;
      var c :| c in data && c.cellRef == f.cellRef && f.value == Filter(Some(ProviderNameKind), c.value);
      assert f.value == ProviderNameFilter(c.value);
    }
  }

  lemma {:induction false} UrgentCareEntry(valueEmbeddings: Table<Vector>)
    ensures FilterOf(UrgentCareKey) == None && FilterOf(CostOrCoverage) == None
    ensures Resolve(PropertyValues, valueEmbeddings, UrgentCareKey, {}) ==
            Resolve(PropertyValues, valueEmbeddings, CostOrCoverage, {})
  {
    UrgentCareDefers();
    UrgentCareBorrowsCost(valueEmbeddings);
    ValueDefersTargetCost();
    ResolveDirect(PropertyValues, valueEmbeddings, CostOrCoverage, {});
  }

  /** Urgent care borrows the `_CostOrCoverage` vector but not a filter: its field
      is the one the cost key itself would give, the cell's raw text scored
      against the cost vector. */
  lemma {:induction false} UrgentCareField(sqrt: real -> real, valueEmbeddings: Table<Vector>, data: seq<Cell>,
                        cellA: Cell, cellMatch: Match)
    requires IsSqrt(sqrt)
    ensures GetField(sqrt, valueEmbeddings, data, UrgentCareKey, Some(cellA), Some(cellMatch)) ==
            GetField(sqrt, valueEmbeddings, data, CostOrCoverage, Some(cellA), Some(cellMatch))
    ensures var r := GetField(sqrt, valueEmbeddings, data, UrgentCareKey, Some(cellA), Some(cellMatch));
      r.Ok? && r.value.Some? ==> exists c :: c in data && c.cellRef == r.value.value.cellRef && r.value.value.value == c.value
  {
    UrgentCareEntry(valueEmbeddings);
    GetFieldShape(sqrt, valueEmbeddings, data, UrgentCareKey, cellA, cellMatch);
  }

  // ---------------------------------------------------------------------------
  // getProperties

  /** The `fields` list of one key: the non-null results, in order; the first
      result that threw ends the run. */
  function Collect(rs: seq<Result<Option<Field>>>): Result<seq<Field>>
  {
    if rs == [] then Ok([])
    else
      var f :- rs[0];
      var rest :- Collect(rs[1..]);
      Ok((if f.Some? then [f.value] else []) + rest)
  }

  lemma {:induction false} CollectStep(rs: seq<Result<Option<Field>>>, done: seq<Field>)
    requires rs != [] && rs[0].Ok?
    ensures var m := if rs[0].value.Some? then [rs[0].value.value] else [];
      Prepend(done, Collect(rs)) == Prepend(done + m, Collect(rs[1..]))
  {
    var m := if rs[0].value.Some? then [rs[0].value.value] else [];
    var rest := Collect(rs[1..]);
    if rest.Ok? {
      assert done + (m + rest.value) == (done + m) + rest.value;
    }
  }

  lemma {:induction false} CollectError(rs: seq<Result<Option<Field>>>, k: nat)
    requires k < |rs| && rs[k].Err? && forall j :: 0 <= j < k ==> rs[j].Ok?
    ensures Collect(rs) == Err(rs[k].error)
  {
    if k > 0 {
      assert forall j :: 0 <= j < k - 1 ==> rs[1..][j] == rs[j + 1];
      CollectError(rs[1..], k - 1);
    }
  }

  /** The run succeeds exactly when no result threw; it then holds every non-null
      result and nothing else, no more of them than there are results. */
  lemma {:induction false} CollectMembers(rs: seq<Result<Option<Field>>>)
    ensures Collect(rs).Ok? <==> forall k :: 0 <= k < |rs| ==> rs[k].Ok?
    ensures Collect(rs).Ok? ==> |Collect(rs).value| <= |rs|
    ensures Collect(rs).Ok? ==> forall x :: x in Collect(rs).value <==> exists k :: 0 <= k < |rs| && rs[k] == Ok(Some(x))
  {
    if rs != [] {
      CollectMembers(rs[1..]);
      assert forall k :: 1 <= k < |rs| ==> rs[k] == rs[1..][k - 1];
      if Collect(rs).Ok? {
        forall x | exists k :: 0 <= k < |rs| && rs[k] == Ok(Some(x)) ensures x in Collect(rs).value {
          var k :| 0 <= k < |rs| && rs[k] == Ok(Some(x));
          if k > 0 {
            assert rs[1..][k - 1] == Ok(Some(x));
          }
        }
      }
    }
  }

  /** The getField result of each match of a key. */
  function FieldResults(sqrt: real -> real, valueEmbeddings: Table<Vector>, data: seq<Cell>, key: string,
                        planCell: Cell, matches: seq<Match>): (rs: seq<Result<Option<Field>>>)
    requires IsSqrt(sqrt)
    ensures |rs| == |matches|
    ensures forall k :: 0 <= k < |matches| ==>
      rs[k] == GetField(sqrt, valueEmbeddings, data, key, Some(planCell), Some(matches[k]))
  {
    seq(|matches|, k requires 0 <= k < |matches| =>
      GetField(sqrt, valueEmbeddings, data, key, Some(planCell), Some(matches[k])))
  }

  function AverageOf(f: Field): real
  {
    f.averageSimilarity
  }

  /** The fields of a run of getField results, best blend first. */
  function SortedFields(rs: seq<Result<Option<Field>>>): Result<seq<Field>>
  {
    var fields :- Collect(rs);
    Ok(SortDesc(fields, AverageOf))
  }

  /** `properties[propertyChain]`: the fields of the key's matches, best blend first. */
  function FieldsFor(sqrt: real -> real, valueEmbeddings: Table<Vector>, data: seq<Cell>, key: string,
                     planCell: Cell, matches: seq<Match>): Result<seq<Field>>
    requires IsSqrt(sqrt)
  {
    SortedFields(FieldResults(sqrt, valueEmbeddings, data, key, planCell, matches))
  }

  /** The fields of each scanned key. */
  function AllFields(sqrt: real -> real, valueEmbeddings: Table<Vector>, data: seq<Cell>, planCell: Cell,
                     propertyCells: Table<seq<Match>>): (fs: seq<Result<seq<Field>>>)
    requires IsSqrt(sqrt)
    ensures |fs| == |propertyCells|
    ensures forall i :: 0 <= i < |propertyCells| ==>
      fs[i] == FieldsFor(sqrt, valueEmbeddings, data, propertyCells[i].0, planCell, propertyCells[i].1)
  {
    seq(|propertyCells|, i requires 0 <= i < |propertyCells| =>
      FieldsFor(sqrt, valueEmbeddings, data, propertyCells[i].0, planCell, propertyCells[i].1))
  }

  /** The keys of `propertyCells` paired with their fields `fs`; the first key
      whose fields threw ends the run. */
  function Assemble(propertyCells: Table<seq<Match>>, fs: seq<Result<seq<Field>>>): Result<Table<seq<Field>>>
    requires |fs| == |propertyCells|
  {
    if propertyCells == [] then Ok([])
    else
      var fields :- fs[0];
      var rest :- Assemble(propertyCells[1..], fs[1..]);
      Ok([(propertyCells[0].0, fields)] + rest)
  }

  /** The `properties` object of getProperties, one entry per scanned key, in order. */
  function Properties(sqrt: real -> real, valueEmbeddings: Table<Vector>, data: seq<Cell>, planCell: Cell,
                      propertyCells: Table<seq<Match>>): Result<Table<seq<Field>>>
    requires IsSqrt(sqrt)
  {
    Assemble(propertyCells, AllFields(sqrt, valueEmbeddings, data, planCell, propertyCells))
  }

  /** One step of the run: the first key's entry joins the table already built. */
  lemma {:induction false} AssembleStep(propertyCells: Table<seq<Match>>, fs: seq<Result<seq<Field>>>, done: Table<seq<Field>>)
    requires |fs| == |propertyCells| && propertyCells != [] && fs[0].Ok?
    ensures Prepend(done, Assemble(propertyCells, fs)) ==
            Prepend(done + [(propertyCells[0].0, fs[0].value)], Assemble(propertyCells[1..], fs[1..]))
  {
    var rest := Assemble(propertyCells[1..], fs[1..]);
    if rest.Ok? {
      assert done + ([(propertyCells[0].0, fs[0].value)] + rest.value) ==
             (done + [(propertyCells[0].0, fs[0].value)]) + rest.value;
    }
  }

  lemma {:induction false} AssembleError(propertyCells: Table<seq<Match>>, fs: seq<Result<seq<Field>>>, k: nat)
    requires |fs| == |propertyCells| && k < |fs| && fs[k].Err? && forall j :: 0 <= j < k ==> fs[j].Ok?
    ensures Assemble(propertyCells, fs) == Err(fs[k].error)
  {
    if k > 0 {
      assert forall j :: 0 <= j < k - 1 ==> fs[1..][j] == fs[j + 1];
      AssembleError(propertyCells[1..], fs[1..], k - 1);
    }
  }

  /** The table has exactly the keys of `propertyCells`, in order, each with its fields. */
  lemma {:induction false} AssembleKeys(propertyCells: Table<seq<Match>>, fs: seq<Result<seq<Field>>>)
    requires |fs| == |propertyCells|
    ensures var r := Assemble(propertyCells, fs);
      && (r.Ok? <==> forall i :: 0 <= i < |fs| ==> fs[i].Ok?)
      && (r.Ok? ==> KeysOf(r.value) == KeysOf(propertyCells) && forall i :: 0 <= i < |fs| ==> Ok(r.value[i].1) == fs[i])
  {
    if propertyCells != [] {
      AssembleKeys(propertyCells[1..], fs[1..]);
      assert forall i :: 1 <= i < |fs| ==> fs[i] == fs[1..][i - 1] && propertyCells[i] == propertyCells[1..][i - 1];
      var r := Assemble(propertyCells, fs);
      if r.Ok? {
        var rest := Assemble(propertyCells[1..], fs[1..]).value;
        assert r.value == [(propertyCells[0].0, fs[0].value)] + rest;
        assert forall i :: 1 <= i < |fs| ==> r.value[i] == rest[i - 1];
      }
    }
  }

  /** Sorted by blend, one field per non-null result and no more than there are
      results; a result's field is among them exactly when it is non-null. */
  lemma {:induction false} SortedFieldsProperties(rs: seq<Result<Option<Field>>>)
    ensures var r := SortedFields(rs);
      && (r.Ok? <==> forall k :: 0 <= k < |rs| ==> rs[k].Ok?)
      && (r.Ok? ==>
            && SortedDesc(r.value, AverageOf)
            && |r.value| <= |rs|
            && forall f :: f in r.value <==> exists k :: 0 <= k < |rs| && rs[k] == Ok(Some(f)))
  {
    CollectMembers(rs);
    var c := Collect(rs);
    if c.Ok? {
      var sorted := SortDesc(c.value, AverageOf);
      assert |sorted| == |multiset(sorted)| == |multiset(c.value)| == |c.value|;
      forall f ensures f in sorted <==> f in c.value {
        assert f in sorted <==> f in multiset(sorted);
      }
    }
  }

  /** A key's fields: sorted by blend, one per non-null getField result and no
      more than there are matches; a match's field is among them exactly when its
      getField returned one. */
  lemma {:induction false} FieldsForProperties(sqrt: real -> real, valueEmbeddings: Table<Vector>, data: seq<Cell>, key: string,
                            planCell: Cell, matches: seq<Match>)
    requires IsSqrt(sqrt)
    ensures var r := FieldsFor(sqrt, valueEmbeddings, data, key, planCell, matches);
      && (r.Ok? <==> forall k :: 0 <= k < |matches| ==>
            GetField(sqrt, valueEmbeddings, data, key, Some(planCell), Some(matches[k])).Ok?)
      && (r.Ok? ==>
            && SortedDesc(r.value, AverageOf)
            && |r.value| <= |matches|
            && forall f :: f in r.value <==> exists k :: (0 <= k < |matches| &&
                 GetField(sqrt, valueEmbeddings, data, key, Some(planCell), Some(matches[k])) == Ok(Some(f))))
  {
    SortedFieldsProperties(FieldResults(sqrt, valueEmbeddings, data, key, planCell, matches));
  }

  /** The result has exactly the keys of the scanned lists, in order, each with the
      fields of its matches; it throws exactly when one key's fields throw. */
  lemma {:induction false} PropertiesKeys(sqrt: real -> real, valueEmbeddings: Table<Vector>, data: seq<Cell>,
                       planCell: Cell, propertyCells: Table<seq<Match>>)
    requires IsSqrt(sqrt)
    ensures var r := Properties(sqrt, valueEmbeddings, data, planCell, propertyCells);
      && (r.Ok? <==> forall i :: 0 <= i < |propertyCells| ==>
            FieldsFor(sqrt, valueEmbeddings, data, propertyCells[i].0, planCell, propertyCells[i].1).Ok?)
      && (r.Ok? ==> KeysOf(r.value) == KeysOf(propertyCells) && forall i :: 0 <= i < |propertyCells| ==>
            Ok(r.value[i].1) == FieldsFor(sqrt, valueEmbeddings, data, propertyCells[i].0, planCell, propertyCells[i].1))
  {
    AssembleKeys(propertyCells, AllFields(sqrt, valueEmbeddings, data, planCell, propertyCells));
  }

  /** getField as the inner loop of getProperties calls it, with the reference
      merge and the alias lookup run as the source runs them. */
  method FieldOf(sqrt: real -> real, valueEmbeddings: Table<Vector>, data: seq<Cell>, key: string,
                 planCell: Cell, cellMatch: Match) returns (field: Result<Option<Field>>)
    requires IsSqrt(sqrt)
    ensures field == GetField(sqrt, valueEmbeddings, data, key, Some(planCell), Some(cellMatch))
  {
    var cellB := Find(data, cellMatch.cellRef);
    if cellB.None? {
      return Ok(None);
    }
    var cellRef := GetCellRefMerge(planCell.indices, cellB.value.indices);
    var cell := Find(data, cellRef);
    if cell.None? {
      return Ok(None);
    }
    var contextual := ContextualEmbedding(sqrt, cell.value, data, DefaultThreshold, DefaultMergedWeight);
    if contextual.Err? {
      return Err(contextual.error);
    }
    var valueEmbedding, _ := GetEmbeddable(PropertyValues, valueEmbeddings, key, {});
    if valueEmbedding.None? {
      return Ok(None);
    }
    var similarity := CosineSimilarity(sqrt, contextual.value, valueEmbedding.value);
    if similarity.Err? {
      return Err(similarity.error);
    }
    field := Ok(Some(Field(Average(similarity.value, cellMatch.similarity), FieldValue(key, cell.value.value), cellRef,
                           similarity.value, Header(cellMatch.cellRef, cellMatch.similarity, cellB.value.value))));
  }

  /** The inner loop of getProperties for one key: push every field getField
      returns, then sort. */
  method CollectFields(sqrt: real -> real, valueEmbeddings: Table<Vector>, data: seq<Cell>, key: string,
                       planCell: Cell, matches: seq<Match>) returns (r: Result<seq<Field>>)
    requires IsSqrt(sqrt)
    ensures r == FieldsFor(sqrt, valueEmbeddings, data, key, planCell, matches)
  {
    var fields: seq<Field> := [];
    ghost var rs := FieldResults(sqrt, valueEmbeddings, data, key, planCell, matches);
    assert rs[0..] == rs;
    PrependNothing(Collect(rs));
    for i := 0 to |matches|
      invariant Collect(rs) == Prepend(fields, Collect(rs[i..]))
    {
      assert rs[i..][0] == rs[i] && rs[i..][1..] == rs[i + 1..];
      var field := FieldOf(sqrt, valueEmbeddings, data, key, planCell, matches[i]);
      if field.Err? {
        CollectError(rs[i..], 0);
        return Err(field.error);
      }
      CollectStep(rs[i..], fields);
      if field.value.Some? {
        fields := fields + [field.value.value];
      } else {
        assert fields + [] == fields;
      }
    }
    assert rs[|matches|..] == [] && fields + [] == fields;
    return Ok(SortDesc(fields, AverageOf));
  }

  /** getProperties: every scanned key, in order, with its fields. */
  method GetProperties(sqrt: real -> real, valueEmbeddings: Table<Vector>, planCell: Cell,
                       propertyCells: Table<seq<Match>>, data: seq<Cell>) returns (r: Result<Table<seq<Field>>>)
    requires IsSqrt(sqrt)
    ensures r == Properties(sqrt, valueEmbeddings, data, planCell, propertyCells)
  {
    var properties: Table<seq<Field>> := [];
    ghost var fs := AllFields(sqrt, valueEmbeddings, data, planCell, propertyCells);
    assert propertyCells[0..] == propertyCells && fs[0..] == fs;
    PrependNothing(Assemble(propertyCells, fs));
    for j := 0 to |propertyCells|
      invariant Assemble(propertyCells, fs) == Prepend(properties, Assemble(propertyCells[j..], fs[j..]))
    {
      var (key, matches) := propertyCells[j];
      assert propertyCells[j..][0] == (key, matches) && propertyCells[j..][1..] == propertyCells[j + 1..];
      assert fs[j..][0] == fs[j] && fs[j..][1..] == fs[j + 1..];
      var fields := CollectFields(sqrt, valueEmbeddings, data, key, planCell, matches);
      if fields.Err? {
        AssembleError(propertyCells[j..], fs[j..], 0);
        return Err(fields.error);
      }
      AssembleStep(propertyCells[j..], fs[j..], properties);
      properties := properties + [(key, fields.value)];
    }
    assert propertyCells[|propertyCells|..] == [] && fs[|propertyCells|..] == [] && properties + [] == properties;
    return Ok(properties);
  }

  // ---------------------------------------------------------------------------
  // main

  /** What main ends with: the scanned lists, and the properties when a plan cell
      was found. */
  datatype ParserResult =
    | NoPlanCell(propertyCells: Table<seq<Match>>)
    | Extracted(propertyCells: Table<seq<Match>>, properties: Table<seq<Field>>)

  /** main from the scan on, given the whitelist updateACL left: the scan runs
      before the anchor is checked, and the properties are read only when there is
      an anchor, the first whitelisted cell. */
  function AfterAcl(sqrt: real -> real, chainEmbeddings: Table<Vector>, valueEmbeddings: Table<Vector>,
                    data: seq<Cell>, whitelist: seq<Cell>): Result<ParserResult>
    requires IsSqrt(sqrt)
  {
    var propertyCells :- Scan(sqrt, PropertyChains, chainEmbeddings, data, KeysOf(chainEmbeddings));
    if whitelist == [] then Ok(NoPlanCell(propertyCells))
    else
      var properties :- Properties(sqrt, valueEmbeddings, data, whitelist[0], propertyCells);
      Ok(Extracted(propertyCells, properties))
  }

  /** main after the data has been read: updateACL on fresh lists (its error ends
      the run), then the rest. */
  function ParserRun(sqrt: real -> real, utilityEmbeddings: Table<Vector>, chainEmbeddings: Table<Vector>,
                     valueEmbeddings: Table<Vector>, data: seq<Cell>, planNames: seq<string>): Result<ParserResult>
    requires IsSqrt(sqrt)
  {
    var cells := PlanNameCells(data, planNames);
    var (whitelist, _, outcome) := Triage(cells, Verdicts(sqrt, utilityEmbeddings, data, cells), [], {});
    if outcome.Fail? then Err(outcome.error)
    else AfterAcl(sqrt, chainEmbeddings, valueEmbeddings, data, whitelist)
  }

  /** main, with the plan names and the loaded embedding tables as parameters. */
  method RunParser(sqrt: real -> real, utilityEmbeddings: Table<Vector>, chainEmbeddings: Table<Vector>,
                   valueEmbeddings: Table<Vector>, data: seq<Cell>, planNames: seq<string>)
    returns (r: Result<ParserResult>)
    requires IsSqrt(sqrt)
    ensures r == ParserRun(sqrt, utilityEmbeddings, chainEmbeddings, valueEmbeddings, data, planNames)
  {
    var config := new AccessList();
    var outcome := config.UpdateACL(sqrt, utilityEmbeddings, data, planNames);
    if outcome.Fail? {
      return Err(outcome.error);
    }
    var planNameCell := config.FirstWhitelisted();
    var propertyCells := ScanForPropertyCells(sqrt, PropertyChains, chainEmbeddings, data);
    if propertyCells.Err? {
      return Err(propertyCells.error);
    }
    if planNameCell.None? {
      return Ok(NoPlanCell(propertyCells.value));
    }
    var properties := GetProperties(sqrt, valueEmbeddings, planNameCell.value, propertyCells.value, data);
    if properties.Err? {
      return Err(properties.error);
    }
    return Ok(Extracted(propertyCells.value, properties.value));
  }

  /** The scan runs even without a plan cell: its error is main's error. */
  lemma {:induction false} ScanBeforeAnchorCheck(sqrt: real -> real, chainEmbeddings: Table<Vector>, valueEmbeddings: Table<Vector>,
                              data: seq<Cell>, whitelist: seq<Cell>)
    requires IsSqrt(sqrt)
    ensures var r := AfterAcl(sqrt, chainEmbeddings, valueEmbeddings, data, whitelist);
      var scan := Scan(sqrt, PropertyChains, chainEmbeddings, data, KeysOf(chainEmbeddings));
      && (scan.Err? ==> r == Err(scan.error))
      && (scan.Ok? && whitelist == [] ==> r == Ok(NoPlanCell(scan.value)))
      && (scan.Ok? && whitelist != [] ==> r.Ok? ==> r.value.Extracted? && r.value.propertyCells == scan.value)
  {
  }

  /** With no plan-name cell in the data, main stops after the scan. */
  lemma {:induction false} NoPlanNameCells(sqrt: real -> real, utilityEmbeddings: Table<Vector>, chainEmbeddings: Table<Vector>,
                        valueEmbeddings: Table<Vector>, data: seq<Cell>, planNames: seq<string>)
    requires IsSqrt(sqrt)
    requires forall k :: 0 <= k < |data| ==> data[k].value !in planNames
    ensures ParserRun(sqrt, utilityEmbeddings, chainEmbeddings, valueEmbeddings, data, planNames) ==
            AfterAcl(sqrt, chainEmbeddings, valueEmbeddings, data, [])
  {
    var cells := PlanNameCells(data, planNames);
    if cells != [] {
      PlanNameCellsMembers(data, planNames, cells[0]);
    }
  }

  /** The anchor is the first plan-name cell when updateACL finds that it is not a
      renewal; when it is one, main stops after the scan. */
  lemma {:induction false} AnchorIsFirstPlanCell(sqrt: real -> real, utilityEmbeddings: Table<Vector>, chainEmbeddings: Table<Vector>,
                              valueEmbeddings: Table<Vector>, data: seq<Cell>, planNames: seq<string>)
    requires IsSqrt(sqrt)
    requires PlanNameCells(data, planNames) != []
    ensures var cells := PlanNameCells(data, planNames);
      var r := ParserRun(sqrt, utilityEmbeddings, chainEmbeddings, valueEmbeddings, data, planNames);
      && (Verdict(sqrt, utilityEmbeddings, data, cells[0]) == Ok(true) ==>
            r == AfterAcl(sqrt, chainEmbeddings, valueEmbeddings, data, []))
      && (Verdict(sqrt, utilityEmbeddings, data, cells[0]) == Ok(false) ==>
            r.Err? || exists wl :: wl != [] && wl[0] == cells[0] && r == AfterAcl(sqrt, chainEmbeddings, valueEmbeddings, data, wl))
  {
    var cells := PlanNameCells(data, planNames);
    var vs := Verdicts(sqrt, utilityEmbeddings, data, cells);
    FirstAnchor(cells, vs);
  }
}
