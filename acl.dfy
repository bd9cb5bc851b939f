/** getCellByPlanName and updateACL of parser.js: the plan-name cells are checked
    one by one against the "renewal" utility vector; the first that matches it is
    blacklisted and ends the scan, every cell before it is whitelisted. */
module Acl {
  import opened Wrappers
  import opened Tables
  import opened Records
  import opened Vectors
  import opened Schema
  import opened Resolver
  import opened Context

  /** The `scoreThreshold` updateACL passes to getContextualEmbedding. */
  const AclThreshold: real := 0.7
  const RenewalKey := "renewal"

  /** getCellByPlanName: for each plan name in order, the cells whose value is that name. */
  function PlanNameCells(data: seq<Cell>, planNames: seq<string>): (r: seq<Cell>)
  {
    if planNames == [] then [] else WithValue(data, planNames[0]) + PlanNameCells(data, planNames[1..])
  }

  /** `data.filter((item) => item.value === name)` */
  function WithValue(data: seq<Cell>, name: string): (r: seq<Cell>)
  {
    if data == [] then []
    else (if data[0].value == name then [data[0]] else []) + WithValue(data[1..], name)
  }

  lemma {:induction false} WithValueMembers(data: seq<Cell>, name: string, c: Cell)
    ensures c in WithValue(data, name) <==> c in data && c.value == name
  {
    if data != [] {
      WithValueMembers(data[1..], name, c);
      assert data == [data[0]] + data[1..];
    }
  }

  /** A cell is a plan-name cell exactly when it is in the data and its value is
      one of the plan names. */
  lemma {:induction false} PlanNameCellsMembers(data: seq<Cell>, planNames: seq<string>, c: Cell)
    ensures c in PlanNameCells(data, planNames) <==> c in data && c.value in planNames
  {
    if planNames != [] {
      WithValueMembers(data, planNames[0], c);
      PlanNameCellsMembers(data, planNames[1..], c);
      assert planNames == [planNames[0]] + planNames[1..];
    }
  }

  /** `set.add(item)` on an insertion-ordered set. */
  function AddItem(list: seq<Cell>, item: Cell): (r: seq<Cell>)
  {
    if item in list then list else list + [item]
  }

  predicate Distinct(list: seq<Cell>)
  {
    forall i, j :: 0 <= i < j < |list| ==> list[i] != list[j]
  }

  /** Items added one after the other. */
  function AddAll(list: seq<Cell>, items: seq<Cell>): seq<Cell>
    decreases items
  {
    if items == [] then list else AddAll(AddItem(list, items[0]), items[1..])
  }

  /** Adding keeps the old entries in front, keeps the entries distinct, and holds
      exactly the old and the added items. */
  lemma {:induction false} AddAllProperties(list: seq<Cell>, items: seq<Cell>)
    requires Distinct(list)
    ensures var r := AddAll(list, items);
      Distinct(r) && list <= r && (forall c :: c in r <==> c in list || c in items)
    decreases items
  {
    if items != [] {
      var next := AddItem(list, items[0]);
      assert Distinct(next);
      AddAllProperties(next, items[1..]);
      assert items == [items[0]] + items[1..];
    }
  }

  /** Whether the contextual embedding of `item` matches the renewal vector; a
      thrown error ends updateACL. */
  function Verdict(sqrt: real -> real, utilityEmbeddings: Table<Vector>, data: seq<Cell>, item: Cell): Result<bool>
    requires IsSqrt(sqrt)
  {
    var contextual :- ContextualEmbedding(sqrt, item, data, AclThreshold, DefaultMergedWeight);
    var similarity :- Similarity(sqrt, contextual, Resolve(Utilities, utilityEmbeddings, RenewalKey, {}));
    Ok(similarity > MatchThreshold)
  }

  /** The verdict on each of `cells`. */
  function Verdicts(sqrt: real -> real, utilityEmbeddings: Table<Vector>, data: seq<Cell>, cells: seq<Cell>)
    : (vs: seq<Result<bool>>)
    requires IsSqrt(sqrt)
  {
    seq(|cells|, k requires 0 <= k < |cells| => Verdict(sqrt, utilityEmbeddings, data, cells[k]))
  }

  /** The lists after updateACL has gone through `cells` with verdicts `vs`, and
      whether it threw. */
  function Triage(cells: seq<Cell>, vs: seq<Result<bool>>, whitelist: seq<Cell>, blacklist: set<string>)
    : (seq<Cell>, set<string>, Outcome)
    requires |vs| == |cells|
  {
    if cells == [] then (whitelist, blacklist, Pass)
    else
      match vs[0]
      case Err(e) => (whitelist, blacklist, Fail(e))
      case Ok(renewal) =>
        if renewal then (whitelist, blacklist + {cells[0].cellRef}, Pass)
        else Triage(cells[1..], vs[1..], AddItem(whitelist, cells[0]), blacklist)
  }

  /** The run stops at the first cell `cells[k]` that does not pass: everything
      before it is whitelisted; a renewal match blacklists its reference, an error
      is reported; nothing after it is looked at. */
  lemma {:induction false} TriageStop(cells: seq<Cell>, vs: seq<Result<bool>>, whitelist: seq<Cell>,
                                      blacklist: set<string>, k: nat)
    requires |vs| == |cells| && k < |cells|
    requires forall j :: 0 <= j < k ==> vs[j] == Ok(false)
    requires vs[k] != Ok(false)
    ensures Triage(cells, vs, whitelist, blacklist) ==
      if vs[k].Ok? then (AddAll(whitelist, cells[..k]), blacklist + {cells[k].cellRef}, Pass)
      else (AddAll(whitelist, cells[..k]), blacklist, Fail(vs[k].error))
  {
    if k > 0 {
      assert vs[0] == Ok(false);
      assert forall j :: 0 <= j < k - 1 ==> vs[1..][j] == vs[j + 1];
      assert [cells[0]] + cells[1..][..k - 1] == cells[..k];
      TriageStop(cells[1..], vs[1..], AddItem(whitelist, cells[0]), blacklist, k - 1);
    }
  }

  /** When no cell is a renewal, all of them are whitelisted and nothing is blacklisted. */
  lemma {:induction false} TriageAllClear(cells: seq<Cell>, vs: seq<Result<bool>>, whitelist: seq<Cell>,
                                          blacklist: set<string>)
    requires |vs| == |cells| && forall j :: 0 <= j < |vs| ==> vs[j] == Ok(false)
    ensures Triage(cells, vs, whitelist, blacklist) == (AddAll(whitelist, cells), blacklist, Pass)
  {
    if cells != [] {
      assert vs[0] == Ok(false);
      assert forall j :: 0 <= j < |vs| - 1 ==> vs[1..][j] == vs[j + 1];
      TriageAllClear(cells[1..], vs[1..], AddItem(whitelist, cells[0]), blacklist);
    }
  }

  /** The blacklist gains at most one reference, that of one of the cells, and the
      whitelist only grows, at its end, by cells of the run, staying distinct. */
  lemma {:induction false} TriageBounds(cells: seq<Cell>, vs: seq<Result<bool>>, whitelist: seq<Cell>,
                                        blacklist: set<string>)
    requires |vs| == |cells| && Distinct(whitelist)
    ensures var (wl, bl, _) := Triage(cells, vs, whitelist, blacklist);
      (bl == blacklist || exists k :: 0 <= k < |cells| && bl == blacklist + {cells[k].cellRef}) &&
      Distinct(wl) && whitelist <= wl && (forall c :: c in wl ==> c in whitelist || c in cells)
  {
    if cells != [] && vs[0] == Ok(false) {
      var next := AddItem(whitelist, cells[0]);
      TriageBounds(cells[1..], vs[1..], next, blacklist);
      var (wl, bl, _) := Triage(cells, vs, whitelist, blacklist);
      if bl != blacklist {
        var k :| 0 <= k < |cells[1..]| && bl == blacklist + {cells[1..][k].cellRef};
        assert cells[1..][k] == cells[k + 1];
      }
      forall c | c in wl ensures c in whitelist || c in cells {
        assert c in next || c in cells[1..];
      }
    }
  }

  /** From empty lists, the anchor is the first plan-name cell exactly when that one
      was found not to be a renewal. */
  lemma {:induction false} FirstAnchor(cells: seq<Cell>, vs: seq<Result<bool>>)
    requires |vs| == |cells| && cells != []
    ensures var (wl, _, _) := Triage(cells, vs, [], {});
      vs[0] == Ok(false) <==> wl != [] && wl[0] == cells[0]
  {
    var next := AddItem([], cells[0]);
    assert next == [cells[0]];
    if vs[0] == Ok(false) {
      TriageBounds(cells[1..], vs[1..], next, {});
    }
  }

  /** updateACL's two lists. JavaScript Sets of cells become an ordered list without
      repeats (`whitelist`, cells compared by value) and a set of references. */
  class AccessList {
    var blacklist: set<string>
    var whitelist: seq<Cell>

    /** The module-level `config` with both sets empty. */
    constructor()
      ensures blacklist == {} && whitelist == []
    {
      blacklist := {};
      whitelist := [];
    }

    /** updateACL: the lists after the run are those of Triage over the plan-name
        cells; an error thrown mid-way leaves what was added before it. */
    method UpdateACL(sqrt: real -> real, utilityEmbeddings: Table<Vector>, data: seq<Cell>, planNames: seq<string>)
      returns (outcome: Outcome)
      requires IsSqrt(sqrt)
      modifies this
      ensures var cells := PlanNameCells(data, planNames);
        (whitelist, blacklist, outcome) ==
          Triage(cells, Verdicts(sqrt, utilityEmbeddings, data, cells), old(whitelist), old(blacklist))
    {
      var cells := PlanNameCells(data, planNames);
      ghost var vs := Verdicts(sqrt, utilityEmbeddings, data, cells);
      var i := 0;
      while i < |cells|
        invariant 0 <= i <= |cells|
        invariant Triage(cells[i..], vs[i..], whitelist, blacklist) == Triage(cells, vs, old(whitelist), old(blacklist))
      {
        var item := cells[i];
        assert cells[i..][0] == item && cells[i..][1..] == cells[i + 1..];
        assert vs[i..][0] == vs[i] && vs[i..][1..] == vs[i + 1..];
        var contextual := ContextualEmbedding(sqrt, item, data, AclThreshold, DefaultMergedWeight);
        if contextual.Err? {
          return Fail(contextual.error);
        }
        var renewal, _ := GetEmbeddable(Utilities, utilityEmbeddings, RenewalKey, {});
        var similarity := Similarity(sqrt, contextual.value, renewal);
        if similarity.Err? {
          return Fail(similarity.error);
        }
        if similarity.value > MatchThreshold {
          blacklist := blacklist + {item.cellRef};
          return Pass;
        }
        whitelist := AddItem(whitelist, item);
        i := i + 1;
      }
      return Pass;
    }

    /** `config.whitelist.values().next().value`: the plan cell, when there is one. */
    function FirstWhitelisted(): (r: Option<Cell>)
      reads this
      ensures r.Some? <==> whitelist != []
      ensures r.Some? ==> r.value == whitelist[0]
    {
      if whitelist == [] then None else Some(whitelist[0])
    }
  }
}
