/** The edits the planner's page makes, as functions on its rows. */
module PlannerEdits {
  import opened Options
  import opened OverrideTable
  import opened PlannerDiff
  import opened PlannerCells

  /** The rows being edited, in their Map's order, and the next counter for a new key. */
  datatype Draft = Draft(rows: seq<Row>, next: nat)

  datatype Mode = NoOverride | Static | Variant

  datatype Edit =
    | Remove(key: Key)
    | SetValue(key: Key, value: string)
    | SetVariantId(key: Key, variantId: string)
    | SetWeight(key: Key, weight: real)
    | RenameGroup(objectId: int, column: string, group: string)
    | AddVariant(objectId: int, column: string, group: string, variantId: string)
    | Switch(objectId: int, column: string, mode: Mode)
    | Draw(objectId: int, column: string, mode: Mode)

  function Filter(rows: seq<Row>, keep: Row -> bool): seq<Row>
  {
    if rows == [] then []
    else
      var k := |rows| - 1;
      Filter(rows[..k], keep) + if keep(rows[k]) then [rows[k]] else []
  }

  function At(o: int, c: string): Row -> bool { (r: Row) => InCell(r.config, o, c) }

  function NotAt(o: int, c: string): Row -> bool { (r: Row) => !InCell(r.config, o, c) }

  function StaticAt(o: int, c: string): Row -> bool { (r: Row) => InCell(r.config, o, c)
                                                                  && r.config.variantGroup == None }

  function VariantAt(o: int, c: string): Row -> bool { (r: Row) => InCell(r.config, o, c)
                                                                   && r.config.variantGroup != None }

  function KeyNot(key: Key): Row -> bool { (r: Row) => r.key != key }

  function Cell(rows: seq<Row>, o: int, c: string): seq<Row> { Filter(rows, At(o, c)) }

  function Outside(rows: seq<Row>, o: int, c: string): seq<Row> { Filter(rows, NotAt(o, c)) }

  function Statics(rows: seq<Row>, o: int, c: string): seq<Row> { Filter(rows, StaticAt(o, c)) }

  function Variants(rows: seq<Row>, o: int, c: string): seq<Row> { Filter(rows, VariantAt(o, c)) }

  function Without(rows: seq<Row>, key: Key): seq<Row> { Filter(rows, KeyNot(key)) }

  // What typing into a field of a row, or renaming a cell's group, makes of each row.

  function Valued(key: Key, v: string): Row -> Config { (r: Row) => if r.key == key then r.config.(value := v)
      else r.config }

  function Identified(key: Key, v: string): Row -> Config { (r: Row) => if r.key == key then
        r.config.(variantId := Some(v)) else r.config }

  function Weighted(key: Key, w: real): Row -> Config { (r: Row) => if r.key == key then r.config.(weight := w)
      else r.config }

  function Regrouped(o: int, c: string, g: string): Row -> Config
  {
    (r: Row) => if InCell(r.config, o, c) then r.config.(variantGroup := Some(if g == "" then "pool" else g))
      else r.config
  }

  function Changed(rows: seq<Row>, change: Row -> Config): (r: seq<Row>)
    ensures |r| == |rows|
  {
    seq(|rows|, i requires 0 <= i < |rows| => Row(rows[i].key, change(rows[i])))
  }

  /** addRow: a new row is the map's own. */
  function With(d: Draft, map_: string, o: int, c: string, value: string, group: Option<string>,
                variantId: Option<string>): Draft
  {
    Draft(d.rows + [Row(Added(d.next), Config(Some(map_), o, c, value, group, variantId, 1.0))], d.next + 1)
  }

  /** The static row, if any, becomes the first variant of a new pool. */
  function Promoted(d: Draft, map_: string, o: int, c: string): Draft
  {
    var statics := Statics(d.rows, o, c);
    if statics == [] then
      if Variants(d.rows, o, c) == [] then With(d, map_, o, c, "", Some("pool"), Some("v1")) else d
    else
      var rest := d.(rows := Without(d.rows, statics[0].key));
      if Variants(rest.rows, o, c) == [] then
        With(rest, map_, o, c, statics[0].config.value, Some("pool"), Some("v1")) else rest
  }

  function Switched(d: Draft, map_: string, o: int, c: string, mode: Mode): Draft
  {
    match mode
    case NoOverride => d.(rows := Outside(d.rows, o, c))
    case Static =>
      var cell := Cell(d.rows, o, c);
      With(d.(rows := Outside(d.rows, o, c)), map_, o, c, if cell == [] then "" else cell[0].config.value, None, None)
    case Variant => Promoted(d, map_, o, c)
  }

  /** Drawing an editor adds the row it needs if there is none. */
  function Drawn(d: Draft, map_: string, o: int, c: string, mode: Mode): Draft
  {
    match mode
    case NoOverride => d
    case Static => if Statics(d.rows, o, c) == [] then With(d, map_, o, c, "", None, None) else d
    case Variant => if Variants(d.rows, o, c) == [] then Promoted(d, map_, o, c) else d
  }

  function Step(d: Draft, map_: string, e: Edit): Draft
  {
    match e
    case Remove(key) => d.(rows := Without(d.rows, key))
    case SetValue(key, v) => d.(rows := Changed(d.rows, Valued(key, v)))
    case SetVariantId(key, v) => d.(rows := Changed(d.rows, Identified(key, v)))
    case SetWeight(key, w) => d.(rows := Changed(d.rows, Weighted(key, w)))
    case RenameGroup(o, c, g) => d.(rows := Changed(d.rows, Regrouped(o, c, g)))
    case AddVariant(o, c, g, v) => With(d, map_, o, c, "", Some(if g == "" then "pool" else g), Some(v))
    case Switch(o, c, mode) => Switched(d, map_, o, c, mode)
    case Draw(o, c, mode) => Drawn(d, map_, o, c, mode)
  }

  /** Only objects the page shows are edited. */
  ghost predicate OnPage(e: Edit, objects: set<int>)
  {
    e.RenameGroup? || e.AddVariant? || e.Switch? || e.Draw? ==> e.objectId in objects
  }

  // ------------------------------------------------------------------------------------ filtering

  lemma {:induction false} FilterMember(rows: seq<Row>, keep: Row -> bool, i: nat)
    requires i < |Filter(rows, keep)|
    ensures keep(Filter(rows, keep)[i]) && Filter(rows, keep)[i] in rows
  {
    var k := |rows| - 1;
    if i < |Filter(rows[..k], keep)| { FilterMember(rows[..k], keep, i); }
  }

  lemma {:induction false} FilterHas(rows: seq<Row>, keep: Row -> bool, i: nat)
    requires i < |rows| && keep(rows[i])
    ensures rows[i] in Filter(rows, keep)
  {
    var k := |rows| - 1;
    if i < k { FilterHas(rows[..k], keep, i); }
  }

  lemma {:induction false} FilterSame(rows: seq<Row>, p: Row -> bool, q: Row -> bool)
    requires forall i :: 0 <= i < |rows| ==> p(rows[i]) == q(rows[i])
    ensures Filter(rows, p) == Filter(rows, q)
  {
    if rows != [] { FilterSame(rows[..|rows| - 1], p, q); }
  }

  lemma {:induction false} FilterNone(rows: seq<Row>, p: Row -> bool)
    requires forall i :: 0 <= i < |rows| ==> !p(rows[i])
    ensures Filter(rows, p) == []
  {
    if rows != [] { FilterNone(rows[..|rows| - 1], p); }
  }

  lemma FilterAppend(rows: seq<Row>, r: Row, p: Row -> bool)
    ensures Filter(rows + [r], p) == Filter(rows, p) + if p(r) then [r] else []
  {
    assert (rows + [r])[..|rows|] == rows;
  }

  lemma {:induction false} FilterTwice(rows: seq<Row>, p: Row -> bool, q: Row -> bool)
    ensures Filter(Filter(rows, p), q) == Filter(rows, (r: Row) => p(r) && q(r))
  {
    if rows != [] {
      var k := |rows| - 1;
      FilterTwice(rows[..k], p, q);
      if p(rows[k]) {
        FilterAppend(Filter(rows[..k], p), rows[k], q);
      } else {
        assert Filter(rows, p) == Filter(rows[..k], p);
      }
    }
  }

  lemma {:induction false} FilterUnique(rows: seq<Row>, p: Row -> bool)
    requires UniqueKeys(rows)
    ensures UniqueKeys(Filter(rows, p))
  {
    if rows != [] {
      var k := |rows| - 1;
      FilterUnique(rows[..k], p);
      forall i | 0 <= i < |Filter(rows[..k], p)|
        ensures Filter(rows[..k], p)[i].key != rows[k].key { FilterMember(rows[..k], p, i); }
    }
  }

  // ---------------------------------------------------------------------------- what edits preserve

  /** The rows are a possible edit of the loaded ones, and the counter is ahead of the keys given out. */
  ghost predicate DraftOk(original: seq<Row>, map_: string, objects: set<int>, d: Draft)
  {
    && Edited(original, map_, objects, d.rows)
    && AllSaved(original)
    && forall i :: 0 <= i < |d.rows| && d.rows[i].key.Added? ==> d.rows[i].key.n < d.next
  }

  lemma FilterOk(original: seq<Row>, map_: string, objects: set<int>, d: Draft, p: Row -> bool)
    requires DraftOk(original, map_, objects, d)
    ensures DraftOk(original, map_, objects, d.(rows := Filter(d.rows, p)))
  {
    hide Find, RowOk;
    FilterUnique(d.rows, p);
    forall i | 0 <= i < |Filter(d.rows, p)|
      ensures RowOk(original, map_, objects, Filter(d.rows, p)[i])
      ensures Filter(d.rows, p)[i].key.Added? ==> Filter(d.rows, p)[i].key.n < d.next
    {
      FilterMember(d.rows, p, i);
    }
  }

  lemma WithOk(original: seq<Row>, map_: string, objects: set<int>, d: Draft, o: int, c: string, value: string,
               group: Option<string>, variantId: Option<string>)
    requires DraftOk(original, map_, objects, d) && o in objects
    ensures DraftOk(original, map_, objects, With(d, map_, o, c, value, group, variantId))
  {
    hide Find;
    var w := With(d, map_, o, c, value, group, variantId);
    forall i | 0 <= i < |w.rows| ensures RowOk(original, map_, objects, w.rows[i]) {
      if i < |d.rows| { assert w.rows[i] == d.rows[i]; }
    }
  }

  lemma ChangedOk(original: seq<Row>, map_: string, objects: set<int>, d: Draft, change: Row -> Config)
    requires DraftOk(original, map_, objects, d)
    requires forall r: Row ::
               change(r).mapName == r.config.mapName && InCell(change(r), r.config.objectId, r.config.column)
    ensures DraftOk(original, map_, objects, d.(rows := Changed(d.rows, change)))
  {
    hide Find;
    var rows := Changed(d.rows, change);
    forall i | 0 <= i < |rows| ensures RowOk(original, map_, objects, rows[i]) {
      var r := d.rows[i];
      assert RowOk(original, map_, objects, r);
      assert rows[i] == Row(r.key, change(r));
    }
  }

  lemma PromotedOk(original: seq<Row>, map_: string, objects: set<int>, d: Draft, o: int, c: string)
    requires DraftOk(original, map_, objects, d) && o in objects
    ensures DraftOk(original, map_, objects, Promoted(d, map_, o, c))
  {
    hide Find, DraftOk, With;
    var statics := Statics(d.rows, o, c);
    if statics == [] {
      WithOk(original, map_, objects, d, o, c, "", Some("pool"), Some("v1"));
    } else {
      var rest := d.(rows := Without(d.rows, statics[0].key));
      FilterOk(original, map_, objects, d, KeyNot(statics[0].key));
      WithOk(original, map_, objects, rest, o, c, statics[0].config.value, Some("pool"), Some("v1"));
    }
  }

  lemma SwitchedOk(original: seq<Row>, map_: string, objects: set<int>, d: Draft, o: int, c: string, mode: Mode)
    requires DraftOk(original, map_, objects, d) && o in objects
    ensures DraftOk(original, map_, objects, Switched(d, map_, o, c, mode))
  {
    hide Find, DraftOk, With, Promoted, Filter;
    FilterOk(original, map_, objects, d, NotAt(o, c));
    PromotedOk(original, map_, objects, d, o, c);
    var cell := Cell(d.rows, o, c);
    WithOk(original, map_, objects, d.(rows := Outside(d.rows, o, c)), o, c, if cell == [] then ""
           else cell[0].config.value, None, None);
  }

  /** Every edit keeps the draft a possible one. */
  lemma StepOk(original: seq<Row>, map_: string, objects: set<int>, d: Draft, e: Edit)
    requires DraftOk(original, map_, objects, d) && OnPage(e, objects)
    ensures DraftOk(original, map_, objects, Step(d, map_, e))
  {
    hide Find, DraftOk, With, Promoted, Filter, Switched, Changed;
    match e {
      case Remove(key) => FilterOk(original, map_, objects, d, KeyNot(key));
      case SetValue(key, v) => ChangedOk(original, map_, objects, d, Valued(key, v));
      case SetVariantId(key, v) => ChangedOk(original, map_, objects, d, Identified(key, v));
      case SetWeight(key, w) => ChangedOk(original, map_, objects, d, Weighted(key, w));
      case RenameGroup(o, c, g) => ChangedOk(original, map_, objects, d, Regrouped(o, c, g));
      case AddVariant(o, c, g, v) => WithOk(original, map_, objects, d, o, c, "",
                                            Some(if g == "" then "pool" else g), Some(v));
      case Switch(o, c, mode) => SwitchedOk(original, map_, objects, d, o, c, mode);
      case Draw(o, c, mode) =>
        WithOk(original, map_, objects, d, o, c, "", None, None);
        PromotedOk(original, map_, objects, d, o, c);
    }
  }

  ghost function History(d: Draft, map_: string, edits: seq<Edit>): Draft
  {
    if edits == [] then d else Step(History(d, map_, edits[..|edits| - 1]), map_, edits[|edits| - 1])
  }

  lemma LoadedOk(t: Table, original: seq<Row>, map_: string, objects: set<int>)
    requires Loaded(t, original, map_, objects)
    ensures DraftOk(original, map_, objects, Draft(original, 1))
  {
    hide Find;
    forall i | 0 <= i < |original| ensures RowOk(original, map_, objects, original[i]) {
      FindAt(original, i);
    }
  }

  lemma {:induction false} HistoryOk(original: seq<Row>, map_: string, objects: set<int>, d: Draft, edits: seq<Edit>)
    requires DraftOk(original, map_, objects, d)
    requires forall i :: 0 <= i < |edits| ==> OnPage(edits[i], objects)
    ensures DraftOk(original, map_, objects, History(d, map_, edits))
  {
    hide DraftOk, Step, OnPage;
    if edits != [] {
      HistoryOk(original, map_, objects, d, edits[..|edits| - 1]);
      StepOk(original, map_, objects, History(d, map_, edits[..|edits| - 1]), edits[|edits| - 1]);
    }
  }

  /** After any history of edits, running the export leaves every other map's and every global row as it
      was. */
  lemma AnyHistoryUntouched(t: Table, original: seq<Row>, map_: string, objects: set<int>, edits: seq<Edit>, id: int)
    requires map_ != "" && Loaded(t, original, map_, objects)
    requires forall i :: 0 <= i < |edits| ==> OnPage(edits[i], objects)
    ensures var final := Final(t, original, map_, History(Draft(original, 1), map_, edits).rows);
            && ((id in final.rows && final.rows[id].mapName != Some(map_)) <==>
                (id in t.rows && t.rows[id].mapName != Some(map_)))
            && (id in t.rows && t.rows[id].mapName != Some(map_) ==> final.rows[id] == t.rows[id])
  {
    hide Loaded, Edited, Final, History, OnPage;
    LoadedOk(t, original, map_, objects);
    HistoryOk(original, map_, objects, Draft(original, 1), edits);
    OthersUntouched(t, original, map_, objects, History(Draft(original, 1), map_, edits).rows, id);
  }

  /** After any history of edits, the map's rows on its objects are exactly the edited rows that are not
      unchanged global ones: each has a place of its own, and every place holds one. */
  lemma AnyHistoryExact(t: Table, original: seq<Row>, map_: string, objects: set<int>, edits: seq<Edit>)
    requires map_ != "" && Loaded(t, original, map_, objects)
    requires forall i :: 0 <= i < |edits| ==> OnPage(edits[i], objects)
    ensures var rows := History(Draft(original, 1), map_, edits).rows;
            var final := Final(t, original, map_, rows);
            && (forall i :: 0 <= i < |rows| && Own(original, map_, rows[i]) ==>
                              var home := Home(t, original, map_, rows, i);
                              home in final.rows && final.rows[home] == Exported(original, map_, rows[i])
                              && final.rows[home].mapName == Some(map_))
            && (forall i, j :: 0 <= i < j < |rows| ==>
                                 Home(t, original, map_, rows, i) != Home(t, original, map_, rows, j))
            && (forall id ::
                  id in final.rows && final.rows[id].mapName == Some(map_) && final.rows[id].objectId in objects ==>
                    exists i :: 0 <= i < |rows| && Own(original, map_, rows[i])
                                && Home(t, original, map_, rows, i) == id)
  {
    hide Loaded, Edited, Final, History, OnPage, Home, Own, Exported;
    LoadedOk(t, original, map_, objects);
    HistoryOk(original, map_, objects, Draft(original, 1), edits);
    var rows := History(Draft(original, 1), map_, edits).rows;
    var final := Final(t, original, map_, rows);
    forall i | 0 <= i < |rows| && Own(original, map_, rows[i])
      ensures var home := Home(t, original, map_, rows, i);
              home in final.rows && final.rows[home] == Exported(original, map_, rows[i])
              && final.rows[home].mapName == Some(map_)
    {
      RowExported(t, original, map_, objects, rows, i);
    }
    forall i, j | 0 <= i < j < |rows| ensures Home(t, original, map_, rows, i) != Home(t, original, map_, rows, j) {
      HomesApart(t, original, map_, objects, rows, i, j);
    }
    forall id | id in final.rows && final.rows[id].mapName == Some(map_) && final.rows[id].objectId in objects
      ensures exists i :: 0 <= i < |rows| && Own(original, map_, rows[i]) && Home(t, original, map_, rows, i) == id
    {
      var i := OwnFromEdited(t, original, map_, objects, rows, id);
    }
  }

  // ------------------------------------------------------------------------------- switching modes

  /** Taking a row of the cell away leaves the rows outside it. */
  lemma OutsideWithout(rows: seq<Row>, o: int, c: string, i: nat)
    requires UniqueKeys(rows) && i < |rows| && InCell(rows[i].config, o, c)
    ensures Outside(Without(rows, rows[i].key), o, c) == Outside(rows, o, c)
  {
    hide Filter;
    var p, q := KeyNot(rows[i].key), NotAt(o, c);
    FilterTwice(rows, p, q);
    FilterSame(rows, (r: Row) => p(r) && q(r), q);
  }

  lemma OutsideWith(d: Draft, map_: string, o: int, c: string, value: string, group: Option<string>,
                    variantId: Option<string>)
    ensures Outside(With(d, map_, o, c, value, group, variantId).rows, o, c) == Outside(d.rows, o, c)
  {
    hide Filter;
    FilterAppend(d.rows, With(d, map_, o, c, value, group, variantId).rows[|d.rows|], NotAt(o, c));
  }

  lemma OutsideTwice(rows: seq<Row>, o: int, c: string)
    ensures Outside(Outside(rows, o, c), o, c) == Outside(rows, o, c)
    ensures Cell(Outside(rows, o, c), o, c) == []
  {
    hide Filter;
    var p := NotAt(o, c);
    FilterTwice(rows, p, p);
    FilterSame(rows, (r: Row) => p(r) && p(r), p);
    var out := Filter(rows, p);
    forall i | 0 <= i < |out| ensures !At(o, c)(out[i]) { FilterMember(rows, p, i); }
    FilterNone(out, At(o, c));
  }

  lemma StaticOfCell(rows: seq<Row>, o: int, c: string) returns (i: nat)
    requires Statics(rows, o, c) != []
    ensures i < |rows| && rows[i] == Statics(rows, o, c)[0] && StaticAt(o, c)(rows[i])
  {
    FilterMember(rows, StaticAt(o, c), 0);
    i :| 0 <= i < |rows| && rows[i] == Statics(rows, o, c)[0];
  }

  /** Switching a cell's mode changes nothing outside the cell. */
  lemma SwitchLocal(d: Draft, map_: string, o: int, c: string, mode: Mode)
    requires UniqueKeys(d.rows)
    ensures Outside(Switched(d, map_, o, c, mode).rows, o, c) == Outside(d.rows, o, c)
  {
    hide Filter, With, At, NotAt, StaticAt, VariantAt, KeyNot;
    OutsideTwice(d.rows, o, c);
    match mode {
      case NoOverride =>
      case Static =>
        var cell := Cell(d.rows, o, c);
        OutsideWith(d.(rows := Outside(d.rows, o, c)), map_, o, c, if cell == [] then ""
                    else cell[0].config.value, None, None);
      case Variant =>
        PromoteLocal(d, map_, o, c);
    }
  }

  lemma PromoteLocal(d: Draft, map_: string, o: int, c: string)
    requires UniqueKeys(d.rows)
    ensures Outside(Promoted(d, map_, o, c).rows, o, c) == Outside(d.rows, o, c)
  {
    hide Filter, With, At, NotAt, VariantAt, KeyNot;
    var statics := Statics(d.rows, o, c);
    if statics == [] {
      OutsideWith(d, map_, o, c, "", Some("pool"), Some("v1"));
    } else {
      var i := StaticOfCell(d.rows, o, c);
      OutsideWithout(d.rows, o, c, i);
      OutsideWith(d.(rows := Without(d.rows, statics[0].key)), map_, o, c, statics[0].config.value, Some("pool"),
                  Some("v1"));
    }
  }

  lemma CellWith(d: Draft, map_: string, o: int, c: string, value: string, group: Option<string>,
                 variantId: Option<string>)
    ensures var w := With(d, map_, o, c, value, group, variantId);
            && Cell(w.rows, o, c) == Cell(d.rows, o, c) + [w.rows[|d.rows|]]
            && Statics(w.rows, o, c) == Statics(d.rows, o, c) + (if group == None then [w.rows[|d.rows|]] else [])
            && Variants(w.rows, o, c) == Variants(d.rows, o, c) + (if group != None then [w.rows[|d.rows|]] else [])
  {
    hide Filter;
    var r := With(d, map_, o, c, value, group, variantId).rows[|d.rows|];
    FilterAppend(d.rows, r, At(o, c));
    FilterAppend(d.rows, r, StaticAt(o, c));
    FilterAppend(d.rows, r, VariantAt(o, c));
  }

  /** What the cell holds after a switch: nothing; one static row with the first row's value; or some
      variant, and when there was only a static row, that row's value as the only variant. */
  lemma SwitchCell(d: Draft, map_: string, o: int, c: string, mode: Mode)
    requires UniqueKeys(d.rows)
    ensures var before, after := Cell(d.rows, o, c), Cell(Switched(d, map_, o, c, mode).rows, o, c);
            match mode
            case NoOverride => after == []
            case Static => |after| == 1 && after[0].config ==
                                           Config(Some(map_), o, c, if before == [] then ""
                                                  else before[0].config.value, None, None, 1.0)
            case Variant =>
              && Variants(Switched(d, map_, o, c, mode).rows, o, c) != []
              && (before == [] || (|before| == 1 && before[0].config.variantGroup == None) ==>
                    |after| == 1 && after[0].config ==
                                    Config(Some(map_), o, c, if before == [] then ""
                                           else before[0].config.value, Some("pool"), Some("v1"), 1.0))
  {
    hide Filter, At, NotAt, StaticAt, VariantAt, KeyNot;
    match mode {
      case NoOverride => OutsideTwice(d.rows, o, c);
      case Static =>
        OutsideTwice(d.rows, o, c);
        var cell := Cell(d.rows, o, c);
        CellWith(d.(rows := Outside(d.rows, o, c)), map_, o, c, if cell == [] then ""
                 else cell[0].config.value, None, None);
      case Variant =>
        PromoteCell(d, map_, o, c);
    }
  }

  lemma PromoteCell(d: Draft, map_: string, o: int, c: string)
    requires UniqueKeys(d.rows)
    ensures var before, after := Cell(d.rows, o, c), Cell(Promoted(d, map_, o, c).rows, o, c);
            && Variants(Promoted(d, map_, o, c).rows, o, c) != []
            && (before == [] || (|before| == 1 && before[0].config.variantGroup == None) ==>
                  |after| == 1 && after[0].config ==
                                  Config(Some(map_), o, c, if before == [] then ""
                                         else before[0].config.value, Some("pool"), Some("v1"), 1.0))
  {
    hide Filter, At, NotAt, VariantAt, KeyNot, StaticAt;
    var statics := Statics(d.rows, o, c);
    var cell := Cell(d.rows, o, c);
    PartsOfCell(d.rows, o, c);
    CellWith(d, map_, o, c, "", Some("pool"), Some("v1"));
    if statics != [] {
      var rest := d.(rows := Without(d.rows, statics[0].key));
      CellWith(rest, map_, o, c, statics[0].config.value, Some("pool"), Some("v1"));
      if |cell| == 1 && cell[0].config.variantGroup == None { LoneTaken(d.rows, o, c); }
    }
  }

  /** Statics and variants are the cell's rows without and with a group. */
  lemma PartsOfCell(rows: seq<Row>, o: int, c: string)
    ensures Cell(rows, o, c) == [] ==> Statics(rows, o, c) == [] && Variants(rows, o, c) == []
    ensures |Cell(rows, o, c)| == 1 && Cell(rows, o, c)[0].config.variantGroup == None ==>
              Statics(rows, o, c) == Cell(rows, o, c) && Variants(rows, o, c) == []
    ensures |Cell(rows, o, c)| == 1 && Cell(rows, o, c)[0].config.variantGroup != None ==>
              Variants(rows, o, c) == Cell(rows, o, c)
  {
    hide Filter;
    var cell := Cell(rows, o, c);
    FilterTwice(rows, At(o, c), StaticAt(o, c));
    FilterSame(rows, (r: Row) => At(o, c)(r) && StaticAt(o, c)(r), StaticAt(o, c));
    FilterTwice(rows, At(o, c), VariantAt(o, c));
    FilterSame(rows, (r: Row) => At(o, c)(r) && VariantAt(o, c)(r), VariantAt(o, c));
    FilterFew(cell, StaticAt(o, c));
    FilterFew(cell, VariantAt(o, c));
    if |cell| == 1 { FilterMember(rows, At(o, c), 0); }
  }

  lemma FilterFew(rows: seq<Row>, p: Row -> bool)
    ensures rows == [] ==> Filter(rows, p) == []
    ensures |rows| == 1 ==> Filter(rows, p) == if p(rows[0]) then rows else []
  {
    if |rows| == 1 {
      assert rows == [] + [rows[0]];
      FilterAppend([], rows[0], p);
    }
  }

  /** Taking the only row of a cell away empties it. */
  lemma LoneTaken(rows: seq<Row>, o: int, c: string)
    requires |Cell(rows, o, c)| == 1
    ensures var rest := Without(rows, Cell(rows, o, c)[0].key);
            Cell(rest, o, c) == [] && Variants(rest, o, c) == []
  {
    hide Filter;
    var cell := Cell(rows, o, c);
    var p, q := At(o, c), KeyNot(cell[0].key);
    FilterTwice(rows, p, q);
    FilterTwice(rows, q, p);
    FilterSame(rows, (r: Row) => p(r) && q(r), (r: Row) => q(r) && p(r));
    FilterFew(cell, q);
    PartsOfCell(Without(rows, cell[0].key), o, c);
  }

  /** Redrawing a cell right after a switch adds nothing. */
  lemma RedrawAddsNothing(d: Draft, map_: string, o: int, c: string, mode: Mode)
    requires UniqueKeys(d.rows)
    ensures Drawn(Switched(d, map_, o, c, mode), map_, o, c, mode) == Switched(d, map_, o, c, mode)
  {
    hide Filter, At, NotAt, StaticAt, VariantAt, KeyNot, With, Promoted;
    SwitchCell(d, map_, o, c, mode);
    PartsOfCell(Switched(d, map_, o, c, mode).rows, o, c);
  }

  /** Making a static cell variant and static again gives back its value. */
  lemma ThereAndBack(d: Draft, map_: string, o: int, c: string)
    requires UniqueKeys(d.rows) && UniqueKeys(Switched(d, map_, o, c, Variant).rows)
    requires |Cell(d.rows, o, c)| == 1 && Cell(d.rows, o, c)[0].config.variantGroup == None
    ensures var back := Cell(Switched(Switched(d, map_, o, c, Variant), map_, o, c, Static).rows, o, c);
            |back| == 1 && back[0].config.value == Cell(d.rows, o, c)[0].config.value
            && back[0].config.variantGroup == None
  {
    hide Filter, Switched, At;
    SwitchCell(d, map_, o, c, Variant);
    SwitchCell(Switched(d, map_, o, c, Variant), map_, o, c, Static);
  }

  // ------------------------------------------------------------------------ where typing ends up

  /** The two settings differ at most in their value, their variant id or their weight. */
  predicate SameBesideTyped(a: Config, b: Config)
  {
    a.mapName == b.mapName && a.objectId == b.objectId && a.column == b.column && a.variantGroup == b.variantGroup
  }

  /** What is typed lands in the named field of the row with that key; its other fields, its place, and
      every other row are as they were. */
  lemma TypedLands(d: Draft, map_: string, key: Key, value: string, id: string, weight: real, i: nat)
    requires i < |d.rows|
    ensures var was, hit := d.rows[i], d.rows[i].key == key;
            var v, n, w := Step(d, map_, SetValue(key, value)), Step(d, map_, SetVariantId(key, id)),
                           Step(d, map_, SetWeight(key, weight));
            && |v.rows| == |n.rows| == |w.rows| == |d.rows| && v.next == n.next == w.next == d.next
            && (!hit ==> v.rows[i] == n.rows[i] == w.rows[i] == was)
            && (hit ==>
                  && v.rows[i].key == n.rows[i].key == w.rows[i].key == key
                  && SameBesideTyped(was.config, v.rows[i].config) && SameBesideTyped(was.config, n.rows[i].config)
                  && SameBesideTyped(was.config, w.rows[i].config)
                  && v.rows[i].config.value == value && n.rows[i].config.variantId == Some(id)
                  && w.rows[i].config.weight == weight
                  && n.rows[i].config.value == w.rows[i].config.value == was.config.value
                  && v.rows[i].config.variantId == w.rows[i].config.variantId == was.config.variantId
                  && v.rows[i].config.weight == n.rows[i].config.weight == was.config.weight)
  {
    hide Filter;
  }

  /** A cell's new group name reaches the rows of that cell and no others; no name means `pool`. */
  lemma RenameLands(d: Draft, map_: string, o: int, c: string, g: string, i: nat)
    requires i < |d.rows|
    ensures var was, r := d.rows[i], Step(d, map_, RenameGroup(o, c, g));
            && |r.rows| == |d.rows| && r.rows[i].key == was.key
            && (InCell(was.config, o, c) ==>
                  && r.rows[i].config.variantGroup == Some(if |g| == 0 then "pool" else g)
                  && r.rows[i].config.(variantGroup := was.config.variantGroup) == was.config)
            && (!InCell(was.config, o, c) ==> r.rows[i] == was)
  {
    hide Filter;
  }

  /** A removed row is gone, every other row stays, and the order too. */
  lemma {:induction false} RemoveTakesOne(d: Draft, map_: string, i: nat)
    requires UniqueKeys(d.rows) && i < |d.rows|
    ensures Step(d, map_, Remove(d.rows[i].key)).rows == d.rows[..i] + d.rows[i + 1..]
    decreases |d.rows|
  {
    var k := |d.rows| - 1;
    var key := d.rows[i].key;
    var front := d.rows[..k];
    if i == k {
      FilterAll(front, KeyNot(key));
      assert d.rows[..i] + d.rows[i + 1..] == front;
    } else {
      RemoveTakesOne(d.(rows := front), map_, i);
      assert front[..i] + front[i + 1..] + [d.rows[k]] == d.rows[..i] + d.rows[i + 1..];
    }
  }

  lemma {:induction false} FilterAll(rows: seq<Row>, p: Row -> bool)
    requires forall i :: 0 <= i < |rows| ==> p(rows[i])
    ensures Filter(rows, p) == rows
  {
    if rows != [] {
      FilterAll(rows[..|rows| - 1], p);
      assert rows[..|rows| - 1] + [rows[|rows| - 1]] == rows;
    }
  }

  /** A new variant joins the cell under a key nobody has. */
  lemma VariantJoins(original: seq<Row>, map_: string, objects: set<int>, d: Draft, o: int, c: string, g: string,
                     id: string)
    requires DraftOk(original, map_, objects, d)
    ensures var a := Step(d, map_, AddVariant(o, c, g, id));
            && |a.rows| == |d.rows| + 1 && a.rows[..|d.rows|] == d.rows
            && var r := a.rows[|d.rows|];
            && (forall i :: 0 <= i < |d.rows| ==> d.rows[i].key != r.key)
            && InCell(r.config, o, c) && r.config.mapName == Some(map_) && r.config.variantId == Some(id)
            && r.config.variantGroup == Some(if |g| == 0 then "pool" else g)
            && r.config.value == "" && r.config.weight == 1.0
  {
    hide Edited, Filter;
  }

  /** The row the editor of that mode needs is there. */
  predicate Shows(d: Draft, o: int, c: string, mode: Mode)
  {
    match mode
    case NoOverride => true
    case Static => Statics(d.rows, o, c) != []
    case Variant => Variants(d.rows, o, c) != []
  }

  /** After a cell was drawn the row its editor shows is there, and nothing outside the cell has changed:
      a row that was there is left alone, a missing one is empty, and a static setting shown as a pool
      keeps its value as the first variant. */
  lemma DrawShows(d: Draft, map_: string, o: int, c: string, mode: Mode)
    requires UniqueKeys(d.rows)
    ensures var a := Drawn(d, map_, o, c, mode);
            var before, after := Cell(d.rows, o, c), Cell(a.rows, o, c);
            && Outside(a.rows, o, c) == Outside(d.rows, o, c)
            && (Shows(d, o, c, mode) ==> a == d) && Shows(a, o, c, mode)
            && (mode == Static && !Shows(d, o, c, mode) ==>
                  |after| == |before| + 1 && after[..|before|] == before
                  && after[|before|].config == Config(Some(map_), o, c, "", None, None, 1.0))
            && (mode == Variant && |before| <= 1 && !Shows(d, o, c, mode) ==>
                  |after| == 1 && after[0].config == Config(Some(map_), o, c, if before == [] then ""
                                                            else before[0].config.value, Some("pool"), Some("v1"), 1.0))
  {
    hide Filter, At, NotAt, StaticAt, VariantAt, KeyNot, With, Promoted;
    match mode {
      case NoOverride =>
      case Static => if Statics(d.rows, o, c) == [] { DrawnStatic(d, map_, o, c); }
      case Variant =>
        SwitchLocal(d, map_, o, c, Variant);
        SwitchCell(d, map_, o, c, Variant);
        PartsOfCell(d.rows, o, c);
    }
  }

  lemma DrawnStatic(d: Draft, map_: string, o: int, c: string)
    requires Statics(d.rows, o, c) == []
    ensures var a := With(d, map_, o, c, "", None, None);
            && Outside(a.rows, o, c) == Outside(d.rows, o, c) && Statics(a.rows, o, c) != []
            && var before, after := Cell(d.rows, o, c), Cell(a.rows, o, c);
            && |after| == |before| + 1 && after[..|before|] == before
            && after[|before|].config == Config(Some(map_), o, c, "", None, None, 1.0)
  {
    hide Filter;
    var r := Row(Added(d.next), Config(Some(map_), o, c, "", None, None, 1.0));
    FilterAppend(d.rows, r, At(o, c));
    FilterAppend(d.rows, r, NotAt(o, c));
    FilterAppend(d.rows, r, StaticAt(o, c));
  }
}
