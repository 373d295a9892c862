/** The planner page's state and its handlers (tools/map_planner.py). */
module MapPlanner {
  import opened Options
  import opened OverrideTable
  import opened PlannerDiff
  import opened PlannerEdits

  class Planner {
    const mapName: string
    const objects: set<int>
    const original: seq<Row>
    var current: seq<Row>
    var nextNewKey: nat

    ghost function Edits(): Draft
      reads this
    {
      Draft(current, nextNewKey)
    }

    ghost predicate Valid()
      reads this
    {
      mapName != "" && UniqueKeys(original) && DraftOk(original, mapName, objects, Edits())
    }

    /** The page as loaded from the table. */
    constructor (mapName: string, objects: set<int>, overrides: seq<Row>, ghost t: Table)
      requires mapName != "" && Loaded(t, overrides, mapName, objects)
      ensures Valid() && this.mapName == mapName && this.objects == objects && original == overrides
      ensures Edits() == Draft(overrides, 1)
    {
      LoadedOk(t, overrides, mapName, objects);
      this.mapName, this.objects, original, current, nextNewKey := mapName, objects, overrides, overrides, 1;
    }

    method AddRow(o: int, c: string, value: string, group: Option<string>, variantId: Option<string>)
      requires Valid() && o in objects
      modifies this
      ensures Valid() && Edits() == With(old(Edits()), mapName, o, c, value, group, variantId)
    {
      hide DraftOk;
      WithOk(original, mapName, objects, Edits(), o, c, value, group, variantId);
      current := current + [Row(Added(nextNewKey), Config(Some(mapName), o, c, value, group, variantId, 1.0))];
      nextNewKey := nextNewKey + 1;
    }

    method RemoveRow(key: Key)
      requires Valid()
      modifies this`current
      ensures Valid() && Edits() == Step(old(Edits()), mapName, Remove(key))
    {
      hide DraftOk;
      FilterOk(original, mapName, objects, Edits(), KeyNot(key));
      current := Select(current, KeyNot(key));
    }

    /** The rows a predicate picks, in order. */
    static method Select(rows: seq<Row>, p: Row -> bool) returns (out: seq<Row>)
      ensures out == Filter(rows, p)
    {
      out := [];
      for i := 0 to |rows|
        invariant out == Filter(rows[..i], p)
      {
        assert rows[..i + 1][..i] == rows[..i];
        if p(rows[i]) { out := out + [rows[i]]; }
      }
      assert rows[..|rows|] == rows;
    }

    /** removeRow for each row of the cell. */
    method RemoveCell(cellRows: seq<Row>, o: int, c: string)
      requires Valid() && cellRows == Cell(current, o, c)
      modifies this`current
      ensures Valid() && Edits() == old(Edits()).(rows := Outside(old(current), o, c))
    {
      hide DraftOk, Filter, At, NotAt, KeyNot;
      ghost var before := current;
      DraftUnique(original, mapName, objects, Edits());
      NoneLeftOut(before);
      for i := 0 to |cellRows|
        invariant Valid() && nextNewKey == old(nextNewKey)
        invariant current == Filter(before, NotAmong(cellRows[..i]))
      {
        OneMoreOut(before, cellRows[..i], cellRows[i]);
        assert cellRows[..i + 1] == cellRows[..i] + [cellRows[i]];
        RemoveRow(cellRows[i].key);
      }
      assert cellRows[..|cellRows|] == cellRows;
      CellOut(before, o, c);
    }

    method SwitchMode(o: int, c: string, mode: Mode)
      requires Valid() && o in objects
      modifies this
      ensures Valid() && Edits() == Switched(old(Edits()), mapName, o, c, mode)
      ensures Outside(current, o, c) == Outside(old(current), o, c)
    {
      hide DraftOk, Filter, At, NotAt, StaticAt, VariantAt, KeyNot, With;
      ghost var d := Edits();
      DraftUnique(original, mapName, objects, d);
      SwitchLocal(d, mapName, o, c, mode);
      RedrawAddsNothing(d, mapName, o, c, mode);
      if mode == NoOverride {
        var cellRows := Select(current, At(o, c));
        RemoveCell(cellRows, o, c);
      } else if mode == Static {
        var cellRows := Select(current, At(o, c));
        var seed := if cellRows == [] then "" else cellRows[0].config.value;
        RemoveCell(cellRows, o, c);
        AddRow(o, c, seed, None, None);
      } else {
        Promote(o, c);
      }
      DrawBody(o, c, mode);
    }

    method Promote(o: int, c: string)
      requires Valid() && o in objects
      modifies this
      ensures Valid() && Edits() == Promoted(old(Edits()), mapName, o, c)
    {
      hide DraftOk, Filter, At, StaticAt, VariantAt, KeyNot, With;
      var seed := "";
      var statics := Select(current, StaticAt(o, c));
      if statics != [] {
        seed := statics[0].config.value;
        RemoveRow(statics[0].key);
      }
      var variants := Select(current, VariantAt(o, c));
      if variants == [] {
        AddRow(o, c, seed, Some("pool"), Some("v1"));
      }
    }

    method DrawBody(o: int, c: string, mode: Mode)
      requires Valid() && o in objects
      modifies this
      ensures Valid() && Edits() == Drawn(old(Edits()), mapName, o, c, mode)
    {
      hide DraftOk, Filter, At, StaticAt, VariantAt, KeyNot, With;
      if mode == Static {
        var statics := Select(current, StaticAt(o, c));
        if statics == [] { AddRow(o, c, "", None, None); }
      } else if mode == Variant {
        var variants := Select(current, VariantAt(o, c));
        if variants == [] { Promote(o, c); }
      }
    }

    /** Typing into a field of a row, or into the group field of a cell. */
    method Retype(e: Edit)
      requires Valid() && (e.SetValue? || e.SetVariantId? || e.SetWeight? || e.RenameGroup?) && OnPage(e, objects)
      modifies this`current
      ensures Valid() && Edits() == Step(old(Edits()), mapName, e)
    {
      hide DraftOk, Changed, Valued, Identified, Weighted, Regrouped, With, Promoted, Switched, Drawn;
      StepOk(original, mapName, objects, Edits(), e);
      var change := match e
        case SetValue(key, v) => Valued(key, v)
        case SetVariantId(key, v) => Identified(key, v)
        case SetWeight(key, w) => Weighted(key, w)
        case RenameGroup(o, c, g) => Regrouped(o, c, g);
      current := Rewrite(current, change);
    }

    /** Any edit, as its handler makes it. */
    method Perform(e: Edit)
      requires Valid() && OnPage(e, objects)
      modifies this
      ensures Valid() && Edits() == Step(old(Edits()), mapName, e)
    {
      hide DraftOk, Filter, Changed, With, Promoted, Switched, Drawn;
      match e {
        case Remove(key) => RemoveRow(key);
        case AddVariant(o, c, g, v) => AddRow(o, c, "", Some(if g == "" then "pool" else g), Some(v));
        case Switch(o, c, mode) => SwitchMode(o, c, mode);
        case Draw(o, c, mode) => DrawBody(o, c, mode);
        case _ => Retype(e);
      }
    }

    static method Rewrite(rows: seq<Row>, change: Row -> Config) returns (out: seq<Row>)
      ensures out == Changed(rows, change)
    {
      out := rows;
      for i := 0 to |rows|
        invariant |out| == |rows|
        invariant forall j :: 0 <= j < |rows| ==> out[j] == if j < i then Row(rows[j].key, change(rows[j])) else rows[j]
      {
        out := out[i := Row(rows[i].key, change(rows[i]))];
      }
    }

    /** generateSql, with the counts its summary shows; comments for rows it will not delete count as
        deletes. */
    method GenerateSql() returns (script: seq<Statement>, inserted: nat, updated: nat, deleted: nat)
      requires Valid()
      ensures script == Script(original, mapName, current)
      ensures inserted == |Inserts(original, mapName, current)| && updated == |Updates(original, mapName, current)|
      ensures deleted == |Deletes(original, current)|
    {
      hide DraftOk, Cleaned, Global, Find, UniqueKeys;
      var inserts: seq<Config>, updates: seq<Statement>, deletes: seq<Statement> := [], [], [];
      for i := 0 to |current|
        invariant inserts == Inserts(original, mapName, current[..i])
        invariant updates == Updates(original, mapName, current[..i])
      {
        assert current[..i + 1][..i] == current[..i];
        var r := current[i];
        var orig := Find(original, r.key);
        if orig == None {
          inserts := inserts + [Cleaned(r.config)];
        } else if r.config != orig.value {
          if Global(orig.value) {
            inserts := inserts + [Cleaned(r.config).(mapName := Some(mapName))];
          } else {
            updates := updates + [Update(IdOf(r.key), Cleaned(r.config))];
          }
        }
      }
      assert current[..|current|] == current;
      for i := 0 to |original|
        invariant deletes == Deletes(original[..i], current)
      {
        assert original[..i + 1][..i] == original[..i];
        var o := original[i];
        if Find(current, o.key) == None {
          deletes := deletes + [if Global(o.config) then Skipped(IdOf(o.key)) else Delete(IdOf(o.key))];
        }
      }
      assert original[..|original|] == original;
      script := deletes + updates;
      if inserts != [] {
        script := script + [Insert(inserts)];
      }
      return script, |inserts|, |updates|, |deletes|;
    }
  }

  lemma DraftUnique(original: seq<Row>, map_: string, objects: set<int>, d: Draft)
    requires DraftOk(original, map_, objects, d)
    ensures UniqueKeys(d.rows)
  {
  }

  ghost function NotAmong(rows: seq<Row>): Row -> bool { (r: Row) => forall i :: 0 <= i < |rows| ==>
                                                                                   rows[i].key != r.key }

  lemma {:induction false} NoneLeftOut(rows: seq<Row>)
    ensures Filter(rows, NotAmong([])) == rows
  {
    if rows != [] { NoneLeftOut(rows[..|rows| - 1]); }
  }

  lemma OneMoreOut(rows: seq<Row>, out: seq<Row>, r: Row)
    ensures Filter(Filter(rows, NotAmong(out)), KeyNot(r.key)) == Filter(rows, NotAmong(out + [r]))
  {
    hide Filter;
    var p, q := NotAmong(out), KeyNot(r.key);
    FilterTwice(rows, p, q);
    forall i | 0 <= i < |rows| ensures (p(rows[i]) && q(rows[i])) == NotAmong(out + [r])(rows[i]) {
      assert (out + [r])[|out|] == r;
      forall j | 0 <= j < |out| ensures (out + [r])[j] == out[j] {}
    }
    FilterSame(rows, (x: Row) => p(x) && q(x), NotAmong(out + [r]));
  }

  /** Leaving out the keys of a cell's rows leaves out the cell. */
  lemma CellOut(rows: seq<Row>, o: int, c: string)
    requires UniqueKeys(rows)
    ensures Filter(rows, NotAmong(Cell(rows, o, c))) == Outside(rows, o, c)
  {
    hide Filter;
    var cell := Cell(rows, o, c);
    forall i | 0 <= i < |rows| ensures NotAmong(cell)(rows[i]) == NotAt(o, c)(rows[i]) {
      if At(o, c)(rows[i]) {
        FilterHas(rows, At(o, c), i);
      } else {
        forall j | 0 <= j < |cell| ensures cell[j].key != rows[i].key { FilterMember(rows, At(o, c), j); }
      }
    }
    FilterSame(rows, NotAmong(cell), NotAt(o, c));
  }
}
