/** What the game makes of the exported table, cell by cell: one object's one column. */
module PlannerCells {
  import opened Options
  import opened OverrideTable
  import opened PlannerDiff

  predicate InCell(c: Config, objectId: int, column: string) { c.objectId == objectId && c.column == column }

  /** The rows of the cell the game loads on this map. */
  ghost function Loads(t: Table, map_: string, objectId: int, column: string): set<int>
  {
    set id | id in t.rows && InCell(t.rows[id], objectId, column) && Visible(t.rows[id], map_)
  }

  ghost predicate HasOwn(t: Table, map_: string, objectId: int, column: string)
  {
    exists id :: id in t.rows && InCell(t.rows[id], objectId, column) && t.rows[id].mapName == Some(map_)
  }

  /** Of those, the rows it keeps: when any belongs to the map, no global one. */
  ghost function Effective(t: Table, map_: string, objectId: int, column: string): set<int>
  {
    if HasOwn(t, map_, objectId, column) then
      set id | id in Loads(t, map_, objectId, column) && t.rows[id].mapName == Some(map_)
    else Loads(t, map_, objectId, column)
  }

  /** The rows of the cell the editor shows, by the ids that hold them after the export. */
  ghost function Shown(t: Table, original: seq<Row>, map_: string, current: seq<Row>, objectId: int,
                       column: string): set<int>
  {
    set i | 0 <= i < |current| && InCell(current[i].config, objectId, column) :: Home(t, original, map_, current, i)
  }

  ghost predicate ShowsOwn(original: seq<Row>, map_: string, current: seq<Row>, objectId: int, column: string)
  {
    exists i :: 0 <= i < |current| && InCell(current[i].config, objectId, column) && Own(original, map_, current[i])
  }

  /** Either all rows shown in the cell will be the map's own, or none will and no global row of the cell
      was removed. */
  ghost predicate CellAgrees(original: seq<Row>, map_: string, current: seq<Row>, objectId: int, column: string)
  {
    if ShowsOwn(original, map_, current, objectId, column) then
      forall i :: 0 <= i < |current| && InCell(current[i].config, objectId, column) ==> Own(original, map_, current[i])
    else
      forall j :: 0 <= j < |original| && InCell(original[j].config, objectId, column) && Global(original[j].config) ==>
                    Find(current, original[j].key) != None
  }

  lemma ExportedCell(t: Table, original: seq<Row>, map_: string, objects: set<int>, current: seq<Row>, i: nat,
                     objectId: int, column: string)
    requires Ready(t, original, map_, objects, current) && i < |current|
    ensures InCell(Exported(original, map_, current[i]), objectId, column) <==>
            InCell(current[i].config, objectId, column)
  {
    hide Find, Loaded, Edited;
  }

  /** After the export the map has rows of its own in the cell exactly when the editor shows some. */
  lemma OwnShown(t: Table, original: seq<Row>, map_: string, objects: set<int>, current: seq<Row>, objectId: int,
                 column: string)
    requires Ready(t, original, map_, objects, current) && objectId in objects
    ensures HasOwn(Final(t, original, map_, current), map_, objectId, column) <==>
            ShowsOwn(original, map_, current, objectId, column)
  {
    hide Ready, Own, Final, Home, Exported, InCell;
    var final := Final(t, original, map_, current);
    if HasOwn(final, map_, objectId, column) {
      var id :| id in final.rows && InCell(final.rows[id], objectId, column) && final.rows[id].mapName == Some(map_);
      CellObject(final.rows[id], objectId, column);
      var i := OwnFromEdited(t, original, map_, objects, current, id);
      RowExported(t, original, map_, objects, current, i);
      ExportedCell(t, original, map_, objects, current, i, objectId, column);
    }
    if ShowsOwn(original, map_, current, objectId, column) {
      var i :| 0 <= i < |current| && InCell(current[i].config, objectId, column) && Own(original, map_, current[i]);
      RowExported(t, original, map_, objects, current, i);
      ExportedCell(t, original, map_, objects, current, i, objectId, column);
    }
  }

  lemma CellObject(c: Config, objectId: int, column: string)
    requires InCell(c, objectId, column)
    ensures c.objectId == objectId
  {
  }

  /** Every effective row of the map's own is shown. */
  lemma OwnIsShown(t: Table, original: seq<Row>, map_: string, objects: set<int>, current: seq<Row>, objectId: int,
                   column: string, id: int)
    requires Ready(t, original, map_, objects, current) && objectId in objects
    requires var final := Final(t, original, map_, current);
             id in final.rows && InCell(final.rows[id], objectId, column) && final.rows[id].mapName == Some(map_)
    ensures id in Shown(t, original, map_, current, objectId, column)
  {
    hide Ready, Own, Final, Home, Exported, InCell;
    var final := Final(t, original, map_, current);
    CellObject(final.rows[id], objectId, column);
    var i := OwnFromEdited(t, original, map_, objects, current, id);
    RowExported(t, original, map_, objects, current, i);
    ExportedCell(t, original, map_, objects, current, i, objectId, column);
  }

  /** A shown row is effective unless it stays global beside one of the map's own. */
  lemma ShownEffective(t: Table, original: seq<Row>, map_: string, objects: set<int>, current: seq<Row>,
                       objectId: int, column: string, i: nat)
    requires Ready(t, original, map_, objects, current) && objectId in objects
    requires i < |current| && InCell(current[i].config, objectId, column)
    ensures Home(t, original, map_, current, i) in Effective(Final(t, original, map_, current), map_, objectId,
                                                             column) <==>
            Own(original, map_, current[i]) || !ShowsOwn(original, map_, current, objectId, column)
  {
    hide Ready, Own, Final, Home, Exported, InCell;
    RowExported(t, original, map_, objects, current, i);
    ExportedCell(t, original, map_, objects, current, i, objectId, column);
    ExportedVisible(t, original, map_, objects, current, i);
    OwnShown(t, original, map_, objects, current, objectId, column);
  }

  lemma ExportedVisible(t: Table, original: seq<Row>, map_: string, objects: set<int>, current: seq<Row>, i: nat)
    requires Ready(t, original, map_, objects, current) && i < |current|
    ensures Visible(Exported(original, map_, current[i]), map_)
  {
    hide Find, Loaded, Edited;
    RowFacts(t, original, map_, objects, current, i);
  }

  /** A global row of the cell, on a map without rows of its own there, is effective exactly if it was
      loaded, and shown exactly if it was not removed. */
  lemma GlobalEffective(t: Table, original: seq<Row>, map_: string, objects: set<int>, current: seq<Row>,
                        objectId: int, column: string, id: int)
    requires Ready(t, original, map_, objects, current) && objectId in objects
    requires !ShowsOwn(original, map_, current, objectId, column)
    requires id in Effective(Final(t, original, map_, current), map_, objectId, column)
    ensures id in t.rows && Find(original, Saved(id)) == Some(t.rows[id]) && Global(t.rows[id])
            && InCell(t.rows[id], objectId, column)
    ensures Find(current, Saved(id)) != None ==> id in Shown(t, original, map_, current, objectId, column)
  {
    hide Final, Edited, Find, Exported, Inserts;
    var final := Final(t, original, map_, current);
    OwnShown(t, original, map_, objects, current, objectId, column);
    assert id in final.rows && final.rows[id].mapName != Some(map_);
    OthersUntouched(t, original, map_, objects, current, id);
    if Find(current, Saved(id)) != None {
      var i := FindIndex(current, Saved(id));
      RowFacts(t, original, map_, objects, current, i);
      SavedCell(t, original, map_, objects, current, i);
      assert InCell(current[i].config, objectId, column);
      assert !Own(original, map_, current[i]);
      assert Home(t, original, map_, current, i) == id;
    }
  }

  lemma SavedCell(t: Table, original: seq<Row>, map_: string, objects: set<int>, current: seq<Row>, i: nat)
    requires Ready(t, original, map_, objects, current) && i < |current| && current[i].key.Saved?
    ensures current[i].key.id in t.rows
            && InCell(current[i].config, t.rows[current[i].key.id].objectId, t.rows[current[i].key.id].column)
  {
    hide Find;
    assert RowOk(original, map_, objects, current[i]);
    assert Find(original, Saved(current[i].key.id)) != None;
  }

  /** On this map the game applies to a cell exactly the rows the editor shows in it if and only if the
      cell agrees: a changed, added or scoped row shadows every unchanged global row of its cell, and a
      removed global row stays in force where nothing shadows it. */
  lemma GameAgrees(t: Table, original: seq<Row>, map_: string, objects: set<int>, current: seq<Row>, objectId: int,
                   column: string)
    requires Ready(t, original, map_, objects, current) && objectId in objects
    ensures Effective(Final(t, original, map_, current), map_, objectId, column) ==
            Shown(t, original, map_, current, objectId, column) <==>
            CellAgrees(original, map_, current, objectId, column)
  {
    if ShowsOwn(original, map_, current, objectId, column) {
      AgreesOwn(t, original, map_, objects, current, objectId, column);
    } else {
      AgreesGlobal(t, original, map_, objects, current, objectId, column);
    }
  }

  lemma AgreesOwn(t: Table, original: seq<Row>, map_: string, objects: set<int>, current: seq<Row>, objectId: int,
                  column: string)
    requires Ready(t, original, map_, objects, current) && objectId in objects
    requires ShowsOwn(original, map_, current, objectId, column)
    ensures Effective(Final(t, original, map_, current), map_, objectId, column) ==
            Shown(t, original, map_, current, objectId, column) <==>
            CellAgrees(original, map_, current, objectId, column)
  {
    hide Ready, Own, Final, Home, InCell, Visible, Find;
    var final := Final(t, original, map_, current);
    var effective, shown := Effective(final, map_, objectId, column),
                            Shown(t, original, map_, current, objectId, column);
    OwnShown(t, original, map_, objects, current, objectId, column);
    forall id | id in effective
      ensures id in shown { OwnIsShown(t, original, map_, objects, current, objectId, column, id); }
    forall i | 0 <= i < |current| && InCell(current[i].config, objectId, column)
      ensures Home(t, original, map_, current, i) in effective <==> Own(original, map_, current[i])
    {
      ShownEffective(t, original, map_, objects, current, objectId, column, i);
    }
  }

  lemma AgreesGlobal(t: Table, original: seq<Row>, map_: string, objects: set<int>, current: seq<Row>,
                     objectId: int, column: string)
    requires Ready(t, original, map_, objects, current) && objectId in objects
    requires !ShowsOwn(original, map_, current, objectId, column)
    ensures Effective(Final(t, original, map_, current), map_, objectId, column) ==
            Shown(t, original, map_, current, objectId, column) <==>
            CellAgrees(original, map_, current, objectId, column)
  {
    hide Ready, Own, Final, Home, InCell, Visible, Find, Effective;
    var final := Final(t, original, map_, current);
    var effective, shown := Effective(final, map_, objectId, column),
                            Shown(t, original, map_, current, objectId, column);
    forall i | 0 <= i < |current| && InCell(current[i].config, objectId, column)
      ensures Home(t, original, map_, current, i) in effective
    {
      ShownEffective(t, original, map_, objects, current, objectId, column, i);
    }
    if CellAgrees(original, map_, current, objectId, column) {
      forall id | id in effective ensures id in shown {
        GlobalEffective(t, original, map_, objects, current, objectId, column, id);
        var j := FindIndex(original, Saved(id));
        assert original[j].config == t.rows[id];
      }
    }
    if effective == shown {
      forall j | 0 <= j < |original| && InCell(original[j].config, objectId, column) && Global(original[j].config)
        ensures Find(current, original[j].key) != None
      {
        GlobalStays(t, original, map_, objects, current, objectId, column, j);
      }
    }
  }

  /** A removed global row is still effective, and is then not shown. */
  lemma GlobalStays(t: Table, original: seq<Row>, map_: string, objects: set<int>, current: seq<Row>,
                    objectId: int, column: string, j: nat)
    requires Ready(t, original, map_, objects, current) && objectId in objects
    requires !ShowsOwn(original, map_, current, objectId, column)
    requires j < |original| && InCell(original[j].config, objectId, column) && Global(original[j].config)
    ensures Find(current, original[j].key) == None ==>
              Effective(Final(t, original, map_, current), map_, objectId, column) != Shown(t, original, map_,
                                                                                            current, objectId, column)
  {
    hide Final, Edited, Find, Inserts, Own, Exported, Revised, ChangeOf;
    if Find(current, original[j].key) == None {
      var final := Final(t, original, map_, current);
      FindAt(original, j);
      var id := original[j].key.id;
      OriginalRow(t, original, map_, objects, id);
      OthersUntouched(t, original, map_, objects, current, id);
      OwnShown(t, original, map_, objects, current, objectId, column);
      assert id in Effective(final, map_, objectId, column);
      if id in Shown(t, original, map_, current, objectId, column) {
        var i :| 0 <= i < |current| && InCell(current[i].config, objectId, column)
                 && Home(t, original, map_, current, i) == id;
        RowFacts(t, original, map_, objects, current, i);
        assert false;
      }
    }
  }

  lemma OriginalRow(t: Table, original: seq<Row>, map_: string, objects: set<int>, id: int)
    requires Loaded(t, original, map_, objects) && Find(original, Saved(id)) != None
    ensures id in t.rows && Find(original, Saved(id)) == Some(t.rows[id]) && Visible(t.rows[id], map_) && id < t.next
  {
    hide Find;
  }
}
