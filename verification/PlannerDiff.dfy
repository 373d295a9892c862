/** The planner's difference of the edited rows against the loaded ones, and what running it leaves in the
    table and in the game. */
module PlannerDiff {
  import opened Options
  import opened OverrideTable

  /** The key of a row is the text of its id, or "new:" and a counter. */
  datatype Key = Saved(id: int) | Added(n: nat)

  datatype Row = Row(key: Key, config: Config)

  /** The last row with the key; keys are unique in both collections. */
  function Find(rows: seq<Row>, key: Key): Option<Config>
  {
    if rows == [] then None
    else
      var last := rows[|rows| - 1];
      if last.key == key then Some(last.config) else Find(rows[..|rows| - 1], key)
  }

  predicate Global(c: Config) { Nulled(c.mapName) == None }

  /** A row as the literals it is exported with are read back: empty texts are NULL and a zero weight is one. */
  function Cleaned(c: Config): Config
  {
    c.(mapName := Nulled(c.mapName), variantGroup := Nulled(c.variantGroup), variantId := Nulled(c.variantId),
    weight := if c.weight == 0.0 then 1.0 else c.weight)
  }

  datatype Change = Keep | Revise | Copy(config: Config)

  function ChangeOf(original: seq<Row>, map_: string, r: Row): Change
  {
    match Find(original, r.key)
    case None => Copy(Cleaned(r.config))
    case Some(o) =>
      if r.config == o then Keep
      else if Global(o) then Copy(Cleaned(r.config).(mapName := Some(map_)))
      else Revise
  }

  function IdOf(key: Key): int { match key case Saved(id) => id case Added(n) => n }

  function Inserts(original: seq<Row>, map_: string, current: seq<Row>): seq<Config>
  {
    if current == [] then []
    else
      var k := |current| - 1;
      Inserts(original, map_, current[..k]) +
      match ChangeOf(original, map_, current[k]) case Copy(c) => [c] case _ => []
  }

  function Updates(original: seq<Row>, map_: string, current: seq<Row>): seq<Statement>
  {
    if current == [] then []
    else
      var k := |current| - 1;
      Updates(original, map_, current[..k]) +
      if ChangeOf(original, map_, current[k]) == Revise then
        [Update(IdOf(current[k].key), Cleaned(current[k].config))] else []
  }

  function Deletes(original: seq<Row>, current: seq<Row>): seq<Statement>
  {
    if original == [] then []
    else
      var k := |original| - 1;
      Deletes(original[..k], current) +
      if Find(current, original[k].key) != None then []
      else [if Global(original[k].config) then Skipped(IdOf(original[k].key)) else Delete(IdOf(original[k].key))]
  }

  function Script(original: seq<Row>, map_: string, current: seq<Row>): seq<Statement>
  {
    var inserts := Inserts(original, map_, current);
    Deletes(original, current) + Updates(original, map_, current) + if inserts == [] then [] else [Insert(inserts)]
  }

  // ------------------------------------------------------------------ what loading and editing keep

  ghost predicate UniqueKeys(rows: seq<Row>) { forall i, j :: 0 <= i < j < |rows| ==> rows[i].key != rows[j].key }

  ghost predicate AllSaved(rows: seq<Row>) { forall i :: 0 <= i < |rows| ==> rows[i].key.Saved? }

  ghost predicate Visible(c: Config, map_: string) { c.mapName == None || c.mapName == Some(map_) }

  /** The planner holds exactly the rows of the map's objects that carry no map or this one. */
  ghost predicate Loaded(t: Table, original: seq<Row>, map_: string, objects: set<int>)
  {
    && IdsBelow(t) && UniqueKeys(original) && AllSaved(original)
    && forall id :: Find(original, Saved(id)) ==
                    if id in t.rows && t.rows[id].objectId in objects && Visible(t.rows[id], map_) then
                      Some(t.rows[id]) else None
  }

  /** Edits never move a loaded row to another cell or map, and new rows belong to this map. */
  ghost predicate RowOk(original: seq<Row>, map_: string, objects: set<int>, r: Row)
  {
    match r.key
    case Added(_) => r.config.mapName == Some(map_) && r.config.objectId in objects
    case Saved(_) =>
      match Find(original, r.key)
      case None => false
      case Some(o) => r.config.mapName == o.mapName && r.config.objectId == o.objectId && r.config.column == o.column
  }

  ghost predicate Edited(original: seq<Row>, map_: string, objects: set<int>, current: seq<Row>)
  {
    UniqueKeys(current) && forall i :: 0 <= i < |current| ==> RowOk(original, map_, objects, current[i])
  }

  lemma {:induction false} FindAt(rows: seq<Row>, i: nat)
    requires UniqueKeys(rows) && i < |rows|
    ensures Find(rows, rows[i].key) == Some(rows[i].config)
  {
    if i < |rows| - 1 { FindAt(rows[..|rows| - 1], i); }
  }

  lemma {:induction false} FindIndex(rows: seq<Row>, key: Key) returns (i: nat)
    requires Find(rows, key) != None
    ensures i < |rows| && rows[i].key == key && Find(rows, key) == Some(rows[i].config)
  {
    i := |rows| - 1;
    if rows[i].key != key { i := FindIndex(rows[..i], key); }
  }

  lemma {:induction false} FindNone(rows: seq<Row>, key: Key)
    requires forall i :: 0 <= i < |rows| ==> rows[i].key != key
    ensures Find(rows, key) == None
  {
    if rows != [] { FindNone(rows[..|rows| - 1], key); }
  }

  lemma PrefixUnique(rows: seq<Row>)
    requires UniqueKeys(rows) && rows != []
    ensures UniqueKeys(rows[..|rows| - 1])
    ensures Find(rows[..|rows| - 1], rows[|rows| - 1].key) == None
  {
    FindNone(rows[..|rows| - 1], rows[|rows| - 1].key);
  }

  // ---------------------------------------------------------------------------- running the script

  ghost predicate Doomed(original: seq<Row>, current: seq<Row>, id: int)
  {
    var o := Find(original, Saved(id));
    o != None && !Global(o.value) && Find(current, Saved(id)) == None
  }

  ghost predicate DeletesAt(t: Table, after: Table, original: seq<Row>, current: seq<Row>, id: int)
  {
    && after.next == t.next
    && (id in after.rows <==> id in t.rows && !Doomed(original, current, id))
    && (id in after.rows ==> after.rows[id] == t.rows[id])
  }

  lemma {:induction false} RunDeletes(t: Table, original: seq<Row>, current: seq<Row>, id: int)
    requires UniqueKeys(original) && AllSaved(original)
    ensures DeletesAt(t, Run(t, Deletes(original, current)), original, current, id)
    decreases |original|
  {
    hide DeletesAt, Find, UniqueKeys, AllSaved, Apply, Global;
    if original == [] {
      NoneDeleted(t, current, id);
    } else {
      var k := |original| - 1;
      var r := original[k];
      PrefixUnique(original);
      LastSaved(original);
      RunDeletes(t, original[..k], current, id);
      var before := Run(t, Deletes(original[..k], current));
      DeleteStep(t, before, original, current, id);
      if Find(current, r.key) == None {
        RunOne(t, Deletes(original[..k], current), if Global(r.config) then Skipped(r.key.id) else Delete(r.key.id));
      } else {
        assert Deletes(original, current) == Deletes(original[..k], current);
      }
    }
  }

  lemma NoneDeleted(t: Table, current: seq<Row>, id: int)
    ensures DeletesAt(t, t, [], current, id)
  {
  }

  lemma LastSaved(rows: seq<Row>)
    requires AllSaved(rows) && rows != []
    ensures rows[|rows| - 1].key.Saved? && AllSaved(rows[..|rows| - 1])
  {
  }

  lemma DeleteStep(t: Table, before: Table, original: seq<Row>, current: seq<Row>, id: int)
    requires original != [] && original[|original| - 1].key.Saved?
    requires Find(original[..|original| - 1], original[|original| - 1].key) == None
    requires DeletesAt(t, before, original[..|original| - 1], current, id)
    ensures var r := original[|original| - 1];
            var after := if Find(current, r.key) != None then before
                         else Apply(before, if Global(r.config) then Skipped(r.key.id) else Delete(r.key.id));
            DeletesAt(t, after, original, current, id)
  {
    hide Global;
    var k := |original| - 1;
    assert Find(original, Saved(id)) == if original[k].key == Saved(id) then Some(original[k].config)
                                        else Find(original[..k], Saved(id));
  }

  /** What the row becomes under the updates. */
  ghost function Revised(original: seq<Row>, map_: string, current: seq<Row>, id: int, was: Config): Config
  {
    match Find(current, Saved(id))
    case None => was
    case Some(c) => if ChangeOf(original, map_, Row(Saved(id), c)) == Revise then Updated(was, Cleaned(c)) else was
  }

  lemma {:induction false} RunUpdates(t: Table, original: seq<Row>, map_: string, current: seq<Row>, id: int)
    requires AllSaved(original) && UniqueKeys(current)
    ensures var after := Run(t, Updates(original, map_, current));
            && after.next == t.next
            && (id in after.rows <==> id in t.rows)
            && (id in after.rows ==> after.rows[id] == Revised(original, map_, current, id, t.rows[id]))
    decreases |current|
  {
    hide Cleaned, Updated, Global, ChangeOf, Find, UniqueKeys, AllSaved, Revised, Run;
    if current == [] {
      NoneRevised(t, original, map_, id);
    } else {
      var k := |current| - 1;
      var r := current[k];
      PrefixUnique(current);
      RunUpdates(t, original, map_, current[..k], id);
      if id in t.rows { RevisedLast(original, map_, current, id, t.rows[id]); }
      if ChangeOf(original, map_, r) == Revise {
        ReviseNeedsSaved(original, map_, r);
        RunOne(t, Updates(original, map_, current[..k]), Update(IdOf(r.key), Cleaned(r.config)));
      } else {
        assert Updates(original, map_, current) == Updates(original, map_, current[..k]);
      }
    }
  }

  lemma NoneRevised(t: Table, original: seq<Row>, map_: string, id: int)
    ensures Run(t, Updates(original, map_, [])) == t
    ensures forall was :: Revised(original, map_, [], id, was) == was
  {
  }

  lemma ReviseNeedsSaved(original: seq<Row>, map_: string, r: Row)
    requires AllSaved(original) && ChangeOf(original, map_, r) == Revise
    ensures r.key.Saved?
  {
    hide Find, Global, AllSaved;
    OnlySavedFound(original, r.key);
  }

  /** The last row decides its own id and no other. */
  lemma RevisedLast(original: seq<Row>, map_: string, current: seq<Row>, id: int, was: Config)
    requires current != [] && Find(current[..|current| - 1], current[|current| - 1].key) == None
    ensures var r, front := current[|current| - 1], current[..|current| - 1];
            Revised(original, map_, current, id, was)
            == if r.key != Saved(id) then Revised(original, map_, front, id, was)
            else if ChangeOf(original, map_, r) == Revise then
              Updated(Revised(original, map_, front, id, was), Cleaned(r.config))
            else Revised(original, map_, front, id, was)
  {
    hide ChangeOf, Updated, Cleaned;
    var r := current[|current| - 1];
    assert r == Row(r.key, r.config);
  }

  lemma {:induction false} OnlySavedFound(rows: seq<Row>, key: Key)
    requires AllSaved(rows) && Find(rows, key) != None
    ensures key.Saved?
  {
    var i := FindIndex(rows, key);
  }

  /** The table after the export has been run. */
  ghost function Final(t: Table, original: seq<Row>, map_: string, current: seq<Row>): Table
  {
    Run(t, Script(original, map_, current))
  }

  /** The table after the export, id by id. */
  lemma FinalAt(t: Table, original: seq<Row>, map_: string, current: seq<Row>, id: int)
    requires IdsBelow(t) && UniqueKeys(original) && AllSaved(original) && UniqueKeys(current)
    ensures var final, inserts := Final(t, original, map_, current), Inserts(original, map_, current);
            && (id in final.rows <==>
                (id in t.rows && !Doomed(original, current, id)) || t.next <= id < t.next + |inserts|)
            && (id in t.rows && id in final.rows ==> final.rows[id] == Revised(original, map_, current, id, t.rows[id]))
            && (t.next <= id < t.next + |inserts| ==> final.rows[id] == inserts[id - t.next])
  {
    hide Deletes, Updates, Inserts, Doomed, Revised, Global, Cleaned, UniqueKeys, AllSaved, Find;
    var d, u, inserts := Deletes(original, current), Updates(original, map_, current), Inserts(original, map_, current);
    var t1 := Run(t, d);
    var t2 := Run(t1, u);
    RunAppend(t, d, u);
    RunDeletes(t, original, current, id);
    RunUpdates(t1, original, map_, current, id);
    forall i | i in t2.rows ensures i < t2.next {
      RunDeletes(t, original, current, i);
      RunUpdates(t1, original, map_, current, i);
    }
    InsertedAt(t2.rows, t2.next, inserts, id);
    if inserts == [] {
      assert Script(original, map_, current) == d + u;
    } else {
      RunOne(t, d + u, Insert(inserts));
    }
  }

  // --------------------------------------------------------------------------- where each row ends up

  /** The id that holds an edited row after the export. */
  ghost function Home(t: Table, original: seq<Row>, map_: string, current: seq<Row>, i: nat): int
    requires i < |current|
  {
    if ChangeOf(original, map_, current[i]).Copy? then t.next + |Inserts(original, map_, current[..i])|
    else IdOf(current[i].key)
  }

  /** All edited rows but the unchanged global ones are the map's own after the export. */
  ghost predicate Own(original: seq<Row>, map_: string, r: Row)
  {
    ChangeOf(original, map_, r) == Keep ==> !Global(r.config)
  }

  ghost function Exported(original: seq<Row>, map_: string, r: Row): Config
  {
    if ChangeOf(original, map_, r) == Keep then r.config else Cleaned(r.config).(mapName := Some(map_))
  }

  lemma {:induction false} InsertAt(original: seq<Row>, map_: string, current: seq<Row>, i: nat)
    requires i < |current| && ChangeOf(original, map_, current[i]).Copy?
    ensures var at := |Inserts(original, map_, current[..i])|;
            at < |Inserts(original, map_, current)|
            && Inserts(original, map_, current)[at] == ChangeOf(original, map_, current[i]).config
    decreases |current|
  {
    hide ChangeOf;
    var k := |current| - 1;
    if i < k {
      InsertAt(original, map_, current[..k], i);
      assert current[..k][..i] == current[..i];
    }
  }

  lemma {:induction false} InsertFrom(original: seq<Row>, map_: string, current: seq<Row>, at: nat) returns (i: nat)
    requires at < |Inserts(original, map_, current)|
    ensures i < |current| && ChangeOf(original, map_, current[i]).Copy? && |Inserts(original, map_, current[..i])| == at
    decreases |current|
  {
    hide ChangeOf;
    var k := |current| - 1;
    if at < |Inserts(original, map_, current[..k])| {
      i := InsertFrom(original, map_, current[..k], at);
      assert current[..k][..i] == current[..i];
    } else {
      i := k;
    }
  }

  lemma {:induction false} InsertsGrow(original: seq<Row>, map_: string, current: seq<Row>, i: nat, j: nat)
    requires i < j <= |current| && ChangeOf(original, map_, current[i]).Copy?
    ensures |Inserts(original, map_, current[..i])| < |Inserts(original, map_, current[..j])|
    decreases j
  {
    hide ChangeOf;
    assert current[..j][..j - 1] == current[..j - 1];
    if i < j - 1 { InsertsGrow(original, map_, current, i, j - 1); }
  }

  ghost predicate Ready(t: Table, original: seq<Row>, map_: string, objects: set<int>, current: seq<Row>)
  {
    map_ != "" && Loaded(t, original, map_, objects) && Edited(original, map_, objects, current)
  }

  /** What is known of one edited row. */
  lemma RowFacts(t: Table, original: seq<Row>, map_: string, objects: set<int>, current: seq<Row>, i: nat)
    requires Ready(t, original, map_, objects, current) && i < |current|
    ensures var r, change := current[i], ChangeOf(original, map_, current[i]);
            && r.config.objectId in objects && Visible(r.config, map_)
            && Find(current, r.key) == Some(r.config)
            && (!change.Copy? ==> r.key.Saved? && r.key.id in t.rows && r.key.id < t.next)
            && (change == Keep ==> t.rows[r.key.id] == r.config == Exported(original, map_, r))
            && (change == Revise ==>
                  !Global(t.rows[r.key.id])
                  && Updated(t.rows[r.key.id], Cleaned(r.config)) == Exported(original, map_, r))
            && (change.Copy? ==> change.config == Exported(original, map_, r))
            && (r.key.Saved? ==> Find(original, r.key) == Some(t.rows[r.key.id]))
  {
    hide Find, UniqueKeys, AllSaved;
    FindAt(current, i);
    var r := current[i];
    assert RowOk(original, map_, objects, r);
    if r.key.Saved? {
      assert Find(original, Saved(r.key.id)) != None;
    } else if Find(original, r.key) != None {
      OnlySavedFound(original, r.key);
    }
  }

  /** No row of another map, and no global row, is changed, deleted or added. */
  lemma OthersUntouched(t: Table, original: seq<Row>, map_: string, objects: set<int>, current: seq<Row>, id: int)
    requires Ready(t, original, map_, objects, current)
    ensures var final := Final(t, original, map_, current);
            && ((id in final.rows && final.rows[id].mapName != Some(map_)) <==>
                (id in t.rows && t.rows[id].mapName != Some(map_)))
            && (id in t.rows && t.rows[id].mapName != Some(map_) ==> final.rows[id] == t.rows[id])
  {
    hide Find, Inserts, UniqueKeys, AllSaved, Final, Edited, ChangeOf, Exported;
    ReadyParts(t, original, map_, objects, current);
    FinalAt(t, original, map_, current, id);
    var inserts := Inserts(original, map_, current);
    if t.next <= id < t.next + |inserts| {
      NewRowsScoped(t, original, map_, objects, current, id - t.next);
    } else if id in t.rows {
      RevisedScoped(t, original, map_, objects, current, id);
    }
  }

  lemma NewRowsScoped(t: Table, original: seq<Row>, map_: string, objects: set<int>, current: seq<Row>, at: nat)
    requires Ready(t, original, map_, objects, current) && at < |Inserts(original, map_, current)|
    ensures Inserts(original, map_, current)[at].mapName == Some(map_)
  {
    hide Find, Inserts, UniqueKeys, AllSaved, Loaded, Edited, ChangeOf;
    var i := InsertFrom(original, map_, current, at);
    InsertAt(original, map_, current, i);
    RowFacts(t, original, map_, objects, current, i);
    CopyScoped(original, map_, current[i]);
  }

  lemma CopyScoped(original: seq<Row>, map_: string, r: Row)
    requires ChangeOf(original, map_, r).Copy?
    ensures Exported(original, map_, r).mapName == Some(map_)
  {
  }

  lemma RevisedScoped(t: Table, original: seq<Row>, map_: string, objects: set<int>, current: seq<Row>, id: int)
    requires Ready(t, original, map_, objects, current) && id in t.rows
    ensures Revised(original, map_, current, id, t.rows[id]) != t.rows[id] ==>
              t.rows[id].mapName == Some(map_) && Revised(original, map_, current, id, t.rows[id]).mapName == Some(map_)
  {
    hide Find, Inserts, UniqueKeys, AllSaved;
    if Find(current, Saved(id)) != None {
      var i := FindIndex(current, Saved(id));
      RowFacts(t, original, map_, objects, current, i);
      assert current[i] == Row(Saved(id), current[i].config);
    }
  }

  /** Every edited row is in the table once the export has run: in its own place or, if it was new or
      global, in a new one. */
  lemma RowExported(t: Table, original: seq<Row>, map_: string, objects: set<int>, current: seq<Row>, i: nat)
    requires Ready(t, original, map_, objects, current) && i < |current|
    ensures var final, home := Final(t, original, map_, current), Home(t, original, map_, current, i);
            && home in final.rows && final.rows[home] == Exported(original, map_, current[i])
            && (final.rows[home].mapName == Some(map_) <==> Own(original, map_, current[i]))
  {
    hide Find, Inserts, UniqueKeys, AllSaved, Final, Loaded, Edited, ChangeOf, Exported, Updated, Cleaned;
    var home := Home(t, original, map_, current, i);
    ReadyParts(t, original, map_, objects, current);
    FinalAt(t, original, map_, current, home);
    RowFacts(t, original, map_, objects, current, i);
    if ChangeOf(original, map_, current[i]).Copy? {
      InsertAt(original, map_, current, i);
    } else {
      assert current[i] == Row(Saved(home), current[i].config);
    }
    OwnScoped(t, original, map_, objects, current, i);
  }

  lemma ReadyParts(t: Table, original: seq<Row>, map_: string, objects: set<int>, current: seq<Row>)
    requires Ready(t, original, map_, objects, current)
    ensures IdsBelow(t) && UniqueKeys(original) && AllSaved(original) && UniqueKeys(current) && map_ != ""
  {
  }

  lemma OwnScoped(t: Table, original: seq<Row>, map_: string, objects: set<int>, current: seq<Row>, i: nat)
    requires Ready(t, original, map_, objects, current) && i < |current|
    ensures Exported(original, map_, current[i]).mapName == Some(map_) <==> Own(original, map_, current[i])
  {
    hide Find, Loaded, Edited;
    RowFacts(t, original, map_, objects, current, i);
  }

  /** No two edited rows end up in one place. */
  lemma HomesApart(t: Table, original: seq<Row>, map_: string, objects: set<int>, current: seq<Row>, i: nat, j: nat)
    requires Ready(t, original, map_, objects, current) && i < j < |current|
    ensures Home(t, original, map_, current, i) != Home(t, original, map_, current, j)
  {
    hide Find, Inserts, AllSaved, Loaded, ChangeOf, Exported;
    RowFacts(t, original, map_, objects, current, i);
    RowFacts(t, original, map_, objects, current, j);
    assert current[i].key != current[j].key by { KeysDiffer(current, i, j); }
    if ChangeOf(original, map_, current[i]).Copy? { InsertsGrow(original, map_, current, i, j); }
  }

  lemma KeysDiffer(rows: seq<Row>, i: nat, j: nat)
    requires UniqueKeys(rows) && i < j < |rows|
    ensures rows[i].key != rows[j].key
  {
  }

  /** And every row the map has on its objects after the export is an edited one. */
  lemma OwnFromEdited(t: Table, original: seq<Row>, map_: string, objects: set<int>, current: seq<Row>, id: int)
    returns (i: nat)
    requires Ready(t, original, map_, objects, current)
    requires id in Final(t, original, map_, current).rows
    requires var c := Final(t, original, map_, current).rows[id]; c.mapName == Some(map_) && c.objectId in objects
    ensures i < |current| && Own(original, map_, current[i]) && Home(t, original, map_, current, i) == id
  {
    hide Find, Inserts, UniqueKeys, AllSaved, Final, Edited;
    ReadyParts(t, original, map_, objects, current);
    FinalAt(t, original, map_, current, id);
    var inserts := Inserts(original, map_, current);
    if t.next <= id < t.next + |inserts| {
      i := InsertFrom(original, map_, current, id - t.next);
    } else {
      assert Find(original, Saved(id)) == Some(t.rows[id]);
      assert Find(current, Saved(id)) != None;
      i := FindIndex(current, Saved(id));
      RowFacts(t, original, map_, objects, current, i);
    }
  }

  /** A row is exported exactly as edited if and only if it is unchanged or has a weight other than zero
      and no empty variant name; a changed global row becomes the map's own. */
  lemma ExportedAsEdited(t: Table, original: seq<Row>, map_: string, objects: set<int>, current: seq<Row>, i: nat)
    requires Ready(t, original, map_, objects, current) && i < |current|
    requires Own(original, map_, current[i])
    ensures var c := current[i].config;
            Exported(original, map_, current[i]) == c.(mapName := Some(map_)) <==>
            ChangeOf(original, map_, current[i]) == Keep
            || (c.weight != 0.0 && c.variantGroup != Some("") && c.variantId != Some(""))
  {
    hide Find, Loaded, Edited;
    RowFacts(t, original, map_, objects, current, i);
  }
}
