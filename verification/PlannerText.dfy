/** The text of the exported INSERT tuples and UPDATE statements, and what SQL reads in it. */
module PlannerText {
  import opened Options
  import opened OverrideTable
  import opened PlannerDiff

  /** How JavaScript writes integers and weights; all that matters is that it writes numbers. */
  datatype Digits = Digits(ofInt: int -> string, ofReal: real -> string)

  ghost predicate Sound(d: Digits) { (forall n :: IsNumber(d.ofInt(n))) && forall w :: IsNumber(d.ofReal(w)) }

  function Weight(c: Config): real { if c.weight == 0.0 then 1.0 else c.weight }

  /** The fields of an INSERT tuple. */
  function TupleFields(c: Config, d: Digits): seq<Field>
  {
    [Nullable(c.mapName), Number(d.ofInt(c.objectId)), Text(c.column), Text(c.value),
     Nullable(c.variantGroup), Nullable(c.variantId), Number(d.ofReal(Weight(c)))]
  }

  /** The fields an UPDATE sets. */
  function SetFields(c: Config, d: Digits): seq<Field>
  {
    [Nullable(c.mapName), Text(c.value), Nullable(c.variantGroup), Nullable(c.variantId), Number(d.ofReal(Weight(c)))]
  }

  const SET_NAMES := ["map_name", "value", "variant_group", "variant_id", "weight"]

  /** A row's columns as SQL holds them. */
  function ValueOf(v: Option<string>): Value { match v case None => Null case Some(s) => Str(s) }

  function TupleValues(c: Config, d: Digits): seq<Value>
  {
    [ValueOf(c.mapName), Num(d.ofInt(c.objectId)), Str(c.column), Str(c.value),
     ValueOf(c.variantGroup), ValueOf(c.variantId), Num(d.ofReal(c.weight))]
  }

  function SetValues(c: Config, d: Digits): seq<Value>
  {
    [ValueOf(c.mapName), Str(c.value), ValueOf(c.variantGroup), ValueOf(c.variantId), Num(d.ofReal(c.weight))]
  }

  lemma {:induction false} MeaningsAt(fields: seq<Field>, i: nat)
    requires i < |fields|
    ensures Meanings(fields)[i] == Meaning(fields[i])
  {
    if i > 0 { MeaningsAt(fields[1..], i - 1); }
  }

  lemma SameMeanings(fields: seq<Field>, values: seq<Value>)
    requires |fields| == |values| && forall i :: 0 <= i < |fields| ==> Meaning(fields[i]) == values[i]
    ensures Meanings(fields) == values
  {
    hide Meaning, Meanings;
    forall i | 0 <= i < |fields| ensures Meanings(fields)[i] == values[i] { MeaningsAt(fields, i); }
  }

  /** An exported tuple is read as the cleaned row. */
  lemma TupleMeansRow(c: Config, d: Digits, rest: string)
    requires Sound(d)
    ensures ScanTuple(Tuple(TupleFields(c, d)) + rest, 7) == Some((TupleValues(Cleaned(c), d), rest))
  {
    hide Tuple, ScanTuple, Meanings;
    var fields := TupleFields(c, d);
    TupleScans(fields, rest);
    SameMeanings(fields, TupleValues(Cleaned(c), d));
  }

  // ---------------------------------------------------------------------------------- UPDATE

  /** "name = literal, ... name = literal WHERE id = ..." */
  function SetText(names: seq<string>, fields: seq<Field>): string
    requires |names| == |fields|
  {
    if names == [] then ""
    else names[0] + " = " + Literal(fields[0]) + if |names| == 1 then " " else ", " + SetText(names[1..], fields[1..])
  }

  function ScanSet(text: string, names: seq<string>): Option<(seq<Value>, string)>
    decreases |names|
  {
    if names == [] then Some(([], text))
    else if !(names[0] + " = " <= text) then None
    else
      match Scan(text[|names[0]| + 3..])
      case None => None
      case Some(first) =>
        var gap := Gap(names);
        if !(gap <= first.1) then None
        else
          match ScanSet(first.1[|gap|..], names[1..])
          case None => None
          case Some(others) => Some(([first.0] + others.0, others.1))
  }

  lemma {:induction false} SetScans(names: seq<string>, fields: seq<Field>, rest: string)
    requires |names| == |fields| && forall i :: 0 <= i < |fields| ==> Writable(fields[i])
    ensures ScanSet(SetText(names, fields) + rest, names) == Some((Meanings(fields), rest))
    decreases |names|
  {
    hide Literal, Scan, Meaning, Writable;
    if names == [] {
      assert SetText(names, fields) + rest == rest;
    } else {
      var tail := SetText(names[1..], fields[1..]) + rest;
      SetScans(names[1..], fields[1..], rest);
      SetHead(names, fields, rest);
      var gap := Gap(names);
      After(names[0] + " = ", Literal(fields[0]) + (gap + tail));
      LiteralScans(fields[0], gap + tail);
      After(gap, tail);
    }
  }

  function Gap(names: seq<string>): string { if |names| == 1 then " " else ", " }

  lemma After(head: string, tail: string)
    ensures head <= head + tail && (head + tail)[|head|..] == tail
    ensures head != "" ==> head + tail != "" && (head + tail)[0] == head[0]
  {
  }

  lemma SetHead(names: seq<string>, fields: seq<Field>, rest: string)
    requires |names| == |fields| && names != []
    ensures SetText(names, fields) + rest ==
            (names[0] + " = ") + (Literal(fields[0]) + (Gap(names) + (SetText(names[1..], fields[1..]) + rest)))
    ensures |names[0] + " = "| == |names[0]| + 3 && (Gap(names)[0] == ' ' || Gap(names)[0] == ',')
  {
    hide Literal;
    assert |names| == 1 ==> SetText(names[1..], fields[1..]) == "";
  }

  /** An exported UPDATE sets the columns of the cleaned row, and its WHERE follows. */
  lemma UpdateMeansRow(c: Config, d: Digits, rest: string)
    requires Sound(d)
    ensures ScanSet(SetText(SET_NAMES, SetFields(c, d)) + rest, SET_NAMES) == Some((SetValues(Cleaned(c), d), rest))
  {
    hide SetText, ScanSet, Meanings;
    var fields := SetFields(c, d);
    SetScans(SET_NAMES, fields, rest);
    SameMeanings(fields, SetValues(Cleaned(c), d));
  }
}
