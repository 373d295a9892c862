/** The map_object_config table, the statements the planner exports and what running them does. */
module OverrideTable {
  import opened Options

  /** A row without its id. */
  datatype Config = Config(mapName: Option<string>, objectId: int, column: string, value: string,
                           variantGroup: Option<string>, variantId: Option<string>, weight: real)

  /** Ids are given out in increasing order and never again. */
  datatype Table = Table(rows: map<int, Config>, next: int)

  datatype Statement =
    | Skipped(id: int)
    | Delete(id: int)
    | Update(id: int, edited: Config)
    | Insert(configs: seq<Config>)

  /** UPDATE leaves the object and the column of the row alone. */
  function Updated(was: Config, edited: Config): Config
  {
    edited.(objectId := was.objectId, column := was.column)
  }

  function Apply(t: Table, st: Statement): Table
  {
    match st
    case Skipped(_) => t
    case Delete(id) => t.(rows := t.rows - {id})
    case Update(id, edited) => if id in t.rows then t.(rows := t.rows[id := Updated(t.rows[id], edited)]) else t
    case Insert(configs) =>
      Table(Inserted(t.rows, t.next, configs), t.next + |configs|)
  }

  /** One id after another. */
  function Inserted(rows: map<int, Config>, next: int, configs: seq<Config>): map<int, Config>
  {
    if configs == [] then rows
    else
      var k := |configs| - 1;
      Inserted(rows, next, configs[..k])[next + k := configs[k]]
  }

  lemma {:induction false} InsertedAt(rows: map<int, Config>, next: int, configs: seq<Config>, id: int)
    requires forall i :: i in rows ==> i < next
    ensures id in Inserted(rows, next, configs) <==> id in rows || next <= id < next + |configs|
    ensures id in rows ==> Inserted(rows, next, configs)[id] == rows[id]
    ensures next <= id < next + |configs| ==> Inserted(rows, next, configs)[id] == configs[id - next]
  {
    if configs != [] { InsertedAt(rows, next, configs[..|configs| - 1], id); }
  }

  function Run(t: Table, script: seq<Statement>): Table
  {
    if script == [] then t else Apply(Run(t, script[..|script| - 1]), script[|script| - 1])
  }

  ghost predicate IdsBelow(t: Table) { forall id :: id in t.rows ==> id < t.next }

  lemma RunOne(t: Table, script: seq<Statement>, st: Statement)
    ensures Run(t, script + [st]) == Apply(Run(t, script), st)
  {
    assert (script + [st])[..|script|] == script;
  }

  lemma {:induction false} RunAppend(t: Table, a: seq<Statement>, b: seq<Statement>)
    ensures Run(t, a + b) == Run(Run(t, a), b)
    decreases |b|
  {
    hide Apply;
    if b == [] {
      assert a + b == a;
    } else {
      var k := |b| - 1;
      assert a + b == (a + b[..k]) + [b[k]];
      RunOne(t, a + b[..k], b[k]);
      RunAppend(t, a, b[..k]);
    }
  }

  // -------------------------------------------------------------------------- text literals

  /** sqlQuote: every quote doubled, and one at each end. */
  function Doubled(s: string): string
  {
    if s == "" then "" else (if s[0] == '\'' then "''" else [s[0]]) + Doubled(s[1..])
  }

  function Quote(s: string): string { "'" + Doubled(s) + "'" }

  /** sqlNull: nothing and the empty string are both NULL. */
  function Nulled(v: Option<string>): Option<string> { if v == Some("") then None else v }

  /** A field of an exported tuple: a number, written as JavaScript writes it, or text through sqlQuote or
      sqlNull. */
  datatype Field = Number(digits: string) | Text(s: string) | Nullable(v: Option<string>)

  /** What SQL makes of a literal. */
  datatype Value = Null | Str(s: string) | Num(digits: string)

  predicate InNumber(c: char) { '0' <= c <= '9' || c == '.' || c == '-' || c == '+' || c == 'e' }

  ghost predicate IsNumber(s: string) { s != "" && forall i :: 0 <= i < |s| ==> InNumber(s[i]) }

  function Literal(f: Field): string
  {
    match f
    case Number(digits) => digits
    case Text(s) => Quote(s)
    case Nullable(v) => if Nulled(v) == None then "NULL" else Quote(v.value)
  }

  function Meaning(f: Field): Value
  {
    match f
    case Number(digits) => Num(digits)
    case Text(s) => Str(s)
    case Nullable(v) => if Nulled(v) == None then Null else Str(v.value)
  }

  ghost predicate Writable(f: Field) { f.Number? ==> IsNumber(f.digits) }

  /** How SQL reads the text of a literal: the value and what follows it. */
  function ScanText(text: string): Option<(string, string)>
  {
    if text == "" then None
    else if text[0] != '\'' then
      match ScanText(text[1..])
      case None => None
      case Some(r) => Some(([text[0]] + r.0, r.1))
    else if |text| > 1 && text[1] == '\'' then
      match ScanText(text[2..])
      case None => None
      case Some(r) => Some((['\''] + r.0, r.1))
    else Some(("", text[1..]))
  }

  function NumberLength(text: string): (n: nat)
    ensures n <= |text|
  {
    if text != "" && InNumber(text[0]) then 1 + NumberLength(text[1..]) else 0
  }

  function Scan(text: string): Option<(Value, string)>
  {
    if "NULL" <= text then Some((Null, text[4..]))
    else if "'" <= text then
      match ScanText(text[1..])
      case None => None
      case Some(r) => Some((Str(r.0), r.1))
    else
      var n := NumberLength(text);
      if n == 0 then None else Some((Num(text[..n]), text[n..]))
  }

  lemma {:induction false} DoubledScans(s: string, rest: string)
    requires rest == "" || rest[0] != '\''
    ensures ScanText(Doubled(s) + "'" + rest) == Some((s, rest))
    decreases |s|
  {
    if s == "" {
      assert Doubled(s) + "'" + rest == "'" + rest;
    } else {
      var tail := Doubled(s[1..]) + "'" + rest;
      DoubledScans(s[1..], rest);
      if s[0] == '\'' {
        assert Doubled(s) + "'" + rest == "''" + tail;
        assert ("''" + tail)[2..] == tail;
      } else {
        assert Doubled(s) + "'" + rest == [s[0]] + tail;
        assert ([s[0]] + tail)[1..] == tail;
      }
      assert s == [s[0]] + s[1..];
    }
  }

  lemma {:induction false} NumberScans(digits: string, rest: string)
    requires forall i :: 0 <= i < |digits| ==> InNumber(digits[i])
    requires rest == "" || !InNumber(rest[0])
    ensures NumberLength(digits + rest) == |digits|
    decreases |digits|
  {
    if digits == "" {
      assert digits + rest == rest;
    } else {
      assert (digits + rest)[1..] == digits[1..] + rest;
      NumberScans(digits[1..], rest);
    }
  }

  /** What may follow a literal in the exported statements: a comma, a parenthesis or a space. */
  ghost predicate Ends(rest: string) { rest == "" || rest[0] == ',' || rest[0] == ')' || rest[0] == ' ' }

  lemma QuoteScans(s: string, rest: string)
    requires Ends(rest)
    ensures Scan(Quote(s) + rest) == Some((Str(s), rest))
  {
    DoubledScans(s, rest);
    var text := Quote(s) + rest;
    assert text[1..] == Doubled(s) + "'" + rest;
    assert text[0] == '\'';
  }

  /** Whatever text a field holds, its literal is read back as that text and ends where it ends: nothing
      can leave its quotes. */
  lemma LiteralScans(f: Field, rest: string)
    requires Writable(f) && Ends(rest)
    ensures Scan(Literal(f) + rest) == Some((Meaning(f), rest))
  {
    match f {
      case Number(digits) =>
        NumberScans(digits, rest);
        assert InNumber(digits[0]) && (digits + rest)[0] == digits[0];
        assert (digits + rest)[..|digits|] == digits && (digits + rest)[|digits|..] == rest;
      case Text(s) =>
        QuoteScans(s, rest);
      case Nullable(v) =>
        if Nulled(v) == None {
          assert ("NULL" + rest)[4..] == rest;
        } else {
          QuoteScans(v.value, rest);
        }
    }
  }

  /** The fields of a tuple as the export joins them, up to its closing parenthesis. */
  function Tuple(fields: seq<Field>): string
  {
    if fields == [] then ")" else if |fields| == 1 then Literal(fields[0]) + ")"
    else Literal(fields[0]) + ", " + Tuple(fields[1..])
  }

  function ScanTuple(text: string, n: nat): Option<(seq<Value>, string)>
    decreases n
  {
    if n == 0 then if ")" <= text then Some(([], text[1..])) else None
    else
      match Scan(text)
      case None => None
      case Some(first) =>
        match ScanTuple(if ", " <= first.1 then first.1[2..] else first.1, n - 1)
        case None => None
        case Some(others) => Some(([first.0] + others.0, others.1))
  }

  function Meanings(fields: seq<Field>): (r: seq<Value>)
    ensures |r| == |fields|
  {
    if fields == [] then [] else [Meaning(fields[0])] + Meanings(fields[1..])
  }

  /** A whole exported tuple is read back field by field. */
  lemma {:induction false} TupleScans(fields: seq<Field>, rest: string)
    requires forall i :: 0 <= i < |fields| ==> Writable(fields[i])
    ensures ScanTuple(Tuple(fields) + rest, |fields|) == Some((Meanings(fields), rest))
    decreases |fields|
  {
    hide Literal, Scan, Meaning, Writable;
    if fields == [] {
      assert (Tuple(fields) + rest)[1..] == rest;
    } else {
      var tail := Tuple(fields[1..]) + rest;
      TupleScans(fields[1..], rest);
      if |fields| == 1 {
        assert fields[1..] == [];
        assert Tuple(fields) + rest == Literal(fields[0]) + tail;
        LiteralScans(fields[0], tail);
      } else {
        var more := ", " + tail;
        assert Tuple(fields) + rest == Literal(fields[0]) + more;
        LiteralScans(fields[0], more);
        assert more[2..] == tail;
      }
    }
  }
}
