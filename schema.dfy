/** Deriving a BigQuery table schema from the rows of a MySQL `DESCRIBE`
    (Big::fieldMap and the non-I/O part of Big::flipModel, src/Big.php). */
module Schema {
  import opened Wrappers
  import Seqs
  import Types

  /** One row of `DESCRIBE <table>`: its `Field`, `Type` and `Null` columns. */
  datatype Column = Column(field: string, nativeType: string, nullFlag: string)

  /** The BigQuery column types that appear as string literals in fieldMap. */
  datatype BqType = STRING | INTEGER | FLOAT | BOOLEAN | TIMESTAMP | DATETIME | TIME | STRUCT

  datatype Mode = NULLABLE | REQUIRED

  /** One entry of a developer's struct hint (a name, a type, perhaps a mode or nested
      fields). fieldMap copies it into the schema unchanged and never looks inside it. */
  type StructMember(==)

  /** The `$structs` hint map, keyed by column name; PHP `null` behaves as the empty map. */
  type Hints = map<string, seq<StructMember>>

  /** One entry of the generated field map: `name`, `type`, `mode` and the optional `fields`. */
  datatype SchemaField = SchemaField(name: string, fieldType: BqType, mode: Mode, fields: Option<seq<StructMember>>)

  /** The value `['fields' => ...]` that flipModel returns. */
  datatype TableSchema = TableSchema(fields: seq<SchemaField>)

  datatype SchemaError =
    | UndefinedIndex(key: string)          // `$structs[$value->Field]` on a key the hints lack
    | NotAnEloquentModel(className: string) // flipModel called with something other than a Model

  /** What the `switch` in fieldMap decides for a short type. */
  datatype Target = Plain(bq: BqType) | JsonColumn

  // ---------------------------------------------------------------------------
  // Short type extraction: trim(explode('(', Type)[0])

  /** The characters PHP's `trim` strips by default. */
  predicate IsTrimChar(c: char)
  {
    c == ' ' || c == '\t' || c == '\n' || c == '\r' || c == '\0' || c == '\U{B}'
  }

  /** The text before the first `(` (the first piece of `explode('(', s)`). */
  function BeforeParen(s: string): string
  {
    if s == [] || s[0] == '(' then [] else [s[0]] + BeforeParen(s[1..])
  }

  /** The first piece is the longest `(`-free prefix: it stops at the first `(` or at the end. */
  lemma {:induction false} BeforeParenFacts(s: string)
    ensures BeforeParen(s) <= s
    ensures '(' !in BeforeParen(s)
    ensures |BeforeParen(s)| < |s| ==> s[|BeforeParen(s)|] == '('
  {
    if s != [] && s[0] != '(' {
      BeforeParenFacts(s[1..]);
    }
  }

  /** `ltrim`: drops the trim characters at the front. */
  function TrimStart(s: string): string
  {
    if s != [] && IsTrimChar(s[0]) then TrimStart(s[1..]) else s
  }

  /** What remains is a suffix, only trim characters were dropped, and it does not start with one. */
  lemma {:induction false} TrimStartFacts(s: string)
    ensures var r := TrimStart(s);
      && |r| <= |s| && r == s[|s| - |r|..]
      && (forall i :: 0 <= i < |s| - |r| ==> IsTrimChar(s[i]))
      && (r != [] ==> !IsTrimChar(r[0]))
  {
    if s != [] && IsTrimChar(s[0]) {
      var t := s[1..];
      var r := TrimStart(t);
      TrimStartFacts(t);
      assert t[|t| - |r|..] == s[|s| - |r|..];
      forall i | 0 <= i < |s| - |r| ensures IsTrimChar(s[i]) {
        if i > 0 {
          assert s[i] == t[i - 1];
        }
      }
    }
  }

  /** `rtrim`: drops the trim characters at the back. */
  function TrimEnd(s: string): string
  {
    if s != [] && IsTrimChar(s[|s| - 1]) then TrimEnd(s[..|s| - 1]) else s
  }

  /** What remains is a prefix, only trim characters were dropped, and it does not end with one. */
  lemma {:induction false} TrimEndFacts(s: string)
    ensures var r := TrimEnd(s);
      && r <= s
      && (forall i :: |r| <= i < |s| ==> IsTrimChar(s[i]))
      && (r != [] ==> !IsTrimChar(r[|r| - 1]))
  {
    if s != [] && IsTrimChar(s[|s| - 1]) {
      TrimEndFacts(s[..|s| - 1]);
    }
  }

  /** PHP `trim` with its default character list. */
  function Trim(s: string): string
  {
    TrimEnd(TrimStart(s))
  }

  /** The token the switch compares: the native type up to its first `(`, trimmed. */
  function ShortType(nativeType: string): string
  {
    Trim(BeforeParen(nativeType))
  }

  /** A slice of a `(`-free string is `(`-free. */
  lemma NoParenSlice(b: string, i: nat, j: nat)
    requires i <= j <= |b| && '(' !in b
    ensures '(' !in b[i..j]
  {
    forall k | 0 <= k < j - i ensures b[i..j][k] != '(' {
      assert b[i..j][k] == b[i + k];
    }
  }

  /** Trimming keeps a contiguous piece that neither starts nor ends with a trim character. */
  lemma TrimShape(s: string)
    ensures var r := Trim(s); var i := |s| - |TrimStart(s)|;
      && |TrimStart(s)| <= |s| && i + |r| <= |s| && r == s[i..i + |r|]
      && (r != [] ==> !IsTrimChar(r[0]) && !IsTrimChar(r[|r| - 1]))
  {
    var m := TrimStart(s);
    TrimStartFacts(s);
    TrimEndFacts(m);
    var r := TrimEnd(m);
    var i := |s| - |m|;
    assert r == m[..|r|];
    assert m == s[i..];
    assert r == s[i..i + |r|];
  }

  /** The short type is a trimmed, parenthesis-free piece of the native type. */
  lemma ShortTypeShape(nativeType: string)
    ensures var t := ShortType(nativeType);
      && '(' !in t
      && (t != [] ==> !IsTrimChar(t[0]) && !IsTrimChar(t[|t| - 1]))
      && exists i, j :: 0 <= i <= j <= |nativeType| && t == nativeType[i..j]
  {
    var b := BeforeParen(nativeType);
    var t := Trim(b);
    BeforeParenFacts(nativeType);
    TrimShape(b);
    var i := |b| - |TrimStart(b)|;
    var j := i + |t|;
    NoParenSlice(b, i, j);
    assert b == nativeType[..|b|];
    assert t == nativeType[i..j];
  }

  /** A type without `(` is its own first piece. */
  lemma {:induction false} BeforeParenNoParen(s: string)
    requires '(' !in s
    ensures BeforeParen(s) == s
  {
    if s != [] {
      assert s[0] in s;
      assert forall k :: 0 <= k < |s[1..]| ==> s[1..][k] == s[k + 1];
      BeforeParenNoParen(s[1..]);
    }
  }

  /** A parenthesised suffix never changes the short type. */
  lemma {:induction false} SuffixIgnored(base: string, rest: string)
    requires '(' !in base
    ensures BeforeParen(base + "(" + rest) == base
    ensures ShortType(base + "(" + rest) == ShortType(base)
  {
    var s := base + "(" + rest;
    if base == [] {
      assert s[0] == '(';
    } else {
      assert base[0] in base;
      assert s[0] == base[0];
      assert s[1..] == base[1..] + "(" + rest;
      assert forall k :: 0 <= k < |base[1..]| ==> base[1..][k] == base[k + 1];
      SuffixIgnored(base[1..], rest);
    }
    BeforeParenNoParen(base);
  }

  /** A token of lower-case letters is left alone by `trim`. */
  lemma LowerTokenTrimmed(s: string)
    requires Types.IsLowerToken(s)
    ensures Trim(s) == s
  {
  }

  // ---------------------------------------------------------------------------
  // The type switch

  /** The `switch ($shortType)` of fieldMap, case by case in source order (the BOOLEAN case
      included). PHP compares with loose `==`, but every label is a non-numeric string, so
      this is plain string equality; the first matching case wins. */
  function Classify(short: string): Target
  {
    if short == Types.TIMESTAMP then Plain(TIMESTAMP)
    else if short == Types.INT then Plain(INTEGER)
    else if short == Types.TINYINT then Plain(INTEGER)
    else if short == Types.BIGINT then Plain(INTEGER)
    else if short == Types.BOOLEAN then Plain(BOOLEAN)
    else if short == Types.DATE then Plain(DATETIME)
    else if short == Types.DATETIME then Plain(DATETIME)
    else if short == Types.DECIMAL then Plain(FLOAT)
    else if short == Types.FLOAT then Plain(FLOAT)
    else if short == Types.INTEGER then Plain(INTEGER)
    else if short == Types.SMALLINT then Plain(INTEGER)
    else if short == Types.TIME then Plain(TIME)
    else if short == Types.DOUBLE then Plain(FLOAT)
    else if short == Types.JSON then JsonColumn
    else Plain(STRING)
  }

  /** The mapping written as a lookup table of literal tokens, independent of the switch. */
  const TypeTable: map<string, BqType> := map[
    "timestamp" := TIMESTAMP,
    "int" := INTEGER, "tinyint" := INTEGER, "bigint" := INTEGER, "integer" := INTEGER, "smallint" := INTEGER,
    "date" := DATETIME, "datetime" := DATETIME,
    "decimal" := FLOAT, "float" := FLOAT, "double" := FLOAT,
    "time" := TIME]

  /** The switch agrees with the table: listed tokens get their table entry, `json` is
      special and every other token (e.g. `mediumint`, `varchar`, `INT`) becomes STRING. */
  lemma ClassifyMatchesTable(short: string)
    ensures Classify(short) ==
      if short == "json" then JsonColumn
      else if short in TypeTable then Plain(TypeTable[short])
      else Plain(STRING)
  {
  }

  /** The BOOLEAN case is unreachable: `tinyint` is matched as INTEGER first, and no
      other token yields BOOLEAN. STRUCT only comes from the json case. */
  lemma ClassifyNeverBoolean(short: string)
    ensures Classify(short) != Plain(BOOLEAN)
    ensures Classify(short) != Plain(STRUCT)
    ensures Classify(Types.TINYINT) == Plain(INTEGER)
  {
    ClassifyMatchesTable(short);
    Types.BooleanIsTinyint();
  }

  /** A short type holding anything but lower-case letters (an upper-case name, a space
      as in `bigint unsigned`) matches no specific case and becomes STRING. */
  lemma NotLowerTokenIsString(short: string)
    requires !Types.IsLowerToken(short)
    ensures Classify(short) == Plain(STRING)
  {
    Types.AllLowerTokens();
    assert Types.All[0] == Types.JSON;
  }

  /** The declared constants without a case of their own fall to the STRING default. */
  lemma UnswitchedConstantsAreString()
    ensures forall t :: t in [Types.MEDIUMINT, Types.TEXT, Types.LONGTEXT, Types.MEDIUMTEXT, Types.BINARY,
                               Types.BLOB, Types.CHAR, Types.ENUM, Types.STRING, Types.OBJECT]
                        ==> Classify(t) == Plain(STRING)
  {
  }

  /** A lower-case token followed by a length suffix maps like the bare token
      (`int(11)` and `int(10) unsigned` like `int`, `varchar(255)` like `varchar`). */
  lemma SuffixedTokenMapsLikeToken(base: string, rest: string)
    requires Types.IsLowerToken(base)
    ensures ShortType(base + "(" + rest) == base
    ensures Classify(ShortType(base + "(" + rest)) == Classify(base)
  {
    SuffixIgnored(base, rest);
    BeforeParenNoParen(base);
    LowerTokenTrimmed(base);
  }

  /** Two lower-case words joined by a space: no `(`, lower-case letters at both ends, and
      not a lower-case token itself. */
  lemma TwoWordsShape(first: string, second: string)
    requires Types.IsLowerToken(first) && Types.IsLowerToken(second)
    ensures var s := first + " " + second;
      && '(' !in s && Types.IsLowerLetter(s[0]) && Types.IsLowerLetter(s[|s| - 1])
      && !Types.IsLowerToken(s)
  {
    var s := first + " " + second;
    forall k | 0 <= k < |s| ensures s[k] != '(' {
      if k < |first| {
        assert s[k] == first[k];
      } else if k > |first| {
        assert s[k] == second[k - |first| - 1];
      }
    }
    assert s[0] == first[0] && s[|s| - 1] == second[|second| - 1];
    assert !Types.IsLowerLetter(s[|first|]);
  }

  /** Two words separated by a space, as in `bigint unsigned`, match no case: STRING. */
  lemma TwoWordTypeIsString(first: string, second: string)
    requires Types.IsLowerToken(first) && Types.IsLowerToken(second)
    ensures ShortType(first + " " + second) == first + " " + second
    ensures Classify(ShortType(first + " " + second)) == Plain(STRING)
  {
    var s := first + " " + second;
    TwoWordsShape(first, second);
    BeforeParenNoParen(s);
    NotLowerTokenIsString(s);
  }

  /** Upper-case spellings are not recognised: `INT` becomes STRING. */
  lemma UpperCaseIntIsString()
    ensures Classify(ShortType("INT")) == Plain(STRING)
  {
    NotLowerTokenIsString(ShortType("INT"));
  }

  // ---------------------------------------------------------------------------
  // Nullability

  /** PHP `strtolower` on ASCII letters. */
  function LowerChar(c: char): char
  {
    if 'A' <= c <= 'Z' then (c as int + 32) as char else c
  }

  function Lower(s: string): (r: string)
    ensures |r| == |s|
  {
    seq(|s|, i requires 0 <= i < |s| => LowerChar(s[i]))
  }

  /** `strtolower(Null) === 'yes'` gives NULLABLE, anything else REQUIRED. */
  function ModeOf(nullFlag: string): Mode
  {
    if Lower(nullFlag) == "yes" then NULLABLE else REQUIRED
  }

  /** NULLABLE exactly for the three letters y, e, s in any mix of cases. */
  lemma ModeOfCaseInsensitive(nullFlag: string)
    ensures ModeOf(nullFlag) == NULLABLE <==>
      |nullFlag| == 3 && nullFlag[0] in "yY" && nullFlag[1] in "eE" && nullFlag[2] in "sS"
  {
    if |nullFlag| == 3 && nullFlag[0] in "yY" && nullFlag[1] in "eE" && nullFlag[2] in "sS" {
      assert Lower(nullFlag) == "yes";
    }
    if Lower(nullFlag) == "yes" {
      assert Lower(nullFlag)[0] == 'y' && Lower(nullFlag)[1] == 'e' && Lower(nullFlag)[2] == 's';
    }
  }

  // ---------------------------------------------------------------------------
  // One column

  predicate IsJson(c: Column)
  {
    Classify(ShortType(c.nativeType)) == JsonColumn
  }

  /** The column is dropped: a json column while the hint map is empty (`continue 2`). */
  predicate Skipped(c: Column, structs: Hints)
  {
    IsJson(c) && |structs| == 0
  }

  /** The hint lookup of a json column fails: hints were given, but none for this column. */
  predicate MissingHint(c: Column, structs: Hints)
  {
    IsJson(c) && |structs| > 0 && c.field !in structs
  }

  /** The entry a column yields when it is neither skipped nor missing its hint. */
  function ColumnField(c: Column, structs: Hints): SchemaField
    requires !Skipped(c, structs) && !MissingHint(c, structs)
  {
    match Classify(ShortType(c.nativeType))
    case JsonColumn =>
      var hint := structs[c.field];
      SchemaField(c.field, STRUCT, ModeOf(c.nullFlag), if |hint| > 0 then Some(hint) else None)
    case Plain(t) =>
      SchemaField(c.field, t, ModeOf(c.nullFlag), None)
  }

  /** An entry carries the column's name and mode; it is a STRUCT exactly for a json
      column, never BOOLEAN, and only a STRUCT with a non-empty hint carries `fields`,
      which are then the hint itself. */
  lemma ColumnFieldFacts(c: Column, structs: Hints)
    requires !Skipped(c, structs) && !MissingHint(c, structs)
    ensures var f := ColumnField(c, structs);
      && f.name == c.field
      && f.mode == ModeOf(c.nullFlag)
      && (f.fieldType == STRUCT <==> IsJson(c))
      && f.fieldType != BOOLEAN
      && (!IsJson(c) ==> Plain(f.fieldType) == Classify(ShortType(c.nativeType)))
      && (f.fields.Some? <==> IsJson(c) && |structs[c.field]| > 0)
      && (f.fields.Some? ==> f.fieldType == STRUCT && f.fields.value == structs[c.field])
  {
    ClassifyNeverBoolean(ShortType(c.nativeType));
  }

  /** What one loop iteration of fieldMap contributes: nothing, one entry, or the lookup error. */
  function MapColumn(c: Column, structs: Hints): Result<seq<SchemaField>, SchemaError>
  {
    if Skipped(c, structs) then Success([])
    else if MissingHint(c, structs) then Failure(UndefinedIndex(c.field))
    else Success([ColumnField(c, structs)])
  }

  /** Prefixes an already-built list onto a result. */
  function Prepend(done: seq<SchemaField>, r: Result<seq<SchemaField>, SchemaError>): Result<seq<SchemaField>, SchemaError>
  {
    match r
    case Success(rest) => Success(done + rest)
    case Failure(e) => Failure(e)
  }

  /** The field map of a column list: the columns' contributions in order, or the first error. */
  function FieldMapSpec(columns: seq<Column>, structs: Hints): Result<seq<SchemaField>, SchemaError>
  {
    if columns == [] then Success([])
    else
      match MapColumn(columns[0], structs)
      case Failure(e) => Failure(e)
      case Success(head) => Prepend(head, FieldMapSpec(columns[1..], structs))
  }

  /** The specification after a column that contributed `head`. */
  lemma FieldMapStep(columns: seq<Column>, i: nat, structs: Hints, done: seq<SchemaField>, head: seq<SchemaField>)
    requires i < |columns| && MapColumn(columns[i], structs) == Success(head)
    requires FieldMapSpec(columns, structs) == Prepend(done, FieldMapSpec(columns[i..], structs))
    ensures FieldMapSpec(columns, structs) == Prepend(done + head, FieldMapSpec(columns[i + 1..], structs))
  {
    assert columns[i..][0] == columns[i] && columns[i..][1..] == columns[i + 1..];
    match FieldMapSpec(columns[i + 1..], structs) {
      case Success(rest) =>
        assert done + (head + rest) == (done + head) + rest;
      case Failure(_) =>
    }
  }

  /** The specification fails with the error of the column that fails. */
  lemma FieldMapStepFails(columns: seq<Column>, i: nat, structs: Hints, done: seq<SchemaField>, e: SchemaError)
    requires i < |columns| && MapColumn(columns[i], structs) == Failure(e)
    requires FieldMapSpec(columns, structs) == Prepend(done, FieldMapSpec(columns[i..], structs))
    ensures FieldMapSpec(columns, structs) == Failure(e)
  {
    assert columns[i..][0] == columns[i];
  }

  /** Big::fieldMap: one loop over the columns that appends to `map`. `pending` plays the
      role of `$struct`, which lives across iterations and is unset after use. */
  method FieldMap(columns: seq<Column>, structs: Hints) returns (r: Result<seq<SchemaField>, SchemaError>)
    ensures r == FieldMapSpec(columns, structs)
  {
    var fieldMap: seq<SchemaField> := [];
    var pending: seq<StructMember> := [];
    assert columns[0..] == columns;
    match FieldMapSpec(columns, structs) {
      case Success(all) => assert [] + all == all;
      case Failure(_) =>
    }
    for i := 0 to |columns|
      invariant pending == []
      invariant FieldMapSpec(columns, structs) == Prepend(fieldMap, FieldMapSpec(columns[i..], structs))
    {
      var value := columns[i];
      var shortType := ShortType(value.nativeType);
      var bqType: BqType;
      match Classify(shortType) {
        case JsonColumn =>
          if |structs| > 0 {
            if value.field !in structs {
              FieldMapStepFails(columns, i, structs, fieldMap, UndefinedIndex(value.field));
              return Failure(UndefinedIndex(value.field));
            }
            pending := structs[value.field];
          } else {
            FieldMapStep(columns, i, structs, fieldMap, []);
            assert fieldMap + [] == fieldMap;
            continue;
          }
          bqType := STRUCT;
        case Plain(t) =>
          bqType := t;
      }
      var mode := ModeOf(value.nullFlag);
      var fieldData := SchemaField(value.field, bqType, mode, None);
      if |pending| > 0 {
        fieldData := fieldData.(fields := Some(pending));
        pending := [];
      }
      assert fieldData == ColumnField(value, structs);
      FieldMapStep(columns, i, structs, fieldMap, [fieldData]);
      fieldMap := fieldMap + [fieldData];
    }
    assert columns[|columns|..] == [];
    assert fieldMap + [] == fieldMap;
    r := Success(fieldMap);
  }

  // ---------------------------------------------------------------------------
  // Properties of the whole field map

  /** The columns that yield an entry, in input order. */
  function Kept(columns: seq<Column>, structs: Hints): seq<Column>
  {
    if columns == [] then []
    else (if Skipped(columns[0], structs) then [] else [columns[0]]) + Kept(columns[1..], structs)
  }

  /** The number of json columns. */
  function CountJson(columns: seq<Column>): nat
  {
    if columns == [] then 0 else (if IsJson(columns[0]) then 1 else 0) + CountJson(columns[1..])
  }

  /** Without hints exactly the json columns are dropped; with hints none is. Nothing
      but input columns is kept. */
  lemma {:induction false} KeptFacts(columns: seq<Column>, structs: Hints)
    ensures forall c :: c in Kept(columns, structs) ==> c in columns && !Skipped(c, structs)
    ensures |structs| == 0 ==> |Kept(columns, structs)| == |columns| - CountJson(columns)
    ensures |structs| > 0 ==> Kept(columns, structs) == columns
  {
    if columns != [] {
      KeptFacts(columns[1..], structs);
      if |structs| > 0 {
        assert columns == [columns[0]] + columns[1..];
      }
    }
  }

  /** No column of the list misses its hint. */
  predicate HintsCover(columns: seq<Column>, structs: Hints)
  {
    forall i :: 0 <= i < |columns| ==> !MissingHint(columns[i], structs)
  }

  /** The entries of a list of columns that are neither skipped nor missing a hint. */
  function Entries(columns: seq<Column>, structs: Hints): seq<SchemaField>
    requires forall i :: 0 <= i < |columns| ==> !Skipped(columns[i], structs) && !MissingHint(columns[i], structs)
  {
    seq(|columns|, i requires 0 <= i < |columns| => ColumnField(columns[i], structs))
  }

  /** fieldMap fails exactly when hints are given but some json column has none, and then
      with the lookup error of the first such column. */
  lemma {:induction false} FieldMapFailsIff(columns: seq<Column>, structs: Hints)
    ensures FieldMapSpec(columns, structs).Failure? <==> !HintsCover(columns, structs)
    ensures FieldMapSpec(columns, structs).Failure? ==>
      exists i :: 0 <= i < |columns| && MissingHint(columns[i], structs)
        && (forall j :: 0 <= j < i ==> !MissingHint(columns[j], structs))
        && FieldMapSpec(columns, structs).error == UndefinedIndex(columns[i].field)
  {
    if columns != [] {
      var tail := columns[1..];
      FieldMapFailsIff(tail, structs);
      if !MissingHint(columns[0], structs) {
        if FieldMapSpec(tail, structs).Failure? {
          var i :| 0 <= i < |tail| && MissingHint(tail[i], structs)
            && (forall j :: 0 <= j < i ==> !MissingHint(tail[j], structs))
            && FieldMapSpec(tail, structs).error == UndefinedIndex(tail[i].field);
          assert forall j :: 0 <= j < i + 1 ==> !MissingHint(columns[j], structs) by {
            forall j | 0 <= j < i + 1 ensures !MissingHint(columns[j], structs) {
              if j > 0 {
                assert columns[j] == tail[j - 1];
              }
            }
          }
        } else {
          forall i | 0 <= i < |columns| ensures !MissingHint(columns[i], structs) {
            if i > 0 {
              assert columns[i] == tail[i - 1];
            }
          }
        }
      }
    }
  }

  /** Kept columns of a covered list are fit for ColumnField. */
  lemma KeptAreMappable(columns: seq<Column>, structs: Hints)
    requires HintsCover(columns, structs)
    ensures forall c :: c in Kept(columns, structs) ==> !Skipped(c, structs) && !MissingHint(c, structs)
  {
    KeptFacts(columns, structs);
    forall c | c in Kept(columns, structs) ensures !MissingHint(c, structs) {
      var i :| 0 <= i < |columns| && columns[i] == c;
    }
  }

  /** The tail of a covered list is covered. */
  lemma CoverTail(columns: seq<Column>, structs: Hints)
    requires columns != [] && HintsCover(columns, structs)
    ensures HintsCover(columns[1..], structs)
  {
    forall i | 0 <= i < |columns| - 1 ensures !MissingHint(columns[1..][i], structs) {
      assert columns[1..][i] == columns[i + 1];
    }
  }

  /** A skipped head column adds nothing to the specification nor to the kept list. */
  lemma SkippedHead(columns: seq<Column>, structs: Hints)
    requires columns != [] && Skipped(columns[0], structs)
    ensures Kept(columns, structs) == Kept(columns[1..], structs)
    ensures FieldMapSpec(columns, structs) == Prepend([], FieldMapSpec(columns[1..], structs))
  {
    assert MapColumn(columns[0], structs) == Success([]);
    assert [] + Kept(columns[1..], structs) == Kept(columns[1..], structs);
  }

  /** Entries of a list with one more column in front. */
  lemma EntriesCons(c: Column, rest: seq<Column>, structs: Hints)
    requires !Skipped(c, structs) && !MissingHint(c, structs)
    requires forall i :: 0 <= i < |rest| ==> !Skipped(rest[i], structs) && !MissingHint(rest[i], structs)
    ensures Entries([c] + rest, structs) == [ColumnField(c, structs)] + Entries(rest, structs)
  {
  }

  /** When every json column finds its hint (or hints are absent), fieldMap yields one
      entry per kept column, in input order. */
  lemma {:induction false} FieldMapEntries(columns: seq<Column>, structs: Hints)
    requires HintsCover(columns, structs)
    ensures forall c :: c in Kept(columns, structs) ==> !Skipped(c, structs) && !MissingHint(c, structs)
    ensures FieldMapSpec(columns, structs) == Success(Entries(Kept(columns, structs), structs))
  {
    KeptAreMappable(columns, structs);
    if columns == [] {
      assert Entries([], structs) == [];
    } else {
      var tail := columns[1..];
      CoverTail(columns, structs);
      FieldMapEntries(tail, structs);
      var rest := Kept(tail, structs);
      if Skipped(columns[0], structs) {
        SkippedHead(columns, structs);
        assert [] + Entries(rest, structs) == Entries(rest, structs);
      } else {
        EntriesCons(columns[0], rest, structs);
      }
    }
  }

  /** Output length: one entry per column, less the json columns, which are dropped when
      the hint map is empty; with hints present nothing is dropped. */
  lemma FieldMapLength(columns: seq<Column>, structs: Hints)
    requires FieldMapSpec(columns, structs).Success?
    ensures |structs| == 0 ==> |FieldMapSpec(columns, structs).value| == |columns| - CountJson(columns)
    ensures |structs| > 0 ==> |FieldMapSpec(columns, structs).value| == |columns|
  {
    FieldMapFailsIff(columns, structs);
    FieldMapEntries(columns, structs);
    KeptFacts(columns, structs);
  }

  /** Each entry is named after its column, has the column's mode, and only a STRUCT
      carries `fields`; BOOLEAN never appears. */
  lemma FieldMapEntryFacts(columns: seq<Column>, structs: Hints, k: nat)
    requires FieldMapSpec(columns, structs).Success?
    requires k < |FieldMapSpec(columns, structs).value|
    ensures var f := FieldMapSpec(columns, structs).value[k];
      && (exists c :: c in columns && f.name == c.field && f.mode == ModeOf(c.nullFlag))
      && f.fieldType != BOOLEAN
      && (f.fields.Some? ==> f.fieldType == STRUCT && |f.fields.value| > 0)
  {
    FieldMapFailsIff(columns, structs);
    FieldMapEntries(columns, structs);
    var kept := Kept(columns, structs);
    assert kept[k] in kept;
    KeptFacts(columns, structs);
    ColumnFieldFacts(kept[k], structs);
  }

  /** A json column is dropped exactly when the hint map is empty; with hints it becomes a
      STRUCT, and it carries `fields` exactly when its hint is non-empty. */
  lemma JsonColumnHandling(c: Column, structs: Hints)
    requires IsJson(c) && (|structs| == 0 || c.field in structs)
    ensures MapColumn(c, structs) == Success([]) <==> |structs| == 0
    ensures |structs| > 0 ==>
      MapColumn(c, structs) == Success([SchemaField(c.field, STRUCT, ModeOf(c.nullFlag),
        if |structs[c.field]| > 0 then Some(structs[c.field]) else None)])
  {
  }

  // ---------------------------------------------------------------------------
  // flipModel without the cache and the DESCRIBE query

  /** The argument handed to flipModel: an Eloquent model (its table's hidden attribute
      names) or any other value (its class name). */
  datatype Subject = EloquentModel(hidden: seq<string>) | OtherValue(className: string)

  /** The described columns minus those the model hides, in their original order. */
  function VisibleColumns(columns: seq<Column>, hidden: seq<string>): seq<Column>
  {
    Seqs.Filter(columns, (c: Column) => c.field !in hidden)
  }

  /** Exactly the non-hidden columns survive, and relative order is kept. */
  lemma VisibleColumnsFacts(columns: seq<Column>, more: seq<Column>, hidden: seq<string>)
    ensures forall c :: c in VisibleColumns(columns, hidden) <==> c in columns && c.field !in hidden
    ensures VisibleColumns(columns + more, hidden) == VisibleColumns(columns, hidden) + VisibleColumns(more, hidden)
    ensures hidden == [] ==> VisibleColumns(columns, hidden) == columns
  {
    Seqs.FilterAppend(columns, more, (c: Column) => c.field !in hidden);
    if hidden == [] {
      Seqs.FilterAll(columns, (c: Column) => c.field !in hidden);
    }
  }

  /** Big::flipModel once the column list is fetched: reject non-models, drop hidden
      columns, map the rest and wrap them as `['fields' => ...]`. */
  method FlipModel(subject: Subject, described: seq<Column>, structs: Hints) returns (r: Result<TableSchema, SchemaError>)
    ensures subject.OtherValue? ==> r == Failure(NotAnEloquentModel(subject.className))
    ensures subject.EloquentModel? ==>
      r == match FieldMapSpec(VisibleColumns(described, subject.hidden), structs)
           case Success(fields) => Success(TableSchema(fields))
           case Failure(e) => Failure(e)
  {
    if !subject.EloquentModel? {
      return Failure(NotAnEloquentModel(subject.className));
    }
    var fields := VisibleColumns(described, subject.hidden);
    var mapped := FieldMap(fields, structs);
    match mapped {
      case Success(map_) => r := Success(TableSchema(map_));
      case Failure(e) => r := Failure(e);
    }
  }

  /** No hidden column reaches the schema. */
  lemma FlipModelHidesHidden(described: seq<Column>, hidden: seq<string>, structs: Hints, k: nat)
    requires FieldMapSpec(VisibleColumns(described, hidden), structs).Success?
    requires k < |FieldMapSpec(VisibleColumns(described, hidden), structs).value|
    ensures FieldMapSpec(VisibleColumns(described, hidden), structs).value[k].name !in hidden
  {
    FieldMapEntryFacts(VisibleColumns(described, hidden), structs, k);
  }
}
