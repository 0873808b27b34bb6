/** The native column-type tokens the schema mapping switches on (src/Types.php). */
module Types {

  const JSON: string := "json"
  const BIGINT: string := "bigint"
  /** Shares its token with TINYINT: MySQL has no separate boolean column type. */
  const BOOLEAN: string := "tinyint"
  const DATETIME: string := "datetime"
  const TIMESTAMP: string := "timestamp"
  const DATE: string := "date"
  const TIME: string := "time"
  const DECIMAL: string := "decimal"
  const INTEGER: string := "integer"
  const OBJECT: string := "object"
  const MEDIUMINT: string := "mediumint"
  const SMALLINT: string := "smallint"
  const TINYINT: string := "tinyint"
  const INT: string := "int"
  const STRING: string := "string"
  const TEXT: string := "text"
  const LONGTEXT: string := "longtext"
  const MEDIUMTEXT: string := "mediumtext"
  const BINARY: string := "binary"
  const BLOB: string := "blob"
  const FLOAT: string := "float"
  const CHAR: string := "char"
  const ENUM: string := "enum"
  const DOUBLE: string := "double"

  /** Every constant, in declaration order. */
  const All: seq<string> :=
    [JSON, BIGINT, BOOLEAN, DATETIME, TIMESTAMP, DATE, TIME, DECIMAL, INTEGER, OBJECT,
     MEDIUMINT, SMALLINT, TINYINT, INT, STRING, TEXT, LONGTEXT, MEDIUMTEXT, BINARY, BLOB,
     FLOAT, CHAR, ENUM, DOUBLE]

  predicate IsLowerLetter(c: char)
  {
    'a' <= c <= 'z'
  }

  /** A token made of lower-case ASCII letters only: no parentheses, no spaces, no capitals. */
  predicate IsLowerToken(s: string)
  {
    s != [] && forall i :: 0 <= i < |s| ==> IsLowerLetter(s[i])
  }

  /** BOOLEAN and TINYINT are one and the same token. */
  lemma BooleanIsTinyint()
    ensures BOOLEAN == TINYINT == "tinyint"
  {
  }

  /** Every constant is a non-empty lower-case token. */
  lemma AllLowerTokens()
    ensures |All| == 24
    ensures forall i :: 0 <= i < |All| ==> IsLowerToken(All[i])
  {
  }

  /** Apart from the BOOLEAN/TINYINT pair (positions 2 and 12), the constants are pairwise distinct. */
  lemma OnlyBooleanTinyintCollide()
    ensures forall i, j :: 0 <= i < j < |All| && All[i] == All[j] ==> i == 2 && j == 12
  {
  }
}
