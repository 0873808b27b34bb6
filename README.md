# laravel-big core in Dafny

This project models the data-shaping core of `Prologuetech\Big\Big`, a Laravel helper for Google BigQuery.

- **Schema** (`schema.dfy`) models `fieldMap` and the non-I/O part of `flipModel`.
  - `fieldMap` turns the rows of a MySQL `DESCRIBE` into a BigQuery field map. For each column it:
    - takes the short type: the text before the first `(`, trimmed;
    - runs it through the type `switch`;
    - derives `NULLABLE`/`REQUIRED` from the `Null` column;
    - for `json` columns, consults the developer's struct hints.
  - `flipModel` rejects anything that is not an Eloquent model, drops the model's hidden columns and wraps the field map as `['fields' => ...]`.
  - `FieldMap` is a loop method proved equal to the recursive specification `FieldMapSpec`. Lemmas then characterise that specification:
    - when it fails, and with which lookup error;
    - which entries it yields, in what order, and how many;
    - what each entry holds.
- **Payload** (`payload.dfy`) models `prepareData`. Each model item becomes a row with:
  - its attribute data;
  - an `insertId` when the model's key is incrementing;
  - a `fields` list, built from the keys of array-valued attributes with `strtoupper(gettype(...))` as the type.
- **Insertion** (`insertion.dfy`) models how `insert` shapes its result from the response of the streaming insert:
  - `true` when the call succeeded and is not verbose;
  - otherwise the list of every failed row's errors;
  - in verbose mode, a report with `affected_rows`, the errors and the response info.
- **Types** (`types.dfy`) holds the 24 type-name constants.
- **Seqs** (`seqs.dfy`) and **Wrappers** (`wrappers.dfy`) are small generic helpers:
  - Seqs: an order-preserving filter and list flattening;
  - Wrappers: `Option` and `Result`.

## PHP semantics as modelled

- **The type `switch`.** It uses loose `==`. Every case label is a non-numeric string, so the comparison is exact string equality. The first matching case wins.
  - `Types::BOOLEAN` and `Types::TINYINT` are both `tinyint`.
  - The `TINYINT` case comes first, so the `BOOLEAN` case can never be taken.
- **`trim`.** It strips its default characters: space, `\t`, `\n`, `\r`, `\0` and `\x0B`.
- **`strtolower` and `strtoupper`.** Both act on ASCII letters only.
- **A json column whose hint is missing.**
  - The hint map is non-empty but has no key for the column: `$structs[$value->Field]` raises an "undefined index" notice.
  - A Laravel application turns that notice into an exception, so the model treats it as the error `UndefinedIndex(field)` and stops the map.
  - An empty hint map (or `null`) skips json columns instead (`continue 2`).
- **`$struct` carried across iterations.** fieldMap's `$struct` is assigned only in the json case and read through `empty()`.
  - A non-empty hint is copied into the entry and then unset.
  - An empty hint stays set as `[]` into the next iteration. `empty()` treats that like an unset variable.
  - The loop in `FieldMap` keeps `$struct` as `pending`, with the invariant that it is empty between iterations. So no hint leaks from one column into the next.
- **prepareData's struct loops.** The attribute loop and the entry loop are the separate method `CollectStruct`. `PrepareData` calls it once per item.

## Model

| member | source | states |
|---|---|---|
| Types.BooleanIsTinyint | src/Types.php:9-19 | `BOOLEAN` and `TINYINT` are the same token `tinyint` |
| Types.AllLowerTokens | src/Types.php:7-30 | there are 24 type constants, each a non-empty run of lower-case letters |
| Types.OnlyBooleanTinyintCollide | src/Types.php:7-30 | the only two constants with equal values are `BOOLEAN` and `TINYINT` |
| Schema.BeforeParen | src/Big.php:318 | no contract of its own; BeforeParenFacts and BeforeParenNoParen pin it down as the first piece of `explode('(', Type)` |
| Schema.BeforeParenFacts | src/Big.php:318 | the first piece of `explode('(', Type)` is a prefix without `(`, ending at the first `(` or at the end of the string |
| Schema.TrimStartFacts | src/Big.php:318 | left trimming keeps a suffix, drops only trim characters, and the result does not start with one |
| Schema.TrimEndFacts | src/Big.php:318 | right trimming keeps a prefix, drops only trim characters, and the result does not end with one |
| Schema.Trim | src/Big.php:318 | no contract of its own; TrimShape, TrimStartFacts and TrimEndFacts pin it down as PHP `trim` with the default characters |
| Schema.TrimShape | src/Big.php:318 | trim keeps a contiguous piece of its input that neither starts nor ends with a trim character |
| Schema.ShortType | src/Big.php:318 | no contract of its own; ShortTypeShape, SuffixIgnored and SuffixedTokenMapsLikeToken describe `trim(explode('(', Type)[0])` |
| Schema.ShortTypeShape | src/Big.php:318 | the short type is a contiguous piece of the native type with no `(` and no trim character at either end |
| Schema.BeforeParenNoParen | src/Big.php:318 | a type without `(` is its own first piece |
| Schema.SuffixIgnored | src/Big.php:318 | anything from the first `(` on never changes the short type |
| Schema.LowerTokenTrimmed | src/Big.php:318 | a lower-case token is unchanged by trim |
| Schema.Classify | src/Big.php:319-376 | no contract of its own; ClassifyMatchesTable ties the case-ordered switch to the literal table TypeTable, and ClassifyNeverBoolean shows the shadowed BOOLEAN case |
| Schema.ClassifyMatchesTable | src/Big.php:319-376 | the switch agrees with an independent token-to-type table: `json` is special, a listed token gets its table type, and every other string gets STRING |
| Schema.ClassifyNeverBoolean | src/Big.php:329-337 | no short type yields BOOLEAN (`tinyint` is caught by the INTEGER case first), none yields a plain STRUCT, and `tinyint` yields INTEGER |
| Schema.NotLowerTokenIsString | src/Big.php:319-375 | a short type that is not a run of lower-case letters falls to the STRING default |
| Schema.UnswitchedConstantsAreString | src/Big.php:373-375 | the declared constants without a case of their own (`mediumint`, `text`, `longtext`, `mediumtext`, `binary`, `blob`, `char`, `enum`, `string`, `object`) map to STRING |
| Schema.SuffixedTokenMapsLikeToken | src/Big.php:318-375 | `int(11)` or `int(10) unsigned` map like the bare token: the short type is the token itself |
| Schema.TwoWordTypeIsString | src/Big.php:318-375 | a type of two words such as `bigint unsigned` keeps both words and maps to STRING |
| Schema.UpperCaseIntIsString | src/Big.php:318-375 | the upper-case spelling `INT` is not recognised and maps to STRING |
| Schema.Lower | src/Big.php:379 | lower-casing keeps the length |
| Schema.ModeOf | src/Big.php:379 | no contract of its own; ModeOfCaseInsensitive states when it yields NULLABLE, in both directions |
| Schema.ModeOfCaseInsensitive | src/Big.php:379 | the mode is NULLABLE exactly when `Null` is "yes" in any mix of cases, otherwise REQUIRED |
| Schema.ColumnField | src/Big.php:378-395 | no contract of its own; ColumnFieldFacts states the entry's name, mode, type and `fields` |
| Schema.MapColumn | src/Big.php:362-395 | no contract of its own; one iteration's contribution (nothing, one entry, or the lookup error), described by JsonColumnHandling and ColumnFieldFacts |
| Schema.ColumnFieldFacts | src/Big.php:378-395 | an entry has the column's name and mode; it is a STRUCT exactly for json columns and is never BOOLEAN; a non-json entry has its switch type; it has `fields` exactly when the column's hint is non-empty, and then `fields` is that hint |
| Schema.FieldMapSpec | src/Big.php:310-400 | no contract of its own; FieldMapFailsIff, FieldMapEntries, KeptFacts and FieldMapLength characterise it, and FieldMap is proved equal to it |
| Schema.FieldMap | src/Big.php:310-400 | the loop, with `$struct` carried across iterations, computes the specification `FieldMapSpec`: each column's contribution in order, or the first lookup error |
| Schema.KeptFacts | src/Big.php:362-368 | without hints exactly the json columns are dropped, so the count is columns minus json columns; with hints none is dropped; nothing but input columns survives |
| Schema.FieldMapFailsIff | src/Big.php:362-368 | fieldMap fails exactly when hints are given and some json column has none, and then the error names the first such column |
| Schema.FieldMapEntries | src/Big.php:310-400 | when no hint is missing, the field map is the entry of every kept column, in input order |
| Schema.FieldMapLength | src/Big.php:316-396 | on success, the map has one entry per column when hints are given, and one per non-json column when they are not |
| Schema.FieldMapEntryFacts | src/Big.php:378-395 | every entry of a successful map is named after an input column and has that column's mode; no entry is BOOLEAN; only STRUCT entries carry `fields`, and those are non-empty |
| Schema.JsonColumnHandling | src/Big.php:362-372 | a json column contributes nothing exactly when the hint map is empty; otherwise it becomes a STRUCT whose `fields` is its hint when non-empty |
| Schema.VisibleColumns | src/Big.php:294-297 | no contract of its own; VisibleColumnsFacts states which columns survive and that their order is kept |
| Schema.VisibleColumnsFacts | src/Big.php:294-297 | the hidden-column filter keeps exactly the non-hidden columns, distributes over concatenation (so order is kept), and keeps everything when nothing is hidden |
| Schema.FlipModel | src/Big.php:276-300 | a non-model fails with its class name; a model yields `['fields' => fieldMap]` over its non-hidden columns, or fieldMap's error |
| Schema.FlipModelHidesHidden | src/Big.php:294-299 | no field of a model's schema is named after a hidden column |
| Payload.TypeName | src/Big.php:183 | no contract of its own; UpperTypeName gives `strtoupper(gettype(v))` for every kind of value |
| Payload.Upper | src/Big.php:183 | `strtoupper` keeps the length and changes no character other than a lower-case ASCII letter |
| Payload.UpperTypeName | src/Big.php:183 | `strtoupper(gettype(v))` is INTEGER, DOUBLE, BOOLEAN, STRING, NULL, OBJECT or ARRAY according to v's kind, and two values get the same label exactly when they are of the same kind |
| Payload.Describe | src/Big.php:180-185 | an array attribute contributes one `fields` entry per array entry, named by its key |
| Payload.StructOf | src/Big.php:174-187 | no contract of its own; StructOfSize, StructOfAppend and StructOfEntries characterise it, and CollectStruct is proved equal to it |
| Payload.StructOfSize | src/Big.php:177-187 | the struct list has one entry per entry of an array attribute, so it is empty exactly when no attribute is a non-empty array |
| Payload.StructOfAppend | src/Big.php:177-187 | the struct list of concatenated attribute lists is the concatenation of their struct lists |
| Payload.StructOfEntries | src/Big.php:177-187 | every struct entry is an entry of some array attribute: its key, and its value's upper-cased type name |
| Payload.PrepareRow | src/Big.php:189-206 | a row's data is the item's attributes; `insertId` is the key exactly when the key is incrementing; `fields` is present exactly when the key is incrementing or some attribute is a non-empty array, and it is then the struct list |
| Payload.CollectStruct | src/Big.php:174-187 | the nested attribute and entry loops build exactly the struct list of the item's attributes |
| Payload.PrepareData | src/Big.php:164-210 | one row per item, in order, each the prepared row of its item |
| Insertion.AllErrors | src/Big.php:115-119 | no contract of its own; AllErrorsFacts states which errors it holds and how many |
| Insertion.AllErrorsFacts | src/Big.php:115-119 | the collected errors are exactly the errors of the failed rows, as many as all their error lists together, and none when no row failed |
| Insertion.EffectiveOptions | src/Big.php:107 | without options the call sends only `ignoreUnknownValues => true`; given options are sent unchanged |
| Insertion.Insert | src/Big.php:104-130 | the options sent are the effective options, and the nested error loops produce the outcome `Outcome` of the response |
| Insertion.Outcome | src/Big.php:112-129 | no contract of its own; OutcomeShape states its three shapes, and Insert is proved equal to it |
| Insertion.OutcomeShape | src/Big.php:112-129 | `true` exactly for a successful non-verbose call; a bare error list for a failed non-verbose call; in verbose mode a report whose `affected_rows` plus the error count is the row count, with the response info; errors are exactly the failed rows' errors |
| Insertion.AffectedRowsCountsErrors | src/Big.php:125 | `affected_rows` counts errors, not failed rows: one row carrying two errors is reported as -1 affected rows |

## Left out

- The constructor, `run`, `getTable`, `createFromModel` and the `getMax*` helpers of `Big` are not part of this model. They only forward to the BigQuery client or the database.
- `src/BigServiceProvider.php` is not part of this model. It is framework wiring.
- The BigQuery client calls are parameters or are left out:
  - `Table::insertRows` is replaced by its response, a parameter of `Insertion.Insert`;
  - the response's `isSuccessful`, `failedRows` and `info` are the fields of that parameter.
- flipModel's cached `describe` query (`Cache::remember`, `DB::connection(...)->select`) is replaced by the list of described columns, a parameter of `Schema.FlipModel`. The cache key and its five-day lifetime are not modelled.
- `Model::toArray` and `Model::getKey` are foreign calls. An `Entity` carries their results as fields.
- Schema.FlipModel: the subject is either a model or an object with a class name. A non-object argument is not modelled; there `get_class` itself fails.
- Schema.FieldMap: struct-hint entries are an opaque type, copied into the schema unchanged. The model does not look inside them.
- Insertion.Insert: option values other than booleans are an opaque type, passed to insertRows unchanged.
- Schema.VisibleColumns: `in_array` compares loosely, so in PHP a column named `10` would also be hidden by a hidden name `1e1`. The model compares names exactly.
- Payload.PrepareData: items that are plain arrays are not modelled.
  - The source reads `$item->incrementing` on them.
  - For the first item it also reads `$item_arr` before assigning it.
  - Both are failures in a Laravel application.
- Payload.PrepareRow: PHP values are limited to integers, doubles (as reals), booleans, strings, null, objects (by class name) and arrays with ordered integer or string keys.
- Insertion.Insert: `$verbose` is modelled as a boolean, not as an arbitrary truthy value.
- Insertion.Insert: the row and error payloads of the response are opaque type parameters.
- Schema.FieldMap: a `null` hint map is modelled as the empty map. A hint whose value is `null` is modelled as an empty hint. Both behave alike under `empty()`.
