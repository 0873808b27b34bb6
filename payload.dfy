/**
 * Row preparation for streaming inserts (Big::prepareData): every item becomes a row
 * record with its data, Google's `insertId` when the model has an incrementing key, and
 * a `fields` list naming and typing the entries of its array-valued attributes.
 */
module Payload {
  import opened Wrappers
  import Seqs

  // ---------------------------------------------------------------------------
  // Values as they come out of a model's toArray()

  /** A PHP array key. */
  datatype Key = IntKey(i: int) | StrKey(s: string)

  /** A PHP value as found in an attribute array; arrays keep their key order. */
  datatype Value =
    | VInt(i: int)
    | VDouble(d: real)
    | VBool(b: bool)
    | VString(s: string)
    | VNull
    | VObject(className: string)
    | VArray(entries: seq<(Key, Value)>)

  /** A model item: whether its key is incrementing, its key value, and its attributes
      as returned by toArray(). */
  datatype Entity = Entity(incrementing: bool, key: Value, attributes: seq<(string, Value)>)

  /** One `['name' => ..., 'type' => ...]` entry of a row's `fields`. */
  datatype StructField = StructField(name: Key, fieldType: string)

  /** A prepared row: `insertId`, `data` and `fields`, each possibly absent. */
  datatype PreparedRow = PreparedRow(insertId: Option<Value>, data: seq<(string, Value)>, fields: Option<seq<StructField>>)

  // ---------------------------------------------------------------------------
  // gettype and strtoupper

  /** PHP's gettype for the values above. */
  function TypeName(v: Value): string
  {
    match v
    case VInt(_) => "integer"
    case VDouble(_) => "double"
    case VBool(_) => "boolean"
    case VString(_) => "string"
    case VNull => "NULL"
    case VObject(_) => "object"
    case VArray(_) => "array"
  }

  /** strtoupper on one character: ASCII letters only. */
  function UpperChar(c: char): char
  {
    if 'a' <= c <= 'z' then (c as int - 'a' as int + 'A' as int) as char else c
  }

  /** strtoupper. */
  function Upper(s: string): (r: string)
    ensures |r| == |s|
    ensures forall i :: 0 <= i < |s| && !('a' <= s[i] <= 'z') ==> r[i] == s[i]
  {
    seq(|s|, i requires 0 <= i < |s| => UpperChar(s[i]))
  }

  /** The `type` recorded for a value, written out per kind. */
  function TypeLabel(v: Value): string
  {
    match v
    case VInt(_) => "INTEGER"
    case VDouble(_) => "DOUBLE"
    case VBool(_) => "BOOLEAN"
    case VString(_) => "STRING"
    case VNull => "NULL"
    case VObject(_) => "OBJECT"
    case VArray(_) => "ARRAY"
  }

  /** strtoupper(gettype(v)) is the upper-case label of v's kind, and different kinds get
      different labels. */
  lemma UpperTypeName(v: Value, w: Value)
    ensures Upper(TypeName(v)) == TypeLabel(v)
    ensures TypeLabel(v) == TypeLabel(w) <==>
      (v.VInt? && w.VInt?) || (v.VDouble? && w.VDouble?) || (v.VBool? && w.VBool?)
      || (v.VString? && w.VString?) || (v.VNull? && w.VNull?) || (v.VObject? && w.VObject?)
      || (v.VArray? && w.VArray?)
  {
    var s := TypeName(v);
    assert Upper(s) == TypeLabel(v) by {
      forall i | 0 <= i < |s| ensures Upper(s)[i] == TypeLabel(v)[i] {
      }
    }
    if TypeLabel(v) == TypeLabel(w) {
      assert TypeLabel(v)[0] == TypeLabel(w)[0];
      assert |TypeLabel(v)| == |TypeLabel(w)|;
    }
  }

  // ---------------------------------------------------------------------------
  // The struct definition of an item

  /** The entries one array attribute contributes: its keys with their upper-cased types. */
  function Describe(entries: seq<(Key, Value)>): (r: seq<StructField>)
    ensures |r| == |entries|
    ensures forall k :: 0 <= k < |entries| ==> r[k].name == entries[k].0
  {
    seq(|entries|, k requires 0 <= k < |entries| => StructField(entries[k].0, Upper(TypeName(entries[k].1))))
  }

  /** Describing one more entry appends its description. */
  lemma DescribeSnoc(entries: seq<(Key, Value)>, k: nat)
    requires k < |entries|
    ensures Describe(entries[..k + 1]) == Describe(entries[..k]) + [StructField(entries[k].0, Upper(TypeName(entries[k].1)))]
  {
    var a := Describe(entries[..k + 1]);
    var b := Describe(entries[..k]) + [StructField(entries[k].0, Upper(TypeName(entries[k].1)))];
    forall j | 0 <= j < k + 1 ensures a[j] == b[j] {
      assert entries[..k + 1][j] == entries[j];
    }
  }

  /** What one attribute adds to `$struct`: the description of an array, nothing otherwise. */
  function Contribution(attr: (string, Value)): seq<StructField>
  {
    if attr.1.VArray? then Describe(attr.1.entries) else []
  }

  /** `$struct` after the attribute loop: the contributions of the attributes in order. */
  function StructOf(attrs: seq<(string, Value)>): seq<StructField>
  {
    if attrs == [] then []
    else StructOf(attrs[..|attrs| - 1]) + Contribution(attrs[|attrs| - 1])
  }

  /** One more attribute appends its contribution. */
  lemma StructOfSnoc(attrs: seq<(string, Value)>, j: nat)
    requires j < |attrs|
    ensures StructOf(attrs[..j + 1]) == StructOf(attrs[..j]) + Contribution(attrs[j])
  {
    assert attrs[..j + 1][..j] == attrs[..j];
  }

  /** The number of entries over all array attributes. */
  function ArrayEntryCount(attrs: seq<(string, Value)>): nat
  {
    if attrs == [] then 0
    else ArrayEntryCount(attrs[..|attrs| - 1]) + (if attrs[|attrs| - 1].1.VArray? then |attrs[|attrs| - 1].1.entries| else 0)
  }

  /** `$struct` has one entry per entry of an array attribute, so it is empty exactly when
      no attribute is a non-empty array. */
  lemma {:induction false} StructOfSize(attrs: seq<(string, Value)>)
    ensures |StructOf(attrs)| == ArrayEntryCount(attrs)
    ensures |StructOf(attrs)| == 0 <==> forall i :: 0 <= i < |attrs| ==> !(attrs[i].1.VArray? && |attrs[i].1.entries| > 0)
  {
    if attrs != [] {
      var init := attrs[..|attrs| - 1];
      StructOfSize(init);
      forall i | 0 <= i < |init| ensures init[i] == attrs[i] {
      }
    }
  }

  /** Attribute lists concatenate to concatenated struct definitions. */
  lemma {:induction false} StructOfAppend(a: seq<(string, Value)>, b: seq<(string, Value)>)
    ensures StructOf(a + b) == StructOf(a) + StructOf(b)
  {
    if b == [] {
      assert a + b == a;
    } else {
      var init := b[..|b| - 1];
      Seqs.AppendInit(a, b);
      StructOfAppend(a, init);
      StructOfUnfold(a + b);
      StructOfUnfold(b);
      Seqs.Assoc(StructOf(a), StructOf(init), Contribution(b[|b| - 1]));
    }
  }

  /** One step of StructOf on a non-empty list. */
  lemma StructOfUnfold(s: seq<(string, Value)>)
    requires s != []
    ensures StructOf(s) == StructOf(s[..|s| - 1]) + Contribution(s[|s| - 1])
  {
  }

  /** Every `fields` entry is some array attribute's entry, keyed as in the attribute
      and typed by strtoupper(gettype). */
  lemma {:induction false} StructOfEntries(attrs: seq<(string, Value)>, f: StructField)
    requires f in StructOf(attrs)
    ensures exists i, k :: (0 <= i < |attrs| && attrs[i].1.VArray? && 0 <= k < |attrs[i].1.entries|
      && f == StructField(attrs[i].1.entries[k].0, TypeLabel(attrs[i].1.entries[k].1)))
  {
    var init := attrs[..|attrs| - 1];
    var last := attrs[|attrs| - 1];
    if f in StructOf(init) {
      StructOfEntries(init, f);
      var i, k :| 0 <= i < |init| && init[i].1.VArray? && 0 <= k < |init[i].1.entries|
        && f == StructField(init[i].1.entries[k].0, TypeLabel(init[i].1.entries[k].1));
      assert init[i] == attrs[i];
    } else {
      var k :| 0 <= k < |Contribution(last)| && Contribution(last)[k] == f;
      UpperTypeName(last.1.entries[k].1, last.1.entries[k].1);
      assert f == StructField(attrs[|attrs| - 1].1.entries[k].0, TypeLabel(attrs[|attrs| - 1].1.entries[k].1));
    }
  }

  // ---------------------------------------------------------------------------
  // One row and the whole batch

  /** The row prepared for one item. */
  function PrepareRow(item: Entity): (r: PreparedRow)
    ensures r.data == item.attributes
    ensures r.insertId == (if item.incrementing then Some(item.key) else None)
    ensures r.fields.Some? <==>
      item.incrementing || exists i :: 0 <= i < |item.attributes| && item.attributes[i].1.VArray? && |item.attributes[i].1.entries| > 0
    ensures r.fields.Some? ==> r.fields.value == StructOf(item.attributes)
  {
    var struct := StructOf(item.attributes);
    StructOfSize(item.attributes);
    var rowData := if item.incrementing
      then PreparedRow(Some(item.key), item.attributes, Some(struct))
      else PreparedRow(None, item.attributes, None);
    if |struct| > 0 then rowData.(fields := Some(struct)) else rowData
  }

  /** The inner loops of Big::prepareData for one item: a pass over its attributes and,
      for each array attribute, a pass over its entries, appending to `struct`. */
  method CollectStruct(itemArr: seq<(string, Value)>) returns (struct: seq<StructField>)
    ensures struct == StructOf(itemArr)
  {
    struct := [];
    for j := 0 to |itemArr|
      invariant struct == StructOf(itemArr[..j])
    {
      var value := itemArr[j].1;
      StructOfSnoc(itemArr, j);
      if value.VArray? {
        var entries := value.entries;
        for k := 0 to |entries|
          invariant struct == StructOf(itemArr[..j]) + Describe(entries[..k])
        {
          DescribeSnoc(entries, k);
          struct := struct + [StructField(entries[k].0, Upper(TypeName(entries[k].1)))];
        }
        assert entries[..|entries|] == entries;
      }
    }
    assert itemArr[..|itemArr|] == itemArr;
  }

  /** Big::prepareData: one pass over the items, building each item's row. */
  method PrepareData(items: seq<Entity>) returns (preparedData: seq<PreparedRow>)
    ensures |preparedData| == |items|
    ensures forall i :: 0 <= i < |items| ==> preparedData[i] == PrepareRow(items[i])
  {
    preparedData := [];
    for n := 0 to |items|
      invariant |preparedData| == n
      invariant forall i :: 0 <= i < n ==> preparedData[i] == PrepareRow(items[i])
    {
      var item := items[n];
      var itemArr := item.attributes;
      var struct := CollectStruct(itemArr);
      var rowData: PreparedRow;
      if item.incrementing {
        rowData := PreparedRow(Some(item.key), itemArr, Some(struct));
      } else {
        rowData := PreparedRow(None, itemArr, None);
      }
      if |struct| > 0 {
        rowData := rowData.(fields := Some(struct));
      }
      preparedData := preparedData + [rowData];
    }
  }
}
