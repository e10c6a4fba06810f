/** `parseModelDefinition` of utils.js: the fixed shape of one table mapping,
    derived once from the model name, its column declarations and its
    options. */
module ModelDefinition {
  import opened Wrappers
  import opened JsValues
  import opened Text
  import opened Collections
  import opened Declarations
  import opened ColumnDefinition
  import opened QuotedNames

  /** A parsed model definition. `attributes` and `booleanKeys` are keyed by
      column name; the three attribute lists keep declaration order. */
  datatype Model = Model(
    name: string,
    table: JsValue,
    primaryKey: string,
    booleanKeys: map<string, bool>,
    fetchInsertId: bool,
    attributes: map<string, Column>,
    selectAttributes: seq<string>,
    insertAttributes: seq<string>,
    updateAttributes: seq<string>,
    selectAttributesNames: string,
    insertAttributesNames: string,
    beforeCreate: JsValue,
    beforeUpdate: JsValue)

  /** `configs[i]` is the first declaration `ParseColumn` rejects. */
  predicate FirstUnparsed(configs: seq<ColumnOptions>, i: int) {
    && 0 <= i < |configs|
    && !Parses(configs[i])
    && forall j :: 0 <= j < i ==> Parses(configs[j])
  }

  /** `flags[k]` is the one flag that is set. */
  predicate SoleFlag(flags: seq<bool>, k: int) {
    && 0 <= k < |flags|
    && flags[k]
    && forall j :: 0 <= j < |flags| && j != k ==> !flags[j]
  }

  /** Which declarations ask to be the primary key, by truthiness. */
  function DeclaredKeys(configs: seq<ColumnOptions>): (r: seq<bool>)
    ensures |r| == |configs|
    ensures forall i :: 0 <= i < |configs| ==> r[i] == Truthy(configs[i].primaryKey)
  {
    seq(|configs|, i requires 0 <= i < |configs| => Truthy(configs[i].primaryKey))
  }

  /** Which parsed columns are primary keys. */
  function KeyFlags(cols: seq<Column>): (r: seq<bool>)
    ensures |r| == |cols|
    ensures forall i :: 0 <= i < |cols| ==> r[i] == cols[i].primaryKey
  {
    seq(|cols|, i requires 0 <= i < |cols| => cols[i].primaryKey)
  }

  /** `configs[k]` is the one declaration with a truthy `primaryKey`. */
  predicate IsOnlyPrimaryKey(configs: seq<ColumnOptions>, k: int) {
    SoleFlag(DeclaredKeys(configs), k)
  }

  /** `cols[k]` is the one primary-key column. */
  predicate OnlyKey(cols: seq<Column>, k: int) {
    SoleFlag(KeyFlags(cols), k)
  }

  /** `_.map(fieldConfigs, parseColumnDefinition)`: the first rejected
      declaration aborts the whole list. */
  function ParseColumns(configs: seq<ColumnOptions>): (r: Result<seq<Column>, DefinitionError>)
    ensures r.Success? <==> forall i :: 0 <= i < |configs| ==> Parses(configs[i])
    ensures r.Success? ==> |r.value| == |configs|
    ensures r.Success? ==> forall i :: 0 <= i < |configs| ==> ParseColumn(configs[i]) == Success(r.value[i])
    ensures r.Failure? ==> exists i :: FirstUnparsed(configs, i) && ParseColumn(configs[i]) == Failure(r.error)
    decreases |configs|
  {
    if |configs| == 0 then Success([])
    else
      var c :- ParseColumn(configs[0]);
      var rest :- ParseColumns(configs[1..]);
      assert forall i :: 1 <= i < |configs| ==> configs[i] == configs[1..][i - 1];
      Success([c] + rest)
  }

  /** The column names, in declaration order. */
  function Names(cols: seq<Column>): (r: seq<string>)
    ensures |r| == |cols|
    ensures forall i :: 0 <= i < |cols| ==> r[i] == cols[i].name
  {
    seq(|cols|, i requires 0 <= i < |cols| => cols[i].name)
  }

  /** `_.filter(columns, c => c.primaryKey)`. */
  function KeyColumns(cols: seq<Column>): seq<Column>
    decreases |cols|
  {
    if |cols| == 0 then []
    else (if cols[0].primaryKey then [cols[0]] else []) + KeyColumns(cols[1..])
  }

  /** The two column filters of the definition. */
  datatype Exclusion = PrimaryKeyColumns | AutoIncrementColumns

  predicate Excluded(x: Exclusion, c: Column) {
    match x
    case PrimaryKeyColumns => c.primaryKey
    case AutoIncrementColumns => c.autoIncrement
  }

  /** The names of the columns the filter keeps, in declaration order. */
  function NamesExcept(cols: seq<Column>, x: Exclusion): seq<string>
    decreases |cols|
  {
    if |cols| == 0 then []
    else (if Excluded(x, cols[0]) then [] else [cols[0].name]) + NamesExcept(cols[1..], x)
  }

  /** The column's `booleanType` flags, in declaration order. */
  function BooleanFlags(cols: seq<Column>): (r: seq<bool>)
    ensures |r| == |cols|
    ensures forall i :: 0 <= i < |cols| ==> r[i] == cols[i].booleanType
  {
    seq(|cols|, i requires 0 <= i < |cols| => cols[i].booleanType)
  }

  /** Parses a model definition. `options` is an object: the original reads
      `options.beforeCreate` without the guard it puts on `options.table`. */
  function ParseModel(name: Option<string>, configs: seq<ColumnOptions>, options: ModelOptions)
    : (r: Result<Model, DefinitionError>)
    ensures r.Success? ==> Present(name) && r.value.name == name.value
    ensures r.Success? ==> r.value.table == (if Truthy(options.table) then options.table else Str(name.value))
    ensures r.Success? ==> Truthy(r.value.table)
    ensures r.Success? ==> r.value.beforeCreate == (if Truthy(options.beforeCreate) then options.beforeCreate else Null)
    ensures r.Success? ==> r.value.beforeUpdate == (if Truthy(options.beforeUpdate) then options.beforeUpdate else Null)
  {
    if !Present(name) then Failure(InvalidModelName(name))
    else
      var cols :- ParseColumns(configs);
      var keys := KeyColumns(cols);
      if |keys| == 0 then Failure(PrimaryKeyNotFound(name.value))
      else if |keys| > 1 then Failure(MultiplePrimaryKeys(name.value))
      else
        var select := Names(cols);
        var insert := NamesExcept(cols, AutoIncrementColumns);
        Success(Model(
          name := name.value,
          table := Or(options.table, Str(name.value)),
          primaryKey := keys[0].name,
          booleanKeys := Assign(select, BooleanFlags(cols)),
          fetchInsertId := keys[0].autoIncrement,
          attributes := Assign(select, cols),
          selectAttributes := select,
          insertAttributes := insert,
          updateAttributes := NamesExcept(cols, PrimaryKeyColumns),
          selectAttributesNames := QuotedList(select),
          insertAttributesNames := QuotedList(insert),
          beforeCreate := Or(options.beforeCreate, Null),
          beforeUpdate := Or(options.beforeUpdate, Null)))
  }

  // ----- Facts about the filters -----

  /** No column is a primary key exactly when the key filter finds none, and
      one column is when it finds exactly that column. */
  lemma {:induction false} KeyColumnsCount(cols: seq<Column>)
    ensures |KeyColumns(cols)| == 0 <==> forall i :: 0 <= i < |cols| ==> !cols[i].primaryKey
    ensures forall k :: OnlyKey(cols, k) ==> KeyColumns(cols) == [cols[k]]
    ensures |KeyColumns(cols)| == 1 ==> exists k :: OnlyKey(cols, k)
    decreases |cols|
  {
    if |cols| > 0 {
      var tail := cols[1..];
      KeyColumnsCount(tail);
      assert forall i :: 1 <= i < |cols| ==> cols[i] == tail[i - 1];
      forall k | OnlyKey(cols, k)
        ensures KeyColumns(cols) == [cols[k]]
      {
        if k == 0 {
          assert forall i :: 0 <= i < |tail| ==> !tail[i].primaryKey;
        } else {
          assert OnlyKey(tail, k - 1);
        }
      }
      if |KeyColumns(cols)| == 1 {
        if cols[0].primaryKey {
          assert |KeyColumns(tail)| == 0;
          assert OnlyKey(cols, 0);
        } else {
          var k :| OnlyKey(tail, k);
          assert OnlyKey(cols, k + 1);
        }
      }
    }
  }

  /** A filter that rejects no column keeps every name. */
  lemma {:induction false} NamesExceptNone(cols: seq<Column>, x: Exclusion)
    requires forall i :: 0 <= i < |cols| ==> !Excluded(x, cols[i])
    ensures NamesExcept(cols, x) == Names(cols)
    decreases |cols|
  {
    if |cols| > 0 {
      NamesExceptNone(cols[1..], x);
      assert Names(cols) == [cols[0].name] + Names(cols[1..]);
    }
  }

  /** A filter that rejects exactly the column at `k` removes that one name
      and keeps the order of the others. */
  lemma {:induction false} NamesExceptOne(cols: seq<Column>, x: Exclusion, k: nat)
    requires k < |cols|
    requires Excluded(x, cols[k])
    requires forall i :: 0 <= i < |cols| && i != k ==> !Excluded(x, cols[i])
    ensures NamesExcept(cols, x) == RemoveAt(Names(cols), k)
    decreases |cols|
  {
    var tail := cols[1..];
    if k == 0 {
      NamesExceptNone(tail, x);
      assert Names(cols)[1..] == Names(tail);
    } else {
      NamesExceptOne(tail, x, k - 1);
      assert Names(cols) == [cols[0].name] + Names(tail);
      assert RemoveAt(Names(cols), k) == [cols[0].name] + RemoveAt(Names(tail), k - 1);
    }
  }

  // ----- Properties of a parsed model -----

  /** The column list reflects the declarations one by one. */
  lemma ParsedColumns(configs: seq<ColumnOptions>, cols: seq<Column>)
    requires ParseColumns(configs) == Success(cols)
    ensures |cols| == |configs|
    ensures forall i :: 0 <= i < |cols| ==>
      cols[i].name == configs[i].name.value && (cols[i].primaryKey <==> Truthy(configs[i].primaryKey))
      && (cols[i].autoIncrement <==> Truthy(configs[i].primaryKey) && Truthy(configs[i].autoIncrement))
      && Valid(cols[i])
  {
  }

  /** When and how a model definition is rejected: an empty name first, then
      the first rejected column (an untyped one or one with a bad name), then
      a missing or repeated primary key. Nothing is read from the columns
      once the model name is rejected. */
  lemma ParseModelErrors(name: Option<string>, configs: seq<ColumnOptions>, options: ModelOptions)
    ensures !Present(name) ==> ParseModel(name, configs, options) == Failure(InvalidModelName(name))
    ensures Present(name) && !(forall i :: 0 <= i < |configs| ==> Parses(configs[i])) ==>
      exists i :: FirstUnparsed(configs, i) && ParseModel(name, configs, options) == Failure(ParseColumn(configs[i]).error)
    ensures (&& Present(name) && (forall i :: 0 <= i < |configs| ==> Parses(configs[i]))
             && (forall i :: 0 <= i < |configs| ==> !Truthy(configs[i].primaryKey))) ==>
      ParseModel(name, configs, options) == Failure(PrimaryKeyNotFound(name.value))
    ensures (&& Present(name) && (forall i :: 0 <= i < |configs| ==> Parses(configs[i]))
             && (exists i, j :: 0 <= i < j < |configs| && Truthy(configs[i].primaryKey) && Truthy(configs[j].primaryKey))) ==>
      ParseModel(name, configs, options) == Failure(MultiplePrimaryKeys(name.value))
    ensures ParseModel(name, configs, options).Success? <==>
      Present(name) && (forall i :: 0 <= i < |configs| ==> Parses(configs[i])) && exists k :: IsOnlyPrimaryKey(configs, k)
  {
    if Present(name) && forall i :: 0 <= i < |configs| ==> Parses(configs[i]) {
      var cols := ParseColumns(configs).value;
      ParsedColumns(configs, cols);
      KeyColumnsCount(cols);
      forall k | IsOnlyPrimaryKey(configs, k)
        ensures OnlyKey(cols, k)
      {
      }
      forall k | OnlyKey(cols, k)
        ensures IsOnlyPrimaryKey(configs, k)
      {
      }
      if exists i, j :: 0 <= i < j < |configs| && Truthy(configs[i].primaryKey) && Truthy(configs[j].primaryKey) {
        var i, j :| 0 <= i < j < |configs| && Truthy(configs[i].primaryKey) && Truthy(configs[j].primaryKey);
        assert forall k :: !OnlyKey(cols, k);
      }
    } else if Present(name) {
      var r := ParseColumns(configs);
      var i :| FirstUnparsed(configs, i) && ParseColumn(configs[i]) == Failure(r.error);
      assert ParseModel(name, configs, options) == Failure(r.error);
    }
  }

  /** The primary key of a parsed model is the one declaration marked as
      primary key, and an insert id is fetched exactly when that column is
      auto-increment. */
  lemma ParseModelKey(name: Option<string>, configs: seq<ColumnOptions>, options: ModelOptions, k: int)
    requires ParseModel(name, configs, options).Success?
    requires IsOnlyPrimaryKey(configs, k)
    ensures ParseModel(name, configs, options).value.primaryKey == configs[k].name.value
    ensures ParseModel(name, configs, options).value.fetchInsertId == Truthy(configs[k].autoIncrement)
  {
    var cols := ParseColumns(configs).value;
    ParsedColumns(configs, cols);
    KeyColumnsCount(cols);
    assert OnlyKey(cols, k);
  }

  /** `selectAttributes` is every declared name, in declaration order. */
  lemma ParseModelSelectList(name: Option<string>, configs: seq<ColumnOptions>, options: ModelOptions)
    requires ParseModel(name, configs, options).Success?
    ensures var m := ParseModel(name, configs, options).value;
      && |m.selectAttributes| == |configs|
      && forall i :: 0 <= i < |configs| ==> m.selectAttributes[i] == configs[i].name.value
  {
    var cols := ParseColumns(configs).value;
    ParsedColumns(configs, cols);
  }

  /** `updateAttributes` is the select list without the primary key, the
      other names in order. */
  lemma ParseModelUpdateList(name: Option<string>, configs: seq<ColumnOptions>, options: ModelOptions, k: int)
    requires ParseModel(name, configs, options).Success?
    requires IsOnlyPrimaryKey(configs, k)
    ensures var m := ParseModel(name, configs, options).value;
      m.updateAttributes == RemoveAt(m.selectAttributes, k)
  {
    var cols := ParseColumns(configs).value;
    ParsedColumns(configs, cols);
    assert OnlyKey(cols, k);
    NamesExceptOne(cols, PrimaryKeyColumns, k);
  }

  /** `insertAttributes` is the select list without the auto-increment
      column: the primary key when an insert id is fetched, and no column
      otherwise. */
  lemma ParseModelInsertList(name: Option<string>, configs: seq<ColumnOptions>, options: ModelOptions, k: int)
    requires ParseModel(name, configs, options).Success?
    requires IsOnlyPrimaryKey(configs, k)
    ensures var m := ParseModel(name, configs, options).value;
      m.insertAttributes == (if m.fetchInsertId then RemoveAt(m.selectAttributes, k) else m.selectAttributes)
  {
    var cols := ParseColumns(configs).value;
    ParsedColumns(configs, cols);
    KeyColumnsCount(cols);
    assert OnlyKey(cols, k);
    if cols[k].autoIncrement {
      NamesExceptOne(cols, AutoIncrementColumns, k);
    } else {
      NamesExceptNone(cols, AutoIncrementColumns);
    }
  }

  /** The column map has one entry per declared name; a name declared twice
      keeps its last declaration. */
  lemma ParseModelAttributes(name: Option<string>, configs: seq<ColumnOptions>, options: ModelOptions)
    requires ParseModel(name, configs, options).Success?
    ensures var m := ParseModel(name, configs, options).value;
      && (forall n :: n in m.attributes <==> n in m.selectAttributes)
      && forall i :: IsLastOccurrence(m.selectAttributes, i) ==>
           ParseColumn(configs[i]) == Success(m.attributes[m.selectAttributes[i]])
  {
    var cols := ParseColumns(configs).value;
    AssignContents(Names(cols), cols);
  }

  /** The boolean-key map has one entry per declared name, holding whether
      the (last) column of that name has a boolean type. */
  lemma ParseModelBooleanKeys(name: Option<string>, configs: seq<ColumnOptions>, options: ModelOptions)
    requires ParseModel(name, configs, options).Success?
    ensures var m := ParseModel(name, configs, options).value;
      && (forall n :: n in m.booleanKeys <==> n in m.selectAttributes)
      && forall i :: IsLastOccurrence(m.selectAttributes, i) ==>
           m.booleanKeys[m.selectAttributes[i]] == ParseColumn(configs[i]).value.booleanType
  {
    var cols := ParseColumns(configs).value;
    AssignContents(Names(cols), BooleanFlags(cols));
  }

  /** The pre-built name strings read back as the select and insert lists. */
  lemma ParseModelQuotedNames(name: Option<string>, configs: seq<ColumnOptions>, options: ModelOptions)
    requires ParseModel(name, configs, options).Success?
    ensures var m := ParseModel(name, configs, options).value;
      && ParseQuotedList(m.selectAttributesNames) == Some(m.selectAttributes)
      && ParseQuotedList(m.insertAttributesNames) == Some(m.insertAttributes)
  {
    var cols := ParseColumns(configs).value;
    ParsedColumns(configs, cols);
    NamesHaveNoBackquotes(cols);
    NamesExceptSubset(cols, AutoIncrementColumns);
    QuotedListRoundTrip(Names(cols));
    QuotedListRoundTrip(NamesExcept(cols, AutoIncrementColumns));
  }

  lemma NamesHaveNoBackquotes(cols: seq<Column>)
    requires forall i :: 0 <= i < |cols| ==> IsName(cols[i].name)
    ensures NoBackquotes(Names(cols))
  {
  }

  /** Every name a filter keeps is a name of one of the columns. */
  lemma {:induction false} NamesExceptSubset(cols: seq<Column>, x: Exclusion)
    ensures forall n :: n in NamesExcept(cols, x) ==> n in Names(cols)
    decreases |cols|
  {
    if |cols| > 0 {
      NamesExceptSubset(cols[1..], x);
      assert Names(cols) == [cols[0].name] + Names(cols[1..]);
    }
  }
}
