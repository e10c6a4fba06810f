/** The earlier definition layer of warp.js: `defineColumn`, with its
    separate physical `column` name, and `define`, which keys the parsed
    columns by attribute name. */
module WarpDefinition {
  import opened Wrappers
  import opened JsValues
  import opened Text
  import opened Collections
  import opened Declarations
  import ColumnDefinition

  /** A column as `defineColumn` returns it. The type is copied as given and
      the attribute name itself is not kept. */
  datatype WarpColumn = WarpColumn(
    column: string,
    sqlType: Option<string>,
    primaryKey: bool,
    allowNull: bool,
    defaultValue: JsValue,
    validate: JsValue,
    defaultValueIsFunction: bool)

  /** Validates one declaration. The name must match `^[a-zA-Z0-9_]+$`; an
      explicit (truthy) `column` must match `^[a-zA-Z0-9$_]+$`, and an
      absent or empty one falls back to the name. */
  function DefineColumn(o: ColumnOptions): (r: Result<WarpColumn, DefinitionError>)
    ensures r.Success? <==> NameOk(o) && (!Present(o.column) || IsColumnName(o.column.value))
    ensures !NameOk(o) ==> r == Failure(InvalidColumnName(o.name))
    ensures NameOk(o) && Present(o.column) && !IsColumnName(o.column.value) ==>
      r == Failure(InvalidColumn(o.column.value))
    ensures r.Success? ==> IsColumnName(r.value.column)
    ensures r.Success? ==> r.value.column == (if Present(o.column) then o.column.value else o.name.value)
  {
    var primaryKey := Truthy(o.primaryKey);
    var allowNull := Truthy(o.allowNull);
    var defaultValueIsFunction := IsFunction(o.defaultValue);
    if !Present(o.name) || !IsName(o.name.value) then
      Failure(InvalidColumnName(o.name))
    else
      NameIsColumnName(o.name.value);
      var column := if !Present(o.column) then o.name.value else o.column.value;
      if Present(o.column) && !IsColumnName(column) then
        Failure(InvalidColumn(column))
      else
        Success(WarpColumn(
          column := column,
          sqlType := o.sqlType,
          primaryKey := primaryKey,
          allowNull := allowNull,
          defaultValue := o.defaultValue,
          validate := o.validate,
          defaultValueIsFunction := defaultValueIsFunction))
  }

  /** Every attribute name is also a valid physical column name. */
  lemma NameIsColumnName(s: string)
    requires IsName(s)
    ensures IsColumnName(s)
  {
  }

  /** The flags are strict booleans and the remaining fields are copied. */
  lemma DefineColumnFields(o: ColumnOptions)
    requires DefineColumn(o).Success?
    ensures var c := DefineColumn(o).value;
      && c.primaryKey == Truthy(o.primaryKey)
      && c.allowNull == Truthy(o.allowNull)
      && (c.defaultValueIsFunction <==> o.defaultValue.Func?)
      && c.sqlType == o.sqlType
      && c.defaultValue == o.defaultValue
      && c.validate == o.validate
  {
  }

  /** The result is a normal form: declaring the accepted column again,
      with its resolved `column` and strict flags written out, gives the same
      column. */
  lemma DefineColumnIdempotent(o: ColumnOptions)
    requires DefineColumn(o).Success?
    ensures var c := DefineColumn(o).value;
      DefineColumn(o.(column := Some(c.column), primaryKey := Bool(c.primaryKey), allowNull := Bool(c.allowNull)))
        == Success(c)
  {
  }

  /** The handle `define` returns: the model name and its column map. */
  datatype WarpModel = WarpModel(name: Option<string>, columns: map<string, WarpColumn>)

  /** `fields[i]` is the first declaration `defineColumn` rejects. */
  predicate FirstRejected(fields: seq<ColumnOptions>, i: int) {
    && 0 <= i < |fields|
    && DefineColumn(fields[i]).Failure?
    && forall j :: 0 <= j < i ==> DefineColumn(fields[j]).Success?
  }

  /** `defineColumn` on every declaration in order; the first error aborts. */
  function DefineColumns(fields: seq<ColumnOptions>): (r: Result<seq<WarpColumn>, DefinitionError>)
    ensures r.Success? <==> forall i :: 0 <= i < |fields| ==> DefineColumn(fields[i]).Success?
    ensures r.Success? ==> |r.value| == |fields|
    ensures r.Success? ==> forall i :: 0 <= i < |fields| ==> DefineColumn(fields[i]) == Success(r.value[i])
    ensures r.Failure? ==> exists i :: FirstRejected(fields, i) && r.error == DefineColumn(fields[i]).error
    decreases |fields|
  {
    if |fields| == 0 then Success([])
    else
      var c :- DefineColumn(fields[0]);
      var rest :- DefineColumns(fields[1..]);
      assert forall i :: 1 <= i < |fields| ==> fields[i] == fields[1..][i - 1];
      Success([c] + rest)
  }

  /** The attribute names of the declarations, in order. */
  function FieldNames(fields: seq<ColumnOptions>): (r: seq<string>)
    requires forall i :: 0 <= i < |fields| ==> fields[i].name.Some?
    ensures |r| == |fields|
    ensures forall i :: 0 <= i < |fields| ==> r[i] == fields[i].name.value
  {
    seq(|fields|, i requires 0 <= i < |fields| => fields[i].name.value)
  }

  /** `Warp.prototype.define`: `columns[options.name] = defineColumn(options)`
      for every declaration in order. */
  function Define(name: Option<string>, fields: seq<ColumnOptions>): (r: Result<WarpModel, DefinitionError>)
    ensures r.Success? <==> forall i :: 0 <= i < |fields| ==> DefineColumn(fields[i]).Success?
    ensures r.Failure? ==> exists i :: FirstRejected(fields, i) && r.error == DefineColumn(fields[i]).error
    ensures r.Success? ==> r.value.name == name
  {
    var cols :- DefineColumns(fields);
    Success(WarpModel(name, Assign(FieldNames(fields), cols)))
  }

  /** The keys of the column map are exactly the declared names. */
  lemma DefineColumnsKeys(name: Option<string>, fields: seq<ColumnOptions>)
    requires Define(name, fields).Success?
    ensures forall n :: n in Define(name, fields).value.columns <==>
      exists i :: 0 <= i < |fields| && fields[i].name == Some(n)
  {
    var cols := DefineColumns(fields).value;
    var names := FieldNames(fields);
    AssignContents(names, cols);
    forall n
      ensures n in names <==> exists i :: 0 <= i < |fields| && fields[i].name == Some(n)
    {
      if n in names {
        var i :| 0 <= i < |names| && names[i] == n;
        assert fields[i].name == Some(n);
      }
    }
  }

  /** A name declared twice maps to its last declaration: the later
      assignment overwrites the earlier one. */
  lemma DefineColumnsLastWins(name: Option<string>, fields: seq<ColumnOptions>, i: int)
    requires Define(name, fields).Success?
    requires 0 <= i < |fields|
    requires forall j :: i < j < |fields| ==> fields[j].name != fields[i].name
    ensures var m := Define(name, fields).value.columns;
      && fields[i].name.Some?
      && fields[i].name.value in m
      && DefineColumn(fields[i]) == Success(m[fields[i].name.value])
  {
    var names := FieldNames(fields);
    AssignContents(names, DefineColumns(fields).value);
    assert IsLastOccurrence(names, i);
  }

  /** The invalid declarations listed by the unit tests of the column parser:
      an attribute name with a dash, and a physical column name with a dash.
      `defineColumn` rejects both; the later `parseColumnDefinition` ignores
      `column` and so rejects only the first. */
  lemma InvalidDeclarations()
    ensures var o := ColumnOptions(Some("invalid-name"), None, Some("varchar(100)"),
                                   Undefined, Undefined, Undefined, Undefined, Undefined, Undefined, Undefined);
      && DefineColumn(o) == Failure(InvalidColumnName(Some("invalid-name")))
      && ColumnDefinition.ParseColumn(o) == Failure(InvalidColumnName(Some("invalid-name")))
    ensures var o := ColumnOptions(Some("email"), Some("the-email"), Some("varchar(100)"),
                                   Undefined, Undefined, Undefined, Undefined, Undefined, Undefined, Undefined);
      && DefineColumn(o) == Failure(InvalidColumn("the-email"))
      && ColumnDefinition.ParseColumn(o).Success?
  {
    assert !IsNameChar("invalid-name"[7]);
    assert !IsColumnChar("the-email"[3]);
    assert IsName("email") by {
      assert forall i :: 0 <= i < 5 ==> IsNameChar("email"[i]);
    }
  }
}
