/** `parseColumnDefinition` of utils.js: validation and normalisation of one
    column declaration. */
module ColumnDefinition {
  import opened Wrappers
  import opened JsValues
  import opened Text
  import opened Declarations

  /** A normalised column: every flag is a strict boolean, the SQL type is
      lower case, and `booleanType` is derived from it once. */
  datatype Column = Column(
    name: string,
    sqlType: string,
    booleanType: bool,
    primaryKey: bool,
    autoIncrement: bool,
    allowNull: bool,
    index: bool,
    unique: bool,
    defaultValue: JsValue,
    validate: JsValue,
    defaultValueIsFunction: bool)

  /** The lower-cased type names that make a column boolean. */
  predicate IsBooleanTypeName(t: string) {
    t == "bool" || t == "boolean"
  }

  /** What every column produced by `ParseColumn` satisfies. */
  predicate Valid(c: Column) {
    && IsName(c.name)
    && IsLowerCase(c.sqlType)
    && c.booleanType == IsBooleanTypeName(c.sqlType)
    && (c.autoIncrement ==> c.primaryKey)
    && c.defaultValueIsFunction == IsFunction(c.defaultValue)
  }

  /** The declaration has a type and an acceptable name, so that
      `ParseColumn` accepts it. */
  predicate Parses(o: ColumnOptions) {
    o.sqlType.Some? && NameOk(o)
  }

  /** Parses one column declaration. The type is lower-cased before the name
      is checked, so a declaration without a type fails with the resulting
      `TypeError` whatever its name. */
  function ParseColumn(o: ColumnOptions): (r: Result<Column, DefinitionError>)
    ensures r.Success? <==> Parses(o)
    ensures o.sqlType.None? ==> r == Failure(MissingType)
    ensures o.sqlType.Some? && !NameOk(o) ==> r == Failure(InvalidColumnName(o.name))
    ensures r.Success? ==> Valid(r.value) && r.value.name == o.name.value
  {
    if o.sqlType.None? then Failure(MissingType)
    else
      var sqlType := ToLower(o.sqlType.value);
      var primaryKey := Truthy(o.primaryKey);
      var autoIncrement := primaryKey && Truthy(o.autoIncrement);
      if !Present(o.name) || !IsName(o.name.value) then
        Failure(InvalidColumnName(o.name))
      else
        Success(Column(
          name := o.name.value,
          sqlType := sqlType,
          booleanType := sqlType == "bool" || sqlType == "boolean",
          primaryKey := primaryKey,
          autoIncrement := autoIncrement,
          allowNull := Truthy(o.allowNull),
          index := Truthy(o.index),
          unique := Truthy(o.unique),
          defaultValue := o.defaultValue,
          validate := o.validate,
          defaultValueIsFunction := IsFunction(o.defaultValue)))
  }

  /** How the flags and the type of a declaration reach the parsed column. */
  lemma ParseColumnFields(o: ColumnOptions)
    requires ParseColumn(o).Success?
    ensures var c := ParseColumn(o).value;
      && c.sqlType == ToLower(o.sqlType.value)
      && (c.booleanType <==> ToLower(o.sqlType.value) in {"bool", "boolean"})
      && c.primaryKey == Truthy(o.primaryKey)
      && (c.autoIncrement <==> Truthy(o.primaryKey) && Truthy(o.autoIncrement))
      && c.allowNull == Truthy(o.allowNull)
      && c.index == Truthy(o.index)
      && c.unique == Truthy(o.unique)
      && c.defaultValue == o.defaultValue
      && c.validate == o.validate
      && (c.defaultValueIsFunction <==> o.defaultValue.Func?)
  {
  }

  /** The declaration that writes a normalised column out literally. */
  function AsOptions(c: Column): ColumnOptions {
    ColumnOptions(
      name := Some(c.name),
      column := None,
      sqlType := Some(c.sqlType),
      primaryKey := Bool(c.primaryKey),
      autoIncrement := Bool(c.autoIncrement),
      allowNull := Bool(c.allowNull),
      index := Bool(c.index),
      unique := Bool(c.unique),
      defaultValue := c.defaultValue,
      validate := c.validate)
  }

  /** Normalisation is a fixpoint: parsing the literal declaration of any
      valid column gives that column back. In particular parsing a parsed
      column again changes nothing. */
  lemma {:induction false} ParseColumnRoundTrip(c: Column)
    requires Valid(c)
    ensures ParseColumn(AsOptions(c)) == Success(c)
  {
    ToLowerOfLowerCase(c.sqlType);
  }

  /** `a` and `b` spell the same text up to the case of ASCII letters. */
  predicate SameIgnoringCase(a: string, b: string) {
    && |a| == |b|
    && forall i :: 0 <= i < |a| ==>
         || a[i] == b[i]
         || (IsUpperChar(a[i]) && b[i] as int == a[i] as int + 32)
         || (IsUpperChar(b[i]) && a[i] as int == b[i] as int + 32)
  }

  /** The type is compared without regard to case: two declarations whose
      types differ only in the case of ASCII letters (`"BOOLEAN"` and
      `"Boolean"`, say) give the same column. */
  lemma {:induction false} ParseColumnIgnoresTypeCase(o: ColumnOptions, t: string)
    requires o.sqlType.Some?
    requires SameIgnoringCase(t, o.sqlType.value)
    ensures ParseColumn(o.(sqlType := Some(t))) == ParseColumn(o)
  {
    var u := o.sqlType.value;
    assert ToLower(t) == ToLower(u) by {
      forall i | 0 <= i < |t|
        ensures ToLower(t)[i] == ToLower(u)[i]
      {
        assert LowerChar(t[i]) == LowerChar(u[i]);
      }
    }
  }
}
