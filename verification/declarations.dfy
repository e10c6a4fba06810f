/** What a caller passes to the definition functions, and the errors those
    functions throw. */
module Declarations {
  import opened Wrappers
  import opened JsValues
  import opened Text

  /** One entry of the `fields` list: a column declaration as written by the
      caller. An absent property is `None` or `Undefined`. The SQL type is the
      `type` property. */
  datatype ColumnOptions = ColumnOptions(
    name: Option<string>,
    column: Option<string>,
    sqlType: Option<string>,
    primaryKey: JsValue,
    autoIncrement: JsValue,
    allowNull: JsValue,
    index: JsValue,
    unique: JsValue,
    defaultValue: JsValue,
    validate: JsValue)

  /** The `options` argument of a model definition. */
  datatype ModelOptions = ModelOptions(table: JsValue, beforeCreate: JsValue, beforeUpdate: JsValue)

  /** JavaScript truthiness of an optional string property. */
  predicate Present(s: Option<string>) {
    s.Some? && s.value != ""
  }

  /** The declaration's name is present and matches `^[a-zA-Z0-9_]+$`. */
  predicate NameOk(o: ColumnOptions) {
    o.name.Some? && IsName(o.name.value)
  }

  /** How an optional string prints when concatenated to a message. */
  function Describe(s: Option<string>): string {
    match s
    case None => "undefined"
    case Some(v) => v
  }

  /** The errors thrown while a definition is parsed. `MissingType` is the
      `TypeError` raised by calling `toLowerCase` on an absent `type`; the
      others are the `Error`s the definition code throws itself. */
  datatype DefinitionError =
    | MissingType
    | InvalidColumnName(name: Option<string>)
    | InvalidColumn(column: string)
    | InvalidModelName(model: Option<string>)
    | PrimaryKeyNotFound(modelName: string)
    | MultiplePrimaryKeys(modelName: string)
  {
    /** The message the thrown `Error` carries. */
    function Message(): string {
      match this
      case MissingType => "Cannot read properties of undefined (reading 'toLowerCase')"
      case InvalidColumnName(n) => "name is invalid: " + Describe(n)
      case InvalidColumn(c) => "column is invalid: " + c
      case InvalidModelName(m) => "Name is invalid: " + Describe(m)
      case PrimaryKeyNotFound(m) => "Primary key not found in " + m
      case MultiplePrimaryKeys(m) => "More than 1 primary keys are found in " + m
    }
  }
}
