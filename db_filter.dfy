/** DbFilter: one filter of a query, as the builder produces it and the
    predicate compiler consumes it, with the operator enumerations it uses. */
module DbFilters {
  import opened Results
  import opened Values
  import opened JavaTypes

  datatype QueryOperator = EQUALS | LIKE | IN | BETWEEN | GREATER_THAN | LESS_THAN | JOIN

  datatype LogicalOperator = AND | OR | NOT

  datatype ControlFlag = DATE_TIME_SPLIT

  /** Enum.toString / name(). */
  function OperatorName(op: QueryOperator): string {
    match op
    case EQUALS => "EQUALS"
    case LIKE => "LIKE"
    case IN => "IN"
    case BETWEEN => "BETWEEN"
    case GREATER_THAN => "GREATER_THAN"
    case LESS_THAN => "LESS_THAN"
    case JOIN => "JOIN"
  }

  /** The filter record. A null Java reference is Null for `value` and None
      for the optional parts; `originalClass` is the class the filter was
      built for. */
  datatype DbFilter = DbFilter(
    field: string,
    operator: QueryOperator,
    value: Value,
    values: Option<seq<Value>>,
    entity: bool,
    fieldType: TypeTag,
    originalClass: TypeTag,
    logicalOperator: LogicalOperator,
    wrappedLogicalOperator: Option<LogicalOperator>,
    controlFlag: Option<seq<ControlFlag>>)
}
