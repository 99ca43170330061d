/** The Java classes the filter compiler reasons about, as data: a field's
    type is a tag (the reflection Class object), and an entity class is its
    declared fields plus its superclass chain. */
module JavaTypes {
  import opened Results

  /** A java.lang.Class as far as the compiler distinguishes classes: the
      types with their own cast, the primitives, the supertypes of List and
      Set, and any other class (with whether it carries @Entity). */
  datatype TypeTag =
    | StringT | DoubleT | IntegerT | LongT | BigDecimalT
    | EnumT(enumName: string, constants: seq<string>)   // constants: toString of each, in declaration order
    | LocalDateT | OffsetDateTimeT | SqlDateT | TimestampT
    | BooleanT        // java.lang.Boolean
    | PrimBooleanT    // boolean
    | InstantT | TimeT | LocalDateTimeT | ShortT | ByteT | CharacterT | FloatT | BigIntegerT | UUIDT
    | PrimitiveT(primName: string)   // int, long, short, byte, char, float, double
    | ListT | SetT | CollectionT | IterableT | ObjectT
    | ClassT(className: string, entity: bool)

  /** Class.toString: "class " or "interface " and the binary name, or the
      bare name of a primitive type. */
  function TypeName(t: TypeTag): string {
    match t
    case StringT => "class java.lang.String"
    case DoubleT => "class java.lang.Double"
    case IntegerT => "class java.lang.Integer"
    case LongT => "class java.lang.Long"
    case BigDecimalT => "class java.math.BigDecimal"
    case EnumT(n, _) => "class " + n
    case LocalDateT => "class java.time.LocalDate"
    case OffsetDateTimeT => "class java.time.OffsetDateTime"
    case SqlDateT => "class java.sql.Date"
    case TimestampT => "class java.sql.Timestamp"
    case BooleanT => "class java.lang.Boolean"
    case PrimBooleanT => "boolean"
    case InstantT => "class java.time.Instant"
    case TimeT => "class java.sql.Time"
    case LocalDateTimeT => "class java.time.LocalDateTime"
    case ShortT => "class java.lang.Short"
    case ByteT => "class java.lang.Byte"
    case CharacterT => "class java.lang.Character"
    case FloatT => "class java.lang.Float"
    case BigIntegerT => "class java.math.BigInteger"
    case UUIDT => "class java.util.UUID"
    case PrimitiveT(n) => n
    case ListT => "interface java.util.List"
    case SetT => "interface java.util.Set"
    case CollectionT => "interface java.util.Collection"
    case IterableT => "interface java.lang.Iterable"
    case ObjectT => "class java.lang.Object"
    case ClassT(n, _) => "class " + n
  }

  /** clazz.isAssignableFrom(List.class) || clazz.isAssignableFrom(Set.class) */
  predicate IsListOrSetSupertype(t: TypeTag) {
    t.ListT? || t.SetT? || t.CollectionT? || t.IterableT? || t.ObjectT?
  }

  /** String.class.isAssignableFrom(t): String is final, so only String itself. */
  predicate IsString(t: TypeTag) {
    t.StringT?
  }

  /** Boolean.class.isAssignableFrom(t) || boolean.class.isAssignableFrom(t) */
  predicate IsBoolean(t: TypeTag) {
    t.BooleanT? || t.PrimBooleanT?
  }

  /** How a declared field enters the field schema: a field whose type is an
      @Entity class contributes the (name, type) pairs of that class's own
      fields; any other field contributes its type, already adjusted to the
      superclass where the type names the owning class. */
  datatype FieldKind =
    | EntityField(nested: seq<(string, TypeTag)>)
    | PlainField(adjusted: TypeTag)

  datatype FieldDecl = FieldDecl(name: string, kind: FieldKind)

  /** A class: its binary name, whether it carries @Entity, its declared
      fields in declaration order and its superclass (None above Object). */
  datatype ClassDecl = ClassDecl(name: string, entity: bool, fields: seq<FieldDecl>, superclass: Option<ClassDecl>)

  /** The class as a type tag. */
  function TypeOf(c: ClassDecl): TypeTag {
    ClassT(c.name, c.entity)
  }

  const OBJECT_CLASS_NAME: string := "java.lang.Object"

  /** Class.getSimpleName for a top-level class: the binary name after its
      last dot. */
  function SimpleName(name: string): (r: string)
    ensures '.' !in r
    ensures |r| <= |name| && r == name[|name| - |r|..]
    decreases |name|
  {
    if |name| == 0 then ""
    else if name[|name| - 1] == '.' then ""
    else SimpleName(name[..|name| - 1]) + [name[|name| - 1]]
  }
}
