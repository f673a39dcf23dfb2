/** The descriptors of a GraphQL model manifest (packages/graphql/src/graphql-model.types.ts). */
module GraphqlModel {

  datatype ScalarName = StringScalar | NumberScalar | BooleanScalar

  datatype Value =
    | Scalar(name: ScalarName)
    | Array(item: Value)
    | Nullable(inner: Value)
    | Optional(inner: Value)
    | Opaque

  datatype Property = Property(name: string, optional: bool, value: Value)

  datatype Mode = Single | Batch

  datatype Binding = Binding(resolver: string, method_: string)

  datatype Definition = Definition(provider: Binding, mode: Mode, properties: seq<Property>)

  datatype Shape = One(nullable: bool) | Many(nullable: bool, itemNullable: bool)

  datatype Field =
    | Query(target: string, shape: Shape)
    | Relation(target: string, shape: Shape, dependencies: seq<string>, mode: Mode)
    | Computed(dependencies: seq<string>, mode: Mode, value: Value)

  type Models = map<string, Definition>
  type Fields = map<string, map<string, Field>>

  /** isPublicValue: nothing opaque inside. */
  predicate IsPublic(v: Value) {
    match v
    case Opaque => false
    case Scalar(_) => true
    case Array(item) => IsPublic(item)
    case Nullable(inner) => IsPublic(inner)
    case Optional(inner) => IsPublic(inner)
  }
}
