/**
 * The Dataverse SDK metadata the generator reads (Microsoft.Xrm.Sdk.Metadata), reduced
 * to the fields it uses. A localized label is represented by its user-localized text,
 * which may be missing.
 */
module Xrm {
  import opened Wrappers
  import opened Numbers

  /** AttributeTypeCode */
  datatype AttributeTypeCode =
    | Boolean | Customer | DateTime | Decimal | Double | Integer | Lookup | Memo | Money
    | Owner | PartyList | Picklist | State | Status | String | Uniqueidentifier
    | CalendarRules | Virtual | BigInt | ManagedProperty | EntityName

  /** OptionMetadata: a label and a nullable value. */
  datatype XrmOption = XrmOption(labelText: Option<string>, value: Option<int32>)

  /** The type codes whose attributes are of a typed subclass the generator casts to. */
  predicate HasOptionSet(t: Option<AttributeTypeCode>) {
    t == Some(Picklist) || t == Some(State) || t == Some(Status) || t == Some(Boolean)
  }

  /** The type code of an attribute that carries no option set (null included). */
  type PlainTypeCode = t: Option<AttributeTypeCode> | !HasOptionSet(t) witness None

  /**
   * The subclass of an attribute: PicklistAttributeMetadata, StateAttributeMetadata
   * and StatusAttributeMetadata carry their options, BooleanAttributeMetadata the
   * labels of its false and true options; any other attribute only its type code.
   */
  datatype XrmAttributeKind =
    | PicklistAttribute(options: seq<XrmOption>)
    | StateAttribute(options: seq<XrmOption>)
    | StatusAttribute(options: seq<XrmOption>)
    | BooleanAttribute(falseLabel: Option<string>, trueLabel: Option<string>)
    | PlainAttribute(typeCode: PlainTypeCode)

  /** AttributeMetadata */
  datatype XrmAttribute = XrmAttribute(
    logicalName: string,
    displayName: Option<string>,
    description: Option<string>,
    kind: XrmAttributeKind)
  {
    /** AttributeMetadata.AttributeType */
    function AttributeType(): (t: Option<AttributeTypeCode>)
      ensures HasOptionSet(t) <==> !kind.PlainAttribute?
    {
      match kind
      case PicklistAttribute(_) => Some(Picklist)
      case StateAttribute(_) => Some(State)
      case StatusAttribute(_) => Some(Status)
      case BooleanAttribute(_, _) => Some(Boolean)
      case PlainAttribute(t) => t
    }
  }

  /** RelationshipMetadataBase */
  datatype XrmRelationship = XrmRelationship(schemaName: string)

  /** EntityMetadata */
  datatype XrmEntity = XrmEntity(
    logicalName: string,
    displayName: Option<string>,
    description: Option<string>,
    primaryIdAttribute: string,
    primaryNameAttribute: Option<string>,
    attributes: seq<XrmAttribute>,
    oneToManyRelationships: seq<XrmRelationship>,
    manyToManyRelationships: seq<XrmRelationship>)

  /** The sort key of attributes (OrderBy(a => a.LogicalName)). */
  function AttributeLogicalName(a: XrmAttribute): string {
    a.logicalName
  }

  /** The sort key of relationships (OrderBy(r => r.SchemaName)). */
  function RelationshipSchemaName(r: XrmRelationship): string {
    r.schemaName
  }
}
