/**
 * The generator's own metadata model (namespace Ceg.Model): entities, attributes and
 * options as read from the SDK, with the entity's attribute list assembled in the
 * order code generation depends on.
 */
module Model {
  import opened Wrappers
  import opened Numbers
  import opened Xrm
  import opened Sorting

  /** The four properties of the abstract Metadata class, as GetComment reads them. */
  datatype Metadata = Metadata(
    logicalName: string,
    displayName: Option<string>,
    variableName: Option<string>,
    description: Option<string>)

  /** OptionMetadata */
  datatype OptionMetadata = OptionMetadata(labelText: Option<string>, value: Option<int32>)

  /** AttributeMetadata */
  datatype AttributeMetadata = AttributeMetadata(
    logicalName: string,
    displayName: Option<string>,
    variableName: string,
    description: Option<string>,
    attributeType: Option<AttributeTypeCode>,
    options: seq<OptionMetadata>)
  {
    function Base(): (m: Metadata)
      ensures m.variableName == Some(variableName)
    {
      Metadata(logicalName, displayName, Some(variableName), description)
    }
  }

  // ------------------------------------------------- options

  /** The OptionMetadata constructor: the user-localized label and the value, unchanged. */
  function OptionFromXrm(o: XrmOption): (r: OptionMetadata)
    ensures r.labelText == o.labelText && r.value == o.value
  {
    OptionMetadata(o.labelText, o.value)
  }

  /**
   * GetOptionListFromOptionSet: the options of a Picklist, State or Status attribute
   * in their order; for a Boolean attribute its false option with value 0, then its
   * true option with value 1; no options for any other attribute.
   */
  function GetOptionListFromOptionSet(a: XrmAttribute): (r: seq<XrmOption>)
    ensures a.AttributeType() == Some(Boolean) ==>
              r == [XrmOption(a.kind.falseLabel, Some(0)), XrmOption(a.kind.trueLabel, Some(1))]
    ensures a.AttributeType() in {Some(Picklist), Some(State), Some(Status)} ==> r == a.kind.options
    ensures !HasOptionSet(a.AttributeType()) ==> r == []
  {
    match a.kind
    case PicklistAttribute(options) => options
    case StateAttribute(options) => options
    case StatusAttribute(options) => options
    case BooleanAttribute(falseLabel, trueLabel) =>
      [XrmOption(falseLabel, Some(0)), XrmOption(trueLabel, Some(1))]
    case PlainAttribute(_) => []
  }

  /** AddOptions: each SDK option of the attribute converted, in order. */
  function OptionsOf(a: XrmAttribute): (r: seq<OptionMetadata>)
    ensures |r| == |GetOptionListFromOptionSet(a)|
    ensures forall i :: 0 <= i < |r| ==> r[i] == OptionFromXrm(GetOptionListFromOptionSet(a)[i])
  {
    var list := GetOptionListFromOptionSet(a);
    seq(|list|, i requires 0 <= i < |list| => OptionFromXrm(list[i]))
  }

  /** Boolean attributes always get exactly two options: false is 0, true is 1. */
  lemma BooleanOptions(a: XrmAttribute)
    requires a.kind.BooleanAttribute?
    ensures OptionsOf(a) == [OptionMetadata(a.kind.falseLabel, Some(0)), OptionMetadata(a.kind.trueLabel, Some(1))]
  {
  }

  // ------------------------------------------------- attributes

  /** AttributeMetadata(XrmAttributeMetadata): the variable name is the logical name. */
  function AttributeFromXrm(a: XrmAttribute): (r: AttributeMetadata)
    ensures r.logicalName == a.logicalName && r.variableName == a.logicalName
    ensures r.displayName == a.displayName && r.description == a.description
    ensures r.attributeType == a.AttributeType() && r.options == OptionsOf(a)
  {
    AttributeMetadata(a.logicalName, a.displayName, a.logicalName, a.description, a.AttributeType(), OptionsOf(a))
  }

  /**
   * AttributeMetadata(relationshipName): logical and variable name are the schema
   * name; no display name, no type, so no enum is ever generated for it.
   */
  function AttributeFromRelationship(schemaName: string): (r: AttributeMetadata)
    ensures r.logicalName == schemaName && r.variableName == schemaName
    ensures r.displayName.None? && r.description.None? && r.attributeType.None? && r.options == []
  {
    AttributeMetadata(schemaName, None, schemaName, None, None, [])
  }

  /**
   * AttributeMetadata(logicalName, displayName): the pseudo-attribute for one of the
   * entity's own names; its key is both its display name and its variable name.
   */
  function AttributeFromKey(logicalName: string, key: string): (r: AttributeMetadata)
    ensures r.logicalName == logicalName && r.displayName == Some(key) && r.variableName == key
    ensures r.description.None? && r.attributeType.None? && r.options == []
  {
    AttributeMetadata(logicalName, Some(key), key, None, None, [])
  }

  // ------------------------------------------------- the attribute list of an entity

  /** The pseudo-attributes: `LogicalName`, `Id`, then `PrimaryAttribute` when there is a primary name. */
  function PseudoAttributes(e: XrmEntity): (r: seq<AttributeMetadata>)
    ensures |r| == if HasPrimaryName(e) then 3 else 2
  {
    [AttributeFromKey(e.logicalName, "LogicalName"), AttributeFromKey(e.primaryIdAttribute, "Id")] +
    (if HasPrimaryName(e) then [AttributeFromKey(e.primaryNameAttribute.value, "PrimaryAttribute")] else [])
  }

  /** !string.IsNullOrEmpty(entity.PrimaryNameAttribute) */
  predicate HasPrimaryName(e: XrmEntity) {
    e.primaryNameAttribute.Some? && e.primaryNameAttribute.value != []
  }

  /**
   * The entity's attributes ordered by logical name, converted. OrderBy compares the
   * names with the current culture's string comparer, which is the parameter culture.
   */
  function RealAttributes(attributes: seq<XrmAttribute>, culture: StringOrder): (r: seq<AttributeMetadata>)
    ensures |r| == |attributes|
  {
    var sorted := SortBy(attributes, AttributeLogicalName, culture);
    seq(|sorted|, i requires 0 <= i < |sorted| => AttributeFromXrm(sorted[i]))
  }

  /** Relationships ordered by schema name under the culture's comparer, converted. */
  function RelationshipAttributes(relationships: seq<XrmRelationship>, culture: StringOrder): (r: seq<AttributeMetadata>)
    ensures |r| == |relationships|
  {
    var sorted := SortBy(relationships, RelationshipSchemaName, culture);
    seq(|sorted|, i requires 0 <= i < |sorted| => AttributeFromRelationship(sorted[i].schemaName))
  }

  /** The Attributes list PopulateAttributes builds. */
  function AttributeList(e: XrmEntity, culture: StringOrder): seq<AttributeMetadata> {
    PseudoAttributes(e) + RealAttributes(e.attributes, culture) +
    RelationshipAttributes(e.oneToManyRelationships, culture) + RelationshipAttributes(e.manyToManyRelationships, culture)
  }

  /** EntityMetadata: the entity's names and the attribute list the generator iterates. */
  class EntityMetadata {
    const logicalName: string
    const displayName: Option<string>
    const description: Option<string>
    var attributes: seq<AttributeMetadata>

    /** The Metadata view of the entity: it never has a variable name. */
    function Base(): (m: Metadata)
      ensures m.logicalName == logicalName && m.variableName.None?
    {
      Metadata(logicalName, displayName, None, description)
    }

    /** culture is the comparer OrderBy uses: Comparer<string>.Default of the current culture. */
    constructor (entity: XrmEntity, culture: StringOrder)
      ensures logicalName == entity.logicalName
      ensures displayName == entity.displayName && description == entity.description
      ensures attributes == AttributeList(entity, culture)
    {
      logicalName := entity.logicalName;
      displayName := entity.displayName;
      description := entity.description;
      attributes := [];
      new;
      PopulateAttributes(entity, culture);
    }

    /**
     * PopulateAttributes: the pseudo-attributes, the primary name when there is one,
     * the attributes by logical name, then both kinds of relationship by schema name.
     */
    method PopulateAttributes(entity: XrmEntity, culture: StringOrder)
      modifies this
      ensures attributes == AttributeList(entity, culture)
    {
      attributes := [];
      attributes := attributes + [AttributeFromKey(entity.logicalName, "LogicalName"), AttributeFromKey(entity.primaryIdAttribute, "Id")];
      if HasPrimaryName(entity) {
        attributes := attributes + [AttributeFromKey(entity.primaryNameAttribute.value, "PrimaryAttribute")];
      }
      assert attributes == PseudoAttributes(entity);
      attributes := attributes + RealAttributes(entity.attributes, culture);
      PopulateRelationships(entity.oneToManyRelationships, culture);
      PopulateRelationships(entity.manyToManyRelationships, culture);
    }

    /** PopulateRelationships: the relationships by schema name, appended. */
    method PopulateRelationships(relationships: seq<XrmRelationship>, culture: StringOrder)
      modifies this
      ensures attributes == old(attributes) + RelationshipAttributes(relationships, culture)
    {
      attributes := attributes + RelationshipAttributes(relationships, culture);
    }
  }

  // ------------------------------------------------- what the attribute list promises

  /** The number of attributes: two or three pseudo-attributes, then one per attribute and relationship. */
  lemma AttributeCount(e: XrmEntity, culture: StringOrder)
    ensures |AttributeList(e, culture)| ==
              2 + (if HasPrimaryName(e) then 1 else 0) + |e.attributes| +
              |e.oneToManyRelationships| + |e.manyToManyRelationships|
  {
  }

  /** The list starts with `LogicalName` (the entity's logical name) and `Id` (its primary id attribute). */
  lemma LeadingPseudoAttributes(e: XrmEntity, culture: StringOrder)
    ensures AttributeList(e, culture)[0] == AttributeMetadata(e.logicalName, Some("LogicalName"), "LogicalName", None, None, [])
    ensures AttributeList(e, culture)[1] == AttributeMetadata(e.primaryIdAttribute, Some("Id"), "Id", None, None, [])
    ensures HasPrimaryName(e) ==>
              AttributeList(e, culture)[2] == AttributeMetadata(e.primaryNameAttribute.value, Some("PrimaryAttribute"), "PrimaryAttribute", None, None, [])
  {
  }

  /**
   * The attributes in the list after the pseudo-attributes: ascending by logical
   * name under the culture's comparer, each named by its logical name; they are the
   * entity's attributes reordered, attributes whose names the comparer ties kept in
   * their original order.
   */
  lemma RealAttributesOrdered(attributes: seq<XrmAttribute>, culture: StringOrder)
    requires IsTotalPreorder(culture)
    ensures var r := RealAttributes(attributes, culture);
      && (forall i, j :: 0 <= i < j < |r| ==> culture(r[i].logicalName, r[j].logicalName))
      && (forall i :: 0 <= i < |r| ==> r[i].variableName == r[i].logicalName)
      && multiset(SortBy(attributes, AttributeLogicalName, culture)) == multiset(attributes)
      && (forall k :: TiedWith(SortBy(attributes, AttributeLogicalName, culture), AttributeLogicalName, culture, k) ==
                       TiedWith(attributes, AttributeLogicalName, culture, k))
  {
    var sorted := SortBy(attributes, AttributeLogicalName, culture);
    SortBySorted(attributes, AttributeLogicalName, culture);
    SortByPermutation(attributes, AttributeLogicalName, culture);
    forall k {
      SortByStable(attributes, AttributeLogicalName, culture, k);
    }
    var r := RealAttributes(attributes, culture);
    forall i, j | 0 <= i < j < |r|
      ensures culture(r[i].logicalName, r[j].logicalName)
    {
      assert r[i].logicalName == AttributeLogicalName(sorted[i]);
      assert r[j].logicalName == AttributeLogicalName(sorted[j]);
    }
  }

  /**
   * The relationships come last, one-to-many then many-to-many, each group ascending
   * by schema name under the culture's comparer; each has the schema name as logical
   * and variable name, and no display name, type or options; relationships whose
   * names the comparer ties keep their original order.
   */
  lemma RelationshipAttributesShape(relationships: seq<XrmRelationship>, culture: StringOrder)
    requires IsTotalPreorder(culture)
    ensures var r := RelationshipAttributes(relationships, culture);
      && (forall i, j :: 0 <= i < j < |r| ==> culture(r[i].logicalName, r[j].logicalName))
      && (forall i :: 0 <= i < |r| ==>
            r[i].variableName == r[i].logicalName && r[i].displayName.None? &&
            r[i].attributeType.None? && r[i].options == [])
      && multiset(SortBy(relationships, RelationshipSchemaName, culture)) == multiset(relationships)
      && (forall k :: TiedWith(SortBy(relationships, RelationshipSchemaName, culture), RelationshipSchemaName, culture, k) ==
                       TiedWith(relationships, RelationshipSchemaName, culture, k))
  {
    var sorted := SortBy(relationships, RelationshipSchemaName, culture);
    SortBySorted(relationships, RelationshipSchemaName, culture);
    SortByPermutation(relationships, RelationshipSchemaName, culture);
    forall k {
      SortByStable(relationships, RelationshipSchemaName, culture, k);
    }
    var r := RelationshipAttributes(relationships, culture);
    forall i, j | 0 <= i < j < |r|
      ensures culture(r[i].logicalName, r[j].logicalName)
    {
      assert r[i].logicalName == RelationshipSchemaName(sorted[i]);
      assert r[j].logicalName == RelationshipSchemaName(sorted[j]);
    }
  }

  /** The four groups and where each sits in the list. */
  lemma AttributeListLayout(e: XrmEntity, culture: StringOrder)
    ensures var p := |PseudoAttributes(e)|;
      var start := p + |e.attributes|;
      var mid := start + |e.oneToManyRelationships|;
      && AttributeList(e, culture)[..p] == PseudoAttributes(e)
      && AttributeList(e, culture)[p..start] == RealAttributes(e.attributes, culture)
      && AttributeList(e, culture)[start..mid] == RelationshipAttributes(e.oneToManyRelationships, culture)
      && AttributeList(e, culture)[mid..] == RelationshipAttributes(e.manyToManyRelationships, culture)
  {
    ConcatenationParts(PseudoAttributes(e), RealAttributes(e.attributes, culture),
      RelationshipAttributes(e.oneToManyRelationships, culture), RelationshipAttributes(e.manyToManyRelationships, culture));
  }

  /** Where each of four concatenated sequences sits in the whole. */
  lemma ConcatenationParts<T>(a: seq<T>, b: seq<T>, c: seq<T>, d: seq<T>)
    ensures (a + b + c + d)[..|a|] == a
    ensures (a + b + c + d)[|a|..|a| + |b|] == b
    ensures (a + b + c + d)[|a| + |b|..|a| + |b| + |c|] == c
    ensures (a + b + c + d)[|a| + |b| + |c|..] == d
  {
  }
}
