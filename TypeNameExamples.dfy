/**
 * Type names the generator gives to two Boolean attributes, following them from the
 * display name through FormatIdentifier to TypeName.
 */
module TypeNameExamples {
  import opened Wrappers
  import opened Identifiers
  import opened Xrm
  import opened Model
  import opened CodeGeneration
  import opened IdentifierVectors

  /**
   * A Boolean attribute displayed as `Is Preferred` is named `IsPreferred`, after the
   * entity's name unless that name already starts it, with no second `Is`.
   */
  lemma IsPreferredBoolean(attribute: AttributeMetadata, entityName: string)
    requires attribute.attributeType == Some(Boolean) && attribute.displayName == Some("Is" + " " + "Preferred")
    ensures FormatIdentifier(attribute.Base()) == Success("Is" + "Preferred")
    ensures TypeName(attribute, "Is" + "Preferred", entityName) ==
              Some(if StartsWith("Is" + "Preferred", entityName) then "Is" + "Preferred" else entityName + ("Is" + "Preferred"))
  {
    IsPreferred(Some(attribute.logicalName));
    IsQuestionWord("Is" + " " + "Preferred", "Is", "Preferred");
  }

  /** A Boolean attribute displayed as `Active` is named `IsActive`, after the entity's name. */
  lemma ActiveBoolean(attribute: AttributeMetadata, entityName: string)
    requires attribute.attributeType == Some(Boolean) && attribute.displayName == Some("Active")
    ensures FormatIdentifier(attribute.Base()) == Success("Active")
    ensures TypeName(attribute, "Active", entityName) ==
              Some(if StartsWith("Active", entityName) then "Is" + "Active" else entityName + "Is" + "Active")
  {
    Active(Some(attribute.logicalName));
    NotQuestionWord("Active");
  }

  /** A display name made of `Is`, a space and more reads as a question. */
  lemma IsQuestionWord(d: string, w: string, rest: string)
    requires d == w + " " + rest && w == "Is"
    ensures ReadsAsQuestion(w + rest, d)
  {
    assert d[..3] == "Is ";
  }

  /** A single capitalized word that is not a question word: the Boolean gets its `Is`. */
  lemma NotQuestionWord(w: string)
    requires w == "Active"
    ensures !ReadsAsQuestion(w, w)
  {
    assert w[0] == 'A' && w[1] == 'c';
  }
}
