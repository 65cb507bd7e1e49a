/**
 * The System.CodeDom objects the generator builds, as values: a namespace holds type
 * declarations, a type declaration holds member fields, and each carries the
 * documentation comment lines added to it.
 */
module CodeDom {
  import opened Numbers

  /** CodePrimitiveExpression of a const field: a bool or a string. */
  datatype Literal = BoolLiteral(b: bool) | StringLiteral(s: string)

  /** CodeMemberField */
  datatype MemberDecl =
    /** A field of an enum, initialised with the option value. */
    | EnumMember(name: string, value: int32, comments: seq<string>)
    /** A `public const` field of a class. */
    | ConstField(name: string, init: Literal, comments: seq<string>)

  /** CodeTypeDeclaration: a public enum or a public sealed class. */
  datatype TypeDecl =
    | EnumDecl(name: string, comments: seq<string>, members: seq<MemberDecl>)
    | SealedClassDecl(name: string, comments: seq<string>, members: seq<MemberDecl>)

  /** CodeNamespace */
  datatype NamespaceDecl = NamespaceDecl(name: string, comments: seq<string>, types: seq<TypeDecl>)

  /**
   * A compile unit holding one namespace, written to the file `fileName` (plus the
   * provider's extension) in the sub-folder `folder` of the output directory.
   */
  datatype CodeFile = CodeFile(folder: string, fileName: string, unit: NamespaceDecl)
}
