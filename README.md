# Constants and enums generator: a Dafny model of the code generation core

The generator reads Dataverse (Dynamics 365) entity metadata and writes C# source
files. For each entity it writes two files:

- an `Enums` file: one `enum` per picklist, state or status attribute, and a sealed
  class of `bool` constants per Boolean attribute;
- a `Constants` file: a sealed class holding one `string` constant per attribute,
  whose value is the attribute's logical name.

Every name in those files comes from a free-text label (a display name or an option
label). A normalizer turns the label into a C# identifier with eleven ordered
regular-expression rewrites, and falls back to a validated name when the label is
empty or rewrites to nothing.

This project models three parts:

- the normalizer (`NormalizeLabel`, `ValidateAndUseFallback`, both `FormatIdentifier`
  overloads);
- the declaration builders and comment helpers of `CodeGenerationService`;
- the generator's metadata model (`Metadata.cs`): the attribute list of an entity in
  the order code generation depends on.

It proves what these promise:

- a normalized name never starts with a digit, and is a valid identifier or an identifier-shaped name rejected only for its length or as a `__` keyword; a name rewritten from a label (not the fallback) is always identifier-shaped;
- each rewrite pass keeps what it does not rewrite, in order;
- every label of the generator's own test table comes out as the table says,
  derived from lemmas about all labels of the same shape;
- every builder loop is equal to a function over its steps, and the loop's warnings
  and the cases where nothing is generated are stated;
- the attribute list is sorted, is a permutation of its input, and is stable.

Modules:

| module | what it holds |
|---|---|
| `Wrappers` | `Option` and `Result` |
| `Numbers` | `Int32` as `int32`, `IsDigit`, `Int32.ToString()` |
| `Xrm` | the SDK metadata the generator reads: entities, attributes by type code, options, relationships |
| `Sorting` | `Enumerable.OrderBy` over a string key, as a stable insertion sort under a comparer given as a parameter |
| `Model` | `Metadata`, `AttributeMetadata`, `OptionMetadata` as datatypes; `EntityMetadata` as a class whose attribute list its methods fill |
| `Identifiers` | the eleven rewrite passes, `NormalizeLabel`, `ValidateAndUseFallback`, identifier validity |
| `IdentifierVectors` | what the rewrite makes of each label shape, and the test-table labels as instances |
| `CodeDom` | the declarations built: enum members, constant fields, enums, sealed classes, namespaces, files |
| `CodeGeneration` | comments, `FormatIdentifier`, the member, type, namespace and file builders |
| `TypeNameExamples` | the type names of two Boolean attributes, `Is Preferred` and `Active`, from display name to type name |

How the model represents the source:

- Exceptions become `Failure(ArgumentNull(p))` or `Failure(ArgumentInvalid(p))`,
  carrying the parameter name the .NET exception carries.
- Logged warnings come back in order next to the built value (`Built(value, warnings)`).
- A `null` result becomes `None`.
- Null strings are `Option<string>`.

The constants class uses each attribute's `VariableName` unchanged
(`CodeGenerationService.cs:286-291`); it is not re-normalized.

## Model

| member | source | states |
|---|---|---|
| Numbers.DecimalString | Ceg.Console/Services/CodeGenerationService.cs:373 | `Int32.ToString()`: the decimal digits of the magnitude, after a `-` for a negative value; 1 to 11 characters |
| Numbers.DecimalDigitsRoundTrip | Ceg.Console/Services/CodeGenerationService.cs:373 | reading the decimal digits of a number back gives the number |
| Xrm.XrmAttribute.AttributeType | Ceg.Console/Model/Metadata.cs:83 | an attribute's type code is an option-set type (picklist, state, status, Boolean) exactly when it is one of the SDK's option-set attribute subclasses |
| Model.OptionFromXrm | Ceg.Console/Model/Metadata.cs:138-142 | an option keeps the SDK option's user-localized label and value unchanged |
| Model.GetOptionListFromOptionSet | Ceg.Console/Model/Metadata.cs:101-125 | picklist, state and status attributes give their options in order; a Boolean gives its false label with 0, then its true label with 1; any other attribute gives none |
| Model.OptionsOf | Ceg.Console/Model/Metadata.cs:127-130 | `AddOptions`: one converted option per SDK option, same length, same order |
| Model.BooleanOptions | Ceg.Console/Model/Metadata.cs:114-120 | a Boolean attribute always gets exactly two options, valued 0 and 1 |
| Model.AttributeFromXrm | Ceg.Console/Model/Metadata.cs:80-87 | an SDK attribute keeps its logical name, display name, description, type and options, and its variable name is its logical name |
| Model.AttributeFromRelationship | Ceg.Console/Model/Metadata.cs:89 | a relationship becomes an attribute named by its schema name, with no display name, description, type or options |
| Model.AttributeFromKey | Ceg.Console/Model/Metadata.cs:91 | a pseudo-attribute has its key as display name and variable name, and the entity's value as logical name |
| Model.PseudoAttributes | Ceg.Console/Model/Metadata.cs:42-54 | two pseudo-attributes, or three when the entity has a non-empty primary name |
| Model.RealAttributes | Ceg.Console/Model/Metadata.cs:56-59 | one attribute per SDK attribute; the order is stated by `RealAttributesOrdered` |
| Model.RelationshipAttributes | Ceg.Console/Model/Metadata.cs:65-71 | one attribute per relationship; the order is stated by `RelationshipAttributesShape` |
| Model.EntityMetadata.constructor | Ceg.Console/Model/Metadata.cs:24-31 | the entity's logical name, display name and description are copied, and the attribute list is the one `PopulateAttributes` builds |
| Model.EntityMetadata.PopulateAttributes | Ceg.Console/Model/Metadata.cs:34-63 | the list becomes `AttributeList` of the entity: the pseudo-attributes, the sorted attributes, then the one-to-many and the many-to-many relationships, each sorted (`AttributeListLayout`) |
| Model.EntityMetadata.PopulateRelationships | Ceg.Console/Model/Metadata.cs:65-71 | appends the sorted relationships to the list and changes nothing else |
| Model.EntityMetadata.Base | Ceg.Console/Model/Metadata.cs:24-28 | an entity is seen by `GetComment` and `FormatIdentifier` with its logical name and without a variable name |
| Model.AttributeCount | Ceg.Console/Model/Metadata.cs:36-40 | the list length is 2 or 3, plus one per attribute and per relationship of either kind |
| Model.LeadingPseudoAttributes | Ceg.Console/Model/Metadata.cs:42-54 | the list starts with `LogicalName` and `Id`, then `PrimaryAttribute` when there is a primary name, each with the entity's own value |
| Model.RealAttributesOrdered | Ceg.Console/Model/Metadata.cs:56-58 | the attributes are ascending by logical name under the culture's comparer, are a permutation of the input, keep the input order among ties, and each is named by its logical name |
| Model.RelationshipAttributesShape | Ceg.Console/Model/Metadata.cs:65-71 | the relationships are ascending by schema name, are a permutation, keep the order among ties, and each has its schema name as variable name, with no display name, type or options |
| Model.AttributeListLayout | Ceg.Console/Model/Metadata.cs:34-63 | where each of the four groups sits in the list |
| Sorting.SortBySorted | Ceg.Console/Model/Metadata.cs:57 | `OrderBy`'s result is ascending in the key under any total preorder |
| Sorting.SortByPermutation | Ceg.Console/Model/Metadata.cs:57 | `OrderBy` only reorders: same elements, same multiplicities |
| Sorting.SortByStable | Ceg.Console/Model/Metadata.cs:68 | `OrderBy` is stable: the elements whose keys tie with any given key keep their relative order |
| Sorting.InsertPermutation | Ceg.Console/Model/Metadata.cs:57 | inserting an element adds exactly that element |
| Sorting.InsertSorted | Ceg.Console/Model/Metadata.cs:57 | inserting into a sorted list keeps it sorted |
| Sorting.TiedWithInsert | Ceg.Console/Model/Metadata.cs:57 | an inserted element goes after every element it ties with, and the other tie groups are unchanged |
| Identifiers.ToUpper | Ceg.Console/Services/CodeGenerationService.cs:320 | upper-casing changes only `a` to `z`, each to its capital, and keeps whether a character is `\w` or `\s` |
| Identifiers.IsValidIdentifier | Ceg.Console/Services/CodeGenerationService.cs:345 | a name the provider accepts is non-empty, at most 512 characters, does not start with a digit and holds no whitespace; every identifier-shaped name of at most 512 characters that is not a keyword is accepted |
| Identifiers.ValidateAndUseFallback | Ceg.Console/Services/CodeGenerationService.cs:338-351 | `ArgumentNullException` exactly for a null or empty fallback; `ArgumentException` exactly for a non-empty fallback the C# provider rejects; otherwise the fallback unchanged, a valid identifier |
| Identifiers.OptionFallback | Ceg.Console/Services/CodeGenerationService.cs:373 | the option's fallback is `_` then the decimal value, or `_` alone without a value |
| Identifiers.OptionFallbackValid | Ceg.Console/Services/CodeGenerationService.cs:371-375 | the option fallback is a valid identifier exactly when the value is missing or not negative |
| Identifiers.ClosingBracket | Ceg.Console/Services/CodeGenerationService.cs:313 | the lazy `\[(.+?)\]` closes at a `]` at index 2 or later, with no line feed before it and no earlier `]` from index 2 on |
| Identifiers.UnderscoreBrackets | Ceg.Console/Services/CodeGenerationService.cs:313 | pass 1 keeps the length, changes only `[` and `]` into `_`, does change a leading bracket that closes, and leaves a string without `[` unchanged |
| Identifiers.BracketedSegment | Ceg.Console/Services/CodeGenerationService.cs:313 | a leading `[content]`, with content free of `]` and line feeds, becomes `_content_`, and the rest is rewritten the same way |
| Identifiers.UnderscoreBracketsAfter | Ceg.Console/Services/CodeGenerationService.cs:313 | text without `[` passes through unchanged, and the segments after it are still replaced |
| Identifiers.BracketedSegmentAfter | Ceg.Console/Services/CodeGenerationService.cs:313 | a bracketed segment after other text is replaced too: `Foo [Old] Bar` gives `Foo _Old_ Bar` |
| Identifiers.UnclosedBracketKept | Ceg.Console/Services/CodeGenerationService.cs:313 | a `[` that no `]` closes on its line is kept, and the search goes on after it |
| Identifiers.TrimLeadingSymbols | Ceg.Console/Services/CodeGenerationService.cs:314 | pass 2 removes exactly the leading run of non-`\w` characters; the result is a suffix that is empty or starts with `\w` |
| Identifiers.TrimTrailingSymbols | Ceg.Console/Services/CodeGenerationService.cs:315 | pass 3 removes exactly the trailing run of characters other than `\w`, `-` and `+`; the result is a prefix |
| Identifiers.RemoveQuotes | Ceg.Console/Services/CodeGenerationService.cs:316 | pass 4: a character is in the result exactly when it is in the input and is not a quote; a string without quotes is unchanged |
| Identifiers.RemoveQuotesOrder | Ceg.Console/Services/CodeGenerationService.cs:316 | pass 4 keeps the remaining characters in their order (the result is a subsequence of the input) |
| Identifiers.RemoveQuotesCounts | Ceg.Console/Services/CodeGenerationService.cs:316 | pass 4 drops every quote and keeps every other character as often as the input has it |
| Identifiers.RemoveQuotesAppend | Ceg.Console/Services/CodeGenerationService.cs:316 | pass 4 acts on each character independently: it distributes over concatenation |
| Identifiers.SpellOutTrailing | Ceg.Console/Services/CodeGenerationService.cs:317-318 | passes 5 and 6 leave a string without the sign unchanged |
| Identifiers.SpellOutTrailingResult | Ceg.Console/Services/CodeGenerationService.cs:317-318 | after passes 5 and 6, every remaining sign has a word character after it on its line |
| Identifiers.SpellOutSignRun | Ceg.Console/Services/CodeGenerationService.cs:317-318 | a run of n trailing signs is spelled out as n words (`--` gives `MinusMinus`) |
| Identifiers.SpellOutBeforeWord | Ceg.Console/Services/CodeGenerationService.cs:317 | text before a word character on the same line is copied unchanged, signs included |
| Identifiers.SpellOutTrailingAppend | Ceg.Console/Services/CodeGenerationService.cs:317-318 | when the appended text has no `\w` and no line feed, rewriting the whole is rewriting each part and joining them |
| Identifiers.BlankSymbols | Ceg.Console/Services/CodeGenerationService.cs:319 | pass 7 turns every character other than `\w` and `\s` into a space, keeps the others, and keeps the length |
| Identifiers.CapitalizeWords | Ceg.Console/Services/CodeGenerationService.cs:320 | pass 8 upper-cases exactly the characters that start a run of `\w`; afterwards no run starts lowercase; a string already so is unchanged |
| Identifiers.CapitalizeWordsAppend | Ceg.Console/Services/CodeGenerationService.cs:320 | pass 8 on a concatenation treats the second part knowing only whether the first ends in `\w` |
| Identifiers.JoinDigitsLeftKeepsText | Ceg.Console/Services/CodeGenerationService.cs:321 | pass 9 changes only whitespace and `_`: every other character is kept, in order |
| Identifiers.JoinDigitsLeft | Ceg.Console/Services/CodeGenerationService.cs:321 | pass 9 never makes the label longer, and leaves a label without digits unchanged |
| Identifiers.JoinDigitsLeftMatch | Ceg.Console/Services/CodeGenerationService.cs:321 | after a word, a run of whitespace followed by digits becomes a single `_` before those digits |
| Identifiers.JoinDigitsLeftSpaces | Ceg.Console/Services/CodeGenerationService.cs:321 | whitespace not followed by a digit is kept by pass 9 |
| Identifiers.JoinDigitsLeftKeeps | Ceg.Console/Services/CodeGenerationService.cs:321 | text without whitespace is copied by pass 9 |
| Identifiers.JoinDigitsLeftNoDigits | Ceg.Console/Services/CodeGenerationService.cs:321 | pass 9 leaves a string without digits unchanged |
| Identifiers.JoinDigitsLeftWords | Ceg.Console/Services/CodeGenerationService.cs:321 | pass 9 keeps a string made of `\w` and `\s` made of them |
| Identifiers.JoinDigitsLeftRuns | Ceg.Console/Services/CodeGenerationService.cs:321 | pass 9 introduces no run of `\w` that starts lowercase |
| Identifiers.JoinDigitsRightKeepsText | Ceg.Console/Services/CodeGenerationService.cs:322 | pass 10 changes only whitespace and `_`: every other character is kept, in order |
| Identifiers.JoinDigitsRight | Ceg.Console/Services/CodeGenerationService.cs:322 | pass 10 never makes the label longer, and leaves a label without digits unchanged |
| Identifiers.JoinDigitsRightMatch | Ceg.Console/Services/CodeGenerationService.cs:322 | digits, then whitespace, then a word character: the whitespace becomes a single `_` |
| Identifiers.JoinDigitsRightDigits | Ceg.Console/Services/CodeGenerationService.cs:322 | digits not followed by whitespace are copied by pass 10 |
| Identifiers.JoinDigitsRightKeeps | Ceg.Console/Services/CodeGenerationService.cs:322 | text without digits is copied by pass 10 |
| Identifiers.JoinDigitsRightNoDigits | Ceg.Console/Services/CodeGenerationService.cs:322 | pass 10 leaves a string without digits unchanged |
| Identifiers.JoinDigitsRightWords | Ceg.Console/Services/CodeGenerationService.cs:322 | pass 10 keeps a string made of `\w` and `\s` made of them |
| Identifiers.JoinDigitsRightRuns | Ceg.Console/Services/CodeGenerationService.cs:322 | pass 10 introduces no run of `\w` that starts lowercase |
| Identifiers.RemoveWhitespacePreserves | Ceg.Console/Services/CodeGenerationService.cs:323 | pass 11 leaves no whitespace, keeps every other character, and keeps the result all `\w` with no run starting lowercase |
| Identifiers.RemoveWhitespace | Ceg.Console/Services/CodeGenerationService.cs:323 | pass 11 leaves no whitespace, never makes the label longer, and leaves a label without whitespace unchanged |
| Identifiers.RemoveWhitespaceOrder | Ceg.Console/Services/CodeGenerationService.cs:323 | pass 11 keeps the remaining characters in their order |
| Identifiers.RemoveWhitespaceCounts | Ceg.Console/Services/CodeGenerationService.cs:323 | pass 11 drops every whitespace character and keeps every other character as often as the input has it |
| Identifiers.RemoveWhitespaceAppend | Ceg.Console/Services/CodeGenerationService.cs:323 | pass 11 distributes over concatenation |
| Identifiers.RemoveWhitespaceNoSpaces | Ceg.Console/Services/CodeGenerationService.cs:323 | pass 11 leaves a string without whitespace unchanged |
| Identifiers.JoinWords | Ceg.Console/Services/CodeGenerationService.cs:319-323 | after passes 7 to 11, the text is all `\w` and does not start with a lowercase letter |
| Identifiers.RewriteLabel | Ceg.Console/Services/CodeGenerationService.cs:312-323 | the eleven passes in order give a string of `\w` that does not start lowercase |
| Identifiers.PrefixDigitOrFallback | Ceg.Console/Services/CodeGenerationService.cs:325-335 | an empty rewrite gives the validated fallback; otherwise the rewrite, with `_` before a leading digit; that name is identifier-shaped, and valid exactly when it is at most 512 characters and not one of the four `__` keywords |
| Identifiers.NormalizeLabel | Ceg.Console/Services/CodeGenerationService.cs:305-336 | a null or empty label gives the validated fallback; otherwise the eleven rewrites followed by the digit and empty checks; every failure is the fallback's; every result never starts with a digit, and is a valid identifier (the fallback may be `@`-escaped) or an identifier-shaped name rejected only for its length or as a `__` keyword |
| Identifiers.CapitalizedWordNormalized | Ceg.Console/Services/CodeGenerationService.cs:305-336 | a label of letters starting with a capital normalizes to itself |
| Identifiers.TrailingSigns | Ceg.Console/Services/CodeGenerationService.cs:317-318 | a capitalized word followed by n `-` or `+` rewrites to the word followed by n `Minus` or `Plus` |
| Identifiers.InteriorMinus | Ceg.Console/Services/CodeGenerationService.cs:317-323 | a `-` between two capitalized words only separates them: the words are glued |
| IdentifierVectors.PlainLabelRewritten | Ceg.Console/Services/CodeGenerationService.cs:319-323 | a label of words and spaces without digits rewrites to its words, capitalized and glued |
| IdentifierVectors.TwoWords | Ceg.Console/Services/CodeGenerationService.cs:319-323 | any two words separated by a space normalize to both capitalized and glued |
| IdentifierVectors.ThreeWords | Ceg.Console/Services/CodeGenerationService.cs:319-323 | any three words separated by spaces normalize to all three capitalized and glued |
| IdentifierVectors.BracketThenWords | Ceg.Console/Services/CodeGenerationService.cs:313 | any bracketed word before three words normalizes to `_word_` followed by the three capitalized and glued |
| IdentifierVectors.BracketedCodeThenWords | Ceg.Console/Services/CodeGenerationService.cs:313-323 | a bracketed code (a word, ` - `, a number, `.`, a capital and a number) before three words normalizes to `_word_number_CapitalNumber_` followed by the three words capitalized and glued: the `-` survives the trailing-sign passes because a word follows it |
| IdentifierVectors.QuoteInWord | Ceg.Console/Services/CodeGenerationService.cs:316 | a quote inside a word is dropped |
| IdentifierVectors.SymbolBetweenWords | Ceg.Console/Services/CodeGenerationService.cs:319 | any symbol between two words separates them |
| IdentifierVectors.NumbersBetweenWords | Ceg.Console/Services/CodeGenerationService.cs:321-322 | three numbers between two words, separated by spaces, are joined to the words and each other by `_` |
| IdentifierVectors.SymbolBeforeNumber | Ceg.Console/Services/CodeGenerationService.cs:321-322 | a word, a symbol, a number and a word give `word_number_Word` |
| IdentifierVectors.EnclosedLastWord | Ceg.Console/Services/CodeGenerationService.cs:315-319 | two words then a word in a pair of symbols: the closing symbol is trimmed and the opening one separates |
| IdentifierVectors.NumbersThenWord | Ceg.Console/Services/CodeGenerationService.cs:330-333 | numbers each followed by a symbol, then a word and a number, are joined by `_`; the rewrite starts with a digit, so the name gets a leading `_` |
| IdentifierVectors.NumberedThenWords | Ceg.Console/Services/CodeGenerationService.cs:321-322 | a word and a number, a symbol, then two words give `word_number_WordWord` |
| IdentifierVectors.GapBetweenWords | Ceg.Console/Services/CodeGenerationService.cs:317-323 | any run of symbols and spaces between two words disappears, and trailing `+` signs are spelled out |
| IdentifierVectors.SingleWords | Ceg.Tests/Services/CodeGenerationServiceTests.cs:15-22 | `Account`, `ReConnect` and `SemiAnnual` normalize to themselves |
| IdentifierVectors.ClientBroker | Ceg.Tests/Services/CodeGenerationServiceTests.cs:17 | `Client Broker` gives `ClientBroker` |
| IdentifierVectors.ClientSlashBroker | Ceg.Tests/Services/CodeGenerationServiceTests.cs:18 | `Client/Broker` gives `ClientBroker` |
| IdentifierVectors.ClientOrBroker | Ceg.Tests/Services/CodeGenerationServiceTests.cs:19 | `Client or Broker` gives `ClientOrBroker` |
| IdentifierVectors.Doctors | Ceg.Tests/Services/CodeGenerationServiceTests.cs:20 | `Doctor's` gives `Doctors` |
| IdentifierVectors.IntegrationFailedCreate | Ceg.Tests/Services/CodeGenerationServiceTests.cs:21 | `Integration Failed (create)` gives `IntegrationFailedCreate` |
| IdentifierVectors.SemiHyphenAnnual | Ceg.Tests/Services/CodeGenerationServiceTests.cs:23 | `Semi-Annual` gives `SemiAnnual` |
| IdentifierVectors.SemiHyphensAnnual | Ceg.Tests/Services/CodeGenerationServiceTests.cs:24 | `Semi---Annual` gives `SemiAnnual` |
| IdentifierVectors.SemiSpacedHyphenAnnual | Ceg.Tests/Services/CodeGenerationServiceTests.cs:25 | `Semi - Annual` gives `SemiAnnual` |
| IdentifierVectors.TrailingMinus | Ceg.Tests/Services/CodeGenerationServiceTests.cs:26-27 | `A-` gives `AMinus` and `Aa--` gives `AaMinusMinus` |
| IdentifierVectors.BBPlusPlusPlus | Ceg.Tests/Services/CodeGenerationServiceTests.cs:28 | `B-B+++` gives `BBPlusPlusPlus` |
| IdentifierVectors.NetThirty | Ceg.Tests/Services/CodeGenerationServiceTests.cs:29 | `2% 10, Net 30` gives `_2_10_Net_30` |
| IdentifierVectors.AddressType | Ceg.Tests/Services/CodeGenerationServiceTests.cs:30 | `Address 1: Address Type` gives `Address_1_AddressType` |
| IdentifierVectors.AddressStreet | Ceg.Tests/Services/CodeGenerationServiceTests.cs:31 | `Address: 20 street` gives `Address_20_Street` |
| IdentifierVectors.FooBar | Ceg.Tests/Services/CodeGenerationServiceTests.cs:32 | `Foo 5 10 20 Bar` gives `Foo_5_10_20_Bar` |
| IdentifierVectors.DeprecatedSunriseTimeUnits | Ceg.Tests/Services/CodeGenerationServiceTests.cs:33 | `[DEPRECATED - 2019.R05] Sunrise Time Units` gives `_DEPRECATED_2019_R05_SunriseTimeUnits` |
| IdentifierVectors.SunriseTimeUnits | Ceg.Tests/Services/CodeGenerationServiceTests.cs:34 | `[DEPRECATED] Sunrise Time Units` gives `_DEPRECATED_SunriseTimeUnits` |
| IdentifierVectors.MissingFallback | Ceg.Tests/Services/CodeGenerationServiceTests.cs:40-41 | a null or empty label with a null or empty fallback throws `ArgumentNullException` |
| IdentifierVectors.FallbackStartsWithDigit | Ceg.Tests/Services/CodeGenerationServiceTests.cs:42 | the fallback `5bears` throws `ArgumentException` |
| IdentifierVectors.FallbackWithSpace | Ceg.Tests/Services/CodeGenerationServiceTests.cs:43 | the fallback `Three bears` throws `ArgumentException` |
| IdentifierVectors.FallbackWithAmpersand | Ceg.Tests/Services/CodeGenerationServiceTests.cs:44 | the fallback `ThreeBears&FiveWolves` throws `ArgumentException` |
| IdentifierVectors.EscapedFallback | Ceg.Console/Services/CodeGenerationService.cs:338-351 | a null or empty label with the fallback `@class` gives `@class` unchanged: the provider accepts the `@`-escaped keyword, and the result is not identifier-shaped |
| CodeGeneration.GetComment | Ceg.Console/Services/CodeGenerationService.cs:414-431 | no comment exactly when there is no display name and the variable name is the logical name; the logical name when there is no display name; otherwise `DisplayName (LogicalName)` |
| CodeGeneration.CommentBlock | Ceg.Console/Services/CodeGenerationService.cs:378-401 | no lines exactly when the comment is null or empty; otherwise `<summary>`, the comment, the description when there is one, `</summary>` |
| CodeGeneration.OptionCommentBlock | Ceg.Console/Services/CodeGenerationService.cs:403-412 | always three lines: `<summary>`, the label (null as empty), `</summary>` |
| CodeGeneration.FormatIdentifier | Ceg.Console/Services/CodeGenerationService.cs:366-369 | an empty display name gives the validated logical name; any failure is the logical name's rejection; a result is a normalized name |
| CodeGeneration.FormatOptionIdentifier | Ceg.Console/Services/CodeGenerationService.cs:371-375 | the label normalized with `_` and the value as fallback; it throws only `ArgumentException`, only for a negative value, and never when the value is missing or not negative |
| CodeGeneration.GenerateMemberFromOptionMetadata | Ceg.Console/Services/CodeGenerationService.cs:168-183 | an option without a value gives a warning and no member; otherwise a member named after the label, with the value and the label comment, and no warning |
| CodeGeneration.GenerateMemberFromBooleanMetadata | Ceg.Console/Services/CodeGenerationService.cs:212-217 | always a `bool` constant named after the label, whose value is whether the option value (null as 0) is non-zero |
| CodeGeneration.CollectResult | Ceg.Console/Services/CodeGenerationService.cs:150-157 | a builder loop throws exactly when a step throws, and then with the first step's exception; otherwise it returns every item and every warning, in order |
| CodeGeneration.CollectFailureSticks | Ceg.Console/Services/CodeGenerationService.cs:150-157 | once a step throws, later steps change nothing |
| CodeGeneration.EmittedEmpty | Ceg.Console/Services/CodeGenerationService.cs:153-162 | a loop builds nothing exactly when no step builds anything |
| CodeGeneration.DeclareIfAny | Ceg.Console/Services/CodeGenerationService.cs:159-165 | a declaration holding the members when there are any; otherwise none, with a warning after the loop's warnings |
| CodeGeneration.GenerateTypeFromOptionSetMetadata | Ceg.Console/Services/CodeGenerationService.cs:141-166 | the loop over the options equals `OptionSetType`, whose properties the two lemmas below state |
| CodeGeneration.OptionSetTypePresent | Ceg.Console/Services/CodeGenerationService.cs:150-165 | an enum of the given name is generated exactly when some option has a value |
| CodeGeneration.OptionSetMembers | Ceg.Console/Services/CodeGenerationService.cs:150-157 | every option with a value gets a name, and the enum's members are the members the loop's steps build, in order |
| CodeGeneration.GenerateTypeFromBooleanMetadata | Ceg.Console/Services/CodeGenerationService.cs:185-210 | the loop over the two options equals `BooleanType`, whose properties `BooleanTypePresent` states |
| CodeGeneration.BooleanTypePresent | Ceg.Console/Services/CodeGenerationService.cs:194-209 | the class is generated exactly when there are options, with one member per option and no warning; otherwise none and one warning |
| CodeGeneration.ReadsAsQuestionExactly | Ceg.Console/Services/CodeGenerationService.cs:125-131 | no `Is` is added exactly when the name starts with `_` or the display name's first word is Is, Are, Has, Have, Do or Does with a space after it |
| CodeGeneration.TypeName | Ceg.Console/Services/CodeGenerationService.cs:108-137 | a name exactly for the option-set types; a picklist is the name after the entity's name unless it already starts with it; state and status are `entity + StateCode` and `entity + StatusCode`; a Boolean gets `Is` unless it reads as a question |
| CodeGeneration.TypeNameAffixes | Ceg.Console/Services/CodeGenerationService.cs:109-134 | every type name but a Boolean's starts with the entity's name; a picklist's and a Boolean's end with the attribute's name |
| CodeGeneration.TypeNameShaped | Ceg.Console/Services/CodeGenerationService.cs:109-134 | type names are identifier-shaped when the entity's and the attribute's names are |
| TypeNameExamples.IsPreferredBoolean | Ceg.Console/Services/CodeGenerationService.cs:123-134 | a Boolean displayed as `Is Preferred` is named `IsPreferred`, after the entity's name, with no second `Is` |
| TypeNameExamples.ActiveBoolean | Ceg.Console/Services/CodeGenerationService.cs:123-134 | a Boolean displayed as `Active` is named `IsActive`, after the entity's name |
| CodeGeneration.TypeOfAttribute | Ceg.Console/Services/CodeGenerationService.cs:106-139 | the attribute's name throws first; no type for an attribute without an option set; an enum for picklist, state and status, and a class for a Boolean, named by `TypeName` |
| CodeGeneration.GenerateTypeFromAttributeMetadata | Ceg.Console/Services/CodeGenerationService.cs:106-139 | the method equals `TypeOfAttribute` |
| CodeGeneration.RelationshipAttributeType | Ceg.Console/Services/CodeGenerationService.cs:106-139 | a relationship never gets a type, and throws exactly when its schema name is not a valid identifier |
| CodeGeneration.PseudoAttributeType | Ceg.Console/Services/CodeGenerationService.cs:106-139 | the pseudo-attributes never get a type and never throw |
| CodeGeneration.TypeNeedsOptionSet | Ceg.Console/Services/CodeGenerationService.cs:112-138 | only an attribute with an option set gets a type |
| CodeGeneration.EnumsNamespace | Ceg.Console/Services/CodeGenerationService.cs:82-104 | built only when the entity's name normalizes; a namespace has the given name and the entity's comment block |
| CodeGeneration.GenerateEnumsNamespaceFromEntityMetadata | Ceg.Console/Services/CodeGenerationService.cs:82-104 | the method equals `EnumsNamespace` over the entity's attribute list |
| CodeGeneration.GenerateTypes | Ceg.Console/Services/CodeGenerationService.cs:88-95 | the loop equals `Collect` over the attributes' types, in order |
| CodeGeneration.EnumsNamespacePresent | Ceg.Console/Services/CodeGenerationService.cs:88-103 | the namespace is generated exactly when some attribute gets a type, and holds the types in attribute order |
| CodeGeneration.EnumsNamespaceNeedsOptionSet | Ceg.Console/Services/CodeGenerationService.cs:97-103 | only an entity with an option-set attribute gets an enums namespace |
| CodeGeneration.ConstantOf | Ceg.Console/Services/CodeGenerationService.cs:286-291 | an attribute's constant is named by its variable name, set to its logical name, with its comment |
| CodeGeneration.Constants | Ceg.Console/Services/CodeGenerationService.cs:286-291 | one constant per attribute, in order |
| CodeGeneration.ConstantsClass | Ceg.Console/Services/CodeGenerationService.cs:276-300 | throws exactly when the entity's name does; a sealed class named after the entity with one constant per attribute and no warning, or none with a warning when there are no attributes |
| CodeGeneration.GenerateClassFromAttributesMetadata | Ceg.Console/Services/CodeGenerationService.cs:276-300 | the loop equals `ConstantsClass` |
| CodeGeneration.ConstantsNamespace | Ceg.Console/Services/CodeGenerationService.cs:262-274 | throws exactly when the entity's name does; a namespace without comments holding the constants class exactly when there are attributes; otherwise none, with the class's warning twice |
| CodeGeneration.GenerateConstantsNamespaceFromEntityMetadata | Ceg.Console/Services/CodeGenerationService.cs:262-274 | the method equals `ConstantsNamespace` |
| CodeGeneration.EnumsCodeFile | Ceg.Console/Services/CodeGenerationService.cs:53-80 | no attributes: a warning and no file; otherwise the enums namespace, if any, in the `Enums` folder under the entity's name |
| CodeGeneration.ConstantsCodeFile | Ceg.Console/Services/CodeGenerationService.cs:233-260 | no attributes: a warning and no file; otherwise the constants namespace in the `Constants` folder under the entity's name, with no warning |
| CodeGeneration.GenerateEnumsCodeFile | Ceg.Console/Services/CodeGenerationService.cs:53-80 | a null entity throws `ArgumentNullException("entityMetadata")`; otherwise the method equals `EnumsCodeFile` |
| CodeGeneration.GenerateConstantsCodeFile | Ceg.Console/Services/CodeGenerationService.cs:233-260 | a null entity throws `ArgumentNullException("entityMetadata")`; otherwise the method equals `ConstantsCodeFile` |
| CodeGeneration.ConstantsFileOfEntity | Ceg.Console/Services/CodeGenerationService.cs:240-244 | for an entity read from the SDK the empty-list guard never fires: once its name normalizes, the constants file is written, starting with the `LogicalName` constant |

## Left out

- Identifiers.IsWord: `\w`, `\s` and `\d` are their ASCII subsets. .NET's classes also hold Unicode letters, digits and spaces, and the model says nothing about labels that use them.
- Identifiers.ToUpper: `String.ToUpper` is culture-sensitive and covers all of Unicode; the model upper-cases `a` to `z` only.
- Identifiers.IsValidIdentifier: the C# provider's check is modelled as identifier shape, the C# keywords, the four `__` keywords, a 512-character limit and the `@` prefix. Unicode identifier characters and the other checks the provider runs are not modelled.
- Sorting.SortBy: `OrderBy` uses `Comparer<string>.Default`, whose order depends on the current culture. The comparer is a parameter, and the lemmas assume only that it is a total preorder. No particular culture's collation is modelled.
- CodeGeneration.StartsWith: the source calls the culture-sensitive `string.StartsWith(string)`, on class names and on the free-text display name. The model compares ordinally, character by character. Characters the current culture ignores (control characters, the soft hyphen U+00AD) and culture contractions (under cs-CZ, `"Contachx"` does not start with `"Contac"`) are not modelled.
- Model.PseudoAttributes: the `LogicalName` and `Id` entries come from a two-entry `Dictionary`. The model takes its enumeration order to be insertion order, which is what .NET does for a dictionary nothing was removed from.
- Warnings logged before an exception are lost. The model's `Failure` carries only the exception.
- Informational logging (`Start processing`, `Done`, `Generating code files...`) is not modelled.
- A null SDK label, option set or attribute array throws `NullReferenceException` in the source. The model's input types have no nulls there.
- `GenerateCode`, the per-entity loops (`GenerateCodeForEnums`, `GenerateCodeForConstants`), the file path (`GetSourceFileName`) and the rendering of C# text by the CodeDOM provider are not modelled. The model stops at the declaration tree and the folder and file name.
- `GenerateConstant<T>` is folded into the two builders that call it. The `Const | Public` attributes it sets are implied by `ConstField`.
