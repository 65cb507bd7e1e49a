/**
 * The declaration builder of CodeGenerationService: an entity's attribute list is
 * turned into a namespace of enums (one per option-set attribute, a sealed class of
 * bool constants per Boolean attribute) and a namespace holding a sealed class of
 * string constants (one per attribute).
 *
 * A thrown ArgumentException or ArgumentNullException is a Failure carrying only the
 * error: warnings logged before the throw are not part of it. When a builder returns,
 * the warnings it logged come back, in the order they are logged, next to what it built.
 */
module CodeGeneration {
  import opened Wrappers
  import opened Numbers
  import opened Identifiers
  import opened Xrm
  import opened Model
  import opened CodeDom
  import opened Sorting

  /** The warnings logged when nothing is generated for an entity, an attribute or an option. */
  datatype Warning =
    | NothingForEntity(entity: string)
    | NothingForAttribute(attribute: string, entity: string)
    | NothingForOption(labelText: Option<string>, attribute: string, entity: string)

  /** A value built together with the warnings logged while building it. */
  datatype Built<T> = Built(value: T, warnings: seq<Warning>)

  /** What a builder returns or throws. */
  type Outcome<T> = Result<Built<T>, ArgumentError>

  // ------------------------------------------------- strings

  /**
   * string.StartsWith, compared character by character. The generator calls the
   * culture-sensitive overload; this model takes it to agree with the ordinal test.
   */
  predicate StartsWith(s: string, prefix: string) {
    |prefix| <= |s| && s[..|prefix|] == prefix
  }

  /** s ends with suffix, character by character (used to state results). */
  predicate EndsWith(s: string, suffix: string) {
    |suffix| <= |s| && s[|s| - |suffix|..] == suffix
  }

  // ------------------------------------------------- comments

  /**
   * GetComment: `DisplayName (LogicalName)`; without a display name the logical name,
   * or nothing when the variable name is the logical name.
   */
  function GetComment(m: Metadata): (r: Option<string>)
    ensures r.None? <==> NullOrEmpty(m.displayName) && m.variableName == Some(m.logicalName)
    ensures r.Some? && NullOrEmpty(m.displayName) ==> r.value == m.logicalName
    ensures r.Some? && !NullOrEmpty(m.displayName) ==>
              r.value == m.displayName.value + " (" + m.logicalName + ")"
  {
    if NullOrEmpty(m.displayName) then
      if m.variableName == Some(m.logicalName) then None else Some(m.logicalName)
    else
      Some(m.displayName.value + " (" + m.logicalName + ")")
  }

  /**
   * AddComment(comments, metadata): a `<summary>` block around the comment and, when
   * there is one, the description; no lines at all when the comment is null or empty.
   */
  function CommentBlock(m: Metadata): (r: seq<string>)
    ensures NullOrEmpty(GetComment(m)) <==> r == []
    ensures r != [] ==>
              && |r| == (if NullOrEmpty(m.description) then 3 else 4)
              && r[0] == "<summary>" && r[1] == GetComment(m).value && r[|r| - 1] == "</summary>"
              && (!NullOrEmpty(m.description) ==> r[2] == m.description.value)
  {
    var comment := GetComment(m);
    if NullOrEmpty(comment) then []
    else
      ["<summary>", comment.value] +
      (if NullOrEmpty(m.description) then [] else [m.description.value]) +
      ["</summary>"]
  }

  /** AddComment(comments, option): a `<summary>` block holding exactly the label (null as empty). */
  function OptionCommentBlock(o: OptionMetadata): (r: seq<string>)
    ensures |r| == 3 && r[1] == o.labelText.GetOr("")
    ensures r[0] == "<summary>" && r[2] == "</summary>"
  {
    ["<summary>", o.labelText.GetOr(""), "</summary>"]
  }

  // ------------------------------------------------- identifiers

  /** FormatIdentifier(metadata): the display name normalized, the logical name as fallback. */
  function FormatIdentifier(m: Metadata): (r: Result<string, ArgumentError>)
    ensures r.Success? ==> IsNormalizedName(r.value)
    ensures NullOrEmpty(m.displayName) ==> r == ValidateAndUseFallback(Some(m.logicalName))
    ensures r.Failure? ==> r == ValidateAndUseFallback(Some(m.logicalName))
  {
    NormalizeLabel(m.displayName, Some(m.logicalName))
  }

  /**
   * FormatIdentifier(option): the label normalized, `_` and the value as fallback. It
   * throws only for a negative value whose label rewrites to nothing, and then an
   * ArgumentException, never an ArgumentNullException.
   */
  function FormatOptionIdentifier(o: OptionMetadata): (r: Result<string, ArgumentError>)
    ensures r.Success? ==> IsNormalizedName(r.value)
    ensures r.Failure? ==> r.error == ArgumentInvalid("fallback") && o.value.Some? && o.value.value < 0
    ensures o.value.None? || o.value.value >= 0 ==> r.Success?
  {
    OptionFallbackValid(o.value);
    NormalizeLabel(o.labelText, Some(OptionFallback(o.value)))
  }

  // ------------------------------------------------- members

  /**
   * GenerateMemberFromOptionMetadata: nothing, with a warning, for an option without
   * a value; otherwise an enum member named after the label, initialised with the value.
   */
  function GenerateMemberFromOptionMetadata(attribute: AttributeMetadata, o: OptionMetadata, entityLogicalName: string)
    : (r: Outcome<Option<MemberDecl>>)
    ensures o.value.None? ==>
              r == Success(Built(None, [NothingForOption(o.labelText, attribute.logicalName, entityLogicalName)]))
    ensures o.value.Some? ==> (r.Success? <==> FormatOptionIdentifier(o).Success?)
    ensures o.value.Some? && r.Success? ==>
              && r.value.warnings == []
              && r.value.value == Some(EnumMember(FormatOptionIdentifier(o).value, o.value.value, OptionCommentBlock(o)))
              && IsNormalizedName(r.value.value.value.name)
  {
    if o.value.None? then
      Success(Built(None, [NothingForOption(o.labelText, attribute.logicalName, entityLogicalName)]))
    else
      var name :- FormatOptionIdentifier(o);
      Success(Built(Some(EnumMember(name, o.value.value, OptionCommentBlock(o))), []))
  }

  /**
   * GenerateMemberFromBooleanMetadata: always a bool constant named after the label;
   * its value is whether the option value (null read as 0) is non-zero.
   */
  function GenerateMemberFromBooleanMetadata(o: OptionMetadata): (r: Outcome<Option<MemberDecl>>)
    ensures r.Success? <==> FormatOptionIdentifier(o).Success?
    ensures r.Success? ==>
              && r.value.warnings == []
              && r.value.value == Some(ConstField(FormatOptionIdentifier(o).value,
                                                  BoolLiteral(o.value.GetOr(0) != 0), OptionCommentBlock(o)))
  {
    var name :- FormatOptionIdentifier(o);
    Success(Built(Some(ConstField(name, BoolLiteral(o.value.GetOr(0) != 0), OptionCommentBlock(o))), []))
  }

  // ------------------------------------------------- collecting the results of a loop

  function ItemSeq<T>(item: Option<T>): (r: seq<T>)
    ensures |r| == if item.Some? then 1 else 0
  {
    if item.Some? then [item.value] else []
  }

  /** One more pass of a builder loop: add what the step built, or stop at its exception. */
  function Extend<T>(done: Outcome<seq<T>>, step: Outcome<Option<T>>): Outcome<seq<T>> {
    match done
    case Failure(e) => Failure(e)
    case Success(d) =>
      match step
      case Failure(e) => Failure(e)
      case Success(s) => Success(Built(d.value + ItemSeq(s.value), d.warnings + s.warnings))
  }

  /** A builder loop over the results of its steps, in order. */
  function Collect<T>(steps: seq<Outcome<Option<T>>>): Outcome<seq<T>> {
    if |steps| == 0 then Success(Built([], []))
    else Extend(Collect(steps[..|steps| - 1]), steps[|steps| - 1])
  }

  lemma CollectNext<T>(steps: seq<Outcome<Option<T>>>, i: nat)
    requires i < |steps|
    ensures Collect(steps[..i + 1]) == Extend(Collect(steps[..i]), steps[i])
  {
    assert steps[..i + 1][..i] == steps[..i];
  }

  /** Once a step throws, the loop has thrown: later steps change nothing. */
  lemma {:induction false} CollectFailureSticks<T>(steps: seq<Outcome<Option<T>>>, i: nat)
    requires i <= |steps| && Collect(steps[..i]).Failure?
    ensures Collect(steps) == Collect(steps[..i])
    decreases |steps|
  {
    if i == |steps| {
      assert steps[..i] == steps;
    } else {
      var p := steps[..|steps| - 1];
      assert p[..i] == steps[..i];
      CollectFailureSticks(p, i);
    }
  }

  /** The items built by the steps, in order (defined front to back). */
  function Emitted<T>(steps: seq<Outcome<Option<T>>>): seq<T>
    requires forall i :: 0 <= i < |steps| ==> steps[i].Success?
  {
    if |steps| == 0 then [] else ItemSeq(steps[0].value.value) + Emitted(steps[1..])
  }

  /** The warnings logged by the steps, in order (defined front to back). */
  function Warned<T>(steps: seq<Outcome<Option<T>>>): seq<Warning>
    requires forall i :: 0 <= i < |steps| ==> steps[i].Success?
  {
    if |steps| == 0 then [] else steps[0].value.warnings + Warned(steps[1..])
  }

  lemma {:induction false} EmittedAppend<T>(steps: seq<Outcome<Option<T>>>, last: Outcome<Option<T>>)
    requires forall i :: 0 <= i < |steps| ==> steps[i].Success?
    requires last.Success?
    ensures Emitted(steps + [last]) == Emitted(steps) + ItemSeq(last.value.value)
    decreases |steps|
  {
    if |steps| == 0 {
      assert [] + [last] == [last];
      assert [last][1..] == [];
    } else {
      assert (steps + [last])[1..] == steps[1..] + [last];
      EmittedAppend(steps[1..], last);
      assert Emitted(steps + [last]) == ItemSeq(steps[0].value.value) + Emitted(steps[1..] + [last]);
    }
  }

  lemma {:induction false} WarnedAppend<T>(steps: seq<Outcome<Option<T>>>, last: Outcome<Option<T>>)
    requires forall i :: 0 <= i < |steps| ==> steps[i].Success?
    requires last.Success?
    ensures Warned(steps + [last]) == Warned(steps) + last.value.warnings
    decreases |steps|
  {
    if |steps| == 0 {
      assert [] + [last] == [last];
      assert [last][1..] == [];
    } else {
      assert (steps + [last])[1..] == steps[1..] + [last];
      WarnedAppend(steps[1..], last);
      assert Warned(steps + [last]) == steps[0].value.warnings + Warned(steps[1..] + [last]);
    }
  }

  /**
   * A builder loop throws exactly when one of its steps throws, and then with the
   * exception of the first; otherwise it returns every item built, in order, with
   * every warning logged, in order.
   */
  lemma CollectResult<T>(steps: seq<Outcome<Option<T>>>)
    ensures Collect(steps).Success? <==> forall i :: 0 <= i < |steps| ==> steps[i].Success?
    ensures Collect(steps).Success? ==> Collect(steps).value == Built(Emitted(steps), Warned(steps))
    ensures Collect(steps).Failure? ==>
              exists i :: 0 <= i < |steps| && steps[i].Failure? && Collect(steps).error == steps[i].error &&
                          forall j :: 0 <= j < i ==> steps[j].Success?
  {
    CollectSucceeds(steps);
    if Collect(steps).Success? {
      CollectBuilt(steps);
    } else {
      CollectFirstFailure(steps);
    }
  }

  /** A builder loop returns exactly when every step returns. */
  lemma {:induction false} CollectSucceeds<T>(steps: seq<Outcome<Option<T>>>)
    ensures Collect(steps).Success? <==> forall i :: 0 <= i < |steps| ==> steps[i].Success?
    decreases |steps|
  {
    if |steps| > 0 {
      var p := steps[..|steps| - 1];
      CollectSucceeds(p);
      assert forall i :: 0 <= i < |p| ==> steps[i] == p[i];
    }
  }

  /** When every step returns, the loop returns every item and every warning, in order. */
  lemma {:induction false} CollectBuilt<T>(steps: seq<Outcome<Option<T>>>)
    requires forall i :: 0 <= i < |steps| ==> steps[i].Success?
    ensures Collect(steps) == Success(Built(Emitted(steps), Warned(steps)))
    decreases |steps|
  {
    if |steps| > 0 {
      var p, last := steps[..|steps| - 1], steps[|steps| - 1];
      assert forall i :: 0 <= i < |p| ==> p[i] == steps[i];
      CollectBuilt(p);
      assert steps == p + [last];
      EmittedAppend(p, last);
      WarnedAppend(p, last);
    }
  }

  /** A loop that throws does so with the exception of its first step that throws. */
  lemma {:induction false} CollectFirstFailure<T>(steps: seq<Outcome<Option<T>>>)
    requires Collect(steps).Failure?
    ensures exists i :: 0 <= i < |steps| && steps[i].Failure? && Collect(steps).error == steps[i].error &&
                        forall j :: 0 <= j < i ==> steps[j].Success?
    decreases |steps|
  {
    var p, last := steps[..|steps| - 1], steps[|steps| - 1];
    if Collect(p).Failure? {
      CollectFirstFailure(p);
      var i :| 0 <= i < |p| && p[i].Failure? && Collect(p).error == p[i].error &&
               forall j :: 0 <= j < i ==> p[j].Success?;
      assert steps[i] == p[i];
      assert forall j :: 0 <= j < i ==> steps[j] == p[j];
    } else {
      CollectSucceeds(p);
      assert forall j :: 0 <= j < |p| ==> steps[j] == p[j];
    }
  }

  /** Without exceptions, a loop builds nothing exactly when no step builds anything. */
  lemma {:induction false} EmittedEmpty<T>(steps: seq<Outcome<Option<T>>>)
    requires forall i :: 0 <= i < |steps| ==> steps[i].Success?
    ensures Emitted(steps) == [] <==> forall i :: 0 <= i < |steps| ==> steps[i].value.value.None?
    decreases |steps|
  {
    if |steps| > 0 {
      EmittedEmpty(steps[1..]);
      assert forall i :: 1 <= i < |steps| ==> steps[i] == steps[1..][i - 1];
    }
  }

  // ------------------------------------------------- enum and boolean class of an attribute

  /** The member built for each option of an option-set attribute. */
  function OptionSteps(attribute: AttributeMetadata, entityLogicalName: string): (r: seq<Outcome<Option<MemberDecl>>>)
    ensures |r| == |attribute.options|
  {
    seq(|attribute.options|, i requires 0 <= i < |attribute.options| =>
      GenerateMemberFromOptionMetadata(attribute, attribute.options[i], entityLogicalName))
  }

  /** The constant built for each option of a Boolean attribute. */
  function BooleanSteps(attribute: AttributeMetadata): (r: seq<Outcome<Option<MemberDecl>>>)
    ensures |r| == |attribute.options|
  {
    seq(|attribute.options|, i requires 0 <= i < |attribute.options| =>
      GenerateMemberFromBooleanMetadata(attribute.options[i]))
  }

  /** A declaration when the loop built members; otherwise none and a warning. */
  function DeclareIfAny(members: Outcome<seq<MemberDecl>>, decl: TypeDecl, attribute: AttributeMetadata, entityLogicalName: string)
    : (r: Outcome<Option<TypeDecl>>)
    requires decl.members == []
    ensures members.Failure? ==> r == Failure(members.error)
    ensures members.Success? && members.value.value != [] ==>
              r == Success(Built(Some(decl.(members := members.value.value)), members.value.warnings))
    ensures members.Success? && members.value.value == [] ==>
              r == Success(Built(None, members.value.warnings + [NothingForAttribute(attribute.logicalName, entityLogicalName)]))
  {
    match members
    case Failure(e) => Failure(e)
    case Success(Built(ms, ws)) =>
      if |ms| > 0 then Success(Built(Some(decl.(members := ms)), ws))
      else Success(Built(None, ws + [NothingForAttribute(attribute.logicalName, entityLogicalName)]))
  }

  /** The enum GenerateTypeFromOptionSetMetadata builds. */
  function OptionSetType(attribute: AttributeMetadata, enumName: string, entityLogicalName: string): (r: Outcome<Option<TypeDecl>>)
    ensures r.Success? && r.value.value.Some? ==> r.value.value.value.EnumDecl? && r.value.value.value.name == enumName
  {
    DeclareIfAny(Collect(OptionSteps(attribute, entityLogicalName)),
                 EnumDecl(enumName, CommentBlock(attribute.Base()), []), attribute, entityLogicalName)
  }

  /** The sealed class GenerateTypeFromBooleanMetadata builds. */
  function BooleanType(attribute: AttributeMetadata, className: string, entityLogicalName: string): (r: Outcome<Option<TypeDecl>>)
    ensures r.Success? && r.value.value.Some? ==> r.value.value.value.SealedClassDecl? && r.value.value.value.name == className
  {
    DeclareIfAny(Collect(BooleanSteps(attribute)),
                 SealedClassDecl(className, CommentBlock(attribute.Base()), []), attribute, entityLogicalName)
  }

  /**
   * GenerateTypeFromOptionSetMetadata: an enum with a member per option that has a
   * value; none, with a warning, when no option has one.
   */
  method GenerateTypeFromOptionSetMetadata(attribute: AttributeMetadata, enumName: string, entityLogicalName: string)
    returns (r: Outcome<Option<TypeDecl>>)
    ensures r == OptionSetType(attribute, enumName, entityLogicalName)
  {
    var comments := CommentBlock(attribute.Base());
    ghost var steps := OptionSteps(attribute, entityLogicalName);
    var members: seq<MemberDecl> := [];
    var warnings: seq<Warning> := [];
    var i := 0;
    while i < |attribute.options|
      invariant 0 <= i <= |attribute.options|
      invariant Collect(steps[..i]) == Success(Built(members, warnings))
    {
      var step := GenerateMemberFromOptionMetadata(attribute, attribute.options[i], entityLogicalName);
      assert step == steps[i];
      CollectNext(steps, i);
      if step.Failure? {
        CollectFailureSticks(steps, i + 1);
        return Failure(step.error);
      }
      members := members + ItemSeq(step.value.value);
      warnings := warnings + step.value.warnings;
      i := i + 1;
    }
    assert steps[..i] == steps;
    if |members| > 0 {
      return Success(Built(Some(EnumDecl(enumName, comments, members)), warnings));
    }
    return Success(Built(None, warnings + [NothingForAttribute(attribute.logicalName, entityLogicalName)]));
  }

  /** GenerateTypeFromBooleanMetadata: a sealed class with a bool constant per option. */
  method GenerateTypeFromBooleanMetadata(attribute: AttributeMetadata, className: string, entityLogicalName: string)
    returns (r: Outcome<Option<TypeDecl>>)
    ensures r == BooleanType(attribute, className, entityLogicalName)
  {
    var comments := CommentBlock(attribute.Base());
    ghost var steps := BooleanSteps(attribute);
    var members: seq<MemberDecl> := [];
    var warnings: seq<Warning> := [];
    var i := 0;
    while i < |attribute.options|
      invariant 0 <= i <= |attribute.options|
      invariant Collect(steps[..i]) == Success(Built(members, warnings))
    {
      var step := GenerateMemberFromBooleanMetadata(attribute.options[i]);
      assert step == steps[i];
      CollectNext(steps, i);
      if step.Failure? {
        CollectFailureSticks(steps, i + 1);
        return Failure(step.error);
      }
      members := members + ItemSeq(step.value.value);
      warnings := warnings + step.value.warnings;
      i := i + 1;
    }
    assert steps[..i] == steps;
    if |members| > 0 {
      return Success(Built(Some(SealedClassDecl(className, comments, members)), warnings));
    }
    return Success(Built(None, warnings + [NothingForAttribute(attribute.logicalName, entityLogicalName)]));
  }

  /** An enum is generated exactly when some option has a value (and no option name throws). */
  lemma OptionSetTypePresent(attribute: AttributeMetadata, enumName: string, entityLogicalName: string)
    requires OptionSetType(attribute, enumName, entityLogicalName).Success?
    ensures var r := OptionSetType(attribute, enumName, entityLogicalName).value;
      && (r.value.Some? <==> exists i :: 0 <= i < |attribute.options| && attribute.options[i].value.Some?)
      && (r.value.Some? ==> r.value.value.EnumDecl? && r.value.value.name == enumName)
  {
    var steps := OptionSteps(attribute, entityLogicalName);
    CollectResult(steps);
    EmittedEmpty(steps);
    forall i | 0 <= i < |attribute.options|
      ensures steps[i].value.value.None? <==> attribute.options[i].value.None?
    {
      assert steps[i].Success?;
    }
  }

  /** The members of a generated enum are the options with a value, each named after its label. */
  lemma OptionSetMembers(attribute: AttributeMetadata, enumName: string, entityLogicalName: string)
    requires OptionSetType(attribute, enumName, entityLogicalName).Success?
    ensures forall i :: 0 <= i < |attribute.options| && attribute.options[i].value.Some? ==>
              FormatOptionIdentifier(attribute.options[i]).Success?
    ensures var r := OptionSetType(attribute, enumName, entityLogicalName).value;
      r.value.Some? ==> r.value.value.members == Emitted(OptionSteps(attribute, entityLogicalName))
  {
    var steps := OptionSteps(attribute, entityLogicalName);
    CollectResult(steps);
    forall i | 0 <= i < |attribute.options| && attribute.options[i].value.Some?
      ensures FormatOptionIdentifier(attribute.options[i]).Success?
    {
      assert steps[i].Success?;
    }
  }

  /** A Boolean attribute with options always gets its class (unless an option name throws). */
  lemma BooleanTypePresent(attribute: AttributeMetadata, className: string, entityLogicalName: string)
    requires BooleanType(attribute, className, entityLogicalName).Success?
    ensures var r := BooleanType(attribute, className, entityLogicalName).value;
      && (r.value.Some? <==> |attribute.options| > 0)
      && (r.value.Some? ==> r.value.value.SealedClassDecl? && r.value.value.name == className &&
                             |r.value.value.members| == |attribute.options|)
      && r.warnings == (if |attribute.options| > 0 then [] else [NothingForAttribute(attribute.logicalName, entityLogicalName)])
  {
    var steps := BooleanSteps(attribute);
    CollectResult(steps);
    EmittedEmpty(steps);
    BooleanStepsEmitAll(steps);
  }

  lemma {:induction false} BooleanStepsEmitAll(steps: seq<Outcome<Option<MemberDecl>>>)
    requires forall i :: 0 <= i < |steps| ==> steps[i].Success? && steps[i].value.value.Some? && steps[i].value.warnings == []
    ensures |Emitted(steps)| == |steps| && Warned(steps) == []
    decreases |steps|
  {
    if |steps| > 0 {
      BooleanStepsEmitAll(steps[1..]);
    }
  }

  // ------------------------------------------------- the type of an attribute

  /** A Boolean attribute whose name already reads as a question gets no `Is` in front. */
  predicate ReadsAsQuestion(className: string, displayName: string) {
    StartsWith(className, "_") ||
    StartsWith(displayName, "Is ") || StartsWith(displayName, "Are ") ||
    StartsWith(displayName, "Has ") || StartsWith(displayName, "Have ") ||
    StartsWith(displayName, "Do ") || StartsWith(displayName, "Does ")
  }

  /** The words that make a display name read as a question when a space follows them. */
  const QuestionWords: set<string> := {"Is", "Are", "Has", "Have", "Do", "Does"}

  /** The characters of s before its first space (all of s when it has none). */
  function FirstWord(s: string): (w: string)
    ensures |w| <= |s| && w == s[..|w|]
    ensures forall i :: 0 <= i < |w| ==> w[i] != ' '
    ensures |w| < |s| ==> s[|w|] == ' '
  {
    if |s| == 0 || s[0] == ' ' then [] else [s[0]] + FirstWord(s[1..])
  }

  /** s starts with the word w and a space exactly when w is its first word and a space follows. */
  lemma StartsWithWord(s: string, w: string)
    requires forall i :: 0 <= i < |w| ==> w[i] != ' '
    ensures StartsWith(s, w + " ") <==> |FirstWord(s)| < |s| && FirstWord(s) == w
  {
    var f := FirstWord(s);
    if StartsWith(s, w + " ") {
      assert s[|w|] == ' ';
      assert f == s[..|w|] == w;
    }
    if |f| < |s| && f == w {
      assert s[..|w| + 1] == w + " ";
    }
  }

  /**
   * A Boolean attribute reads as a question exactly when its normalized name starts
   * with `_` or its display name opens with Is, Are, Has, Have, Do or Does followed
   * by a space.
   */
  lemma ReadsAsQuestionExactly(className: string, displayName: string)
    ensures ReadsAsQuestion(className, displayName) <==>
              (|className| > 0 && className[0] == '_') ||
              (|FirstWord(displayName)| < |displayName| && FirstWord(displayName) in QuestionWords)
  {
    assert StartsWith(className, "_") <==> |className| > 0 && className[0] == '_';
    var f := FirstWord(displayName);
    assert f in QuestionWords <==> f == "Is" || f == "Are" || f == "Has" || f == "Have" || f == "Do" || f == "Does";
    assert "Is" + " " == "Is " && "Are" + " " == "Are " && "Has" + " " == "Has ";
    assert "Have" + " " == "Have " && "Do" + " " == "Do " && "Does" + " " == "Does ";
    StartsWithWord(displayName, "Is");
    StartsWithWord(displayName, "Are");
    StartsWithWord(displayName, "Has");
    StartsWithWord(displayName, "Have");
    StartsWithWord(displayName, "Do");
    StartsWithWord(displayName, "Does");
  }

  /**
   * The name of the type generated for an attribute, none for an attribute without
   * an option set. The entity's name is put in front unless the attribute's name
   * already starts with it; state and status enums are named after the entity alone.
   */
  function TypeName(attribute: AttributeMetadata, className: string, entityName: string): (r: Option<string>)
    ensures r.Some? <==> HasOptionSet(attribute.attributeType)
    ensures attribute.attributeType == Some(Picklist) ==>
              r == Some(if StartsWith(className, entityName) then className else entityName + className)
    ensures attribute.attributeType == Some(State) ==> r == Some(entityName + "StateCode")
    ensures attribute.attributeType == Some(Status) ==> r == Some(entityName + "StatusCode")
    ensures attribute.attributeType == Some(Boolean) && ReadsAsQuestion(className, attribute.displayName.GetOr("")) ==>
              r == Some(if StartsWith(className, entityName) then className else entityName + className)
    ensures attribute.attributeType == Some(Boolean) && !ReadsAsQuestion(className, attribute.displayName.GetOr("")) ==>
              r == Some(if StartsWith(className, entityName) then "Is" + className else entityName + "Is" + className)
  {
    var prefix := if StartsWith(className, entityName) then "" else entityName;
    assert "" + className == className && "" + "Is" + className == "Is" + className;
    match attribute.attributeType
    case Some(Picklist) => Some(prefix + className)
    case Some(State) => Some(entityName + "StateCode")
    case Some(Status) => Some(entityName + "StatusCode")
    case Some(Boolean) =>
      if ReadsAsQuestion(className, attribute.displayName.GetOr("")) then Some(prefix + className)
      else Some(prefix + "Is" + className)
    case _ => None
  }

  /**
   * Every type name but a Boolean's starts with the entity's name; a picklist's and a
   * Boolean's end with the attribute's name, and a Boolean's that does not start with
   * the entity's name is `Is` and the attribute's name.
   */
  lemma TypeNameAffixes(attribute: AttributeMetadata, className: string, entityName: string)
    ensures var r := TypeName(attribute, className, entityName);
            && (r.Some? && attribute.attributeType != Some(Boolean) ==> StartsWith(r.value, entityName))
            && (r.Some? && attribute.attributeType in {Some(Picklist), Some(Boolean)} ==> EndsWith(r.value, className))
            && (r.Some? && attribute.attributeType == Some(Boolean) ==>
                  StartsWith(r.value, entityName) || r.value == "Is" + className)
  {
    var question := ReadsAsQuestion(className, attribute.displayName.GetOr(""));
    match attribute.attributeType
    case Some(Picklist) =>
      PrefixedAffixes(className, entityName);
    case Some(State) =>
      ConcatAffixes(entityName, "StateCode");
    case Some(Status) =>
      ConcatAffixes(entityName, "StatusCode");
    case Some(Boolean) =>
      if question {
        PrefixedAffixes(className, entityName);
      } else {
        QuestionAffixes(className, entityName);
      }
    case _ =>
  }

  /** The entity's name put in front unless already there: both affixes hold. */
  lemma PrefixedAffixes(className: string, entityName: string)
    ensures var r := if StartsWith(className, entityName) then className else entityName + className;
      StartsWith(r, entityName) && EndsWith(r, className)
  {
    ConcatAffixes(entityName, className);
    ConcatAffixes([], className);
  }

  /** `Is` added after the entity's name, or alone when the name already starts with it. */
  lemma QuestionAffixes(className: string, entityName: string)
    ensures var r := if StartsWith(className, entityName) then "Is" + className else entityName + "Is" + className;
      (StartsWith(r, entityName) || r == "Is" + className) && EndsWith(r, className)
  {
    ConcatAffixes("Is", className);
    ConcatAffixes(entityName, "Is" + className);
    assert entityName + "Is" + className == entityName + ("Is" + className);
  }

  /** A concatenation starts with its first part and ends with its second. */
  lemma ConcatAffixes(x: string, y: string)
    ensures StartsWith(x + y, x) && EndsWith(x + y, y)
  {
    assert (x + y)[..|x|] == x;
    assert (x + y)[|x + y| - |y|..] == y;
  }

  /** Type names are made of identifier characters when the entity's and the attribute's names are. */
  lemma TypeNameShaped(attribute: AttributeMetadata, className: string, entityName: string)
    requires IsIdentifierShaped(className) && IsIdentifierShaped(entityName)
    ensures var r := TypeName(attribute, className, entityName);
      r.Some? ==> IsIdentifierShaped(r.value)
  {
    var prefix := if StartsWith(className, entityName) then "" else entityName;
    var question := ReadsAsQuestion(className, attribute.displayName.GetOr(""));
    match attribute.attributeType
    case Some(Picklist) =>
      PrefixedShaped(prefix, entityName, className);
    case Some(State) =>
      ConcatShaped(entityName, "StateCode");
    case Some(Status) =>
      ConcatShaped(entityName, "StatusCode");
    case Some(Boolean) =>
      if question {
        PrefixedShaped(prefix, entityName, className);
      } else {
        ConcatShaped("Is", className);
        PrefixedShaped(prefix, entityName, "Is" + className);
        assert prefix + "Is" + className == prefix + ("Is" + className);
      }
    case _ =>
  }

  /** An identifier-shaped name followed by identifier characters is identifier-shaped. */
  lemma ConcatShaped(a: string, b: string)
    requires IsIdentifierShaped(a) && forall i :: 0 <= i < |b| ==> IsWord(b[i])
    ensures IsIdentifierShaped(a + b)
  {
    assert forall i :: |a| <= i < |a + b| ==> (a + b)[i] == b[i - |a|];
  }

  lemma PrefixedShaped(prefix: string, entityName: string, name: string)
    requires prefix == "" || prefix == entityName
    requires IsIdentifierShaped(entityName) && IsIdentifierShaped(name)
    ensures IsIdentifierShaped(prefix + name)
  {
    if prefix == "" {
      assert prefix + name == name;
    } else {
      ConcatShaped(entityName, name);
    }
  }

  /** What GenerateTypeFromAttributeMetadata builds for an attribute. */
  function TypeOfAttribute(attribute: AttributeMetadata, entityName: string, entityLogicalName: string)
    : (r: Outcome<Option<TypeDecl>>)
    ensures FormatIdentifier(attribute.Base()).Failure? ==> r == Failure(FormatIdentifier(attribute.Base()).error)
    ensures !HasOptionSet(attribute.attributeType) && FormatIdentifier(attribute.Base()).Success? ==> r == Success(Built(None, []))
    ensures r.Success? && r.value.value.Some? ==>
              && TypeName(attribute, FormatIdentifier(attribute.Base()).value, entityName) == Some(r.value.value.value.name)
              && (r.value.value.value.EnumDecl? <==> attribute.attributeType != Some(Boolean))
  {
    match FormatIdentifier(attribute.Base())
    case Failure(e) => Failure(e)
    case Success(className) =>
      var name := TypeName(attribute, className, entityName);
      if name.None? then Success(Built(None, []))
      else if attribute.attributeType == Some(Boolean) then BooleanType(attribute, name.value, entityLogicalName)
      else OptionSetType(attribute, name.value, entityLogicalName)
  }

  /**
   * GenerateTypeFromAttributeMetadata: an enum for a picklist, state or status
   * attribute, a class of bool constants for a Boolean one, nothing for the others.
   * The attribute's name is normalized first, whatever its type.
   */
  method GenerateTypeFromAttributeMetadata(attribute: AttributeMetadata, entityName: string, entityLogicalName: string)
    returns (r: Outcome<Option<TypeDecl>>)
    ensures r == TypeOfAttribute(attribute, entityName, entityLogicalName)
  {
    var formatted := FormatIdentifier(attribute.Base());
    if formatted.Failure? {
      return Failure(formatted.error);
    }
    var className := formatted.value;
    var prefix := if StartsWith(className, entityName) then "" else entityName;
    var displayName := attribute.displayName.GetOr("");
    match attribute.attributeType {
      case Some(Picklist) =>
        assert TypeName(attribute, className, entityName) == Some(prefix + className);
        r := GenerateTypeFromOptionSetMetadata(attribute, prefix + className, entityLogicalName);
      case Some(State) =>
        assert TypeName(attribute, className, entityName) == Some(entityName + "StateCode");
        r := GenerateTypeFromOptionSetMetadata(attribute, entityName + "StateCode", entityLogicalName);
      case Some(Status) =>
        assert TypeName(attribute, className, entityName) == Some(entityName + "StatusCode");
        r := GenerateTypeFromOptionSetMetadata(attribute, entityName + "StatusCode", entityLogicalName);
      case Some(Boolean) =>
        if ReadsAsQuestion(className, displayName) {
          assert TypeName(attribute, className, entityName) == Some(prefix + className);
          r := GenerateTypeFromBooleanMetadata(attribute, prefix + className, entityLogicalName);
        } else {
          assert TypeName(attribute, className, entityName) == Some(prefix + "Is" + className);
          r := GenerateTypeFromBooleanMetadata(attribute, prefix + "Is" + className, entityLogicalName);
        }
      case _ =>
        assert TypeName(attribute, className, entityName) == None;
        r := Success(Built(None, []));
    }
  }

  /**
   * A relationship attribute never gets a type; its name, having no display name,
   * is its schema name, and generation throws when that is not a valid identifier.
   */
  lemma RelationshipAttributeType(schemaName: string, entityName: string, entityLogicalName: string)
    ensures var r := TypeOfAttribute(AttributeFromRelationship(schemaName), entityName, entityLogicalName);
      && (r.Failure? <==> !IsValidIdentifier(schemaName))
      && (r.Failure? ==> r.error == ValidateAndUseFallback(Some(schemaName)).error)
      && (r.Success? ==> r.value == Built(None, []))
  {
  }

  /** The pseudo-attributes never get a type, and their names never throw. */
  lemma PseudoAttributeType(e: XrmEntity, i: nat, entityName: string)
    requires i < |PseudoAttributes(e)|
    ensures TypeOfAttribute(PseudoAttributes(e)[i], entityName, e.logicalName) == Success(Built(None, []))
  {
    var a := PseudoAttributes(e)[i];
    PseudoAttributeNamed(e, i);
    CapitalizedWordNormalized(a.variableName, Some(a.logicalName));
    assert FormatIdentifier(a.Base()) == Success(a.variableName);
  }

  /** A pseudo-attribute is displayed under its key, a capitalized word, and has no type. */
  lemma PseudoAttributeNamed(e: XrmEntity, i: nat)
    requires i < |PseudoAttributes(e)|
    ensures var a := PseudoAttributes(e)[i];
            a.displayName == Some(a.variableName) && IsCapitalizedWord(a.variableName) && a.attributeType.None?
  {
    assert IsCapitalizedWord("LogicalName") && IsCapitalizedWord("Id") && IsCapitalizedWord("PrimaryAttribute");
    var a := PseudoAttributes(e)[i];
    assert a.variableName in {"LogicalName", "Id", "PrimaryAttribute"};
  }

  // ------------------------------------------------- the enums namespace of an entity

  /** The type built for each attribute of an entity. */
  function TypeSteps(attributes: seq<AttributeMetadata>, entityName: string, entityLogicalName: string)
    : (r: seq<Outcome<Option<TypeDecl>>>)
    ensures |r| == |attributes|
  {
    seq(|attributes|, i requires 0 <= i < |attributes| => TypeOfAttribute(attributes[i], entityName, entityLogicalName))
  }

  /** What GenerateEnumsNamespaceFromEntityMetadata builds for an entity with these attributes. */
  function EnumsNamespace(entity: Metadata, attributes: seq<AttributeMetadata>, namespaceName: string)
    : (r: Outcome<Option<NamespaceDecl>>)
    ensures r.Success? ==> FormatIdentifier(entity).Success?
    ensures r.Success? && r.value.value.Some? ==>
              r.value.value.value.name == namespaceName && r.value.value.value.comments == CommentBlock(entity)
  {
    match FormatIdentifier(entity)
    case Failure(e) => Failure(e)
    case Success(entityName) =>
      match Collect(TypeSteps(attributes, entityName, entity.logicalName))
      case Failure(e) => Failure(e)
      case Success(Built(types, warnings)) =>
        if |types| > 0 then Success(Built(Some(NamespaceDecl(namespaceName, CommentBlock(entity), types)), warnings))
        else Success(Built(None, warnings + [NothingForEntity(entity.logicalName)]))
  }

  /**
   * GenerateEnumsNamespaceFromEntityMetadata: the types of the entity's attributes, in
   * the order of its attribute list; none, with a warning, when no attribute has one.
   */
  method GenerateEnumsNamespaceFromEntityMetadata(entity: EntityMetadata, namespaceName: string)
    returns (r: Outcome<Option<NamespaceDecl>>)
    ensures r == EnumsNamespace(entity.Base(), entity.attributes, namespaceName)
  {
    var comments := CommentBlock(entity.Base());
    var formatted := FormatIdentifier(entity.Base());
    if formatted.Failure? {
      return Failure(formatted.error);
    }
    var entityName := formatted.value;
    var built := GenerateTypes(entity.attributes, entityName, entity.logicalName);
    if built.Failure? {
      return Failure(built.error);
    }
    var types, warnings := built.value.value, built.value.warnings;
    if |types| > 0 {
      return Success(Built(Some(NamespaceDecl(namespaceName, comments, types)), warnings));
    }
    return Success(Built(None, warnings + [NothingForEntity(entity.logicalName)]));
  }

  /** The loop of GenerateEnumsNamespaceFromEntityMetadata: the types of the attributes, in order. */
  method GenerateTypes(attributes: seq<AttributeMetadata>, entityName: string, entityLogicalName: string)
    returns (r: Outcome<seq<TypeDecl>>)
    ensures r == Collect(TypeSteps(attributes, entityName, entityLogicalName))
  {
    ghost var steps := TypeSteps(attributes, entityName, entityLogicalName);
    var types: seq<TypeDecl> := [];
    var warnings: seq<Warning> := [];
    var i := 0;
    while i < |attributes|
      invariant 0 <= i <= |attributes|
      invariant Collect(steps[..i]) == Success(Built(types, warnings))
    {
      var step := GenerateTypeFromAttributeMetadata(attributes[i], entityName, entityLogicalName);
      assert step == steps[i];
      CollectNext(steps, i);
      if step.Failure? {
        CollectFailureSticks(steps, i + 1);
        return Failure(step.error);
      }
      types := types + ItemSeq(step.value.value);
      warnings := warnings + step.value.warnings;
      i := i + 1;
    }
    assert steps[..i] == steps;
    return Success(Built(types, warnings));
  }

  /**
   * The enums namespace is generated exactly when some attribute gets a type, which
   * needs an attribute with an option set; it holds the types in attribute order.
   */
  lemma EnumsNamespacePresent(entity: Metadata, attributes: seq<AttributeMetadata>, namespaceName: string)
    requires EnumsNamespace(entity, attributes, namespaceName).Success?
    ensures var entityName := FormatIdentifier(entity).value;
      var steps := TypeSteps(attributes, entityName, entity.logicalName);
      var r := EnumsNamespace(entity, attributes, namespaceName).value;
      && (forall i :: 0 <= i < |attributes| ==> steps[i].Success?)
      && (r.value.Some? <==> exists i :: 0 <= i < |attributes| && steps[i].value.value.Some?)
      && (r.value.Some? ==> r.value.value.types == Emitted(steps))
  {
    var entityName := FormatIdentifier(entity).value;
    var steps := TypeSteps(attributes, entityName, entity.logicalName);
    CollectResult(steps);
    EmittedEmpty(steps);
  }

  /** Only an entity with an option-set attribute gets an enums namespace. */
  lemma EnumsNamespaceNeedsOptionSet(entity: Metadata, attributes: seq<AttributeMetadata>, namespaceName: string)
    requires EnumsNamespace(entity, attributes, namespaceName).Success?
    ensures EnumsNamespace(entity, attributes, namespaceName).value.value.Some? ==>
              exists i :: 0 <= i < |attributes| && HasOptionSet(attributes[i].attributeType)
  {
    var entityName := FormatIdentifier(entity).value;
    var steps := TypeSteps(attributes, entityName, entity.logicalName);
    var r := EnumsNamespace(entity, attributes, namespaceName).value;
    EnumsNamespacePresent(entity, attributes, namespaceName);
    if r.value.Some? {
      var i :| 0 <= i < |attributes| && steps[i].value.value.Some?;
      StepNeedsOptionSet(attributes, entityName, entity.logicalName, i);
    }
  }

  /** A step that builds a type belongs to an attribute with an option set. */
  lemma StepNeedsOptionSet(attributes: seq<AttributeMetadata>, entityName: string, entityLogicalName: string, i: int)
    requires 0 <= i < |attributes|
    requires TypeSteps(attributes, entityName, entityLogicalName)[i].Success?
    requires TypeSteps(attributes, entityName, entityLogicalName)[i].value.value.Some?
    ensures HasOptionSet(attributes[i].attributeType)
  {
    assert TypeSteps(attributes, entityName, entityLogicalName)[i] == TypeOfAttribute(attributes[i], entityName, entityLogicalName);
    TypeNeedsOptionSet(attributes[i], entityName, entityLogicalName);
  }

  /** Only an attribute with an option set gets a type. */
  lemma TypeNeedsOptionSet(attribute: AttributeMetadata, entityName: string, entityLogicalName: string)
    ensures var r := TypeOfAttribute(attribute, entityName, entityLogicalName);
            r.Success? && r.value.value.Some? ==> HasOptionSet(attribute.attributeType)
  {
  }

  // ------------------------------------------------- the constants namespace of an entity

  /** The constant of an attribute: its variable name, set to its logical name. */
  function ConstantOf(attribute: AttributeMetadata): (r: MemberDecl)
    ensures r.ConstField? && r.name == attribute.variableName && r.init == StringLiteral(attribute.logicalName)
    ensures r.comments == CommentBlock(attribute.Base())
  {
    ConstField(attribute.variableName, StringLiteral(attribute.logicalName), CommentBlock(attribute.Base()))
  }

  /** The constants of the attributes, in order. */
  function Constants(attributes: seq<AttributeMetadata>): (r: seq<MemberDecl>)
    ensures |r| == |attributes|
    ensures forall i :: 0 <= i < |attributes| ==> r[i] == ConstantOf(attributes[i])
  {
    seq(|attributes|, i requires 0 <= i < |attributes| => ConstantOf(attributes[i]))
  }

  lemma ConstantsNext(attributes: seq<AttributeMetadata>, i: nat)
    requires i < |attributes|
    ensures Constants(attributes[..i + 1]) == Constants(attributes[..i]) + [ConstantOf(attributes[i])]
  {
  }

  /** What GenerateClassFromAttributesMetadata builds for an entity with these attributes. */
  function ConstantsClass(entity: Metadata, attributes: seq<AttributeMetadata>): (r: Outcome<Option<TypeDecl>>)
    ensures r.Failure? <==> FormatIdentifier(entity).Failure?
    ensures r.Success? ==> (r.value.value.Some? <==> |attributes| > 0)
    ensures r.Success? && r.value.value.None? ==> r.value.warnings == [NothingForEntity(entity.logicalName)]
    ensures r.Success? && r.value.value.Some? ==>
              && r.value.warnings == []
              && r.value.value.value.SealedClassDecl?
              && r.value.value.value.name == FormatIdentifier(entity).value
              && r.value.value.value.comments == CommentBlock(entity)
              && |r.value.value.value.members| == |attributes|
              && forall i :: 0 <= i < |attributes| ==> r.value.value.value.members[i] == ConstantOf(attributes[i])
  {
    var className :- FormatIdentifier(entity);
    if |attributes| > 0 then Success(Built(Some(SealedClassDecl(className, CommentBlock(entity), Constants(attributes))), []))
    else
      Success(Built(None, [NothingForEntity(entity.logicalName)]))
  }

  /**
   * GenerateClassFromAttributesMetadata: a sealed class named after the entity, with
   * one string constant per attribute, in order; none, with a warning, for an entity
   * without attributes.
   */
  method GenerateClassFromAttributesMetadata(entity: EntityMetadata) returns (r: Outcome<Option<TypeDecl>>)
    ensures r == ConstantsClass(entity.Base(), entity.attributes)
  {
    var formatted := FormatIdentifier(entity.Base());
    if formatted.Failure? {
      return Failure(formatted.error);
    }
    var className := formatted.value;
    var comments := CommentBlock(entity.Base());
    var attributes := entity.attributes;
    var members: seq<MemberDecl> := [];
    var i := 0;
    while i < |attributes|
      invariant 0 <= i <= |attributes|
      invariant members == Constants(attributes[..i])
    {
      var attribute := attributes[i];
      var constant := ConstField(attribute.variableName, StringLiteral(attribute.logicalName), CommentBlock(attribute.Base()));
      ConstantsNext(attributes, i);
      members := members + [constant];
      i := i + 1;
    }
    assert attributes[..i] == attributes;
    if |members| > 0 {
      return Success(Built(Some(SealedClassDecl(className, comments, members)), []));
    }
    return Success(Built(None, [NothingForEntity(entity.logicalName)]));
  }

  /** What GenerateConstantsNamespaceFromEntityMetadata builds. */
  function ConstantsNamespace(entity: Metadata, attributes: seq<AttributeMetadata>, namespaceName: string)
    : (r: Outcome<Option<NamespaceDecl>>)
    ensures r.Failure? <==> FormatIdentifier(entity).Failure?
    ensures r.Success? ==> (r.value.value.Some? <==> |attributes| > 0)
    ensures r.Success? && r.value.value.Some? ==>
              && r.value.warnings == []
              && r.value.value.value == NamespaceDecl(namespaceName, [], [ConstantsClass(entity, attributes).value.value.value])
    ensures r.Success? && r.value.value.None? ==>
              r.value.warnings == [NothingForEntity(entity.logicalName), NothingForEntity(entity.logicalName)]
  {
    var built :- ConstantsClass(entity, attributes);
    if built.value.Some? then Success(Built(Some(NamespaceDecl(namespaceName, [], [built.value.value])), built.warnings))
    else Success(Built(None, built.warnings + [NothingForEntity(entity.logicalName)]))
  }

  /**
   * GenerateConstantsNamespaceFromEntityMetadata: a namespace, without comments,
   * holding the constants class; none, with a second warning, when there is no class.
   */
  method GenerateConstantsNamespaceFromEntityMetadata(entity: EntityMetadata, namespaceName: string)
    returns (r: Outcome<Option<NamespaceDecl>>)
    ensures r == ConstantsNamespace(entity.Base(), entity.attributes, namespaceName)
  {
    var built := GenerateClassFromAttributesMetadata(entity);
    if built.Failure? {
      return Failure(built.error);
    }
    if built.value.value.Some? {
      return Success(Built(Some(NamespaceDecl(namespaceName, [], [built.value.value.value])), built.value.warnings));
    }
    return Success(Built(None, built.value.warnings + [NothingForEntity(entity.logicalName)]));
  }

  // ------------------------------------------------- code files

  /**
   * What GenerateEnumsCodeFile writes for an entity: nothing, with a warning, when it
   * has no attributes; otherwise the enums namespace, if any, in a file named after
   * the entity in the `Enums` folder.
   */
  function EnumsCodeFile(entity: Metadata, attributes: seq<AttributeMetadata>, namespaceName: string)
    : (r: Outcome<Option<CodeFile>>)
    ensures |attributes| == 0 ==> r == Success(Built(None, [NothingForEntity(entity.logicalName)]))
    ensures |attributes| > 0 ==> (r.Failure? <==> EnumsNamespace(entity, attributes, namespaceName).Failure?)
    ensures r.Success? && r.value.value.Some? ==>
              && r.value.value.value.folder == "Enums"
              && r.value.value.value.fileName == FormatIdentifier(entity).value
              && Some(r.value.value.value.unit) == EnumsNamespace(entity, attributes, namespaceName).value.value
              && r.value.warnings == EnumsNamespace(entity, attributes, namespaceName).value.warnings
  {
    if |attributes| == 0 then Success(Built(None, [NothingForEntity(entity.logicalName)]))
    else
      var ns :- EnumsNamespace(entity, attributes, namespaceName);
      var file := if ns.value.Some? then Some(CodeFile("Enums", FormatIdentifier(entity).value, ns.value.value)) else None;
      Success(Built(file, ns.warnings))
  }

  /** What GenerateConstantsCodeFile writes: the constants namespace in the `Constants` folder. */
  function ConstantsCodeFile(entity: Metadata, attributes: seq<AttributeMetadata>, namespaceName: string)
    : (r: Outcome<Option<CodeFile>>)
    ensures |attributes| == 0 ==> r == Success(Built(None, [NothingForEntity(entity.logicalName)]))
    ensures r.Failure? <==> |attributes| > 0 && FormatIdentifier(entity).Failure?
    ensures r.Success? && |attributes| > 0 ==>
              && r.value.warnings == []
              && r.value.value.Some?
              && r.value.value.value.folder == "Constants"
              && r.value.value.value.fileName == FormatIdentifier(entity).value
              && Some(r.value.value.value.unit) == ConstantsNamespace(entity, attributes, namespaceName).value.value
  {
    if |attributes| == 0 then Success(Built(None, [NothingForEntity(entity.logicalName)]))
    else
      var ns :- ConstantsNamespace(entity, attributes, namespaceName);
      var file := if ns.value.Some? then Some(CodeFile("Constants", FormatIdentifier(entity).value, ns.value.value)) else None;
      Success(Built(file, ns.warnings))
  }

  /** GenerateEnumsCodeFile, up to writing the file. */
  method GenerateEnumsCodeFile(entity: EntityMetadata?, namespaceName: string) returns (r: Outcome<Option<CodeFile>>)
    ensures entity == null ==> r == Failure(ArgumentNull("entityMetadata"))
    ensures entity != null ==> r == EnumsCodeFile(entity.Base(), entity.attributes, namespaceName)
  {
    if entity == null {
      return Failure(ArgumentNull("entityMetadata"));
    }
    if |entity.attributes| == 0 {
      return Success(Built(None, [NothingForEntity(entity.logicalName)]));
    }
    var ns := GenerateEnumsNamespaceFromEntityMetadata(entity, namespaceName);
    if ns.Failure? {
      return Failure(ns.error);
    }
    var file: Option<CodeFile> := None;
    if ns.value.value.Some? {
      file := Some(CodeFile("Enums", FormatIdentifier(entity.Base()).value, ns.value.value.value));
    }
    return Success(Built(file, ns.value.warnings));
  }

  /** GenerateConstantsCodeFile, up to writing the file. */
  method GenerateConstantsCodeFile(entity: EntityMetadata?, namespaceName: string) returns (r: Outcome<Option<CodeFile>>)
    ensures entity == null ==> r == Failure(ArgumentNull("entityMetadata"))
    ensures entity != null ==> r == ConstantsCodeFile(entity.Base(), entity.attributes, namespaceName)
  {
    if entity == null {
      return Failure(ArgumentNull("entityMetadata"));
    }
    if |entity.attributes| == 0 {
      return Success(Built(None, [NothingForEntity(entity.logicalName)]));
    }
    var ns := GenerateConstantsNamespaceFromEntityMetadata(entity, namespaceName);
    if ns.Failure? {
      return Failure(ns.error);
    }
    var file: Option<CodeFile> := None;
    if ns.value.value.Some? {
      file := Some(CodeFile("Constants", FormatIdentifier(entity.Base()).value, ns.value.value.value));
    }
    return Success(Built(file, ns.value.warnings));
  }

  /**
   * For an entity read from the SDK, the empty-attribute guard never fires: its list
   * holds at least the two pseudo-attributes, so its constants file is always written
   * once its name normalizes, with a constant per attribute and no warning.
   */
  lemma ConstantsFileOfEntity(e: XrmEntity, culture: StringOrder, namespaceName: string)
    requires FormatIdentifier(Metadata(e.logicalName, e.displayName, None, e.description)).Success?
    ensures var attributes := AttributeList(e, culture);
      var r := ConstantsCodeFile(Metadata(e.logicalName, e.displayName, None, e.description), attributes, namespaceName);
      && |attributes| >= 2
      && r.Success? && r.value.warnings == [] && r.value.value.Some?
      && r.value.value.value.unit.types[0].members[0] == ConstantOf(attributes[0])
      && r.value.value.value.unit.types[0].members[0].name == "LogicalName"
      && r.value.value.value.unit.types[0].members[0].init == StringLiteral(e.logicalName)
  {
    AttributeCount(e, culture);
    LeadingPseudoAttributes(e, culture);
  }
}
