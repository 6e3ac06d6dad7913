/** The name, number and description a member's annotations impose on its schema field. */
module Overrides {
  import opened Wrappers
  import opened Numbers
  import opened Reflection

  /**
   * The sources a field name can come from, highest precedence first: the member's
   * @SchemaFieldName, the member's @SchemaCaseFormat, the declaring class's
   * @SchemaCaseFormat, and the original name.
   */
  function NameCandidates(original: string, member: Member, env: Env): (cs: seq<Option<string>>)
    ensures |cs| == 4 && cs[3] == Some(original)
  {
    var a := member.SiteAnnotations();
    var classFormat := member.DeclaringClass().caseFormat;
    [ a.fieldName,
      if a.caseFormat.Some? then Some(env.lowerCamelTo(a.caseFormat.value, original)) else None,
      if classFormat.Some? then Some(env.lowerCamelTo(classFormat.value, original)) else None,
      Some(original) ]
  }

  /** The first present candidate, if any. */
  function FirstPresent(cs: seq<Option<string>>): (r: Option<string>)
    ensures r.Some? <==> exists i :: 0 <= i < |cs| && cs[i].Some?
    ensures r.Some? ==> exists i :: 0 <= i < |cs| && cs[i] == r && forall j :: 0 <= j < i ==> cs[j].None?
  {
    if |cs| == 0 then None
    else if cs[0].Some? then cs[0]
    else
      var r := FirstPresent(cs[1..]);
      assert forall i :: 1 <= i < |cs| ==> cs[i] == cs[1..][i - 1];
      r
  }

  /** Both @SchemaFieldName and @SchemaCaseFormat are on the member itself. */
  predicate HasNameConflict(member: Member) {
    member.SiteAnnotations().fieldName.Some? && member.SiteAnnotations().caseFormat.Some?
  }

  /**
   * `getNameOverride`: the field name of a member whose natural name is `original`.
   * It fails exactly when the member carries both a name and a case format of its own,
   * and otherwise is the highest-precedence candidate.
   */
  function GetNameOverride(original: string, member: Member, env: Env): (r: Result<string, SchemaError>)
    ensures r.Failure? <==> HasNameConflict(member)
    ensures r.Failure? ==> r.error == NameConflict(member.Name())
  {
    var a := member.SiteAnnotations();
    var classFormat := member.DeclaringClass().caseFormat;
    if a.fieldName.Some? then
      if a.caseFormat.Some? then Failure(NameConflict(member.Name()))
      else Success(a.fieldName.value)
    else if a.caseFormat.Some? then Success(env.lowerCamelTo(a.caseFormat.value, original))
    else if classFormat.Some? then Success(env.lowerCamelTo(classFormat.value, original))
    else Success(original)
  }

  /**
   * `getNumberOverride`: the field number is the parsed @SchemaFieldNumber when present,
   * whatever the index, and the declaration index otherwise.
   */
  function GetNumberOverride(index: int, member: Member): (r: Result<int, SchemaError>)
    ensures member.SiteAnnotations().fieldNumber.None? ==> r == Success(index)
    ensures member.SiteAnnotations().fieldNumber.Some? ==>
      var text := member.SiteAnnotations().fieldNumber.value;
      && (r.Success? <==> ParseInt(text).Some?)
      && (r.Success? ==> r.value == ParseInt(text).value && InIntRange(r.value))
      && (r.Failure? ==> r.error == NumberFormat(text))
  {
    match member.SiteAnnotations().fieldNumber
    case None => Success(index)
    case Some(text) =>
      match ParseInt(text)
      case Some(n) => Success(n)
      case None => Failure(NumberFormat(text))
  }

  /** `getFieldDescription`: the @SchemaFieldDescription value, if any. */
  function GetFieldDescription(member: Member): Option<string> {
    member.SiteAnnotations().description
  }

  /**
   * Unless it fails, `getNameOverride` picks the highest-precedence source that is present.
   */
  lemma {:induction false} NameOverrideFollowsPrecedence(original: string, member: Member, env: Env)
    ensures GetNameOverride(original, member, env).Success? ==>
      FirstPresent(NameCandidates(original, member, env)) == Some(GetNameOverride(original, member, env).value)
  {
    var cs := NameCandidates(original, member, env);
    if cs[0].None? {
      assert FirstPresent(cs) == FirstPresent(cs[1..]);
      if cs[1].None? {
        assert FirstPresent(cs[1..]) == FirstPresent(cs[2..]);
        if cs[2].None? {
          assert FirstPresent(cs[2..]) == FirstPresent(cs[3..]);
        }
      }
    }
  }

  /** A member-level @SchemaFieldName alone is the name, whatever the class's case format. */
  lemma ExplicitNameWins(original: string, member: Member, env: Env)
    requires member.SiteAnnotations().fieldName.Some? && member.SiteAnnotations().caseFormat.None?
    ensures GetNameOverride(original, member, env) == Success(member.SiteAnnotations().fieldName.value)
  {
  }

  /** Without any override the field keeps its original name. */
  lemma OriginalNameByDefault(original: string, member: Member, env: Env)
    requires member.SiteAnnotations().fieldName.None? && member.SiteAnnotations().caseFormat.None?
    requires member.DeclaringClass().caseFormat.None?
    ensures GetNameOverride(original, member, env) == Success(original)
  {
  }

  /** A member-level case format takes precedence over the class-level one. */
  lemma MemberCaseFormatWins(original: string, member: Member, env: Env)
    requires member.SiteAnnotations().fieldName.None? && member.SiteAnnotations().caseFormat.Some?
    ensures GetNameOverride(original, member, env)
         == Success(env.lowerCamelTo(member.SiteAnnotations().caseFormat.value, original))
  {
  }

  /** When the member has no name override or case format, the class's case format applies. */
  lemma ClassCaseFormatApplies(original: string, member: Member, env: Env)
    requires member.SiteAnnotations().fieldName.None? && member.SiteAnnotations().caseFormat.None?
    requires member.DeclaringClass().caseFormat.Some?
    ensures GetNameOverride(original, member, env)
         == Success(env.lowerCamelTo(member.DeclaringClass().caseFormat.value, original))
  {
  }

  /** An annotated number does not depend on the declaration index. */
  lemma AnnotatedNumberIgnoresIndex(i: int, j: int, member: Member)
    requires member.SiteAnnotations().fieldNumber.Some?
    ensures GetNumberOverride(i, member) == GetNumberOverride(j, member)
  {
  }
}
