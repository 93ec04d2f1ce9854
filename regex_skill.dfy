/** The older regex skill layer: skill functions registered together with
    their expressions, and the completeness rule it applies to a match. */
module LegacySkill {
  import opened Wrappers
  import opened PyRuntime
  import opened OrderedDict
  import opened Expression
  import opened LegacyResult

  /** `RegexSkillStruct`: the skill function and one expression per string. */
  datatype RegexSkill = RegexSkill(func: Callable, expressions: seq<Expression>)

  /** `RegexSkillStruct(func, expressions, entities)`. */
  function NewRegexSkill(func: Callable, expressions: seq<string>, entities: Dict<string, EntitiesValue>): (r: Result<RegexSkill, Exception>)
    ensures r.Ok? ==> r.value.func == func && |r.value.expressions| == |expressions|
    ensures r.Ok? ==> forall i :: 0 <= i < |expressions| ==> NewExpression(expressions[i], entities) == Ok(r.value.expressions[i])
    ensures r.Err? <==> |expressions| > 0 && !AllAlternatives(entities)
  {
    if expressions == [] then Ok(RegexSkill(func, []))
    else
      match NewExpression(expressions[0], entities)
      case Err(x) => Err(x)
      case Ok(_) =>
        Ok(RegexSkill(func, seq(|expressions|, i requires 0 <= i < |expressions| => NewExpression(expressions[i], entities).value)))
  }

  /** The module-level list of registered skills. */
  class SkillList {
    var skills: seq<RegexSkill>

    constructor()
      ensures skills == []
    {
      skills := [];
    }

    /** `regex_skill(expressions, entities)(func)`: registers the skill and
        hands the function back unchanged. */
    method RegexSkillDecorator(expressions: seq<string>, entities: Dict<string, EntitiesValue>, func: Callable)
      returns (r: Result<Callable, Exception>)
      modifies this
      ensures var s := NewRegexSkill(func, expressions, entities);
        && (s.Ok? ==> skills == old(skills) + [s.value] && r == Ok(func))
        && (s.Err? ==> skills == old(skills) && r == Err(s.error))
    {
      var s := NewRegexSkill(func, expressions, entities);
      if s.Err? {
        return Err(s.error);
      }
      skills := skills + [s.value];
      r := Ok(func);
    }
  }

  /** `_is_complete`: the rule of `ExpressionMatch.is_complete`, except that
      the end of the last entity is compared with the length of the text
      without a truthiness test, so an end of 0 counts and an absent end
      raises. */
  function IsCompleteOld(text: string, m: ExpressionMatch): (r: Result<bool, Exception>)
    ensures r.Err? <==> m.entityNames != [] && !m.entityNames[|m.entityNames| - 1].fixed && m.lastEntityEnd.None?
    ensures r.Err? ==> r.error.TypeError?
    ensures r == Ok(true) <==>
      || m.entityNames == []
      || m.entityNames[|m.entityNames| - 1].fixed
      || (m.lastEntityEnd.Some? && m.lastEntityEnd.value < |text|)
  {
    if m.entityNames == [] then Ok(true)
    else if m.entityNames[|m.entityNames| - 1].fixed then Ok(true)
    else if AllFixed(m.entityNames) then Ok(true)
    else if m.lastEntityEnd.None? then Err(TypeError("'<' not supported between instances of 'NoneType' and 'int'"))
    else Ok(m.lastEntityEnd.value < |text|)
  }

  /** The two rules agree on every match that has an end offset other than
      0; at offset 0 with text left over, the older rule says complete and
      the newer one does not. */
  lemma CompleteRulesCompared(text: string, m: ExpressionMatch)
    requires m.text == text
    ensures m.lastEntityEnd != Some(0) && IsCompleteOld(text, m).Ok? ==> IsCompleteOld(text, m).value == IsComplete(m)
    ensures m.lastEntityEnd == Some(0) && |text| > 0 && m.entityNames != [] && !m.entityNames[|m.entityNames| - 1].fixed ==>
      IsCompleteOld(text, m) == Ok(true) && !IsComplete(m)
  {
    CompleteRule(m);
  }

  /** `RegexSkillStruct.match`: the first expression that matches gives the
      result, with completeness judged on the text matched. */
  function SkillMatch(skill: RegexSkill, search: Matcher, text: string): Result<Option<NlpResult>, Exception>
  {
    SkillMatchFrom(skill, search, text, 0)
  }

  function SkillMatchFrom(skill: RegexSkill, search: Matcher, text: string, i: nat): Result<Option<NlpResult>, Exception>
    decreases |skill.expressions| - i
  {
    if i >= |skill.expressions| then Ok(None)
    else
      match Match(skill.expressions[i], search, text)
      case Err(x) => Err(x)
      case Ok(None) => SkillMatchFrom(skill, search, text, i + 1)
      case Ok(Some(m)) => ResultOf(skill, text, m)
  }

  /** The result for a match: the skill's function, the entities found and
      the completeness of the match, or the exception judging it raised. */
  function ResultOf(skill: RegexSkill, text: string, m: ExpressionMatch): (r: Result<Option<NlpResult>, Exception>)
    ensures r.Err? <==> IsCompleteOld(text, m).Err?
    ensures r.Ok? ==> r.value == Some(NlpResult(skill.func, m.entities, IsCompleteOld(text, m).value))
  {
    match IsCompleteOld(text, m)
    case Err(x) => Err(x)
    case Ok(complete) => Ok(Some(NlpResult(skill.func, m.entities, complete)))
  }

  /** The result comes from the first expression that matches: it names the
      skill's function, holds that match's entities and its completeness. */
  lemma {:induction false} SkillMatchFirst(skill: RegexSkill, search: Matcher, text: string, k: nat, i: nat)
    requires k <= i < |skill.expressions|
    requires forall j :: k <= j < i ==> Match(skill.expressions[j], search, text) == Ok(None)
    requires Match(skill.expressions[i], search, text).Ok? && Match(skill.expressions[i], search, text).value.Some?
    ensures SkillMatchFrom(skill, search, text, k) == ResultOf(skill, text, Match(skill.expressions[i], search, text).value.value)
    decreases i - k
  {
    var found := Match(skill.expressions[k], search, text);
    if k < i {
      assert found == Ok(None);
      assert SkillMatchFrom(skill, search, text, k) == SkillMatchFrom(skill, search, text, k + 1);
      SkillMatchFirst(skill, search, text, k + 1, i);
    } else {
      assert SkillMatchFrom(skill, search, text, k) == ResultOf(skill, text, found.value.value);
    }
  }

  /** No result when no expression matches. */
  lemma {:induction false} SkillMatchNone(skill: RegexSkill, search: Matcher, text: string, k: nat)
    requires forall j :: k <= j < |skill.expressions| ==> Match(skill.expressions[j], search, text) == Ok(None)
    ensures SkillMatchFrom(skill, search, text, k) == Ok(None)
    decreases |skill.expressions| - k
  {
    if k < |skill.expressions| {
      SkillMatchNone(skill, search, text, k + 1);
    }
  }

  /** `_get_all_entity_names`: the names, as strings, of every expression. */
  function AllEntityNames(skill: RegexSkill): (r: set<string>)
    ensures forall n :: n in r <==>
      exists i, j :: 0 <= i < |skill.expressions| && 0 <= j < |skill.expressions[i].entityNames|
        && skill.expressions[i].entityNames[j].name == n
  {
    set i, j | 0 <= i < |skill.expressions| && 0 <= j < |skill.expressions[i].entityNames| :: skill.expressions[i].entityNames[j].name
  }

  // ----------------------------------------------------- completeness cases

  /** A match whose last entity name is fixed, like `weather in <location>`,
      is complete. */
  lemma FixedLastComplete(text: string, m: ExpressionMatch)
    requires m.entityNames != [] && m.entityNames[|m.entityNames| - 1].fixed
    ensures IsCompleteOld(text, m) == Ok(true)
  {
  }

  /** A variable entity that runs to the end of the text, like
      `weather in <<location>>` on `weather in London`, leaves the match
      incomplete: more words may still belong to it. */
  lemma VariableAtEndIncomplete(text: string, m: ExpressionMatch)
    requires m.entityNames != [] && !m.entityNames[|m.entityNames| - 1].fixed
    requires m.lastEntityEnd == Some(|text|)
    ensures IsCompleteOld(text, m) == Ok(false)
  {
  }

  /** Text after the variable entity, as in `weather in <<location>> please`,
      makes the match complete. */
  lemma VariableBeforeEndComplete(text: string, m: ExpressionMatch)
    requires m.lastEntityEnd.Some? && m.lastEntityEnd.value < |text|
    ensures IsCompleteOld(text, m) == Ok(true)
  {
  }
}
