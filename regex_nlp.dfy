/** The regex natural-language processor: intents made of expressions,
    tried in order, and the shared list of intents it searches. */
module RegexNlp {
  import opened Wrappers
  import opened PyRuntime
  import opened OrderedDict
  import opened Expression

  /** The result of recognising an intent in a transcript. */
  datatype NlpResult = NlpResult(intent: string, entities: Dict<string, string>, isComplete: bool)

  /** Dataclass equality: the entities compare as dicts, whatever their order. */
  predicate SameResult(a: NlpResult, b: NlpResult)
  {
    a.intent == b.intent && SameItems(a.entities, b.entities) && a.isComplete == b.isComplete
  }

  /** `r in results`, which compares with `==`. */
  predicate Recorded(results: seq<NlpResult>, r: NlpResult)
  {
    exists i :: 0 <= i < |results| && SameResult(results[i], r)
  }

  lemma SameResultEquivalence(a: NlpResult, b: NlpResult, c: NlpResult)
    ensures SameResult(a, a)
    ensures SameResult(a, b) ==> SameResult(b, a)
    ensures SameResult(a, b) && SameResult(b, c) ==> SameResult(a, c)
  {
    SameItemsMeansSameMapping(a.entities, a.entities);
    SameItemsMeansSameMapping(a.entities, b.entities);
    SameItemsMeansSameMapping(b.entities, a.entities);
    SameItemsMeansSameMapping(b.entities, c.entities);
    SameItemsMeansSameMapping(a.entities, c.entities);
  }

  // ====================================================================
  // Intents
  // ====================================================================

  datatype RegexIntent = RegexIntent(name: string, expressions: seq<Expression>)

  /** `RegexIntent(name, expressions, entities)`: one expression per string,
      all sharing the same entities. Since they share them, either the first
      expression raises or none does. */
  function NewRegexIntent(name: string, expressions: seq<string>, entities: Dict<string, EntitiesValue>): (r: Result<RegexIntent, Exception>)
    ensures r.Ok? ==> r.value.name == name && |r.value.expressions| == |expressions|
    ensures r.Ok? ==> forall i :: 0 <= i < |expressions| ==> NewExpression(expressions[i], entities) == Ok(r.value.expressions[i])
    ensures r.Err? <==> exists i :: 0 <= i < |expressions| && NewExpression(expressions[i], entities).Err?
    ensures r.Err? ==> r.error == NlpException("Entities must be specified as tuples or lists")
  {
    if expressions == [] then Ok(RegexIntent(name, []))
    else
      match NewExpression(expressions[0], entities)
      case Err(x) => Err(x)
      case Ok(_) =>
        Ok(RegexIntent(name, seq(|expressions|, i requires 0 <= i < |expressions| => NewExpression(expressions[i], entities).value)))
  }

  /** The NLP result an expression match gives for an intent. */
  function ResultOf(name: string, m: Result<Option<ExpressionMatch>, Exception>): Result<Option<NlpResult>, Exception>
  {
    match m
    case Err(x) => Err(x)
    case Ok(None) => Ok(None)
    case Ok(Some(em)) => Ok(Some(NlpResult(name, em.entities, IsComplete(em))))
  }

  /** `RegexIntent.match`: the expressions are tried in order. */
  function IntentMatch(intent: RegexIntent, search: Matcher, text: string): Result<Option<NlpResult>, Exception>
  {
    MatchFrom(intent, search, text, 0)
  }

  function MatchFrom(intent: RegexIntent, search: Matcher, text: string, i: nat): Result<Option<NlpResult>, Exception>
    decreases |intent.expressions| - i
  {
    if i >= |intent.expressions| then Ok(None)
    else
      var m := Match(intent.expressions[i], search, text);
      if m == Ok(None) then MatchFrom(intent, search, text, i + 1) else ResultOf(intent.name, m)
  }

  predicate NoneBefore(intent: RegexIntent, search: Matcher, text: string, i: nat)
    requires i <= |intent.expressions|
  {
    forall j :: 0 <= j < i ==> Match(intent.expressions[j], search, text) == Ok(None)
  }

  /** The first expression that matches, or raises, decides the intent's
      result; when none matches the intent does not match. */
  lemma IntentMatchFirst(intent: RegexIntent, search: Matcher, text: string, i: nat)
    requires i < |intent.expressions| && NoneBefore(intent, search, text, i)
    requires Match(intent.expressions[i], search, text) != Ok(None)
    ensures IntentMatch(intent, search, text) == ResultOf(intent.name, Match(intent.expressions[i], search, text))
  {
    MatchFromSkips(intent, search, text, 0, i);
  }

  lemma IntentMatchNone(intent: RegexIntent, search: Matcher, text: string)
    requires NoneBefore(intent, search, text, |intent.expressions|)
    ensures IntentMatch(intent, search, text) == Ok(None)
  {
    MatchFromSkips(intent, search, text, 0, |intent.expressions|);
  }

  lemma {:induction false} MatchFromSkips(intent: RegexIntent, search: Matcher, text: string, k: nat, i: nat)
    requires k <= i <= |intent.expressions| && NoneBefore(intent, search, text, i)
    ensures MatchFrom(intent, search, text, k) == MatchFrom(intent, search, text, i)
    decreases i - k
  {
    if k < i {
      MatchFromSkips(intent, search, text, k + 1, i);
    }
  }

  /** A matching intent reports its own name, the entities of the match and
      whether the match is complete. */
  lemma IntentMatchResult(intent: RegexIntent, search: Matcher, text: string)
    ensures var r := IntentMatch(intent, search, text);
      r.Ok? && r.value.Some? ==>
        exists i, m: ExpressionMatch :: 0 <= i < |intent.expressions| && Match(intent.expressions[i], search, text) == Ok(Some(m))
          && r.value.value == NlpResult(intent.name, m.entities, IsComplete(m))
  {
    var r := IntentMatch(intent, search, text);
    if r.Ok? && r.value.Some? {
      var i := MatchedAt(intent, search, text, 0);
      var m := Match(intent.expressions[i], search, text).value.value;
      assert Match(intent.expressions[i], search, text) == Ok(Some(m));
    }
  }

  lemma {:induction false} MatchedAt(intent: RegexIntent, search: Matcher, text: string, k: nat) returns (i: nat)
    requires MatchFrom(intent, search, text, k).Ok? && MatchFrom(intent, search, text, k).value.Some?
    ensures k <= i < |intent.expressions|
    ensures Match(intent.expressions[i], search, text).Ok? && Match(intent.expressions[i], search, text).value.Some?
    ensures MatchFrom(intent, search, text, k) == ResultOf(intent.name, Match(intent.expressions[i], search, text))
    decreases |intent.expressions| - k
  {
    if Match(intent.expressions[k], search, text) == Ok(None) {
      i := MatchedAt(intent, search, text, k + 1);
    } else {
      i := k;
    }
  }

  // ====================================================================
  // The processor
  // ====================================================================

  /** `RegexNLP.process`: the intents are tried in order. */
  function ProcessIntents(intents: seq<RegexIntent>, search: Matcher, text: string): Result<Option<NlpResult>, Exception>
  {
    if intents == [] then Ok(None)
    else
      var r := IntentMatch(intents[0], search, text);
      if r == Ok(None) then ProcessIntents(intents[1..], search, text) else r
  }

  /** The first intent that matches, or raises, decides the result. */
  lemma {:induction false} ProcessFirst(intents: seq<RegexIntent>, search: Matcher, text: string, i: nat)
    requires i < |intents|
    requires forall j :: 0 <= j < i ==> IntentMatch(intents[j], search, text) == Ok(None)
    requires IntentMatch(intents[i], search, text) != Ok(None)
    ensures ProcessIntents(intents, search, text) == IntentMatch(intents[i], search, text)
  {
    if i > 0 {
      assert forall j :: 0 <= j < i - 1 ==> intents[1..][j] == intents[j + 1];
      ProcessFirst(intents[1..], search, text, i - 1);
    }
  }

  /** Nothing is recognised exactly when no intent matches. */
  lemma {:induction false} ProcessNone(intents: seq<RegexIntent>, search: Matcher, text: string)
    ensures ProcessIntents(intents, search, text) == Ok(None) <==>
      forall j :: 0 <= j < |intents| ==> IntentMatch(intents[j], search, text) == Ok(None)
  {
    if intents != [] {
      ProcessNone(intents[1..], search, text);
      assert forall j :: 1 <= j < |intents| ==> intents[1..][j - 1] == intents[j];
    }
  }

  /** Intents further down the list are consulted only when none above
      matches. */
  lemma {:induction false} ProcessAppend(a: seq<RegexIntent>, b: seq<RegexIntent>, search: Matcher, text: string)
    ensures ProcessIntents(a + b, search, text) ==
      if ProcessIntents(a, search, text) == Ok(None) then ProcessIntents(b, search, text) else ProcessIntents(a, search, text)
  {
    if a != [] {
      assert (a + b)[0] == a[0];
      assert (a + b)[1..] == a[1..] + b;
      ProcessAppend(a[1..], b, search, text);
    } else {
      assert a + b == b;
    }
  }

  /** An intent added at the end is consulted last. */
  lemma AddedLast(intents: seq<RegexIntent>, x: RegexIntent, search: Matcher, text: string)
    ensures ProcessIntents(intents + [x], search, text) ==
      if ProcessIntents(intents, search, text) == Ok(None) then IntentMatch(x, search, text) else ProcessIntents(intents, search, text)
  {
    ProcessAppend(intents, [x], search, text);
    assert [x][1..] == [];
  }

  // ====================================================================
  // The intent list
  // ====================================================================

  /** An intent as written in the built-in intents file. */
  datatype IntentDecl = IntentDecl(name: string, expressions: seq<string>, entities: Dict<string, EntitiesValue>)

  /** A skill from the configuration: its name, the name of its NLP
      processor, and that processor's expressions and entities. */
  datatype SkillDecl = SkillDecl(name: string, nlpName: string, expressions: seq<string>, entities: Dict<string, EntitiesValue>)

  const ProcessorName: string := "regex"

  /** The configured skills addressed to this processor, as intents, in order. */
  function Selected(skills: seq<SkillDecl>): (r: seq<IntentDecl>)
    ensures forall d :: d in r ==>
      (exists s :: s in skills && s.nlpName == ProcessorName && d == IntentDecl(s.name, s.expressions, s.entities))
    ensures forall s :: s in skills && s.nlpName == ProcessorName ==> IntentDecl(s.name, s.expressions, s.entities) in r
    ensures |r| <= |skills|
  {
    if skills == [] then []
    else
      var s := skills[0];
      var rest := Selected(skills[1..]);
      assert forall x :: x in skills[1..] ==> x in skills;
      assert forall x :: x in skills ==> x == s || x in skills[1..];
      if s.nlpName == ProcessorName then [IntentDecl(s.name, s.expressions, s.entities)] + rest else rest
  }

  /** Selecting from two runs of skills selects from each, in order. */
  lemma {:induction false} SelectedAppend(a: seq<SkillDecl>, b: seq<SkillDecl>)
    ensures Selected(a + b) == Selected(a) + Selected(b)
  {
    if a == [] {
      assert a + b == b;
    } else {
      assert (a + b)[1..] == a[1..] + b;
      SelectedAppend(a[1..], b);
    }
  }

  /** One skill is selected, as its intent, exactly when it names the
      `regex` processor. */
  lemma SelectedOne(s: SkillDecl)
    ensures Selected([s]) == if s.nlpName == ProcessorName then [IntentDecl(s.name, s.expressions, s.entities)] else []
  {
    assert [s][1..] == [];
  }

  /** The intent a declaration builds to, or the exception it raises. */
  function Declared(d: IntentDecl): Result<RegexIntent, Exception>
  {
    NewRegexIntent(d.name, d.expressions, d.entities)
  }

  /** The intents of `decls`, built one after the other, up to the first
      that raises. */
  function Built(decls: seq<IntentDecl>): (r: (seq<RegexIntent>, Option<Exception>))
    ensures |r.0| <= |decls|
    ensures r.1.None? ==> |r.0| == |decls|
  {
    if decls == [] then ([], None)
    else
      match Declared(decls[0])
      case Err(x) => ([], Some(x))
      case Ok(intent) =>
        var rest := Built(decls[1..]);
        ([intent] + rest.0, rest.1)
  }

  /** Each intent that is built is the one its declaration describes; the
      build stops at the first declaration that raises, with its error. */
  lemma {:induction false} BuiltIntents(decls: seq<IntentDecl>)
    ensures var r := Built(decls);
      && (forall i :: 0 <= i < |r.0| ==> Declared(decls[i]) == Ok(r.0[i]))
      && (r.1.Some? ==> |r.0| < |decls| && Declared(decls[|r.0|]) == Err(r.1.value))
  {
    forall i | 0 <= i < |Built(decls).0| ensures Declared(decls[i]) == Ok(Built(decls).0[i]) {
      BuiltIndex(decls, i);
    }
    BuiltStop(decls);
  }

  /** `Built` with its first step unfolded. */
  lemma BuiltCons(decls: seq<IntentDecl>)
    requires decls != []
    ensures Declared(decls[0]).Err? ==> Built(decls) == ([], Some(Declared(decls[0]).error))
    ensures Declared(decls[0]).Ok? ==>
      Built(decls) == ([Declared(decls[0]).value] + Built(decls[1..]).0, Built(decls[1..]).1)
  {
  }

  /** The `i`-th intent built is the one the `i`-th declaration describes. */
  lemma {:induction false} BuiltIndex(decls: seq<IntentDecl>, i: nat)
    requires i < |Built(decls).0|
    ensures Declared(decls[i]) == Ok(Built(decls).0[i])
    decreases i
  {
    BuiltCons(decls);
    if i > 0 {
      BuiltIndex(decls[1..], i - 1);
      assert decls[1..][i - 1] == decls[i];
    }
  }

  /** A build that stops does so at the first declaration not built, with
      its error. */
  lemma {:induction false} BuiltStop(decls: seq<IntentDecl>)
    ensures Built(decls).1.Some? ==>
      |Built(decls).0| < |decls| && Declared(decls[|Built(decls).0|]) == Err(Built(decls).1.value)
    decreases |decls|
  {
    if decls != [] {
      BuiltCons(decls);
      if Declared(decls[0]).Ok? {
        BuiltStop(decls[1..]);
        if Built(decls).1.Some? {
          assert decls[1..][|Built(decls[1..]).0|] == decls[|Built(decls).0|];
        }
      }
    }
  }

  /** The list of intents, shared by every processor instance. */
  class IntentList {
    var items: seq<RegexIntent>

    constructor()
      ensures items == []
    {
      items := [];
    }
  }

  class RegexProcessor {
    const intents: IntentList

    constructor(shared: IntentList)
      ensures intents == shared
    {
      intents := shared;
    }

    /** The loading done at construction: the built-in intents, then the
        configured skills addressed to this processor, appended to the
        shared list; the first intent that cannot be built raises. */
    method Load(builtins: seq<IntentDecl>, skills: seq<SkillDecl>) returns (err: Option<Exception>)
      modifies intents
      ensures Built(builtins).1.Some? ==> intents.items == old(intents.items) + Built(builtins).0 && err == Built(builtins).1
      ensures Built(builtins).1.None? ==>
        intents.items == old(intents.items) + Built(builtins).0 + Built(Selected(skills)).0
        && err == Built(Selected(skills)).1
    {
      err := Extend(builtins);
      if err.None? {
        err := Extend(Selected(skills));
      }
    }

    /** `list.extend` over intents built one by one. */
    method Extend(decls: seq<IntentDecl>) returns (err: Option<Exception>)
      modifies intents
      ensures intents.items == old(intents.items) + Built(decls).0 && err == Built(decls).1
    {
      var i := 0;
      ghost var done: seq<RegexIntent> := [];
      assert decls[0..] == decls;
      assert done + Built(decls).0 == Built(decls).0;
      while i < |decls|
        invariant 0 <= i <= |decls|
        invariant intents.items == old(intents.items) + done
        invariant Built(decls).0 == done + Built(decls[i..]).0
        invariant Built(decls).1 == Built(decls[i..]).1
      {
        var d := decls[i];
        var r := NewRegexIntent(d.name, d.expressions, d.entities);
        BuiltAt(decls, i, done);
        if r.Err? {
          return Some(r.error);
        }
        intents.items := intents.items + [r.value];
        done := done + [r.value];
        i := i + 1;
      }
      assert decls[i..] == [];
      assert done + [] == done;
      err := None;
    }

    /** `add`: one intent at the end. */
    method Add(name: string, expressions: seq<string>, entities: Dict<string, EntitiesValue>) returns (err: Option<Exception>)
      modifies intents
      ensures var r := NewRegexIntent(name, expressions, entities);
        && (r.Ok? ==> intents.items == old(intents.items) + [r.value] && err == None)
        && (r.Err? ==> intents.items == old(intents.items) && err == Some(r.error))
    {
      var r := NewRegexIntent(name, expressions, entities);
      if r.Err? {
        return Some(r.error);
      }
      intents.items := intents.items + [r.value];
      err := None;
    }

    /** `process`. */
    function Process(search: Matcher, text: string): (r: Result<Option<NlpResult>, Exception>)
      reads intents
      ensures r == Ok(None) <==>
        forall j :: 0 <= j < |intents.items| ==> IntentMatch(intents.items[j], search, text) == Ok(None)
    {
      ProcessNone(intents.items, search, text);
      ProcessIntents(intents.items, search, text)
    }
  }

  /** One step of `Extend`: what has been appended so far, followed by
      `Built` from the `i`-th declaration on. */
  lemma BuiltAt(decls: seq<IntentDecl>, i: nat, done: seq<RegexIntent>)
    requires i < |decls|
    ensures var r := NewRegexIntent(decls[i].name, decls[i].expressions, decls[i].entities);
      && (r.Err? ==> done + Built(decls[i..]).0 == done && Built(decls[i..]).1 == Some(r.error))
      && (r.Ok? ==> done + Built(decls[i..]).0 == (done + [r.value]) + Built(decls[i + 1..]).0
                    && Built(decls[i..]).1 == Built(decls[i + 1..]).1)
  {
    BuiltFrom(decls, i);
    assert done + [] == done;
  }

  /** `Built` from the `i`-th declaration on, one step unfolded. */
  lemma BuiltFrom(decls: seq<IntentDecl>, i: nat)
    requires i < |decls|
    ensures var r := NewRegexIntent(decls[i].name, decls[i].expressions, decls[i].entities);
      && (r.Err? ==> Built(decls[i..]) == ([], Some(r.error)))
      && (r.Ok? ==> Built(decls[i..]) == ([r.value] + Built(decls[i + 1..]).0, Built(decls[i + 1..]).1))
  {
    assert decls[i..][0] == decls[i] && decls[i..][1..] == decls[i + 1..];
  }
}
