/** The skills component: the registry of skills and actions by name, and
    running a skill by name. A skill from the configuration runs a list of
    actions, looked up by name when it runs. */
module Skills {
  import opened Wrappers
  import opened PyRuntime
  import opened Text
  import opened OrderedDict

  /** One step of a skill from the configuration: the action's name and the
      remaining fields of its entry, passed on as arguments. */
  datatype ActionCall = ActionCall(name: string, args: Dict<string, string>)

  /** What a skill does when it runs: call a Python function, or run the
      actions its configuration entry lists. */
  datatype SkillBody = Function(func: Callable) | FromConfig(calls: seq<ActionCall>)

  datatype Skill = Skill(name: string, body: SkillBody)

  datatype Action = Action(name: string, func: Callable)

  /** An entry of the `skills` list of the configuration. */
  datatype ConfigSkill = ConfigSkill(name: string, calls: seq<ActionCall>)

  /** The built-in skills, in registration order. */
  function InternalSkills(): seq<Skill>
  {
    [Skill("weather", Function(Callable(0, "weather"))),
     Skill("current-time", Function(Callable(1, "current_time"))),
     Skill("reload", Function(Callable(2, "reload")))]
  }

  /** The built-in actions. */
  function InternalActions(): seq<Action>
  {
    [Action("say", Callable(3, "say"))]
  }

  /** `_make_from_config`: a skill named after the entry that runs its
      actions. */
  function MakeFromConfig(c: ConfigSkill): (s: Skill)
    ensures s.name == c.name && s.body == FromConfig(c.calls)
  {
    Skill(c.name, FromConfig(c.calls))
  }

  function ConfigSkills(config: seq<ConfigSkill>): (ss: seq<Skill>)
    ensures |ss| == |config| && forall i :: 0 <= i < |config| ==> ss[i] == MakeFromConfig(config[i])
  {
    seq(|config|, i requires 0 <= i < |config| => MakeFromConfig(config[i]))
  }

  /** The registry after adding `ss` in order, each replacing any earlier
      skill of its name. */
  function AddAll(d: Dict<string, Skill>, ss: seq<Skill>): Dict<string, Skill>
    decreases |ss|
  {
    if ss == [] then d else AddAll(Put(d, ss[0].name, ss[0]), ss[1..])
  }

  lemma {:induction false} AddAllSnoc(d: Dict<string, Skill>, ss: seq<Skill>, s: Skill)
    ensures AddAll(d, ss + [s]) == Put(AddAll(d, ss), s.name, s)
    decreases |ss|
  {
    if ss == [] {
      assert ss + [s] == [s];
    } else {
      assert (ss + [s])[1..] == ss[1..] + [s];
      AddAllSnoc(Put(d, ss[0].name, ss[0]), ss[1..], s);
    }
  }

  /** The last skill of `ss` with name `n`, if any. */
  function LastNamed(ss: seq<Skill>, n: string): (r: Option<Skill>)
    ensures r.Some? ==> r.value in ss && r.value.name == n
    ensures r.None? <==> forall i :: 0 <= i < |ss| ==> ss[i].name != n
  {
    if ss == [] then None
    else if ss[|ss| - 1].name == n then Some(ss[|ss| - 1])
    else LastNamed(ss[..|ss| - 1], n)
  }

  /** After adding `ss`, a name maps to the last skill of that name, or to
      what it mapped to before when `ss` has none; a name is registered
      exactly when it was or some skill of `ss` has it. */
  lemma {:induction false} AddAllGet(d: Dict<string, Skill>, ss: seq<Skill>, n: string)
    ensures Get(AddAll(d, ss), n) == if LastNamed(ss, n).Some? then LastNamed(ss, n) else Get(d, n)
    ensures n in Keys(AddAll(d, ss)) <==> n in Keys(d) || exists i :: 0 <= i < |ss| && ss[i].name == n
    decreases |ss|
  {
    if ss != [] {
      var init := ss[..|ss| - 1];
      var s := ss[|ss| - 1];
      assert ss == init + [s];
      AddAllSnoc(d, init, s);
      AddAllGet(d, init, n);
      if s.name != n && exists i :: 0 <= i < |init| && init[i].name == n {
        var i :| 0 <= i < |init| && init[i].name == n;
        assert ss[i].name == n;
      }
    }
  }

  /** Adding keeps the names of the registry in first-registration order:
      the names already there keep their places and new ones follow. */
  lemma {:induction false} AddAllKeysPrefix(d: Dict<string, Skill>, ss: seq<Skill>)
    ensures |Keys(AddAll(d, ss))| >= |Keys(d)| && Keys(AddAll(d, ss))[..|d|] == Keys(d)
    decreases |ss|
  {
    if ss != [] {
      var d' := Put(d, ss[0].name, ss[0]);
      AddAllKeysPrefix(d', ss[1..]);
      assert Keys(d')[..|d|] == Keys(d);
      PrefixOfPrefix(Keys(AddAll(d', ss[1..])), Keys(d'), Keys(d));
    }
  }

  /** `"domain.name"` when a domain is given, else the action's own name. */
  function ActionKey(name: string, domain: string): (key: string)
    ensures domain == "" ==> key == name
  {
    if domain != "" then domain + "." + name else name
  }

  /** A key made with a domain without dots splits back into the domain and
      the action's name. */
  lemma ActionKeySplits(name: string, domain: string)
    requires domain != "" && '.' !in domain
    ensures var key := ActionKey(name, domain);
      Find(key, ".") == Some(|domain|) && key[..|domain|] == domain && key[|domain| + 1..] == name
  {
    FindFirst(domain, ".", name);
    var key := domain + "." + name;
    assert key[..|domain|] == domain;
    assert key[|domain| + 1..] == name;
  }

  /** What running a skill did: the function it called, or the actions it
      ran with their arguments, and the exception that ended it, if any. */
  datatype RunOutcome = Called(func: Callable) | Ran(ran: seq<(Action, Dict<string, string>)>, error: Option<Exception>)

  /** The `SkillError` the `KeyError` of a missing name becomes. */
  function Missing(name: string): Exception
  {
    SkillError("Skill '" + name + "' does not exist")
  }

  /** The actions of a configured skill, looked up in order when it runs;
      the first missing one raises a `KeyError`, which `run` reports as a
      missing skill. */
  function RunCalls(actions: Dict<string, Action>, calls: seq<ActionCall>): (o: RunOutcome)
    ensures o.Ran?
    decreases |calls|
  {
    if calls == [] then Ran([], None)
    else
      match Get(actions, calls[0].name)
      case None => Ran([], Some(Missing(calls[0].name)))
      case Some(a) =>
        var rest := RunCalls(actions, calls[1..]);
        Ran([(a, calls[0].args)] + rest.ran, rest.error)
  }

  /** When every action is registered, each runs once, in order, with the
      action registered under its name and its own arguments. */
  lemma {:induction false} RunCallsAll(actions: Dict<string, Action>, calls: seq<ActionCall>)
    requires forall i :: 0 <= i < |calls| ==> calls[i].name in Keys(actions)
    ensures var o := RunCalls(actions, calls);
      && o.error == None && |o.ran| == |calls|
      && forall i :: 0 <= i < |calls| ==> o.ran[i] == (Get(actions, calls[i].name).value, calls[i].args)
    decreases |calls|
  {
    if calls != [] {
      RunCallsAll(actions, calls[1..]);
    }
  }

  /** The first unregistered action stops the skill: the ones before it
      ran, in order, and the error names the missing action, not the
      skill. */
  lemma {:induction false} RunCallsStops(actions: Dict<string, Action>, calls: seq<ActionCall>, k: nat)
    requires k < |calls| && calls[k].name !in Keys(actions)
    requires forall i :: 0 <= i < k ==> calls[i].name in Keys(actions)
    ensures var o := RunCalls(actions, calls);
      && o.error == Some(Missing(calls[k].name)) && |o.ran| == k
      && forall i :: 0 <= i < k ==> o.ran[i] == (Get(actions, calls[i].name).value, calls[i].args)
    decreases k
  {
    if k > 0 {
      RunCallsStops(actions, calls[1..], k - 1);
    }
  }

  /** The registries of the component. */
  class SkillsComponent {
    var skills: Dict<string, Skill>
    var actions: Dict<string, Action>

    /** `__init__`: the internal skills, then the internal actions, then the
        skills of the configuration, each added in order. */
    constructor(config: seq<ConfigSkill>)
      ensures skills == AddAll([], InternalSkills() + ConfigSkills(config))
      ensures actions == [("say", InternalActions()[0])]
    {
      skills := [];
      actions := [];
      new;
      AddEach(InternalSkills());
      AddAction(InternalActions()[0], "");
      AddEach(ConfigSkills(config));
      AddAllAppend([], InternalSkills(), ConfigSkills(config));
    }

    /** The loops of `__init__`: `add` for each skill, in order. */
    method AddEach(ss: seq<Skill>)
      modifies this
      ensures skills == AddAll(old(skills), ss) && actions == old(actions)
    {
      var i := 0;
      while i < |ss|
        invariant 0 <= i <= |ss|
        invariant skills == AddAll(old(skills), ss[..i]) && actions == old(actions)
      {
        TakeOneMore(ss, i);
        AddAllSnoc(old(skills), ss[..i], ss[i]);
        Add(ss[i]);
        i := i + 1;
      }
      assert ss[..i] == ss;
    }

    /** `names`: the registered skill names, each once, in the order they
        were first added. */
    function Names(): (names: seq<string>)
      reads this
      ensures |names| == |skills|
      ensures forall n :: n in names <==> Get(skills, n).Some?
    {
      Keys(skills)
    }

    /** `add`: stores the skill under its name, replacing any earlier skill
        of that name in its place. */
    method Add(skill: Skill)
      modifies this
      ensures skills == Put(old(skills), skill.name, skill) && actions == old(actions)
      ensures Get(skills, skill.name) == Some(skill)
      ensures forall n :: n != skill.name ==> Get(skills, n) == Get(old(skills), n)
      ensures skill.name in old(Names()) ==> Names() == old(Names())
      ensures skill.name !in old(Names()) ==> Names() == old(Names()) + [skill.name]
    {
      skills := Put(skills, skill.name, skill);
    }

    /** `add_action`: stores the action under `domain.name`, or under its
        name when no domain is given, replacing any earlier entry. */
    method AddAction(action: Action, domain: string)
      modifies this
      ensures actions == Put(old(actions), ActionKey(action.name, domain), action) && skills == old(skills)
      ensures Get(actions, ActionKey(action.name, domain)) == Some(action)
      ensures forall n :: n != ActionKey(action.name, domain) ==> Get(actions, n) == Get(old(actions), n)
    {
      var name := if domain != "" then domain + "." + action.name else action.name;
      actions := Put(actions, name, action);
    }

    /** `run`: the skill registered under `name` runs; an unknown name, or
        an action of a configured skill that is not registered, raises
        `SkillError`. Python raises the same exception in both cases; here
        an unknown skill is `Err(Missing(name))`, while a missing action
        ends the run as `Ok(Ran(ran, Some(Missing(action))))`, keeping the
        actions that ran before it. */
    method Run(name: string) returns (r: Result<RunOutcome, Exception>)
      ensures Get(skills, name).None? ==> r == Err(Missing(name))
      ensures Get(skills, name).Some? && Get(skills, name).value.body.Function? ==>
        r == Ok(Called(Get(skills, name).value.body.func))
      ensures Get(skills, name).Some? && Get(skills, name).value.body.FromConfig? ==>
        r == Ok(RunCalls(actions, Get(skills, name).value.body.calls))
    {
      var skill := Get(skills, name);
      if skill.None? {
        return Err(Missing(name));
      }
      match skill.value.body
      case Function(func) =>
        r := Ok(Called(func));
      case FromConfig(calls) =>
        var ran: seq<(Action, Dict<string, string>)> := [];
        var i := 0;
        while i < |calls|
          invariant 0 <= i <= |calls|
          invariant var rest := RunCalls(actions, calls[i..]);
            RunCalls(actions, calls) == Ran(ran + rest.ran, rest.error)
        {
          assert calls[i..][0] == calls[i] && calls[i..][1..] == calls[i + 1..];
          var action := Get(actions, calls[i].name);
          if action.None? {
            assert ran + [] == ran;
            return Ok(Ran(ran, Some(Missing(calls[i].name))));
          }
          ghost var rest := RunCalls(actions, calls[i + 1..]);
          assert ran + ([(action.value, calls[i].args)] + rest.ran) == (ran + [(action.value, calls[i].args)]) + rest.ran;
          ran := ran + [(action.value, calls[i].args)];
          i := i + 1;
        }
        assert ran + [] == ran;
        r := Ok(Ran(ran, None));
    }
  }

  /** A configured skill that shares a name with an internal skill, like a
      configured `weather`, replaces it: the last configured skill of a
      name is the one registered under it. */
  lemma ConfigOverrides(config: seq<ConfigSkill>, k: nat)
    requires k < |config|
    requires forall i :: k < i < |config| ==> config[i].name != config[k].name
    ensures Get(AddAll([], InternalSkills() + ConfigSkills(config)), config[k].name) == Some(MakeFromConfig(config[k]))
  {
    var all := InternalSkills() + ConfigSkills(config);
    AddAllGet([], all, config[k].name);
    assert all[3 + k] == MakeFromConfig(config[k]);
    LastNamedAt(all, 3 + k);
  }

  /** Whatever the configuration holds, the internal skills keep the first
      three places of `names`. */
  lemma InternalNamesFirst(config: seq<ConfigSkill>)
    ensures var names := Keys(AddAll([], InternalSkills() + ConfigSkills(config)));
      |names| >= 3 && names[..3] == ["weather", "current-time", "reload"]
  {
    var internal := AddAll([], InternalSkills());
    AddAllAppend([], InternalSkills(), ConfigSkills(config));
    AddAllKeysPrefix(internal, ConfigSkills(config));
    InternalKeys();
  }

  lemma LastNamedAt(ss: seq<Skill>, k: nat)
    requires k < |ss| && forall i :: k < i < |ss| ==> ss[i].name != ss[k].name
    ensures LastNamed(ss, ss[k].name) == Some(ss[k])
    decreases |ss|
  {
    if k < |ss| - 1 {
      LastNamedAt(ss[..|ss| - 1], k);
    }
  }

  lemma {:induction false} AddAllAppend(d: Dict<string, Skill>, a: seq<Skill>, b: seq<Skill>)
    ensures AddAll(d, a + b) == AddAll(AddAll(d, a), b)
    decreases |a|
  {
    if a == [] {
      assert a + b == b;
    } else {
      assert (a + b)[1..] == a[1..] + b;
      AddAllAppend(Put(d, a[0].name, a[0]), a[1..], b);
    }
  }

  /** Slicing one element further appends it; kept apart from the loop
      in `AddEach` so the slice reasoning there stays small. */
  lemma TakeOneMore(ss: seq<Skill>, i: nat)
    requires i < |ss|
    ensures ss[..i + 1] == ss[..i] + [ss[i]]
  {
  }

  function SkillNames(ss: seq<Skill>): (names: seq<string>)
    ensures |names| == |ss| && forall i :: 0 <= i < |ss| ==> names[i] == ss[i].name
  {
    seq(|ss|, i requires 0 <= i < |ss| => ss[i].name)
  }

  /** Skills with new, distinct names are listed after the names already
      registered, in the order they were added. */
  lemma {:induction false} AddAllFreshKeys(d: Dict<string, Skill>, ss: seq<Skill>)
    requires forall i :: 0 <= i < |ss| ==> ss[i].name !in Keys(d)
    requires forall i, j :: 0 <= i < j < |ss| ==> ss[i].name != ss[j].name
    ensures Keys(AddAll(d, ss)) == Keys(d) + SkillNames(ss)
    decreases |ss|
  {
    if ss == [] {
      assert Keys(d) + SkillNames(ss) == Keys(d);
    } else {
      var d' := Put(d, ss[0].name, ss[0]);
      assert Keys(d') == Keys(d) + [ss[0].name];
      var rest := ss[1..];
      forall i | 0 <= i < |rest| ensures rest[i].name !in Keys(d') {
        assert rest[i] == ss[i + 1];
      }
      AddAllFreshKeys(d', rest);
      assert AddAll(d, ss) == AddAll(d', rest);
      assert SkillNames(ss) == [ss[0].name] + SkillNames(rest);
      Associative(Keys(d), [ss[0].name], SkillNames(rest));
    }
  }

  /** Regrouping a concatenation, apart from the dictionary facts in
      `AddAllFreshKeys`. */
  lemma Associative(a: seq<string>, b: seq<string>, c: seq<string>)
    ensures a + (b + c) == (a + b) + c
  {
  }

  lemma InternalKeys()
    ensures Keys(AddAll([], InternalSkills())) == ["weather", "current-time", "reload"]
  {
    InternalNames();
    AddAllFreshKeys([], InternalSkills());
  }

  lemma InternalNames()
    ensures SkillNames(InternalSkills()) == ["weather", "current-time", "reload"]
    ensures forall i, j :: 0 <= i < j < 3 ==> InternalSkills()[i].name != InternalSkills()[j].name
  {
    var names := SkillNames(InternalSkills());
    assert |names[0]| == 7 && |names[1]| == 12 && |names[2]| == 6;
  }
}
