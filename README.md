# Voice assistant core, modelled in Dafny

This project models the core of a voice assistant that:

- turns continuously recognised speech into skill calls;
- keeps the skills and actions it can run;
- drives a Spotify player's volume;
- builds Home Assistant intents from its configured entities.

The modules follow the program's own layout:

- `expression.dfy` (module `Expression`) models the regex NLP expression. It covers:
  - the `<<variable>>` and `<fixed>` placeholders and their two substitution passes;
  - the `(a&&b)` look-ahead rewrite;
  - the entity-name extraction;
  - the hard entities;
  - `match`;
  - the completeness rule.

  The regex engine itself (`re.search`) is a parameter: a function from pattern and text to an optional raw match.
- `regex_nlp.dfy` (module `RegexNlp`) models regex intents and the regex NLP processor. The processor's intent list is shared by all its instances, so it is a class.
- `handler.dfy` (module `Handler`) models the continuous language handler. It strips the processed prefix, runs each processor, fires results that are complete or final, and never fires the same result twice.
- `processor.py` and the older layer:
  - `processor.dfy` models the older processor, which records results in a set;
  - `nlp_result.dfy` models the older NLP result;
  - `regex_skill.dfy` models the older regex skill.
- `datastruct.dfy` and `legacy_datastruct.dfy` model `DottedDict` and the rolling window queue, in the current package and in the older one.
- `hass_utils.dfy` (module `HassUtils`) models the Home Assistant helpers:
  - number words, and word-or-string to integer;
  - number-range regexes;
  - entity domains;
  - the relevance filter over domains, services and attributes;
  - friendly-name collection;
  - building a HASS skill's intent.
- `skills.dfy` (module `Skills`) models the skills component:
  - internal and configured skills;
  - actions keyed by domain;
  - running a skill, including a configured skill's action list.
- `spotify.dfy` (module `Spotify`) models the Spotify volume skills:
  - volume up, down and set;
  - ducking the volume while the assistant listens, and restoring it.

Helper modules model the Python built-ins the core relies on:

- `wrappers.dfy` holds `Option` and `Result`.
- `py_runtime.dfy` holds exceptions and callables.
- `text.dfy` holds ASCII `str.lower`, `find`, `split`, `join`, digit strings, and `strip` over every character `str.isspace` accepts.
- `ordered_dict.dfy` models a dict as an association list in insertion order.

Mutable objects are classes whose methods are tied to a specification function of the old state:

- `RollingWindowQueue`;
- `DottedDict`;
- the language handlers;
- the regex processor;
- the skills component;
- the Spotify module globals.

The lemmas state what those functions promise.

## Model

| member | source | states |
|---|---|---|
| Expression.WordRun | src/voiceassistant/nlp/regex/expression.py:24-25 | the length of the maximal leading run of `\w` characters |
| Expression.CloseFrom | src/voiceassistant/nlp/regex/expression.py:23 | the first `>` from a position, where the lazy `.*?` cannot cross a newline |
| Expression.LineEnd | src/voiceassistant/nlp/regex/expression.py:31 | the end of the line a position is on: no newline before it, a newline or the end at it |
| Expression.LastClose | src/voiceassistant/nlp/regex/expression.py:31 | the greedy `.*` of the `&&` pattern ends at the last `)` before the line end; `None` means no `)` in range |
| Expression.AndSearch | src/voiceassistant/nlp/regex/expression.py:31 | the leftmost `(...&&...)` match lies inside the string, with its `(` before its `)` |
| Expression.SubstituteLiteral | src/voiceassistant/nlp/regex/expression.py:107-108 | text without `<` passes either placeholder substitution unchanged |
| Expression.SubstituteOwn | src/voiceassistant/nlp/regex/expression.py:107-108 | a placeholder of the kind a pass looks for becomes `(.*)` or `([a-zA-Z0-9_]*)` |
| Expression.SubstituteShortInLong | src/voiceassistant/nlp/regex/expression.py:107 | the `<<name>>` pass leaves `<name>` untouched |
| Expression.AfterLongShape | src/voiceassistant/nlp/regex/expression.py:107 | after the first pass the template is still well formed, has no variable placeholder and compiles to the same regex |
| Expression.LongPass | src/voiceassistant/nlp/regex/expression.py:107 | the `<<name>>` pass turns exactly the variable placeholders into `(.*)` |
| Expression.ShortPass | src/voiceassistant/nlp/regex/expression.py:108 | with only fixed placeholders left, the `<name>` pass yields the compiled regex |
| Expression.InterpretTemplate | src/voiceassistant/nlp/regex/expression.py:105-108 | for any well-formed expression, the two passes replace each placeholder by its group and keep the text around it |
| Expression.CloseFromSkip | src/voiceassistant/nlp/regex/expression.py:23 | the token scan stops at the first `>` when no newline comes before it |
| Expression.EntityTokensLiteral | src/voiceassistant/nlp/regex/expression.py:130 | literal text without `<` contributes no entity token |
| Expression.EntityTokenOfPlaceholder | src/voiceassistant/nlp/regex/expression.py:128-130 | a placeholder contributes exactly itself as the next token |
| Expression.EntityTokenAtLong | src/voiceassistant/nlp/regex/expression.py:23 | `<<w>>` is one token four characters longer than `w` |
| Expression.EntityTokenAtShort | src/voiceassistant/nlp/regex/expression.py:23 | `<w>` not followed by `>` is one token two characters longer than `w` |
| Expression.ParseLong | src/voiceassistant/nlp/regex/expression.py:132-135 | `<<w>>` parses to the variable entity name `w` |
| Expression.ParseShort | src/voiceassistant/nlp/regex/expression.py:136-137 | `<w>` parses to the fixed entity name `w` |
| Expression.ShortStrip | src/voiceassistant/nlp/regex/expression.py:137 | stripping `<>` from `<w>` gives back `w` |
| Expression.ShortKind | src/voiceassistant/nlp/regex/expression.py:134 | `<w>` does not start with `<<`, so it is fixed |
| Expression.ParsePlaceholder | src/voiceassistant/nlp/regex/expression.py:132-137 | a placeholder's token parses to its name, fixed exactly when it is single-bracketed |
| Expression.EntityNamesOfPlaceholder | src/voiceassistant/nlp/regex/expression.py:128-130 | a placeholder at the front adds its entity name at the front |
| Expression.RenderStart | src/voiceassistant/nlp/regex/expression.py:23 | a well-formed expression never starts with `>`, so tokens do not run together |
| Expression.EntityNamesOfTemplate | src/voiceassistant/nlp/regex/expression.py:128-137 | the entity names found are exactly the declared placeholders, in order, with their kinds |
| Expression.AndSearchSkip | src/voiceassistant/nlp/regex/expression.py:112 | positions where no group starts do not affect the leftmost search |
| Expression.AndFree | src/voiceassistant/nlp/regex/expression.py:110-116 | an expression without `&` is returned unchanged |
| Expression.AndGroupFound | src/voiceassistant/nlp/regex/expression.py:110-115 | when the first `(` opens a group with `&&` up to the last `)`, the result is one look-ahead per `&&` operand |
| Expression.AndGroupAtParen | src/voiceassistant/nlp/regex/expression.py:31 | a `(` with `&&` inside matches up to the last `)` of its line |
| Expression.AndGroupText | src/voiceassistant/nlp/regex/expression.py:110-115 | `pre(inner)post` rewrites to the look-aheads of `inner` split on `&&`; `pre` and `post` are dropped |
| Expression.AndGroupRewrite | src/voiceassistant/nlp/regex/expression.py:110-115 | `(p1&&...&&pn)` with plain operands becomes `(?=.*(?:p1))...(?=.*(?:pn))` |
| Expression.OperandsJoined | src/voiceassistant/nlp/regex/expression.py:114 | joining plain operands with `&&` and splitting again gives them back |
| Expression.Renders | src/voiceassistant/nlp/regex/expression.py:105-108 | one expression text per template |
| Expression.Compiles | src/voiceassistant/nlp/regex/expression.py:105-108 | one regex per template |
| Expression.RenderAppend | src/voiceassistant/nlp/regex/expression.py:105-108 | the text of joined templates is the joined texts |
| Expression.CompileAppend | src/voiceassistant/nlp/regex/expression.py:105-108 | the regex of joined templates is the joined regexes |
| Expression.WellFormedAppend | src/voiceassistant/nlp/regex/expression.py:105-108 | well-formedness is closed under concatenation |
| Expression.JoinTemplatesText | src/voiceassistant/nlp/regex/expression.py:114 | templates joined by `&&` render as their texts joined by `&&` |
| Expression.JoinTemplatesRegex | src/voiceassistant/nlp/regex/expression.py:114 | templates joined by `&&` compile to their regexes joined by `&&` |
| Expression.JoinTemplatesWellFormed | src/voiceassistant/nlp/regex/expression.py:114 | joining well-formed templates by `&&` keeps them well formed |
| Expression.CompileAvoids | src/voiceassistant/nlp/regex/expression.py:27-28 | a character absent from the literals and both group replacements is absent from the regex |
| Expression.AndTemplateShape | src/voiceassistant/nlp/regex/expression.py:110-115 | `(t1&&...&&tn)` renders and compiles member by member and is well formed |
| Expression.CompilePlain | src/voiceassistant/nlp/regex/expression.py:27-28 | the regex of a template with plain literals contains neither `&` nor a newline |
| Expression.CompilesPlain | src/voiceassistant/nlp/regex/expression.py:27-28 | the same, for every template in a list |
| Expression.AndOfTemplates | src/voiceassistant/nlp/regex/expression.py:95-116 | the expression regex of `(t1&&...&&tn)` is the look-ahead conjunction of each `ti`'s compiled regex |
| Expression.AndGroupAlone | src/voiceassistant/nlp/regex/expression.py:110-115 | a bare `(p1&&...&&pn)` rewrites to its look-aheads |
| Expression.PreprocessHardEntities | src/voiceassistant/nlp/regex/expression.py:118-126 | raises `NlpException` exactly when some value is not a list or tuple; otherwise keeps the keys and joins each value into one alternation pattern |
| Expression.NewExpression | src/voiceassistant/nlp/regex/expression.py:84-89 | fails exactly when the hard entities are malformed; otherwise keeps the expression text and the entity keys |
| Expression.NewExpressionOfTemplate | src/voiceassistant/nlp/regex/expression.py:84-89 | a well-formed expression's regex and entity names are its compiled regex and declared placeholders |
| Expression.HardEntitiesBinding | src/voiceassistant/nlp/regex/expression.py:139-147 | each hard entity is bound to the whole match of its pattern, or absent when it does not match; keys stay distinct |
| Expression.FindHardEntities | src/voiceassistant/nlp/regex/expression.py:139-147 | the loop builds exactly the hard entities found |
| Expression.Match | src/voiceassistant/nlp/regex/expression.py:149-174 | no match iff the regex does not match; raises `NlpException` iff the group count is neither 0 nor the entity count; records text, names and the end of the last group |
| Expression.MatchEntities | src/voiceassistant/nlp/regex/expression.py:158-166 | each entity is its group, unless a hard entity of that name was found, which overrides it |
| Expression.MatchHardEntity | src/voiceassistant/nlp/regex/expression.py:165-166 | a hard entity that is found is in the match whatever the groups |
| Expression.CompleteExtends | src/voiceassistant/nlp/regex/expression.py:74-76 | a complete match stays complete when more transcript follows |
| Expression.AndPair | src/voiceassistant/nlp/regex/expression.py:110-115 | `(a&&b)` becomes `(?=.*(?:a))(?=.*(?:b))` |
| Expression.NoAndOperatorExample | tests/nlp/regex/test_expression.py:48 | `no and operator here` is left alone |
| Expression.Between | src/voiceassistant/nlp/regex/expression.py:105-108 | a placeholder between two literals renders, compiles and declares as expected |
| Expression.OnePlaceholder | src/voiceassistant/nlp/regex/expression.py:84-89 | an expression with one placeholder between plain texts gets that group and that one entity name |
| Expression.WeatherExpression | tests/nlp/regex/test_expression.py:31-33 | `weather in <<location>> please` compiles to `weather in (.*) please` with one variable entity |
| Expression.WeatherMatch | tests/nlp/regex/test_expression.py:31-40 | given a regex search that returns `London` ending at 17, matching `weather in London please` binds `location` to `London` and is complete |
| RegexNlp.SameResultEquivalence | src/voiceassistant/nlp/base.py:13-23 | result equality, with entities compared as dicts, is an equivalence |
| RegexNlp.NewRegexIntent | src/voiceassistant/nlp/regex/__init__.py:24-29 | one expression per string; fails iff some expression fails, with that exception |
| RegexNlp.IntentMatchFirst | src/voiceassistant/nlp/regex/__init__.py:31-41 | the first expression that matches, or raises, decides the result |
| RegexNlp.IntentMatchNone | src/voiceassistant/nlp/regex/__init__.py:31-41 | no expression matching gives no result |
| RegexNlp.MatchFromSkips | src/voiceassistant/nlp/regex/__init__.py:33-35 | expressions that do not match are skipped |
| RegexNlp.IntentMatchResult | src/voiceassistant/nlp/regex/__init__.py:35-40 | a result carries the intent's name and the entities and completeness of some expression's match |
| RegexNlp.MatchedAt | src/voiceassistant/nlp/regex/__init__.py:33-40 | a result comes from the match of a particular expression |
| RegexNlp.ProcessFirst | src/voiceassistant/nlp/regex/__init__.py:68-74 | the first intent that matches, or raises, decides the result |
| RegexNlp.ProcessNone | src/voiceassistant/nlp/regex/__init__.py:68-74 | nothing recognised iff no intent matches |
| RegexNlp.ProcessAppend | src/voiceassistant/nlp/regex/__init__.py:68-74 | processing `a + b` consults `b` only when `a` gives nothing |
| RegexNlp.AddedLast | src/voiceassistant/nlp/regex/__init__.py:76-80 | an added intent is consulted after all earlier ones |
| RegexNlp.Selected | src/voiceassistant/nlp/regex/__init__.py:58-66 | every selected intent comes from a configured skill addressed to `regex`, and every such skill is selected |
| RegexNlp.SelectedAppend | src/voiceassistant/nlp/regex/__init__.py:58-66 | selection distributes over concatenation, so the intents keep the order of their skills |
| RegexNlp.SelectedOne | src/voiceassistant/nlp/regex/__init__.py:60-66 | a single skill becomes its intent exactly when its NLP processor is `regex`, and nothing otherwise |
| RegexNlp.Built | src/voiceassistant/nlp/regex/__init__.py:55-66 | without an exception every declaration is built |
| RegexNlp.BuiltIntents | src/voiceassistant/nlp/regex/__init__.py:55-66 | the intents built are the declarations in order; an exception comes from the first one that fails |
| RegexNlp.BuiltFrom | src/voiceassistant/nlp/regex/__init__.py:55 | `extend` appends the built intent and goes on, or stops at the first failure |
| RegexNlp.RegexProcessor.Load | src/voiceassistant/nlp/regex/__init__.py:50-66 | built-in intents first, then the configured ones; the first failure stops the load after what was built |
| RegexNlp.RegexProcessor.Extend | src/voiceassistant/nlp/regex/__init__.py:55 | the shared list grows by the intents built before any failure |
| RegexNlp.RegexProcessor.Add | src/voiceassistant/nlp/regex/__init__.py:76-80 | appends the new intent, or leaves the list alone and reports the exception |
| RegexNlp.RegexProcessor.Process | src/voiceassistant/nlp/regex/__init__.py:68-74 | gives nothing iff no shared intent matches |
| Handler.Preprocess | src/voiceassistant/nlp/__init__.py:89-95 | drops the processed prefix, lower-cases the rest and keeps `is_final` |
| Handler.HandleRecords | src/voiceassistant/nlp/__init__.py:72-87 | the recorded results grow by exactly what fired, in firing order |
| Handler.HandleFiresComplete | src/voiceassistant/nlp/__init__.py:81 | only complete results fire, or any result when the transcript is final |
| Handler.HandleFiresNew | src/voiceassistant/nlp/__init__.py:78-79 | nothing already recorded fires |
| Handler.HandleDistinct | src/voiceassistant/nlp/__init__.py:78-82 | the record never holds two equal results |
| Handler.RecordedGrows | src/voiceassistant/nlp/__init__.py:97-100 | a result recorded before is still recorded after an append |
| Handler.AppendDistinct | src/voiceassistant/nlp/__init__.py:78-82 | appending an unrecorded result keeps the record duplicate-free |
| Handler.HandleQuiet | src/voiceassistant/nlp/__init__.py:72-87 | when nothing fires, neither the record nor the offset changes |
| Handler.HandleOffset | src/voiceassistant/nlp/__init__.py:97-100 | after a firing the offset is the length of the preprocessed transcript |
| Handler.NeverTwice | src/voiceassistant/nlp/__init__.py:62-87 | no result that fired for one transcript fires again for the next |
| Handler.FirstFires | src/voiceassistant/nlp/__init__.py:72-87 | a new, complete first result fires first |
| Handler.OffsetCanMoveBack | src/voiceassistant/nlp/__init__.py:89-100 | the offset is measured on the sliced text, so a firing can move it backwards |
| Handler.ContinuousLanguageHandler.constructor | src/voiceassistant/nlp/__init__.py:42-48 | keeps the processors, with nothing processed |
| Handler.ContinuousLanguageHandler.Enter | src/voiceassistant/nlp/__init__.py:50-54 | resets the record and the offset |
| Handler.ContinuousLanguageHandler.MakeRecord | src/voiceassistant/nlp/__init__.py:97-100 | appends the result and sets the offset to the transcript length |
| Handler.ContinuousLanguageHandler.HandleNext | src/voiceassistant/nlp/__init__.py:62-87 | the new record, offset, fired results and error are those of the handling function |
| LegacyResult.EqIsIdentity | src/voiceassistant/nlp/nlp_result.py:47-49 | two results are equal iff all three fields are equal |
| LegacyResult.EqualHash | src/voiceassistant/nlp/nlp_result.py:43-49 | equal results hash alike |
| LegacyResult.EntityOrderMatters | src/voiceassistant/nlp/nlp_result.py:38 | the same entities inserted in another order make a different result |
| LegacyResult.StrLines | src/voiceassistant/nlp/nlp_result.py:22-33 | six lines, framed by two rules of 20 underscores |
| LegacyResult.ItemsReprPlain | src/voiceassistant/nlp/nlp_result.py:29 | entities without newlines print on one line |
| LegacyResult.StrSplits | src/voiceassistant/nlp/nlp_result.py:22-33 | splitting the string on newlines gives back the six lines, with the skill name on the third |
| LegacySkill.NewRegexSkill | src/voiceassistant/nlp/regex/skill.py:31-41 | keeps the function; one expression per string; fails iff there are expressions and the entities are malformed |
| LegacySkill.SkillList.RegexSkillDecorator | src/voiceassistant/nlp/regex/skill.py:11-25 | registers the skill at the end and hands back the same function |
| LegacySkill.IsCompleteOld | src/voiceassistant/nlp/regex/skill.py:51-68 | complete iff no entities, the last is fixed, or the last end is below the text length; `TypeError` when that end is missing |
| LegacySkill.CompleteRulesCompared | src/voiceassistant/nlp/regex/skill.py:62-64 | agrees with the newer rule except at end offset 0, where only the older rule says complete |
| LegacySkill.SkillMatchFirst | src/voiceassistant/nlp/regex/skill.py:70-79 | the first expression that matches gives the result |
| LegacySkill.SkillMatchNone | src/voiceassistant/nlp/regex/skill.py:70-80 | no result when no expression matches |
| LegacySkill.AllEntityNames | src/voiceassistant/nlp/regex/skill.py:47-49 | exactly the names of every expression's entities |
| LegacySkill.FixedLastComplete | tests/nlp/regex/test_skill.py:13 | a fixed last entity makes the match complete |
| LegacySkill.VariableAtEndIncomplete | tests/nlp/regex/test_skill.py:14 | a variable entity running to the end makes it incomplete |
| LegacySkill.VariableBeforeEndComplete | tests/nlp/regex/test_skill.py:15 | text after the last entity makes it complete |
| LegacyProcessor.StepFires | src/voiceassistant/nlp/processor.py:71-84 | only complete or final results fire, and the set grows by exactly those |
| LegacyProcessor.StepFiresOnce | src/voiceassistant/nlp/processor.py:79-83 | nothing in the set fires, and nothing fires twice |
| LegacyProcessor.StepOffset | src/voiceassistant/nlp/processor.py:43-48 | the offset is unchanged when nothing fires, and the transcript length otherwise |
| LegacyProcessor.ResumedAppend | src/voiceassistant/nlp/processor.py:73-84 | resuming after one more result is the same outcome |
| LegacyProcessor.NaturalLanguageProcessor.Enter | src/voiceassistant/nlp/processor.py:19-24 | empties the set and resets the offset |
| LegacyProcessor.NaturalLanguageProcessor.ProcessSingle | src/voiceassistant/nlp/processor.py:36-41 | changes nothing |
| LegacyProcessor.NaturalLanguageProcessor.MakeRecord | src/voiceassistant/nlp/processor.py:43-48 | adds the result and sets the offset |
| LegacyProcessor.NaturalLanguageProcessor.ProcessNextTranscript | src/voiceassistant/nlp/processor.py:60-84 | the new state, fired results and error are those of the step function |
| DataStruct.Attr | src/voiceassistant/utils/datastruct.py:14-22 | a list stays a list of the same length |
| DataStruct.WrapErased | src/voiceassistant/utils/datastruct.py:16 | wrapping never changes the data |
| DataStruct.AttrKeepsValue | src/voiceassistant/utils/datastruct.py:14-22 | an attribute read keeps the data and wraps the value, or a list's dict elements |
| DataStruct.AttrIdempotent | src/voiceassistant/utils/datastruct.py:14-22 | reading an attribute of a read value wraps nothing more |
| DataStruct.DottedDict.GetAttr | src/voiceassistant/utils/datastruct.py:11-24 | `__getattr__`: an `AttributeError` wrapping the `KeyError` iff the key is missing; otherwise the stored data, dotted at the top |
| DataStruct.DottedDict.ReadAttr | src/voiceassistant/utils/datastruct.py:8-24 | `d.key`: a name `dict` or `object` defines reads as that class member whatever is stored; any other name reads as `__getattr__` gives it |
| DataStruct.DottedDict.SetAttr | src/voiceassistant/utils/datastruct.py:26-31 | stores the value under any name; `d.key` then gives the wrapped value unless the name belongs to the class; other keys read as before |
| DataStruct.Initial | src/voiceassistant/utils/datastruct.py:37-42 | an empty, limited queue with counter 0 |
| DataStruct.Unlimited | src/voiceassistant/utils/datastruct.py:44-46 | only the limit flag changes |
| DataStruct.Pushed | src/voiceassistant/utils/datastruct.py:48-53 | the counter grows by one |
| DataStruct.Popped | src/voiceassistant/utils/datastruct.py:55-58 | the counter drops by one, even when the queue is empty |
| DataStruct.InitialSound | src/voiceassistant/utils/datastruct.py:37-42 | a new queue satisfies the queue invariant |
| DataStruct.PushedWindow | src/voiceassistant/utils/datastruct.py:48-53 | the element is appended and the oldest dropped when the counter exceeds the size; the invariant is kept |
| DataStruct.PoppedOldest | src/voiceassistant/utils/datastruct.py:55-58 | `get` yields the oldest element, or `Empty` |
| DataStruct.UnlimitedKeepsAll | src/voiceassistant/utils/datastruct.py:44-53 | without the limit every put element is kept |
| DataStruct.PushedAllSound | src/voiceassistant/utils/datastruct.py:48-53 | the invariant survives any number of puts |
| DataStruct.EmptyGetOverfills | src/voiceassistant/utils/datastruct.py:55-58 | a failed `get` on an empty queue of size 1 lets it hold two elements |
| DataStruct.EvictionLosesUnread | src/voiceassistant/utils/datastruct.py:48-53 | size 2: put a, b, c, get, put d leaves only `d`, losing unread `c` |
| DataStruct.Latest | src/voiceassistant/utils/datastruct.py:34 | the last `n` elements, or all of them |
| DataStruct.PushedFixed | src/voiceassistant/utils/datastruct.py:48-53 | the corrected `put` keeps size and limit |
| DataStruct.PoppedFixed | src/voiceassistant/utils/datastruct.py:55-58 | the corrected `get` keeps size and limit |
| DataStruct.FixedWindow | src/voiceassistant/utils/datastruct.py:34-58 | corrected queue: the counter is the buffer length and a limited buffer is always the latest `size` elements put |
| DataStruct.FixedKeepsUnread | src/voiceassistant/utils/datastruct.py:48-53 | the corrected queue keeps `c, d` in the run that loses `c` |
| DataStruct.RollingWindowQueue.constructor | src/voiceassistant/utils/datastruct.py:37-42 | the new state is the initial one |
| DataStruct.RollingWindowQueue.DisableSizeLimit | src/voiceassistant/utils/datastruct.py:44-46 | the state becomes unlimited |
| DataStruct.RollingWindowQueue.Put | src/voiceassistant/utils/datastruct.py:48-53 | the state is the pushed one; the invariant is kept |
| DataStruct.RollingWindowQueue.Get | src/voiceassistant/utils/datastruct.py:55-58 | returns the oldest element and removes it; `Empty` iff the buffer was empty |
| LegacyDataStruct.AttrOld | src/utils/datastruct.py:9-17 | only a top-level dict is wrapped; the data is unchanged |
| LegacyDataStruct.AttrOldDiffers | src/utils/datastruct.py:9-17 | the two packages differ exactly on lists holding plain dicts |
| LegacyDataStruct.DottedDict.GetAttr | src/utils/datastruct.py:9-17 | `__getattr__`: `AttributeError(key)` iff the key is missing; a non-dict value is returned as is |
| LegacyDataStruct.DottedDict.ReadAttr | src/utils/datastruct.py:6-17 | `d.key`: a name of the class reads as the class member; any other name reads as `__getattr__` gives it |
| LegacyDataStruct.DottedDict.SetAttr | src/utils/datastruct.py:19-23 | stores the value under any name; `d.key` then gives it back unless the name belongs to the class; other keys read as before |
| HassUtils.NumberWordsDistinct | src/voiceassistant/integrations/hass/utils.py:16-28 | the number words are pairwise distinct |
| HassUtils.WordToIntGet | src/voiceassistant/integrations/hass/utils.py:16-28 | looking up the i-th word gives i |
| HassUtils.NumberWordsLowercase | src/voiceassistant/integrations/hass/utils.py:16-28 | the number words are non-empty and lower case |
| HassUtils.ReSeparateWord | src/voiceassistant/integrations/hass/utils.py:31-33 | the three position alternatives joined as one alternation |
| HassUtils.ReSeparateWordSplits | src/voiceassistant/integrations/hass/utils.py:31-33 | for a word without a bar, splitting the pattern on bars gives back the three alternatives |
| HassUtils.WordOrStrToInt | src/voiceassistant/integrations/hass/utils.py:36-46 | `ValueError` iff neither a number nor a stripped number word; an integer literal wins |
| HassUtils.WordOrStrToIntOfInt | src/voiceassistant/integrations/hass/utils.py:38-39 | round trip: any integer of magnitude at most 2**53, printed and read back, is itself |
| HassUtils.WordOrStrToIntOfWord | src/voiceassistant/integrations/hass/utils.py:43-44 | a number word padded with whitespace reads as its value |
| HassUtils.WordOrStrToIntOfBareWord | src/voiceassistant/integrations/hass/utils.py:43-44 | a bare number word reads as its value |
| HassUtils.WordOrStrToIntOfDigit | src/voiceassistant/integrations/hass/utils.py:38-39 | a digit padded with whitespace reads as its value |
| HassUtils.PySlice | src/voiceassistant/integrations/hass/utils.py:54 | within bounds a Python slice is the sequence slice |
| HassUtils.ReNumberRange | src/voiceassistant/integrations/hass/utils.py:49-55 | `AssertionError` iff the maximum is 10 or more |
| HassUtils.NumberRangeAlternatives | src/voiceassistant/integrations/hass/utils.py:49-55 | the regex's alternatives are the three digit-class positions, then the words from minimum to maximum |
| HassUtils.NumberRangeWords | src/voiceassistant/integrations/hass/utils.py:49-55 | the k-th word alternative reads back as `minimum + k` |
| HassUtils.Domain | src/voiceassistant/integrations/hass/utils.py:154-156 | the part before the first dot, or the whole id |
| HassUtils.DomainOf | src/voiceassistant/integrations/hass/utils.py:154-156 | `Domain(d + "." + rest) == d` for a dot-free `d` |
| HassUtils.DomainWithoutDot | src/voiceassistant/integrations/hass/utils.py:154-156 | an id without a dot is its own domain |
| HassUtils.AttrCheckPasses | src/voiceassistant/integrations/hass/utils.py:136-151 | the attribute check passes iff every filter intersects the entity's attribute |
| HassUtils.AttrCheckRaises | src/voiceassistant/integrations/hass/utils.py:138-145 | raises iff, before any failing filter, one finds an attribute that is neither list nor string |
| HassUtils.RaisesAtShift | src/voiceassistant/integrations/hass/utils.py:138-149 | a satisfied first filter does not change whether a later one raises |
| HassUtils.DomainsWithService | src/voiceassistant/integrations/hass/utils.py:132 | exactly the domains offering the service |
| HassUtils.IrrelevantMeaning | src/voiceassistant/integrations/hass/utils.py:114-151 | both filters raise `TypeError`; otherwise relevant iff domain, service and attributes all pass, and raising iff domain and service pass and an attribute raises |
| HassUtils.Irrelevant | src/voiceassistant/integrations/hass/utils.py:114-151 | the loop computes the relevance function |
| HassUtils.NamedStep | src/voiceassistant/integrations/hass/utils.py:107-109 | one more id adds its item's names iff that id is relevant |
| HassUtils.CheckedStep | src/voiceassistant/integrations/hass/utils.py:107-108 | one more id is checked without error iff its check succeeds |
| HassUtils.NamedNext | src/voiceassistant/integrations/hass/utils.py:106-107 | finishing an item's ids is starting the next item |
| HassUtils.CheckIds | src/voiceassistant/integrations/hass/utils.py:107-109 | the inner loop adds the names of relevant ids, or reports the first id whose check raised |
| HassUtils.GetFriendlyNamesWithFilter | src/voiceassistant/integrations/hass/utils.py:98-111 | the names of items with a relevant id, each once; an exception comes from the first id whose check raised |
| HassUtils.ListOf | src/voiceassistant/integrations/hass/utils.py:111 | the list holds the set's elements, each once |
| HassUtils.IntentOfShape | src/voiceassistant/integrations/hass/utils.py:74-81 | never fails; the skill's name, one `(regex&&names)` expression and a `hass_entity_name` entity |
| HassUtils.IntentRegex | src/voiceassistant/integrations/hass/utils.py:74-75 | with plain texts the expression compiles to look-aheads for the skill regex and the names alternation |
| HassUtils.PlainPairRegex | src/voiceassistant/integrations/hass/utils.py:75 | a plain `(a&&b)` compiles to two look-aheads |
| HassUtils.NoPlaceholders | src/voiceassistant/nlp/regex/expression.py:105-108 | text without `<` passes the placeholder stage unchanged |
| HassUtils.GetIntent | src/voiceassistant/integrations/hass/utils.py:66-81 | the intent built from some friendly listing, or the exception of an id whose check raised |
| Skills.AddAllSnoc | src/voiceassistant/skills/__init__.py:68-74 | adding one more skill is one more dict assignment |
| Skills.LastNamed | src/voiceassistant/skills/__init__.py:73 | the last skill of a name, and none iff no skill has that name |
| Skills.AddAllGet | src/voiceassistant/skills/__init__.py:68-74 | after adding skills, a name maps to the last skill added with it, or to what it mapped to before |
| Skills.AddAllKeysPrefix | src/voiceassistant/skills/__init__.py:73 | adding skills keeps the earlier names first, in order |
| Skills.ActionKey | src/voiceassistant/skills/__init__.py:92 | with no domain the key is the action's name |
| Skills.ActionKeySplits | src/voiceassistant/skills/__init__.py:92 | a domain key splits at its first dot into domain and action name |
| Skills.RunCalls | src/voiceassistant/skills/__init__.py:83-86 | a configured skill's run reports the actions it ran |
| Skills.RunCallsAll | src/voiceassistant/skills/__init__.py:83-86 | when every action exists, all run in order with their arguments |
| Skills.RunCallsStops | src/voiceassistant/skills/__init__.py:83-105 | the first missing action stops the run with a `SkillError` naming it, after the ones before ran |
| Skills.SkillsComponent.constructor | src/voiceassistant/skills/__init__.py:38-51 | internal skills, then the configured ones; the one internal action `say` |
| Skills.SkillsComponent.AddEach | src/voiceassistant/skills/__init__.py:45-46 | adds each skill in turn and leaves the actions alone |
| Skills.SkillsComponent.Names | src/voiceassistant/skills/__init__.py:53-56 | one name per skill; a name is listed iff a skill has it |
| Skills.SkillsComponent.Add | src/voiceassistant/skills/__init__.py:68-74 | the name now maps to the skill and nothing else changes; a new name is listed last |
| Skills.SkillsComponent.AddAction | src/voiceassistant/skills/__init__.py:90-98 | the domain-qualified key now maps to the action; nothing else changes |
| Skills.SkillsComponent.Run | src/voiceassistant/skills/__init__.py:100-105 | `SkillError` for an unknown name; a function skill is called; a configured skill runs its actions up to the first unregistered one, which ends the run with that error |
| Skills.ConfigOverrides | src/voiceassistant/skills/__init__.py:45-73 | the last configured skill of a name wins, over internal ones too |
| Skills.InternalNamesFirst | src/voiceassistant/skills/__init__.py:23-51 | `weather`, `current-time`, `reload` are always the first names |
| Skills.LastNamedAt | src/voiceassistant/skills/__init__.py:73 | a skill with no later namesake is the last of its name |
| Skills.AddAllAppend | src/voiceassistant/skills/__init__.py:45-51 | adding two lists is adding one after the other |
| Skills.AddAllFreshKeys | src/voiceassistant/skills/__init__.py:73 | distinct new names are appended in order |
| Skills.InternalKeys | src/voiceassistant/skills/__init__.py:23-27 | the internal skills register as `weather`, `current-time`, `reload` |
| Skills.InternalNames | src/voiceassistant/skills/skills.py:19-35 | the internal skills' names, which are distinct |
| Spotify.SetPlayback | src/voiceassistant/integrations/spotify/client.py:314-323 | without a current device nothing changes; otherwise the device volume is the level |
| Spotify.VolumeUp | src/voiceassistant/integrations/spotify/__init__.py:105-122 | no device: nothing; `TypeError` iff the base volume is a digit string; at 100 only the message; otherwise the base plus the increment, capped at 100, becomes both the device volume and the saved one |
| Spotify.VolumeDown | src/voiceassistant/integrations/spotify/__init__.py:125-139 | no device: nothing; `TypeError` iff the base volume is a digit string; otherwise the base minus the increment, floored at 0, becomes both the device volume and the saved one |
| Spotify.FirstDigit | src/voiceassistant/integrations/spotify/__init__.py:146 | the first digit at or after a position, none iff there is none |
| Spotify.RunEnd | src/voiceassistant/integrations/spotify/__init__.py:146 | the end of the maximal run of digits |
| Spotify.FirstDigitRun | src/voiceassistant/integrations/spotify/__init__.py:146 | the first `\d+` match: none iff the text has no digit, else a digit string |
| Spotify.FirstDigitRunSplits | src/voiceassistant/integrations/spotify/__init__.py:146 | the run found is a maximal digit run that starts at the first digit |
| Spotify.FirstDigitRunOf | src/voiceassistant/integrations/spotify/__init__.py:146 | in `pre + d + post` with no digit in `pre`, the first run is `d` |
| Spotify.FirstDigitAt | src/voiceassistant/integrations/spotify/__init__.py:146 | the scan stops at the first digit |
| Spotify.RunEndAt | src/voiceassistant/integrations/spotify/__init__.py:146 | the run ends at the first non-digit |
| Spotify.SetVolume | src/voiceassistant/integrations/spotify/__init__.py:142-151 | no digits: nothing; otherwise the device and the remembered volume become the digit string |
| Spotify.Muffled | src/voiceassistant/integrations/spotify/__init__.py:275 | `int(volume * factor)`: the largest integer not above the scaled volume |
| Spotify.LowerThenRestore | src/voiceassistant/integrations/spotify/__init__.py:267-284 | ducking and then restoring gives back the volume played before |
| Spotify.LowerTwice | src/voiceassistant/integrations/spotify/__init__.py:270 | ducking twice is ducking once |
| Spotify.RestoreTwice | src/voiceassistant/integrations/spotify/__init__.py:282 | restoring twice is restoring once; restoring unducked changes nothing |
| Spotify.ChangeWhileLowered | src/voiceassistant/integrations/spotify/__init__.py:114-139 | a volume change while ducked applies to the volume from before the duck, clamped to 0..100 |
| Spotify.StepsKeepRange | src/voiceassistant/integrations/spotify/__init__.py:105-284 | up, down, duck and restore keep the volumes within 0..100 |
| Spotify.SetThenUpWhileLowered | src/voiceassistant/integrations/spotify/__init__.py:142-151 | while ducked, `set_volume("50")` then volume up or down raises `TypeError` |
| Spotify.SetVolumeFixed | src/voiceassistant/integrations/spotify/__init__.py:142-151 | corrected set volume: the remembered volume is the integer read from the digits |
| Spotify.FixedSetThenUp | src/voiceassistant/integrations/spotify/__init__.py:142-151 | with the correction, setting n while ducked then volume up restores to `min(n + increment, 100)` |
| Spotify.SpotifyVolume.constructor | src/voiceassistant/integrations/spotify/__init__.py:21-26 | not ducked, remembered volume 0, the given device |
| Spotify.SpotifyVolume.SetDeviceVolume | src/voiceassistant/integrations/spotify/client.py:314-323 | the state is that of the client's `set_volume` |
| Spotify.SpotifyVolume.VolumeUpSkill | src/voiceassistant/integrations/spotify/__init__.py:105-122 | state and result are those of volume up |
| Spotify.SpotifyVolume.VolumeDownSkill | src/voiceassistant/integrations/spotify/__init__.py:125-139 | state and result are those of volume down |
| Spotify.SpotifyVolume.SetVolumeSkill | src/voiceassistant/integrations/spotify/__init__.py:142-151 | the state is that of set volume |
| Spotify.SpotifyVolume.Lower | src/voiceassistant/integrations/spotify/__init__.py:267-276 | the state is the ducked one |
| Spotify.SpotifyVolume.IncreaseBack | src/voiceassistant/integrations/spotify/__init__.py:279-284 | the state is the restored one |

## Left out

- The regex engine. `re.search` is a parameter of the model. Group values are strings, so groups that do not take part in a match are not modelled. Neither are `re.compile` errors on malformed patterns.
- Unicode. `\w` is ASCII `[A-Za-z0-9_]`, `\d` (`Spotify.FirstDigitRun`) is ASCII `[0-9]`, and `str.lower` lower-cases ASCII only. `HassUtils.ParseInteger` reads ASCII digits only, where `float` also reads any Unicode decimal digit (`"٥"` gives 5). `Text.Strip` and `HassUtils.ParseInteger` do remove all 29 whitespace characters Python strips, the Unicode spaces included.
- Floating point. In `word_or_str_to_int`, `int(float(word))` is modelled as integer literals only: optional whitespace and sign, then digits. Decimal and exponent forms are not modelled.
- `HassUtils.WordOrStrToInt`: the literal's value is exact, so the model agrees with Python only for magnitudes up to 2**53. Above that `float` rounds (`"9007199254740993"` gives 9007199254740992). A literal beyond the double range, or `"inf"`, raises `OverflowError`, which the function does not catch. `"nan"` raises `ValueError` from `int`, and is caught. Literals with underscores (`"1_000"`) are read by Python but are not modelled. Neither are non-ASCII decimal digits, which `float` also reads. `HassUtils.WordOrStrToIntOfInt` is stated for magnitudes up to 2**53 for this reason.
- The Spotify muffle factor is an integer percentage.
- I/O and configuration:
  - the YAML data files and `Config`;
  - logging and `print`;
  - the Spotify and Home Assistant clients.

  The configured skills, the built-in intents, the entity states and services, and the current device volume are parameters or fields. The volume increment and muffle factor are constructor parameters, with defaults of 20 and 50 %. The constant names the Spotify module imports do not appear in its `const.py`.
- Blocking. `RollingWindowQueue.get` is modelled as `get(block=False)`, which raises `Empty` on an empty buffer. `microphone_stream.py` is not part of this model.
- The handlers' `__exit__`, and the `AttributeError` from using a handler before `__enter__`. `Enter` is modelled as a separate method.
- Callees:
  - NLP processors and the skills runner are functions passed in;
  - the skill function's own behaviour and the `vass` argument are not modelled;
  - `Action.run`'s retries, its `ActionError`, and errors raised inside an action are not modelled;
  - `create.py`'s check of a skill function's arguments is not part of this model.
- `nlp/base.py` declares `NlpResult` with a field layout that differs from what the regex processor passes. The model follows `regex/__init__.py`: a result has an intent name, entities and completeness. Result equality compares entities as dicts.
- `LegacyResult.Quote`: `repr` escaping of quotes and backslashes inside entity strings is not modelled; strings are wrapped in single quotes.
- The older regex skill uses an older expression class. That class is not part of this model, so `regex/skill.py` is modelled on the current `Expression`.
- `tests/nlp/regex/test_expression.py` lines 46-47 expect `(?=.*weather)`. The code produces `(?=.*(?:weather))`. The model follows the code, and `Expression.AndPair` states the code's form. The tests also import old class names.
- `Handler.HandleOffset`: the offset is the length of the sliced, lower-cased transcript, as the code sets it. It is not the length of the full text. `Handler.OffsetCanMoveBack` shows the consequence.
- `HassUtils.GetFriendlyNamesWithFilter`: the order of `list(set(...))` depends on hashing. The model promises only the elements, each once.
- `DataStruct.DottedDict.ReadAttr` and `LegacyDataStruct.DottedDict.ReadAttr`: the class member a shadowing name reads as is given by its name only, not as the bound method or value. The list of class names is that of Python 3.9; later versions add a few, such as `__getstate__` in 3.11.
- `DataStruct.DottedDict.GetAttr`: `DottedDict(attr)` makes a shallow copy. Aliasing between the copy and the stored dict is not modelled; values are immutable data.
- `Spotify.SetPlayback`: of the client's errors, only the case with no current device is modelled, and it does nothing. Spotify's `Forbidden` response and its handling of volumes above 100 are not modelled.
- The older package's `RollingWindowQueue` (`src/utils/datastruct.py`, lines 26-44) is identical to the current one. `DataStruct.RollingWindowQueue` models both.

## Findings

| source | as written | input that shows it | evidently intended | confidence | as-written member | corrected member |
|---|---|---|---|---|---|---|
| src/voiceassistant/utils/datastruct.py:48-53 | eviction drops an element but does not decrement the counter, which then overstates the buffer length | size 2: put a, b, c; get (returns b); put d evicts the unread c, leaving [d] | the buffer is always the latest `size` elements put and not yet taken: [c, d] | not executed; latent, since the only caller disables the limit before its first get | DataStruct.EvictionLosesUnread | DataStruct.FixedKeepsUnread |
| src/voiceassistant/utils/datastruct.py:55-58 | `get` decrements the counter before the `get` that may raise `Empty` | size 1: a failed get on the empty queue, then put a, put b, leaves [a, b] in a queue of size 1 | the counter changes only when an element is taken, so the buffer never exceeds `size` | not executed; latent for the same reason | DataStruct.EmptyGetOverfills | DataStruct.FixedWindow |
| src/voiceassistant/integrations/spotify/__init__.py:142-151 | `set_volume` stores the matched digit string as `_original_volume` | while ducked: set_volume with level "50", then volume up; `"50" + 20` raises `TypeError` | store the integer value, so later volume changes and the restore work on numbers | not executed | Spotify.SetThenUpWhileLowered | Spotify.FixedSetThenUp |
