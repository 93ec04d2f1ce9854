/** The pieces of the Python runtime the model needs: the exceptions the core
    raises, the identity of a callable (skill and action functions) and the
    result of a regular-expression search. */
module PyRuntime {
  import opened Wrappers

  datatype Exception =
    | NlpException(message: string)     // voiceassistant.exceptions.NlpException
    | SkillError(message: string)       // voiceassistant.exceptions.SkillError
    | TypeError(message: string)
    | ValueError(message: string)
    | AttributeError(key: string)
    | AttributeErrorOfKeyError(key: string) // AttributeError wrapping KeyError(key)
    | AssertionError(message: string)
    | QueueEmpty                         // queue.Empty from a non-blocking get

  /** A Python function object: compared by identity, shown by its `__name__`. */
  datatype Callable = Callable(id: nat, name: string)

  /** What a successful `re.search` yields: the whole match (`m[0]`), the
      captured groups in order (`m.groups()`), and the end offset of the group
      `m.lastindex` names (`m.end(m.lastindex)`). */
  datatype RawMatch = RawMatch(whole: string, groups: seq<string>, lastGroupEnd: nat)

  /** `re.search(pattern, text)`. The regular-expression engine is not part
      of this model: callers supply it. */
  type Matcher = (string, string) -> Option<RawMatch>
}
