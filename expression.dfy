/** The assistant expression language (src/voiceassistant/nlp/regex/expression.py).

    An expression is a regular expression with two additions: `<name>` names a
    one-word entity and `<<name>>` an entity of any length; `(a&&b)` requires
    both `a` and `b` to occur, in any order. Compiling an expression rewrites it
    into a plain regular expression. The rewriting is modelled here exactly, as
    Python's `re.sub`, `re.findall` and `re.search` run these fixed patterns.
    Running the compiled pattern on a transcript is Python's regex engine, which
    is not modelled: it is a `Matcher` supplied by the caller. */
module Expression {
  import opened Wrappers
  import opened PyRuntime
  import opened Text
  import opened OrderedDict

  const LongEntityReplace: string := "(.*)"
  const ShortEntityReplace: string := "([a-zA-Z0-9_]*)"
  const AndOperator: string := "&&"

  /** An entity name and its kind: `fixed` for `<name>`, not fixed for `<<name>>`. */
  datatype EntityName = EntityName(name: string, fixed: bool)

  // ====================================================================
  // Placeholders: re.sub(r"(<<\w+>>)", ...) and re.sub(r"(<\w+>)", ...)
  // ====================================================================

  /** `\w`, restricted to ASCII. */
  predicate IsWordChar(c: char)
  {
    'a' <= c <= 'z' || 'A' <= c <= 'Z' || '0' <= c <= '9' || c == '_'
  }

  predicate IsWord(w: string)
  {
    |w| > 0 && forall i :: 0 <= i < |w| ==> IsWordChar(w[i])
  }

  /** The length of the run of word characters that starts `s`. */
  function WordRun(s: string): (n: nat)
    ensures n <= |s|
    ensures forall i :: 0 <= i < n ==> IsWordChar(s[i])
    ensures n < |s| ==> !IsWordChar(s[n])
  {
    if s != [] && IsWordChar(s[0]) then 1 + WordRun(s[1..]) else 0
  }

  /** The length of a match of `<<\w+>>` (`long`) or `<\w+>` at the start of `s`.
      `\w+` is greedy, and backing off cannot help: the character after a
      shorter run is a word character, never `>`. */
  function PlaceholderAt(s: string, long: bool): (r: Option<nat>)
    ensures r.Some? ==> 0 < r.value <= |s|
  {
    if long then
      if |s| >= 2 && s[0] == '<' && s[1] == '<' then
        var n := WordRun(s[2..]);
        if 0 < n && n + 4 <= |s| && s[n + 2] == '>' && s[n + 3] == '>' then Some(n + 4) else None
      else None
    else
      if |s| >= 1 && s[0] == '<' then
        var n := WordRun(s[1..]);
        if 0 < n && n + 2 <= |s| && s[n + 1] == '>' then Some(n + 2) else None
      else None
  }

  function Replacement(long: bool): string
  {
    if long then LongEntityReplace else ShortEntityReplace
  }

  /** `re.sub` of one placeholder pattern: scan left to right, replace each
      match and continue after it. */
  function Substitute(s: string, long: bool): string
    decreases |s|
  {
    if s == [] then []
    else
      match PlaceholderAt(s, long)
      case Some(n) => Replacement(long) + Substitute(s[n..], long)
      case None => [s[0]] + Substitute(s[1..], long)
  }

  /** `_interpret_entity_names`: `<<name>>` first, then `<name>`. */
  function InterpretEntityNames(expression: string): string
  {
    Substitute(Substitute(expression, true), false)
  }

  // ====================================================================
  // Entity names: re.findall(r"(<{1,2}.*?>{1,2})", expression)
  // ====================================================================

  /** The first `>` at or after `from`; `.` does not cross a newline. */
  function CloseFrom(s: string, from: nat): (r: Option<nat>)
    ensures r.Some? ==> from <= r.value < |s| && s[r.value] == '>'
    decreases |s| - from
  {
    if from >= |s| || s[from] == '\n' then None
    else if s[from] == '>' then Some(from)
    else CloseFrom(s, from + 1)
  }

  /** The length of a match of `<{1,2}.*?>{1,2}` at the start of `s`: one or
      two `<`, the shortest run up to the next `>`, then one or two `>`. When
      two `<` lead to no `>`, one `<` leads to none either. */
  function EntityTokenAt(s: string): (r: Option<nat>)
    ensures r.Some? ==> 0 < r.value <= |s|
  {
    if s != [] && s[0] == '<' then
      var open := if |s| >= 2 && s[1] == '<' then 2 else 1;
      match CloseFrom(s, open)
      case None => None
      case Some(j) => Some(if j + 1 < |s| && s[j + 1] == '>' then j + 2 else j + 1)
    else None
  }

  /** `findall`: the non-overlapping matches, left to right. */
  function EntityTokens(s: string): seq<string>
    decreases |s|
  {
    if s == [] then []
    else
      match EntityTokenAt(s)
      case Some(n) => [s[..n]] + EntityTokens(s[n..])
      case None => EntityTokens(s[1..])
  }

  /** `_parse_entity_name`: brackets stripped; `<<` makes it variable. */
  function ParseEntityName(token: string): EntityName
  {
    EntityName(StripChars(token, {'<', '>'}), !(|token| >= 2 && token[..2] == "<<"))
  }

  /** `_get_entity_names`. */
  function GetEntityNames(expression: string): seq<EntityName>
  {
    ParseAll(EntityTokens(expression))
  }

  function ParseAll(tokens: seq<string>): (names: seq<EntityName>)
    ensures |names| == |tokens|
  {
    if tokens == [] then [] else [ParseEntityName(tokens[0])] + ParseAll(tokens[1..])
  }

  // ====================================================================
  // The && operator: re.search(r"\(.*&&.*\)", expression)
  // ====================================================================

  /** The end of the line `from` is on: the first newline at or after it. */
  function LineEnd(s: string, from: nat): (e: nat)
    requires from <= |s|
    ensures from <= e <= |s|
    ensures forall k :: from <= k < e ==> s[k] != '\n'
    ensures e < |s| ==> s[e] == '\n'
    decreases |s| - from
  {
    if from == |s| || s[from] == '\n' then from else LineEnd(s, from + 1)
  }

  /** The last `)` in `s[from..end]`. */
  function LastClose(s: string, from: nat, end: nat): (r: Option<nat>)
    requires end <= |s|
    ensures r.Some? ==> from <= r.value < end && s[r.value] == ')'
    ensures r.Some? ==> (forall k :: r.value < k < end ==> s[k] != ')')
    ensures r.None? ==> (forall k :: from <= k < end ==> s[k] != ')')
    decreases end
  {
    if end <= from then None
    else if s[end - 1] == ')' then Some(end - 1)
    else LastClose(s, from, end - 1)
  }

  /** A match of `\(.*&&.*\)` starting at `i`, as the index of its closing
      parenthesis. Both `.*` are greedy and stay on one line, so the match
      ends at the last `)` of the line, provided an `&&` lies before it. */
  function AndGroupAt(s: string, i: nat): (r: Option<nat>)
    requires i < |s|
    ensures r.Some? ==> i < r.value < |s|
  {
    if s[i] == '(' then
      match LastClose(s, i + 1, LineEnd(s, i + 1))
      case Some(m) => if Find(s[i + 1..m], AndOperator).Some? then Some(m) else None
      case None => None
    else None
  }

  /** `search`: the leftmost match, as (start, closing parenthesis). */
  function AndSearch(s: string, from: nat): (r: Option<(nat, nat)>)
    ensures r.Some? ==> from <= r.value.0 < r.value.1 < |s|
    decreases |s| - from
  {
    if from >= |s| then None
    else
      match AndGroupAt(s, from)
      case Some(m) => Some((from, m))
      case None => AndSearch(s, from + 1)
  }

  /** `(?=.*(?:part))` for each part, in order. */
  function Lookaheads(parts: seq<string>): string
  {
    if parts == [] then "" else "(?=.*(?:" + parts[0] + "))" + Lookaheads(parts[1..])
  }

  /** `_interpret_and_operator`: the text between the parentheses of the
      matched group is split on `&&`; everything outside the group is dropped. */
  function InterpretAndOperator(expression: string): string
  {
    match AndSearch(expression, 0)
    case None => expression
    case Some((i, m)) => Lookaheads(Split(expression[i + 1..m], AndOperator))
  }

  /** `_get_expression_regex`: placeholders first, then `&&`. */
  function ExpressionRegex(expression: string): string
  {
    InterpretAndOperator(InterpretEntityNames(expression))
  }

  // ====================================================================
  // Templates: what compiling a well-formed expression produces
  // ====================================================================

  /** An expression read as literal text and placeholders. */
  datatype Segment = Literal(text: string) | Placeholder(name: string, variable: bool)

  function SegmentText(g: Segment): string
  {
    match g
    case Literal(t) => t
    case Placeholder(w, variable) => if variable then "<<" + w + ">>" else "<" + w + ">"
  }

  /** The expression text a template is written as. */
  function Render(t: seq<Segment>): string
  {
    if t == [] then "" else SegmentText(t[0]) + Render(t[1..])
  }

  /** The regular expression a segment stands for: its text, or the capture
      group of its kind of entity. */
  function SegmentRegex(g: Segment): string
  {
    match g
    case Literal(t) => t
    case Placeholder(_, variable) => Replacement(variable)
  }

  function Compile(t: seq<Segment>): string
  {
    if t == [] then "" else SegmentRegex(t[0]) + Compile(t[1..])
  }

  /** The entity names the placeholders declare, in order of appearance. */
  function Declared(t: seq<Segment>): seq<EntityName>
  {
    if t == [] then []
    else
      match t[0]
      case Literal(_) => Declared(t[1..])
      case Placeholder(w, variable) => [EntityName(w, !variable)] + Declared(t[1..])
  }

  /** Literal text holds no angle bracket; placeholder names are words. */
  predicate WellFormedSegment(g: Segment)
  {
    match g
    case Literal(t) => '<' !in t && '>' !in t
    case Placeholder(w, _) => IsWord(w)
  }

  predicate WellFormed(t: seq<Segment>)
  {
    forall i :: 0 <= i < |t| ==> WellFormedSegment(t[i])
  }

  lemma WellFormedTail(t: seq<Segment>)
    requires WellFormed(t) && t != []
    ensures WellFormedSegment(t[0]) && WellFormed(t[1..])
  {
    forall i | 0 <= i < |t| - 1 ensures WellFormedSegment(t[1..][i]) {
      assert t[1..][i] == t[i + 1];
    }
  }

  lemma WordHasNoBracket(w: string)
    requires IsWord(w)
    ensures '<' !in w && '>' !in w && '\n' !in w && '&' !in w
  {
    forall i | 0 <= i < |w| ensures w[i] != '<' && w[i] != '>' && w[i] != '\n' && w[i] != '&' {
      assert IsWordChar(w[i]);
    }
  }

  /** A character other than `<` is copied by a substitution pass. */
  lemma SubstituteOther(s: string, long: bool)
    requires s != [] && s[0] != '<'
    ensures Substitute(s, long) == [s[0]] + Substitute(s[1..], long)
  {
    assert PlaceholderAt(s, long) == None;
  }

  /** Text without `<` passes either substitution pass unchanged. */
  lemma {:induction false} SubstituteLiteral(lit: string, rest: string, long: bool)
    requires '<' !in lit
    ensures Substitute(lit + rest, long) == lit + Substitute(rest, long)
    decreases |lit|
  {
    if lit == [] {
      assert lit + rest == rest;
    } else {
      var s := lit + rest;
      assert s[0] == lit[0] && s[1..] == lit[1..] + rest;
      SubstituteOther(s, long);
      SubstituteLiteral(lit[1..], rest, long);
      assert lit == [lit[0]] + lit[1..];
    }
  }

  lemma WordRunOf(w: string, c: char, rest: string)
    requires IsWord(w) && !IsWordChar(c)
    ensures WordRun(w + [c] + rest) == |w|
  {
    var s := w + [c] + rest;
    assert s[|w|] == c;
    assert forall i :: 0 <= i < |w| ==> s[i] == w[i];
  }

  lemma PlaceholderAtOwn(w: string, long: bool, rest: string)
    requires IsWord(w)
    ensures PlaceholderAt(SegmentText(Placeholder(w, long)) + rest, long)
         == Some(|SegmentText(Placeholder(w, long))|)
  {
    var s := SegmentText(Placeholder(w, long)) + rest;
    if long {
      assert s[2..] == w + ['>'] + (['>'] + rest);
      WordRunOf(w, '>', ['>'] + rest);
    } else {
      assert s[1..] == w + ['>'] + rest;
      WordRunOf(w, '>', rest);
    }
  }

  /** A placeholder of the kind a pass looks for becomes that pass's group. */
  lemma SubstituteOwn(w: string, long: bool, rest: string)
    requires IsWord(w)
    ensures Substitute(SegmentText(Placeholder(w, long)) + rest, long)
         == Replacement(long) + Substitute(rest, long)
  {
    var tok := SegmentText(Placeholder(w, long));
    PlaceholderAtOwn(w, long, rest);
    assert (tok + rest)[|tok|..] == rest;
  }

  /** The `<<name>>` pass leaves `<name>` alone. */
  lemma SubstituteShortInLong(w: string, rest: string)
    requires IsWord(w)
    ensures Substitute(SegmentText(Placeholder(w, false)) + rest, true)
         == SegmentText(Placeholder(w, false)) + Substitute(rest, true)
  {
    var s := SegmentText(Placeholder(w, false)) + rest;
    assert s[1] == w[0];
    assert PlaceholderAt(s, true) == None;
    assert s[1..] == (w + ">") + rest;
    WordHasNoBracket(w);
    assert '<' !in w + ">";
    SubstituteLiteral(w + ">", rest, true);
  }

  /** The template after the `<<name>>` pass: variable placeholders became text. */
  function AfterLong(t: seq<Segment>): seq<Segment>
  {
    if t == [] then []
    else [if t[0].Placeholder? && t[0].variable then Literal(LongEntityReplace) else t[0]] + AfterLong(t[1..])
  }

  predicate NoVariable(t: seq<Segment>)
  {
    forall i :: 0 <= i < |t| ==> !(t[i].Placeholder? && t[i].variable)
  }

  lemma {:induction false} AfterLongShape(t: seq<Segment>)
    requires WellFormed(t)
    ensures |AfterLong(t)| == |t|
    ensures WellFormed(AfterLong(t)) && NoVariable(AfterLong(t))
    ensures Compile(AfterLong(t)) == Compile(t)
  {
    if t != [] {
      WellFormedTail(t);
      AfterLongShape(t[1..]);
      var a := AfterLong(t);
      assert a[1..] == AfterLong(t[1..]);
      assert forall i :: 1 <= i < |a| ==> a[i] == AfterLong(t[1..])[i - 1];
    }
  }

  lemma {:induction false} LongPass(t: seq<Segment>)
    requires WellFormed(t)
    ensures Substitute(Render(t), true) == Render(AfterLong(t))
  {
    if t != [] {
      WellFormedTail(t);
      LongPass(t[1..]);
      var rest := Render(t[1..]);
      match t[0]
      case Literal(x) =>
        SubstituteLiteral(x, rest, true);
      case Placeholder(w, v) =>
        if v {
          SubstituteOwn(w, true, rest);
        } else {
          SubstituteShortInLong(w, rest);
        }
    }
  }

  lemma {:induction false} ShortPass(t: seq<Segment>)
    requires WellFormed(t) && NoVariable(t)
    ensures Substitute(Render(t), false) == Compile(t)
  {
    if t != [] {
      WellFormedTail(t);
      assert NoVariable(t[1..]) by {
        forall i | 0 <= i < |t| - 1 ensures !(t[1..][i].Placeholder? && t[1..][i].variable) {
          assert t[1..][i] == t[i + 1];
        }
      }
      ShortPass(t[1..]);
      var rest := Render(t[1..]);
      match t[0]
      case Literal(x) =>
        SubstituteLiteral(x, rest, false);
      case Placeholder(w, v) =>
        assert !v;
        SubstituteOwn(w, false, rest);
    }
  }

  /** Placeholders compile to capture groups and nothing else changes:
      `<<name>>` to `(.*)`, `<name>` to `([a-zA-Z0-9_]*)`. */
  lemma InterpretTemplate(t: seq<Segment>)
    requires WellFormed(t)
    ensures InterpretEntityNames(Render(t)) == Compile(t)
  {
    LongPass(t);
    AfterLongShape(t);
    ShortPass(AfterLong(t));
  }

  lemma CloseFromSkip(s: string, from: nat, j: nat)
    requires from <= j < |s| && s[j] == '>'
    requires forall k :: from <= k < j ==> s[k] != '>' && s[k] != '\n'
    ensures CloseFrom(s, from) == Some(j)
    decreases j - from
  {
    if from < j {
      CloseFromSkip(s, from + 1, j);
    }
  }

  lemma {:induction false} EntityTokensLiteral(lit: string, rest: string)
    requires '<' !in lit
    ensures EntityTokens(lit + rest) == EntityTokens(rest)
    decreases |lit|
  {
    if lit == [] {
      assert lit + rest == rest;
    } else {
      var s := lit + rest;
      assert s[0] == lit[0];
      assert s[1..] == lit[1..] + rest;
      EntityTokensLiteral(lit[1..], rest);
    }
  }

  lemma EntityTokenOfPlaceholder(w: string, variable: bool, rest: string)
    requires IsWord(w)
    requires rest == [] || rest[0] != '>'
    ensures EntityTokens(SegmentText(Placeholder(w, variable)) + rest)
         == [SegmentText(Placeholder(w, variable))] + EntityTokens(rest)
  {
    var tok := SegmentText(Placeholder(w, variable));
    var s := tok + rest;
    if variable {
      EntityTokenAtLong(w, rest, s);
    } else {
      EntityTokenAtShort(w, rest, s);
    }
    assert s[..|tok|] == tok && s[|tok|..] == rest;
  }

  lemma EntityTokenAtLong(w: string, rest: string, s: string)
    requires IsWord(w) && s == "<<" + w + ">>" + rest
    ensures EntityTokenAt(s) == Some(|w| + 4)
  {
    WordHasNoBracket(w);
    assert s[0] == '<' && s[1] == '<' && s[|w| + 2] == '>' && s[|w| + 3] == '>';
    forall k | 2 <= k < 2 + |w| ensures s[k] != '>' && s[k] != '\n' {
      assert s[k] == w[k - 2];
    }
    CloseFromSkip(s, 2, 2 + |w|);
  }

  lemma EntityTokenAtShort(w: string, rest: string, s: string)
    requires IsWord(w) && s == "<" + w + ">" + rest
    requires rest == [] || rest[0] != '>'
    ensures EntityTokenAt(s) == Some(|w| + 2)
  {
    WordHasNoBracket(w);
    assert s[0] == '<' && s[1] == w[0] && s[|w| + 1] == '>';
    assert |w| + 2 < |s| ==> s[|w| + 2] == rest[0];
    forall k | 1 <= k < 1 + |w| ensures s[k] != '>' && s[k] != '\n' {
      assert s[k] == w[k - 1];
    }
    CloseFromSkip(s, 1, 1 + |w|);
  }

  lemma ParseLong(w: string)
    requires IsWord(w)
    ensures ParseEntityName("<<" + w + ">>") == EntityName(w, false)
  {
    var tok := "<<" + w + ">>";
    assert IsWordChar(w[0]) && IsWordChar(w[|w| - 1]);
    StripSurrounded("<<", w, ">>", {'<', '>'});
    assert tok[..2] == "<<";
  }

  lemma ParseShort(w: string)
    requires IsWord(w)
    ensures ParseEntityName("<" + w + ">") == EntityName(w, true)
  {
    ShortStrip(w);
    ShortKind(w);
  }

  lemma ShortStrip(w: string)
    requires IsWord(w)
    ensures StripChars("<" + w + ">", {'<', '>'}) == w
  {
    assert IsWordChar(w[0]) && IsWordChar(w[|w| - 1]);
    StripSurrounded("<", w, ">", {'<', '>'});
  }

  lemma ShortKind(w: string)
    requires IsWord(w)
    ensures var tok := "<" + w + ">"; !(|tok| >= 2 && tok[..2] == "<<")
  {
    var tok := "<" + w + ">";
    assert IsWordChar(w[0]);
    assert tok[1] == w[0];
  }

  lemma ParsePlaceholder(w: string, variable: bool)
    requires IsWord(w)
    ensures ParseEntityName(SegmentText(Placeholder(w, variable))) == EntityName(w, !variable)
  {
    if variable {
      ParseLong(w);
    } else {
      ParseShort(w);
    }
  }

  lemma EntityNamesOfPlaceholder(w: string, variable: bool, rest: string)
    requires IsWord(w)
    requires rest == [] || rest[0] != '>'
    ensures GetEntityNames(SegmentText(Placeholder(w, variable)) + rest)
         == [EntityName(w, !variable)] + GetEntityNames(rest)
  {
    var tok := SegmentText(Placeholder(w, variable));
    EntityTokenOfPlaceholder(w, variable, rest);
    ParsePlaceholder(w, variable);
    assert ([tok] + EntityTokens(rest))[1..] == EntityTokens(rest);
  }

  lemma {:induction false} RenderStart(t: seq<Segment>)
    requires WellFormed(t)
    ensures Render(t) == [] || Render(t)[0] != '>'
  {
    if t != [] {
      WellFormedTail(t);
      RenderStart(t[1..]);
      var x := SegmentText(t[0]);
      if x != [] {
        assert Render(t)[0] == x[0];
        if t[0].Placeholder? {
          assert x[0] == '<';
        } else {
          assert x[0] in x;
        }
      }
    }
  }

  /** The entity names found in a template's text are exactly the ones its
      placeholders declare, in order, with their kind. */
  lemma {:induction false} EntityNamesOfTemplate(t: seq<Segment>)
    requires WellFormed(t)
    ensures GetEntityNames(Render(t)) == Declared(t)
  {
    if t != [] {
      WellFormedTail(t);
      EntityNamesOfTemplate(t[1..]);
      var rest := Render(t[1..]);
      match t[0]
      case Literal(x) =>
        EntityTokensLiteral(x, rest);
      case Placeholder(w, v) =>
        RenderStart(t[1..]);
        EntityNamesOfPlaceholder(w, v, rest);
    }
  }

  // ====================================================================
  // The && stage
  // ====================================================================

  lemma {:induction false} AndSearchSkip(s: string, from: nat, i: nat)
    requires from <= i
    requires forall k :: from <= k < i && k < |s| ==> AndGroupAt(s, k).None?
    ensures AndSearch(s, from) == AndSearch(s, i)
    decreases i - from
  {
    if from < i && from < |s| {
      AndSearchSkip(s, from + 1, i);
    }
  }

  /** An expression without `&` passes the `&&` stage unchanged. */
  lemma AndFree(e: string)
    requires '&' !in e
    ensures InterpretAndOperator(e) == e
  {
    forall k | 0 <= k < |e| ensures AndGroupAt(e, k).None? {
      if e[k] == '(' {
        var m := LastClose(e, k + 1, LineEnd(e, k + 1));
        if m.Some? {
          var inner := e[k + 1..m.value];
          assert forall j :: 0 <= j < |inner| ==> inner[j] == e[k + 1 + j];
          FindAbsent(inner, AndOperator);
        }
      }
    }
    AndSearchSkip(e, 0, |e|);
  }

  lemma {:induction false} JoinAvoids(parts: seq<string>, sep: string, c: char)
    requires c !in sep
    requires forall i :: 0 <= i < |parts| ==> c !in parts[i]
    ensures c !in Join(parts, sep)
  {
    if |parts| > 1 {
      JoinAvoids(parts[1..], sep, c);
    }
  }

  /** The `&&` stage on an expression whose leftmost `(` opens a group that
      ends at the last `)` of its line and holds an `&&`. */
  lemma AndGroupFound(e: string, i: nat, m: nat, inner: string)
    requires i < m < |e| && e[i] == '(' && e[m] == ')' && e[i + 1..m] == inner
    requires forall k :: 0 <= k < i ==> e[k] != '('
    requires forall k :: i < k < |e| ==> e[k] != '\n'
    requires forall k :: m < k < |e| ==> e[k] != ')'
    requires Find(inner, AndOperator).Some?
    ensures InterpretAndOperator(e) == Lookaheads(Split(inner, AndOperator))
  {
    AndSearchSkip(e, 0, i);
    AndGroupAtParen(e, i, m, inner);
    assert AndSearch(e, 0) == Some((i, m));
  }

  lemma AndGroupAtParen(e: string, i: nat, m: nat, inner: string)
    requires i < m < |e| && e[i] == '(' && e[m] == ')' && e[i + 1..m] == inner
    requires forall k :: i < k < |e| ==> e[k] != '\n'
    requires forall k :: m < k < |e| ==> e[k] != ')'
    requires Find(inner, AndOperator).Some?
    ensures AndGroupAt(e, i) == Some(m)
  {
    assert LineEnd(e, i + 1) == |e|;
    assert LastClose(e, i + 1, |e|) == Some(m);
  }

  lemma AndGroupText(pre: string, inner: string, post: string, e: string)
    requires '(' !in pre && '\n' !in inner && ')' !in post && '\n' !in post
    requires Find(inner, AndOperator).Some?
    requires e == pre + "(" + inner + ")" + post
    ensures InterpretAndOperator(e) == Lookaheads(Split(inner, AndOperator))
  {
    GroupLayout(pre, inner, post, e);
    AndGroupFound(e, |pre|, |pre| + 1 + |inner|, inner);
  }

  /** A group `(a&&b&&...)` becomes one lookahead per operand, in order. The
      text around the group is dropped: the result is only the lookaheads. */
  lemma AndGroupRewrite(pre: string, parts: seq<string>, post: string)
    requires '(' !in pre
    requires |parts| >= 2
    requires forall i :: 0 <= i < |parts| ==> '&' !in parts[i] && '\n' !in parts[i]
    requires ')' !in post && '\n' !in post
    ensures InterpretAndOperator(pre + "(" + Join(parts, AndOperator) + ")" + post) == Lookaheads(parts)
  {
    var inner := Join(parts, AndOperator);
    OperandsJoined(parts);
    AndGroupText(pre, inner, post, pre + "(" + inner + ")" + post);
  }

  lemma OperandsJoined(parts: seq<string>)
    requires |parts| >= 2
    requires forall i :: 0 <= i < |parts| ==> '&' !in parts[i] && '\n' !in parts[i]
    ensures '\n' !in Join(parts, AndOperator)
    ensures Find(Join(parts, AndOperator), AndOperator).Some?
    ensures Split(Join(parts, AndOperator), AndOperator) == parts
  {
    JoinAvoids(parts, AndOperator, '\n');
    FindFirst(parts[0], AndOperator, Join(parts[1..], AndOperator));
    SplitJoin(parts, AndOperator);
  }

  lemma GroupLayout(pre: string, inner: string, post: string, e: string)
    requires '(' !in pre && '\n' !in inner && ')' !in post && '\n' !in post
    requires e == pre + "(" + inner + ")" + post
    ensures |pre| + 1 + |inner| < |e| && e[|pre|] == '(' && e[|pre| + 1 + |inner|] == ')'
    ensures e[|pre| + 1..|pre| + 1 + |inner|] == inner
    ensures forall k :: 0 <= k < |pre| ==> e[k] != '('
    ensures forall k :: |pre| < k < |e| ==> e[k] != '\n'
    ensures forall k :: |pre| + 1 + |inner| < k < |e| ==> e[k] != ')'
  {
    var i, m := |pre|, |pre| + 1 + |inner|;
    assert forall k :: 0 <= k < i ==> e[k] == pre[k];
    assert forall k :: i < k < m ==> e[k] == inner[k - i - 1];
    assert forall k :: m < k < |e| ==> e[k] == post[k - m - 1];
  }

  // ====================================================================
  // Both stages on templates joined by &&
  // ====================================================================

  function Renders(ts: seq<seq<Segment>>): (r: seq<string>)
    ensures |r| == |ts|
  {
    if ts == [] then [] else [Render(ts[0])] + Renders(ts[1..])
  }

  function Compiles(ts: seq<seq<Segment>>): (r: seq<string>)
    ensures |r| == |ts|
  {
    if ts == [] then [] else [Compile(ts[0])] + Compiles(ts[1..])
  }

  /** The templates written one after another with `&&` between them. */
  function JoinTemplates(ts: seq<seq<Segment>>): seq<Segment>
    requires |ts| >= 1
  {
    if |ts| == 1 then ts[0] else ts[0] + [Literal(AndOperator)] + JoinTemplates(ts[1..])
  }

  /** Literal text with neither `&` nor a newline. */
  predicate PlainLiterals(t: seq<Segment>)
  {
    forall i :: 0 <= i < |t| ==> t[i].Literal? ==> '&' !in t[i].text && '\n' !in t[i].text
  }

  lemma {:induction false} RenderAppend(a: seq<Segment>, b: seq<Segment>)
    ensures Render(a + b) == Render(a) + Render(b)
  {
    if a == [] {
      assert a + b == b;
    } else {
      assert (a + b)[0] == a[0];
      assert (a + b)[1..] == a[1..] + b;
      RenderAppend(a[1..], b);
      var x, y, z := SegmentText(a[0]), Render(a[1..]), Render(b);
      assert x + (y + z) == (x + y) + z;
    }
  }

  lemma {:induction false} CompileAppend(a: seq<Segment>, b: seq<Segment>)
    ensures Compile(a + b) == Compile(a) + Compile(b)
  {
    if a == [] {
      assert a + b == b;
    } else {
      assert (a + b)[0] == a[0];
      assert (a + b)[1..] == a[1..] + b;
      CompileAppend(a[1..], b);
      var x, y, z := SegmentRegex(a[0]), Compile(a[1..]), Compile(b);
      assert x + (y + z) == (x + y) + z;
    }
  }

  lemma {:induction false} WellFormedAppend(a: seq<Segment>, b: seq<Segment>)
    requires WellFormed(a) && WellFormed(b)
    ensures WellFormed(a + b)
  {
    forall i | 0 <= i < |a + b| ensures WellFormedSegment((a + b)[i]) {
      if i < |a| {
        assert (a + b)[i] == a[i];
      } else {
        assert (a + b)[i] == b[i - |a|];
      }
    }
  }

  lemma {:induction false} JoinTemplatesText(ts: seq<seq<Segment>>)
    requires |ts| >= 1
    ensures Render(JoinTemplates(ts)) == Join(Renders(ts), AndOperator)
  {
    if |ts| > 1 {
      JoinTemplatesText(ts[1..]);
      var sep := [Literal(AndOperator)];
      assert Render(sep) == AndOperator;
      RenderAppend(ts[0], sep);
      RenderAppend(ts[0] + sep, JoinTemplates(ts[1..]));
      assert Renders(ts)[1..] == Renders(ts[1..]);
    }
  }

  lemma {:induction false} JoinTemplatesRegex(ts: seq<seq<Segment>>)
    requires |ts| >= 1
    ensures Compile(JoinTemplates(ts)) == Join(Compiles(ts), AndOperator)
  {
    if |ts| > 1 {
      JoinTemplatesRegex(ts[1..]);
      var sep := [Literal(AndOperator)];
      assert Compile(sep) == AndOperator;
      CompileAppend(ts[0], sep);
      CompileAppend(ts[0] + sep, JoinTemplates(ts[1..]));
      assert Compiles(ts)[1..] == Compiles(ts[1..]);
    }
  }

  lemma {:induction false} JoinTemplatesWellFormed(ts: seq<seq<Segment>>)
    requires |ts| >= 1
    requires forall i :: 0 <= i < |ts| ==> WellFormed(ts[i])
    ensures WellFormed(JoinTemplates(ts))
  {
    if |ts| > 1 {
      assert forall i :: 0 <= i < |ts| - 1 ==> ts[1..][i] == ts[i + 1];
      JoinTemplatesWellFormed(ts[1..]);
      var sep := [Literal(AndOperator)];
      assert WellFormedSegment(sep[0]);
      WellFormedAppend(ts[0], sep);
      WellFormedAppend(ts[0] + sep, JoinTemplates(ts[1..]));
    }
  }

  lemma {:induction false} CompileAvoids(t: seq<Segment>, c: char)
    requires forall i :: 0 <= i < |t| ==> t[i].Literal? ==> c !in t[i].text
    requires c !in LongEntityReplace && c !in ShortEntityReplace
    ensures c !in Compile(t)
  {
    if t != [] {
      assert forall i :: 0 <= i < |t| - 1 ==> t[1..][i] == t[i + 1];
      CompileAvoids(t[1..], c);
    }
  }

  /** The template of `(t1&&t2&&...)`. */
  function AndTemplate(ts: seq<seq<Segment>>): seq<Segment>
    requires |ts| >= 1
  {
    [Literal("(")] + JoinTemplates(ts) + [Literal(")")]
  }

  /** A one-character literal renders and compiles to itself. */
  lemma CharLiteral(c: char)
    requires c != '<' && c != '>'
    ensures WellFormed([Literal([c])]) && Render([Literal([c])]) == [c] && Compile([Literal([c])]) == [c]
  {
    assert [c] == [c] + [];
    assert [Literal([c])][1..] == [];
  }

  lemma AndTemplateShape(ts: seq<seq<Segment>>)
    requires |ts| >= 1
    requires forall i :: 0 <= i < |ts| ==> WellFormed(ts[i])
    ensures Render(AndTemplate(ts)) == "(" + Join(Renders(ts), AndOperator) + ")"
    ensures Compile(AndTemplate(ts)) == "(" + Join(Compiles(ts), AndOperator) + ")"
    ensures WellFormed(AndTemplate(ts))
  {
    var open, close := [Literal("(")], [Literal(")")];
    JoinTemplatesText(ts);
    JoinTemplatesRegex(ts);
    JoinTemplatesWellFormed(ts);
    RenderAppend(open, JoinTemplates(ts));
    RenderAppend(open + JoinTemplates(ts), close);
    CompileAppend(open, JoinTemplates(ts));
    CompileAppend(open + JoinTemplates(ts), close);
    CharLiteral('(');
    CharLiteral(')');
    WellFormedAppend(open, JoinTemplates(ts));
    WellFormedAppend(open + JoinTemplates(ts), close);
  }

  /** The capture groups hold neither `&` nor a newline. */
  lemma ReplacementsPlain()
    ensures '&' !in LongEntityReplace && '&' !in ShortEntityReplace
    ensures '\n' !in LongEntityReplace && '\n' !in ShortEntityReplace
  {
  }

  lemma CompilePlain(t: seq<Segment>)
    requires PlainLiterals(t)
    ensures '&' !in Compile(t) && '\n' !in Compile(t)
  {
    ReplacementsPlain();
    CompileAvoids(t, '&');
    CompileAvoids(t, '\n');
  }

  lemma CompilesPlain(ts: seq<seq<Segment>>)
    requires forall i :: 0 <= i < |ts| ==> PlainLiterals(ts[i])
    ensures forall i :: 0 <= i < |ts| ==> '&' !in Compiles(ts)[i] && '\n' !in Compiles(ts)[i]
  {
    forall i | 0 <= i < |ts| ensures '&' !in Compiles(ts)[i] && '\n' !in Compiles(ts)[i] {
      CompilesAt(ts, i);
      CompilePlain(ts[i]);
    }
  }

  /** Placeholders are compiled before `&&`: a group of templates joined by
      `&&` becomes one lookahead per template, each holding that template's
      capture groups. */
  lemma AndOfTemplates(ts: seq<seq<Segment>>)
    requires |ts| >= 2
    requires forall i :: 0 <= i < |ts| ==> WellFormed(ts[i]) && PlainLiterals(ts[i])
    ensures ExpressionRegex("(" + Join(Renders(ts), AndOperator) + ")") == Lookaheads(Compiles(ts))
  {
    var parts := Compiles(ts);
    var src := "(" + Join(Renders(ts), AndOperator) + ")";
    var mid := "(" + Join(parts, AndOperator) + ")";
    AndTemplateShape(ts);
    InterpretTemplate(AndTemplate(ts));
    CompilesPlain(ts);
    AndGroupAlone(parts);
    RegexVia(src, mid);
  }

  lemma RegexVia(src: string, mid: string)
    requires InterpretEntityNames(src) == mid
    ensures ExpressionRegex(src) == InterpretAndOperator(mid)
  {
  }

  lemma AndGroupAlone(parts: seq<string>)
    requires |parts| >= 2
    requires forall i :: 0 <= i < |parts| ==> '&' !in parts[i] && '\n' !in parts[i]
    ensures InterpretAndOperator("(" + Join(parts, AndOperator) + ")") == Lookaheads(parts)
  {
    var inner := Join(parts, AndOperator);
    OperandsJoined(parts);
    var e := "(" + inner + ")";
    BareGroupLayout(inner, e);
    AndGroupFound(e, 0, |e| - 1, inner);
  }

  lemma BareGroupLayout(inner: string, e: string)
    requires e == "(" + inner + ")" && '\n' !in inner
    ensures |e| == |inner| + 2 && e[0] == '(' && e[|e| - 1] == ')' && e[1..|e| - 1] == inner
    ensures forall k :: 0 < k < |e| ==> e[k] != '\n'
  {
    forall k | 0 < k < |e| - 1 ensures e[k] == inner[k - 1] && e[k] != '\n' {
      assert e[k] == inner[k - 1];
    }
    assert e[1..|e| - 1] == inner;
  }

  lemma {:induction false} CompilesAt(ts: seq<seq<Segment>>, i: nat)
    requires i < |ts|
    ensures Compiles(ts)[i] == Compile(ts[i])
  {
    if i > 0 {
      CompilesAt(ts[1..], i - 1);
    }
  }

  // ====================================================================
  // Compiled expressions and hard entities
  // ====================================================================

  /** An `Expression`. `hardEntities` maps each hard entity name to the
      pattern of its alternatives; the empty dict stands for `None`. */
  datatype Expression = Expression(
    expression: string,
    regex: string,
    entityNames: seq<EntityName>,
    hardEntities: Dict<string, string>)

  /** A value of the `entities` argument: a list or tuple of alternatives,
      or something else. */
  datatype EntitiesValue = Alternatives(patterns: seq<string>) | Other

  predicate AllAlternatives(entities: Dict<string, EntitiesValue>)
  {
    forall i :: 0 <= i < |entities| ==> entities[i].1.Alternatives?
  }

  /** `_preprocess_hard_entities`: every value must be a list or tuple; each
      name then gets the pattern that matches any of its alternatives. */
  function PreprocessHardEntities(entities: Dict<string, EntitiesValue>): (r: Result<Dict<string, string>, Exception>)
    ensures r.Err? <==> !AllAlternatives(entities)
    ensures r.Err? ==> r.error == NlpException("Entities must be specified as tuples or lists")
    ensures r.Ok? ==> Keys(r.value) == Keys(entities)
    ensures r.Ok? ==> forall i :: 0 <= i < |entities| ==> r.value[i].1 == Join(entities[i].1.patterns, "|")
  {
    if entities == [] then Ok([])
    else if !AllAlternatives(entities) then Err(NlpException("Entities must be specified as tuples or lists"))
    else Ok(seq(|entities|, i requires 0 <= i < |entities| => (entities[i].0, Join(entities[i].1.patterns, "|"))))
  }

  /** `Expression(expression, entities)`. */
  function NewExpression(expression: string, entities: Dict<string, EntitiesValue>): (r: Result<Expression, Exception>)
    ensures r.Err? <==> !AllAlternatives(entities)
    ensures r.Ok? ==> r.value.expression == expression && Keys(r.value.hardEntities) == Keys(entities)
  {
    match PreprocessHardEntities(entities)
    case Err(x) => Err(x)
    case Ok(hard) => Ok(Expression(expression, ExpressionRegex(expression), GetEntityNames(expression), hard))
  }

  /** A well-formed template without `&` and without hard entities compiles to
      its capture-group regex and declares its placeholders. */
  lemma NewExpressionOfTemplate(t: seq<Segment>)
    requires WellFormed(t) && PlainLiterals(t)
    ensures NewExpression(Render(t), []) == Ok(Expression(Render(t), Compile(t), Declared(t), []))
  {
    InterpretTemplate(t);
    CompilePlain(t);
    AndFree(Compile(t));
    EntityNamesOfTemplate(t);
  }

  /** What a search for one pattern contributes: its whole match, if any. */
  function Found(search: Matcher, pattern: string, text: string): Option<string>
  {
    match search(pattern, text)
    case Some(m) => Some(m.whole)
    case None => None
  }

  /** The hard entities found in `text`, built up name by name. */
  function HardEntitiesFound(hard: Dict<string, string>, search: Matcher, text: string): Dict<string, string>
  {
    if hard == [] then []
    else
      var found := HardEntitiesFound(hard[..|hard| - 1], search, text);
      var (name, pattern) := hard[|hard| - 1];
      match Found(search, pattern, text)
      case Some(v) => Put(found, name, v)
      case None => found
  }

  /** Each hard entity name is bound to the whole leftmost match of its
      pattern, and is absent when the pattern does not match; no other name
      is bound. */
  lemma {:induction false} HardEntitiesBinding(hard: Dict<string, string>, search: Matcher, text: string, k: string)
    requires DistinctKeys(hard)
    ensures DistinctKeys(HardEntitiesFound(hard, search, text))
    ensures Get(HardEntitiesFound(hard, search, text), k)
         == if Get(hard, k).Some? then Found(search, Get(hard, k).value, text) else None
    decreases |hard|
  {
    if hard != [] {
      var prefix := hard[..|hard| - 1];
      var (name, pattern) := hard[|hard| - 1];
      assert hard == prefix + [(name, pattern)];
      HardEntitiesBinding(prefix, search, text, k);
      var found := HardEntitiesFound(prefix, search, text);
      GetSnoc(prefix, (name, pattern), k);
      if Found(search, pattern, text).Some? {
        PutDistinct(found, name, Found(search, pattern, text).value);
      }
      if name == k {
        assert k !in Keys(prefix) by {
          forall i | 0 <= i < |prefix| ensures Keys(prefix)[i] != k {
            assert prefix[i] == hard[i];
          }
        }
      }
    }
  }

  /** `_find_hard_entities`. */
  method FindHardEntities(e: Expression, search: Matcher, text: string) returns (result: Dict<string, string>)
    ensures result == HardEntitiesFound(e.hardEntities, search, text)
  {
    result := [];
    var i := 0;
    while i < |e.hardEntities|
      invariant 0 <= i <= |e.hardEntities|
      invariant result == HardEntitiesFound(e.hardEntities[..i], search, text)
    {
      var (name, pattern) := e.hardEntities[i];
      var found := search(pattern, text);
      if found.Some? {
        result := Put(result, name, found.value.whole);
      }
      assert e.hardEntities[..i + 1][..i] == e.hardEntities[..i];
      i := i + 1;
    }
    assert e.hardEntities[..i] == e.hardEntities;
  }

  // ====================================================================
  // Matching
  // ====================================================================

  /** An `ExpressionMatch`. */
  datatype ExpressionMatch = ExpressionMatch(
    text: string,
    entityNames: seq<EntityName>,
    entities: Dict<string, string>,
    lastEntityEnd: Option<nat>)

  function Names(names: seq<EntityName>): (r: seq<string>)
    ensures |r| == |names| && forall i :: 0 <= i < |names| ==> r[i] == names[i].name
  {
    seq(|names|, i requires 0 <= i < |names| => names[i].name)
  }

  /** `Expression.match`: `Ok(None)` when the regex finds nothing, an error
      when the number of captured groups is not the number of entity names. */
  function Match(e: Expression, search: Matcher, text: string): (r: Result<Option<ExpressionMatch>, Exception>)
    ensures r == Ok(None) <==> search(e.regex, text).None?
    ensures r.Err? <==>
      search(e.regex, text).Some? && 0 < |search(e.regex, text).value.groups| != |e.entityNames|
    ensures r.Err? ==> r.error == NlpException("Matched unexpected number of entities")
    ensures r.Ok? && r.value.Some? ==>
      var raw := search(e.regex, text).value;
      && r.value.value.text == text
      && r.value.value.entityNames == e.entityNames
      && r.value.value.lastEntityEnd == (if raw.groups == [] then None else Some(raw.lastGroupEnd))
  {
    match search(e.regex, text)
    case None => Ok(None)
    case Some(raw) =>
      if raw.groups != [] && |raw.groups| != |e.entityNames| then
        Err(NlpException("Matched unexpected number of entities"))
      else
        var placeholders := if raw.groups != [] then Update([], Zip(Names(e.entityNames), raw.groups)) else [];
        var lastEnd := if raw.groups != [] then Some(raw.lastGroupEnd) else None;
        var entities :=
          if e.hardEntities != [] then Update(placeholders, HardEntitiesFound(e.hardEntities, search, text))
          else placeholders;
        Ok(Some(ExpressionMatch(text, e.entityNames, entities, lastEnd)))
  }

  predicate DistinctNames(names: seq<EntityName>)
  {
    forall i, j :: 0 <= i < j < |names| ==> names[i].name != names[j].name
  }

  /** The entities of a match: a hard entity that is found wins; any other
      entity name holds the group captured at its position. */
  lemma MatchEntities(e: Expression, search: Matcher, text: string, i: nat)
    requires Match(e, search, text).Ok? && Match(e, search, text).value.Some?
    requires DistinctKeys(e.hardEntities) && DistinctNames(e.entityNames)
    requires i < |e.entityNames| && search(e.regex, text).value.groups != []
    ensures var m := Match(e, search, text).value.value;
      var name := e.entityNames[i].name;
      var hard := Get(HardEntitiesFound(e.hardEntities, search, text), name);
      Get(m.entities, name) == if hard.Some? then hard else Some(search(e.regex, text).value.groups[i])
  {
    var raw := search(e.regex, text).value;
    var name := e.entityNames[i].name;
    var z := Zip(Names(e.entityNames), raw.groups);
    ZipGet(Names(e.entityNames), raw.groups, i);
    FromEmpty(z, name);
    var found := HardEntitiesFound(e.hardEntities, search, text);
    HardEntitiesBinding(e.hardEntities, search, text, name);
    if Get(found, name).Some? {
      UpdateGet(Update([], z), found, name);
    } else {
      UpdateOther(Update([], z), found, name);
    }
  }

  /** A hard entity that is found is in the match whatever the groups. */
  lemma MatchHardEntity(e: Expression, search: Matcher, text: string, k: string)
    requires Match(e, search, text).Ok? && Match(e, search, text).value.Some?
    requires DistinctKeys(e.hardEntities)
    requires Get(e.hardEntities, k).Some? && Found(search, Get(e.hardEntities, k).value, text).Some?
    ensures Get(Match(e, search, text).value.value.entities, k) == Found(search, Get(e.hardEntities, k).value, text)
  {
    var raw := search(e.regex, text).value;
    var found := HardEntitiesFound(e.hardEntities, search, text);
    HardEntitiesBinding(e.hardEntities, search, text, k);
    var placeholders := if raw.groups != [] then Update([], Zip(Names(e.entityNames), raw.groups)) else [];
    UpdateGet(placeholders, found, k);
  }

  // ====================================================================
  // Completeness
  // ====================================================================

  predicate AllFixed(names: seq<EntityName>)
  {
    forall i :: 0 <= i < |names| ==> names[i].fixed
  }

  /** `ExpressionMatch.is_complete`. The last test is Python truthiness:
      an end offset of 0 counts as absent. */
  function IsComplete(m: ExpressionMatch): bool
  {
    if m.entityNames == [] then true
    else if m.entityNames[|m.entityNames| - 1].fixed then true
    else if AllFixed(m.entityNames) then true
    else m.lastEntityEnd.Some? && m.lastEntityEnd.value != 0 && m.lastEntityEnd.value < |m.text|
  }

  /** A match is complete exactly when it has no entity names, or its last
      entity name is fixed, or every name is fixed, or text remains after a
      non-zero end of the last entity. The "every name is fixed" rule never
      decides anything on its own: it implies the last name is fixed. */
  lemma CompleteRule(m: ExpressionMatch)
    ensures IsComplete(m) <==>
      || m.entityNames == []
      || m.entityNames[|m.entityNames| - 1].fixed
      || AllFixed(m.entityNames)
      || (m.lastEntityEnd.Some? && 0 < m.lastEntityEnd.value < |m.text|)
    ensures m.entityNames != [] && AllFixed(m.entityNames) ==> m.entityNames[|m.entityNames| - 1].fixed
  {
  }

  /** More transcript after the same match never makes it incomplete. */
  lemma CompleteExtends(m: ExpressionMatch, more: string)
    requires IsComplete(m)
    ensures IsComplete(m.(text := m.text + more))
  {
  }

  // ====================================================================
  // Worked examples
  // ====================================================================

  /** The module's own example: `(a&&b)` is `(?=.*(?:a))(?=.*(?:b))`. */
  lemma AndPair(a: string, b: string)
    requires '&' !in a && '\n' !in a && '&' !in b && '\n' !in b
    ensures InterpretAndOperator("(" + a + "&&" + b + ")") == "(?=.*(?:" + a + "))(?=.*(?:" + b + "))"
  {
    var parts := [a, b];
    assert parts[1..] == [b];
    var j := Join(parts, AndOperator);
    assert Join(parts[1..], AndOperator) == b;
    assert j == a + AndOperator + b;
    assert "(" + a + "&&" + b + ")" == "(" + j + ")";
    var la, lb := "(?=.*(?:" + a + "))", "(?=.*(?:" + b + "))";
    assert Lookaheads([b]) == lb + Lookaheads([]);
    assert Lookaheads(parts) == la + lb;
    assert la + lb == "(?=.*(?:" + a + "))(?=.*(?:" + b + "))";
    AndGroupAlone(parts);
  }

  /** An expression without `&&` is left alone. */
  lemma NoAndOperatorExample(e: string)
    requires e == "no and operator here"
    ensures InterpretAndOperator(e) == e
  {
    AndFree(e);
  }

  /** Text without angle brackets, `&` or newlines. */
  predicate PlainText(x: string)
  {
    '<' !in x && '>' !in x && '&' !in x && '\n' !in x
  }

  /** A template of one segment between two literals. */
  lemma Between(a: string, g: Segment, b: string)
    ensures var t := [Literal(a), g, Literal(b)];
      && Render(t) == a + SegmentText(g) + b
      && Compile(t) == a + SegmentRegex(g) + b
      && Declared(t) == (if g.Placeholder? then [EntityName(g.name, !g.variable)] else [])
  {
    var t := [Literal(a), g, Literal(b)];
    var t1 := [g, Literal(b)];
    var t2 := [Literal(b)];
    assert t[0] == Literal(a) && t[1..] == t1;
    assert t1[0] == g && t1[1..] == t2;
    assert t2[0] == Literal(b) && t2[1..] == [];
    assert Declared(t2) == [];
    assert Declared(t) == Declared(t1);
    if g.Placeholder? {
      assert Declared(t1) == [EntityName(g.name, !g.variable)] + Declared(t2);
    }
    assert Render(t2) == b + Render([]) && Render(t1) == SegmentText(g) + Render(t2) && Render(t) == a + Render(t1);
    assert b + "" == b;
    assert Render(t) == a + SegmentText(g) + b;
    assert Compile(t2) == b + Compile([]) && Compile(t1) == SegmentRegex(g) + Compile(t2) && Compile(t) == a + Compile(t1);
    assert Compile(t) == a + SegmentRegex(g) + b;
  }

  /** An expression with one placeholder between two plain texts. */
  lemma OnePlaceholder(a: string, w: string, variable: bool, b: string)
    requires PlainText(a) && PlainText(b) && IsWord(w)
    ensures var source := a + SegmentText(Placeholder(w, variable)) + b;
      NewExpression(source, [])
      == Ok(Expression(source, a + Replacement(variable) + b, [EntityName(w, !variable)], []))
  {
    var g := Placeholder(w, variable);
    var t := [Literal(a), g, Literal(b)];
    Between(a, g, b);
    assert WellFormed(t) by {
      assert WellFormedSegment(t[0]) && WellFormedSegment(t[1]) && WellFormedSegment(t[2]);
    }
    assert PlainLiterals(t);
    NewExpressionOfTemplate(t);
  }

  /** `weather in <<location>> please` compiles to `weather in (.*) please`
      with one variable entity name. */
  lemma WeatherExpression(source: string)
    requires source == "weather in <<location>> please"
    ensures NewExpression(source, [])
         == Ok(Expression(source, "weather in (.*) please", [EntityName("location", false)], []))
  {
    var a, w, b := "weather in ", "location", " please";
    WeatherParts(a, w, b);
    WeatherLayout(source, "weather in (.*) please", a, w, b);
    OnePlaceholder(a, w, true, b);
  }

  /** The test expression and its regex split around the placeholder.
      The string literals are unfolded here and in `WeatherParts`, apart
      from the compilation reasoning of `WeatherExpression`. */
  lemma WeatherLayout(source: string, regex: string, a: string, w: string, b: string)
    requires source == "weather in <<location>> please" && regex == "weather in (.*) please"
    requires a == "weather in " && w == "location" && b == " please"
    ensures source == a + SegmentText(Placeholder(w, true)) + b
    ensures regex == a + LongEntityReplace + b
  {
  }

  /** The pieces around the placeholder are plain text and a word. */
  lemma WeatherParts(a: string, w: string, b: string)
    requires a == "weather in " && w == "location" && b == " please"
    ensures PlainText(a) && PlainText(b) && IsWord(w)
  {
  }

  /** The match of the test suite ends the entity at offset 17, before the
      end of the text, so it is complete. */
  lemma WeatherMatch(e: Expression, text: string, search: Matcher)
    requires e == Expression("weather in <<location>> please", "weather in (.*) please", [EntityName("location", false)], [])
    requires text == "weather in London please"
    requires search(e.regex, text) == Some(RawMatch(text, ["London"], 17))
    ensures Match(e, search, text) == Ok(Some(ExpressionMatch(text, e.entityNames, [("location", "London")], Some(17))))
    ensures IsComplete(Match(e, search, text).value.value)
  {
    assert Names(e.entityNames) == ["location"];
    var z := Zip(["location"], ["London"]);
    assert z == [("location", "London")];
    assert Update([], z) == Update(Put([], "location", "London"), []);
  }
}
