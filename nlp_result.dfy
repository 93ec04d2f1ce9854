/** The result type of the older skill layer: the skill function a
    transcript calls for, the entities found, and whether the transcript
    says enough. Results are compared and hashed through a key. */
module LegacyResult {
  import opened Wrappers
  import opened PyRuntime
  import opened Text
  import opened OrderedDict

  datatype NlpResult = NlpResult(skillFunc: Callable, entities: Dict<string, string>, isComplete: bool)

  /** The entity items in insertion order, the skill function and the
      completeness flag. */
  type ResultKey = (seq<(string, string)>, Callable, bool)

  /** `_key`. */
  function Key(r: NlpResult): (k: ResultKey)
    ensures k.0 == r.entities && k.1 == r.skillFunc && k.2 == r.isComplete
  {
    (r.entities, r.skillFunc, r.isComplete)
  }

  /** `__eq__`. */
  predicate Eq(a: NlpResult, b: NlpResult)
  {
    Key(a) == Key(b)
  }

  /** `__hash__`: Python's `hash` of the key, which this model leaves as a
      parameter. */
  function Hash(r: NlpResult, hash: ResultKey -> int): int
  {
    hash(Key(r))
  }

  /** The key holds every field, so two results are equal exactly when they
      agree field by field; equality is therefore reflexive, symmetric and
      transitive. */
  lemma EqIsIdentity(a: NlpResult, b: NlpResult)
    ensures Eq(a, b) <==> a == b
  {
  }

  /** Equal results hash alike, whatever the hash of keys. */
  lemma EqualHash(a: NlpResult, b: NlpResult, hash: ResultKey -> int)
    requires Eq(a, b)
    ensures Hash(a, hash) == Hash(b, hash)
  {
  }

  /** Unlike dict equality, the key sees the order of the entities: the same
      two entities found in the other order make a different result. */
  lemma EntityOrderMatters(f: Callable, x: string, u: string, y: string, v: string, complete: bool)
    requires x != y
    ensures var a := NlpResult(f, [(x, u), (y, v)], complete);
      var b := NlpResult(f, [(y, v), (x, u)], complete);
      SameItems(a.entities, b.entities) && !Eq(a, b)
  {
    var d, e := [(x, u), (y, v)], [(y, v), (x, u)];
    assert d[1..] == [(y, v)] && e[1..] == [(x, u)];
    assert Get(d, x) == Some(u) && Get(e, x) == Some(u);
    assert Get(d, y) == Some(v) && Get(e, y) == Some(v);
    assert d[0] != e[0];
  }

  // ------------------------------------------------------------------ __str__

  /** `repr` of a string, for strings without quotes, backslashes or
      unprintable characters. */
  function Quote(s: string): string
  {
    "'" + s + "'"
  }

  function ItemsRepr(d: Dict<string, string>): string
  {
    if d == [] then ""
    else
      var item := Quote(d[0].0) + ": " + Quote(d[0].1);
      if |d| == 1 then item else item + ", " + ItemsRepr(d[1..])
  }

  /** `repr` of a dict of strings, in insertion order. */
  function DictRepr(d: Dict<string, string>): string
  {
    "{" + ItemsRepr(d) + "}"
  }

  function BoolRepr(b: bool): string
  {
    if b then "True" else "False"
  }

  const Rule: string := Repeat('_', 20)

  /** The six lines of `__str__`. */
  function StrLines(r: NlpResult): (lines: seq<string>)
    ensures |lines| == 6 && lines[0] == lines[5] == Rule
  {
    [Rule,
     "NLP Result:",
     "skill:    " + r.skillFunc.name,
     "entities: " + DictRepr(r.entities),
     "complete: " + BoolRepr(r.isComplete),
     Rule]
  }

  /** `__str__`. */
  function Str(r: NlpResult): string
  {
    Join(StrLines(r), "\n")
  }

  predicate NoNewline(s: string)
  {
    '\n' !in s
  }

  predicate PlainEntities(d: Dict<string, string>)
  {
    forall i :: 0 <= i < |d| ==> NoNewline(d[i].0) && NoNewline(d[i].1)
  }

  lemma {:induction false} ItemsReprPlain(d: Dict<string, string>)
    requires PlainEntities(d)
    ensures NoNewline(ItemsRepr(d))
    decreases |d|
  {
    if d != [] {
      assert NoNewline(d[0].0) && NoNewline(d[0].1);
      if |d| > 1 {
        assert forall i :: 0 <= i < |d| - 1 ==> d[1..][i] == d[i + 1];
        ItemsReprPlain(d[1..]);
      }
    }
  }

  /** Splitting the text of a result at newlines gives back its six lines,
      rule first and last, when no name or entity holds a newline. */
  lemma StrSplits(r: NlpResult)
    requires NoNewline(r.skillFunc.name) && PlainEntities(r.entities)
    ensures Split(Str(r), "\n") == StrLines(r)
    ensures Split(Str(r), "\n")[0] == Rule && Split(Str(r), "\n")[5] == Rule
    ensures Split(Str(r), "\n")[2] == "skill:    " + r.skillFunc.name
  {
    var lines := StrLines(r);
    ItemsReprPlain(r.entities);
    assert NoNewline(Rule);
    assert NoNewline(lines[1]);
    assert NoNewline(lines[2]);
    assert NoNewline(lines[3]);
    assert NoNewline(BoolRepr(r.isComplete));
    assert NoNewline(lines[4]);
    SplitJoin(lines, "\n");
  }
}
