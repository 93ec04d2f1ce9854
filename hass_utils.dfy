/** The helpers of the Home Assistant integration: regex builders for number
    words, reading a number said as a word or written as digits, the domain
    of an entity id, the entity filter, and the intent of a Home Assistant
    skill. The Home Assistant client and the configuration are given as
    data. */
module HassUtils {
  import opened Wrappers
  import opened PyRuntime
  import opened Text
  import opened OrderedDict
  import opened Expression
  import opened RegexNlp

  // ------------------------------------------------------------ number words

  /** The keys of `WORD_TO_INT`, in order: the word at index `i` means `i`. */
  function NumberWords(): (words: seq<string>)
    ensures |words| == 11
  {
    ["zero", "one", "two", "three", "four", "five", "six", "seven", "eight", "nine", "ten"]
  }

  /** `WORD_TO_INT`. */
  function WordToInt(): (d: Dict<string, int>)
    ensures Keys(d) == NumberWords()
    ensures forall i :: 0 <= i < |d| ==> d[i].1 == i
  {
    seq(|NumberWords()|, i requires 0 <= i < |NumberWords()| => (NumberWords()[i], i))
  }

  lemma NumberWordsDistinct()
    ensures forall i, j :: 0 <= i < j < |NumberWords()| ==> NumberWords()[i] != NumberWords()[j]
  {
    var w := NumberWords();
    assert w[0][0] == 'z' && w[1][0] == 'o' && w[2][0] == 't' && w[3][0] == 't' && w[4][0] == 'f';
    assert w[5][0] == 'f' && w[6][0] == 's' && w[7][0] == 's' && w[8][0] == 'e' && w[9][0] == 'n' && w[10][0] == 't';
    assert w[2][1] == 'w' && w[3][1] == 'h' && w[10][1] == 'e';
    assert w[4][1] == 'o' && w[5][1] == 'i' && w[6][1] == 'i' && w[7][1] == 'e';
  }

  /** Looking a number word up gives its index. */
  lemma WordToIntGet(i: nat)
    requires i < |NumberWords()|
    ensures Get(WordToInt(), NumberWords()[i]) == Some(i)
  {
    NumberWordsDistinct();
    var d := WordToInt();
    var r := Get(d, NumberWords()[i]);
    var j :| 0 <= j < |d| && d[j] == (NumberWords()[i], r.value);
    assert d[j].0 == NumberWords()[j];
  }

  /** No number word contains a character that is not a lower-case letter. */
  predicate Lowercase(w: string)
  {
    forall i :: 0 <= i < |w| ==> 'a' <= w[i] <= 'z'
  }

  lemma NumberWordsLowercase()
    ensures forall i :: 0 <= i < |NumberWords()| ==> Lowercase(NumberWords()[i]) && |NumberWords()[i]| > 0
  {
  }

  // ------------------------------------------------------- re_separate_word

  /** The three ways a word stands alone in a sentence: at the end, at the
      start, or between two spaces. */
  function SeparateWordAlternatives(word: string): seq<string>
  {
    [" " + word + "$", "^" + word + " ", " " + word + " "]
  }

  /** `re_separate_word`: the three alternatives joined by `|`. */
  function ReSeparateWord(word: string): (r: string)
    ensures r == Join(SeparateWordAlternatives(word), "|")
  {
    var alts := SeparateWordAlternatives(word);
    assert alts[1..][1..] == [alts[2]];
    assert Join(alts[1..], "|") == alts[1] + "|" + alts[2];
    assert Join(alts, "|") == alts[0] + "|" + (alts[1] + "|" + alts[2]);
    alts[0] + "|" + alts[1] + "|" + alts[2]
  }

  /** For a word without `|`, the pattern has exactly those three
      alternatives. */
  lemma ReSeparateWordSplits(word: string)
    requires '|' !in word
    ensures Split(ReSeparateWord(word), "|") == SeparateWordAlternatives(word)
  {
    var alts := SeparateWordAlternatives(word);
    forall i | 0 <= i < 3 ensures '|' !in alts[i] {
      assert "|"[0] == '|';
    }
    SplitJoin(alts, "|");
  }

  // ---------------------------------------------------- word_or_str_to_int

  /** `int(float(s))` for a string that is an integer literal after
      surrounding whitespace: optional sign, then digits. The value is
      exact; Python's agrees only up to magnitude 2^53. */
  function ParseInteger(s: string): (r: Option<int>)
  {
    var t := Strip(s);
    if IsDigits(t) then Some(DigitsValue(t))
    else if |t| > 1 && (t[0] == '-' || t[0] == '+') && IsDigits(t[1..]) then
      var n: int := DigitsValue(t[1..]);
      Some(if t[0] == '-' then -n else n)
    else None
  }

  /** `word_or_str_to_int`: a number, or a number word after stripping;
      anything else raises `ValueError`. */
  function WordOrStrToInt(word: string): (r: Result<int, Exception>)
    ensures r.Err? <==> ParseInteger(word).None? && Strip(word) !in NumberWords()
    ensures r.Err? ==> r.error == ValueError("Can't convert to int: " + word)
    ensures ParseInteger(word).Some? ==> r == Ok(ParseInteger(word).value)
  {
    match ParseInteger(word)
    case Some(n) => Ok(n)
    case None =>
      match Get(WordToInt(), Strip(word))
      case Some(n) => Ok(n)
      case None => Err(ValueError("Can't convert to int: " + word))
  }

  /** Digits and the minus sign are not whitespace. */
  lemma DigitNotWhitespace(c: char)
    requires IsDigit(c) || c == '-'
    ensures c !in Whitespace
  {
  }

  /** A literal that starts with a digit or a sign and ends with a digit
      has nothing to strip. */
  lemma StripDigits(s: string)
    requires |s| > 0 && (IsDigit(s[0]) || s[0] == '-') && IsDigit(s[|s| - 1])
    ensures Strip(s) == s
  {
    DigitNotWhitespace(s[0]);
    DigitNotWhitespace(s[|s| - 1]);
    StripSurrounded("", s, "", Whitespace);
    assert "" + s + "" == s;
  }

  /** Every integer a double holds exactly (magnitude at most 2^53),
      printed, reads back as itself. */
  lemma WordOrStrToIntOfInt(i: int)
    requires -0x20_0000_0000_0000 <= i <= 0x20_0000_0000_0000
    ensures WordOrStrToInt(IntToString(i)) == Ok(i)
  {
    var s := IntToString(i);
    if i >= 0 {
      assert IsDigit(s[0]) && IsDigit(s[|s| - 1]);
      StripDigits(s);
      DigitsValueOfNatToString(i);
    } else {
      var p := NatToString(-i);
      assert s == "-" + p && s[1..] == p;
      assert IsDigit(p[|p| - 1]) && s[|s| - 1] == p[|p| - 1];
      StripDigits(s);
      assert !IsDigits(s);
      DigitsValueOfNatToString(-i);
    }
  }

  /** Each number word, with any surrounding whitespace, reads as its
      value. */
  lemma WordOrStrToIntOfWord(i: nat, pre: string, post: string)
    requires i < |NumberWords()|
    requires forall k :: 0 <= k < |pre| ==> pre[k] in Whitespace
    requires forall k :: 0 <= k < |post| ==> post[k] in Whitespace
    ensures WordOrStrToInt(pre + NumberWords()[i] + post) == Ok(i)
  {
    var w := NumberWords()[i];
    NumberWordsLowercase();
    assert Lowercase(w) && |w| > 0;
    StripSurrounded(pre, w, post, Whitespace);
    assert Strip(pre + w + post) == w;
    assert !IsDigit(w[0]) && w[0] != '-' && w[0] != '+';
    assert ParseInteger(pre + w + post) == None;
    WordToIntGet(i);
  }

  lemma WordOrStrToIntOfBareWord(i: nat)
    requires i < |NumberWords()|
    ensures WordOrStrToInt(NumberWords()[i]) == Ok(i)
  {
    WordOrStrToIntOfWord(i, "", "");
    assert "" + NumberWords()[i] + "" == NumberWords()[i];
  }

  /** A digit between spaces, as the pattern of `re_separate_word` finds it,
      reads as its value. */
  lemma WordOrStrToIntOfDigit(d: nat, pre: string, post: string)
    requires d < 10
    requires forall k :: 0 <= k < |pre| ==> pre[k] in Whitespace
    requires forall k :: 0 <= k < |post| ==> post[k] in Whitespace
    ensures WordOrStrToInt(pre + [DigitChar(d)] + post) == Ok(d)
  {
    var w := [DigitChar(d)];
    StripSurrounded(pre, w, post, Whitespace);
    assert NatToString(d) == w;
    DigitsValueOfNatToString(d);
  }

  // --------------------------------------------------------- re_number_range

  /** A Python slice bound: negative counts from the end, then clamped. */
  function SliceIndex(i: int, n: nat): (r: nat)
    ensures r <= n
  {
    if i < 0 then (if i + n < 0 then 0 else i + n) else if i > n then n else i
  }

  /** `s[a:b]`. */
  function PySlice<T>(s: seq<T>, a: int, b: int): (r: seq<T>)
    ensures 0 <= a <= b <= |s| ==> r == s[a..b]
  {
    var lo, hi := SliceIndex(a, |s|), SliceIndex(b, |s|);
    if lo < hi then s[lo..hi] else []
  }

  /** The character class `[min-max]`. */
  function DigitClass(minimum: int, maximum: int): string
  {
    "[" + IntToString(minimum) + "-" + IntToString(maximum) + "]"
  }

  /** `re_number_range`: a bound of 10 or more fails the assertion. */
  function ReNumberRange(minimum: int, maximum: int): (r: Result<string, Exception>)
    ensures r.Err? <==> maximum >= 10
    ensures r.Err? ==> r.error == AssertionError("above 10 is not supported")
  {
    if maximum >= 10 then Err(AssertionError("above 10 is not supported"))
    else Ok(ReSeparateWord(DigitClass(minimum, maximum)) + "|" + Join(PySlice(NumberWords(), minimum, maximum + 1), "|"))
  }

  lemma {:induction false} JoinAppend(a: seq<string>, b: seq<string>, sep: string)
    requires |a| > 0 && |b| > 0
    ensures Join(a + b, sep) == Join(a, sep) + sep + Join(b, sep)
    decreases |a|
  {
    if |a| == 1 {
      assert (a + b)[1..] == b;
    } else {
      assert (a + b)[1..] == a[1..] + b;
      JoinAppend(a[1..], b, sep);
    }
  }

  lemma IntToStringNoBar(i: int)
    ensures '|' !in IntToString(i)
  {
    var p := NatToString(if i < 0 then -i else i);
    assert forall k :: 0 <= k < |p| ==> IsDigit(p[k]);
  }

  /** No word of the range holds a `|`. */
  lemma NumberWordsNoBar(words: seq<string>, minimum: nat, maximum: nat)
    requires minimum <= maximum < 10 && words == NumberWords()[minimum..maximum + 1]
    ensures forall k :: 0 <= k < |words| ==> "|"[0] !in words[k]
  {
    NumberWordsLowercase();
    forall k | 0 <= k < |words| ensures "|"[0] !in words[k] {
      assert words[k] == NumberWords()[minimum + k];
      assert Lowercase(words[k]);
    }
  }

  /** For `0 <= min <= max < 10` the pattern is the three standalone forms
      of the digit class, then one alternative per number word from `min`
      to `max`, in order. */
  lemma NumberRangeAlternatives(minimum: nat, maximum: nat)
    requires minimum <= maximum < 10
    ensures Split(ReNumberRange(minimum, maximum).value, "|") ==
      SeparateWordAlternatives(DigitClass(minimum, maximum)) + NumberWords()[minimum..maximum + 1]
  {
    var words := NumberWords()[minimum..maximum + 1];
    var cls := DigitClass(minimum, maximum);
    var alts := SeparateWordAlternatives(cls);
    IntToStringNoBar(minimum);
    IntToStringNoBar(maximum);
    assert '|' !in cls;
    JoinAppend(alts, words, "|");
    assert ReNumberRange(minimum, maximum).value == Join(alts + words, "|");
    NumberWordsNoBar(words, minimum, maximum);
    var all := alts + words;
    forall i | 0 <= i < |all| ensures "|"[0] !in all[i] {
      if i >= 3 {
        assert all[i] == words[i - 3];
      }
    }
    SplitJoin(all, "|");
  }

  /** Each word alternative of the range reads back as its number: the
      `k`-th word means `min + k`. */
  lemma NumberRangeWords(minimum: nat, maximum: nat, k: nat)
    requires minimum <= maximum < 10 && k <= maximum - minimum
    ensures WordOrStrToInt(NumberWords()[minimum..maximum + 1][k]) == Ok(minimum + k)
  {
    assert NumberWords()[minimum..maximum + 1][k] == NumberWords()[minimum + k];
    WordOrStrToIntOfBareWord(minimum + k);
  }

  // ------------------------------------------------------------------ domain

  /** `domain`: the entity id up to its first `.`. */
  function Domain(entityId: string): (r: string)
    ensures Find(entityId, ".") == None ==> r == entityId
    ensures Find(entityId, ".").Some? ==> r == entityId[..Find(entityId, ".").value]
  {
    Split(entityId, ".")[0]
  }

  /** The domain of `light.kitchen` is `light`, whatever follows the dot. */
  lemma DomainOf(d: string, rest: string)
    requires '.' !in d
    ensures Domain(d + "." + rest) == d
  {
    FindFirst(d, ".", rest);
    assert (d + "." + rest)[..|d|] == d;
  }

  /** An id without a dot is its own domain. */
  lemma DomainWithoutDot(entityId: string)
    requires '.' !in entityId
    ensures Domain(entityId) == entityId
  {
    FindAbsent(entityId, ".");
  }

  // --------------------------------------------------------------- irrelevant

  /** An attribute of an entity's state: a list, a string, or a value of
      some other type (its type name). */
  datatype AttrValue = AList(items: seq<string>) | AStr(s: string) | AOther(typeName: string)

  /** An entry of the Home Assistant services list. */
  datatype ServiceEntry = ServiceEntry(domain: string, services: set<string>)

  /** The filters of a Home Assistant skill. An empty set, string or dict
      stands for a filter that is absent. */
  datatype Filter = Filter(domains: set<string>, service: string, attributes: Dict<string, set<string>>)

  /** What the integration reads from Home Assistant and the configuration:
      the services, each entity's state attributes, and the configured
      entities. */
  datatype Hass = Hass(services: seq<ServiceEntry>, states: string -> Dict<string, AttrValue>, entities: seq<EntityConfig>)

  /** A configured entity: its ids and the names it is called by. */
  datatype EntityConfig = EntityConfig(ids: seq<string>, names: seq<string>)

  /** The attribute as a set: a list's elements, or a string on its own. */
  function AttrSet(a: AttrValue): set<string>
  {
    match a
    case AList(xs) => set x | x in xs
    case AStr(s) => {s}
    case AOther(_) => {}
  }

  /** The attribute `key` is a list or a string. */
  predicate Typed(state: Dict<string, AttrValue>, key: string)
  {
    Get(state, key).Some? && !Get(state, key).value.AOther?
  }

  /** The attribute named by the filter is typed and shares a value with it. */
  predicate Meets(state: Dict<string, AttrValue>, filter: (string, set<string>))
  {
    Typed(state, filter.0) && AttrSet(Get(state, filter.0).value) * filter.1 != {}
  }

  function UnexpectedAttribute(state: Dict<string, AttrValue>, key: string): Exception
  {
    var t := match Get(state, key) case None => "NoneType" case Some(a) => if a.AOther? then a.typeName else "";
    TypeError("Hass attribute " + key + " of type <class '" + t + "'> is not expected.")
  }

  /** The attribute filters in order: the first attribute of an unexpected
      type raises, the first one sharing nothing makes the entity
      irrelevant. */
  function AttrCheck(filters: Dict<string, set<string>>, state: Dict<string, AttrValue>): Result<bool, Exception>
    decreases |filters|
  {
    if filters == [] then Ok(false)
    else if !Typed(state, filters[0].0) then Err(UnexpectedAttribute(state, filters[0].0))
    else if !Meets(state, filters[0]) then Ok(true)
    else AttrCheck(filters[1..], state)
  }

  /** The attribute filters pass exactly when every attribute is typed and
      meets its filter. */
  lemma {:induction false} AttrCheckPasses(filters: Dict<string, set<string>>, state: Dict<string, AttrValue>)
    ensures AttrCheck(filters, state) == Ok(false) <==> forall i :: 0 <= i < |filters| ==> Meets(state, filters[i])
    decreases |filters|
  {
    if filters != [] {
      var rest := filters[1..];
      AttrCheckPasses(rest, state);
      assert forall i :: 1 <= i < |filters| ==> filters[i] == rest[i - 1];
    }
  }

  /** The attribute filters raise exactly when an attribute of an
      unexpected type comes before any that fails. */
  lemma {:induction false} AttrCheckRaises(filters: Dict<string, set<string>>, state: Dict<string, AttrValue>)
    ensures AttrCheck(filters, state).Err? <==> RaisesAt(filters, state)
    decreases |filters|
  {
    if filters != [] {
      var rest := filters[1..];
      AttrCheckRaises(rest, state);
      if Meets(state, filters[0]) {
        RaisesAtShift(filters, state);
      } else {
        assert RaisesAt(filters, state) <==> !Typed(state, filters[0].0) by {
          if RaisesAt(filters, state) {
            var i :| RaisesAtIndex(filters, state, i);
            assert i == 0;
          }
          if !Typed(state, filters[0].0) {
            assert RaisesAtIndex(filters, state, 0);
          }
        }
      }
    }
  }

  predicate RaisesAtIndex(filters: Dict<string, set<string>>, state: Dict<string, AttrValue>, i: int)
  {
    0 <= i < |filters| && !Typed(state, filters[i].0) && forall j :: 0 <= j < i ==> Meets(state, filters[j])
  }

  /** Some attribute of an unexpected type comes before any that fails. */
  ghost predicate RaisesAt(filters: Dict<string, set<string>>, state: Dict<string, AttrValue>)
  {
    exists i :: RaisesAtIndex(filters, state, i)
  }

  lemma RaisesAtShift(filters: Dict<string, set<string>>, state: Dict<string, AttrValue>)
    requires filters != [] && Meets(state, filters[0])
    ensures RaisesAt(filters, state) <==> RaisesAt(filters[1..], state)
  {
    var rest := filters[1..];
    if RaisesAt(rest, state) {
      var i :| RaisesAtIndex(rest, state, i);
      assert RaisesAtIndex(filters, state, i + 1) by {
        forall j | 0 <= j < i + 1 ensures Meets(state, filters[j]) {
          if j > 0 {
            assert filters[j] == rest[j - 1];
          }
        }
      }
    }
    if RaisesAt(filters, state) {
      var i :| RaisesAtIndex(filters, state, i);
      assert RaisesAtIndex(rest, state, i - 1) by {
        forall j | 0 <= j < i - 1 ensures Meets(state, rest[j]) {
          assert rest[j] == filters[j + 1];
        }
      }
    }
  }

  /** The domains whose services include `service`. */
  function DomainsWithService(services: seq<ServiceEntry>, service: string): (r: set<string>)
    ensures forall d :: d in r <==> exists e :: e in services && service in e.services && e.domain == d
  {
    set e | e in services && service in e.services :: e.domain
  }

  /** `irrelevant`. */
  function IsIrrelevant(h: Hass, entityId: string, f: Filter): Result<bool, Exception>
  {
    if f.domains != {} && f.service != "" then Err(TypeError("Can't pass both domains and service"))
    else if f.domains != {} && Domain(entityId) !in f.domains then Ok(true)
    else if f.service != "" && Domain(entityId) !in DomainsWithService(h.services, f.service) then Ok(true)
    else if f.attributes != [] then AttrCheck(f.attributes, h.states(entityId))
    else Ok(false)
  }

  /** Both a domain and a service filter raise `TypeError`. Otherwise the
      entity is relevant exactly when its domain is among the domains asked
      for, some service entry for its domain offers the service asked for,
      and each attribute asked for is typed and shares a value with the
      filter. */
  lemma IrrelevantMeaning(h: Hass, entityId: string, f: Filter)
    ensures f.domains != {} && f.service != "" ==> IsIrrelevant(h, entityId, f) == Err(TypeError("Can't pass both domains and service"))
    ensures !(f.domains != {} && f.service != "") ==>
      (IsIrrelevant(h, entityId, f) == Ok(false) <==>
        && (f.domains != {} ==> Domain(entityId) in f.domains)
        && (f.service != "" ==> exists e :: e in h.services && f.service in e.services && e.domain == Domain(entityId))
        && forall i :: 0 <= i < |f.attributes| ==> Meets(h.states(entityId), f.attributes[i]))
    ensures !(f.domains != {} && f.service != "") ==>
      (IsIrrelevant(h, entityId, f).Err? <==>
        && (f.domains != {} ==> Domain(entityId) in f.domains)
        && (f.service != "" ==> exists e :: e in h.services && f.service in e.services && e.domain == Domain(entityId))
        && RaisesAt(f.attributes, h.states(entityId)))
  {
    AttrCheckPasses(f.attributes, h.states(entityId));
    AttrCheckRaises(f.attributes, h.states(entityId));
  }

  /** `irrelevant`, step by step. */
  method Irrelevant(h: Hass, entityId: string, f: Filter) returns (r: Result<bool, Exception>)
    ensures r == IsIrrelevant(h, entityId, f)
  {
    if f.domains != {} && f.service != "" {
      return Err(TypeError("Can't pass both domains and service"));
    }
    if f.domains != {} && Domain(entityId) !in f.domains {
      return Ok(true);
    }
    if f.service != "" {
      var withService := DomainsWithService(h.services, f.service);
      if Domain(entityId) !in withService {
        return Ok(true);
      }
    }
    if f.attributes != [] {
      var state := h.states(entityId);
      var i := 0;
      assert f.attributes[0..] == f.attributes;
      while i < |f.attributes|
        invariant 0 <= i <= |f.attributes|
        invariant AttrCheck(f.attributes, state) == AttrCheck(f.attributes[i..], state)
      {
        var (key, value) := f.attributes[i];
        assert f.attributes[i..][0] == (key, value) && f.attributes[i..][1..] == f.attributes[i + 1..];
        var attr := Get(state, key);
        if attr.None? || attr.value.AOther? {
          return Err(UnexpectedAttribute(state, key));
        }
        if AttrSet(attr.value) * value == {} {
          return Ok(true);
        }
        i := i + 1;
      }
    }
    return Ok(false);
  }

  // --------------------------------------------- get_friendly_names_with_filter

  /** The check `irrelevant` makes of each id, for a fixed filter. */
  type Check = string -> Result<bool, Exception>

  function CheckOf(h: Hass, f: Filter): (c: Check)
    ensures forall id :: c(id) == IsIrrelevant(h, id, f)
  {
    id => IsIrrelevant(h, id, f)
  }

  /** Id `j` of configured entity `k` is checked before id `jj` of entity
      `kk`. */
  predicate Before(items: seq<EntityConfig>, k: int, j: int, kk: int, jj: int)
  {
    0 <= k < |items| && 0 <= j < |items[k].ids| && (k < kk || (k == kk && j < jj))
  }

  /** Every id checked before (`kk`, `jj`) passed the check without error. */
  ghost predicate AllChecked(check: Check, items: seq<EntityConfig>, kk: int, jj: int)
  {
    forall k, j :: Before(items, k, j, kk, jj) ==> check(items[k].ids[j]).Ok?
  }

  /** `n` is a name of an entity with a relevant id checked before
      (`kk`, `jj`). */
  ghost predicate Named(check: Check, items: seq<EntityConfig>, kk: int, jj: int, n: string)
  {
    exists k, j :: Before(items, k, j, kk, jj) && check(items[k].ids[j]) == Ok(false) && n in items[k].names
  }

  /** The names of the entities with a relevant id, each once, after every
      id passed the check. */
  ghost predicate FriendlyListing(h: Hass, f: Filter, names: seq<string>)
  {
    var check := CheckOf(h, f);
    && AllChecked(check, h.entities, |h.entities|, 0)
    && (forall i, j :: 0 <= i < j < |names| ==> names[i] != names[j])
    && (forall n :: n in names <==> Named(check, h.entities, |h.entities|, 0, n))
  }

  lemma NamedStep(check: Check, items: seq<EntityConfig>, k: int, j: int, n: string)
    requires 0 <= k < |items| && 0 <= j < |items[k].ids|
    ensures Named(check, items, k, j + 1, n) <==>
      Named(check, items, k, j, n) || (check(items[k].ids[j]) == Ok(false) && n in items[k].names)
  {
    if check(items[k].ids[j]) == Ok(false) && n in items[k].names {
      assert Before(items, k, j, k, j + 1);
    }
    if Named(check, items, k, j, n) {
      var k', j' :| Before(items, k', j', k, j) && check(items[k'].ids[j']) == Ok(false) && n in items[k'].names;
      assert Before(items, k', j', k, j + 1);
    }
  }

  lemma CheckedStep(check: Check, items: seq<EntityConfig>, k: int, j: int)
    requires 0 <= k < |items| && 0 <= j < |items[k].ids|
    ensures AllChecked(check, items, k, j + 1) <==> AllChecked(check, items, k, j) && check(items[k].ids[j]).Ok?
  {
    assert Before(items, k, j, k, j + 1);
  }

  lemma NamedNext(check: Check, items: seq<EntityConfig>, k: int)
    requires 0 <= k < |items|
    ensures forall n :: Named(check, items, k, |items[k].ids|, n) <==> Named(check, items, k + 1, 0, n)
    ensures AllChecked(check, items, k, |items[k].ids|) <==> AllChecked(check, items, k + 1, 0)
  {
    assert forall k', j' :: Before(items, k', j', k, |items[k].ids|) <==> Before(items, k', j', k + 1, 0);
  }

  /** The ids of entity `k`, in order: the names of the entity join the
      result once one of its ids is relevant; an id whose check raises
      stops the search. */
  method CheckIds(h: Hass, f: Filter, k: int, result: set<string>) returns (r: Result<set<string>, Exception>)
    requires 0 <= k < |h.entities|
    requires AllChecked(CheckOf(h, f), h.entities, k, 0)
    requires forall n :: n in result <==> Named(CheckOf(h, f), h.entities, k, 0, n)
    ensures r.Ok? ==> AllChecked(CheckOf(h, f), h.entities, k + 1, 0)
    ensures r.Ok? ==> forall n :: n in r.value <==> Named(CheckOf(h, f), h.entities, k + 1, 0, n)
    ensures r.Err? ==>
      exists j ::
        && 0 <= j < |h.entities[k].ids|
        && AllChecked(CheckOf(h, f), h.entities, k, j) && IsIrrelevant(h, h.entities[k].ids[j], f) == Err(r.error)
  {
    ghost var check := CheckOf(h, f);
    var items := h.entities;
    var names := result;
    var j := 0;
    while j < |items[k].ids|
      invariant 0 <= j <= |items[k].ids|
      invariant AllChecked(check, items, k, j)
      invariant forall n :: n in names <==> Named(check, items, k, j, n)
    {
      var irrelevant := Irrelevant(h, items[k].ids[j], f);
      CheckedStep(check, items, k, j);
      if irrelevant.Err? {
        return Err(irrelevant.error);
      }
      forall n {
        NamedStep(check, items, k, j, n);
      }
      if !irrelevant.value {
        names := names + set n | n in items[k].names;
      }
      j := j + 1;
    }
    NamedNext(check, items, k);
    return Ok(names);
  }

  /** `get_friendly_names_with_filter`: the names of the configured
      entities that have at least one relevant id, in the arbitrary order of
      a Python set; the first id whose check raises stops the search. */
  method GetFriendlyNamesWithFilter(h: Hass, f: Filter) returns (r: Result<seq<string>, Exception>)
    ensures r.Ok? ==> FriendlyListing(h, f, r.value)
    ensures r.Err? ==>
      exists k, j ::
        && 0 <= k < |h.entities| && 0 <= j < |h.entities[k].ids|
        && AllChecked(CheckOf(h, f), h.entities, k, j) && IsIrrelevant(h, h.entities[k].ids[j], f) == Err(r.error)
  {
    var result: set<string> := {};
    var k := 0;
    while k < |h.entities|
      invariant 0 <= k <= |h.entities|
      invariant AllChecked(CheckOf(h, f), h.entities, k, 0)
      invariant forall n :: n in result <==> Named(CheckOf(h, f), h.entities, k, 0, n)
    {
      var next := CheckIds(h, f, k, result);
      if next.Err? {
        return Err(next.error);
      }
      result := next.value;
      k := k + 1;
    }
    var names := ListOf(result);
    return Ok(names);
  }

  /** `list(s)`: the elements of a set, each once, in an order the model
      leaves open. */
  method ListOf(s: set<string>) returns (names: seq<string>)
    ensures forall n :: n in names <==> n in s
    ensures forall i, j :: 0 <= i < j < |names| ==> names[i] != names[j]
  {
    names := [];
    var left := s;
    while left != {}
      invariant forall n :: n in s <==> n in names || n in left
      invariant forall n :: n in names ==> n !in left
      invariant forall i, j :: 0 <= i < j < |names| ==> names[i] != names[j]
      decreases |left|
    {
      var x :| x in left;
      names := names + [x];
      left := left - {x};
    }
  }

  // --------------------------------------------------------------- get_intent

  /** A Home Assistant skill: its name, entity filters, the regex of what it
      does, and extra hard entities (empty for none). */
  datatype HassSkill = HassSkill(name: string, filter: Filter, skillRegex: string, nlpEntities: Dict<string, seq<string>>)

  const EntityNameKey: string := "hass_entity_name"

  /** The expression of the intent: the skill's regex and one of the
      entity names, in either order. */
  function IntentExpression(skillRegex: string, names: seq<string>): string
  {
    "(" + skillRegex + AndOperator + Join(names, "|") + ")"
  }

  function AsAlternatives(d: Dict<string, seq<string>>): (r: Dict<string, EntitiesValue>)
    ensures Keys(r) == Keys(d) && AllAlternatives(r)
    ensures forall i :: 0 <= i < |d| ==> r[i].1 == Alternatives(d[i].1)
  {
    seq(|d|, i requires 0 <= i < |d| => (d[i].0, Alternatives(d[i].1)))
  }

  /** The entities of the intent: the entity names as a hard entity,
      updated with the skill's own. */
  function IntentEntities(names: seq<string>, nlpEntities: Dict<string, seq<string>>): Dict<string, EntitiesValue>
  {
    var base := [(EntityNameKey, Alternatives(names))];
    if nlpEntities == [] then base else Update(base, AsAlternatives(nlpEntities))
  }

  /** The intent `get_intent` returns once the friendly names are listed. */
  function IntentOf(skill: HassSkill, names: seq<string>): Result<RegexIntent, Exception>
  {
    NewRegexIntent(skill.name, [IntentExpression(skill.skillRegex, names)], IntentEntities(names, skill.nlpEntities))
  }

  lemma {:induction false} UpdateAlternatives(d: Dict<string, EntitiesValue>, e: Dict<string, EntitiesValue>)
    requires AllAlternatives(d) && AllAlternatives(e)
    ensures AllAlternatives(Update(d, e))
    decreases |e|
  {
    if e != [] {
      var d' := Put(d, e[0].0, e[0].1);
      forall i | 0 <= i < |d'| ensures d'[i].1.Alternatives? {
        assert (d'[i].0, d'[i].1) in d';
        var v := Get(d', d'[i].0);
        if d'[i].0 == e[0].0 {
          assert v == Some(e[0].1);
        }
        AssignIn(d, e[0].0, e[0].1, i);
      }
      UpdateAlternatives(d', e[1..]);
    }
  }

  /** A pair of an assigned dict is the new pair or an old one. */
  lemma {:induction false} AssignIn<K(!new), V>(d: Dict<K, V>, k: K, v: V, i: nat)
    requires i < |Assign(d, k, v)|
    ensures Assign(d, k, v)[i] == (k, v) || Assign(d, k, v)[i] in d
    decreases |d|
  {
    if d != [] && d[0].0 != k && i > 0 {
      AssignIn(d[1..], k, v, i - 1);
    }
  }

  /** `get_intent` always builds an intent: it is named after the skill and
      has one expression, whose hard entities are the entity names and the
      skill's own entities. */
  lemma IntentOfShape(skill: HassSkill, names: seq<string>)
    ensures IntentOf(skill, names).Ok?
    ensures var i := IntentOf(skill, names).value;
      && i.name == skill.name && |i.expressions| == 1
      && i.expressions[0].expression == IntentExpression(skill.skillRegex, names)
      && (skill.nlpEntities == [] ==> Keys(i.expressions[0].hardEntities) == [EntityNameKey])
      && (EntityNameKey in Keys(i.expressions[0].hardEntities))
  {
    var base := [(EntityNameKey, Alternatives(names))];
    var entities := IntentEntities(names, skill.nlpEntities);
    assert Keys(base) == [EntityNameKey];
    if skill.nlpEntities != [] {
      UpdateAlternatives(base, AsAlternatives(skill.nlpEntities));
      UpdateKeys(base, AsAlternatives(skill.nlpEntities));
      assert Keys(entities)[..1] == [EntityNameKey];
      assert Keys(entities)[0] == EntityNameKey;
    }
    assert NewExpression(IntentExpression(skill.skillRegex, names), entities).Ok?;
  }

  /** When the skill's regex and the entity names are plain text, the
      expression of the intent compiles to two lookaheads, one for the
      skill's regex and one for the names, so they may come in either
      order. */
  lemma IntentRegex(skillRegex: string, names: seq<string>)
    requires PlainText(skillRegex) && forall k :: 0 <= k < |names| ==> PlainText(names[k])
    ensures ExpressionRegex(IntentExpression(skillRegex, names)) ==
      "(?=.*(?:" + skillRegex + "))(?=.*(?:" + Join(names, "|") + "))"
  {
    JoinedPlain(names);
    PlainPairRegex(skillRegex, Join(names, "|"));
  }

  /** Plain names joined by `|` are plain text. */
  lemma JoinedPlain(names: seq<string>)
    requires forall k :: 0 <= k < |names| ==> PlainText(names[k])
    ensures PlainText(Join(names, "|"))
  {
    JoinAvoids(names, "|", '<');
    JoinAvoids(names, "|", '>');
    JoinAvoids(names, "|", '&');
    JoinAvoids(names, "|", '\n');
  }

  /** Two plain texts joined by `&&` in a group compile to a lookahead
      each. */
  lemma PlainPairRegex(a: string, b: string)
    requires PlainText(a) && PlainText(b)
    ensures ExpressionRegex("(" + a + AndOperator + b + ")") == "(?=.*(?:" + a + "))(?=.*(?:" + b + "))"
  {
    var source := "(" + a + "&&" + b + ")";
    assert '<' !in source by {
      assert forall c :: c in "&&" ==> c == '&';
      assert forall c :: c in source ==> c in "(" || c in a || c in "&&" || c in b || c in ")";
    }
    NoPlaceholders(source);
    RegexVia(source, source);
    AndPair(a, b);
  }

  /** Text without `<` has no placeholder to substitute. */
  lemma NoPlaceholders(source: string)
    requires '<' !in source
    ensures InterpretEntityNames(source) == source
  {
    SubstituteLiteral(source, "", true);
    SubstituteLiteral(source, "", false);
    assert source + "" == source;
  }

  /** `HassSkill.get_intent`: the intent over the friendly names of the
      entities that pass the skill's filters. */
  method GetIntent(skill: HassSkill, h: Hass) returns (r: Result<RegexIntent, Exception>)
    ensures r.Ok? ==> exists names :: FriendlyListing(h, skill.filter, names) && Ok(r.value) == IntentOf(skill, names)
    ensures r.Err? ==>
      exists k, j ::
        && 0 <= k < |h.entities| && 0 <= j < |h.entities[k].ids|
        && IsIrrelevant(h, h.entities[k].ids[j], skill.filter) == Err(r.error)
  {
    var names := GetFriendlyNamesWithFilter(h, skill.filter);
    if names.Err? {
      return Err(names.error);
    }
    IntentOfShape(skill, names.value);
    r := IntentOf(skill, names.value);
  }
}
