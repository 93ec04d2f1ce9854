/** The small data structures of the assistant: a dict whose keys read and
    write as attributes, and a FIFO queue that, while its size limit is on,
    keeps a rolling window of the latest elements. */
module DataStruct {
  import opened Wrappers
  import opened PyRuntime
  import opened OrderedDict

  // ---------------------------------------------------------------- DottedDict

  /** A value stored in a dict: a nested dict (`dotted` when it is a
      `DottedDict`), a list, or any other value. */
  datatype Value =
    | Atom(text: string)
    | Mapping(items: Dict<string, Value>, dotted: bool)
    | List(elems: seq<Value>)

  /** `DottedDict(v)` for a dict `v`: a dotted copy holding the same pairs;
      any other value as it is. */
  function Wrap(v: Value): (r: Value)
    ensures v.Mapping? ==> r == Mapping(v.items, true)
    ensures !v.Mapping? ==> r == v
  {
    if v.Mapping? then Mapping(v.items, true) else v
  }

  /** What an attribute read returns for the stored value `v`: a dict is
      wrapped, and so is every dict element of a list. */
  function Attr(v: Value): (r: Value)
    ensures r.List? <==> v.List?
    ensures v.List? ==> |r.elems| == |v.elems|
  {
    match v
    case List(es) => List(seq(|es|, i requires 0 <= i < |es| => Wrap(es[i])))
    case _ => Wrap(v)
  }

  /** Python's view of a value with the `DottedDict` class forgotten at
      every depth: `DottedDict(d) == d` holds for every dict `d`. */
  function Erased(v: Value): Value
    decreases v
  {
    match v
    case Atom(_) => v
    case Mapping(items, _) =>
      Mapping(seq(|items|, i requires 0 <= i < |items| => (items[i].0, Erased(items[i].1))), false)
    case List(es) => List(seq(|es|, i requires 0 <= i < |es| => Erased(es[i])))
  }

  /** A value read as an attribute: a dict is dotted, and the dict elements
      of a list are. */
  predicate DottedAtTop(v: Value)
  {
    && (v.Mapping? ==> v.dotted)
    && (v.List? ==> forall i :: 0 <= i < |v.elems| ==> v.elems[i].Mapping? ==> v.elems[i].dotted)
  }

  lemma WrapErased(v: Value)
    ensures Erased(Wrap(v)) == Erased(v)
  {
  }

  /** An attribute read gives the stored value back, equal to it in
      Python's sense, with the dicts it reaches first made dotted; other
      values, and the non-dict elements of a list, come back as they are. */
  lemma AttrKeepsValue(v: Value)
    ensures Erased(Attr(v)) == Erased(v)
    ensures DottedAtTop(Attr(v))
    ensures v.Atom? ==> Attr(v) == v
    ensures v.List? ==> forall i :: 0 <= i < |v.elems| ==> !v.elems[i].Mapping? ==> Attr(v).elems[i] == v.elems[i]
  {
    if v.List? {
      var es := v.elems;
      var r := Attr(v).elems;
      forall i | 0 <= i < |es| ensures Erased(r[i]) == Erased(es[i]) {
        WrapErased(es[i]);
      }
    }
  }

  /** Reading an attribute of what a read returned wraps nothing more. */
  lemma AttrIdempotent(v: Value)
    ensures Attr(Attr(v)) == Attr(v)
  {
    if v.List? {
      var r := Attr(v).elems;
      assert forall i :: 0 <= i < |r| ==> Wrap(r[i]) == r[i];
    }
  }

  /** The names an instance finds on its class before `__getattr__` is
      consulted: the methods of `dict` and the special names that `dict`,
      `object` and a subclass defined in Python carry (as of Python 3.9).
      Reading one of these as an attribute never reaches the stored items. */
  predicate ClassAttribute(name: string)
  {
    || name in {"clear", "copy", "fromkeys", "get", "items", "keys", "pop",
                "popitem", "setdefault", "update", "values"}
    || name in {"__class__", "__class_getitem__", "__contains__", "__delattr__",
                "__delitem__", "__dict__", "__dir__", "__doc__", "__eq__",
                "__format__", "__ge__", "__getattr__", "__getattribute__",
                "__getitem__", "__gt__", "__hash__", "__init__",
                "__init_subclass__", "__ior__", "__iter__", "__le__", "__len__",
                "__lt__", "__module__", "__ne__", "__new__", "__or__",
                "__reduce__", "__reduce_ex__", "__repr__", "__reversed__",
                "__ror__", "__setattr__", "__setitem__", "__sizeof__",
                "__str__", "__subclasshook__", "__weakref__"}
  }

  /** What `d.name` evaluates to: a stored value, or a member of the class,
      such as the bound method `d.keys`. */
  datatype Attribute = Item(value: Value) | ClassMember(name: string)

  /** A dict whose keys are also read and written as attributes. */
  class DottedDict {
    var items: Dict<string, Value>

    constructor(items: Dict<string, Value>)
      ensures this.items == items
    {
      this.items := items;
    }

    /** `__getattr__`: the value under `key` as `Attr` gives it; a missing
        key raises `AttributeError` wrapping the `KeyError`. */
    function GetAttr(key: string): (r: Result<Value, Exception>)
      reads this
      ensures r.Err? <==> key !in Keys(items)
      ensures r.Err? ==> r.error == AttributeErrorOfKeyError(key)
      ensures r.Ok? ==> Erased(r.value) == Erased(Get(items, key).value) && DottedAtTop(r.value)
    {
      match Get(items, key)
      case None => Err(AttributeErrorOfKeyError(key))
      case Some(v) => AttrKeepsValue(v); Ok(Attr(v))
    }

    /** `d.key`: a name the class carries is found there first, whatever
        the items hold; any other name falls through to `__getattr__`. */
    function ReadAttr(key: string): (r: Result<Attribute, Exception>)
      reads this
      ensures ClassAttribute(key) ==> r == Ok(ClassMember(key))
      ensures !ClassAttribute(key) ==> (r.Err? <==> key !in Keys(items))
      ensures !ClassAttribute(key) && r.Ok? ==>
        r.value.Item? && Erased(r.value.value) == Erased(Get(items, key).value) && DottedAtTop(r.value.value)
    {
      if ClassAttribute(key) then Ok(ClassMember(key))
      else
        match GetAttr(key)
        case Ok(v) => Ok(Item(v))
        case Err(e) => Err(e)
    }

    /** `__setattr__`: `d.key = value` stores `value` under `key`, as
        `d[key] = value` would, for every name, a class one included; every
        other key keeps its value. Reading `d.key` back gives the wrapped
        value, except for a name of the class, which still reads as the
        class member. */
    method SetAttr(key: string, value: Value)
      modifies this
      ensures items == Put(old(items), key, value)
      ensures GetAttr(key) == Ok(Attr(value))
      ensures !ClassAttribute(key) ==> ReadAttr(key) == Ok(Item(Attr(value)))
      ensures ClassAttribute(key) ==> ReadAttr(key) == old(ReadAttr(key))
      ensures forall k :: k != key ==> GetAttr(k) == old(GetAttr(k)) && ReadAttr(k) == old(ReadAttr(k))
    {
      items := Put(items, key, value);
    }
  }

  // -------------------------------------------------------- RollingWindowQueue

  /** The fields of a `RollingWindowQueue`: `size`, the counter
      `_current_size`, the elements of `_buffer` oldest first, and
      `_size_limit_enabled`. */
  datatype QueueState<T> = QueueState(size: int, counter: int, buffer: seq<T>, limited: bool)

  /** The most elements a limited queue holds: `size`, or none for a
      negative size. */
  function Capacity(size: int): nat
  {
    if size < 0 then 0 else size
  }

  /** `RollingWindowQueue(size)`. */
  function Initial<T>(size: int): (q: QueueState<T>)
    ensures q.size == size && q.buffer == [] && q.counter == 0 && q.limited
  {
    QueueState(size, 0, [], true)
  }

  /** `disable_size_limit`. */
  function Unlimited<T>(q: QueueState<T>): (r: QueueState<T>)
    ensures !r.limited && r.buffer == q.buffer && r.counter == q.counter && r.size == q.size
  {
    q.(limited := false)
  }

  /** `put`: the element joins the buffer and the counter grows by one;
      then, while the limit is on and the counter exceeds `size`, the
      oldest element is dropped. The counter is not decremented for it. */
  function Pushed<T>(q: QueueState<T>, e: T): (r: QueueState<T>)
    ensures r.size == q.size && r.limited == q.limited && r.counter == q.counter + 1
  {
    var b := q.buffer + [e];
    QueueState(q.size, q.counter + 1, if q.limited && q.counter + 1 > q.size then b[1..] else b, q.limited)
  }

  /** `get(block=False)`: the counter shrinks by one, then the oldest
      element is taken, or `queue.Empty` is raised. */
  function Popped<T>(q: QueueState<T>): (r: (QueueState<T>, Result<T, Exception>))
    ensures r.0.size == q.size && r.0.limited == q.limited && r.0.counter == q.counter - 1
  {
    var q' := q.(counter := q.counter - 1);
    if q.buffer == [] then (q', Err(QueueEmpty)) else (q'.(buffer := q.buffer[1..]), Ok(q.buffer[0]))
  }

  /** The counter bounds the buffer length, and a limited queue holds no
      more than `size` elements. */
  predicate Sound<T>(q: QueueState<T>)
  {
    |q.buffer| <= q.counter && (q.limited ==> |q.buffer| <= Capacity(q.size))
  }

  lemma InitialSound<T>(size: int)
    ensures Sound(Initial<T>(size))
  {
  }

  /** `put` drops at most the oldest element, exactly when the limit is on
      and the counter exceeds `size`, and keeps the buffer sound; the
      element just put is dropped only from an empty limited buffer. */
  lemma PushedWindow<T>(q: QueueState<T>, e: T)
    ensures var r := Pushed(q, e);
      && (q.limited && q.counter + 1 > q.size ==> r.buffer == (q.buffer + [e])[1..])
      && (!(q.limited && q.counter + 1 > q.size) ==> r.buffer == q.buffer + [e])
      && (r.buffer != [] ==> r.buffer[|r.buffer| - 1] == e)
    ensures Pushed(q, e).buffer == [] ==> q.buffer == [] && q.limited
    ensures Sound(q) ==> Sound(Pushed(q, e))
  {
  }

  /** `get` is first in, first out: it takes the oldest element, or raises
      `queue.Empty` and leaves the buffer alone. */
  lemma PoppedOldest<T>(q: QueueState<T>)
    ensures q.buffer != [] ==> Popped(q).1 == Ok(q.buffer[0]) && Popped(q).0.buffer == q.buffer[1..]
    ensures q.buffer == [] ==> Popped(q).1 == Err(QueueEmpty) && Popped(q).0.buffer == []
    ensures q.buffer != [] && Sound(q) ==> Sound(Popped(q).0)
  {
  }

  /** The queue after putting `es` one after the other. */
  function PushedAll<T>(q: QueueState<T>, es: seq<T>): QueueState<T>
    decreases |es|
  {
    if es == [] then q else PushedAll(Pushed(q, es[0]), es[1..])
  }

  /** Once the limit is disabled no `put` drops anything: the elements put
      line up after the buffered ones, in order. */
  lemma {:induction false} UnlimitedKeepsAll<T>(q: QueueState<T>, es: seq<T>)
    requires !q.limited
    ensures PushedAll(q, es).buffer == q.buffer + es
    ensures !PushedAll(q, es).limited
    decreases |es|
  {
    if es != [] {
      var q' := Pushed(q, es[0]);
      assert q'.buffer == q.buffer + [es[0]];
      UnlimitedKeepsAll(q', es[1..]);
      assert q.buffer + [es[0]] + es[1..] == q.buffer + es;
    }
  }

  /** A sound queue stays sound under any number of puts. */
  lemma {:induction false} PushedAllSound<T>(q: QueueState<T>, es: seq<T>)
    requires Sound(q)
    ensures Sound(PushedAll(q, es))
    decreases |es|
  {
    if es != [] {
      PushedWindow(q, es[0]);
      PushedAllSound(Pushed(q, es[0]), es[1..]);
    }
  }

  // ----------------------------------------------- the counter drifts from the buffer

  /** A `get` on an empty queue still decrements the counter, so later puts
      stop evicting too early: with `size` 1, a failed get and two puts
      leave two elements in a limited queue. */
  lemma EmptyGetOverfills<T>(a: T, b: T)
    ensures var q := PushedAll(Popped(Initial<T>(1)).0, [a, b]);
      q.limited && q.buffer == [a, b] && |q.buffer| > q.size
  {
    var q0 := Popped(Initial<T>(1)).0;
    assert q0.counter == -1 && q0.buffer == [];
    var q1 := Pushed(q0, a);
    assert q1.buffer == [a];
    assert [a, b][1..] == [b];
    assert PushedAll(q0, [a, b]) == PushedAll(q1, [b]);
  }

  /** Eviction does not decrement the counter, so after an eviction and a
      get the next put evicts again although the buffer has room: with
      `size` 2, putting `a`, `b`, `c`, getting `b` and putting `d` loses
      the unread `c`. */
  lemma EvictionLosesUnread<T>(a: T, b: T, c: T, d: T)
    ensures var q := Pushed(Popped(PushedAll(Initial<T>(2), [a, b, c])).0, d);
      q.limited && q.buffer == [d]
    ensures Popped(PushedAll(Initial<T>(2), [a, b, c])).1 == Ok(b)
  {
    var q0 := Initial<T>(2);
    var q1 := Pushed(q0, a);
    var q2 := Pushed(q1, b);
    var q3 := Pushed(q2, c);
    assert q1.buffer == [a];
    assert q2.buffer == [a, b];
    assert [a, b, c][1..] == [b, c] && [b, c][1..] == [c];
    assert (q2.buffer + [c])[1..] == [b, c];
    assert q3.buffer == [b, c];
    assert PushedAll(q0, [a, b, c]) == q3 by {
      assert PushedAll(q2, [c]) == q3;
      assert PushedAll(q1, [b, c]) == PushedAll(q2, [c]);
    }
    var q4 := Popped(q3).0;
    assert q4.buffer == [c] && q4.counter == 2;
    assert (q4.buffer + [d])[1..] == [d];
  }

  /** The last `n` elements of `s`, or all of them when there are fewer. */
  function Latest<T>(s: seq<T>, n: nat): (r: seq<T>)
    ensures |r| == if |s| <= n then |s| else n
    ensures forall i :: 0 <= i < |r| ==> r[i] == s[|s| - |r| + i]
  {
    if |s| <= n then s else s[|s| - n..]
  }

  /** `put` as intended: the counter follows the buffer, so it drops one
      when the oldest element is evicted. */
  function PushedFixed<T>(q: QueueState<T>, e: T): (r: QueueState<T>)
    ensures r.size == q.size && r.limited == q.limited
  {
    var b := q.buffer + [e];
    if q.limited && q.counter + 1 > q.size then QueueState(q.size, q.counter, b[1..], q.limited)
    else QueueState(q.size, q.counter + 1, b, q.limited)
  }

  /** `get` as intended: the counter drops only when an element is taken. */
  function PoppedFixed<T>(q: QueueState<T>): (r: (QueueState<T>, Result<T, Exception>))
    ensures r.0.size == q.size && r.0.limited == q.limited
  {
    if q.buffer == [] then (q, Err(QueueEmpty))
    else (q.(counter := q.counter - 1, buffer := q.buffer[1..]), Ok(q.buffer[0]))
  }

  /** The counter is the number of buffered elements, and a limited queue
      holds at most `size`. */
  predicate Exact<T>(q: QueueState<T>)
  {
    q.counter == |q.buffer| && (q.limited ==> |q.buffer| <= Capacity(q.size))
  }

  /** With the counter kept exact, a limited queue is a rolling window: a
      put keeps the latest `size` elements, and a get takes the oldest. */
  lemma FixedWindow<T>(q: QueueState<T>, e: T)
    requires Exact(q)
    ensures Exact(PushedFixed(q, e)) && Exact(PoppedFixed(q).0)
    ensures q.limited ==> PushedFixed(q, e).buffer == Latest(q.buffer + [e], Capacity(q.size))
    ensures !q.limited ==> PushedFixed(q, e).buffer == q.buffer + [e]
    ensures q.buffer != [] ==> PoppedFixed(q).1 == Ok(q.buffer[0]) && PoppedFixed(q).0.buffer == q.buffer[1..]
  {
  }

  /** The fixed queue keeps `c` in the run that loses it above. */
  lemma FixedKeepsUnread<T>(a: T, b: T, c: T, d: T)
    ensures var q := PushedFixed(PoppedFixed(PushedFixed(PushedFixed(PushedFixed(Initial<T>(2), a), b), c)).0, d);
      q.buffer == [c, d]
  {
    var q3 := PushedFixed(PushedFixed(PushedFixed(Initial<T>(2), a), b), c);
    assert q3.buffer == [b, c] by {
      assert [a, b, c][1..] == [b, c];
    }
  }

  // ------------------------------------------------------------ the queue object

  class RollingWindowQueue<T> {
    const size: int
    var currentSize: int
    var buffer: seq<T>
    var sizeLimitEnabled: bool

    function State(): QueueState<T>
      reads this
    {
      QueueState(size, currentSize, buffer, sizeLimitEnabled)
    }

    constructor(size: int)
      ensures State() == Initial(size)
    {
      this.size := size;
      currentSize := 0;
      buffer := [];
      sizeLimitEnabled := true;
    }

    /** `disable_size_limit`. */
    method DisableSizeLimit()
      modifies this
      ensures State() == Unlimited(old(State()))
    {
      sizeLimitEnabled := false;
    }

    /** `put`. */
    method Put(element: T)
      modifies this
      ensures State() == Pushed(old(State()), element)
      ensures old(Sound(State())) ==> Sound(State())
    {
      buffer := buffer + [element];
      currentSize := currentSize + 1;
      if sizeLimitEnabled && currentSize > size {
        buffer := buffer[1..];
      }
      PushedWindow(old(State()), element);
    }

    /** `get(block=False)`. */
    method Get() returns (r: Result<T, Exception>)
      modifies this
      ensures (State(), r) == Popped(old(State()))
      ensures r.Ok? ==> r.value == old(buffer)[0] && buffer == old(buffer)[1..]
      ensures r.Err? <==> old(buffer) == []
    {
      currentSize := currentSize - 1;
      if buffer == [] {
        return Err(QueueEmpty);
      }
      r := Ok(buffer[0]);
      buffer := buffer[1..];
    }
  }
}
