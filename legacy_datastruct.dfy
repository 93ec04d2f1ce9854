/** The older copy of the data structures. Its `RollingWindowQueue` is the
    same code as the newer one and is modelled by
    `DataStruct.RollingWindowQueue`; its `DottedDict` wraps dict values but
    returns lists as they are. */
module LegacyDataStruct {
  import opened Wrappers
  import opened PyRuntime
  import opened OrderedDict
  import DataStruct

  type Value = DataStruct.Value

  /** What the older attribute read returns for the stored value `v`: a
      dict is wrapped, anything else, a list included, is returned as is. */
  function AttrOld(v: Value): (r: Value)
    ensures DataStruct.Erased(r) == DataStruct.Erased(v)
    ensures v.Mapping? ==> r.Mapping? && r.dotted && r.items == v.items
    ensures !v.Mapping? ==> r == v
  {
    DataStruct.Wrap(v)
  }

  /** A list holding a plain dict is where the two reads differ: the older
      one hands out the dict undotted, the newer one dotted; on every other
      value they agree. */
  lemma AttrOldDiffers(v: Value)
    ensures AttrOld(v) != DataStruct.Attr(v) <==>
      v.List? && exists i :: 0 <= i < |v.elems| && v.elems[i].Mapping? && !v.elems[i].dotted
  {
    if v.List? {
      var r := DataStruct.Attr(v).elems;
      if exists i :: 0 <= i < |v.elems| && v.elems[i].Mapping? && !v.elems[i].dotted {
        var i :| 0 <= i < |v.elems| && v.elems[i].Mapping? && !v.elems[i].dotted;
        assert r[i] != v.elems[i];
      } else {
        assert r == v.elems;
      }
    }
  }

  /** The older dict with attribute access. */
  class DottedDict {
    var items: Dict<string, Value>

    constructor(items: Dict<string, Value>)
      ensures this.items == items
    {
      this.items := items;
    }

    /** `__getattr__`: the value under `key`, a dict wrapped; a missing key
        raises `AttributeError(key)`. */
    function GetAttr(key: string): (r: Result<Value, Exception>)
      reads this
      ensures r.Err? <==> key !in Keys(items)
      ensures r.Err? ==> r.error == AttributeError(key)
      ensures r.Ok? ==> DataStruct.Erased(r.value) == DataStruct.Erased(Get(items, key).value)
      ensures r.Ok? && !Get(items, key).value.Mapping? ==> r.value == Get(items, key).value
    {
      match Get(items, key)
      case None => Err(AttributeError(key))
      case Some(v) => Ok(AttrOld(v))
    }

    /** `d.key`: a name the class carries is found there first; any other
        name falls through to `__getattr__`. */
    function ReadAttr(key: string): (r: Result<DataStruct.Attribute, Exception>)
      reads this
      ensures DataStruct.ClassAttribute(key) ==> r == Ok(DataStruct.ClassMember(key))
      ensures !DataStruct.ClassAttribute(key) ==> (r.Err? <==> key !in Keys(items))
      ensures !DataStruct.ClassAttribute(key) && r.Ok? && !Get(items, key).value.Mapping? ==>
        r.value == DataStruct.Item(Get(items, key).value)
    {
      if DataStruct.ClassAttribute(key) then Ok(DataStruct.ClassMember(key))
      else
        match GetAttr(key)
        case Ok(v) => Ok(DataStruct.Item(v))
        case Err(e) => Err(e)
    }

    /** `__setattr__`: stores `value` under `key`, a name of the class
        included, which still reads as the class member. */
    method SetAttr(key: string, value: Value)
      modifies this
      ensures items == Put(old(items), key, value)
      ensures GetAttr(key) == Ok(AttrOld(value))
      ensures !DataStruct.ClassAttribute(key) ==> ReadAttr(key) == Ok(DataStruct.Item(AttrOld(value)))
      ensures DataStruct.ClassAttribute(key) ==> ReadAttr(key) == old(ReadAttr(key))
      ensures forall k :: k != key ==> GetAttr(k) == old(GetAttr(k)) && ReadAttr(k) == old(ReadAttr(k))
    {
      items := Put(items, key, value);
    }
  }
}
