/**
 * The attribute-style dictionaries of web/dict2obj.py.
 *
 * `Dict2Obj` wraps a dictionary read-only, `Context` is a dictionary whose
 * entries are also read and written as attributes, and `NestedContext`
 * looks an attribute up in its own entries first and then in the context
 * it is linked to. The link is itself an entry, under `global_context`,
 * because every attribute assignment on a `Context` becomes an entry.
 */
module Contexts {
  import opened Wrappers
  import opened Errors

  /** The Python values the model needs to tell apart. */
  datatype Value =
    | NoneValue
    | StrValue(s: string)
    | IntValue(i: int)
    | FloatValue(text: string)          // float(text); the conversion itself is not modelled
    | DictValue(m: map<string, Value>)  // a plain dict
    | ContextRef(c: Context)            // a Context object
    | ObjectRef(o: object)              // any other object: a router, a plug-in

  /** An attribute read that falls through to the entries: a missing name is an AttributeError. */
  function AttrOf(entries: map<string, Value>, item: string): (r: Result<Value, Error>)
  {
    if item in entries then Ok(entries[item]) else Err(AttributeError)
  }

  /** Writing an entry changes what that one name reads and nothing else. */
  lemma AttrAfterSet(entries: map<string, Value>, key: string, v: Value, item: string)
    ensures AttrOf(entries[key := v], item) == if item == key then Ok(v) else AttrOf(entries, item)
    ensures AttrOf(entries, item).Err? ==> AttrOf(entries, item).error == AttributeError
  {
  }

  // ---------------------------------------------------------------------
  // Dict2Obj
  // ---------------------------------------------------------------------

  /** A read-only attribute view of a dictionary. */
  datatype VarBag = VarBag(dic: map<string, Value>)

  /** `Dict2Obj(dic)`: a dictionary (a Context is one) is wrapped, anything else gives an empty view. */
  function Wrap(v: Value): (b: VarBag)
    reads if v.ContextRef? then {v.c} else {}
    ensures v.DictValue? ==> b.dic == v.m
    ensures v.ContextRef? ==> b.dic == v.c.entries
    ensures !v.DictValue? && !v.ContextRef? ==> b.dic == map[]
  {
    match v
    case DictValue(m) => VarBag(m)
    case ContextRef(c) => VarBag(c.entries)
    case _ => VarBag(map[])
  }

  /** `Dict2Obj.__getattr__` */
  function BagGet(b: VarBag, item: string): (r: Result<Value, Error>)
    ensures r.Ok? <==> item in b.dic
    ensures r.Ok? ==> r.value == b.dic[item]
    ensures r.Err? ==> r.error == AttributeError
  {
    AttrOf(b.dic, item)
  }

  /** `Dict2Obj.__setattr__`: the view refuses every assignment and is left as it was. */
  function BagSet(b: VarBag, key: string, v: Value): (r: Result<VarBag, Error>)
    ensures r == Err(NotImplementedError)
  {
    Err(NotImplementedError)
  }

  /**
   * A wrapped dictionary answers exactly its own keys with their values;
   * every other name, and every name of a wrapped non-dictionary, is an
   * AttributeError.
   */
  lemma WrapLookup(v: Value, item: string)
    ensures v.DictValue? ==> (BagGet(Wrap(v), item).Ok? <==> item in v.m)
    ensures v.DictValue? && item in v.m ==> BagGet(Wrap(v), item) == Ok(v.m[item])
    ensures !v.DictValue? && !v.ContextRef? ==> BagGet(Wrap(v), item) == Err(AttributeError)
    ensures BagGet(Wrap(v), item).Err? ==> BagGet(Wrap(v), item).error == AttributeError
  {
  }

  // ---------------------------------------------------------------------
  // Context
  // ---------------------------------------------------------------------

  /** A dictionary whose entries are also its attributes. */
  class Context {
    var entries: map<string, Value>

    constructor()
      ensures entries == map[]
    {
      entries := map[];
    }

    /** `Context.__getattr__`: the entry, or an AttributeError. */
    function GetAttr(item: string): (r: Result<Value, Error>)
      reads this
      ensures r.Ok? <==> item in entries
      ensures r.Ok? ==> r.value == entries[item]
      ensures r.Err? ==> r.error == AttributeError
    {
      AttrOf(entries, item)
    }

    /** `Context.__setattr__`, and `ctx[key] = v`: both write the entry. */
    method Set(key: string, v: Value)
      modifies this
      ensures entries == old(entries)[key := v]
      ensures GetAttr(key) == Ok(v)
      ensures forall k :: k != key ==> GetAttr(k) == old(GetAttr(k))
    {
      entries := entries[key := v];
    }
  }

  // ---------------------------------------------------------------------
  // NestedContext
  // ---------------------------------------------------------------------

  /** The entry that holds the linked context. */
  const LinkKey: string := "global_context"

  /** What `relate(global_context)` stores: the context, or None. */
  function LinkValue(link: Option<Context>): Value
  {
    if link.Some? then ContextRef(link.value) else NoneValue
  }

  /** The objects a subscription of `v` reads. */
  function Footprint(v: Value): set<object>
  {
    if v.ContextRef? then {v.c} else {}
  }

  /**
   * `v[item]`: a Context or a dict answers its entry or raises KeyError;
   * None, strings, numbers and other objects cannot be subscripted by a name.
   */
  function Subscript(v: Value, item: string): (r: Result<Value, Error>)
    reads Footprint(v)
    ensures r.Ok? <==> (v.ContextRef? && item in v.c.entries) || (v.DictValue? && item in v.m)
    ensures r.Ok? && v.ContextRef? ==> r.value == v.c.entries[item]
    ensures r.Ok? && v.DictValue? ==> r.value == v.m[item]
    ensures r.Err? ==> (r.error == KeyError <==> v.ContextRef? || v.DictValue?)
    ensures !v.ContextRef? && !v.DictValue? ==> r == Err(TypeError)
  {
    match v
    case ContextRef(c) => if item in c.entries then Ok(c.entries[item]) else Err(KeyError)
    case DictValue(m) => if item in m then Ok(m[item]) else Err(KeyError)
    case _ => Err(TypeError)
  }

  /** A Context that falls back on the context it is linked to. */
  class NestedContext {
    var entries: map<string, Value>

    /** `NestedContext(global_context)`: empty apart from the link. */
    constructor(link: Option<Context>)
      ensures entries == map[LinkKey := LinkValue(link)]
    {
      entries := map[LinkKey := LinkValue(link)];
    }

    /** `relate(global_context)`: the attribute assignment stores the link as an entry. */
    method Relate(link: Option<Context>)
      modifies this
      ensures entries == old(entries)[LinkKey := LinkValue(link)]
    {
      entries := entries[LinkKey := LinkValue(link)];
    }

    /** The inherited `Context.__setattr__`. */
    method Set(key: string, v: Value)
      modifies this
      ensures entries == old(entries)[key := v]
    {
      entries := entries[key := v];
    }

    /** The context the link entry points to, if any. */
    function Linked(): set<object>
      reads this
    {
      if LinkKey in entries then Footprint(entries[LinkKey]) else {}
    }

    /**
     * `NestedContext.__getattr__`: an own entry, else `self.global_context[item]`.
     * Reading `self.global_context` when that entry is gone calls
     * `__getattr__` again without end, a RecursionError.
     */
    function GetAttr(item: string): (r: Result<Value, Error>)
      reads this, Linked()
      ensures item in entries ==> r == Ok(entries[item])
    {
      if item in entries then Ok(entries[item])
      else if LinkKey !in entries then Err(RecursionError)
      else Subscript(entries[LinkKey], item)
    }
  }

  /**
   * Linked to a context, a nested context reads as its own entries laid over
   * the linked ones; a name in neither is a KeyError, not an AttributeError.
   */
  lemma NestedLookup(n: NestedContext, c: Context, item: string)
    requires LinkKey in n.entries && n.entries[LinkKey] == ContextRef(c)
    ensures n.GetAttr(item).Ok? <==> item in c.entries + n.entries
    ensures n.GetAttr(item).Ok? ==> n.GetAttr(item).value == (c.entries + n.entries)[item]
    ensures n.GetAttr(item).Err? ==> n.GetAttr(item).error == KeyError
  {
  }

  /** Not linked (None), a nested context answers only its own entries; any other name is a TypeError. */
  lemma UnlinkedLookup(n: NestedContext, item: string)
    requires LinkKey in n.entries && n.entries[LinkKey] == NoneValue
    ensures n.GetAttr(item).Ok? <==> item in n.entries
    ensures n.GetAttr(item).Err? ==> n.GetAttr(item).error == TypeError
  {
  }

  /** Once the link entry is gone, every name the context does not hold is a RecursionError. */
  lemma LinkGone(n: NestedContext, item: string)
    requires LinkKey !in n.entries && item !in n.entries
    ensures n.GetAttr(item) == Err(RecursionError)
  {
  }
}
