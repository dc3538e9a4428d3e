/** The slice of the plugin SDK's `schema.ResourceData` that the handlers use: an ID and a map of
    attribute values, read with `Get`/`GetOk` and written in place with `SetId`/`Set`. */
module Schema {
  import opened Wrappers

  /** A value of a string, int or bool attribute. */
  datatype AttrValue = Str(s: string) | Int(i: int) | Bool(b: bool)

  /** The zero value of the attribute's type, which `GetOk` reports as "not set". */
  predicate IsZero(v: AttrValue)
  {
    match v
    case Str(s) => s == ""
    case Int(i) => i == 0
    case Bool(b) => !b
  }

  /** The attribute's value when it is a non-empty string: what `GetOk` reports as set. */
  ghost function SetString(d: ResourceData, key: string): Option<string>
    reads d
  {
    if key in d.attrs && d.attrs[key].Str? && d.attrs[key].s != "" then Some(d.attrs[key].s) else None
  }

  /** A bool attribute is reported as set only when it is true. */
  ghost predicate SetTrue(d: ResourceData, key: string)
    reads d
  {
    key in d.attrs && d.attrs[key] == Bool(true)
  }

  class ResourceData {
    var id: string
    var attrs: map<string, AttrValue>

    constructor (id: string, attrs: map<string, AttrValue>)
      ensures this.id == id && this.attrs == attrs
    {
      this.id := id;
      this.attrs := attrs;
    }

    method SetId(v: string)
      modifies this
      ensures id == v && attrs == old(attrs)
    {
      id := v;
    }

    method Set(key: string, v: AttrValue)
      modifies this
      ensures attrs == old(attrs)[key := v] && id == old(id)
    {
      attrs := attrs[key := v];
    }

    /** Writes every entry of `m`, overriding what was there. */
    method SetAll(m: map<string, AttrValue>)
      modifies this
      ensures attrs == old(attrs) + m && id == old(id)
    {
      attrs := attrs + m;
    }

    /** `SetSingularResourceDataFromMap`: the ID from the `id` entry, and every entry as an attribute. */
    method SetFromMap(m: map<string, AttrValue>)
      modifies this
      ensures id == (if "id" in m && m["id"].Str? then m["id"].s else old(id))
      ensures attrs == old(attrs) + m
    {
      if "id" in m && m["id"].Str? {
        id := m["id"].s;
      }
      attrs := attrs + m;
    }

    /** `d.GetOk(key)`: the value, reported only when it is set and not the zero value. */
    function GetOk(key: string): (r: Option<AttrValue>)
      reads this
      ensures r.Some? <==> key in attrs && !IsZero(attrs[key])
      ensures r.Some? ==> r.value == attrs[key]
    {
      if key in attrs && !IsZero(attrs[key]) then Some(attrs[key]) else None
    }

    /** `d.GetOk(key)` on a string attribute, as the pair `(v, ok)` Go returns. */
    function GetOkString(key: string): (r: (string, bool))
      reads this
      ensures r.1 <==> SetString(this, key).Some?
      ensures r == (if r.1 then (SetString(this, key).value, true) else ("", false))
    {
      match GetOk(key)
      case Some(Str(s)) => (s, true)
      case _ => ("", false)
    }

    /** `d.GetOk(key)` on a bool attribute: `ok` holds only for `true`. */
    function GetOkBool(key: string): (r: (bool, bool))
      reads this
      ensures r.1 <==> SetTrue(this, key)
      ensures r.1 ==> r.0
    {
      match GetOk(key)
      case Some(Bool(b)) => (b, true)
      case _ => (false, false)
    }

    /** `d.Get(key).(string)`: the value, or "" when unset. */
    function GetString(key: string): string
      reads this
    {
      if key in attrs && attrs[key].Str? then attrs[key].s else ""
    }

    /** `d.Get(key).(int)`: the value, or 0 when unset. */
    function GetInt(key: string): int
      reads this
    {
      if key in attrs && attrs[key].Int? then attrs[key].i else 0
    }
  }
}
