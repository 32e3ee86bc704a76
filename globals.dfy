/** Model of core/globals.py: an application-wide registry of named
  * values. The module-level `gvars` dictionary exists only once `init()`
  * has run; before that every other operation raises NameError. */
module Globals {
  import opened Wrappers
  import opened PyValues

  /** `dict.get(key)`: the stored value, or None when absent. */
  function Lookup(gvars: map<string, PyValue>, key: string): PyValue {
    if key in gvars then gvars[key] else PNone
  }

  /** `has(key)`: a key counts only when its stored value is not None; an
    * empty registry has nothing. */
  function HasIn(defined: bool, gvars: map<string, PyValue>, key: string): (r: Result<bool>)
    ensures !defined <==> r == Err(NameError)
    ensures defined ==> r == Ok(key in gvars && gvars[key] != PNone)
  {
    if !defined then Err(NameError)
    else if gvars != map[] then Ok(Lookup(gvars, key) != PNone)
    else Ok(false)
  }

  /** `get(key)`: None for an empty registry or a missing key. */
  function GetIn(defined: bool, gvars: map<string, PyValue>, key: string): (r: Result<PyValue>)
    ensures !defined <==> r == Err(NameError)
    ensures defined && key !in gvars ==> r == Ok(PNone)
    ensures defined && key in gvars ==> r == Ok(gvars[key])
  {
    if !defined then Err(NameError)
    else if gvars == map[] then Ok(PNone)
    else Ok(Lookup(gvars, key))
  }

  /** `put(key, value)`: a key whose value is truthy cannot be overwritten
    * and the put raises `refusal`; a missing key or one holding a falsy
    * value is (re)bound. */
  function PutIn(defined: bool, gvars: map<string, PyValue>, key: string, value: PyValue,
                 refusal: Exception): (r: (Status, map<string, PyValue>))
    ensures !defined ==> r == (Raised(NameError), gvars)
    ensures defined && Truthy(Lookup(gvars, key)) ==> r == (Raised(refusal), gvars)
    ensures defined && !Truthy(Lookup(gvars, key)) ==> r == (Done, gvars[key := value])
  {
    if !defined then (Raised(NameError), gvars)
    else if gvars == map[] then (Done, gvars[key := value])
    else if Truthy(GetIn(defined, gvars, key).value) then (Raised(refusal), gvars)
    else (Done, gvars[key := value])
  }

  /** A successful put binds the key to the value, `has` reports it unless
    * the value is None, and every other key reads as before. */
  lemma PutThenGet(gvars: map<string, PyValue>, key: string, value: PyValue, refusal: Exception, other: string)
    requires PutIn(true, gvars, key, value, refusal).0 == Done
    ensures var g := PutIn(true, gvars, key, value, refusal).1;
            GetIn(true, g, key) == Ok(value)
            && HasIn(true, g, key) == Ok(value != PNone)
            && (other != key ==> GetIn(true, g, other) == GetIn(true, gvars, other)
                                 && HasIn(true, g, other) == HasIn(true, gvars, other))
  {
  }

  /** A refused put changes nothing, and the value read back is the one
    * already there. */
  lemma PutRefusedKeepsValue(gvars: map<string, PyValue>, key: string, value: PyValue, refusal: Exception)
    requires PutIn(true, gvars, key, value, refusal).0 != Done
    ensures PutIn(true, gvars, key, value, refusal).1 == gvars
    ensures GetIn(true, gvars, key).Ok? && Truthy(GetIn(true, gvars, key).value)
  {
  }

  /** As written, the refusal raises `Globalerror`, a name nothing defines,
    * so Python raises NameError in place of GlobalsError. */
  lemma PutAsWrittenRaisesNameError()
    ensures PutIn(true, map["motor" := PInt(1)], "motor", PInt(2), NameError).0 == Raised(NameError)
    ensures PutIn(true, map["motor" := PInt(1)], "motor", PInt(2), GlobalsError).0 == Raised(GlobalsError)
  {
  }

  /** The module's global state. */
  class Registry {
    /** Whether `gvars` has been bound. */
    var defined: bool
    var gvars: map<string, PyValue>

    /** The module as first imported: `gvars` does not exist. */
    constructor ()
      ensures !defined && gvars == map[]
    {
      defined := false;
      gvars := map[];
    }

    /** `init()`: binds an empty dictionary the first time; later calls
      * keep whatever is stored. */
    method Init()
      modifies this
      ensures defined
      ensures old(defined) ==> gvars == old(gvars)
      ensures !old(defined) ==> gvars == map[]
    {
      if !defined {
        defined := true;
        gvars := map[];
      }
    }

    method Has(key: string) returns (r: Result<bool>)
      ensures r == HasIn(defined, gvars, key)
    {
      if !defined {
        return Err(NameError);
      }
      if gvars != map[] {
        r := Ok(Lookup(gvars, key) != PNone);
      } else {
        r := Ok(false);
      }
    }

    method Get(key: string) returns (r: Result<PyValue>)
      ensures r == GetIn(defined, gvars, key)
    {
      if !defined {
        return Err(NameError);
      }
      if gvars == map[] {
        return Ok(PNone);
      }
      r := Ok(Lookup(gvars, key));
    }

    /** `put` as written: the refusal raises NameError. */
    method PutAsWritten(key: string, value: PyValue) returns (st: Status)
      modifies this
      ensures defined == old(defined)
      ensures (st, gvars) == PutIn(old(defined), old(gvars), key, value, NameError)
    {
      st := PutRaising(key, value, NameError);
    }

    /** `put` raising the GlobalsError the module defines for the purpose. */
    method Put(key: string, value: PyValue) returns (st: Status)
      modifies this
      ensures defined == old(defined)
      ensures (st, gvars) == PutIn(old(defined), old(gvars), key, value, GlobalsError)
    {
      st := PutRaising(key, value, GlobalsError);
    }

    method PutRaising(key: string, value: PyValue, refusal: Exception) returns (st: Status)
      modifies this
      ensures defined == old(defined)
      ensures (st, gvars) == PutIn(old(defined), old(gvars), key, value, refusal)
    {
      if !defined {
        return Raised(NameError);
      }
      if gvars == map[] {
        Init();
      } else {
        var existing := Get(key);
        if Truthy(existing.value) {
          return Raised(refusal);
        }
      }
      gvars := gvars[key := value];
      st := Done;
    }
  }
}
