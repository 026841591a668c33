/** `VarList`: a global list of named variables, a string-keyed dictionary
    of values. */
module VarList {
  import opened Wrappers

  class VarList<V> {
    var vars: map<string, V>

    constructor ()
      ensures vars == map[]
    {
      vars := map[];
    }

    /** `Create(name, value)`: `Dictionary.Add`, which fails on a name that
        already exists and then changes nothing. */
    method Create(name: string, value: V) returns (o: Outcome)
      modifies this
      ensures name in old(vars) ==> o == Fail(DuplicateKey) && vars == old(vars)
      ensures name !in old(vars) ==> o == Pass && vars == old(vars)[name := value]
    {
      if name in vars {
        o := Fail(DuplicateKey);
      } else {
        vars := vars[name := value];
        o := Pass;
      }
    }

    /** `Delete(name)`: `Dictionary.Remove`; an absent name is no error. */
    method Delete(name: string)
      modifies this
      ensures vars == old(vars) - {name}
    {
      vars := vars - {name};
    }

    /** The indexer's getter: fails for a name that is not in the list. */
    method Get(name: string) returns (r: Result<V>)
      ensures name in vars ==> r == Ok(vars[name])
      ensures name !in vars ==> r == Err(KeyNotFound)
    {
      if name in vars {
        r := Ok(vars[name]);
      } else {
        r := Err(KeyNotFound);
      }
    }

    /** The indexer's setter: inserts or overwrites. */
    method Set(name: string, value: V)
      modifies this
      ensures vars == old(vars)[name := value]
    {
      vars := vars[name := value];
    }

    /** `Clear()`. */
    method Clear()
      modifies this
      ensures vars == map[]
    {
      vars := map[];
    }
  }

  /** Reading a name after creating it gives the created value, and the
      other names keep theirs. */
  method CreateThenGet<V>(l: VarList<V>, name: string, value: V, other: string) returns (o: Outcome, r: Result<V>, r': Result<V>)
    requires name != other
    modifies l
    ensures old(name !in l.vars) ==> o == Pass && r == Ok(value)
    ensures old(name in l.vars) ==> o == Fail(DuplicateKey) && r == Ok(old(l.vars[name]))
    ensures other in old(l.vars) ==> r' == Ok(old(l.vars[other]))
    ensures other !in old(l.vars) ==> r' == Err(KeyNotFound)
  {
    o := l.Create(name, value);
    r := l.Get(name);
    r' := l.Get(other);
  }
}
