/** The variable table of the evaluator (src/interpreter/eval/environment.ts): one flat frame
    mapping names to a value that may still be unset and a `const` flag. The table's operations
    are specified by functions over the map; the `Environment` class changes its map as they
    say. */
module Environments {
  import opened Wrappers
  import opened Errors

  /** `VarData`: the value (absent while the variable is declared but unset) and the flag. */
  datatype VarData<V> = VarData(value: Option<V>, isConst: bool)

  type Table<V> = map<string, VarData<V>>

  /** A binding `set` may overwrite: declared, and not a constant that already has a value. */
  predicate Writable<V>(values: Table<V>, key: string) {
    key in values && !(values[key].isConst && values[key].value.Some?)
  }

  /** `get`: the stored value, `None` (the source's `null`) while unset, VarDNE when the
      name was never declared. */
  function GetF<V>(values: Table<V>, name: string): (r: Result<Option<V>, Error>)
    ensures r.Err? <==> name !in values
    ensures r.Err? ==> r.error == VarDNE(name)
    ensures r.Ok? ==> r.value == values[name].value
  {
    if name !in values then Err(VarDNE(name)) else Ok(values[name].value)
  }

  /** `set`: the error, if any, and the table afterwards. */
  function SetF<V>(values: Table<V>, key: string, value: Option<V>): (r: (Option<Error>, Table<V>))
    ensures r.0.None? <==> Writable(values, key)
    ensures key !in values ==> r.0 == Some(VarDNE(key))
    ensures key in values && !Writable(values, key) ==> r.0 == Some(ConstVar(key))
    ensures r.0.Some? ==> r.1 == values
  {
    if key !in values then (Some(VarDNE(key)), values)
    else if values[key].isConst && values[key].value.Some? then (Some(ConstVar(key)), values)
    else (None, values[key := values[key].(value := value)])
  }

  /** `newVar`: the error, if any, and the table afterwards. */
  function NewVarF<V>(values: Table<V>, name: string, isConst: bool, value: Option<V>): (r: (Option<Error>, Table<V>))
    ensures r.0.Some? <==> name in values
    ensures r.0.Some? ==> r.0.value == VarExists(name) && r.1 == values
  {
    if name in values then (Some(VarExists(name)), values)
    else (None, values[name := VarData(value, isConst)])
  }

  // ---------------------------------------------------------------------------------------
  // Properties of the table operations

  /** A successful `set` is seen by `get` on that key and by no other key, and it keeps the
      declared names and every `const` flag. */
  lemma SetIsolation<V>(values: Table<V>, key: string, value: Option<V>, other: string)
    requires SetF(values, key, value).0.None?
    ensures GetF(SetF(values, key, value).1, key) == Ok(value)
    ensures other != key ==> GetF(SetF(values, key, value).1, other) == GetF(values, other)
    ensures SetF(values, key, value).1.Keys == values.Keys
    ensures other in values ==> SetF(values, key, value).1[other].isConst == values[other].isConst
  {
  }

  /** A fresh `newVar` adds exactly its own binding, with the given flag and value. */
  lemma NewVarIsolation<V>(values: Table<V>, name: string, isConst: bool, value: Option<V>, other: string)
    requires name !in values
    ensures NewVarF(values, name, isConst, value).0.None?
    ensures NewVarF(values, name, isConst, value).1.Keys == values.Keys + {name}
    ensures NewVarF(values, name, isConst, value).1[name] == VarData(value, isConst)
    ensures GetF(NewVarF(values, name, isConst, value).1, name) == Ok(value)
    ensures other != name ==> GetF(NewVarF(values, name, isConst, value).1, other) == GetF(values, other)
  {
  }

  /** Declaring a name twice fails the second time, whatever either declaration says. */
  lemma RedeclarationFails<V>(values: Table<V>, name: string, c1: bool, v1: Option<V>, c2: bool, v2: Option<V>)
    ensures var t := NewVarF(values, name, c1, v1).1;
      NewVarF(t, name, c2, v2) == (Some(VarExists(name)), t)
  {
  }

  /** The deferred write of a constant: a constant declared without a value accepts writes
      of "no value" and stays open, accepts exactly one real value, and refuses every write
      after that. */
  lemma ConstWrittenOnce<V>(values: Table<V>, name: string, v: V, later: Option<V>)
    requires name !in values
    ensures var t0 := NewVarF(values, name, true, None).1;
      var t1 := SetF(t0, name, None).1;
      var (e2, t2) := SetF(t1, name, Some(v));
      SetF(t0, name, None).0.None? && Writable(t1, name) &&
      e2.None? && GetF(t2, name) == Ok(Some(v)) &&
      SetF(t2, name, later) == (Some(ConstVar(name)), t2)
  {
    var t0 := NewVarF(values, name, true, None).1;
    assert t0[name] == VarData(None, true);
    var t1 := SetF(t0, name, None).1;
    assert t1[name] == VarData(None, true);
    var t2 := SetF(t1, name, Some(v)).1;
    assert t2[name] == VarData(Some(v), true);
  }

  /** A variable that is not constant can be written any number of times; the last write wins. */
  lemma MutableRewrite<V>(values: Table<V>, name: string, v1: Option<V>, v2: Option<V>)
    requires name in values && !values[name].isConst
    ensures var t1 := SetF(values, name, v1).1;
      SetF(t1, name, v2).0.None? && GetF(SetF(t1, name, v2).1, name) == Ok(v2)
  {
  }

  // ---------------------------------------------------------------------------------------
  // The environment object

  class Environment<V> {
    var values: Table<V>

    /** A new environment has no bindings. */
    constructor()
      ensures values == map[]
    {
      values := map[];
    }

    /** `get`. */
    method Get(name: string) returns (r: Result<Option<V>, Error>)
      ensures r == GetF(values, name)
    {
      if name !in values {
        return Err(VarDNE(name));
      }
      return Ok(values[name].value);
    }

    /** `set`: the record held for `key` gets the new value, in place. */
    method Set(key: string, value: Option<V>) returns (err: Option<Error>)
      modifies this
      ensures (err, values) == SetF(old(values), key, value)
    {
      if key !in values {
        return Some(VarDNE(key));
      }
      var record := values[key];
      if record.isConst && record.value.Some? {
        return Some(ConstVar(key));
      }
      record := record.(value := value);
      values := values[key := record];
      return None;
    }

    /** `newVar`. */
    method NewVar(name: string, isConst: bool, value: Option<V>) returns (err: Option<Error>)
      modifies this
      ensures (err, values) == NewVarF(old(values), name, isConst, value)
    {
      if name in values {
        return Some(VarExists(name));
      }
      values := values[name := VarData(value, isConst)];
      return None;
    }
  }
}
