/** The variable store (Context of node.h / node.cpp). */
module Contexts {
  import opened Numeric
  import opened Results

  /** A map from variable name to a 64-bit value. Entries are added or
      overwritten by Set and never removed. */
  class Context {
    var variables: map<string, Int64>

    constructor ()
      ensures variables == map[]
    {
      variables := map[];
    }

    /** Context::in: whether the name has a value. */
    predicate In(name: string)
      reads this
    {
      name in variables
    }

    /** Context::get: the stored value, or the unknown-variable error naming
        the variable. It fails exactly when In says the name is absent. */
    function Get(name: string): (r: Result)
      reads this
      ensures r.IsError() <==> !In(name)
      ensures r.IsError() ==> r.message == "Unknown variable " + name
      ensures !r.IsError() ==> r.number == variables[name]
    {
      if name in variables then Value(variables[name])
      else Failure("Unknown variable " + name)
    }

    /** Context::set: afterwards the name reads back as the new value and
        every other name reads as before. Inserting a new name and
        overwriting an old one have the same effect on the map. */
    method Set(name: string, number: Int64)
      modifies this
      ensures variables == old(variables)[name := number]
      ensures In(name) && Get(name) == Value(number)
      ensures forall other :: other != name ==> Get(other) == old(Get(other))
    {
      variables := variables[name := number];
    }
  }
}
