/** Model of env.h / env.cpp: the symbol table mapping every variable name to
    the stack slot it occupies. Slots are handed out in registration order, so
    a valid table holds each slot 0 .. size-1 exactly once. */
module Environment {
  import opened Ast
  import opened Results

  /** Every slot lies below the table's size and no two names share one. */
  predicate ValidTable(m: map<string, int>)
  {
    (forall n :: n in m ==> 0 <= m[n] < |m|) &&
    (forall n1, n2 :: n1 in m && n2 in m && m[n1] == m[n2] ==> n1 == n2)
  }

  /** `std::map::emplace(name, size())`: a name already present keeps its slot;
      a fresh one gets the next slot, the table's size before the insertion. */
  function Registered(m: map<string, int>, name: string): map<string, int>
  {
    if name in m then m else m[name := |m|]
  }

  /** The lookup of `Env::get_identifier`, on the table alone. */
  function Lookup(m: map<string, int>, name: string): (r: Result<int>)
    ensures r.Ok? <==> name in m
    ensures r.Ok? ==> r.value == m[name]
    ensures r.Err? ==> r.message == "Reference to undefined variable " + name + "."
  {
    if name in m then Ok(m[name])
    else Err("Reference to undefined variable " + name + ".")
  }

  /** Registering keeps the table valid, grows it by one exactly when the name
      was new, and leaves every other name's slot alone. */
  lemma RegisteredValid(m: map<string, int>, name: string)
    requires ValidTable(m)
    ensures ValidTable(Registered(m, name))
    ensures name in Registered(m, name)
    ensures name !in m ==> Registered(m, name)[name] == |m| && |Registered(m, name)| == |m| + 1
    ensures name in m ==> Registered(m, name) == m
    ensures forall n :: n in m ==> n in Registered(m, name) && Registered(m, name)[n] == m[n]
  {
    if name !in m {
      var m' := m[name := |m|];
      assert m'.Keys == m.Keys + {name};
      assert |m'| == |m| + 1;
    }
  }

  /** A second registration of the same name changes nothing
      (the duplicate check of env.cpp is commented out, and emplace is a no-op). */
  lemma RegisteredIdempotent(m: map<string, int>, name: string)
    ensures Registered(Registered(m, name), name) == Registered(m, name)
  {
  }

  /** After registration the lookup succeeds; a name nobody registered still fails. */
  lemma LookupAfterRegistered(m: map<string, int>, name: string, other: string)
    ensures Lookup(Registered(m, name), name).Ok?
    ensures other != name ==> Lookup(Registered(m, name), other) == Lookup(m, other)
  {
  }

  /** `Env`: owns the symbol table. */
  class Env {
    var symTable: map<string, int>

    ghost predicate Valid()
      reads this
    {
      ValidTable(symTable)
    }

    /** A new environment knows no variable. */
    constructor ()
      ensures symTable == map[]
      ensures Valid()
    {
      symTable := map[];
    }

    /** `Env::register_identifier`. */
    method RegisterIdentifier(id: Identifier)
      requires Valid()
      modifies this
      ensures symTable == Registered(old(symTable), id.name)
      ensures Valid()
    {
      RegisteredValid(symTable, id.name);
      if id.name !in symTable {
        symTable := symTable[id.name := |symTable|];
      }
    }

    /** `Env::get_identifier`: the slot of a registered name, otherwise the
        runtime error env.cpp throws. */
    function GetIdentifier(id: Identifier): (r: Result<int>)
      reads this
      ensures r.Ok? <==> id.name in symTable
      ensures r.Ok? ==> r.value == symTable[id.name]
      ensures Valid() && r.Ok? ==> 0 <= r.value < GetAllocated()
    {
      Lookup(symTable, id.name)
    }

    /** `Env::get_allocated`: the number of slots in use. */
    function GetAllocated(): (r: nat)
      reads this
      ensures r == |symTable|
      ensures Valid() ==> forall n :: n in symTable ==> symTable[n] < r
    {
      |symTable|
    }
  }
}
