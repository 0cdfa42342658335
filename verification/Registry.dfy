// The stub's list of registered modules: modules_ and nextObjId_ of PyConnectStub.
module Registry {
  import opened Common

  const MAX_OBJ_ID := 0xff

  // A registered module, as far as the registry looks at it.
  datatype Module = Module(id: int, name: Str)

  datatype Registry = Registry(modules: seq<Module>, nextObjId: int)

  const EMPTY_REGISTRY := Registry([], 1)

  // ---------------------------------------------------------------- lookups

  // findModuleByID: the name of the first module with that id
  function FindById(ms: seq<Module>, id: int): Option<Str> {
    if ms == [] then None
    else if ms[0].id == id then Some(ms[0].name)
    else FindById(ms[1..], id)
  }

  // findModuleByName: the id of the first module with that name
  function FindByName(ms: seq<Module>, name: Str): Option<int> {
    if ms == [] then None
    else if ms[0].name == name then Some(ms[0].id)
    else FindByName(ms[1..], name)
  }

  // The id the stub looks up for an id byte of an incoming message.
  function Masked(b: Byte): int {
    b % 16
  }

  predicate HasId(r: Registry, id: int) {
    FindById(r.modules, id).Some?
  }

  predicate HasName(r: Registry, name: Str) {
    FindByName(r.modules, name).Some?
  }

  function NameOf(r: Registry, id: int): Str
    requires HasId(r, id)
  {
    FindById(r.modules, id).value
  }

  // ---------------------------------------------------------------- operations

  // addNewModule adds nothing for an empty name or once the ids are used up.
  predicate Accepts(r: Registry, name: Str) {
    name != [] && r.nextObjId <= MAX_OBJ_ID
  }

  function Add(r: Registry, name: Str): Registry {
    if Accepts(r, name) then Registry(r.modules + [Module(r.nextObjId, name)], r.nextObjId + 1) else r
  }

  // A declared name is looked up first; a registered one is refused.
  function Declare(r: Registry, name: Str): Registry {
    if HasName(r, name) then r else Add(r, name)
  }

  // deleteModuleByID and shutdownModuleByRef erase the first module found.
  function Erase(ms: seq<Module>, id: int): seq<Module> {
    if ms == [] then []
    else if ms[0].id == id then ms[1..]
    else [ms[0]] + Erase(ms[1..], id)
  }

  function Delete(r: Registry, id: int): Registry {
    r.(modules := Erase(r.modules, id))
  }

  // ---------------------------------------------------------------- the invariant

  // Ids increase strictly between two bounds; names are not empty and distinct.
  ghost predicate Ordered(ms: seq<Module>, above: int, below: int) {
    ms == [] ||
    (&& above < ms[0].id < below && ms[0].name != [] && FindByName(ms[1..], ms[0].name) == None
     && Ordered(ms[1..], ms[0].id, below))
  }

  ghost predicate Consistent(r: Registry) {
    1 <= r.nextObjId <= MAX_OBJ_ID + 1 && Ordered(r.modules, 0, r.nextObjId)
  }

  // What the invariant says of any two modules.
  lemma {:induction false} OrderedPairs(ms: seq<Module>, above: int, below: int, i: nat, j: nat)
    requires Ordered(ms, above, below) && i < j < |ms|
    ensures above < ms[i].id < ms[j].id < below && ms[i].name != ms[j].name
  {
    if i > 0 {
      OrderedPairs(ms[1..], ms[0].id, below, i - 1, j - 1);
    } else {
      NotFoundAt(ms[1..], ms[0].name, j - 1);
      OrderedAt(ms[1..], ms[0].id, below, j - 1);
    }
  }

  lemma {:induction false} OrderedAt(ms: seq<Module>, above: int, below: int, i: nat)
    requires Ordered(ms, above, below) && i < |ms|
    ensures above < ms[i].id < below
  {
    if i > 0 {
      OrderedAt(ms[1..], ms[0].id, below, i - 1);
    }
  }

  lemma {:induction false} NotFoundAt(ms: seq<Module>, name: Str, i: nat)
    requires FindByName(ms, name) == None && i < |ms|
    ensures ms[i].name != name
  {
    if i > 0 {
      NotFoundAt(ms[1..], name, i - 1);
    }
  }

  lemma {:induction false} FoundIdInRange(ms: seq<Module>, above: int, below: int, id: int)
    requires Ordered(ms, above, below) && FindById(ms, id).Some?
    ensures above < id < below && FindByName(ms, FindById(ms, id).value) == Some(id)
  {
    if ms[0].id != id {
      FoundIdInRange(ms[1..], ms[0].id, below, id);
      if FindById(ms, id).value == ms[0].name {
        assert false;
      }
    }
  }

  // A registered id is one that was issued, and its name leads back to it.
  lemma Registered(r: Registry, id: int)
    requires Consistent(r) && HasId(r, id)
    ensures 1 <= id < r.nextObjId && FindByName(r.modules, NameOf(r, id)) == Some(id)
  {
    FoundIdInRange(r.modules, 0, r.nextObjId, id);
  }

  // ---------------------------------------------------------------- declaring

  lemma {:induction false} Appended(ms: seq<Module>, above: int, below: int, m: Module)
    requires Ordered(ms, above, below) && below <= m.id && above < m.id
    requires m.name != [] && FindByName(ms, m.name) == None
    ensures Ordered(ms + [m], above, m.id + 1)
    ensures forall name :: FindByName(ms + [m], name)
                        == if FindByName(ms, name) == None && name == m.name then Some(m.id) else FindByName(ms, name)
    ensures forall id :: FindById(ms + [m], id)
                      == if FindById(ms, id) == None && id == m.id then Some(m.name) else FindById(ms, id)
  {
    if ms == [] {
      assert ms + [m] == [m];
    } else {
      Appended(ms[1..], ms[0].id, below, m);
      assert (ms + [m])[0] == ms[0] && (ms + [m])[1..] == ms[1..] + [m];
    }
  }

  // A declaration keeps the invariant. It registers its name under the next id exactly when
  // the name is new and acceptable, and leaves every other registration as it was.
  lemma DeclareRegisters(r: Registry, name: Str, id: int)
    requires Consistent(r)
    ensures var r' := Declare(r, name);
            var added := !HasName(r, name) && Accepts(r, name);
            && Consistent(r')
            && r'.nextObjId == (if added then r.nextObjId + 1 else r.nextObjId)
            && (HasId(r', id) <==> HasId(r, id) || (added && id == r.nextObjId))
            && (HasId(r, id) ==> NameOf(r', id) == NameOf(r, id))
            && (added && id == r.nextObjId ==> NameOf(r', id) == name)
  {
    if !HasName(r, name) && Accepts(r, name) {
      Appended(r.modules, 0, r.nextObjId, Module(r.nextObjId, name));
      if HasId(r, id) {
        Registered(r, id);
      }
    }
  }

  // ---------------------------------------------------------------- deleting

  lemma {:induction false} Erased(ms: seq<Module>, above: int, below: int, gone: int, id: int)
    requires Ordered(ms, above, below)
    ensures Ordered(Erase(ms, gone), above, below)
    ensures FindById(Erase(ms, gone), id) == if id == gone then None else FindById(ms, id)
  {
    if ms != [] {
      if ms[0].id == gone {
        Loosened(ms[1..], ms[0].id, above, below);
        if FindById(ms[1..], gone).Some? {
          FoundIdInRange(ms[1..], ms[0].id, below, gone);
        }
      } else {
        Erased(ms[1..], ms[0].id, below, gone, id);
        ErasedName(ms[1..], gone, ms[0].name);
        assert Erase(ms, gone)[1..] == Erase(ms[1..], gone);
      }
    }
  }

  lemma {:induction false} ErasedName(ms: seq<Module>, gone: int, name: Str)
    requires FindByName(ms, name) == None
    ensures FindByName(Erase(ms, gone), name) == None
  {
    if ms != [] && ms[0].id != gone {
      ErasedName(ms[1..], gone, name);
      assert Erase(ms, gone)[1..] == Erase(ms[1..], gone);
    }
  }

  lemma {:induction false} Loosened(ms: seq<Module>, above: int, lower: int, below: int)
    requires Ordered(ms, above, below) && lower <= above
    ensures Ordered(ms, lower, below)
  {
  }

  // A deletion keeps the invariant and removes exactly that id.
  lemma DeleteRemoves(r: Registry, gone: int, id: int)
    requires Consistent(r)
    ensures var r' := Delete(r, gone);
            && Consistent(r') && r'.nextObjId == r.nextObjId
            && (HasId(r', id) <==> HasId(r, id) && id != gone)
            && (HasId(r', id) ==> NameOf(r', id) == NameOf(r, id))
  {
    Erased(r.modules, 0, r.nextObjId, gone, id);
  }

  // ---------------------------------------------------------------- every run

  datatype Op = Declared(name: Str) | Deleted(id: int)

  function Do(r: Registry, op: Op): Registry {
    match op
    case Declared(name) => Declare(r, name)
    case Deleted(id) => Delete(r, id)
  }

  function Run(r: Registry, ops: seq<Op>): Registry
    decreases |ops|
  {
    if ops == [] then r else Run(Do(r, ops[0]), ops[1..])
  }

  // Whatever is declared and deleted: names stay distinct, ids increase within 1..255, and an
  // id that has been issued and removed never names a module again.
  lemma {:induction false} IdsNeverReturn(r: Registry, ops: seq<Op>, id: int)
    requires Consistent(r)
    ensures Consistent(Run(r, ops)) && r.nextObjId <= Run(r, ops).nextObjId
    ensures id < r.nextObjId && !HasId(r, id) ==> !HasId(Run(r, ops), id)
    decreases |ops|
  {
    if ops != [] {
      match ops[0] {
        case Declared(name) => DeclareRegisters(r, name, id);
        case Deleted(gone) => DeleteRemoves(r, gone, id);
      }
      IdsNeverReturn(Do(r, ops[0]), ops[1..], id);
    }
  }
}
