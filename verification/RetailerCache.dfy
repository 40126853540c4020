/** `stores.retailer`, a denormalised copy of the linked retailer's name that
    two triggers keep in step. */
module RetailerCache {
  import opened Common

  type Id = int

  datatype Store = Store(retailerId: Option<Id>, retailer: Option<string>)

  /** Retailers by id with their canonical name, and the stores. */
  datatype State = State(names: map<Id, string>, stores: map<Id, Store>)

  datatype Op =
    | InsertStore(id: Id, link: Option<Id>, text: Option<string>)
    | Relink(id: Id, link: Option<Id>)
    | WriteText(id: Id, text: Option<string>)
    | InsertRetailer(id: Id, name: string)
    | Rename(id: Id, name: string)
    | DeleteRetailer(id: Id)

  /** The BEFORE trigger on stores: a linked row's text is looked up. */
  function Synced(names: map<Id, string>, s: Store): Store {
    if s.retailerId.Some? && s.retailerId.value in names then s.(retailer := Some(names[s.retailerId.value])) else s
  }

  /** The AFTER trigger on retailers: the new name reaches every linked store. */
  function Cascaded(stores: map<Id, Store>, r: Id, name: string): map<Id, Store> {
    map i | i in stores :: if stores[i].retailerId == Some(r) then stores[i].(retailer := Some(name)) else stores[i]
  }

  /** ON DELETE SET NULL is an update of retailer_id, so the BEFORE trigger runs
      and leaves the text of the now unlinked row alone. */
  function Unlinked(stores: map<Id, Store>, r: Id): map<Id, Store> {
    map i | i in stores :: if stores[i].retailerId == Some(r) then stores[i].(retailerId := None) else stores[i]
  }

  /** The statement's key, foreign-key and unique-name checks pass. */
  predicate Legal(s: State, op: Op) {
    match op
    case InsertStore(id, link, _) => id !in s.stores && (link.Some? ==> link.value in s.names)
    case Relink(id, link) => id in s.stores && (link.Some? ==> link.value in s.names)
    case WriteText(id, _) => id in s.stores
    case InsertRetailer(id, name) => id !in s.names && forall j :: j in s.names ==> s.names[j] != name
    case Rename(id, name) => id in s.names && forall j :: j in s.names && j != id ==> s.names[j] != name
    case DeleteRetailer(id) => id in s.names
  }

  function Apply(s: State, op: Op): State {
    if !Legal(s, op) then s
    else match op
      case InsertStore(id, link, text) => s.(stores := s.stores[id := Synced(s.names, Store(link, text))])
      case Relink(id, link) => s.(stores := s.stores[id := Synced(s.names, s.stores[id].(retailerId := link))])
      case WriteText(id, text) => s.(stores := s.stores[id := s.stores[id].(retailer := text)])
      case InsertRetailer(id, name) => s.(names := s.names[id := name])
      case Rename(id, name) =>
        State(s.names[id := name], if s.names[id] != name then Cascaded(s.stores, id, name) else s.stores)
      case DeleteRetailer(id) => State(s.names - {id}, Unlinked(s.stores, id))
  }

  function ApplyAll(s: State, ops: seq<Op>): State {
    if ops == [] then s else Apply(ApplyAll(s, ops[..|ops| - 1]), ops[|ops| - 1])
  }

  /** Every linked store shows its retailer's canonical name. */
  ghost predicate InStep(s: State) {
    forall i :: i in s.stores && s.stores[i].retailerId.Some? ==>
      s.stores[i].retailerId.value in s.names && s.stores[i].retailer == Some(s.names[s.stores[i].retailerId.value])
  }

  /** A direct write to the text column is the one thing no trigger repairs. */
  predicate Harmless(s: State, op: Op) {
    op.WriteText? && op.id in s.stores && s.stores[op.id].retailerId.Some? &&
      s.stores[op.id].retailerId.value in s.names ==>
      op.text == Some(s.names[s.stores[op.id].retailerId.value])
  }

  /** From a table in step, an operation keeps it in step exactly when it does
      not write another text onto a linked row. */
  lemma StepInStepIff(s: State, op: Op)
    requires InStep(s)
    ensures InStep(Apply(s, op)) <==> Harmless(s, op)
  {
    if Legal(s, op) && op.WriteText? {
      var s' := Apply(s, op);
      assert s'.stores[op.id].retailer == op.text;
    }
  }

  ghost predicate AllHarmless(s: State, ops: seq<Op>) {
    forall i :: 0 <= i < |ops| ==> Harmless(ApplyAll(s, ops[..i]), ops[i])
  }

  /** Over any run without such writes, every linked store is in step. */
  lemma {:induction false} CacheStaysInStep(s: State, ops: seq<Op>)
    requires InStep(s) && AllHarmless(s, ops)
    ensures InStep(ApplyAll(s, ops))
  {
    if ops != [] {
      var n := |ops| - 1;
      forall i | 0 <= i < n
        ensures Harmless(ApplyAll(s, ops[..n][..i]), ops[..n][i])
      {
        assert ops[..n][..i] == ops[..i];
      }
      CacheStaysInStep(s, ops[..n]);
      StepInStepIff(ApplyAll(s, ops[..n]), ops[n]);
    }
  }

  /** The text a store shows after a statement that sets its link. */
  predicate Shows(s: State, store: Store, link: Option<Id>, text: Option<string>) {
    && store.retailerId == link
    && (link == None ==> store.retailer == text)
    && (link.Some? && link.value in s.names ==> store.retailer == Some(s.names[link.value]))
  }

  /** Some retailer has this name. */
  predicate Taken(s: State, name: string) {
    exists j :: j in s.names && s.names[j] == name
  }

  predicate Links(s: State, link: Option<Id>) {
    link == None || link.value in s.names
  }

  /** What each statement does to one store: an insert under a free id or a new
      link shows the linked name, or the row's own text without a link; a rename
      to a free name reaches the linked stores' text only; deleting a retailer
      clears the link only; a text write changes the text only; and nothing
      else about any store changes. */
  lemma StatementReaches(s: State, op: Op, i: Id)
    ensures var s' := Apply(s, op);
      match op
      case InsertStore(id, link, text) =>
        if i == id && id !in s.stores && Links(s, link)
        then i in s'.stores && Shows(s, s'.stores[i], link, text)
        else SameAt(s, s', i)
      case Relink(id, link) =>
        if i == id && id in s.stores && Links(s, link)
        then i in s'.stores && Shows(s, s'.stores[i], link, s.stores[i].retailer)
        else SameAt(s, s', i)
      case WriteText(id, text) =>
        if i == id && id in s.stores
        then i in s'.stores && s'.stores[i] == Store(s.stores[i].retailerId, text)
        else SameAt(s, s', i)
      case InsertRetailer(_, _) => SameAt(s, s', i)
      case Rename(id, name) =>
        if id in s.names && !Taken(s, name) && i in s.stores && s.stores[i].retailerId == Some(id)
        then i in s'.stores && s'.stores[i] == Store(Some(id), Some(name))
        else SameAt(s, s', i)
      case DeleteRetailer(id) =>
        if id in s.names && i in s.stores && s.stores[i].retailerId == Some(id)
        then i in s'.stores && s'.stores[i] == Store(None, s.stores[i].retailer)
        else SameAt(s, s', i)
  {
  }

  predicate SameAt(s: State, s': State, i: Id) {
    (i in s'.stores <==> i in s.stores) && (i in s.stores ==> s'.stores[i] == s.stores[i])
  }

  /** And to one retailer: added under a free id and name, renamed to a free name,
      or deleted. */
  lemma StatementNames(s: State, op: Op, r: Id)
    ensures var s' := Apply(s, op);
      var adds := op.InsertRetailer? && op.id == r && r !in s.names && !Taken(s, op.name);
      var renames := op.Rename? && op.id == r && r in s.names && !Taken(s, op.name);
      && (r in s'.names <==> adds || (r in s.names && !(op.DeleteRetailer? && op.id == r)))
      && (r in s'.names ==> s'.names[r] == if adds || renames then op.name else s.names[r])
  {
  }

  class Cache {
    var names: map<Id, string>
    var stores: map<Id, Store>

    constructor ()
      ensures names == map[] && stores == map[] && InStep(State(names, stores))
    {
      names, stores := map[], map[];
    }

    /** INSERT or UPDATE OF retailer_id: the trigger overwrites NEW.retailer. */
    method SaveStore(id: Id, link: Option<Id>, text: Option<string>) returns (ok: bool)
      modifies this`stores
      ensures ok <==> link.Some? ==> link.value in names
      ensures ok ==> stores == old(stores)[id := Synced(names, Store(link, text))]
      ensures !ok ==> stores == old(stores)
      ensures ok && old(InStep(State(names, stores))) ==> InStep(State(names, stores))
    {
      ok := link == None || link.value in names;
      if ok {
        var row := Store(link, text);
        if link != None {
          row := row.(retailer := Some(names[link.value]));
        }
        stores := stores[id := row];
      }
    }

    method RenameRetailer(id: Id, name: string)
      requires Legal(State(names, stores), Rename(id, name))
      modifies this
      ensures State(names, stores) == Apply(State(old(names), old(stores)), Rename(id, name))
      ensures old(InStep(State(names, stores))) ==> InStep(State(names, stores))
    {
      var was := names[id];
      names := names[id := name];
      if was != name {
        stores := map i | i in stores ::
          if stores[i].retailerId == Some(id) then stores[i].(retailer := Some(name)) else stores[i];
      }
    }

    method DeleteRetailer(id: Id)
      requires id in names
      modifies this
      ensures State(names, stores) == Apply(State(old(names), old(stores)), Op.DeleteRetailer(id))
      ensures old(InStep(State(names, stores))) ==> InStep(State(names, stores))
    {
      stores := map i | i in stores ::
        if stores[i].retailerId == Some(id) then stores[i].(retailerId := None) else stores[i];
      names := names - {id};
    }
  }
}
