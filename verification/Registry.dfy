/**
 The ownership registry: clients, connections filed under their runtime name, connection
 setups, and the names an operator deleted. Each locked section of the registry is one method.
 Where the code walks a dictionary, the walking order is a parameter.
 */
module Registry {
  import opened Common

  datatype Client = Client(id: string, name: string, createdAt: int, updatedAt: int)

  datatype Connection = Connection(id: string, legacyName: string, clientId: string, createdAt: int, updatedAt: int,
    details: string)

  datatype State = Draft | Onboarding | Provisioning | Ready | Failed | Cancelled | CleanupPending | Expired

  datatype Resource = Resource(kind: string, identifier: string, ownershipConfirmed: bool)

  datatype Cleanup = Cleanup(
    attempts: nat,
    lastAttemptAt: int,
    nextAttemptAt: Option<int>,
    completedAt: Option<int>,
    lastError: Option<string>)

  datatype Setup = Setup(
    id: string,
    clientId: string,
    name: string,
    provider: string,
    channel: string,
    state: State,
    createdAt: int,
    updatedAt: int,
    expiresAt: int,
    idempotencyKey: Option<string>,
    runtimeName: string,
    resources: seq<Resource>,
    cleanupRequired: bool,
    cleanupFinalState: Option<State>,
    cleanup: Option<Cleanup>,
    diagnostic: Option<string>,
    connectionId: Option<string>)

  /** The `changes` of an update: fields left None keep their stored value. */
  datatype Patch = Patch(
    at: int,
    state: Option<State>,
    resources: Option<seq<Resource>>,
    cleanupRequired: Option<bool>,
    cleanupFinalState: Option<State>,
    cleanup: Option<Cleanup>,
    diagnostic: Option<Option<string>>,
    connectionId: Option<string>)

  function Touch(at: int): Patch {
    Patch(at, None, None, None, None, None, None, None)
  }

  function Or<T>(change: Option<T>, stored: T): T {
    if change.Some? then change.value else stored
  }

  function Patched(s: Setup, p: Patch): Setup {
    s.(state := Or(p.state, s.state), updatedAt := p.at, resources := Or(p.resources, s.resources),
       cleanupRequired := Or(p.cleanupRequired, s.cleanupRequired),
       cleanupFinalState := if p.cleanupFinalState.Some? then p.cleanupFinalState else s.cleanupFinalState,
       cleanup := if p.cleanup.Some? then p.cleanup else s.cleanup,
       diagnostic := Or(p.diagnostic, s.diagnostic),
       connectionId := if p.connectionId.Some? then p.connectionId else s.connectionId)
  }

  /** History: one entry for each write of a stored setup, with what the same write published. */
  datatype Write = Write(before: Setup, after: Setup, at: int, published: Option<Connection>)

  datatype Store = Store(
    clients: map<string, Client>,
    connections: map<string, Connection>,
    setups: map<string, Setup>,
    deleted: map<string, string>,
    writes: seq<Write>)

  // -------------------------------------------------------- locked sections

  function SaveSetup(st: Store, s: Setup): Store {
    if s.clientId == "" || s.id == "" || s.clientId !in st.clients then st else st.(setups := st.setups[s.id := s])
  }

  function UpdateSetup(st: Store, id: string, p: Patch): Store {
    if id !in st.setups then st
    else
      var s := Patched(st.setups[id], p);
      st.(setups := st.setups[id := s], writes := st.writes + [Write(st.setups[id], s, p.at, None)])
  }

  predicate Promotable(st: Store, id: string, c: Connection) {
    id in st.setups && c.legacyName != "" && st.setups[id].clientId in st.clients
  }

  function Promote(st: Store, id: string, c: Connection, p: Patch): Store {
    if !Promotable(st, id, c) then st
    else
      var s := Patched(st.setups[id], p);
      st.(setups := st.setups[id := s], connections := st.connections[c.legacyName := c],
          deleted := st.deleted - {c.legacyName},
          writes := st.writes + [Write(st.setups[id], s, p.at, Some(c))])
  }

  function StoreClient(st: Store, client: Client): Store {
    st.(clients := st.clients[client.id := client])
  }

  function SaveConnection(st: Store, name: string, c: Connection): Store {
    if c.clientId == "" || c.clientId !in st.clients then st
    else st.(connections := st.connections[name := c], deleted := st.deleted - {name})
  }

  /** The first name, in walking order, whose record has this id. */
  function NameOf(connections: map<string, Connection>, order: seq<string>, id: string): Option<string> {
    if order == [] then None
    else if order[0] in connections && connections[order[0]].id == id then Some(order[0])
    else NameOf(connections, order[1..], id)
  }

  /** The `changes` of a connection update: fields left None keep their stored value. */
  datatype ConnectionPatch = ConnectionPatch(
    id: Option<string>,
    legacyName: Option<string>,
    clientId: Option<string>,
    createdAt: Option<int>,
    updatedAt: Option<int>,
    details: Option<string>)

  function Changed(c: Connection, p: ConnectionPatch): Connection {
    Connection(Or(p.id, c.id), Or(p.legacyName, c.legacyName), Or(p.clientId, c.clientId),
      Or(p.createdAt, c.createdAt), Or(p.updatedAt, c.updatedAt), Or(p.details, c.details))
  }

  function UpdateConnection(st: Store, order: seq<string>, id: string, changes: ConnectionPatch): Store {
    var name := NameOf(st.connections, order, id);
    if name.None? || name.value !in st.connections then st
    else st.(connections := st.connections[name.value := Changed(st.connections[name.value], changes)])
  }

  function DeleteConnection(st: Store, order: seq<string>, id: string): Store {
    var name := NameOf(st.connections, order, id);
    if name.None? then st
    else st.(connections := st.connections - {name.value}, deleted := st.deleted[name.value := id])
  }

  predicate HasConnections(st: Store, clientId: string) {
    exists name :: name in st.connections && st.connections[name].clientId == clientId
  }

  function DeleteClient(st: Store, clientId: string): Store {
    if clientId !in st.clients || HasConnections(st, clientId) then st else st.(clients := st.clients - {clientId})
  }

  datatype ClientDeletion = ClientDeleted | ClientNotFound | ClientHasConnections

  // ----------------------------------------------------------- legacy import

  /** A connection the runtime already knows: its name as reported, and its id if it has one. */
  datatype Legacy = Legacy(name: string, id: Option<string>)

  /** What `str.strip` removes. */
  predicate IsSpace(c: char) {
    var u := c as int;
    || 9 <= u <= 13 || 28 <= u <= 32 || u == 0x85 || u == 0xA0 || u == 0x1680
    || 0x2000 <= u <= 0x200A || u == 0x2028 || u == 0x2029 || u == 0x202F || u == 0x205F || u == 0x3000
  }

  function StripLeft(s: string): string {
    if s != "" && IsSpace(s[0]) then StripLeft(s[1..]) else s
  }

  function StripRight(s: string): string {
    if s != "" && IsSpace(s[|s| - 1]) then StripRight(s[..|s| - 1]) else s
  }

  function Strip(s: string): string {
    StripRight(StripLeft(s))
  }

  function WithFallback(st: Store, fallback: Client): Store {
    if fallback.id in st.clients then st else st.(clients := st.clients[fallback.id := fallback])
  }

  function ImportOne(st: Store, r: Legacy, fallback: Client): Store {
    var name := Strip(r.name);
    if name == "" || name in st.deleted then st
    else if name in st.connections then
      var c := st.connections[name];
      if c.clientId in st.clients then st
      else
        var st := WithFallback(st, fallback);
        st.(connections := st.connections[name := c.(clientId := fallback.id, updatedAt := fallback.updatedAt)])
    else
      var st := WithFallback(st, fallback);
      var id := if Text(r.id) != "" then Text(r.id) else name;
      st.(connections :=
        st.connections[name := Connection(id, name, fallback.id, fallback.createdAt, fallback.updatedAt, "")])
  }

  function ImportFirst(st: Store, rs: seq<Legacy>, k: nat, fallback: Client): Store
    requires k <= |rs|
  {
    if k == 0 then st else ImportOne(ImportFirst(st, rs, k - 1, fallback), rs[k - 1], fallback)
  }

  function Import(st: Store, rs: seq<Legacy>, fallback: Client): Store {
    ImportFirst(st, rs, |rs|, fallback)
  }

  /** Names an import registers: distinct, not blank, not deleted by an operator, not yet there. */
  function NewAmong(st: Store, rs: seq<Legacy>, k: nat): set<string>
    requires k <= |rs|
  {
    set i | 0 <= i < k && Strip(rs[i].name) != "" && Strip(rs[i].name) !in st.deleted &&
      Strip(rs[i].name) !in st.connections ::
      Strip(rs[i].name)
  }

  function NewNames(st: Store, rs: seq<Legacy>): set<string> {
    NewAmong(st, rs, |rs|)
  }

  class ConnectionRegistry {
    var clients: map<string, Client>
    var connections: map<string, Connection>
    var setups: map<string, Setup>
    var deleted: map<string, string>
    ghost var writes: seq<Write>

    constructor ()
      ensures State() == Store(map[], map[], map[], map[], [])
    {
      clients, connections, setups, deleted, writes := map[], map[], map[], map[], [];
    }

    ghost function State(): Store
      reads this
    {
      Store(clients, connections, setups, deleted, writes)
    }

    method SaveClient(client: Client)
      modifies this
      ensures State() == StoreClient(old(State()), client)
    {
      clients := clients[client.id := client];
    }

    method SaveSetupRecordForClient(s: Setup) returns (saved: bool)
      modifies this
      ensures State() == SaveSetup(old(State()), s)
      ensures saved <==> s.clientId != "" && s.id != "" && s.clientId in clients
    {
      if s.clientId == "" || s.id == "" || s.clientId !in clients {
        return false;
      }
      setups := setups[s.id := s];
      return true;
    }

    method UpdateSetupRecord(id: string, p: Patch) returns (updated: Option<Setup>)
      modifies this
      ensures State() == UpdateSetup(old(State()), id, p)
      ensures updated == if id in old(setups) then Some(setups[id]) else None
    {
      if id !in setups {
        return None;
      }
      var s := Patched(setups[id], p);
      writes := writes + [Write(setups[id], s, p.at, None)];
      setups := setups[id := s];
      return Some(s);
    }

    method PromoteSetupToConnection(id: string, c: Connection, p: Patch) returns (promoted: Option<Setup>)
      modifies this
      ensures State() == Promote(old(State()), id, c, p)
      ensures promoted == if Promotable(old(State()), id, c) then Some(setups[id]) else None
    {
      if id !in setups || c.legacyName == "" || setups[id].clientId !in clients {
        return None;
      }
      var s := Patched(setups[id], p);
      writes := writes + [Write(setups[id], s, p.at, Some(c))];
      setups := setups[id := s];
      connections := connections[c.legacyName := c];
      deleted := deleted - {c.legacyName};
      return Some(s);
    }

    method SaveConnectionRecordForClient(name: string, c: Connection) returns (saved: bool)
      modifies this
      ensures State() == SaveConnection(old(State()), name, c)
      ensures saved <==> c.clientId != "" && c.clientId in clients
    {
      if c.clientId == "" || c.clientId !in clients {
        return false;
      }
      connections := connections[name := c];
      deleted := deleted - {name};
      return true;
    }

    method FindConnection(order: seq<string>, id: string) returns (name: Option<string>)
      ensures name == NameOf(connections, order, id)
    {
      for i := 0 to |order|
        invariant NameOf(connections, order, id) == NameOf(connections, order[i..], id)
      {
        if order[i] in connections && connections[order[i]].id == id {
          return Some(order[i]);
        }
        assert order[i..][1..] == order[i + 1..];
      }
      return None;
    }

    method UpdateConnectionRecord(order: seq<string>, id: string, changes: ConnectionPatch) returns (updated: bool)
      modifies this
      ensures State() == UpdateConnection(old(State()), order, id, changes)
      ensures updated <==> NameOf(old(connections), order, id).Some?
    {
      var name := FindConnection(order, id);
      if name.None? {
        return false;
      }
      NamedIsThere(connections, order, id);
      connections := connections[name.value := Changed(connections[name.value], changes)];
      return true;
    }

    method DeleteConnectionRecord(order: seq<string>, id: string) returns (gone: Option<Connection>)
      modifies this
      ensures State() == DeleteConnection(old(State()), order, id)
      ensures gone.Some? <==> NameOf(old(connections), order, id).Some?
      ensures gone.Some? ==>
        var name := NameOf(old(connections), order, id).value;
        name in old(connections) && gone.value == old(connections)[name]
    {
      var name := FindConnection(order, id);
      if name.None? {
        return None;
      }
      NamedIsThere(connections, order, id);
      gone := Some(connections[name.value]);
      connections := connections - {name.value};
      deleted := deleted[name.value := id];
    }

    method DeleteClientIfUnconnected(clientId: string) returns (outcome: ClientDeletion)
      modifies this
      ensures State() == DeleteClient(old(State()), clientId)
      ensures outcome ==
        if clientId !in old(clients) then ClientNotFound
        else if HasConnections(old(State()), clientId) then ClientHasConnections
        else ClientDeleted
    {
      if clientId !in clients {
        return ClientNotFound;
      }
      if name :| name in connections && connections[name].clientId == clientId {
        return ClientHasConnections;
      }
      clients := clients - {clientId};
      return ClientDeleted;
    }

    method EnsureLegacyConnections(rs: seq<Legacy>, fallback: Client) returns (inserted: nat)
      modifies this
      ensures State() == Import(old(State()), rs, fallback)
      ensures inserted == |NewNames(old(State()), rs)|
    {
      inserted := 0;
      for k := 0 to |rs|
        invariant State() == ImportFirst(old(State()), rs, k, fallback)
        invariant inserted == |NewAmong(old(State()), rs, k)|
      {
        ImportCounts(old(State()), rs, k, fallback);
        var name := Strip(rs[k].name);
        if name == "" || name in deleted {
          continue;
        }
        if name in connections {
          if connections[name].clientId !in clients {
            if fallback.id !in clients {
              clients := clients[fallback.id := fallback];
            }
            connections :=
              connections[name := connections[name].(clientId := fallback.id, updatedAt := fallback.updatedAt)];
          }
          continue;
        }
        if fallback.id !in clients {
          clients := clients[fallback.id := fallback];
        }
        var id := if Text(rs[k].id) != "" then Text(rs[k].id) else name;
        connections :=
          connections[name := Connection(id, name, fallback.id, fallback.createdAt, fallback.updatedAt, "")];
        inserted := inserted + 1;
      }
    }
  }

  lemma {:induction false} NamedIsThere(connections: map<string, Connection>, order: seq<string>, id: string)
    ensures var name := NameOf(connections, order, id);
      name.Some? ==> name.value in order && name.value in connections && connections[name.value].id == id
  {
    if order != [] { NamedIsThere(connections, order[1..], id); }
  }

  // ----------------------------------------------- what an import does

  /**
   A saved client can own connections and cannot be deleted while it does; deleting one that
   was new and owns nothing undoes the save.
   */
  lemma SavedClientOwns(st: Store, client: Client, name: string, c: Connection)
    requires client.id != "" && c.clientId == client.id
    ensures var saved := StoreClient(st, client);
      && (var owning := SaveConnection(saved, name, c);
          name in owning.connections && owning.connections[name] == c && DeleteClient(owning, client.id) == owning)
      && (client.id !in st.clients && !HasConnections(st, client.id) ==> DeleteClient(saved, client.id) == st)
  {
    var saved := StoreClient(st, client);
    var owning := SaveConnection(saved, name, c);
    assert owning.connections[name].clientId == client.id;
    if client.id !in st.clients { assert saved.clients - {client.id} == st.clients; }
  }

  /** `after` touches neither deletions nor setups, drops no client, and leaves owned connections alone. */
  ghost predicate Extends(st: Store, after: Store) {
    && after.deleted == st.deleted && after.setups == st.setups && after.writes == st.writes
    && (forall id :: id in st.clients ==> id in after.clients && after.clients[id] == st.clients[id])
    && (forall name :: name in st.connections && st.connections[name].clientId in st.clients ==>
          name in after.connections && after.connections[name] == st.connections[name])
  }

  predicate Usable(st: Store, name: string) {
    name != "" && name !in st.deleted
  }

  ghost predicate Owned(st: Store, name: string) {
    name in st.connections && st.connections[name].clientId in st.clients
  }

  lemma ImportOneShape(st: Store, r: Legacy, fallback: Client)
    ensures var after, name := ImportOne(st, r, fallback), Strip(r.name);
      && Extends(st, after)
      && after.connections.Keys == st.connections.Keys + (if Usable(st, name) then {name} else {})
      && (Usable(st, name) ==> Owned(after, name))
  {
  }

  lemma ExtendsTransitive(a: Store, b: Store, c: Store)
    requires Extends(a, b) && Extends(b, c)
    ensures Extends(a, c)
  {
  }

  lemma {:induction false} ImportExtends(st: Store, rs: seq<Legacy>, k: nat, fallback: Client)
    requires k <= |rs|
    ensures Extends(st, ImportFirst(st, rs, k, fallback))
  {
    if k > 0 {
      var part := ImportFirst(st, rs, k - 1, fallback);
      ImportExtends(st, rs, k - 1, fallback);
      ImportOneShape(part, rs[k - 1], fallback);
      ExtendsTransitive(st, part, ImportFirst(st, rs, k, fallback));
    }
  }

  lemma NamesAfterOne(st: Store, part: Store, r: Legacy, fallback: Client, names: set<string>)
    requires part.connections.Keys == st.connections.Keys + names && part.deleted == st.deleted
    ensures var after, name := ImportOne(part, r, fallback), Strip(r.name);
      && after.deleted == st.deleted
      && after.connections.Keys ==
           st.connections.Keys + (names + if Usable(st, name) && name !in st.connections then {name} else {})
  {
    ImportOneShape(part, r, fallback);
  }

  lemma {:induction false} ImportKeys(st: Store, rs: seq<Legacy>, k: nat, fallback: Client)
    requires k <= |rs|
    ensures var after := ImportFirst(st, rs, k, fallback);
      after.deleted == st.deleted && after.connections.Keys == st.connections.Keys + NewAmong(st, rs, k)
  {
    if k > 0 {
      ImportKeys(st, rs, k - 1, fallback);
      NewNamesGrow(st, rs, k - 1);
      NamesAfterOne(st, ImportFirst(st, rs, k - 1, fallback), rs[k - 1], fallback, NewAmong(st, rs, k - 1));
    }
  }

  /** What the first `k` records leave: the old names, the new ones, and nothing else touched. */
  lemma ImportShape(st: Store, rs: seq<Legacy>, k: nat, fallback: Client)
    requires k <= |rs|
    ensures Extends(st, ImportFirst(st, rs, k, fallback))
    ensures ImportFirst(st, rs, k, fallback).connections.Keys == st.connections.Keys + NewAmong(st, rs, k)
  {
    ImportExtends(st, rs, k, fallback);
    ImportKeys(st, rs, k, fallback);
  }

  lemma NewNamesGrow(st: Store, rs: seq<Legacy>, k: nat)
    requires k < |rs|
    ensures var name := Strip(rs[k].name);
      NewAmong(st, rs, k + 1) ==
        NewAmong(st, rs, k) + if Usable(st, name) && name !in st.connections then {name} else {}
  {
  }

  /** The counter's step: a name is new exactly when it is not in the store built so far. */
  lemma ImportCounts(st: Store, rs: seq<Legacy>, k: nat, fallback: Client)
    requires k < |rs|
    ensures var name, now := Strip(rs[k].name), ImportFirst(st, rs, k, fallback);
      |NewAmong(st, rs, k + 1)| ==
        |NewAmong(st, rs, k)| + if Usable(now, name) && name !in now.connections then 1 else 0
  {
    var name, names, now := Strip(rs[k].name), NewAmong(st, rs, k), ImportFirst(st, rs, k, fallback);
    ImportShape(st, rs, k, fallback);
    NewNamesGrow(st, rs, k);
    OneMore(names, name);
    assert names !! st.connections.Keys;
    assert name in now.connections.Keys <==> name in st.connections.Keys || name in names;
  }

  /** Every usable name of the first `k` records ends registered, with a client that exists. */
  lemma {:induction false} ImportRegisters(st: Store, rs: seq<Legacy>, k: nat, i: nat, fallback: Client)
    requires i < k <= |rs| && Usable(st, Strip(rs[i].name))
    ensures Owned(ImportFirst(st, rs, k, fallback), Strip(rs[i].name))
  {
    ImportShape(st, rs, k - 1, fallback);
    ImportOneShape(ImportFirst(st, rs, k - 1, fallback), rs[k - 1], fallback);
    if i < k - 1 { ImportRegisters(st, rs, k - 1, i, fallback); }
  }

  lemma {:induction false} ImportNothing(st: Store, rs: seq<Legacy>, k: nat, fallback: Client)
    requires k <= |rs|
    requires forall i :: 0 <= i < |rs| && Usable(st, Strip(rs[i].name)) ==> Owned(st, Strip(rs[i].name))
    ensures ImportFirst(st, rs, k, fallback) == st
  {
    if k > 0 { ImportNothing(st, rs, k - 1, fallback); }
  }

  /**
   An import registers exactly the distinct, usable, unregistered names; it never brings back a
   name an operator deleted, and never moves a connection whose client exists.
   */
  lemma ImportRespectsOperators(st: Store, rs: seq<Legacy>, fallback: Client)
    ensures var after := Import(st, rs, fallback);
      && after.connections.Keys == st.connections.Keys + NewNames(st, rs)
      && after.deleted == st.deleted
      && (forall name :: name in st.deleted && name !in st.connections ==> name !in after.connections)
      && (forall name :: name in st.connections && st.connections[name].clientId in st.clients ==>
            after.connections[name] == st.connections[name])
  {
    ImportShape(st, rs, |rs|, fallback);
    assert rs[..|rs|] == rs;
  }

  /** A second import of the same records registers nothing and changes nothing. */
  lemma ImportIsIdempotent(st: Store, rs: seq<Legacy>, fallback: Client)
    ensures var after := Import(st, rs, fallback); Import(after, rs, fallback) == after && NewNames(after, rs) == {}
  {
    var after := Import(st, rs, fallback);
    ImportShape(st, rs, |rs|, fallback);
    forall i | 0 <= i < |rs| && Usable(after, Strip(rs[i].name)) ensures Owned(after, Strip(rs[i].name)) {
      ImportRegisters(st, rs, |rs|, i, fallback);
    }
    ImportNothing(after, rs, |rs|, fallback);
  }
}
