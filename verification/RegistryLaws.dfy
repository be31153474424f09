/**
 What each locked section of the registry does, on names and fields, and what an operator's
 deletion of a connection means over whole runs.
 */
module RegistryLaws {
  import opened Common
  import opened Registry
  import opened ConnectionSetups
  import opened SetupProtocol
  import L = SetupLaws

  // -------------------------------------------------------- locked sections

  /** Nothing changes but the connections, the deleted names and the clients given. */
  predicate Becomes(st: Store, after: Store, clients: map<string, Client>, connections: map<string, Connection>,
                    deleted: map<string, string>) {
    after == st.(clients := clients, connections := connections, deleted := deleted)
  }

  ghost predicate FirstNamed(st: Store, order: seq<string>, i: nat, id: string) {
    && i < |order| && order[i] in st.connections && st.connections[order[i]].id == id
    && forall k :: 0 <= k < i && order[k] in st.connections ==> st.connections[order[k]].id != id
  }

  lemma {:induction false} NamedFrom(st: Store, order: seq<string>, i: nat, id: string)
    requires FirstNamed(st, order, i, id)
    ensures NameOf(st.connections, order, id) == Some(order[i])
  {
    if i > 0 {
      assert forall k :: 0 <= k < i ==> order[1..][k] == order[k + 1];
      assert order[0] in st.connections ==> st.connections[order[0]].id != id;
      forall k | 0 <= k < i - 1 && order[1..][k] in st.connections ensures st.connections[order[1..][k]].id != id {
        assert order[1..][k] == order[k + 1];
      }
      NamedFrom(st, order[1..], i - 1, id);
    }
  }

  /** A deletion takes the first connection with the id away and remembers its name. */
  lemma DeletionExactly(st: Store, order: seq<string>, id: string)
    ensures forall i: nat :: FirstNamed(st, order, i, id) ==>
      Becomes(st, DeleteConnection(st, order, id), st.clients, st.connections - {order[i]},
        st.deleted[order[i] := id])
    ensures (forall name :: name in order && name in st.connections ==> st.connections[name].id != id) ==>
      DeleteConnection(st, order, id) == st
  {
    forall i: nat | FirstNamed(st, order, i, id) ensures NameOf(st.connections, order, id) == Some(order[i]) {
      NamedFrom(st, order, i, id);
    }
    NamedIsThere(st.connections, order, id);
  }

  /** An update rewrites, under its old name, the first connection with the id: what is given, and nothing else. */
  lemma UpdateExactly(st: Store, order: seq<string>, id: string, p: ConnectionPatch, i: nat)
    requires FirstNamed(st, order, i, id)
    ensures var after, c := UpdateConnection(st, order, id, p), st.connections[order[i]];
      exists e ::
        && Becomes(st, after, st.clients, st.connections[order[i] := e], st.deleted)
        && (if p.id.Some? then p.id == Some(e.id) else e.id == c.id)
        && (if p.legacyName.Some? then p.legacyName == Some(e.legacyName) else e.legacyName == c.legacyName)
        && (if p.clientId.Some? then p.clientId == Some(e.clientId) else e.clientId == c.clientId)
        && (if p.createdAt.Some? then p.createdAt == Some(e.createdAt) else e.createdAt == c.createdAt)
        && (if p.updatedAt.Some? then p.updatedAt == Some(e.updatedAt) else e.updatedAt == c.updatedAt)
        && (if p.details.Some? then p.details == Some(e.details) else e.details == c.details)
  {
    NamedFrom(st, order, i, id);
    var e := Changed(st.connections[order[i]], p);
    assert Becomes(st, UpdateConnection(st, order, id, p), st.clients, st.connections[order[i] := e], st.deleted);
  }

  /** A connection saved for a client that exists is filed and no longer deleted; otherwise nothing is written. */
  lemma SaveExactly(st: Store, name: string, c: Connection)
    ensures var after := SaveConnection(st, name, c);
      if c.clientId != "" && c.clientId in st.clients
      then Becomes(st, after, st.clients, st.connections[name := c], st.deleted - {name})
      else after == st
  {
  }

  /** A saved client is stored as given, new or not, and no other is touched. */
  lemma ClientSavedExactly(st: Store, client: Client)
    ensures var after := StoreClient(st, client);
      && Becomes(st, after, after.clients, st.connections, st.deleted)
      && client.id in after.clients && after.clients[client.id] == client
      && (forall id :: id != client.id ==> (id in after.clients <==> id in st.clients))
      && (forall id :: id in st.clients && id != client.id ==> after.clients[id] == st.clients[id])
  {
  }

  /** A client goes exactly when it is there and owns no connection. */
  lemma ClientDeletionExactly(st: Store, clientId: string)
    ensures var after := DeleteClient(st, clientId);
      && Becomes(st, after, after.clients, st.connections, st.deleted)
      && (clientId in after.clients <==>
            && clientId in st.clients
            && exists name :: name in st.connections && st.connections[name].clientId == clientId)
      && (forall id :: id != clientId ==> (id in after.clients <==> id in st.clients))
      && (forall id :: id in after.clients ==> after.clients[id] == st.clients[id])
  {
  }

  /** What Python counts as white space. */
  predicate White(c: char) {
    c in {'\t', '\n', '\U{0B}', '\U{0C}', '\r', '\U{1C}', '\U{1D}', '\U{1E}', '\U{1F}', ' ', '\U{85}', '\U{A0}',
          '\U{1680}', '\U{2000}', '\U{2001}', '\U{2002}', '\U{2003}', '\U{2004}', '\U{2005}', '\U{2006}', '\U{2007}',
          '\U{2008}', '\U{2009}', '\U{200A}', '\U{2028}', '\U{2029}', '\U{202F}', '\U{205F}', '\U{3000}'}
  }

  lemma WhiteIsSpace(c: char)
    ensures White(c) <==> IsSpace(c)
  {
  }

  /** A name is what is left between the white space on both sides. */
  lemma {:induction false} StripExactly(s: string)
    ensures exists i, j ::
      && 0 <= i <= j <= |s| && Strip(s) == s[i..j]
      && (forall k :: 0 <= k < i || j <= k < |s| ==> White(s[k]))
      && (i < j ==> !White(s[i]) && !White(s[j - 1]))
  {
    var i := LeftEnd(s);
    var t := s[i..];
    var n := RightEnd(t);
    assert Strip(s) == s[i..i + n];
    forall k | 0 <= k < |s| ensures White(s[k]) <==> IsSpace(s[k]) { WhiteIsSpace(s[k]); }
    forall k | 0 <= k < i || i + n <= k < |s| ensures White(s[k]) {
      if k >= i { assert s[k] == t[k - i]; }
    }
    if n > 0 { assert t[0] == s[i] && t[n - 1] == s[i + n - 1]; }
  }

  lemma {:induction false} LeftEnd(s: string) returns (i: nat)
    ensures i <= |s| && StripLeft(s) == s[i..]
    ensures forall k :: 0 <= k < i ==> IsSpace(s[k])
    ensures i < |s| ==> !IsSpace(s[i])
  {
    if s != "" && IsSpace(s[0]) {
      var rest := LeftEnd(s[1..]);
      i := 1 + rest;
      assert s[1..][rest..] == s[i..];
      assert forall k :: 1 <= k < i ==> s[k] == s[1..][k - 1];
      assert i < |s| ==> s[i] == s[1..][rest];
    } else {
      i := 0;
      assert s[0..] == s;
    }
  }

  lemma {:induction false} RightEnd(s: string) returns (n: nat)
    ensures n <= |s| && StripRight(s) == s[..n]
    ensures forall k :: n <= k < |s| ==> IsSpace(s[k])
    ensures n > 0 ==> !IsSpace(s[n - 1])
  {
    if s != "" && IsSpace(s[|s| - 1]) {
      n := RightEnd(s[..|s| - 1]);
      assert s[..|s| - 1][..n] == s[..n];
    } else {
      n := |s|;
      assert s[..n] == s;
    }
  }

  /**
   One imported record: skipped when blank or deleted; an orphan goes to the fallback client; an
   unknown name is registered under the record's id, or under its own name when it has none.
   */
  lemma ImportOneExactly(st: Store, r: Legacy, fallback: Client)
    ensures var after, name := ImportOne(st, r, fallback), Strip(r.name);
      var clients := if fallback.id in st.clients then st.clients else st.clients[fallback.id := fallback];
      if name == "" || name in st.deleted then after == st
      else if name !in st.connections then
        var id := if r.id.Some? && r.id.value != "" then r.id.value else name;
        var c := Connection(id, name, fallback.id, fallback.createdAt, fallback.updatedAt, "");
        Becomes(st, after, clients, st.connections[name := c], st.deleted)
      else if st.connections[name].clientId in st.clients then after == st
      else
        var c := st.connections[name].(clientId := fallback.id, updatedAt := fallback.updatedAt);
        Becomes(st, after, clients, st.connections[name := c], st.deleted)
  {
  }

  /** The connection an import files for this record, under this name. */
  function ImportedAs(r: Legacy, name: string, fallback: Client): Connection {
    Connection(if r.id.Some? && r.id.value != "" then r.id.value else name, name,
      fallback.id, fallback.createdAt, fallback.updatedAt, "")
  }

  ghost predicate Imported(st: Store, name: string, c: Connection) {
    c.clientId in st.clients && name in st.connections && st.connections[name] == c
  }

  lemma ImportedNow(st: Store, r: Legacy, fallback: Client, name: string)
    requires name == Strip(r.name) && name != "" && name !in st.deleted && name !in st.connections
    ensures Imported(ImportOne(st, r, fallback), name, ImportedAs(r, name, fallback))
  {
  }

  lemma ImportedStays(st: Store, r: Legacy, fallback: Client, name: string, c: Connection)
    requires Imported(st, name, c)
    ensures Imported(ImportOne(st, r, fallback), name, c)
  {
    ImportOneShape(st, r, fallback);
  }

  lemma NotAmong(st: Store, rs: seq<Legacy>, k: nat, name: string)
    requires k <= |rs| && forall m :: 0 <= m < k ==> Strip(rs[m].name) != name
    ensures name !in NewAmong(st, rs, k)
  {
  }

  /** The connection a whole import files under a new name is the first record's of that name. */
  lemma {:induction false} ImportedIs(st: Store, rs: seq<Legacy>, k: nat, i: nat, fallback: Client, name: string)
    requires i < k <= |rs| && name == Strip(rs[i].name)
    requires name != "" && name !in st.deleted && name !in st.connections
    requires forall m :: 0 <= m < i ==> Strip(rs[m].name) != name
    ensures Imported(ImportFirst(st, rs, k, fallback), name, ImportedAs(rs[i], name, fallback))
  {
    var part := ImportFirst(st, rs, k - 1, fallback);
    if i < k - 1 {
      ImportedIs(st, rs, k - 1, i, fallback, name);
      ImportedStays(part, rs[k - 1], fallback, name, ImportedAs(rs[i], name, fallback));
    } else {
      ImportKeys(st, rs, i, fallback);
      NotAmong(st, rs, i, name);
      assert name !in part.connections.Keys;
      ImportedNow(part, rs[i], fallback, name);
    }
  }

  // ---------------------------------------------------- deletion, over whole runs

  /** An operator deleted the name, and it is gone. */
  predicate Withheld(st: Store, name: string) {
    name in st.deleted && name !in st.connections
  }

  predicate DeletionOf(w: World, s: Step, name: string) {
    s.RemoveConnection? && NameOf(w.store.connections, s.order, s.id) == Some(name)
  }

  /** An operator saves a connection under the name for a client that exists, or a setup is published under it. */
  predicate PutsBack(w: World, s: Step, name: string) {
    || (s.PutConnection? && s.connection.legacyName == name
        && s.connection.clientId != "" && s.connection.clientId in w.store.clients)
    || (s.Act? && (s.cmd.CompleteMeta? || s.cmd.CompleteInstagram?) && s.id in w.store.setups
        && L.Seen(w.store.setups[s.id], s.now).state == Provisioning
        && w.store.setups[s.id].runtimeName == name && Perform(w.store, s.id, s.cmd, s.now).1.Ok?)
    || (s.ResumeHooked? && s.ok && s.call in w.calls && w.calls[s.call].local.state == Provisioning
        && w.calls[s.call].local.runtimeName == name && name != ""
        && w.calls[s.call].local.id in w.store.setups
        && w.store.setups[w.calls[s.call].local.id].clientId in w.store.clients)
  }

  predicate SameNames(a: Store, b: Store) {
    a.connections == b.connections && a.deleted == b.deleted
  }

  lemma ExpiryKeepsNames(st: Store, id: string, now: int)
    ensures SameNames(st, ExpireIfDue(st, id, now))
  {
    if id in st.setups { L.ExpiryExactly(st, id, now); }
  }

  lemma {:induction false} SweepKeepsNames(st: Store, order: seq<string>, k: nat, now: int)
    requires k <= |order|
    ensures SameNames(st, Sweep(st, order, k, now))
  {
    if k > 0 {
      SweepKeepsNames(st, order, k - 1, now);
      ExpiryKeepsNames(Sweep(st, order, k - 1, now), order[k - 1], now);
    }
  }

  lemma OtherCommandKeepsNames(st: Store, id: string, cmd: Command, now: int)
    requires !cmd.CompleteMeta? && !cmd.CompleteInstagram?
    ensures SameNames(st, Perform(st, id, cmd, now).0)
  {
    if id in st.setups { L.PlanLeaves(st, id, cmd, now); }
  }

  lemma CompletionPutsBack(st: Store, id: string, cmd: Command, now: int, name: string)
    requires Withheld(st, name) && (cmd.CompleteMeta? || cmd.CompleteInstagram?)
    ensures Withheld(Perform(st, id, cmd, now).0, name) <==>
      !(id in st.setups && L.Seen(st.setups[id], now).state == Provisioning
        && st.setups[id].runtimeName == name && Perform(st, id, cmd, now).1.Ok?)
  {
    if id in st.setups {
      match cmd
      case CompleteMeta(phone, account, connectionId) =>
        L.CompleteMetaExactly(st, id, phone, account, connectionId, now);
      case CompleteInstagram(account, metadata, connectionId) =>
        L.CompleteInstagramExactly(st, id, account, metadata, connectionId, now);
      case _ =>
    }
  }

  lemma CreateKeepsNames(st: Store, order: seq<string>, r: CreateRequest, now: int)
    ensures SameNames(st, CreateSetup(st, order, r, now).0)
  {
    var key := Strip(r.idempotencyKey);
    var existing := KeyedSetup(st, order, r.clientId, key);
    if existing.Some? { OtherCommandKeepsNames(st, existing.value, Raw, now); }
  }

  lemma AwaitPutsBack(w: World, s: Step, name: string)
    requires Withheld(w.store, name) && (s.ResumeCreated? || s.ResumeHooked?)
    ensures Withheld(After(w, s).store, name) <==> !PutsBack(w, s, name)
  {
    if s.call in w.calls {
      if s.ResumeCreated? { L.CreatedExactly(w.store, w.calls[s.call].local, s.ok, s.now); }
      if s.ResumeHooked? { L.HookedExactly(w.store, w.calls[s.call].local, s.ok, s.connectionId, s.now); }
    }
  }

  lemma BookkeepingPutsBack(w: World, s: Step, name: string)
    requires Withheld(w.store, name) && Bookkeeping(s)
    ensures Withheld(After(w, s).store, name) <==> !PutsBack(w, s, name)
  {
    match s
    case PutConnection(c) => SaveExactly(w.store, c.legacyName, c);
    case ImportLegacy(rs, fallback) => ImportRespectsOperators(w.store, rs, fallback);
    case _ =>
  }

  /** A withheld name comes back exactly by such a step; no import brings it back. */
  lemma PutBackExactly(w: World, s: Step, name: string)
    requires Withheld(w.store, name)
    ensures Withheld(After(w, s).store, name) <==> !PutsBack(w, s, name)
  {
    if Bookkeeping(s) {
      BookkeepingPutsBack(w, s, name);
    } else {
      match s
      case Act(id, cmd, now) =>
        if cmd.CompleteMeta? || cmd.CompleteInstagram? { CompletionPutsBack(w.store, id, cmd, now, name); }
        else { OtherCommandKeepsNames(w.store, id, cmd, now); }
      case Open(order, r, now) => CreateKeepsNames(w.store, order, r, now);
      case ExpireAll(order, now) => SweepKeepsNames(w.store, order, |order|, now);
      case StartCleanup(id, now) => OtherCommandKeepsNames(w.store, id, Raw, now);
      case StartProvision(_, id, now) => OtherCommandKeepsNames(w.store, id, BeginEvolution, now);
      case EndCleanup(_, _, _) =>
      case _ => AwaitPutsBack(w, s, name);
    }
  }

  /** A deletion leaves the name withheld. */
  lemma DeletionWithholds(w: World, s: Step, name: string)
    requires DeletionOf(w, s, name)
    ensures Withheld(After(w, s).store, name)
  {
    NamedIsThere(w.store.connections, s.order, s.id);
  }

  ghost predicate WithheldThroughout(ws: seq<World>, i: nat, j: nat, name: string)
    requires j < |ws|
  {
    forall k {:trigger ws[k]} :: i <= k <= j ==> Withheld(ws[k].store, name)
  }

  predicate NeverPutBack(ws: seq<World>, ss: seq<Step>, i: nat, j: nat, name: string)
    requires |ws| == |ss| + 1 && j <= |ss|
  {
    forall k {:trigger ss[k]} :: i <= k < j ==> !PutsBack(ws[k], ss[k], name)
  }

  ghost predicate Returns(ws: seq<World>, ss: seq<Step>, name: string) {
    && |ws| == |ss| + 1
    && forall k {:trigger ss[k]} :: 0 <= k < |ss| && Withheld(ws[k].store, name) ==>
         (Withheld(ws[k + 1].store, name) <==> !PutsBack(ws[k], ss[k], name))
  }

  lemma {:induction false} WithheldExactly(ws: seq<World>, ss: seq<Step>, i: nat, j: nat, name: string)
    requires Returns(ws, ss, name) && i <= j < |ws| && Withheld(ws[i].store, name)
    ensures WithheldThroughout(ws, i, j, name) <==> NeverPutBack(ws, ss, i, j, name)
  {
    if i < j {
      WithheldExactly(ws, ss, i, j - 1, name);
      var s := ss[j - 1];
    }
  }

  /**
   Over any run: after an operator deletes a connection its name stays deleted and unregistered
   exactly as long as nobody saves a connection or publishes a setup under it, whatever is imported.
   */
  lemma DeletedStaysDeletedExactly(ws: seq<World>, ss: seq<Step>, i: nat, j: nat, name: string)
    requires Run(ws, ss) && i < j < |ws| && DeletionOf(ws[i], ss[i], name)
    ensures WithheldThroughout(ws, i + 1, j, name) <==> NeverPutBack(ws, ss, i + 1, j, name)
  {
    assert ws[i + 1] == After(ws[i], ss[i]);
    DeletionWithholds(ws[i], ss[i], name);
    forall k | 0 <= k < |ss| && Withheld(ws[k].store, name)
      ensures Withheld(ws[k + 1].store, name) <==> !PutsBack(ws[k], ss[k], name)
    {
      assert ws[k + 1] == After(ws[k], ss[k]);
      PutBackExactly(ws[k], ss[k], name);
    }
    WithheldExactly(ws, ss, i + 1, j, name);
  }
}
