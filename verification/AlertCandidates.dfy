/** Which incidents a look at the connections reports, and what that does to the stored list. */
module AlertCandidates {
  import opened Common
  import opened Alerts
  import opened AlertRuns

  datatype Kind =
    | ConnectionDisconnected
    | AuthenticationError
    | EmbeddedSignupPending
    | ProviderDegraded
    | HeartbeatExpired
    | WebhookErrors
    | RepeatedReconnects
    | WhatsappSessionDown
    | InstagramTokenExpired
    | InstagramTokenExpiring
    | CoreDeliveryStalled
    | CoreDeliveryFailed

  /** What is known of a connection when the incidents are computed. */
  datatype Connection = Connection(
    id: string,
    name: string,
    clientId: string,
    clientName: Option<string>,
    state: string,
    lifecycle: Option<string>,
    health: string,
    provider: string,
    channel: string,
    heartbeatAt: Option<int>,
    webhookError: Option<string>,
    reconnects: nat,
    sessionState: Option<string>,
    tokenState: string,
    pendingAgeSeconds: int,
    failed24h: int)

  const HEARTBEAT_MAX_AGE := 900
  const RECONNECT_THRESHOLD := 3

  const STORED_KINDS := {ConnectionDisconnected, AuthenticationError, EmbeddedSignupPending, ProviderDegraded}
  const STATUS_KINDS := STORED_KINDS + {HeartbeatExpired, WebhookErrors, RepeatedReconnects}
  const SIGNAL_KINDS :=
    {WhatsappSessionDown, InstagramTokenExpired, InstagramTokenExpiring, CoreDeliveryStalled, CoreDeliveryFailed}
  const SPECIFIC := {WhatsappSessionDown, InstagramTokenExpired}
  const GENERIC := {ConnectionDisconnected, ProviderDegraded, AuthenticationError, HeartbeatExpired}

  function Code(k: Kind): string {
    match k
    case ConnectionDisconnected => "connection_disconnected"
    case AuthenticationError => "authentication_error"
    case EmbeddedSignupPending => "embedded_signup_pending"
    case ProviderDegraded => "provider_degraded"
    case HeartbeatExpired => "heartbeat_expired"
    case WebhookErrors => "webhook_errors"
    case RepeatedReconnects => "repeated_reconnects"
    case WhatsappSessionDown => "whatsapp_session_down"
    case InstagramTokenExpired => "instagram_token_expired"
    case InstagramTokenExpiring => "instagram_token_expiring"
    case CoreDeliveryStalled => "core_delivery_stalled"
    case CoreDeliveryFailed => "core_delivery_failed"
  }

  /** Lower case as far as ASCII words can tell: the Kelvin sign is the one other letter that folds to one of theirs. */
  function Fold(c: char): char {
    if 'A' <= c <= 'Z' then c - 'A' + 'a' else if c == '\U{212A}' then 'k' else c
  }

  function Lower(s: string): string {
    seq(|s|, i requires 0 <= i < |s| => Fold(s[i]))
  }

  predicate Contains(s: string, word: string) {
    word <= s || (s != "" && Contains(s[1..], word))
  }

  predicate InstagramLogin(c: Connection) {
    c.provider == "meta" && c.channel == "instagram"
  }

  /** When each kind of incident is reported; `live` says whether the provider's own state is at hand. */
  predicate Due(k: Kind, c: Connection, live: bool, now: int) {
    match k
    case ConnectionDisconnected => c.state == "disconnected"
    case AuthenticationError =>
      Contains(Lower(Text(c.lifecycle)), "auth") || Contains(Lower(Text(c.lifecycle)), "token")
    case EmbeddedSignupPending => (c.state == "pending" || c.state == "connecting") && c.provider != "evolution"
    case ProviderDegraded => c.health == "degraded" || c.health == "unhealthy"
    case HeartbeatExpired =>
      c.heartbeatAt.Some? && !(live && c.provider == "evolution") && now - c.heartbeatAt.value > HEARTBEAT_MAX_AGE
    case WebhookErrors => Text(c.webhookError) != ""
    case RepeatedReconnects => c.reconnects >= RECONNECT_THRESHOLD
    case WhatsappSessionDown =>
      live && c.provider == "evolution" && c.sessionState.Some? && c.sessionState.value != "open"
    case InstagramTokenExpired => live && InstagramLogin(c) && (c.tokenState == "expired" || c.tokenState == "missing")
    case InstagramTokenExpiring => live && InstagramLogin(c) && c.tokenState == "expiring"
    case CoreDeliveryStalled => live && c.pendingAgeSeconds > 600
    case CoreDeliveryFailed => live && c.pendingAgeSeconds <= 600 && c.failed24h != 0
  }

  predicate Critical(k: Kind, c: Connection) {
    match k
    case ConnectionDisconnected => true
    case AuthenticationError => true
    case WhatsappSessionDown => true
    case InstagramTokenExpired => true
    case CoreDeliveryStalled => true
    case ProviderDegraded => c.health == "unhealthy"
    case _ => false
  }

  function FingerprintOf(k: Kind, id: string): string {
    Code(k) + ":" + id
  }

  function Incident(k: Kind, c: Connection): Candidate {
    Candidate(FingerprintOf(k, c.id), if Critical(k, c) then "critical" else "warning",
      Reference(c.clientId, if c.clientName.Some? then c.clientName.value else "Cliente"),
      Reference(c.id, c.name), "/connections/" + c.id)
  }

  // ------------------------------------------------------------- fingerprints

  /** `fingerprint.split(":", 1)[0]`. */
  function KindPart(f: string): string {
    if f == "" || f[0] == ':' then "" else [f[0]] + KindPart(f[1..])
  }

  lemma {:induction false} KindPartOf(code: string, rest: string)
    requires ':' !in code
    ensures KindPart(code + ":" + rest) == code
  {
    if code == "" {
      assert ("" + ":" + rest)[0] == ':';
    } else {
      KindPartOf(code[1..], rest);
      assert (code + ":" + rest)[1..] == code[1..] + ":" + rest;
      assert code == [code[0]] + code[1..];
    }
  }

  lemma CodesDiffer(a: Kind, b: Kind)
    requires Code(a) == Code(b)
    ensures a == b
  {
  }

  lemma NoColonInStatus(k: Kind)
    requires k.ConnectionDisconnected? || k.AuthenticationError? || k.EmbeddedSignupPending?
    ensures ':' !in Code(k)
  {
  }

  lemma NoColonInActivity(k: Kind)
    requires k.ProviderDegraded? || k.HeartbeatExpired? || k.WebhookErrors? || k.RepeatedReconnects?
    ensures ':' !in Code(k)
  {
  }

  lemma NoColonInSession(k: Kind)
    requires k.WhatsappSessionDown? || k.InstagramTokenExpired? || k.InstagramTokenExpiring?
    ensures ':' !in Code(k)
  {
  }

  lemma NoColonInDelivery(k: Kind)
    requires k.CoreDeliveryStalled? || k.CoreDeliveryFailed?
    ensures ':' !in Code(k)
  {
  }

  lemma NoColon(k: Kind)
    ensures ':' !in Code(k)
  {
    if k.ConnectionDisconnected? || k.AuthenticationError? || k.EmbeddedSignupPending? {
      NoColonInStatus(k);
    } else if k.ProviderDegraded? || k.HeartbeatExpired? || k.WebhookErrors? || k.RepeatedReconnects? {
      NoColonInActivity(k);
    } else if k.WhatsappSessionDown? || k.InstagramTokenExpired? || k.InstagramTokenExpiring? {
      NoColonInSession(k);
    } else {
      NoColonInDelivery(k);
    }
  }

  lemma SplitAtColon(s: string, a: string, t: string, b: string)
    requires ':' !in s && ':' !in t
    ensures s + ":" + a == t + ":" + b <==> s == t && a == b
  {
    KindPartOf(s, a);
    KindPartOf(t, b);
    if s + ":" + a == t + ":" + b {
      assert (s + ":" + a)[|s| + 1..] == a && (t + ":" + b)[|s| + 1..] == b;
    }
  }

  /** A fingerprint says which incident of which connection it is. */
  lemma FingerprintsIdentify(j: Kind, a: string, k: Kind, b: string)
    ensures KindPart(FingerprintOf(k, b)) == Code(k)
    ensures FingerprintOf(j, a) == FingerprintOf(k, b) <==> j == k && a == b
  {
    NoColon(j);
    NoColon(k);
    KindPartOf(Code(k), b);
    SplitAtColon(Code(j), a, Code(k), b);
    if Code(j) == Code(k) { CodesDiffer(j, k); }
  }

  // ---------------------------------------------------------------- builders

  type Question = (Connection, Kind)

  ghost predicate From(x: Candidate, asked: set<Question>, live: bool, now: int) {
    exists q :: q in asked && Due(q.1, q.0, live, now) && x == Incident(q.1, q.0)
  }

  /** The list holds the incidents of the questions answered yes, and nothing else. */
  ghost predicate Covers(cs: seq<Candidate>, asked: set<Question>, live: bool, now: int) {
    forall x :: x in cs <==> From(x, asked, live, now)
  }

  function Asked(c: Connection, kinds: set<Kind>): set<Question> {
    set k | k in kinds :: (c, k)
  }

  /** Every connection is asked for every kind. */
  function AskedAll(connections: seq<Connection>, kinds: set<Kind>): set<Question> {
    set c, k | c in connections && k in kinds :: (c, k)
  }

  ghost predicate DistinctIds(connections: seq<Connection>) {
    forall i, j :: 0 <= i < j < |connections| ==> connections[i].id != connections[j].id
  }

  lemma CoverOne(cs: seq<Candidate>, asked: set<Question>, c: Connection, k: Kind, live: bool, now: int)
    requires Covers(cs, asked, live, now)
    ensures Covers(if Due(k, c, live, now) then cs + [Incident(k, c)] else cs, asked + {(c, k)}, live, now)
  {
    var wider := asked + {(c, k)};
    forall x ensures From(x, wider, live, now) <==>
      From(x, asked, live, now) || (Due(k, c, live, now) && x == Incident(k, c)) {
      if From(x, asked, live, now) {
        var q :| q in asked && Due(q.1, q.0, live, now) && x == Incident(q.1, q.0);
        assert q in wider;
      }
      if Due(k, c, live, now) && x == Incident(k, c) { assert (c, k) in wider; }
    }
  }

  lemma OnceOne(cs: seq<Candidate>, asked: set<Question>, c: Connection, k: Kind, live: bool, now: int)
    requires Covers(cs, asked, live, now) && OncePerFingerprint(cs)
    requires forall q :: q in asked ==> q.1 != k || q.0.id != c.id
    ensures OncePerFingerprint(cs + [Incident(k, c)])
  {
    forall x | x in cs ensures x.fingerprint != FingerprintOf(k, c.id) {
      assert From(x, asked, live, now);
      var q :| q in asked && Due(q.1, q.0, live, now) && x == Incident(q.1, q.0);
      FingerprintsIdentify(q.1, q.0.id, k, c.id);
    }
  }

  lemma CoverBoth(cs: seq<Candidate>, asked: set<Question>, ds: seq<Candidate>, more: set<Question>, live: bool,
                  now: int)
    requires Covers(cs, asked, live, now) && Covers(ds, more, live, now)
    ensures Covers(cs + ds, asked + more, live, now)
  {
    forall x ensures From(x, asked + more, live, now) <==> From(x, asked, live, now) || From(x, more, live, now) {
    }
    assert forall x :: x in cs + ds <==> x in cs || x in ds;
  }

  lemma OnceBoth(cs: seq<Candidate>, asked: set<Question>, ds: seq<Candidate>, more: set<Question>, live: bool,
                 now: int)
    requires Covers(cs, asked, live, now) && Covers(ds, more, live, now) && OncePerFingerprint(cs)
    requires OncePerFingerprint(ds)
    requires forall p, q :: p in asked && q in more ==> p.1 != q.1 || p.0.id != q.0.id
    ensures OncePerFingerprint(cs + ds)
  {
    forall x, y | x in cs && y in ds ensures x.fingerprint != y.fingerprint {
      assert From(x, asked, live, now) && From(y, more, live, now);
      var p :| p in asked && Due(p.1, p.0, live, now) && x == Incident(p.1, p.0);
      var q :| q in more && Due(q.1, q.0, live, now) && y == Incident(q.1, q.0);
      FingerprintsIdentify(p.1, p.0.id, q.1, q.0.id);
    }
  }

  /** Add the incident when its condition holds. `seen` are the kinds already looked at. */
  method Consider(cs: seq<Candidate>, c: Connection, ghost seen: set<Kind>, k: Kind, condition: bool, live: bool,
                  now: int)
    returns (r: seq<Candidate>)
    requires Covers(cs, Asked(c, seen), live, now) && OncePerFingerprint(cs)
    requires k !in seen && (condition <==> Due(k, c, live, now))
    ensures Covers(r, Asked(c, seen + {k}), live, now) && OncePerFingerprint(r)
  {
    OnceOne(cs, Asked(c, seen), c, k, live, now);
    CoverOne(cs, Asked(c, seen), c, k, live, now);
    assert Asked(c, seen + {k}) == Asked(c, seen) + {(c, k)};
    r := cs;
    if condition {
      r := r + [Incident(k, c)];
    }
  }

  /** The incidents in a connection's stored status. */
  method StatusCandidates(c: Connection, live: bool, now: int) returns (cs: seq<Candidate>)
    ensures Covers(cs, Asked(c, STORED_KINDS), live, now) && OncePerFingerprint(cs)
  {
    var lifecycle := Lower(Text(c.lifecycle));
    var unauthorised := Contains(lifecycle, "auth") || Contains(lifecycle, "token");
    var pending := (c.state == "pending" || c.state == "connecting") && c.provider != "evolution";
    cs := [];
    ghost var seen: set<Kind> := {};
    cs := Consider(cs, c, seen, ConnectionDisconnected, c.state == "disconnected", live, now);
    seen := seen + {ConnectionDisconnected};
    cs := Consider(cs, c, seen, AuthenticationError, unauthorised, live, now);
    seen := seen + {AuthenticationError};
    cs := Consider(cs, c, seen, EmbeddedSignupPending, pending, live, now);
    seen := seen + {EmbeddedSignupPending};
    cs := Consider(cs, c, seen, ProviderDegraded, c.health == "degraded" || c.health == "unhealthy", live, now);
    seen := seen + {ProviderDegraded};
    assert seen == STORED_KINDS;
  }

  method ConnectionCandidates(c: Connection, live: bool, now: int) returns (cs: seq<Candidate>)
    ensures Covers(cs, Asked(c, STATUS_KINDS), live, now) && OncePerFingerprint(cs)
  {
    cs := StatusCandidates(c, live, now);
    ghost var seen := STORED_KINDS;
    var liveSession := live && c.provider == "evolution";
    var stale := c.heartbeatAt.Some? && !liveSession && now - c.heartbeatAt.value > HEARTBEAT_MAX_AGE;
    cs := Consider(cs, c, seen, HeartbeatExpired, stale, live, now);
    seen := seen + {HeartbeatExpired};
    cs := Consider(cs, c, seen, WebhookErrors, Text(c.webhookError) != "", live, now);
    seen := seen + {WebhookErrors};
    cs := Consider(cs, c, seen, RepeatedReconnects, c.reconnects >= RECONNECT_THRESHOLD, live, now);
    seen := seen + {RepeatedReconnects};
    assert seen == STATUS_KINDS;
  }

  /** The incidents of one connection seen through the provider's own state. */
  method OneSignalCandidates(c: Connection, now: int) returns (cs: seq<Candidate>)
    ensures Covers(cs, Asked(c, SIGNAL_KINDS), true, now) && OncePerFingerprint(cs)
  {
    var login, stalled := InstagramLogin(c), c.pendingAgeSeconds > 600;
    cs := [];
    ghost var seen: set<Kind> := {};
    var down := c.provider == "evolution" && c.sessionState.Some? && c.sessionState.value != "open";
    cs := Consider(cs, c, seen, WhatsappSessionDown, down, true, now);
    seen := seen + {WhatsappSessionDown};
    var expired := login && (c.tokenState == "expired" || c.tokenState == "missing");
    cs := Consider(cs, c, seen, InstagramTokenExpired, expired, true, now);
    seen := seen + {InstagramTokenExpired};
    cs := Consider(cs, c, seen, InstagramTokenExpiring, login && c.tokenState == "expiring", true, now);
    seen := seen + {InstagramTokenExpiring};
    cs := Consider(cs, c, seen, CoreDeliveryStalled, stalled, true, now);
    seen := seen + {CoreDeliveryStalled};
    cs := Consider(cs, c, seen, CoreDeliveryFailed, !stalled && c.failed24h != 0, true, now);
    seen := seen + {CoreDeliveryFailed};
    assert seen == SIGNAL_KINDS;
  }

  lemma AskOneMore(connections: seq<Connection>, k: nat, kinds: set<Kind>)
    requires k < |connections|
    ensures AskedAll(connections[..k + 1], kinds) == AskedAll(connections[..k], kinds) + Asked(connections[k], kinds)
    ensures DistinctIds(connections) ==>
      forall p, q :: p in AskedAll(connections[..k], kinds) && q in Asked(connections[k], kinds) ==> p.0.id != q.0.id
  {
  }

  method Candidates(connections: seq<Connection>, live: bool, now: int) returns (cs: seq<Candidate>)
    ensures Covers(cs, AskedAll(connections, STATUS_KINDS), live, now)
    ensures DistinctIds(connections) ==> OncePerFingerprint(cs)
  {
    cs := [];
    for k := 0 to |connections|
      invariant Covers(cs, AskedAll(connections[..k], STATUS_KINDS), live, now)
      invariant DistinctIds(connections) ==> OncePerFingerprint(cs)
    {
      var more := ConnectionCandidates(connections[k], live, now);
      AskOneMore(connections, k, STATUS_KINDS);
      CoverBoth(cs, AskedAll(connections[..k], STATUS_KINDS), more, Asked(connections[k], STATUS_KINDS), live, now);
      if DistinctIds(connections) {
        OnceBoth(cs, AskedAll(connections[..k], STATUS_KINDS), more, Asked(connections[k], STATUS_KINDS), live, now);
      }
      cs := cs + more;
    }
    assert connections[..|connections|] == connections;
  }

  method SignalCandidates(connections: seq<Connection>, live: bool, now: int) returns (cs: seq<Candidate>)
    ensures Covers(cs, AskedAll(connections, SIGNAL_KINDS), live, now)
    ensures DistinctIds(connections) ==> OncePerFingerprint(cs)
  {
    cs := [];
    if !live {
      return;
    }
    for k := 0 to |connections|
      invariant Covers(cs, AskedAll(connections[..k], SIGNAL_KINDS), live, now)
      invariant DistinctIds(connections) ==> OncePerFingerprint(cs)
    {
      var more := OneSignalCandidates(connections[k], now);
      AskOneMore(connections, k, SIGNAL_KINDS);
      CoverBoth(cs, AskedAll(connections[..k], SIGNAL_KINDS), more, Asked(connections[k], SIGNAL_KINDS), live, now);
      if DistinctIds(connections) {
        OnceBoth(cs, AskedAll(connections[..k], SIGNAL_KINDS), more, Asked(connections[k], SIGNAL_KINDS), live, now);
      }
      cs := cs + more;
    }
    assert connections[..|connections|] == connections;
  }

  // ------------------------------------------------------------- supersession

  function Codes(kinds: set<Kind>): set<string> {
    set k | k in kinds :: Code(k)
  }

  function Diagnosed(cs: seq<Candidate>): set<string> {
    set x | x in cs && KindPart(x.fingerprint) in Codes(SPECIFIC) :: x.connection.id
  }

  predicate Superseded(x: Candidate, diagnosed: set<string>) {
    x.connection.id in diagnosed && KindPart(x.fingerprint) in Codes(GENERIC)
  }

  function Filtered(cs: seq<Candidate>, diagnosed: set<string>): (r: seq<Candidate>)
    ensures forall x :: x in r <==> x in cs && !Superseded(x, diagnosed)
  {
    if cs == [] then []
    else
      var front, last := cs[..|cs| - 1], cs[|cs| - 1];
      assert cs == front + [last];
      Filtered(front, diagnosed)
      + if Superseded(last, diagnosed) then [] else [last]
  }

  /** A specific diagnosis of a connection replaces the generic ones. */
  function WithoutSuperseded(cs: seq<Candidate>): seq<Candidate> {
    Filtered(cs, Diagnosed(cs))
  }

  lemma {:induction false} FilteredOnce(cs: seq<Candidate>, diagnosed: set<string>)
    requires OncePerFingerprint(cs)
    ensures OncePerFingerprint(Filtered(cs, diagnosed))
  {
    if cs != [] {
      FilteredOnce(cs[..|cs| - 1], diagnosed);
      assert forall x :: x in cs[..|cs| - 1] ==> x.fingerprint != cs[|cs| - 1].fingerprint;
    }
  }

  lemma {:induction false} NothingSuperseded(cs: seq<Candidate>, diagnosed: set<string>)
    requires forall x :: x in cs ==> !Superseded(x, diagnosed)
    ensures Filtered(cs, diagnosed) == cs
  {
    if cs != [] {
      var front, last := cs[..|cs| - 1], cs[|cs| - 1];
      assert cs == front + [last] && last in cs;
      NothingSuperseded(front, diagnosed);
    }
  }

  lemma SpecificIsNotGeneric(code: string)
    requires code in Codes(SPECIFIC)
    ensures code !in Codes(GENERIC)
  {
  }

  lemma SupersedingIsIdempotent(cs: seq<Candidate>)
    ensures WithoutSuperseded(WithoutSuperseded(cs)) == WithoutSuperseded(cs)
  {
    var once := WithoutSuperseded(cs);
    forall x | x in cs && KindPart(x.fingerprint) in Codes(SPECIFIC) ensures x in once {
      SpecificIsNotGeneric(KindPart(x.fingerprint));
    }
    assert Diagnosed(once) == Diagnosed(cs);
    NothingSuperseded(once, Diagnosed(once));
  }

  // --------------------------------------------------------------- the report

  const ALL_KINDS := STATUS_KINDS + SIGNAL_KINDS

  predicate DueAt(k: Kind, id: string, connections: seq<Connection>, live: bool, now: int) {
    exists c :: c in connections && c.id == id && Due(k, c, live, now)
  }

  /** Reported under this id: due, and not a generic status where a specific diagnosis is due. */
  predicate Shown(k: Kind, id: string, connections: seq<Connection>, live: bool, now: int) {
    && DueAt(k, id, connections, live, now)
    && !(k in GENERIC && exists s :: s in SPECIFIC && DueAt(s, id, connections, live, now))
  }

  lemma CodeAmong(k: Kind, kinds: set<Kind>)
    ensures Code(k) in Codes(kinds) <==> k in kinds
  {
    forall j | j in kinds && Code(j) == Code(k) ensures j == k { CodesDiffer(j, k); }
  }

  lemma DiagnosedExactly(cs: seq<Candidate>, connections: seq<Connection>, id: string, live: bool, now: int)
    requires Covers(cs, AskedAll(connections, ALL_KINDS), live, now)
    ensures id in Diagnosed(cs) <==> exists s :: s in SPECIFIC && DueAt(s, id, connections, live, now)
  {
    var asked := AskedAll(connections, ALL_KINDS);
    forall s | s in SPECIFIC && DueAt(s, id, connections, live, now) ensures id in Diagnosed(cs) {
      var c :| c in connections && c.id == id && Due(s, c, live, now);
      assert (c, s) in asked;
      assert From(Incident(s, c), asked, live, now);
      FingerprintsIdentify(s, c.id, s, c.id);
    }
    if id in Diagnosed(cs) {
      var x :| x in cs && KindPart(x.fingerprint) in Codes(SPECIFIC) && x.connection.id == id;
      assert From(x, asked, live, now);
      var q :| q in asked && Due(q.1, q.0, live, now) && x == Incident(q.1, q.0);
      FingerprintsIdentify(q.1, q.0.id, q.1, q.0.id);
      CodeAmong(q.1, SPECIFIC);
    }
  }

  lemma ReportedIsShown(cs: seq<Candidate>, connections: seq<Connection>, x: Candidate, live: bool, now: int)
    returns (k: Kind, id: string)
    requires Covers(cs, AskedAll(connections, ALL_KINDS), live, now) && x in WithoutSuperseded(cs)
    ensures x.fingerprint == FingerprintOf(k, id) && Shown(k, id, connections, live, now)
  {
    var asked := AskedAll(connections, ALL_KINDS);
    assert From(x, asked, live, now);
    var q :| q in asked && Due(q.1, q.0, live, now) && x == Incident(q.1, q.0);
    k, id := q.1, q.0.id;
    FingerprintsIdentify(k, id, k, id);
    CodeAmong(k, GENERIC);
    DiagnosedExactly(cs, connections, id, live, now);
  }

  lemma ShownIsReported(cs: seq<Candidate>, connections: seq<Connection>, k: Kind, id: string, live: bool, now: int)
    requires Covers(cs, AskedAll(connections, ALL_KINDS), live, now) && Shown(k, id, connections, live, now)
    ensures FingerprintOf(k, id) in Reported(WithoutSuperseded(cs))
  {
    var c :| c in connections && c.id == id && Due(k, c, live, now);
    assert k in ALL_KINDS;
    assert (c, k) in AskedAll(connections, ALL_KINDS);
    assert From(Incident(k, c), AskedAll(connections, ALL_KINDS), live, now);
    FingerprintsIdentify(k, id, k, id);
    CodeAmong(k, GENERIC);
    DiagnosedExactly(cs, connections, id, live, now);
    assert Incident(k, c) in WithoutSuperseded(cs);
  }

  lemma ReportedExactly(cs: seq<Candidate>, connections: seq<Connection>, k: Kind, id: string, live: bool, now: int)
    requires Covers(cs, AskedAll(connections, ALL_KINDS), live, now)
    ensures FingerprintOf(k, id) in Reported(WithoutSuperseded(cs)) <==> Shown(k, id, connections, live, now)
  {
    if Shown(k, id, connections, live, now) { ShownIsReported(cs, connections, k, id, live, now); }
    if FingerprintOf(k, id) in Reported(WithoutSuperseded(cs)) {
      var x :| x in WithoutSuperseded(cs) && x.fingerprint == FingerprintOf(k, id);
      var j, other := ReportedIsShown(cs, connections, x, live, now);
      FingerprintsIdentify(j, other, k, id);
    }
  }

  /** The report holds exactly the incidents to be shown; where ids are distinct, each fingerprint once. */
  lemma ReportNamesEachOnce(cs: seq<Candidate>, connections: seq<Connection>, live: bool, now: int)
    requires Covers(cs, AskedAll(connections, ALL_KINDS), live, now)
    ensures OncePerFingerprint(cs) ==> OncePerFingerprint(WithoutSuperseded(cs))
    ensures forall k, id :: FingerprintOf(k, id) in Reported(WithoutSuperseded(cs)) <==>
      Shown(k, id, connections, live, now)
    ensures forall f :: f in Reported(WithoutSuperseded(cs)) ==> exists k, id :: f == FingerprintOf(k, id)
  {
    if OncePerFingerprint(cs) { FilteredOnce(cs, Diagnosed(cs)); }
    forall k, id ensures FingerprintOf(k, id) in Reported(WithoutSuperseded(cs)) <==>
      Shown(k, id, connections, live, now) {
      ReportedExactly(cs, connections, k, id, live, now);
    }
    forall x | x in WithoutSuperseded(cs) ensures exists k, id :: x.fingerprint == FingerprintOf(k, id) {
      var k, id := ReportedIsShown(cs, connections, x, live, now);
    }
  }

  /** Everything the connections report, before supersession. */
  method AllCandidates(connections: seq<Connection>, live: bool, now: int) returns (cs: seq<Candidate>)
    ensures Covers(cs, AskedAll(connections, ALL_KINDS), live, now)
    ensures DistinctIds(connections) ==> OncePerFingerprint(cs)
  {
    var status := Candidates(connections, live, now);
    var signals := SignalCandidates(connections, live, now);
    CoverBoth(status, AskedAll(connections, STATUS_KINDS), signals, AskedAll(connections, SIGNAL_KINDS), live, now);
    if DistinctIds(connections) {
      OnceBoth(status, AskedAll(connections, STATUS_KINDS), signals, AskedAll(connections, SIGNAL_KINDS), live, now);
    }
    assert AskedAll(connections, STATUS_KINDS) + AskedAll(connections, SIGNAL_KINDS) ==
      AskedAll(connections, ALL_KINDS);
    cs := status + signals;
  }

  /**
   One look at the connections: afterwards an incident is active exactly when it is to be shown
   and was active before or is neither resolved by hand nor dismissed; nothing else is active.
   */
  method ListAlerts(store: AlertStore, connections: seq<Connection>, draw: nat -> string, live: bool, now: int)
    returns (records: seq<Alert>)
    modifies store
    ensures records == store.alerts
    ensures exists cs ::
      && (DistinctIds(connections) ==> OncePerFingerprint(cs))
      && store.State() == Synced(old(store.State()), cs, seq(|cs|, draw), now)
    ensures forall k, id ::
      (FingerprintOf(k, id) in ActiveFingerprints(store.alerts) <==>
        && Shown(k, id, connections, live, now)
        && (FingerprintOf(k, id) in old(ActiveFingerprints(store.alerts)) ||
            (FingerprintOf(k, id) !in old(HandResolved(store.alerts)) &&
              FingerprintOf(k, id) !in old(store.dismissed))))
    ensures forall f :: f in ActiveFingerprints(store.alerts) ==> exists k, id :: f == FingerprintOf(k, id)
  {
    var cs := AllCandidates(connections, live, now);
    ReportNamesEachOnce(cs, connections, live, now);
    var report := WithoutSuperseded(cs);
    var ids := seq(|report|, draw);
    forall f ensures f in ActiveFingerprints(Synced(store.State(), report, ids, now).alerts) <==>
      f in Reported(report) &&
        (f in ActiveFingerprints(store.alerts) || (f !in HandResolved(store.alerts) && f !in store.dismissed))
    {
      ActiveExactly(store.State(), report, ids, now, f);
    }
    records := store.Sync(report, ids, now);
  }
}
