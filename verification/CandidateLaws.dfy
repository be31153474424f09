/** The incidents of a report by their codes: when each is there, how severe it is, and what it refers to. */
module CandidateLaws {
  import opened Common
  import opened Alerts
  import opened AlertRuns
  import opened AlertCandidates

  // ------------------------------------------------------- words in a lifecycle

  /** The small letter, its capital, or the Kelvin sign for a `k`. */
  predicate SameLetter(c: char, small: char) {
    c == small || c as int == small as int - 32 || (small == 'k' && c == '\U{212A}')
  }

  ghost predicate WordAt(s: string, word: string, i: nat) {
    i + |word| <= |s| && forall j :: 0 <= j < |word| ==> SameLetter(s[i + j], word[j])
  }

  ghost predicate HasWord(s: Option<string>, word: string) {
    s.Some? && exists i :: WordAt(s.value, word, i)
  }

  ghost predicate SmallLetters(word: string) {
    forall j :: 0 <= j < |word| ==> 'a' <= word[j] <= 'z'
  }

  lemma WordHere(s: string, word: string, i: nat)
    requires SmallLetters(word) && i <= |s|
    ensures word <= Lower(s)[i..] <==> WordAt(s, word, i)
  {
    var t := Lower(s)[i..];
    if word <= t {
      forall j | 0 <= j < |word| ensures SameLetter(s[i + j], word[j]) { assert t[j] == word[j] == Fold(s[i + j]); }
    }
    if WordAt(s, word, i) {
      forall j | 0 <= j < |word| ensures t[j] == word[j] { assert SameLetter(s[i + j], word[j]); }
    }
  }

  lemma {:induction false} WordsFrom(s: string, word: string, i: nat)
    requires SmallLetters(word) && word != "" && i <= |s|
    ensures Contains(Lower(s)[i..], word) <==> exists k :: i <= k && WordAt(s, word, k)
    decreases |s| - i
  {
    WordHere(s, word, i);
    if i < |s| {
      WordsFrom(s, word, i + 1);
      assert Lower(s)[i..][1..] == Lower(s)[i + 1..];
    }
  }

  lemma LifecycleWords(s: Option<string>, word: string)
    requires SmallLetters(word) && word != ""
    ensures Contains(Lower(Text(s)), word) <==> HasWord(s, word)
  {
    WordsFrom(Text(s), word, 0);
    assert Lower(Text(s))[0..] == Lower(Text(s));
    if s.None? { assert forall k :: !WordAt("", word, k); }
  }

  // ------------------------------------------------------------ code by code

  /** When the incident with this code is due of a connection. */
  ghost predicate Holds(code: string, c: Connection, live: bool, now: int) {
    var evolution, instagram := c.provider == "evolution", c.provider == "meta" && c.channel == "instagram";
    || (code == "connection_disconnected" && c.state == "disconnected")
    || (code == "authentication_error" && (HasWord(c.lifecycle, "auth") || HasWord(c.lifecycle, "token")))
    || (code == "embedded_signup_pending" && (c.state == "pending" || c.state == "connecting") && !evolution)
    || (code == "provider_degraded" && (c.health == "degraded" || c.health == "unhealthy"))
    || (code == "heartbeat_expired" && c.heartbeatAt.Some? && now - c.heartbeatAt.value > 900 && !(live && evolution))
    || (code == "webhook_errors" && c.webhookError.Some? && c.webhookError.value != "")
    || (code == "repeated_reconnects" && c.reconnects >= 3)
    || (code == "whatsapp_session_down" && live && evolution && c.sessionState.Some? && c.sessionState.value != "open")
    || (code == "instagram_token_expired" && live && instagram
        && (c.tokenState == "expired" || c.tokenState == "missing"))
    || (code == "instagram_token_expiring" && live && instagram && c.tokenState == "expiring")
    || (code == "core_delivery_stalled" && live && c.pendingAgeSeconds > 600)
    || (code == "core_delivery_failed" && live && c.pendingAgeSeconds <= 600 && c.failed24h != 0)
  }

  predicate IsGeneric(code: string) {
    || code == "connection_disconnected" || code == "provider_degraded"
    || code == "authentication_error" || code == "heartbeat_expired"
  }

  predicate IsCritical(code: string, c: Connection) {
    || code == "connection_disconnected" || code == "authentication_error" || code == "whatsapp_session_down"
    || code == "instagram_token_expired" || code == "core_delivery_stalled"
    || (code == "provider_degraded" && c.health == "unhealthy")
  }

  lemma AuthenticationDueByCode(c: Connection, live: bool, now: int)
    ensures Due(AuthenticationError, c, live, now) <==> Holds("authentication_error", c, live, now)
  {
    LifecycleWords(c.lifecycle, "auth");
    LifecycleWords(c.lifecycle, "token");
  }

  lemma StatusDueByCode(k: Kind, c: Connection, live: bool, now: int)
    requires k == ConnectionDisconnected || k == EmbeddedSignupPending || k == ProviderDegraded
    ensures Due(k, c, live, now) <==> Holds(Code(k), c, live, now)
  {
  }

  lemma ActivityDueByCode(k: Kind, c: Connection, live: bool, now: int)
    requires k == HeartbeatExpired || k == WebhookErrors || k == RepeatedReconnects
    ensures Due(k, c, live, now) <==> Holds(Code(k), c, live, now)
  {
  }

  lemma SignalDueByCode(k: Kind, c: Connection, live: bool, now: int)
    requires k in SIGNAL_KINDS
    ensures Due(k, c, live, now) <==> Holds(Code(k), c, live, now)
  {
  }

  lemma DueByCode(k: Kind, c: Connection, live: bool, now: int)
    ensures Due(k, c, live, now) <==> Holds(Code(k), c, live, now)
  {
    if k == AuthenticationError {
      AuthenticationDueByCode(c, live, now);
    } else if k in STORED_KINDS {
      StatusDueByCode(k, c, live, now);
    } else if k in SIGNAL_KINDS {
      SignalDueByCode(k, c, live, now);
    } else {
      ActivityDueByCode(k, c, live, now);
    }
  }

  lemma CriticalByCode(k: Kind, c: Connection)
    ensures Critical(k, c) <==> IsCritical(Code(k), c)
  {
  }

  /** Only these codes are ever due. */
  lemma KindOf(code: string, c: Connection, live: bool, now: int) returns (k: Kind)
    requires Holds(code, c, live, now)
    ensures Code(k) == code
  {
    k := if code == "connection_disconnected" then ConnectionDisconnected
      else if code == "authentication_error" then AuthenticationError
      else if code == "embedded_signup_pending" then EmbeddedSignupPending
      else if code == "provider_degraded" then ProviderDegraded
      else if code == "heartbeat_expired" then HeartbeatExpired
      else if code == "webhook_errors" then WebhookErrors
      else if code == "repeated_reconnects" then RepeatedReconnects
      else if code == "whatsapp_session_down" then WhatsappSessionDown
      else if code == "instagram_token_expired" then InstagramTokenExpired
      else if code == "instagram_token_expiring" then InstagramTokenExpiring
      else if code == "core_delivery_stalled" then CoreDeliveryStalled
      else CoreDeliveryFailed;
  }

  ghost predicate HoldsAt(code: string, id: string, connections: seq<Connection>, live: bool, now: int) {
    exists c :: c in connections && c.id == id && Holds(code, c, live, now)
  }

  ghost predicate IsShown(code: string, id: string, connections: seq<Connection>, live: bool, now: int) {
    && HoldsAt(code, id, connections, live, now)
    && !(IsGeneric(code) && (HoldsAt("whatsapp_session_down", id, connections, live, now) ||
                             HoldsAt("instagram_token_expired", id, connections, live, now)))
  }

  lemma DueAtByCode(k: Kind, id: string, connections: seq<Connection>, live: bool, now: int)
    ensures DueAt(k, id, connections, live, now) <==> HoldsAt(Code(k), id, connections, live, now)
  {
    forall c | c in connections && c.id == id ensures Due(k, c, live, now) <==> Holds(Code(k), c, live, now) {
      DueByCode(k, c, live, now);
    }
  }

  lemma DiagnosedByCode(id: string, connections: seq<Connection>, live: bool, now: int)
    ensures (exists s :: s in SPECIFIC && DueAt(s, id, connections, live, now)) <==>
      HoldsAt("whatsapp_session_down", id, connections, live, now) ||
      HoldsAt("instagram_token_expired", id, connections, live, now)
  {
    DueAtByCode(WhatsappSessionDown, id, connections, live, now);
    DueAtByCode(InstagramTokenExpired, id, connections, live, now);
    assert forall s :: s in SPECIFIC <==> s == WhatsappSessionDown || s == InstagramTokenExpired;
  }

  lemma GenericByCode(k: Kind)
    ensures k in GENERIC <==> IsGeneric(Code(k))
  {
  }

  lemma ShownByCode(k: Kind, id: string, connections: seq<Connection>, live: bool, now: int)
    ensures Shown(k, id, connections, live, now) <==> IsShown(Code(k), id, connections, live, now)
  {
    DueAtByCode(k, id, connections, live, now);
    DiagnosedByCode(id, connections, live, now);
    GenericByCode(k);
  }

  /** What one incident of a report says: its code and connection, how severe it is, whom it concerns. */
  ghost predicate Describes(x: Candidate, code: string, c: Connection) {
    && x.fingerprint == code + ":" + c.id
    && x.severity == (if IsCritical(code, c) then "critical" else "warning")
    && x.connection.id == c.id && x.connection.name == c.name && x.workspaceUrl == "/connections/" + c.id
    && x.client.id == c.clientId && x.client.name == (if c.clientName.Some? then c.clientName.value else "Cliente")
  }

  lemma DescribedBy(k: Kind, c: Connection)
    ensures Describes(Incident(k, c), Code(k), c)
  {
    CriticalByCode(k, c);
  }

  /** A report holds an incident for a code and a connection id exactly when it is to be shown. */
  lemma ReportByCode(cs: seq<Candidate>, connections: seq<Connection>, code: string, id: string, live: bool, now: int)
    requires Covers(cs, AskedAll(connections, ALL_KINDS), live, now) && ':' !in code
    ensures code + ":" + id in Reported(WithoutSuperseded(cs)) <==> IsShown(code, id, connections, live, now)
  {
    var report := WithoutSuperseded(cs);
    if code + ":" + id in Reported(report) {
      var x :| x in report && x.fingerprint == code + ":" + id;
      var k, other := ReportedIsShown(cs, connections, x, live, now);
      NoColon(k);
      SplitAtColon(code, id, Code(k), other);
      ShownByCode(k, id, connections, live, now);
    }
    if IsShown(code, id, connections, live, now) {
      var c :| c in connections && c.id == id && Holds(code, c, live, now);
      var k := KindOf(code, c, live, now);
      ShownByCode(k, id, connections, live, now);
      ShownIsReported(cs, connections, k, id, live, now);
    }
  }

  /** ... and every incident in it describes a connection of which its code holds. */
  lemma ReportDescribes(cs: seq<Candidate>, connections: seq<Connection>, x: Candidate, live: bool, now: int)
    requires Covers(cs, AskedAll(connections, ALL_KINDS), live, now) && x in WithoutSuperseded(cs)
    ensures exists code, c :: c in connections && Holds(code, c, live, now) && Describes(x, code, c)
  {
    assert From(x, AskedAll(connections, ALL_KINDS), live, now);
    var q :| q in AskedAll(connections, ALL_KINDS) && Due(q.1, q.0, live, now) && x == Incident(q.1, q.0);
    DueByCode(q.1, q.0, live, now);
    DescribedBy(q.1, q.0);
  }
}
