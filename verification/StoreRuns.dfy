/**
 The two stores side by side: the same operations, in the same order, at the same times, each
 store answering for itself. They hold the same live deliveries, and their workers the same
 jobs, for as long as no event matches expired records only, no claim ties at the cut or skips
 a locked row, and workers report on records that both stores hold alike. Live records are held
 alike, and timely workers report on live records.
 */
module StoreRuns {
  import opened Common
  import opened Deliveries
  import opened Protocol
  import opened ClaimChoice
  import opened StoreAgreement
  import J = JsonOutbox
  import R = JsonRuns
  import P = PgOutbox
  import S = SoloWorker

  /** The same call on both stores, whatever each answers. */
  predicate SameCall(s: Step, t: Step) {
    match (s, t)
    case (Advance(now), Advance(later)) => now == later
    case (Enqueue(r, _, _), Enqueue(q, _, _)) => r == q
    case (Claim(limit, lease, _), Claim(n, l, _)) => limit == n && lease == l
    case (ReadAttempts(job, _), ReadAttempts(j, _)) => job == j
    case _ => s == t
  }

  /** The record a worker reads or reports on is there in both stores or in neither, and answers alike. */
  predicate TargetsAlike(a: Box, b: Box, now: int, s: Step) {
    && (WritesReport(s) ==> ReportsAlike(a, b, s.job.id, ReportOf(s), now))
    && (s.ReadAttempts? ==>
          (s.job.id in a <==> s.job.id in b) &&
            (s.job.id in a ==> a[s.job.id].attemptCount == b[s.job.id].attemptCount))
  }

  lemma LiveTargetsAreAlike(a: Box, b: Box, now: int, s: Step, days: int)
    requires SameLive(a, b, now, days) && TargetsLive(a, now, s, days)
    ensures TargetsAlike(a, b, now, s)
  {
    if s.Finish? || s.ReadAttempts? || s.WriteRetry? { SameRecord(a, b, now, days, s.job.id); }
  }

  /** None of the ways in which the two stores part. */
  ghost predicate Harmless(w: R.ListWorld, s: Step, v: P.TableWorld, t: Step, days: int) {
    && TargetsAlike(J.Contents(w.store), P.Docs(v.store), w.clock, s)
    && (s.Enqueue? ==>
          s.request.retentionDays == days && !PurgeOrderMatters(J.Contents(w.store), s.request.event, w.clock, days))
    && (s.Claim? && t.Claim? ==>
          && NoTieAtCut(P.Docs(v.store), w.clock, Max(1, s.limit))
          && exists selected :: P.DueAnswer(v.store, {}, w.clock, Max(1, s.limit), selected) &&
              t.taken == Elements(selected))
  }

  /** Same time, same jobs, same live deliveries. */
  ghost predicate InStep(w: R.ListWorld, v: P.TableWorld, days: int) {
    && w.clock == v.clock && w.jobs == v.jobs && w.claims == v.claims
    && SameLive(J.Contents(w.store), P.Docs(v.store), w.clock, days)
  }

  ghost predicate Reached(w: R.ListWorld, v: P.TableWorld) {
    J.UniqueIds(w.store) && P.Consistent(v.store) && Inv(R.Abs(w)) && Inv(P.Abs(v))
  }

  lemma ReachedIsWellKept(w: R.ListWorld, v: P.TableWorld)
    requires Reached(w, v)
    ensures WellKeptStores(w.store, v.store)
  {
    ListContents(w.store);
    forall i | 0 <= i < |w.store| ensures Coherent(w.store[i]) {
      assert WellKept(J.Contents(w.store)[w.store[i].id], w.store[i].id, w.clock);
    }
    forall id | id in v.store ensures Coherent(v.store[id].doc) { assert WellKept(P.Docs(v.store)[id], id, v.clock); }
  }

  // ---------------------------------------------------------- the same answers

  lemma PurgedIsLive(rows: P.Table, now: int, days: int)
    requires P.Consistent(rows) && forall id :: id in rows ==> Coherent(rows[id].doc)
    ensures Minus(P.Docs(rows), P.PurgedIds(rows, Cutoff(now, days))) == LivePart(P.Docs(rows), now, days)
  {
    P.PurgeFollows(rows, now, days);
  }

  /** What the table answers to an enqueue. */
  lemma TableAnswersCreated(rows: P.Table, now: int, t: Step)
    requires P.Consistent(rows) && (forall id :: id in rows ==> Coherent(rows[id].doc)) && t.Enqueue?
    requires P.Answers(rows, now, t)
    ensures t.created == CreatedInTable(rows, t.request, now)
  {
    P.EnqueueFollows(rows, now, t);
    TableCreates(rows, t.request, now);
    if HasIdentity(t.request.event) { PurgedIsLive(rows, now, t.request.retentionDays); }
  }

  lemma SameCreated(w: R.ListWorld, s: Step, v: P.TableWorld, t: Step, days: int)
    requires Reached(w, v) && InStep(w, v, days) && SameCall(s, t) && Harmless(w, s, v, t, days) && s.Enqueue?
    requires R.Answers(w.store, w.clock, s) && P.Answers(v.store, v.clock, t)
    ensures s.created == t.created
  {
    ReachedIsWellKept(w, v);
    CreatedFlagsAgreeExactly(w.store, v.store, s.request, w.clock);
    TableAnswersCreated(v.store, v.clock, t);
  }

  lemma SameTaken(w: R.ListWorld, s: Step, v: P.TableWorld, t: Step, days: int)
    requires Reached(w, v) && InStep(w, v, days) && SameCall(s, t) && Harmless(w, s, v, t, days) && s.Claim?
    requires R.Answers(w.store, w.clock, s)
    ensures s.taken == t.taken
  {
    ReachedIsWellKept(w, v);
    var selected :| P.DueAnswer(v.store, {}, w.clock, Max(1, s.limit), selected) && t.taken == Elements(selected);
    assert P.Docs(v.store) - {} == P.Docs(v.store);
    ClaimsAgreeExactly(w.store, v.store, {}, w.clock, days, s.limit);
  }

  lemma SameAttempts(w: R.ListWorld, s: Step, v: P.TableWorld, t: Step, days: int)
    requires Reached(w, v) && InStep(w, v, days) && SameCall(s, t) && Harmless(w, s, v, t, days) && s.ReadAttempts?
    requires R.Answers(w.store, w.clock, s) && P.Answers(v.store, v.clock, t)
    ensures s.attempts == t.attempts
  {
    ListContents(w.store);
    var i := J.FindIndex(w.store, s.job.id);
    if i < |w.store| { assert J.Contents(w.store)[s.job.id] == w.store[i]; }
  }

  lemma SameAnswers(w: R.ListWorld, s: Step, v: P.TableWorld, t: Step, days: int)
    requires Reached(w, v) && InStep(w, v, days) && SameCall(s, t) && Harmless(w, s, v, t, days)
    requires R.Answers(w.store, w.clock, s) && P.Answers(v.store, v.clock, t)
    ensures Bare(s) == Bare(t)
  {
    match s
    case Enqueue(_, _, _) => SameCreated(w, s, v, t, days);
    case Claim(_, _, _) => SameTaken(w, s, v, t, days);
    case ReadAttempts(_, _) => SameAttempts(w, s, v, t, days);
    case _ =>
  }

  // ------------------------------------------------------------- step and run

  lemma StepStaysInStep(w: World<Box>, s: Step, w': World<Box>, v: World<Box>, t: Step, v': World<Box>, days: int)
    requires Inv(w) && Inv(v) && Next(w, s, w') && Next(v, t, v') && Bare(s) == Bare(t)
    requires w.clock == v.clock && w.jobs == v.jobs && w.claims == v.claims && SameLive(w.store, v.store, w.clock, days)
    requires TargetsAlike(w.store, v.store, w.clock, s) && (s.Enqueue? ==> s.request.retentionDays == days)
    ensures w'.clock == v'.clock && w'.jobs == v'.jobs && w'.claims == v'.claims
    ensures SameLive(w'.store, v'.store, w'.clock, days)
  {
    if WritesReport(s) {
      ReportsAgreeExactly(w.store, v.store, s.job.id, ReportOf(s), w.clock, days);
    } else if !s.ReadAttempts? {
      StepSeesLiveOnly(w.store, w.clock, s, days);
      StepSeesLiveOnly(v.store, v.clock, t, days);
    }
  }

  lemma StoresStayInStep(w: R.ListWorld, s: Step, w': R.ListWorld, v: P.TableWorld, t: Step, v': P.TableWorld,
                         days: int)
    requires Reached(w, v) && InStep(w, v, days) && SameCall(s, t) && Harmless(w, s, v, t, days)
    requires R.ListNext(w, s, w') && P.TableNext(v, t, v')
    ensures InStep(w', v', days)
  {
    SameAnswers(w, s, v, t, days);
    R.StepFollows(w, s, w');
    P.StepFollows(v, t, v');
    StepStaysInStep(R.Abs(w), s, R.Abs(w'), P.Abs(v), t, P.Abs(v'), days);
  }

  /** Two runs of the same calls from the same time. */
  ghost predicate SideBySide(ws: seq<R.ListWorld>, ss: seq<Step>, vs: seq<P.TableWorld>, ts: seq<Step>) {
    && R.ListRun(ws, ss) && P.TableRun(vs, ts) && |ss| == |ts|
    && ws[0].clock == vs[0].clock && ws[0].claims == vs[0].claims
    && forall i {:trigger ss[i]} {:trigger ts[i]} :: 0 <= i < |ss| ==> SameCall(ss[i], ts[i])
  }

  /** Fed the same operations, the stores stay in agreement as long as each step is harmless. */
  lemma {:induction false} StoresAgreeOverRuns(ws: seq<R.ListWorld>, ss: seq<Step>, vs: seq<P.TableWorld>,
                                               ts: seq<Step>, days: int, n: nat)
    requires SideBySide(ws, ss, vs, ts) && n <= |ss|
    requires forall i {:trigger ss[i]} :: 0 <= i < n ==> Harmless(ws[i], ss[i], vs[i], ts[i], days)
    ensures InStep(ws[n], vs[n], days)
  {
    if n == 0 {
      assert J.Contents([]) == map[] && P.Docs(map[]) == map[];
    } else {
      StoresAgreeOverRuns(ws, ss, vs, ts, days, n - 1);
      R.ListStaysSound(ws, ss, n - 1);
      P.TableStaysSound(vs, ts, n - 1);
      assert SameCall(ss[n - 1], ts[n - 1]) && Harmless(ws[n - 1], ss[n - 1], vs[n - 1], ts[n - 1], days);
      StoresStayInStep(ws[n - 1], ss[n - 1], ws[n], vs[n - 1], ts[n - 1], vs[n], days);
    }
  }

  // ------------------------------------------------- who reports on live records

  /** A worker that reports before its own lease lapses does. */
  lemma TimelyWorkersTargetLive(ws: seq<R.ListWorld>, ss: seq<Step>, days: int, i: nat)
    requires R.ListRun(ws, ss) && TimelyRun(R.AbsAll(ws), ss) && i < |ss|
    ensures TargetsLive(J.Contents(ws[i].store), ws[i].clock, ss[i], days)
  {
    TimelyReachable(R.AbsAll(ws), ss, i);
    var w := R.Abs(ws[i]);
    assert Exclusive(w) && Next(R.AbsAll(ws)[i], ss[i], R.AbsAll(ws)[i + 1]) && Timely(R.AbsAll(ws)[i], ss[i]);
  }

  /** So does a single worker that does not crash. */
  lemma SoloWorkersTargetLive(ws: seq<R.ListWorld>, ss: seq<Step>, c: Settings, days: int, i: nat)
    requires R.ListRun(ws, ss) && S.SoloRun(R.AbsAll(ws), ss, c) && i < |ss|
    ensures TargetsLive(J.Contents(ws[i].store), ws[i].clock, ss[i], days)
  {
    S.SoloReachable(R.AbsAll(ws), ss, c, i);
    assert S.Matched(R.Abs(ws[i])) && Next(R.AbsAll(ws)[i], ss[i], R.AbsAll(ws)[i + 1]);
  }
}
