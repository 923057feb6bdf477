/**
 * The nightly embargo sweeper (scripts/embargo_registrations.py).
 *
 * The store holds a table of embargoes, a table of registrations and the
 * append-only logs of the projects the registrations were made from. The
 * pending scan activates unapproved embargoes whose pending window has
 * elapsed; the completion scan, run afterwards, finishes approved embargoes
 * whose end date has passed. A deleted parent registration makes either scan
 * force-reject the embargo instead. In a dry run nothing is changed.
 *
 * Each scan is specified by a pure function that folds a one-item step over
 * the table in table order (PendingPass, CompletionPass); the methods of
 * class Database are proved to compute exactly these functions, and the
 * lemmas below state what the passes do to every item.
 */
module EmbargoSweep {
  import opened Wrappers

  type NodeId = nat
  type EmbargoId = nat
  type UserId = nat

  datatype EmbargoState = Unapproved | Approved | Rejected | Completed

  /** An embargo row. `registration` is the position, in the registration
      table, of the registration node whose `embargo` field points at it. */
  datatype Embargo = Embargo(
    id: EmbargoId,
    state: EmbargoState,
    initiationDate: int,
    endDate: int,
    registration: nat)

  datatype Registration = Registration(
    id: NodeId,
    isDeleted: bool,
    isPublic: bool,
    registeredFrom: NodeId)

  datatype LogAction = EmbargoApproved | EmbargoCompleted

  /** A project log entry: the action, its `node` and `embargo_id`
      parameters, and the authenticated actor (none for the sweeper). */
  datatype LogEntry = LogEntry(action: LogAction, node: NodeId, embargoId: EmbargoId, auth: Option<UserId>)

  datatype Db = Db(
    embargoes: seq<Embargo>,
    registrations: seq<Registration>,
    logs: map<NodeId, seq<LogEntry>>)

  /** The log of project p; a project nothing was logged for has an empty log. */
  function LogOf(logs: map<NodeId, seq<LogEntry>>, p: NodeId): seq<LogEntry> {
    if p in logs then logs[p] else []
  }

  /** `add_log` on project p. */
  function AppendLog(logs: map<NodeId, seq<LogEntry>>, p: NodeId, entry: LogEntry): (r: map<NodeId, seq<LogEntry>>)
    ensures LogOf(r, p) == LogOf(logs, p) + [entry]
    ensures forall q :: q != p ==> LogOf(r, q) == LogOf(logs, q)
  {
    logs[p := LogOf(logs, p) + [entry]]
  }

  /** Embargo k has its registration in the table. */
  predicate HasParent(db: Db, k: nat)
    requires k < |db.embargoes|
  {
    db.embargoes[k].registration < |db.registrations|
  }


  /** No two embargo rows share an id. */
  ghost predicate UniqueIds(db: Db) {
    forall k, l :: 0 <= k < l < |db.embargoes| ==> db.embargoes[k].id != db.embargoes[l].id
  }

  /** The pending window has elapsed since the embargo was initiated. */
  predicate ShouldBeEmbargoed(e: Embargo, now: int, pendingTime: int) {
    now - e.initiationDate >= pendingTime
  }

  /** The window includes its end: an embargo initiated exactly the pending
      time ago is due, one initiated a moment later is not, and an embargo
      once due stays due as time passes. */
  lemma PendingWindowBoundary(e: Embargo, pendingTime: int, now: int, later: int)
    ensures ShouldBeEmbargoed(e, e.initiationDate + pendingTime, pendingTime)
    ensures !ShouldBeEmbargoed(e, e.initiationDate + pendingTime - 1, pendingTime)
    ensures ShouldBeEmbargoed(e, now, pendingTime) && now <= later ==> ShouldBeEmbargoed(e, later, pendingTime)
  {
  }

  /** An embargo the pending scan acts on. */
  predicate AwaitingActivation(e: Embargo, now: int, pendingTime: int) {
    e.state == Unapproved && ShouldBeEmbargoed(e, now, pendingTime)
  }

  /** An embargo the completion scan acts on. */
  predicate Elapsed(e: Embargo, now: int) {
    e.state == Approved && e.endDate < now
  }

  /** Every embargo the pending scan acts on has its registration: the script
      looks the parent registration up for exactly those, dry run or not. */
  ghost predicate PendingParentsPresent(db: Db, now: int, pendingTime: int) {
    forall k :: 0 <= k < |db.embargoes| && AwaitingActivation(db.embargoes[k], now, pendingTime)
      ==> HasParent(db, k)
  }

  /** Every embargo the completion scan acts on has its registration. */
  ghost predicate ElapsedParentsPresent(db: Db, now: int) {
    forall k :: 0 <= k < |db.embargoes| && Elapsed(db.embargoes[k], now) ==> HasParent(db, k)
  }

  function ParentOf(db: Db, k: nat): Registration
    requires k < |db.embargoes| && HasParent(db, k)
  {
    db.registrations[db.embargoes[k].registration]
  }

  function ApprovalEntry(db: Db, k: nat): LogEntry
    requires k < |db.embargoes| && HasParent(db, k)
  {
    LogEntry(EmbargoApproved, ParentOf(db, k).id, db.embargoes[k].id, None)
  }

  function CompletionEntry(db: Db, k: nat): LogEntry
    requires k < |db.embargoes| && HasParent(db, k)
  {
    LogEntry(EmbargoCompleted, ParentOf(db, k).id, db.embargoes[k].id, None)
  }

  /** The pending scan approves item k (and logs it). */
  predicate Activates(db: Db, k: nat, now: int, pendingTime: int, dryRun: bool)
    requires k < |db.embargoes|
  {
    AwaitingActivation(db.embargoes[k], now, pendingTime) && !dryRun && HasParent(db, k)
    && !ParentOf(db, k).isDeleted
  }

  /** The completion scan completes item k (and logs it). */
  predicate Completes(db: Db, k: nat, now: int, dryRun: bool)
    requires k < |db.embargoes|
  {
    Elapsed(db.embargoes[k], now) && !dryRun && HasParent(db, k) && !ParentOf(db, k).isDeleted
  }

  /** Number of entries of `log` with the given action about the given embargo. */
  function CountFor(log: seq<LogEntry>, action: LogAction, id: EmbargoId): nat
  {
    if log == [] then 0
    else
      var last := log[|log| - 1];
      CountFor(log[..|log| - 1], action, id) + (if last.action == action && last.embargoId == id then 1 else 0)
  }

  lemma CountForAppend(log: seq<LogEntry>, x: LogEntry, action: LogAction, id: EmbargoId)
    ensures CountFor(log + [x], action, id)
         == CountFor(log, action, id) + (if x.action == action && x.embargoId == id then 1 else 0)
  {
    assert (log + [x])[..|log + [x]| - 1] == log;
  }

  /** `after` extends `before`, and every added entry has the given action
      and no actor. */
  ghost predicate AppendsOnly(before: seq<LogEntry>, after: seq<LogEntry>, action: LogAction) {
    && before <= after
    && forall i :: |before| <= i < |after| ==> after[i].action == action && after[i].auth.None?
  }

  lemma AppendsOnlyTrans(a: seq<LogEntry>, b: seq<LogEntry>, c: seq<LogEntry>, action: LogAction)
    requires AppendsOnly(a, b, action) && AppendsOnly(b, c, action)
    ensures AppendsOnly(a, c, action)
  {
    forall i | |a| <= i < |c| ensures c[i].action == action && c[i].auth.None? {
      if i < |b| {
        assert c[i] == b[i];
      }
    }
  }

  // ---------------------------------------------------------------------
  // The pending scan
  // ---------------------------------------------------------------------

  /** One iteration of the pending loop, on item k. An embargo without its
      registration is left alone. */
  function PendingStep(db: Db, k: nat, now: int, pendingTime: int, dryRun: bool): (r: Db)
    requires k < |db.embargoes|
    ensures |r.embargoes| == |db.embargoes| && r.registrations == db.registrations
  {
    var e := db.embargoes[k];
    if !AwaitingActivation(e, now, pendingTime) || dryRun || !HasParent(db, k) then db
    else if ParentOf(db, k).isDeleted then
      db.(embargoes := db.embargoes[k := e.(state := Rejected)])
    else
      db.(embargoes := db.embargoes[k := e.(state := Approved)],
          logs := AppendLog(db.logs, ParentOf(db, k).registeredFrom, ApprovalEntry(db, k)))
  }

  /** The pending loop after its first n iterations. */
  function PendingPrefix(db: Db, n: nat, now: int, pendingTime: int, dryRun: bool): (r: Db)
    requires n <= |db.embargoes|
    ensures |r.embargoes| == |db.embargoes| && r.registrations == db.registrations
    decreases n
  {
    if n == 0 then db
    else PendingStep(PendingPrefix(db, n - 1, now, pendingTime, dryRun), n - 1, now, pendingTime, dryRun)
  }

  /** The whole pending scan. */
  function PendingPass(db: Db, now: int, pendingTime: int, dryRun: bool): (r: Db)
    ensures |r.embargoes| == |db.embargoes| && r.registrations == db.registrations
  {
    PendingPrefix(db, |db.embargoes|, now, pendingTime, dryRun)
  }

  /** Item i's iteration changes only row i, and what it makes of row i
      depends only on that row and on its registration. */
  lemma PendingStepAt(a: Db, b: Db, i: nat, k: nat, now: int, pendingTime: int, dryRun: bool)
    requires i < |a.embargoes| && i < |b.embargoes| && k < |a.embargoes|
    requires a.embargoes[i] == b.embargoes[i] && a.registrations == b.registrations
    ensures k != i ==> PendingStep(a, i, now, pendingTime, dryRun).embargoes[k] == a.embargoes[k]
    ensures PendingStep(a, i, now, pendingTime, dryRun).embargoes[i] == PendingStep(b, i, now, pendingTime, dryRun).embargoes[i]
  {
  }

  /** After n iterations, item k is what its own iteration made of it if
      k < n, and untouched otherwise. */
  lemma {:induction false} PendingPrefixAt(db: Db, n: nat, k: nat, now: int, pendingTime: int, dryRun: bool)
    requires n <= |db.embargoes| && k < |db.embargoes|
    ensures PendingPrefix(db, n, now, pendingTime, dryRun).embargoes[k]
         == if k < n then PendingStep(db, k, now, pendingTime, dryRun).embargoes[k] else db.embargoes[k]
  {
    if n > 0 {
      var i := n - 1;
      var mid := PendingPrefix(db, i, now, pendingTime, dryRun);
      PendingPrefixAt(db, i, k, now, pendingTime, dryRun);
      PendingPrefixAt(db, i, i, now, pendingTime, dryRun);
      PendingStepAt(mid, db, i, k, now, pendingTime, dryRun);
    }
  }

  /** Whether item n activates is not affected by the iterations before it. */
  lemma ActivatesUnaffected(db: Db, n: nat, now: int, pendingTime: int, dryRun: bool)
    requires n < |db.embargoes|
    ensures var mid := PendingPrefix(db, n, now, pendingTime, dryRun);
      && mid.embargoes[n] == db.embargoes[n]
      && Activates(mid, n, now, pendingTime, dryRun) == Activates(db, n, now, pendingTime, dryRun)
  {
    PendingPrefixAt(db, n, n, now, pendingTime, dryRun);
  }

  /** The pending scan touches only unapproved embargoes whose window has
      elapsed, and of those only their state. */
  lemma PendingPassLeavesOthers(db: Db, k: nat, now: int, pendingTime: int, dryRun: bool)
    requires k < |db.embargoes|
    ensures var e' := PendingPass(db, now, pendingTime, dryRun).embargoes[k];
      && e' == db.embargoes[k].(state := e'.state)
      && (!AwaitingActivation(db.embargoes[k], now, pendingTime) ==> e' == db.embargoes[k])
  {
    PendingPrefixAt(db, |db.embargoes|, k, now, pendingTime, dryRun);
  }

  /** One pending iteration adds an approval entry about `id` to log p exactly
      when it activates an embargo with that id whose project is p. */
  lemma PendingStepCount(a: Db, i: nat, p: NodeId, id: EmbargoId, now: int, pendingTime: int, dryRun: bool)
    requires i < |a.embargoes|
    ensures CountFor(LogOf(PendingStep(a, i, now, pendingTime, dryRun).logs, p), EmbargoApproved, id)
         == CountFor(LogOf(a.logs, p), EmbargoApproved, id)
            + (if Activates(a, i, now, pendingTime, dryRun) && ParentOf(a, i).registeredFrom == p
                  && a.embargoes[i].id == id then 1 else 0)
  {
    if Activates(a, i, now, pendingTime, dryRun) && ParentOf(a, i).registeredFrom == p {
      CountForAppend(LogOf(a.logs, p), ApprovalEntry(a, i), EmbargoApproved, id);
    }
  }

  /** Counting approval entries about item k after n iterations. */
  lemma {:induction false} PendingPrefixCount(db: Db, n: nat, k: nat, p: NodeId, now: int, pendingTime: int, dryRun: bool)
    requires UniqueIds(db) && n <= |db.embargoes| && k < |db.embargoes|
    ensures CountFor(LogOf(PendingPrefix(db, n, now, pendingTime, dryRun).logs, p), EmbargoApproved, db.embargoes[k].id)
         == CountFor(LogOf(db.logs, p), EmbargoApproved, db.embargoes[k].id)
            + (if k < n && Activates(db, k, now, pendingTime, dryRun) && ParentOf(db, k).registeredFrom == p then 1 else 0)
  {
    if n > 0 {
      var j := n - 1;
      var mid := PendingPrefix(db, j, now, pendingTime, dryRun);
      PendingPrefixCount(db, j, k, p, now, pendingTime, dryRun);
      ActivatesUnaffected(db, j, now, pendingTime, dryRun);
      PendingStepCount(mid, j, p, db.embargoes[k].id, now, pendingTime, dryRun);
      assert j != k ==> db.embargoes[j].id != db.embargoes[k].id;
    }
  }

  /** An activating iteration appends its approval entry to the project's log. */
  lemma PendingStepLogsEntry(a: Db, i: nat, now: int, pendingTime: int)
    requires i < |a.embargoes| && Activates(a, i, now, pendingTime, false)
    ensures LogOf(PendingStep(a, i, now, pendingTime, false).logs, ParentOf(a, i).registeredFrom)
         == LogOf(a.logs, ParentOf(a, i).registeredFrom) + [ApprovalEntry(a, i)]
  {
  }

  /** One pending iteration only appends actor-less approval entries. */
  lemma PendingStepAppendOnly(before: seq<LogEntry>, a: Db, i: nat, p: NodeId, now: int, pendingTime: int, dryRun: bool)
    requires i < |a.embargoes| && AppendsOnly(before, LogOf(a.logs, p), EmbargoApproved)
    ensures AppendsOnly(before, LogOf(PendingStep(a, i, now, pendingTime, dryRun).logs, p), EmbargoApproved)
  {
    var after := LogOf(PendingStep(a, i, now, pendingTime, dryRun).logs, p);
    assert AppendsOnly(LogOf(a.logs, p), after, EmbargoApproved);
    AppendsOnlyTrans(before, LogOf(a.logs, p), after, EmbargoApproved);
  }

  /** The approval entry of an activated item is in its project's log after n > k iterations. */
  lemma {:induction false} PendingPrefixLogsEntry(db: Db, n: nat, k: nat, now: int, pendingTime: int)
    requires k < n <= |db.embargoes|
    requires Activates(db, k, now, pendingTime, false)
    ensures ApprovalEntry(db, k) in LogOf(PendingPrefix(db, n, now, pendingTime, false).logs, ParentOf(db, k).registeredFrom)
  {
    var j := n - 1;
    var mid := PendingPrefix(db, j, now, pendingTime, false);
    var p := ParentOf(db, k).registeredFrom;
    if j == k {
      ActivatesUnaffected(db, j, now, pendingTime, false);
      PendingStepLogsEntry(mid, j, now, pendingTime);
    } else {
      PendingPrefixLogsEntry(db, j, k, now, pendingTime);
      var log := LogOf(mid.logs, p);
      var x :| 0 <= x < |log| && log[x] == ApprovalEntry(db, k);
      PendingStepAppendOnly(log, mid, j, p, now, pendingTime, false);
      assert LogOf(PendingStep(mid, j, now, pendingTime, false).logs, p)[x] == log[x];
    }
  }

  lemma {:induction false} PendingPrefixAppendOnly(db: Db, n: nat, p: NodeId, now: int, pendingTime: int, dryRun: bool)
    requires n <= |db.embargoes|
    ensures AppendsOnly(LogOf(db.logs, p), LogOf(PendingPrefix(db, n, now, pendingTime, dryRun).logs, p), EmbargoApproved)
  {
    if n > 0 {
      var mid := PendingPrefix(db, n - 1, now, pendingTime, dryRun);
      PendingPrefixAppendOnly(db, n - 1, p, now, pendingTime, dryRun);
      PendingStepAppendOnly(LogOf(db.logs, p), mid, n - 1, p, now, pendingTime, dryRun);
    }
  }

  /** Project logs are append-only under the pending scan, and it appends
      nothing but actor-less approval entries. */
  lemma PendingPassAppendOnly(db: Db, p: NodeId, now: int, pendingTime: int, dryRun: bool)
    ensures AppendsOnly(LogOf(db.logs, p), LogOf(PendingPass(db, now, pendingTime, dryRun).logs, p), EmbargoApproved)
  {
    PendingPrefixAppendOnly(db, |db.embargoes|, p, now, pendingTime, dryRun);
  }

  /** In a real run an eligible embargo whose registration is deleted is
      force-rejected, and no approval is logged for it anywhere. */
  lemma PendingPassRejectsDeleted(db: Db, k: nat, p: NodeId, now: int, pendingTime: int)
    requires UniqueIds(db) && k < |db.embargoes| && HasParent(db, k)
    requires AwaitingActivation(db.embargoes[k], now, pendingTime) && ParentOf(db, k).isDeleted
    ensures PendingPass(db, now, pendingTime, false).embargoes[k].state == Rejected
    ensures CountFor(LogOf(PendingPass(db, now, pendingTime, false).logs, p), EmbargoApproved, db.embargoes[k].id)
         == CountFor(LogOf(db.logs, p), EmbargoApproved, db.embargoes[k].id)
  {
    PendingPrefixAt(db, |db.embargoes|, k, now, pendingTime, false);
    PendingPrefixCount(db, |db.embargoes|, k, p, now, pendingTime, false);
  }

  /** In a real run an eligible embargo whose registration is not deleted is
      approved, and exactly one approval entry for it, carrying the
      registration's id and no actor, is appended to the log of the project
      the registration came from; no other log gains one. */
  lemma PendingPassApproves(db: Db, k: nat, p: NodeId, now: int, pendingTime: int)
    requires UniqueIds(db) && k < |db.embargoes| && HasParent(db, k)
    requires AwaitingActivation(db.embargoes[k], now, pendingTime) && !ParentOf(db, k).isDeleted
    ensures PendingPass(db, now, pendingTime, false).embargoes[k].state == Approved
    ensures CountFor(LogOf(PendingPass(db, now, pendingTime, false).logs, p), EmbargoApproved, db.embargoes[k].id)
         == CountFor(LogOf(db.logs, p), EmbargoApproved, db.embargoes[k].id)
            + (if p == ParentOf(db, k).registeredFrom then 1 else 0)
    ensures ApprovalEntry(db, k) in LogOf(PendingPass(db, now, pendingTime, false).logs, ParentOf(db, k).registeredFrom)
  {
    PendingPrefixAt(db, |db.embargoes|, k, now, pendingTime, false);
    PendingPrefixCount(db, |db.embargoes|, k, p, now, pendingTime, false);
    PendingPrefixLogsEntry(db, |db.embargoes|, k, now, pendingTime);
  }

  lemma {:induction false} PendingPrefixDryRun(db: Db, n: nat, now: int, pendingTime: int)
    requires n <= |db.embargoes|
    ensures PendingPrefix(db, n, now, pendingTime, true) == db
  {
    if n > 0 {
      PendingPrefixDryRun(db, n - 1, now, pendingTime);
    }
  }

  /** A dry pending scan changes nothing. */
  lemma PendingPassDryRun(db: Db, now: int, pendingTime: int)
    ensures PendingPass(db, now, pendingTime, true) == db
  {
    PendingPrefixDryRun(db, |db.embargoes|, now, pendingTime);
  }

  // ---------------------------------------------------------------------
  // The completion scan
  // ---------------------------------------------------------------------

  /** One iteration of the completion loop, on item k. An embargo without its
      registration is left alone. */
  function CompleteStep(db: Db, k: nat, now: int, dryRun: bool): (r: Db)
    requires k < |db.embargoes|
    ensures |r.embargoes| == |db.embargoes| && |r.registrations| == |db.registrations|
  {
    var e := db.embargoes[k];
    if !Elapsed(e, now) || dryRun || !HasParent(db, k) then db
    else
      var parent := ParentOf(db, k);
      if parent.isDeleted then
        db.(embargoes := db.embargoes[k := e.(state := Rejected)])
      else
        db.(registrations := db.registrations[e.registration := parent.(isPublic := true)],
            embargoes := db.embargoes[k := e.(state := Completed)],
            logs := AppendLog(db.logs, parent.registeredFrom, CompletionEntry(db, k)))
  }

  /** The completion loop after its first n iterations. */
  function CompletePrefix(db: Db, n: nat, now: int, dryRun: bool): (r: Db)
    requires n <= |db.embargoes|
    ensures |r.embargoes| == |db.embargoes| && |r.registrations| == |db.registrations|
    decreases n
  {
    if n == 0 then db
    else CompleteStep(CompletePrefix(db, n - 1, now, dryRun), n - 1, now, dryRun)
  }

  /** The whole completion scan. */
  function CompletionPass(db: Db, now: int, dryRun: bool): (r: Db)
    ensures |r.embargoes| == |db.embargoes| && |r.registrations| == |db.registrations|
  {
    CompletePrefix(db, |db.embargoes|, now, dryRun)
  }

  /** A completion iteration changes registration j in its privacy at most,
      and makes it public iff it completes an embargo of j. */
  lemma CompleteStepRegistration(a: Db, i: nat, j: nat, now: int, dryRun: bool)
    requires i < |a.embargoes| && j < |a.registrations|
    ensures var reg := CompleteStep(a, i, now, dryRun).registrations[j];
      && reg == a.registrations[j].(isPublic := reg.isPublic)
      && (reg.isPublic <==> a.registrations[j].isPublic
                            || (a.embargoes[i].registration == j && Completes(a, i, now, dryRun)))
  {
  }

  /** Completion iterations change registrations in their privacy only. */
  lemma {:induction false} CompletePrefixChangesOnlyPrivacy(db: Db, n: nat, j: nat, now: int, dryRun: bool)
    requires n <= |db.embargoes| && j < |db.registrations|
    ensures var reg := CompletePrefix(db, n, now, dryRun).registrations[j];
      reg == db.registrations[j].(isPublic := reg.isPublic)
  {
    if n > 0 {
      CompletePrefixChangesOnlyPrivacy(db, n - 1, j, now, dryRun);
      CompleteStepRegistration(CompletePrefix(db, n - 1, now, dryRun), n - 1, j, now, dryRun);
    }
  }

  /** Item i's iteration changes only row i, and what it makes of row i
      depends only on that row and on whether its registration is deleted. */
  lemma CompleteStepAt(a: Db, b: Db, i: nat, k: nat, now: int, dryRun: bool)
    requires i < |a.embargoes| && i < |b.embargoes| && k < |a.embargoes|
    requires a.embargoes[i] == b.embargoes[i] && |a.registrations| == |b.registrations|
    requires HasParent(a, i) ==> ParentOf(a, i).isDeleted == ParentOf(b, i).isDeleted
    ensures k != i ==> CompleteStep(a, i, now, dryRun).embargoes[k] == a.embargoes[k]
    ensures CompleteStep(a, i, now, dryRun).embargoes[i] == CompleteStep(b, i, now, dryRun).embargoes[i]
  {
  }

  /** Whether item n completes, and what it sees of its registration other
      than privacy, is not affected by the iterations before it. */
  lemma {:induction false} CompletesUnaffected(db: Db, n: nat, now: int, dryRun: bool)
    requires n < |db.embargoes|
    ensures var mid := CompletePrefix(db, n, now, dryRun);
      && mid.embargoes[n] == db.embargoes[n]
      && HasParent(mid, n) == HasParent(db, n)
      && (HasParent(db, n) ==> ParentOf(mid, n) == ParentOf(db, n).(isPublic := ParentOf(mid, n).isPublic))
      && Completes(mid, n, now, dryRun) == Completes(db, n, now, dryRun)
    decreases n, 1
  {
    CompletePrefixAt(db, n, n, now, dryRun);
    if HasParent(db, n) {
      CompletePrefixChangesOnlyPrivacy(db, n, db.embargoes[n].registration, now, dryRun);
    }
  }

  /** After n iterations, item k is what its own iteration made of it if
      k < n, and untouched otherwise. */
  lemma {:induction false} CompletePrefixAt(db: Db, n: nat, k: nat, now: int, dryRun: bool)
    requires n <= |db.embargoes| && k < |db.embargoes|
    ensures CompletePrefix(db, n, now, dryRun).embargoes[k]
         == if k < n then CompleteStep(db, k, now, dryRun).embargoes[k] else db.embargoes[k]
    decreases n, 0
  {
    if n > 0 {
      var i := n - 1;
      var mid := CompletePrefix(db, i, now, dryRun);
      CompletePrefixAt(db, i, k, now, dryRun);
      CompletesUnaffected(db, i, now, dryRun);
      CompleteStepAt(mid, db, i, k, now, dryRun);
    }
  }

  /** The completion scan touches only approved embargoes whose end date has
      passed, and of those only their state; an embargo whose end date has
      not passed keeps everything. */
  lemma CompletionPassLeavesOthers(db: Db, k: nat, now: int, dryRun: bool)
    requires k < |db.embargoes|
    ensures var e' := CompletionPass(db, now, dryRun).embargoes[k];
      && e' == db.embargoes[k].(state := e'.state)
      && (!Elapsed(db.embargoes[k], now) ==> e' == db.embargoes[k])
      && (db.embargoes[k].endDate >= now ==> e' == db.embargoes[k])
  {
    CompletePrefixAt(db, |db.embargoes|, k, now, dryRun);
  }

  /** One of the first n embargoes of registration j completes. */
  ghost predicate PublishedBy(db: Db, n: nat, j: nat, now: int, dryRun: bool)
    requires n <= |db.embargoes|
  {
    exists k :: 0 <= k < n && db.embargoes[k].registration == j && Completes(db, k, now, dryRun)
  }

  lemma PublishedByStep(db: Db, i: nat, j: nat, now: int, dryRun: bool)
    requires i < |db.embargoes|
    ensures PublishedBy(db, i + 1, j, now, dryRun)
        <==> PublishedBy(db, i, j, now, dryRun) || (db.embargoes[i].registration == j && Completes(db, i, now, dryRun))
  {
    if PublishedBy(db, i + 1, j, now, dryRun) && !(db.embargoes[i].registration == j && Completes(db, i, now, dryRun)) {
      var k :| 0 <= k < i + 1 && db.embargoes[k].registration == j && Completes(db, k, now, dryRun);
      assert k < i;
    }
  }

  lemma {:induction false} CompletePrefixPrivacy(db: Db, n: nat, j: nat, now: int, dryRun: bool)
    requires n <= |db.embargoes| && j < |db.registrations|
    ensures CompletePrefix(db, n, now, dryRun).registrations[j].isPublic
        <==> db.registrations[j].isPublic || PublishedBy(db, n, j, now, dryRun)
  {
    if n > 0 {
      var i := n - 1;
      var mid := CompletePrefix(db, i, now, dryRun);
      CompletePrefixPrivacy(db, i, j, now, dryRun);
      CompletesUnaffected(db, i, now, dryRun);
      CompleteStepRegistration(mid, i, j, now, dryRun);
      PublishedByStep(db, i, j, now, dryRun);
    }
  }

  /** A registration is public after the completion scan iff it was public
      before or one of its embargoes completed; only privacy changes, and a
      deleted registration is never made public. */
  lemma CompletionPassPrivacy(db: Db, j: nat, now: int, dryRun: bool)
    requires j < |db.registrations|
    ensures var r := CompletionPass(db, now, dryRun);
      && r.registrations[j] == db.registrations[j].(isPublic := r.registrations[j].isPublic)
      && (r.registrations[j].isPublic
          <==> db.registrations[j].isPublic || PublishedBy(db, |db.embargoes|, j, now, dryRun))
      && (db.registrations[j].isDeleted ==> r.registrations[j] == db.registrations[j])
  {
    CompletePrefixChangesOnlyPrivacy(db, |db.embargoes|, j, now, dryRun);
    CompletePrefixPrivacy(db, |db.embargoes|, j, now, dryRun);
  }

  /** One completion iteration adds a completion entry about `id` to log p
      exactly when it completes an embargo with that id whose project is p. */
  lemma CompleteStepCount(a: Db, i: nat, p: NodeId, id: EmbargoId, now: int, dryRun: bool)
    requires i < |a.embargoes|
    ensures CountFor(LogOf(CompleteStep(a, i, now, dryRun).logs, p), EmbargoCompleted, id)
         == CountFor(LogOf(a.logs, p), EmbargoCompleted, id)
            + (if Completes(a, i, now, dryRun) && ParentOf(a, i).registeredFrom == p
                  && a.embargoes[i].id == id then 1 else 0)
  {
    if Completes(a, i, now, dryRun) && ParentOf(a, i).registeredFrom == p {
      CountForAppend(LogOf(a.logs, p), CompletionEntry(a, i), EmbargoCompleted, id);
    }
  }

  lemma {:induction false} CompletePrefixCount(db: Db, n: nat, k: nat, p: NodeId, now: int, dryRun: bool)
    requires UniqueIds(db) && n <= |db.embargoes| && k < |db.embargoes|
    ensures CountFor(LogOf(CompletePrefix(db, n, now, dryRun).logs, p), EmbargoCompleted, db.embargoes[k].id)
         == CountFor(LogOf(db.logs, p), EmbargoCompleted, db.embargoes[k].id)
            + (if k < n && Completes(db, k, now, dryRun) && ParentOf(db, k).registeredFrom == p then 1 else 0)
  {
    if n > 0 {
      var j := n - 1;
      var mid := CompletePrefix(db, j, now, dryRun);
      assert CompletePrefix(db, n, now, dryRun) == CompleteStep(mid, j, now, dryRun);
      CompletePrefixCount(db, j, k, p, now, dryRun);
      CompletesUnaffected(db, j, now, dryRun);
      if Completes(db, j, now, dryRun) {
        assert ParentOf(mid, j).registeredFrom == ParentOf(db, j).registeredFrom;
      }
      CompleteStepCount(mid, j, p, db.embargoes[k].id, now, dryRun);
      assert j != k ==> db.embargoes[j].id != db.embargoes[k].id;
    }
  }

  /** A completing iteration appends its completion entry to the project's log. */
  lemma CompleteStepLogsEntry(a: Db, i: nat, now: int)
    requires i < |a.embargoes| && Completes(a, i, now, false)
    ensures LogOf(CompleteStep(a, i, now, false).logs, ParentOf(a, i).registeredFrom)
         == LogOf(a.logs, ParentOf(a, i).registeredFrom) + [CompletionEntry(a, i)]
  {
  }

  /** One completion iteration only appends actor-less completion entries. */
  lemma CompleteStepAppendOnly(before: seq<LogEntry>, a: Db, i: nat, p: NodeId, now: int, dryRun: bool)
    requires i < |a.embargoes| && AppendsOnly(before, LogOf(a.logs, p), EmbargoCompleted)
    ensures AppendsOnly(before, LogOf(CompleteStep(a, i, now, dryRun).logs, p), EmbargoCompleted)
  {
    var after := LogOf(CompleteStep(a, i, now, dryRun).logs, p);
    assert AppendsOnly(LogOf(a.logs, p), after, EmbargoCompleted);
    AppendsOnlyTrans(before, LogOf(a.logs, p), after, EmbargoCompleted);
  }

  lemma {:induction false} CompletePrefixLogsEntry(db: Db, n: nat, k: nat, now: int)
    requires k < n <= |db.embargoes|
    requires Completes(db, k, now, false)
    ensures CompletionEntry(db, k) in LogOf(CompletePrefix(db, n, now, false).logs, ParentOf(db, k).registeredFrom)
  {
    var j := n - 1;
    var mid := CompletePrefix(db, j, now, false);
    var p := ParentOf(db, k).registeredFrom;
    if j == k {
      CompletesUnaffected(db, j, now, false);
      CompleteStepLogsEntry(mid, j, now);
    } else {
      CompletePrefixLogsEntry(db, j, k, now);
      var log := LogOf(mid.logs, p);
      var x :| 0 <= x < |log| && log[x] == CompletionEntry(db, k);
      CompleteStepAppendOnly(log, mid, j, p, now, false);
      assert LogOf(CompleteStep(mid, j, now, false).logs, p)[x] == log[x];
    }
  }

  lemma {:induction false} CompletePrefixAppendOnly(db: Db, n: nat, p: NodeId, now: int, dryRun: bool)
    requires n <= |db.embargoes|
    ensures AppendsOnly(LogOf(db.logs, p), LogOf(CompletePrefix(db, n, now, dryRun).logs, p), EmbargoCompleted)
  {
    if n > 0 {
      var mid := CompletePrefix(db, n - 1, now, dryRun);
      CompletePrefixAppendOnly(db, n - 1, p, now, dryRun);
      CompleteStepAppendOnly(LogOf(db.logs, p), mid, n - 1, p, now, dryRun);
    }
  }

  /** Project logs are append-only under the completion scan, and it
      appends nothing but actor-less completion entries. */
  lemma CompletionPassAppendOnly(db: Db, p: NodeId, now: int, dryRun: bool)
    ensures AppendsOnly(LogOf(db.logs, p), LogOf(CompletionPass(db, now, dryRun).logs, p), EmbargoCompleted)
  {
    CompletePrefixAppendOnly(db, |db.embargoes|, p, now, dryRun);
  }

  /** In a real run an elapsed embargo whose registration is not deleted is
      completed, its registration made public, and exactly one completion
      entry for it is appended to the originating project's log. */
  lemma CompletionPassCompletes(db: Db, k: nat, p: NodeId, now: int)
    requires UniqueIds(db) && k < |db.embargoes| && HasParent(db, k)
    requires Elapsed(db.embargoes[k], now) && !ParentOf(db, k).isDeleted
    ensures var r := CompletionPass(db, now, false);
      && r.embargoes[k].state == Completed
      && r.registrations[db.embargoes[k].registration].isPublic
      && CountFor(LogOf(r.logs, p), EmbargoCompleted, db.embargoes[k].id)
         == CountFor(LogOf(db.logs, p), EmbargoCompleted, db.embargoes[k].id)
            + (if p == ParentOf(db, k).registeredFrom then 1 else 0)
      && CompletionEntry(db, k) in LogOf(r.logs, ParentOf(db, k).registeredFrom)
  {
    var j := db.embargoes[k].registration;
    CompletePrefixAt(db, |db.embargoes|, k, now, false);
    CompletePrefixPrivacy(db, |db.embargoes|, j, now, false);
    assert PublishedBy(db, |db.embargoes|, j, now, false);
    CompletePrefixCount(db, |db.embargoes|, k, p, now, false);
    CompletePrefixLogsEntry(db, |db.embargoes|, k, now);
  }

  /** In a real run an elapsed embargo whose registration is deleted is
      force-rejected; the registration is not made public and no completion
      is logged for the embargo. */
  lemma CompletionPassRejectsDeleted(db: Db, k: nat, p: NodeId, now: int)
    requires UniqueIds(db) && k < |db.embargoes| && HasParent(db, k)
    requires Elapsed(db.embargoes[k], now) && ParentOf(db, k).isDeleted
    ensures var r := CompletionPass(db, now, false);
      && r.embargoes[k].state == Rejected
      && r.registrations[db.embargoes[k].registration] == ParentOf(db, k)
      && CountFor(LogOf(r.logs, p), EmbargoCompleted, db.embargoes[k].id)
         == CountFor(LogOf(db.logs, p), EmbargoCompleted, db.embargoes[k].id)
  {
    CompletePrefixAt(db, |db.embargoes|, k, now, false);
    CompletionPassPrivacy(db, db.embargoes[k].registration, now, false);
    CompletePrefixCount(db, |db.embargoes|, k, p, now, false);
  }

  lemma {:induction false} CompletePrefixDryRun(db: Db, n: nat, now: int)
    requires n <= |db.embargoes|
    ensures CompletePrefix(db, n, now, true) == db
  {
    if n > 0 {
      CompletePrefixDryRun(db, n - 1, now);
    }
  }

  /** A dry completion scan changes nothing. */
  lemma CompletionPassDryRun(db: Db, now: int)
    ensures CompletionPass(db, now, true) == db
  {
    CompletePrefixDryRun(db, |db.embargoes|, now);
  }

  // ---------------------------------------------------------------------
  // The whole nightly run
  // ---------------------------------------------------------------------

  /** The pending scan followed by the completion scan, whose query sees the
      states the pending scan left. */
  function NightlyPass(db: Db, now: int, pendingTime: int, dryRun: bool): (r: Db)
    ensures |r.embargoes| == |db.embargoes| && |r.registrations| == |db.registrations|
  {
    CompletionPass(PendingPass(db, now, pendingTime, dryRun), now, dryRun)
  }

  /** A dry nightly run leaves every embargo, registration and log as it was. */
  lemma NightlyPassDryRun(db: Db, now: int, pendingTime: int)
    ensures NightlyPass(db, now, pendingTime, true) == db
  {
    PendingPassDryRun(db, now, pendingTime);
    CompletionPassDryRun(db, now);
  }

  /** An embargo activated by the pending scan whose end date has already
      passed is completed in the same run, and its registration made public. */
  lemma NightlyPassActivatesThenCompletes(db: Db, k: nat, now: int, pendingTime: int)
    requires k < |db.embargoes| && HasParent(db, k)
    requires AwaitingActivation(db.embargoes[k], now, pendingTime) && !ParentOf(db, k).isDeleted
    requires db.embargoes[k].endDate < now
    ensures var r := NightlyPass(db, now, pendingTime, false);
      r.embargoes[k].state == Completed && r.registrations[db.embargoes[k].registration].isPublic
  {
    var mid := PendingPass(db, now, pendingTime, false);
    var j := db.embargoes[k].registration;
    PendingPrefixAt(db, |db.embargoes|, k, now, pendingTime, false);
    assert mid.embargoes[k] == db.embargoes[k].(state := Approved);
    assert Completes(mid, k, now, false);
    CompletePrefixAt(mid, |mid.embargoes|, k, now, false);
    CompletePrefixPrivacy(mid, |mid.embargoes|, j, now, false);
    assert PublishedBy(mid, |mid.embargoes|, j, now, false);
  }

  /** An embargo still inside its pending window, and any embargo that was
      neither unapproved nor approved, ends the run as it began. */
  lemma NightlyPassLeavesEarly(db: Db, k: nat, now: int, pendingTime: int, dryRun: bool)
    requires k < |db.embargoes|
    requires db.embargoes[k].state == Unapproved ==> !ShouldBeEmbargoed(db.embargoes[k], now, pendingTime)
    requires db.embargoes[k].state != Approved
    ensures NightlyPass(db, now, pendingTime, dryRun).embargoes[k] == db.embargoes[k]
  {
    var mid := PendingPass(db, now, pendingTime, dryRun);
    PendingPrefixAt(db, |db.embargoes|, k, now, pendingTime, dryRun);
    CompletePrefixAt(mid, |mid.embargoes|, k, now, dryRun);
  }

  // ---------------------------------------------------------------------
  // The store and the script's two loops
  // ---------------------------------------------------------------------

  class Database {
    var embargoes: seq<Embargo>
    var registrations: seq<Registration>
    var logs: map<NodeId, seq<LogEntry>>

    function Snapshot(): Db
      reads this
    {
      Db(embargoes, registrations, logs)
    }

    constructor (db: Db)
      ensures Snapshot() == db
    {
      embargoes, registrations, logs := db.embargoes, db.registrations, db.logs;
    }

    /** The pending loop: activate unapproved embargoes whose pending window has elapsed. */
    method ActivatePendingEmbargoes(now: int, pendingTime: int, dryRun: bool)
      requires PendingParentsPresent(Snapshot(), now, pendingTime)
      modifies this
      ensures Snapshot() == PendingPass(old(Snapshot()), now, pendingTime, dryRun)
    {
      ghost var db0 := Snapshot();
      for k := 0 to |embargoes|
        invariant |db0.embargoes| == |embargoes|
        invariant Snapshot() == PendingPrefix(db0, k, now, pendingTime, dryRun)
      {
        var embargo := embargoes[k];
        if embargo.state == Unapproved && ShouldBeEmbargoed(embargo, now, pendingTime) {
          ActivatesUnaffected(db0, k, now, pendingTime, dryRun);
          assert HasParent(db0, k);
          var parent := registrations[embargo.registration];
          if !dryRun {
            if parent.isDeleted {
              embargoes := embargoes[k := embargo.(state := Rejected)];
              continue;
            }
            embargoes := embargoes[k := embargo.(state := Approved)];
            logs := logs[parent.registeredFrom := LogOf(logs, parent.registeredFrom)
                           + [LogEntry(EmbargoApproved, parent.id, embargo.id, None)]];
          }
        }
      }
    }

    /** The completion loop: finish approved embargoes whose end date has passed. */
    method CompleteElapsedEmbargoes(now: int, dryRun: bool)
      requires ElapsedParentsPresent(Snapshot(), now)
      modifies this
      ensures Snapshot() == CompletionPass(old(Snapshot()), now, dryRun)
    {
      ghost var db0 := Snapshot();
      for k := 0 to |embargoes|
        invariant |db0.embargoes| == |embargoes|
        invariant Snapshot() == CompletePrefix(db0, k, now, dryRun)
      {
        var embargo := embargoes[k];
        if embargo.state == Approved && embargo.endDate < now {
          CompletesUnaffected(db0, k, now, dryRun);
          assert HasParent(db0, k);
          var parent := registrations[embargo.registration];
          if !dryRun {
            if parent.isDeleted {
              embargoes := embargoes[k := embargo.(state := Rejected)];
              continue;
            }
            registrations := registrations[embargo.registration := parent.(isPublic := true)];
            embargoes := embargoes[k := embargo.(state := Completed)];
            logs := logs[parent.registeredFrom := LogOf(logs, parent.registeredFrom)
                           + [LogEntry(EmbargoCompleted, parent.id, embargo.id, None)]];
          }
        }
      }
    }

    /** The script's entry point: both scans, one after the other. */
    method RunNightly(now: int, pendingTime: int, dryRun: bool)
      requires PendingParentsPresent(Snapshot(), now, pendingTime)
      requires ElapsedParentsPresent(Snapshot(), now)
      modifies this
      ensures Snapshot() == NightlyPass(old(Snapshot()), now, pendingTime, dryRun)
    {
      ActivatePendingEmbargoes(now, pendingTime, dryRun);
      PendingPassKeepsParents(old(Snapshot()), now, pendingTime, dryRun);
      CompleteElapsedEmbargoes(now, dryRun);
    }
  }

  /** An embargo the completion scan acts on after the pending scan was
      either acted on by the pending scan or already elapsed, so its
      registration is there. */
  lemma PendingPassKeepsParents(db: Db, now: int, pendingTime: int, dryRun: bool)
    requires PendingParentsPresent(db, now, pendingTime)
    requires ElapsedParentsPresent(db, now)
    ensures ElapsedParentsPresent(PendingPass(db, now, pendingTime, dryRun), now)
  {
    var r := PendingPass(db, now, pendingTime, dryRun);
    forall k | 0 <= k < |r.embargoes| && Elapsed(r.embargoes[k], now) ensures HasParent(r, k) {
      PendingPassLeavesOthers(db, k, now, pendingTime, dryRun);
      assert HasParent(db, k);
    }
  }
}
