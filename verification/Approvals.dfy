/** Approving an action and running it once.

    Every request runs alone: the code takes no row lock, so two approvals of one action at the same
    moment are outside this model. A process may stop between the steps of a request. */
module Approvals {
  import opened Wrappers

  type ApprovalId = nat
  type ToolKey = string
  type Arguments = map<string, string>

  const TTL_SECONDS: int := 24 * 60 * 60

  datatype Status = Pending | Approved | Rejected | Expired

  /** The stored preview: the tool key if it holds one, and the arguments if they are an object. */
  datatype Preview = Preview(tool: Option<ToolKey>, args: Option<Arguments>)

  datatype Approval = Approval(
    user: nat, run: Option<nat>, kind: string, preview: Preview, status: Status, expires: int, decided: Option<int>)

  datatype AuditDecision = Allowed | NotAvailable

  datatype AuditRow = AuditRow(approval: ApprovalId, run: nat, tool: ToolKey, args: Arguments, decision: AuditDecision, ok: bool)

  datatype Execution = Execution(approval: ApprovalId, tool: ToolKey, args: Arguments, at: int)

  /** `executed` is the outside world: every time an executor really ran. */
  datatype Store = Store(approvals: map<ApprovalId, Approval>, audit: seq<AuditRow>, executed: seq<Execution>)

  const EmptyStore: Store := Store(map[], [], [])

  /** What follows a decision, in order: the executor runs, the audit row is inserted, and the transaction
      that holds it is committed. */
  datatype Stage = Running | Inserting | Committing

  /** How far an approve request gets: to the end, to a stop of the process before some stage, or to a
      database failure on the audit row. */
  datatype Fate = Finishes | StopsBefore(stage: Stage) | InsertFails | CommitFails

  function Position(stage: Stage): nat {
    match stage
    case Running => 0
    case Inserting => 1
    case Committing => 2
  }

  /** The number of stages that are completed. */
  function StagesDone(fate: Fate): nat {
    match fate
    case Finishes => 3
    case StopsBefore(stage) => Position(stage)
    case InsertFails => Position(Inserting)
    case CommitFails => Position(Committing)
  }

  predicate Completes(fate: Fate, stage: Stage) {
    Position(stage) < StagesDone(fate)
  }

  /** Whether the catalog still offers a tool, and whether the executor succeeds. */
  datatype Build = Build(offers: ToolKey -> bool, succeeds: bool)

  datatype Request =
    | Create(id: ApprovalId, user: nat, run: Option<nat>, kind: string, preview: Preview, now: int)
    | Approve(id: ApprovalId, user: nat, now: int, build: Build, fate: Fate)
    | Reject(id: ApprovalId, user: nat, now: int)
    | RunRemoved(id: ApprovalId)

  datatype Refusal = NotFound | AlreadyDecided | TooLate

  function PreviewCall(p: Preview): Option<(ToolKey, Arguments)> {
    if p.tool.None? || p.tool.value == "" then None
    else Some((p.tool.value, if p.args.Some? then p.args.value else map[]))
  }

  function Decide(s: Store, id: ApprovalId, user: nat, status: Status, now: int): (Store, Option<Refusal>) {
    if id !in s.approvals || s.approvals[id].user != user then (s, Some(NotFound))
    else
      var a := s.approvals[id];
      if !a.status.Pending? then (s, Some(AlreadyDecided))
      else if a.expires <= now then
        (s.(approvals := s.approvals[id := a.(status := Expired, decided := Some(now))]), Some(TooLate))
      else (s.(approvals := s.approvals[id := a.(status := status, decided := Some(now))]), None)
  }

  /** Run what the stored preview says, and audit it: an inserted row lasts only if it is committed. */
  function Dispatch(s: Store, id: ApprovalId, now: int, build: Build, fate: Fate): Store
    requires id in s.approvals
  {
    var a := s.approvals[id];
    var call := PreviewCall(a.preview);
    if !a.status.Approved? || call.None? || a.run.None? || !Completes(fate, Running) then s
    else
      var (tool, args) := call.value;
      var row := AuditRow(id, a.run.value, tool, args,
                          if build.offers(tool) then Allowed else NotAvailable, build.offers(tool) && build.succeeds);
      var inserted := if Completes(fate, Inserting) then [row] else [];
      var ran := if build.offers(tool) then s.(executed := s.executed + [Execution(id, tool, args, now)]) else s;
      if Completes(fate, Committing) then ran.(audit := ran.audit + inserted) else ran
  }

  predicate Possible(s: Store, r: Request) {
    match r
    case Create(id, _, _, _, _, _) => id !in s.approvals
    case RunRemoved(id) => id in s.approvals
    case _ => true
  }

  function Handle(s: Store, r: Request): Store
    requires Possible(s, r)
  {
    match r
    case Create(id, user, run, kind, preview, now) =>
      s.(approvals := s.approvals[id := Approval(user, run, kind, preview, Pending, now + TTL_SECONDS, None)])
    case Approve(id, user, now, build, fate) =>
      var (decided, refusal) := Decide(s, id, user, Approved, now);
      if refusal.Some? then decided else Dispatch(decided, id, now, build, fate)
    case Reject(id, user, now) => Decide(s, id, user, Rejected, now).0
    case RunRemoved(id) => s.(approvals := s.approvals[id := s.approvals[id].(run := None)])
  }

  /** The approval tables and the requests that decide and dispatch. */
  class ApprovalStore {
    var approvals: map<ApprovalId, Approval>
    var audit: seq<AuditRow>
    ghost var executed: seq<Execution>

    ghost function State(): Store
      reads this
    {
      Store(approvals, audit, executed)
    }

    constructor ()
      ensures State() == EmptyStore
    {
      approvals, audit := map[], [];
      executed := [];
    }

    method SetDecision(id: ApprovalId, status: Status, now: int)
      requires id in approvals
      modifies this`approvals
      ensures approvals == old(approvals)[id := old(approvals)[id].(status := status, decided := Some(now))]
    {
      approvals := approvals[id := approvals[id].(status := status, decided := Some(now))];
    }

    method DecideApproval(id: ApprovalId, user: nat, status: Status, now: int) returns (refusal: Option<Refusal>)
      modifies this`approvals
      ensures (State(), refusal) == Decide(old(State()), id, user, status, now)
    {
      if id !in approvals || approvals[id].user != user {
        return Some(NotFound);
      }
      if !approvals[id].status.Pending? {
        return Some(AlreadyDecided);
      }
      if approvals[id].expires <= now {
        SetDecision(id, Expired, now);
        return Some(TooLate);
      }
      SetDecision(id, status, now);
      return None;
    }

    method DispatchApproved(id: ApprovalId, now: int, build: Build, fate: Fate)
      requires id in approvals
      modifies this`audit, this`executed
      ensures State() == Dispatch(old(State()), id, now, build, fate)
    {
      var a := approvals[id];
      if !a.status.Approved? {
        return;
      }
      var call := PreviewCall(a.preview);
      if call.None? || a.run.None? {
        return;
      }
      if !Completes(fate, Running) {
        return;
      }
      var (tool, args) := call.value;
      var row := AuditRow(id, a.run.value, tool, args, NotAvailable, false);
      if build.offers(tool) {
        executed := executed + [Execution(id, tool, args, now)];
        row := AuditRow(id, a.run.value, tool, args, Allowed, build.succeeds);
      }
      if !Completes(fate, Inserting) {
        return;
      }
      var inserted := [row];
      if !Completes(fate, Committing) {
        return;
      }
      audit := audit + inserted;
    }

    /** The approve endpoint: the decision is kept first, then the action runs. */
    method ApproveAndRun(id: ApprovalId, user: nat, now: int, build: Build, fate: Fate) returns (refusal: Option<Refusal>)
      modifies this
      ensures State() == Handle(old(State()), Approve(id, user, now, build, fate))
      ensures refusal == Decide(old(State()), id, user, Approved, now).1
    {
      refusal := DecideApproval(id, user, Approved, now);
      if refusal.None? {
        DispatchApproved(id, now, build, fate);
      }
    }
  }

  // ---- Runs of requests ----

  ghost predicate Run(s: Store, rs: seq<Request>)
    decreases |rs|
  {
    rs == [] || (Possible(s, rs[0]) && Run(Handle(s, rs[0]), rs[1..]))
  }

  ghost function After(s: Store, rs: seq<Request>): Store
    requires Run(s, rs)
    decreases |rs|
  {
    if rs == [] then s else After(Handle(s, rs[0]), rs[1..])
  }

  function CountRuns(executed: seq<Execution>, id: ApprovalId): nat {
    if executed == [] then 0
    else CountRuns(executed[..|executed| - 1], id) + if executed[|executed| - 1].approval == id then 1 else 0
  }

  function CountAudits(audit: seq<AuditRow>, id: ApprovalId, decision: AuditDecision): nat {
    if audit == [] then 0
    else CountAudits(audit[..|audit| - 1], id, decision)
         + if audit[|audit| - 1].approval == id && audit[|audit| - 1].decision == decision then 1 else 0
  }

  /** An execution is the stored call of an approved action, at the moment of its decision, before expiry. */
  ghost predicate Justified(s: Store, e: Execution) {
    && e.approval in s.approvals
    && var a := s.approvals[e.approval];
       && a.status.Approved? && a.decided == Some(e.at) && e.at < a.expires
       && PreviewCall(a.preview) == Some((e.tool, e.args))
  }

  ghost predicate ApprovalSound(s: Store, id: ApprovalId) {
    var runs, allowed, refused := CountRuns(s.executed, id), CountAudits(s.audit, id, Allowed), CountAudits(s.audit, id, NotAvailable);
    && runs <= 1 && allowed <= runs && runs + refused <= 1
    && (id !in s.approvals || s.approvals[id].status.Pending? ==> runs == allowed == refused == 0)
    && (id in s.approvals ==>
          var a := s.approvals[id];
          && (a.status.Pending? <==> a.decided.None?)
          && (a.status.Approved? || a.status.Rejected? ==> a.decided.value < a.expires)
          && (a.status.Expired? ==> a.decided.value >= a.expires))
  }

  ghost predicate Sound(s: Store) {
    && (forall id :: ApprovalSound(s, id))
    && (forall i :: 0 <= i < |s.executed| ==> Justified(s, s.executed[i]))
  }

  lemma {:induction false} CountOne(executed: seq<Execution>, e: Execution, id: ApprovalId)
    ensures CountRuns(executed + [e], id) == CountRuns(executed, id) + if e.approval == id then 1 else 0
  {
    assert (executed + [e])[..|executed|] == executed;
  }

  lemma {:induction false} CountOneAudit(audit: seq<AuditRow>, row: AuditRow, id: ApprovalId, decision: AuditDecision)
    ensures CountAudits(audit + [row], id, decision)
      == CountAudits(audit, id, decision) + if row.approval == id && row.decision == decision then 1 else 0
  {
    assert (audit + [row])[..|audit|] == audit;
  }

  lemma {:induction false} UnrunIsAbsent(executed: seq<Execution>, id: ApprovalId, i: nat)
    requires CountRuns(executed, id) == 0 && i < |executed|
    ensures executed[i].approval != id
    decreases |executed|
  {
    if i < |executed| - 1 {
      UnrunIsAbsent(executed[..|executed| - 1], id, i);
    }
  }

  lemma {:induction false} SoundKept(s: Store, r: Request)
    requires Sound(s) && Possible(s, r)
    ensures Sound(Handle(s, r))
  {
    var t := Handle(s, r);
    forall id ensures ApprovalSound(t, id) {
      CountsKept(s, r, id);
    }
    forall i | 0 <= i < |t.executed| ensures Justified(t, t.executed[i]) {
      if i < |s.executed| {
        assert Justified(s, s.executed[i]);
        JustifiedKept(s, r, i);
      }
    }
  }

  /** Whether dispatching an approval gets as far as a tool call. */
  predicate Reaches(s: Store, id: ApprovalId, fate: Fate) {
    && id in s.approvals && s.approvals[id].status.Approved?
    && PreviewCall(s.approvals[id].preview).Some? && s.approvals[id].run.Some? && Completes(fate, Running)
  }

  predicate Offered(s: Store, id: ApprovalId, build: Build) {
    id in s.approvals && PreviewCall(s.approvals[id].preview).Some? &&
    build.offers(PreviewCall(s.approvals[id].preview).value.0)
  }

  /** The audit row of a dispatch. */
  function AuditFor(a: Approval, id: ApprovalId, build: Build): AuditRow
    requires PreviewCall(a.preview).Some? && a.run.Some?
  {
    var (tool, args) := PreviewCall(a.preview).value;
    AuditRow(id, a.run.value, tool, args, if build.offers(tool) then Allowed else NotAvailable,
             build.offers(tool) && build.succeeds)
  }

  /** What one dispatch does: nothing, or the stored call if it is offered, and its audit row if it gets that far. */
  lemma {:induction false} DispatchDoes(s: Store, at: ApprovalId, now: int, build: Build, fate: Fate)
    requires at in s.approvals
    ensures !Reaches(s, at, fate) ==> Dispatch(s, at, now, build, fate) == s
    ensures Reaches(s, at, fate) ==>
      var (tool, args) := PreviewCall(s.approvals[at].preview).value;
      Dispatch(s, at, now, build, fate) == s.(
        executed := if build.offers(tool) then s.executed + [Execution(at, tool, args, now)] else s.executed,
        audit := if Completes(fate, Committing) then s.audit + [AuditFor(s.approvals[at], at, build)] else s.audit)
  {
  }

  /** What one dispatch adds to the executions and the audit rows of each approval. */
  lemma {:induction false} DispatchCounts(s: Store, at: ApprovalId, now: int, build: Build, fate: Fate, id: ApprovalId)
    requires at in s.approvals
    ensures var t := Dispatch(s, at, now, build, fate);
            var mine, offered := at == id && Reaches(s, at, fate), Offered(s, at, build);
            && t.approvals == s.approvals
            && CountRuns(t.executed, id) == CountRuns(s.executed, id) + (if mine && offered then 1 else 0)
            && CountAudits(t.audit, id, Allowed) == CountAudits(s.audit, id, Allowed)
                 + (if mine && offered && Completes(fate, Committing) then 1 else 0)
            && CountAudits(t.audit, id, NotAvailable) == CountAudits(s.audit, id, NotAvailable)
                 + (if mine && !offered && Completes(fate, Committing) then 1 else 0)
  {
    DispatchDoes(s, at, now, build, fate);
    if Reaches(s, at, fate) {
      var (tool, args) := PreviewCall(s.approvals[at].preview).value;
      var row := AuditFor(s.approvals[at], at, build);
      CountOne(s.executed, Execution(at, tool, args, now), id);
      CountOneAudit(s.audit, row, id, Allowed);
      CountOneAudit(s.audit, row, id, NotAvailable);
    }
  }

  lemma {:induction false} DecideKeepsSound(
    s: Store, at: ApprovalId, user: nat, status: Status, now: int, id: ApprovalId)
    requires ApprovalSound(s, id) && (status.Approved? || status.Rejected?)
    ensures var (t, refusal) := Decide(s, at, user, status, now);
            && t.executed == s.executed && t.audit == s.audit && ApprovalSound(t, id)
            && (refusal.None? ==> at in s.approvals && s.approvals[at].status.Pending? && t.approvals[at].status == status)
  {
  }

  lemma {:induction false} CountsKept(s: Store, r: Request, id: ApprovalId)
    requires Sound(s) && Possible(s, r)
    ensures ApprovalSound(Handle(s, r), id)
  {
    assert ApprovalSound(s, id);
    match r
    case Approve(at, user, now, build, fate) =>
      DecideKeepsSound(s, at, user, Approved, now, id);
      var (decided, refusal) := Decide(s, at, user, Approved, now);
      if refusal.None? {
        DispatchCounts(decided, at, now, build, fate, id);
      }
    case Reject(at, user, now) =>
      DecideKeepsSound(s, at, user, Rejected, now, id);
    case _ =>
  }

  lemma {:induction false} JustifiedKept(s: Store, r: Request, i: nat)
    requires Sound(s) && Possible(s, r) && i < |s.executed|
    ensures i < |Handle(s, r).executed| && Handle(s, r).executed[i] == s.executed[i]
    ensures Justified(Handle(s, r), s.executed[i])
  {
    assert Justified(s, s.executed[i]);
  }

  lemma {:induction false} RunsStaySound(s: Store, rs: seq<Request>)
    requires Sound(s) && Run(s, rs)
    ensures Sound(After(s, rs))
    decreases |rs|
  {
    if rs != [] {
      SoundKept(s, rs[0]);
      RunsStaySound(Handle(s, rs[0]), rs[1..]);
    }
  }

  /** Along every run: an action executes at most once, only after approval and before expiry, with the
      tool key and arguments stored at creation; it has exactly one audit row unless its request
      is cut short between running it and committing that row. */
  lemma {:induction false} ActionsExecuteAtMostOnce(rs: seq<Request>, id: ApprovalId)
    requires Run(EmptyStore, rs)
    ensures var s := After(EmptyStore, rs);
            && CountRuns(s.executed, id) <= 1
            && CountRuns(s.executed, id) == CountAudits(s.audit, id, Allowed) + LostAudits(EmptyStore, rs, id)
            && (forall i :: 0 <= i < |s.executed| ==> Justified(s, s.executed[i]))
            && (id in s.approvals && (s.approvals[id].status.Approved? || s.approvals[id].status.Rejected?) ==>
                  s.approvals[id].decided.Some? && s.approvals[id].decided.value < s.approvals[id].expires)
  {
    RunsStaySound(EmptyStore, rs);
    ExecutionsAreAudited(EmptyStore, rs, id);
    assert ApprovalSound(After(EmptyStore, rs), id);
  }

  /** The request runs the action of this approval but does not get as far as committing its audit row. */
  predicate LosesAudit(s: Store, r: Request, id: ApprovalId) {
    && r.Approve? && r.id == id && !Completes(r.fate, Committing)
    && Decide(s, id, r.user, Approved, r.now).1.None?
    && Reaches(Decide(s, id, r.user, Approved, r.now).0, id, r.fate)
    && Offered(s, id, r.build)
  }

  ghost function LostAudits(s: Store, rs: seq<Request>, id: ApprovalId): nat
    requires Run(s, rs)
    decreases |rs|
  {
    if rs == [] then 0
    else (if LosesAudit(s, rs[0], id) then 1 else 0) + LostAudits(Handle(s, rs[0]), rs[1..], id)
  }

  /** Executions and audit rows are in exact balance: an execution lacks its audit row exactly when its
      request was cut short, by a stop or a database failure, after running it and before the commit. */
  lemma {:induction false} ExecutionsAreAudited(s: Store, rs: seq<Request>, id: ApprovalId)
    requires Run(s, rs)
    ensures CountRuns(After(s, rs).executed, id) - CountAudits(After(s, rs).audit, id, Allowed)
         == CountRuns(s.executed, id) - CountAudits(s.audit, id, Allowed) + LostAudits(s, rs, id)
    decreases |rs|
  {
    if rs != [] {
      var r := rs[0];
      if r.Approve? {
        var (decided, refusal) := Decide(s, r.id, r.user, Approved, r.now);
        if refusal.None? {
          DispatchCounts(decided, r.id, r.now, r.build, r.fate, id);
        }
      }
      ExecutionsAreAudited(Handle(s, r), rs[1..], id);
    }
  }

  /** It can happen: any tool call that is approved in time is executed and not audited, whichever event cuts
      its request short after the executor has run: a stop, a failing insert or a failing commit. */
  lemma {:induction false} AuditRowCanBeLost(
    id: ApprovalId, user: nat, run: nat, kind: string, tool: ToolKey, args: Arguments,
    created: int, now: int, build: Build, fate: Fate)
    returns (rs: seq<Request>)
    requires Completes(fate, Running) && !Completes(fate, Committing)
    requires tool != "" && now < created + TTL_SECONDS && build.offers(tool)
    ensures Run(EmptyStore, rs)
    ensures var s := After(EmptyStore, rs);
            && s.executed == [Execution(id, tool, args, now)] && s.audit == []
            && id in s.approvals && s.approvals[id].status == Approved
  {
    var create := Create(id, user, Some(run), kind, Preview(Some(tool), Some(args)), created);
    var approve := Approve(id, user, now, build, fate);
    rs := [create, approve];
    assert rs[1..] == [approve] && [approve][1..] == [];
    var s := Handle(EmptyStore, create);
    assert After(EmptyStore, rs) == After(Handle(s, approve), []) == Handle(s, approve);
  }

  /** The owner asks for a decision on a pending approval. */
  predicate Decides(s: Store, r: Request, id: ApprovalId)
    requires id in s.approvals
  {
    (r.Approve? || r.Reject?) && r.id == id && r.user == s.approvals[id].user && s.approvals[id].status.Pending?
  }

  /** One request changes a status exactly when the owner decides a pending approval, and runs an action
      exactly when the owner approves in time a stored tool call that is still offered, for a run that
      still exists, and the process lives to run it. */
  lemma {:induction false} ActionRunsIff(s: Store, r: Request, id: ApprovalId)
    requires Possible(s, r) && id in s.approvals
    ensures var a, t := s.approvals[id], Handle(s, r);
            && t.approvals[id].status == (
                 if !Decides(s, r, id) then a.status
                 else if a.expires <= r.now then Expired
                 else if r.Approve? then Approved else Rejected)
            && CountRuns(t.executed, id) == CountRuns(s.executed, id) + (
                 if Decides(s, r, id) && r.Approve? && r.now < a.expires && PreviewCall(a.preview).Some?
                    && a.run.Some? && r.build.offers(PreviewCall(a.preview).value.0) && Completes(r.fate, Running)
                 then 1 else 0)
  {
    if r.Approve? {
      var (decided, refusal) := Decide(s, r.id, r.user, Approved, r.now);
      if refusal.None? {
        DispatchCounts(decided, r.id, r.now, r.build, r.fate, id);
      }
    }
  }

  /** An approval leaves pending at most once, and what it stores for the action never changes. */
  lemma {:induction false} DecisionsAreFinal(s: Store, rs: seq<Request>, id: ApprovalId)
    requires Run(s, rs) && id in s.approvals
    ensures id in After(s, rs).approvals
    ensures var before, after := s.approvals[id], After(s, rs).approvals[id];
            && after.preview == before.preview && after.expires == before.expires && after.user == before.user
            && (!before.status.Pending? ==> after.status == before.status && after.decided == before.decided)
    decreases |rs|
  {
    if rs != [] {
      DecisionsAreFinal(Handle(s, rs[0]), rs[1..], id);
    }
  }

  // ---- What one request leaves behind ----

  /** The tool call that a preview stores; missing arguments are none. */
  predicate IsCall(p: Preview, tool: ToolKey, args: Arguments) {
    && p.tool == Some(tool) && tool != ""
    && (p.args.Some? ==> args == p.args.value) && (p.args.None? ==> args == map[])
  }

  /** A new approval is pending for a day, holds what was asked, and disturbs nothing. */
  lemma {:induction false} CreatedIsPending(s: Store, r: Request)
    requires Possible(s, r) && r.Create?
    ensures var t := Handle(s, r);
            && t.approvals.Keys == s.approvals.Keys + {r.id} && t.audit == s.audit && t.executed == s.executed
            && var a := t.approvals[r.id];
               && a.status.Pending? && a.decided.None? && a.expires == r.now + 86_400
               && (a.user, a.run, a.kind, a.preview) == (r.user, r.run, r.kind, r.preview)
  {
  }

  /** A request touches no other approval, and of its own only the decision or, when the run goes, the run. */
  lemma {:induction false} OthersUntouched(s: Store, r: Request, id: ApprovalId)
    requires Possible(s, r) && id in s.approvals
    ensures id in Handle(s, r).approvals
    ensures var before, after := s.approvals[id], Handle(s, r).approvals[id];
            && (id != r.id ==> after == before)
            && (after.kind, after.preview, after.expires, after.user)
                 == (before.kind, before.preview, before.expires, before.user)
            && (after.run == if r.RunRemoved? && r.id == id then None else before.run)
            && (after.decided == if Decides(s, r, id) then Some(r.now) else before.decided)
  {
  }

  /** Who is told what: the owner of a pending approval in time gets the decision, and everybody else the
      reason why not. */
  lemma {:induction false} RefusedIff(s: Store, id: ApprovalId, user: nat, status: Status, now: int)
    ensures var refusal := Decide(s, id, user, status, now).1;
            && (refusal == Some(NotFound) <==> id !in s.approvals || s.approvals[id].user != user)
            && (refusal == Some(AlreadyDecided) <==>
                  id in s.approvals && s.approvals[id].user == user && !s.approvals[id].status.Pending?)
            && (refusal == Some(TooLate) <==>
                  && id in s.approvals && s.approvals[id].user == user && s.approvals[id].status.Pending?
                  && s.approvals[id].expires <= now)
  {
  }

  /** An approve request that comes to a tool call: the owner decides in time on a stored call of a run that
      still exists, and the process lives to dispatch it. */
  predicate ComesToCall(s: Store, r: Request, tool: ToolKey, args: Arguments) {
    && r.Approve? && r.id in s.approvals && Decides(s, r, r.id) && r.now < s.approvals[r.id].expires
    && IsCall(s.approvals[r.id].preview, tool, args) && s.approvals[r.id].run.Some?
    && r.fate != StopsBefore(Running)
  }

  /** The audit row of a call: the stored call and its run, whether it was allowed, and whether it went well. */
  predicate Audits(row: AuditRow, a: Approval, r: Request, tool: ToolKey, args: Arguments)
    requires r.Approve?
  {
    && row.approval == r.id && Some(row.run) == a.run && row.tool == tool && row.args == args
    && (row.decision.Allowed? <==> r.build.offers(tool))
    && (row.ok <==> r.build.offers(tool) && r.build.succeeds)
  }

  lemma {:induction false} IsCallIff(p: Preview, tool: ToolKey, args: Arguments)
    ensures IsCall(p, tool, args) <==> PreviewCall(p) == Some((tool, args))
  {
  }

  /** A request that comes to a tool call executes exactly the stored call, if the tool is still offered, and
      adds exactly one audit row that matches it, if it gets to the end. */
  lemma {:induction false} CallsAreExecutedAndAudited(s: Store, r: Request, tool: ToolKey, args: Arguments)
    requires ComesToCall(s, r, tool, args)
    ensures var a, t := s.approvals[r.id], Handle(s, r);
            && t.executed == s.executed + (if r.build.offers(tool) then [Execution(r.id, tool, args, r.now)] else [])
            && (r.fate.Finishes? ==> |t.audit| == |s.audit| + 1 && t.audit[..|s.audit|] == s.audit
                                     && Audits(t.audit[|s.audit|], a, r, tool, args))
            && (!r.fate.Finishes? ==> t.audit == s.audit)
  {
    IsCallIff(s.approvals[r.id].preview, tool, args);
  }

  /** No other request runs anything or writes an audit row. */
  lemma {:induction false} NothingElseRuns(s: Store, r: Request)
    requires Possible(s, r)
    requires forall tool, args :: !ComesToCall(s, r, tool, args)
    ensures Handle(s, r).executed == s.executed && Handle(s, r).audit == s.audit
  {
    if r.Approve? && r.id in s.approvals && PreviewCall(s.approvals[r.id].preview).Some? {
      var (tool, args) := PreviewCall(s.approvals[r.id].preview).value;
      IsCallIff(s.approvals[r.id].preview, tool, args);
      assert !ComesToCall(s, r, tool, args);
    }
  }

  /** An audit row tells of an approved action: its stored call, of its own run, and, if allowed, one that was
      really executed; only an allowed call can have gone well. */
  ghost predicate Faithful(s: Store, row: AuditRow) {
    && row.approval in s.approvals
    && var a := s.approvals[row.approval];
       && a.status.Approved? && IsCall(a.preview, row.tool, row.args)
       && (a.run.Some? ==> a.run == Some(row.run))
       && (row.ok ==> row.decision.Allowed?)
       && (row.decision.Allowed? ==>
             a.decided.Some? && Execution(row.approval, row.tool, row.args, a.decided.value) in s.executed)
  }

  lemma {:induction false} FaithfulKept(s: Store, r: Request, row: AuditRow)
    requires Possible(s, r) && Faithful(s, row)
    ensures Faithful(Handle(s, r), row)
  {
    OthersUntouched(s, r, row.approval);
  }

  lemma {:induction false} NewRowFaithful(s: Store, r: Request, tool: ToolKey, args: Arguments)
    requires ComesToCall(s, r, tool, args) && r.fate.Finishes?
    ensures var t := Handle(s, r); |t.audit| == |s.audit| + 1 && Faithful(t, t.audit[|s.audit|])
  {
    CallsAreExecutedAndAudited(s, r, tool, args);
    OthersUntouched(s, r, r.id);
    ActionRunsIff(s, r, r.id);
  }

  lemma {:induction false} RowsStayFaithful(s: Store, rs: seq<Request>)
    requires Run(s, rs) && forall row :: row in s.audit ==> Faithful(s, row)
    ensures forall row :: row in After(s, rs).audit ==> Faithful(After(s, rs), row)
    decreases |rs|
  {
    if rs != [] {
      var t := Handle(s, rs[0]);
      forall row | row in t.audit ensures Faithful(t, row) {
        RowFaithful(s, rs[0], row);
      }
      RowsStayFaithful(t, rs[1..]);
    }
  }

  lemma {:induction false} RowFaithful(s: Store, r: Request, row: AuditRow)
    requires Possible(s, r) && row in Handle(s, r).audit
    requires forall known :: known in s.audit ==> Faithful(s, known)
    ensures Faithful(Handle(s, r), row)
  {
    if row in s.audit {
      FaithfulKept(s, r, row);
    } else if tool, args :| ComesToCall(s, r, tool, args) {
      CallsAreExecutedAndAudited(s, r, tool, args);
      if r.fate.Finishes? {
        NewRowFaithful(s, r, tool, args);
      }
    } else {
      NothingElseRuns(s, r);
    }
  }

  /** Along every run each audit row tells the truth about its action. */
  lemma {:induction false} AuditRowsTellTheTruth(rs: seq<Request>)
    requires Run(EmptyStore, rs)
    ensures forall row :: row in After(EmptyStore, rs).audit ==> Faithful(After(EmptyStore, rs), row)
  {
    RowsStayFaithful(EmptyStore, rs);
  }
}
