/** Which answer a policy request is due, in terms of the request, the rules and the documents in force: every
    answer of every run has its reason, and a request that enters the gate gets exactly the answer it is due. */
module PolicyAnswers {
  import opened Options
  import opened PolicyWrites

  // ---- the table of answers

  /** The document a request asks to have in force. */
  function Asked(s: State, k: Kind): Doc
    requires k.Restore? ==> k.version <= |s.log|
  {
    match k
    case Put(doc) => doc
    case Preview(doc) => doc
    case Restore(v) => DocAt(s, v)
  }

  /** The answer due once the asked document is known, with version `v` published and the store as in `w`. */
  ghost predicate Verdict(r: Rules, s: State, req: Request, v: nat, w: World, reply: Reply)
    requires v <= |s.log| && (req.kind.Restore? ==> req.kind.version <= |s.log|)
  {
    var cur, doc, write := DocAt(s, v), Asked(s, req.kind), !req.kind.Preview?;
    var heard := write ==> req.actorOk && req.ifMatch == v;
    var changes := write && heard && r.valid(cur, doc, w) && doc != cur;
    var token := r.token(cur, doc, w);
    var agreed := r.destructive(cur, doc, w) ==> req.confirm && req.token == Some(token);
    match reply
    case Busy => false
    case AuditUnreadable => false
    case UnknownVersion => false
    case BadActor => write && !req.actorOk
    case Stale(current) => write && req.actorOk && req.ifMatch != v && current == v
    case Invalid => heard && !r.valid(cur, doc, w)
    case Previewed(k) => !write && r.valid(cur, doc, w) && k == token
    case NoChange => write && heard && r.valid(cur, doc, w) && doc == cur
    case Unconfirmed(k) => changes && !agreed && k == token
    case Exhausted => changes && agreed && v >= MAX_VERSION
    case PersistFailed => changes && agreed && v < MAX_VERSION
    case Applied(n) => changes && agreed && v < MAX_VERSION && n == v + 1
  }

  // ---- every answer has its reason

  /** Given before the asked document is known. */
  predicate Early(reply: Reply) { reply.Busy? || reply.AuditUnreadable? || reply.UnknownVersion? }

  /** Why a request was answered as it was: the answer was due at some version published so far, and a document
      said to be applied was put in force. */
  ghost predicate Explained(r: Rules, s: State, req: Request, reply: Reply) {
    && (reply.Busy? ==> req.kind.Preview?)
    && (reply.AuditUnreadable? || reply.UnknownVersion? ==> req.kind.Restore?)
    && (!Early(reply) ==> exists v: nat, w: World :: DueAt(r, s, req, v, w, reply))
    && (reply.Applied? ==> PutInForce(s, req, reply.version))
  }

  ghost predicate PutInForce(s: State, req: Request, n: nat) {
    && n <= s.version <= |s.log| && (req.kind.Restore? ==> req.kind.version <= |s.log|)
    && DocAt(s, n) == Asked(s, req.kind)
  }

  ghost predicate DueAt(r: Rules, s: State, req: Request, v: nat, w: World, reply: Reply) {
    v <= s.version <= |s.log| && (req.kind.Restore? ==> req.kind.version <= v) && Verdict(r, s, req, v, w, reply)
  }

  ghost predicate ThreadExplained(r: Rules, s: State, th: Thread) {
    && (th.phase.Answered? ==> Explained(r, s, th.request, th.phase.reply))
    && (InFlight(th.phase) ==> s.log != [] && s.log[|s.log| - 1].request == th.request)
  }

  ghost predicate AllExplained(r: Rules, s: State) {
    forall t :: t in s.threads ==> ThreadExplained(r, s, s.threads[t])
  }

  ghost predicate Grows(s: State, s': State) {
    && s'.defaults == s.defaults && |s.log| <= |s'.log| && s'.log[..|s.log|] == s.log
    && s.version <= s'.version <= |s'.log|
  }

  lemma GrowsDocs(s: State, s': State, v: nat)
    requires Grows(s, s') && v <= |s.log|
    ensures DocAt(s', v) == DocAt(s, v)
  {
    if v > 0 { assert s'.log[v - 1] == s'.log[..|s.log|][v - 1]; }
  }

  lemma VerdictStays(r: Rules, s: State, s': State, req: Request, v: nat, w: World, reply: Reply)
    requires Grows(s, s') && v <= |s.log| && (req.kind.Restore? ==> req.kind.version <= |s.log|)
    ensures Verdict(r, s', req, v, w, reply) == Verdict(r, s, req, v, w, reply)
  {
    hide Grows, DocAt;
    assert |s.log| <= |s'.log| by { assert Grows(s, s'); GrowsLonger(s, s'); }
    GrowsDocs(s, s', v);
    if req.kind.Restore? { GrowsDocs(s, s', req.kind.version); }
  }

  lemma GrowsLonger(s: State, s': State)
    requires Grows(s, s')
    ensures |s.log| <= |s'.log|
  {
  }

  lemma ExplainedStays(r: Rules, s: State, s': State, req: Request, reply: Reply)
    requires Grows(s, s') && Explained(r, s, req, reply)
    ensures Explained(r, s', req, reply)
  {
    hide Verdict, DocAt;
    if !reply.Busy? && !reply.AuditUnreadable? && !reply.UnknownVersion? {
      var v: nat, w: World :| DueAt(r, s, req, v, w, reply);
      VerdictStays(r, s, s', req, v, w, reply);
      assert DueAt(r, s', req, v, w, reply);
      if reply.Applied? {
        GrowsDocs(s, s', reply.version);
        if req.kind.Restore? { GrowsDocs(s, s', req.kind.version); }
      }
    }
  }

  lemma RestartGrows(r: Rules, s: State)
    requires Inv(r, s)
    ensures Grows(s, DoRestart(s))
  {
    hide FindEntry, LogOk, AuditInv, GateOk;
  }

  lemma DoGrows(r: Rules, s: State, step: Step)
    requires Inv(r, s)
    ensures Grows(s, Do(r, s, step))
  {
    hide FindEntry, LogOk, AuditInv, DoRestart, Trim;
    if step.CrashAndRestart? { RestartGrows(r, s); }
    if step.Publish? && step.thread in s.threads { assert PhaseOk(r, s, s.threads[step.thread]); }
  }

  ghost predicate Recorded(s: State, v: nat) {
    exists i :: 0 <= i < |s.audit| && s.audit[i].version == v
  }

  /** The answer a step gives is due at the version then published. */
  ghost predicate AnsweredNow(r: Rules, s: State, s': State, req: Request, reply: Reply) {
    && (reply.Busy? ==> req.kind.Preview? && s.gate.Some?)
    && (reply.AuditUnreadable? ==> req.kind.Restore?)
    && (reply.UnknownVersion? ==> req.kind.Restore? && !Recorded(s, req.kind.version))
    && (!Early(reply) ==> exists w: World :: DueAt(r, s, req, s.version, w, reply))
    && (reply.Applied? ==>
          && s'.version == reply.version && PutInForce(s', req, reply.version)
          && s'.disk == Some(Entry(s'.version, s'.effective)))
  }

  lemma ProposeAnswers(r: Rules, s: State, t: nat, readable: bool)
    requires Inv(r, s) && t in s.threads && s.threads[t].phase.Entered?
    ensures var s' := DoPropose(s, t, readable);
      s'.threads[t].phase.Answered? ==> AnsweredNow(r, s, s', s.threads[t].request, s'.threads[t].phase.reply)
  {
    hide LogOk, GateOk, AuditInv, StateOk;
    var k := s.threads[t].request.kind;
    if k.Restore? { FoundEntry(s.audit, k.version); }
  }

  lemma SnapshotAnswers(r: Rules, s: State, t: nat)
    requires Inv(r, s) && t in s.threads && s.threads[t].phase.Proposing?
    ensures var s' := DoSnapshot(s, t, s.threads[t].phase.proposed);
      s'.threads[t].phase.Answered? ==> AnsweredNow(r, s, s', s.threads[t].request, s'.threads[t].phase.reply)
  {
    hide LogOk, GateOk, AuditInv;
    assert PhaseOk(r, s, s.threads[t]);
    var s' := DoSnapshot(s, t, s.threads[t].phase.proposed);
    if s'.threads[t].phase.Answered? {
      assert DueAt(r, s, s.threads[t].request, s.version, 0, s'.threads[t].phase.reply);
    }
  }

  lemma JudgeAnswers(r: Rules, s: State, t: nat, w: World)
    requires Inv(r, s) && t in s.threads && s.threads[t].phase.Snapped?
    ensures var s' := DoJudge(r, s, t, w);
      s'.threads[t].phase.Answered? ==> AnsweredNow(r, s, s', s.threads[t].request, s'.threads[t].phase.reply)
  {
    hide LogOk, GateOk, AuditInv;
    assert PhaseOk(r, s, s.threads[t]);
    var s' := DoJudge(r, s, t, w);
    if s'.threads[t].phase.Answered? {
      assert DueAt(r, s, s.threads[t].request, s.version, w, s'.threads[t].phase.reply);
    }
  }

  lemma WriteAnswers(r: Rules, s: State, t: nat, ok: bool)
    requires Inv(r, s) && t in s.threads && s.threads[t].phase.Cleared?
    ensures var s' := DoWrite(s, t, ok);
      s'.threads[t].phase.Answered? ==> AnsweredNow(r, s, s', s.threads[t].request, s'.threads[t].phase.reply)
  {
    hide LogOk, GateOk, AuditInv;
    assert PhaseOk(r, s, s.threads[t]);
    var s' := DoWrite(s, t, ok);
    if s'.threads[t].phase.Answered? {
      assert DueAt(r, s, s.threads[t].request, s.version, s.threads[t].phase.world, s'.threads[t].phase.reply);
    }
  }

  lemma PublishAnswers(r: Rules, s: State, t: nat)
    requires Inv(r, s) && t in s.threads && s.threads[t].phase.Logged? && ThreadExplained(r, s, s.threads[t])
    ensures var s' := DoPublish(s, t);
      AnsweredNow(r, s, s', s.threads[t].request, s'.threads[t].phase.reply)
  {
    hide LogOk, AuditInv;
    assert PhaseOk(r, s, s.threads[t]);
    assert s.gate == Some(t);
    var n := |s.log|;
    assert CommitOk(r, s, n - 1) by { LastCommit(r, s); }
    assert DueAt(r, s, s.threads[t].request, s.version, s.log[n - 1].world, Applied(n));
  }

  lemma LastCommit(r: Rules, s: State)
    requires LogOk(r, s) && s.log != []
    ensures CommitOk(r, s, |s.log| - 1)
  {
  }

  lemma TurnedAway(r: Rules, s: State, s': State, req: Request)
    requires req.kind.Preview? && s.gate.Some?
    ensures AnsweredNow(r, s, s', req, Busy)
  {
  }

  /** A step of another request. */
  predicate Foreign(step: Step, t: nat) {
    match step
    case Arrive(_) => true
    case CrashAndRestart => false
    case _ => step.thread != t
  }

  lemma ForeignLeaves(r: Rules, s: State, step: Step, t: nat)
    requires t in s.threads && t < s.nextThread && (Foreign(step, t) || step.CrashAndRestart?)
    ensures var s' := Do(r, s, step); t in s'.threads ==> s'.threads[t] == s.threads[t]
    ensures !step.CrashAndRestart? ==> t in Do(r, s, step).threads
  {
    hide FindEntry, Trim;
  }

  /** Every answer is due when it is given. */
  lemma AnswerIsDue(r: Rules, s: State, step: Step, t: nat)
    requires Inv(r, s) && t in s.threads && ThreadExplained(r, s, s.threads[t]) && !s.threads[t].phase.Answered?
    ensures var s' := Do(r, s, step);
      t in s'.threads && s'.threads[t].phase.Answered? ==>
        AnsweredNow(r, s, s', s.threads[t].request, s'.threads[t].phase.reply)
  {
    hide LogOk, StateOk, AuditInv, PhaseOk, AnsweredNow, DoPropose, DoSnapshot, DoJudge, DoWrite, ThreadExplained, DoRestart;
    var s', req := Do(r, s, step), s.threads[t].request;
    if Foreign(step, t) || step.CrashAndRestart? {
      ForeignLeaves(r, s, step, t);
    } else {
      hide Inv;
      match step
      case TurnAway(_) => if req.kind.Preview? && s.gate.Some? { TurnedAway(r, s, s', req); }
      case Propose(_, readable) => if s.threads[t].phase.Entered? { ProposeAnswers(r, s, t, readable); }
      case Snapshot(_) => if s.threads[t].phase.Proposing? { SnapshotAnswers(r, s, t); }
      case Judge(_, w) => if s.threads[t].phase.Snapped? { JudgeAnswers(r, s, t, w); }
      case WriteFile(_, ok) => if s.threads[t].phase.Cleared? { WriteAnswers(r, s, t, ok); }
      case Publish(_) => if s.threads[t].phase.Logged? { PublishAnswers(r, s, t); }
      case Acquire(_) =>
      case AppendAudit(_, _, _) =>
    }
  }

  lemma NowExplains(r: Rules, s: State, s': State, req: Request, reply: Reply)
    requires Grows(s, s') && AnsweredNow(r, s, s', req, reply)
    ensures Explained(r, s', req, reply)
  {
    hide Verdict, DocAt, Asked, PutInForce;
    if !Early(reply) {
      var w: World :| DueAt(r, s, req, s.version, w, reply);
      VerdictStays(r, s, s', req, s.version, w, reply);
      assert DueAt(r, s', req, s.version, w, reply);
    }
  }

  /** The one in flight is the author of the last commit. */
  lemma InFlightStays(r: Rules, s: State, step: Step, t: nat)
    requires Inv(r, s) && t in s.threads && ThreadExplained(r, s, s.threads[t])
    ensures var s' := Do(r, s, step);
      t in s'.threads && InFlight(s'.threads[t].phase) ==>
        s'.log != [] && s'.log[|s'.log| - 1].request == s'.threads[t].request
  {
    hide FindEntry, Trim, LogOk, AuditInv, StateOk, PhaseOk, Explained, DoRestart;
    if step.CrashAndRestart? {
      RestartEmpties(s);
    } else if Foreign(step, t) {
      ForeignLeaves(r, s, step, t);
      if InFlight(s.threads[t].phase) { ForeignWaits(r, s, step, t); }
    }
  }

  lemma RestartEmpties(s: State)
    ensures DoRestart(s).log == s.log && (DoRestart(s).threads == map[] || DoRestart(s) == s)
  {
  }

  lemma ThreadStaysExplained(r: Rules, s: State, step: Step, t: nat)
    requires Inv(r, s) && t in s.threads && ThreadExplained(r, s, s.threads[t])
    ensures var s' := Do(r, s, step); t in s'.threads ==> ThreadExplained(r, s', s'.threads[t])
  {
    hide Inv, Explained, AnsweredNow, Grows, Do;
    var s' := Do(r, s, step);
    DoGrows(r, s, step);
    InFlightStays(r, s, step, t);
    if t in s'.threads && s'.threads[t].phase.Answered? {
      SameRequest(r, s, step, t);
      if s.threads[t].phase.Answered? {
        ExplainedStays(r, s, s', s.threads[t].request, s.threads[t].phase.reply);
      } else {
        AnswerIsDue(r, s, step, t);
        NowExplains(r, s, s', s.threads[t].request, s'.threads[t].phase.reply);
      }
    }
  }

  /** A request stays what it is, and an answer given is the answer. */
  lemma SameRequest(r: Rules, s: State, step: Step, t: nat)
    requires Inv(r, s) && t in s.threads && t in Do(r, s, step).threads
    ensures Do(r, s, step).threads[t].request == s.threads[t].request
    ensures s.threads[t].phase.Answered? ==> Do(r, s, step).threads[t] == s.threads[t]
  {
    hide FindEntry, Trim, LogOk, AuditInv, StateOk, PhaseOk, DoRestart;
    if step.CrashAndRestart? {
      RestartEmpties(s);
    } else if Foreign(step, t) {
      ForeignLeaves(r, s, step, t);
    }
  }

  lemma StepExplained(r: Rules, s: State, step: Step)
    requires Inv(r, s) && AllExplained(r, s)
    ensures AllExplained(r, Do(r, s, step))
  {
    hide ThreadExplained;
    var s' := Do(r, s, step);
    forall t | t in s'.threads ensures ThreadExplained(r, s', s'.threads[t]) {
      hide Inv, Do;
      if t in s.threads {
        ThreadStaysExplained(r, s, step, t);
      } else {
        Newcomer(r, s, step, t);
      }
    }
  }

  lemma Newcomer(r: Rules, s: State, step: Step, t: nat)
    requires t in Do(r, s, step).threads && t !in s.threads
    ensures ThreadExplained(r, Do(r, s, step), Do(r, s, step).threads[t])
  {
    hide FindEntry, Trim, DoRestart;
    if step.CrashAndRestart? { RestartEmpties(s); }
  }

  lemma {:induction false} RunExplained(r: Rules, s: State, steps: seq<Step>)
    requires Inv(r, s) && AllExplained(r, s)
    ensures Inv(r, Run(r, s, steps)) && AllExplained(r, Run(r, s, steps))
    decreases |steps|
  {
    hide Inv, AllExplained, Do;
    if steps != [] {
      DoInv(r, s, steps[0]);
      StepExplained(r, s, steps[0]);
      RunExplained(r, Do(r, s, steps[0]), steps[1..]);
    }
  }

  /** Every answer of every run has its reason. */
  lemma EveryAnswerIsExplained(r: Rules, defaults: Doc, steps: seq<Step>)
    ensures var s := Run(r, Start(defaults), steps);
      forall t :: t in s.threads && s.threads[t].phase.Answered? ==>
        Explained(r, s, s.threads[t].request, s.threads[t].phase.reply)
  {
    hide Inv, Explained, Run;
    StartInv(r, defaults);
    assert AllExplained(r, Start(defaults));
    RunExplained(r, Start(defaults), steps);
    var s := Run(r, Start(defaults), steps);
    assert forall t :: t in s.threads ==> ThreadExplained(r, s, s.threads[t]);
  }

  // ---- a request that enters gets the answer it is due

  /** What reading the audit log, evaluating, writing the file and appending the audit line come to. */
  datatype Fortune = Fortune(readable: bool, world: World, written: bool, audited: bool, compacted: bool)

  /** The answer due to a request that enters in `s`. */
  ghost predicate IsDue(r: Rules, s: State, req: Request, f: Fortune, reply: Reply)
    requires s.version <= |s.log|
  {
    if req.kind.Restore? && !f.readable then reply == AuditUnreadable
    else if req.kind.Restore? && !Recorded(s, req.kind.version) then reply == UnknownVersion
    else
      && DueAt(r, s, req, s.version, f.world, reply)
      && (reply.PersistFailed? ==> !f.written) && (reply.Applied? ==> f.written)
  }

  /** One answer is due, so a request gets an answer if and only if it is due. */
  lemma DueOnce(r: Rules, s: State, req: Request, f: Fortune, reply: Reply, reply': Reply)
    requires s.version <= |s.log| && IsDue(r, s, req, f, reply) && IsDue(r, s, req, f, reply')
    ensures reply == reply'
  {
    hide DocAt, Asked, Recorded;
  }

  function Turn(t: nat, f: Fortune): seq<Step> {
    [Acquire(t), Propose(t, f.readable), Snapshot(t), Judge(t, f.world), WriteFile(t, f.written),
     AppendAudit(t, f.audited, f.compacted), Publish(t)]
  }

  /** The steps that are not foreign to `t`, crashes included. */
  function Own(steps: seq<Step>, t: nat): seq<Step> {
    if steps == [] then []
    else (if Foreign(steps[0], t) then [] else [steps[0]]) + Own(steps[1..], t)
  }

  /** `t` still holds the gate it took in `s0` after `i` of its own steps, and nobody else touched anything shared. */
  ghost predicate Underway(r: Rules, s0: State, s: State, t: nat, f: Fortune, i: nat)
    requires s0.version <= |s0.log| && t in s0.threads && t in s.threads
  {
    var req, p, v := s0.threads[t].request, s.threads[t].phase, s0.version;
    && s.defaults == s0.defaults && s.version == v && s.effective == s0.effective
    && (i >= 2 ==> (req.kind.Restore? ==> f.readable && Recorded(s0, req.kind.version) && req.kind.version <= v))
    && (i <= 4 ==> s.audit == s0.audit && s.log == s0.log)
    && (i == 4 ==> DueAt(r, s0, req, v, f.world, Applied(v + 1)))
    && (i >= 5 ==>
          && IsDue(r, s0, req, f, Applied(v + 1))
          && |s.log| == |s0.log| + 1 && s.log[..|s0.log|] == s0.log && DocAt(s, |s.log|) == Asked(s0, req.kind))
    && match i
       case 1 => p == Entered
       case 2 => p == Proposing(Asked(s0, req.kind))
       case 3 => p == Snapped(Asked(s0, req.kind), v, s0.effective) && (!req.kind.Preview? ==> req.actorOk && req.ifMatch == v)
       case 4 => p == Cleared(Asked(s0, req.kind), v, s0.effective, f.world)
       case 5 => p == Written(Asked(s0, req.kind), v + 1)
       case 6 => p == Logged(Asked(s0, req.kind), v + 1)
       case _ => false
  }

  ghost predicate Progress(r: Rules, s0: State, s: State, t: nat, f: Fortune, i: nat)
    requires s0.version <= |s0.log| && t in s0.threads
  {
    && t in s.threads && s.threads[t].request == s0.threads[t].request
    && if s.threads[t].phase.Answered? then IsDue(r, s0, s0.threads[t].request, f, s.threads[t].phase.reply)
       else Underway(r, s0, s, t, f, i)
  }

  lemma ForeignWaits(r: Rules, s: State, step: Step, t: nat)
    requires Inv(r, s) && t in s.threads && Holds(s.threads[t].phase) && Foreign(step, t)
    ensures var s' := Do(r, s, step);
      && t in s'.threads && s'.threads[t] == s.threads[t] && s'.defaults == s.defaults && s'.version == s.version
      && s'.effective == s.effective && s'.audit == s.audit && s'.log == s.log
  {
    hide LogOk, AuditInv, StateOk, FindEntry, Trim;
  }

  lemma ForeignProgress(r: Rules, s0: State, s: State, t: nat, f: Fortune, i: nat, step: Step)
    requires s0.version <= |s0.log| && t in s0.threads
    requires Inv(r, s) && Progress(r, s0, s, t, f, i) && Foreign(step, t)
    ensures Progress(r, s0, Do(r, s, step), t, f, i)
  {
    hide LogOk, AuditInv, StateOk, Do, IsDue, DueAt, Asked, Recorded;
    if s.threads[t].phase.Answered? {
      ForeignLeaves(r, s, step, t);
    } else {
      ForeignWaits(r, s, step, t);
    }
  }

  ghost predicate Ready(r: Rules, s0: State, s: State, t: nat) {
    Inv(r, s0) && Inv(r, s) && t in s0.threads && t in s.threads && s.threads[t].request == s0.threads[t].request
  }

  lemma OwnPropose(r: Rules, s0: State, s: State, t: nat, f: Fortune)
    requires Ready(r, s0, s, t) && Underway(r, s0, s, t, f, 1)
    ensures Progress(r, s0, DoPropose(s, t, f.readable), t, f, 2)
  {
    hide LogOk, GateOk, DueAt;
    var k := s.threads[t].request.kind;
    if k.Restore? {
      FoundEntry(s.audit, k.version);
      assert s.gate == Some(t) by { GateHolder(r, s, t); }
      if FindEntry(s.audit, k.version).Some? { EntryDoc(s, k.version); }
    }
  }

  lemma OwnSnapshot(r: Rules, s0: State, s: State, t: nat, f: Fortune)
    requires Ready(r, s0, s, t) && Underway(r, s0, s, t, f, 2)
    ensures Progress(r, s0, DoSnapshot(s, t, s.threads[t].phase.proposed), t, f, 3)
  {
    hide LogOk, GateOk, AuditInv, Recorded, Asked;
  }

  lemma JudgedAsDue(r: Rules, s0: State, s: State, t: nat, w: World)
    requires t in s0.threads && t in s.threads && s0.version <= |s0.log| && s0.effective == DocAt(s0, s0.version)
    requires var req := s0.threads[t].request;
      && s.threads[t].request == req && (req.kind.Restore? ==> req.kind.version <= s0.version)
      && s.threads[t].phase == Snapped(Asked(s0, req.kind), s0.version, s0.effective)
      && (!req.kind.Preview? ==> req.actorOk && req.ifMatch == s0.version)
    ensures var p := DoJudge(r, s, t, w).threads[t].phase;
      if p.Answered? then DueAt(r, s0, s0.threads[t].request, s0.version, w, p.reply) && !p.reply.PersistFailed? && !p.reply.Applied?
      else
        && DueAt(r, s0, s0.threads[t].request, s0.version, w, Applied(s0.version + 1))
        && p == Cleared(Asked(s0, s0.threads[t].request.kind), s0.version, s0.effective, w)
  {
    hide DocAt, Asked;
  }

  lemma JudgeLeaves(r: Rules, s: State, t: nat, w: World)
    requires t in s.threads && s.threads[t].phase.Snapped?
    ensures var s' := DoJudge(r, s, t, w);
      && t in s'.threads && s'.threads[t].request == s.threads[t].request && s'.defaults == s.defaults
      && s'.version == s.version && s'.effective == s.effective && s'.audit == s.audit && s'.log == s.log
  {
  }

  lemma OwnJudge(r: Rules, s0: State, s: State, t: nat, f: Fortune)
    requires Ready(r, s0, s, t) && Underway(r, s0, s, t, f, 3)
    ensures Progress(r, s0, DoJudge(r, s, t, f.world), t, f, 4)
  {
    assert s0.version <= |s0.log| && s0.effective == DocAt(s0, s0.version);
    hide Inv, Recorded, Asked, DocAt, DueAt, DoJudge;
    JudgedAsDue(r, s0, s, t, f.world);
    JudgeLeaves(r, s, t, f.world);
  }

  lemma OwnWrite(r: Rules, s0: State, s: State, t: nat, f: Fortune)
    requires Ready(r, s0, s, t) && Underway(r, s0, s, t, f, 4)
    ensures Progress(r, s0, DoWrite(s, t, f.written), t, f, 5)
  {
    hide LogOk, GateOk, AuditInv, Recorded, Asked;
    assert s0.effective == DocAt(s0, s0.version);
  }

  lemma OwnAppend(r: Rules, s0: State, s: State, t: nat, f: Fortune)
    requires Ready(r, s0, s, t) && Underway(r, s0, s, t, f, 5)
    ensures Progress(r, s0, DoAppend(s, t, f.audited, f.compacted), t, f, 6)
  {
    hide LogOk, GateOk, AuditInv, Recorded, Asked, IsDue;
  }

  lemma OwnPublish(r: Rules, s0: State, s: State, t: nat, f: Fortune)
    requires Ready(r, s0, s, t) && Underway(r, s0, s, t, f, 6)
    ensures Progress(r, s0, DoPublish(s, t), t, f, 7)
  {
    hide LogOk, GateOk, AuditInv, Recorded, Asked, IsDue;
  }

  lemma OwnProgress(r: Rules, s0: State, s: State, t: nat, f: Fortune, i: nat)
    requires Ready(r, s0, s, t) && 1 <= i < 7 && Progress(r, s0, s, t, f, i)
    ensures Progress(r, s0, Do(r, s, Turn(t, f)[i]), t, f, i + 1)
  {
    hide LogOk, GateOk, AuditInv, StateOk, PhaseOk, Recorded, Asked, IsDue, DueAt;
    hide DoPropose, DoSnapshot, DoJudge, DoWrite, DoAppend, DoPublish;
    if !s.threads[t].phase.Answered? {
      match i
      case 1 => OwnPropose(r, s0, s, t, f);
      case 2 => OwnSnapshot(r, s0, s, t, f);
      case 3 => OwnJudge(r, s0, s, t, f);
      case 4 => OwnWrite(r, s0, s, t, f);
      case 5 => OwnAppend(r, s0, s, t, f);
      case 6 => OwnPublish(r, s0, s, t, f);
    }
  }

  lemma {:induction false} Interleaved(r: Rules, s0: State, s: State, t: nat, f: Fortune, i: nat, steps: seq<Step>)
    requires Ready(r, s0, s, t) && 1 <= i <= 7 && Progress(r, s0, s, t, f, i)
    requires Own(steps, t) == Turn(t, f)[i..]
    ensures Progress(r, s0, Run(r, s, steps), t, f, 7)
    decreases |steps|
  {
    assert s0.version <= |s0.log|;
    hide Inv, Do, Progress;
    if steps != [] {
      var s' := Do(r, s, steps[0]);
      DoInv(r, s, steps[0]);
      if Foreign(steps[0], t) {
        ForeignProgress(r, s0, s, t, f, i, steps[0]);
        StillThere(r, s0, s', t, f, i);
        Interleaved(r, s0, s', t, f, i, steps[1..]);
      } else {
        assert i < 7 && Own(steps, t)[0] == Turn(t, f)[i] && Own(steps[1..], t) == Own(steps, t)[1..];
        OwnProgress(r, s0, s, t, f, i);
        StillThere(r, s0, s', t, f, i + 1);
        Interleaved(r, s0, s', t, f, i + 1, steps[1..]);
      }
    }
  }

  lemma StillThere(r: Rules, s0: State, s: State, t: nat, f: Fortune, i: nat)
    requires s0.version <= |s0.log| && t in s0.threads && Progress(r, s0, s, t, f, i)
    ensures t in s.threads && s.threads[t].request == s0.threads[t].request
  {
  }

  /** A waiting request enters exactly when the gate is free; only a preview is turned away, and only while the gate
      is held. */
  lemma GateIs(r: Rules, s: State, t: nat)
    requires t in s.threads && s.threads[t].phase.Waiting?
    ensures var entered := Do(r, s, Acquire(t));
      if s.gate.None? then entered.threads[t].phase == Entered && entered.gate == Some(t) else entered == s
    ensures var turned := Do(r, s, TurnAway(t));
      if s.gate.Some? && s.threads[t].request.kind.Preview? then turned.threads[t].phase == Answered(Busy) && turned.gate == s.gate
      else turned == s
  {
  }

  /** A request that finds the gate free and takes its seven steps, among any steps of others and with no
      crash, is answered, and the answer is the one due: to a change that is due, that it was applied. */
  lemma ServedAsDue(r: Rules, s: State, t: nat, f: Fortune, steps: seq<Step>)
    requires Inv(r, s) && t in s.threads && s.threads[t].phase.Waiting? && s.gate.None?
    requires steps != [] && steps[0] == Acquire(t) && Own(steps, t) == Turn(t, f)
    ensures var s' := Run(r, s, steps);
      t in s'.threads && s'.threads[t].phase.Answered? && IsDue(r, s, s.threads[t].request, f, s'.threads[t].phase.reply)
  {
    var s1 := Do(r, s, steps[0]);
    DoInv(r, s, steps[0]);
    assert Progress(r, s, s1, t, f, 1) by { hide LogOk, GateOk, AuditInv, Recorded, Asked; }
    assert Own(steps[1..], t) == Own(steps, t)[1..];
    hide Inv, Do;
    Interleaved(r, s, s1, t, f, 1, steps[1..]);
  }

  /** The token of a preview confirms the same document as long as the version and the world are the same: the
      write it was taken for is applied. */
  lemma PreviewedTokenConfirms(r: Rules, s: State, s': State, doc: Doc, w: World, preview: Request, put: Request, token: string)
    requires Inv(r, s) && Inv(r, s') && Grows(s, s') && s'.version == s.version < MAX_VERSION
    requires preview.kind == Preview(doc) && DueAt(r, s, preview, s.version, w, Previewed(token))
    requires put.kind == Put(doc) && put.actorOk && put.ifMatch == s.version && put.confirm && put.token == Some(token)
    requires doc != s.effective
    ensures DueAt(r, s', put, s'.version, w, Applied(s.version + 1))
  {
    GrowsDocs(s, s', s.version);
  }

  // ---- the audit log and a restart

  lemma TrimKeepsNewest(lines: seq<Entry>)
    ensures |Trim(lines)| == if |lines| > 500 then 500 else |lines|
    ensures forall i :: 0 <= i < |Trim(lines)| ==> Trim(lines)[i] == lines[|lines| - |Trim(lines)| + i]
  {
  }

  /** The audit line of a change is added when the append works; a compaction keeps the newest lines, up to its limit. */
  lemma AuditLine(s: State, t: nat, ok: bool, compacted: bool)
    requires t in s.threads && s.threads[t].phase.Written?
    ensures var p := s.threads[t].phase;
      var lines := s.audit + if ok then [Entry(p.version, p.proposed)] else [];
      var kept := DoAppend(s, t, ok, compacted).audit;
      && |kept| == (if compacted && |lines| > 500 then 500 else |lines|)
      && forall i :: 0 <= i < |kept| ==> kept[i] == lines[|lines| - |kept| + i]
  {
    hide Trim;
    var p := s.threads[t].phase;
    var lines := s.audit + if ok then [Entry(p.version, p.proposed)] else [];
    TrimKeepsNewest(lines);
    assert !ok ==> lines == s.audit;
    assert DoAppend(s, t, ok, compacted).audit == if compacted then Trim(lines) else lines;
  }

  /** A restart publishes the last committed document, drops every request, and leaves its audit line in place. */
  lemma RestartPublishes(r: Rules, s: State)
    requires Inv(r, s) && |s.log| < MAX_VERSION
    ensures var s' := DoRestart(s);
      && s'.version == |s.log| && s'.effective == DocAt(s, |s.log|) && s'.log == s.log && s'.disk == s.disk
      && s'.threads == map[] && s'.gate.None?
      && (s.log != [] ==> Recorded(s', |s.log|))
      && s'.audit == s.audit + if s.log == [] || Recorded(s, |s.log|) then [] else [Entry(|s.log|, DocAt(s, |s.log|))]
  {
    hide LogOk, GateOk, AuditInv;
    FoundEntry(s.audit, |s.log|);
    if s.log != [] && !Recorded(s, |s.log|) {
      assert (s.audit + [Entry(|s.log|, DocAt(s, |s.log|))])[|s.audit|].version == |s.log|;
    }
  }
}
