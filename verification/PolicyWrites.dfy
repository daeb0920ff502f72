/** The runtime policy write protocol: any number of PUT, restore and preview requests, interleaved step by
    step, with the process crashing and restarting anywhere.

    A request holds the scan gate from the moment it enters until it answers. The published state is read
    once and written once under the gate; the policy file and the audit log are written in between. */
module PolicyWrites {
  import opened Options

  /** A policy document; two documents with no difference between them are equal. */
  type Doc = string
  /** What an evaluation sees of the store and the clock when it runs. */
  type World = nat

  /** The largest version a policy file may carry. */
  const MAX_VERSION: nat := 0xFFFF_FFFF_FFFF_FFFF
  /** Entries an audit compaction keeps. */
  const AUDIT_KEEP: nat := 500

  /** The evaluation of a proposed document against the current one. */
  datatype Rules = Rules(
    valid: (Doc, Doc, World) -> bool, destructive: (Doc, Doc, World) -> bool, token: (Doc, Doc, World) -> string)

  datatype Kind = Put(doc: Doc) | Restore(version: nat) | Preview(doc: Doc)

  datatype Request = Request(kind: Kind, ifMatch: nat, confirm: bool, token: Option<string>, actorOk: bool)

  datatype Reply =
    | Busy | UnknownVersion | AuditUnreadable | BadActor | Stale(current: nat) | Invalid | NoChange
    | Unconfirmed(token: string) | Exhausted | PersistFailed | Previewed(token: string) | Applied(version: nat)

  /** Where a request is. All phases but the first and the last hold the gate. */
  datatype Phase =
    | Waiting
    | Entered
    | Proposing(proposed: Doc)
    | Snapped(proposed: Doc, version: nat, current: Doc)
    | Cleared(proposed: Doc, version: nat, current: Doc, world: World)
    | Written(proposed: Doc, version: nat)
    | Logged(proposed: Doc, version: nat)
    | Answered(reply: Reply)

  predicate Holds(p: Phase) { !p.Waiting? && !p.Answered? }

  /** The policy file has the new version, the published state not yet. */
  predicate InFlight(p: Phase) { p.Written? || p.Logged? }

  datatype Thread = Thread(request: Request, phase: Phase)

  datatype Entry = Entry(version: nat, doc: Doc)

  /** A version that reached the policy file: who wrote it, the version its request named, the document it
      was evaluated against, and the world of that evaluation. */
  datatype Commit = Commit(version: nat, doc: Doc, thread: nat, request: Request, base: Doc, world: World)

  /** `log` is the history of commits, kept for the statements. */
  datatype State = State(
    defaults: Doc, gate: Option<nat>, version: nat, effective: Doc, disk: Option<Entry>, audit: seq<Entry>,
    threads: map<nat, Thread>, nextThread: nat, log: seq<Commit>)

  function Start(defaults: Doc): State {
    State(defaults, None, 0, defaults, None, [], map[], 0, [])
  }

  /** The last entry recorded for a version. */
  function FindEntry(audit: seq<Entry>, version: nat): Option<Doc> {
    if audit == [] then None
    else
      var last := audit[|audit|-1];
      if last.version == version then Some(last.doc) else FindEntry(audit[..|audit|-1], version)
  }

  function At(s: State, t: nat, p: Phase): State
    requires t in s.threads
  {
    s.(threads := s.threads[t := s.threads[t].(phase := p)])
  }

  /** An answer, which gives the gate back. */
  function Answer(s: State, t: nat, r: Reply): State
    requires t in s.threads
  {
    At(s, t, Answered(r)).(gate := None)
  }

  // ---- the steps

  datatype Step =
    | Arrive(request: Request)
    | Acquire(thread: nat)
    | TurnAway(thread: nat)
    | Propose(thread: nat, readable: bool)
    | Snapshot(thread: nat)
    | Judge(thread: nat, world: World)
    | WriteFile(thread: nat, ok: bool)
    | AppendAudit(thread: nat, ok: bool, compacted: bool)
    | Publish(thread: nat)
    | CrashAndRestart

  function Trim(audit: seq<Entry>): seq<Entry> {
    if |audit| > AUDIT_KEEP then audit[|audit| - AUDIT_KEEP..] else audit
  }

  function DoPropose(s: State, t: nat, readable: bool): State
    requires t in s.threads
  {
    match s.threads[t].request.kind
    case Put(doc) => At(s, t, Proposing(doc))
    case Preview(doc) => At(s, t, Proposing(doc))
    case Restore(v) =>
      if !readable then Answer(s, t, AuditUnreadable)
      else match FindEntry(s.audit, v)
        case None => Answer(s, t, UnknownVersion)
        case Some(doc) => At(s, t, Proposing(doc))
  }

  function DoSnapshot(s: State, t: nat, proposed: Doc): State
    requires t in s.threads
  {
    var req := s.threads[t].request;
    if req.kind.Preview? then At(s, t, Snapped(proposed, s.version, s.effective))
    else if !req.actorOk then Answer(s, t, BadActor)
    else if s.version != req.ifMatch then Answer(s, t, Stale(s.version))
    else At(s, t, Snapped(proposed, s.version, s.effective))
  }

  function DoJudge(r: Rules, s: State, t: nat, world: World): State
    requires t in s.threads && s.threads[t].phase.Snapped?
  {
    var req := s.threads[t].request;
    var Snapped(proposed, version, current) := s.threads[t].phase;
    var token := r.token(current, proposed, world);
    if !r.valid(current, proposed, world) then Answer(s, t, Invalid)
    else if req.kind.Preview? then Answer(s, t, Previewed(token))
    else if proposed == current then Answer(s, t, NoChange)
    else if r.destructive(current, proposed, world) && !(req.confirm && req.token == Some(token)) then
      Answer(s, t, Unconfirmed(token))
    else if version >= MAX_VERSION then Answer(s, t, Exhausted)
    else At(s, t, Cleared(proposed, version, current, world))
  }

  function DoWrite(s: State, t: nat, ok: bool): State
    requires t in s.threads && s.threads[t].phase.Cleared?
  {
    var Cleared(proposed, version, current, world) := s.threads[t].phase;
    if !ok then Answer(s, t, PersistFailed)
    else
      At(s, t, Written(proposed, version + 1)).(
        disk := Some(Entry(version + 1, proposed)),
        log := s.log + [Commit(version + 1, proposed, t, s.threads[t].request, current, world)])
  }

  function DoAppend(s: State, t: nat, ok: bool, compacted: bool): State
    requires t in s.threads && s.threads[t].phase.Written?
  {
    var Written(proposed, version) := s.threads[t].phase;
    var audit := if ok then s.audit + [Entry(version, proposed)] else s.audit;
    At(s, t, Logged(proposed, version)).(audit := if compacted then Trim(audit) else audit)
  }

  function DoPublish(s: State, t: nat): State
    requires t in s.threads && s.threads[t].phase.Logged?
  {
    var Logged(proposed, version) := s.threads[t].phase;
    Answer(s, t, Applied(version)).(version := version, effective := proposed)
  }

  /** Every request in flight is lost; the state comes back from the policy file, whose missing audit line is
      written. A file at the last version is refused and no process comes up, so that crash is no step. */
  function DoRestart(s: State): State {
    var down := s.(gate := None, threads := map[]);
    match s.disk
    case None => down.(version := 0, effective := s.defaults)
    case Some(e) =>
      if e.version >= MAX_VERSION then s
      else down.(version := e.version, effective := e.doc,
                 audit := if FindEntry(s.audit, e.version).Some? then s.audit else s.audit + [e])
  }

  /** The state after a step; a step that is not possible changes nothing. */
  function Do(r: Rules, s: State, step: Step): State {
    match step
    case Arrive(req) =>
      s.(threads := s.threads[s.nextThread := Thread(req, Waiting)], nextThread := s.nextThread + 1)
    case Acquire(t) =>
      if t in s.threads && s.threads[t].phase.Waiting? && s.gate.None? then At(s, t, Entered).(gate := Some(t)) else s
    case TurnAway(t) =>
      if t in s.threads && s.threads[t].phase.Waiting? && s.gate.Some? && s.threads[t].request.kind.Preview?
      then At(s, t, Answered(Busy)) else s
    case Propose(t, readable) =>
      if t in s.threads && s.threads[t].phase.Entered? then DoPropose(s, t, readable) else s
    case Snapshot(t) =>
      if t in s.threads && s.threads[t].phase.Proposing? then DoSnapshot(s, t, s.threads[t].phase.proposed) else s
    case Judge(t, world) =>
      if t in s.threads && s.threads[t].phase.Snapped? then DoJudge(r, s, t, world) else s
    case WriteFile(t, ok) =>
      if t in s.threads && s.threads[t].phase.Cleared? then DoWrite(s, t, ok) else s
    case AppendAudit(t, ok, compacted) =>
      if t in s.threads && s.threads[t].phase.Written? then DoAppend(s, t, ok, compacted) else s
    case Publish(t) =>
      if t in s.threads && s.threads[t].phase.Logged? then DoPublish(s, t) else s
    case CrashAndRestart => DoRestart(s)
  }

  function Run(r: Rules, s: State, steps: seq<Step>): State
    decreases |steps|
  {
    if steps == [] then s else Run(r, Do(r, s, steps[0]), steps[1..])
  }

  // ---- what every step keeps

  /** The document in force at a version. */
  function DocAt(s: State, v: nat): Doc
    requires v <= |s.log|
  {
    if v == 0 then s.defaults else s.log[v - 1].doc
  }

  /** Commit `i` is version i + 1; it names version i, was evaluated against the document of version i, and
      a destructive one carries the confirmed impact token of that very evaluation. */
  ghost predicate CommitOk(r: Rules, s: State, i: nat)
    requires i < |s.log|
  {
    var c := s.log[i];
    && c.version == i + 1 && c.request.ifMatch == i && c.base == DocAt(s, i) && c.doc != c.base
    && !c.request.kind.Preview? && c.request.actorOk && c.thread < s.nextThread
    && r.valid(c.base, c.doc, c.world)
    && (r.destructive(c.base, c.doc, c.world) ==>
          c.request.confirm && c.request.token == Some(r.token(c.base, c.doc, c.world)))
    && (c.request.kind.Put? ==> c.doc == c.request.kind.doc)
    && (c.request.kind.Restore? ==> c.request.kind.version <= i && c.doc == DocAt(s, c.request.kind.version))
  }

  ghost predicate LogOk(r: Rules, s: State) {
    forall i :: 0 <= i < |s.log| ==> CommitOk(r, s, i)
  }

  /** The gate is held by the one request in a holding phase. */
  ghost predicate GateOk(s: State) {
    && (forall t :: t in s.threads ==> t < s.nextThread)
    && (forall t :: t in s.threads && Holds(s.threads[t].phase) ==> s.gate == Some(t))
    && (s.gate.Some? ==> s.gate.value in s.threads && Holds(s.threads[s.gate.value].phase))
  }

  /** Somebody has written the policy file and not published yet. */
  ghost predicate Publishing(s: State) {
    s.gate.Some? && s.gate.value in s.threads && InFlight(s.threads[s.gate.value].phase)
  }

  /** The published version is the last committed one, or one behind while a writer publishes it; the policy
      file has the last. */
  ghost predicate StateOk(s: State) {
    && |s.log| <= MAX_VERSION
    && s.version <= |s.log| && s.effective == DocAt(s, s.version)
    && |s.log| == s.version + (if Publishing(s) then 1 else 0)
    && s.disk == (if s.log == [] then None else Some(Entry(|s.log|, DocAt(s, |s.log|))))
  }

  ghost predicate ProposalOk(s: State, k: Kind, proposed: Doc)
    requires s.version <= |s.log|
  {
    match k
    case Put(doc) => proposed == doc
    case Preview(doc) => proposed == doc
    case Restore(v) => v <= s.version && proposed == DocAt(s, v)
  }

  /** What the holder of the gate knows. */
  ghost predicate PhaseOk(r: Rules, s: State, th: Thread)
    requires StateOk(s)
  {
    match th.phase
    case Waiting => true
    case Entered => true
    case Answered(_) => true
    case Proposing(p) => ProposalOk(s, th.request.kind, p)
    case Snapped(p, v, c) =>
      && ProposalOk(s, th.request.kind, p) && v == s.version && c == s.effective
      && (!th.request.kind.Preview? ==> th.request.actorOk && v == th.request.ifMatch)
    case Cleared(p, v, c, w) =>
      && ProposalOk(s, th.request.kind, p) && v == s.version && c == s.effective && v < MAX_VERSION && p != c
      && !th.request.kind.Preview? && th.request.actorOk && v == th.request.ifMatch
      && r.valid(c, p, w)
      && (r.destructive(c, p, w) ==> th.request.confirm && th.request.token == Some(r.token(c, p, w)))
    case Written(p, v) => v == |s.log| && p == DocAt(s, v)
    case Logged(p, v) => v == |s.log| && p == DocAt(s, v)
  }

  /** Audit entries are in version order, each version at most once, each with the document in force. */
  ghost predicate AuditOk(s: State, audit: seq<Entry>, below: nat) {
    && (forall i, j :: 0 <= i < j < |audit| ==> audit[i].version < audit[j].version)
    && (forall i :: 0 <= i < |audit| ==>
          1 <= audit[i].version < below && audit[i].version <= |s.log| && audit[i].doc == DocAt(s, audit[i].version))
  }

  /** An entry for the version being written appears only when the writer appends it. */
  ghost predicate AuditInv(s: State) {
    AuditOk(s, s.audit,
      if s.gate.Some? && s.gate.value in s.threads && s.threads[s.gate.value].phase.Written?
      then |s.log| else |s.log| + 1)
  }

  ghost predicate Inv(r: Rules, s: State) {
    && LogOk(r, s) && GateOk(s) && StateOk(s) && AuditInv(s)
    && forall t :: t in s.threads ==> PhaseOk(r, s, s.threads[t])
  }

  lemma StartInv(r: Rules, defaults: Doc)
    ensures Inv(r, Start(defaults))
  {
  }

  // ---- the steps, one by one

  /** The holder moves on without touching anything shared. */
  lemma MoveInv(r: Rules, s: State, t: nat, p: Phase)
    requires Inv(r, s) && t in s.threads && Holds(s.threads[t].phase) && Holds(p)
    requires !InFlight(s.threads[t].phase) && !InFlight(p)
    requires PhaseOk(r, s, s.threads[t].(phase := p))
    ensures Inv(r, At(s, t, p))
  {
    SameLog(r, s, At(s, t, p));
  }

  /** The holder answers without having written anything. */
  lemma AnswerInv(r: Rules, s: State, t: nat, reply: Reply)
    requires Inv(r, s) && t in s.threads && Holds(s.threads[t].phase) && !InFlight(s.threads[t].phase)
    ensures Inv(r, Answer(s, t, reply))
  {
    SameLog(r, s, Answer(s, t, reply));
  }

  lemma SameLog(r: Rules, s: State, s': State)
    requires LogOk(r, s) && s'.log == s.log && s'.defaults == s.defaults && s'.nextThread >= s.nextThread
    ensures LogOk(r, s')
    ensures forall v :: 0 <= v <= |s.log| ==> DocAt(s', v) == DocAt(s, v)
  {
    forall i | 0 <= i < |s'.log| ensures CommitOk(r, s', i) { assert CommitOk(r, s, i); }
  }

  lemma ArriveInv(r: Rules, s: State, req: Request)
    requires Inv(r, s)
    ensures Inv(r, Do(r, s, Arrive(req)))
  {
    SameLog(r, s, Do(r, s, Arrive(req)));
  }

  lemma AcquireInv(r: Rules, s: State, t: nat)
    requires Inv(r, s)
    ensures Inv(r, Do(r, s, Acquire(t)))
  {
    SameLog(r, s, Do(r, s, Acquire(t)));
  }

  lemma TurnAwayInv(r: Rules, s: State, t: nat)
    requires Inv(r, s)
    ensures Inv(r, Do(r, s, TurnAway(t)))
  {
    SameLog(r, s, Do(r, s, TurnAway(t)));
  }

  lemma {:induction false} FoundEntry(audit: seq<Entry>, v: nat)
    ensures FindEntry(audit, v).Some? ==> exists i :: 0 <= i < |audit| && audit[i] == Entry(v, FindEntry(audit, v).value)
    ensures FindEntry(audit, v).None? ==> forall i :: 0 <= i < |audit| ==> audit[i].version != v
  {
    if audit != [] {
      var k := |audit| - 1;
      FoundEntry(audit[..k], v);
      if audit[k].version != v && FindEntry(audit, v).Some? {
        var i :| 0 <= i < k && audit[..k][i] == Entry(v, FindEntry(audit, v).value);
        assert audit[i] == audit[..k][i];
      } else if audit[k].version == v {
        assert audit[k] == Entry(v, FindEntry(audit, v).value);
      } else {
        assert forall i :: 0 <= i < k ==> audit[i] == audit[..k][i];
      }
    }
  }

  lemma ProposeInv(r: Rules, s: State, t: nat, readable: bool)
    requires Inv(r, s) && t in s.threads && s.threads[t].phase.Entered?
    ensures Inv(r, DoPropose(s, t, readable))
  {
    hide LogOk, GateOk, AuditOk, At, Answer;
    assert s.gate == Some(t) by { GateHolder(r, s, t); }
    match s.threads[t].request.kind
    case Put(doc) => MoveInv(r, s, t, Proposing(doc));
    case Preview(doc) => MoveInv(r, s, t, Proposing(doc));
    case Restore(v) =>
      AnswerInv(r, s, t, AuditUnreadable);
      AnswerInv(r, s, t, UnknownVersion);
      match FindEntry(s.audit, v)
      case None =>
      case Some(doc) =>
        EntryDoc(s, v);
        MoveInv(r, s, t, Proposing(doc));
  }

  lemma GateHolder(r: Rules, s: State, t: nat)
    requires Inv(r, s) && t in s.threads && Holds(s.threads[t].phase)
    ensures s.gate == Some(t)
  {
  }

  lemma EntryDoc(s: State, v: nat)
    requires AuditOk(s, s.audit, |s.log| + 1) && FindEntry(s.audit, v).Some?
    ensures 1 <= v <= |s.log| && FindEntry(s.audit, v).value == DocAt(s, v)
  {
    FoundEntry(s.audit, v);
  }

  lemma SnapshotInv(r: Rules, s: State, t: nat)
    requires Inv(r, s) && t in s.threads && s.threads[t].phase.Proposing?
    ensures Inv(r, DoSnapshot(s, t, s.threads[t].phase.proposed))
  {
    hide LogOk, GateOk, AuditInv, At, Answer;
    AnswerInv(r, s, t, BadActor);
    AnswerInv(r, s, t, Stale(s.version));
    var req, p := s.threads[t].request, s.threads[t].phase.proposed;
    assert PhaseOk(r, s, s.threads[t]);
    if req.kind.Preview? || (req.actorOk && s.version == req.ifMatch) {
      MoveInv(r, s, t, Snapped(p, s.version, s.effective));
    }
  }

  lemma JudgeInv(r: Rules, s: State, t: nat, world: World)
    requires Inv(r, s) && t in s.threads && s.threads[t].phase.Snapped?
    ensures Inv(r, DoJudge(r, s, t, world))
  {
    hide LogOk, GateOk, AuditInv, At, Answer;
    var req := s.threads[t].request;
    var Snapped(p, v, c) := s.threads[t].phase;
    var token := r.token(c, p, world);
    assert PhaseOk(r, s, s.threads[t]);
    if !r.valid(c, p, world) {
      AnswerInv(r, s, t, Invalid);
    } else if req.kind.Preview? {
      AnswerInv(r, s, t, Previewed(token));
    } else if p == c {
      AnswerInv(r, s, t, NoChange);
    } else if r.destructive(c, p, world) && !(req.confirm && req.token == Some(token)) {
      AnswerInv(r, s, t, Unconfirmed(token));
    } else if v >= MAX_VERSION {
      AnswerInv(r, s, t, Exhausted);
    } else {
      MoveInv(r, s, t, Cleared(p, v, c, world));
    }
  }

  /** A new commit leaves the earlier ones as they were. */
  lemma LongerLog(r: Rules, s: State, s': State)
    requires LogOk(r, s) && s'.defaults == s.defaults && s'.nextThread == s.nextThread
    requires |s'.log| == |s.log| + 1 && s'.log[..|s.log|] == s.log && CommitOk(r, s', |s.log|)
    ensures LogOk(r, s')
    ensures forall v :: 0 <= v <= |s.log| ==> DocAt(s', v) == DocAt(s, v)
  {
    assert forall i :: 0 <= i < |s.log| ==> s'.log[i] == s.log[i];
    forall i | 0 <= i < |s.log| ensures CommitOk(r, s', i) { assert CommitOk(r, s, i); }
  }

  lemma WriteInv(r: Rules, s: State, t: nat, ok: bool)
    requires Inv(r, s) && t in s.threads && s.threads[t].phase.Cleared?
    ensures Inv(r, DoWrite(s, t, ok))
  {
    AnswerInv(r, s, t, PersistFailed);
    if ok {
      GateHolder(r, s, t);
      assert PhaseOk(r, s, s.threads[t]);
      var s' := DoWrite(s, t, ok);
      assert forall i :: 0 <= i < |s.log| ==> s'.log[i] == s.log[i];
      LongerLog(r, s, s');
      WrittenParts(r, s, s', t);
    }
  }

  lemma WrittenParts(r: Rules, s: State, s': State, t: nat)
    requires Inv(r, s) && t in s.threads && s.threads[t].phase.Cleared? && s.gate == Some(t)
    requires s' == DoWrite(s, t, true)
    requires LogOk(r, s') && forall v :: 0 <= v <= |s.log| ==> DocAt(s', v) == DocAt(s, v)
    ensures GateOk(s') && StateOk(s') && AuditInv(s')
    ensures forall k :: k in s'.threads ==> PhaseOk(r, s', s'.threads[k])
  {
    hide LogOk;
    assert PhaseOk(r, s, s.threads[t]);
    assert Publishing(s');
  }

  lemma AppendInv(r: Rules, s: State, t: nat, ok: bool, compacted: bool)
    requires Inv(r, s) && t in s.threads && s.threads[t].phase.Written?
    ensures Inv(r, DoAppend(s, t, ok, compacted))
  {
    GateHolder(r, s, t);
    var s' := DoAppend(s, t, ok, compacted);
    SameLog(r, s, s');
    assert PhaseOk(r, s, s.threads[t]);
    var Written(p, v) := s.threads[t].phase;
    var audit := if ok then s.audit + [Entry(v, p)] else s.audit;
    assert AuditOk(s, audit, |s.log| + 1);
    TrimOk(s, audit, |s.log| + 1);
    AppendedParts(r, s, s', t);
  }

  lemma AppendedParts(r: Rules, s: State, s': State, t: nat)
    requires Inv(r, s) && t in s.threads && s.threads[t].phase.Written? && s.gate == Some(t)
    requires s' == At(s, t, Logged(s.threads[t].phase.proposed, s.threads[t].phase.version)).(audit := s'.audit)
    requires LogOk(r, s') && (forall v :: 0 <= v <= |s.log| ==> DocAt(s', v) == DocAt(s, v))
    requires AuditOk(s, s'.audit, |s.log| + 1)
    ensures Inv(r, s')
  {
    hide LogOk;
    assert PhaseOk(r, s, s.threads[t]);
    assert Publishing(s');
  }

  lemma TrimOk(s: State, audit: seq<Entry>, below: nat)
    requires AuditOk(s, audit, below)
    ensures AuditOk(s, Trim(audit), below)
  {
  }

  lemma PublishInv(r: Rules, s: State, t: nat)
    requires Inv(r, s) && t in s.threads && s.threads[t].phase.Logged?
    ensures Inv(r, DoPublish(s, t))
  {
    GateHolder(r, s, t);
    SameLog(r, s, DoPublish(s, t));
    assert PhaseOk(r, s, s.threads[t]);
  }

  lemma RestartInv(r: Rules, s: State)
    requires Inv(r, s)
    ensures Inv(r, DoRestart(s))
  {
    var s' := DoRestart(s);
    SameLog(r, s, s');
    if s.disk.Some? {
      FoundEntry(s.audit, s.disk.value.version);
    }
  }

  /** Every step keeps the invariant. */
  lemma DoInv(r: Rules, s: State, step: Step)
    requires Inv(r, s)
    ensures Inv(r, Do(r, s, step))
  {
    hide Inv, DoPropose, DoSnapshot, DoJudge, DoWrite, DoAppend, DoPublish, DoRestart;
    match step
    case Arrive(req) => ArriveInv(r, s, req);
    case Acquire(t) => AcquireInv(r, s, t);
    case TurnAway(t) => TurnAwayInv(r, s, t);
    case Propose(t, readable) => if t in s.threads && s.threads[t].phase.Entered? { ProposeInv(r, s, t, readable); }
    case Snapshot(t) => if t in s.threads && s.threads[t].phase.Proposing? { SnapshotInv(r, s, t); }
    case Judge(t, world) => if t in s.threads && s.threads[t].phase.Snapped? { JudgeInv(r, s, t, world); }
    case WriteFile(t, ok) => if t in s.threads && s.threads[t].phase.Cleared? { WriteInv(r, s, t, ok); }
    case AppendAudit(t, ok, compacted) =>
      if t in s.threads && s.threads[t].phase.Written? { AppendInv(r, s, t, ok, compacted); }
    case Publish(t) => if t in s.threads && s.threads[t].phase.Logged? { PublishInv(r, s, t); }
    case CrashAndRestart => RestartInv(r, s);
  }

  lemma {:induction false} RunInv(r: Rules, s: State, steps: seq<Step>)
    requires Inv(r, s)
    ensures Inv(r, Run(r, s, steps))
    decreases |steps|
  {
    hide Inv, Do;
    if steps != [] {
      DoInv(r, s, steps[0]);
      RunInv(r, Do(r, s, steps[0]), steps[1..]);
    }
  }

  // ---- the laws

  /** No lost update: in every interleaving, crashes and restarts included, committed versions are 1, 2, ...
      with no repeat, at most one request per named version changes anything, each commit was evaluated
      against exactly the document of the version it named, and a destructive one carries the confirmed
      token of that evaluation. */
  lemma NoLostUpdate(r: Rules, defaults: Doc, steps: seq<Step>)
    ensures var s := Run(r, Start(defaults), steps);
      && (forall i :: 0 <= i < |s.log| ==>
            var c := s.log[i];
            && c.version == i + 1 && c.request.ifMatch == i && c.base == DocAt(s, i) && c.doc != c.base
            && (r.destructive(c.base, c.doc, c.world) ==>
                  c.request.confirm && c.request.token == Some(r.token(c.base, c.doc, c.world))))
      && (forall i, j :: 0 <= i < |s.log| && 0 <= j < |s.log| && s.log[i].request.ifMatch == s.log[j].request.ifMatch ==> i == j)
  {
    hide Run;
    StartInv(r, defaults);
    RunInv(r, Start(defaults), steps);
    var s := Run(r, Start(defaults), steps);
    forall i | 0 <= i < |s.log|
      ensures var c := s.log[i];
        && c.version == i + 1 && c.request.ifMatch == i && c.base == DocAt(s, i) && c.doc != c.base
        && (r.destructive(c.base, c.doc, c.world) ==>
              c.request.confirm && c.request.token == Some(r.token(c.base, c.doc, c.world)))
    {
      assert CommitOk(r, s, i);
    }
  }

  /** Restore is faithful: every audit entry holds the document in force at its version, no version is
      audited twice, and a committed restore of version v put the document of version v in force. */
  lemma RestoreIsFaithful(r: Rules, defaults: Doc, steps: seq<Step>)
    ensures var s := Run(r, Start(defaults), steps);
      && (forall i :: 0 <= i < |s.audit| ==>
            1 <= s.audit[i].version <= |s.log| && s.audit[i].doc == DocAt(s, s.audit[i].version))
      && (forall i, j :: 0 <= i < j < |s.audit| ==> s.audit[i].version != s.audit[j].version)
      && (forall i :: 0 <= i < |s.log| && s.log[i].request.kind.Restore? ==>
            s.log[i].request.kind.version <= i && DocAt(s, i + 1) == DocAt(s, s.log[i].request.kind.version))
  {
    hide Run;
    StartInv(r, defaults);
    RunInv(r, Start(defaults), steps);
    var s := Run(r, Start(defaults), steps);
    forall i | 0 <= i < |s.log| && s.log[i].request.kind.Restore?
      ensures s.log[i].request.kind.version <= i && DocAt(s, i + 1) == DocAt(s, s.log[i].request.kind.version)
    {
      assert CommitOk(r, s, i);
    }
  }

  /** The policy file is never behind the published state and at most one version ahead, and then only while
      a writer that has not published holds the gate. The published document is that of its version. */
  lemma FileLeadsByAtMostOne(r: Rules, defaults: Doc, steps: seq<Step>)
    ensures var s := Run(r, Start(defaults), steps);
      var onDisk := if s.disk.Some? then s.disk.value.version else 0;
      && s.version <= onDisk <= s.version + 1
      && (onDisk == s.version + 1 <==>
            exists t :: t in s.threads && InFlight(s.threads[t].phase) && s.gate == Some(t))
      && onDisk == |s.log| && s.effective == DocAt(s, s.version)
      && (s.disk.Some? ==> s.disk.value.doc == DocAt(s, onDisk))
  {
    hide Run, LogOk, AuditInv;
    StartInv(r, defaults);
    RunInv(r, Start(defaults), steps);
    var s := Run(r, Start(defaults), steps);
    if Publishing(s) {
      assert s.gate.value in s.threads && InFlight(s.threads[s.gate.value].phase);
    }
  }

  // ---- what an answer means

  /** A request that has its answer, or is on its way, has committed exactly when that shows. */
  ghost predicate OwnerOk(s: State, t: nat)
    requires t in s.threads
  {
    var p := s.threads[t].phase;
    if p.Answered? && p.reply.Applied? then
      1 <= p.reply.version <= |s.log| && s.log[p.reply.version - 1].thread == t
    else if InFlight(p) then s.log != [] && s.log[|s.log| - 1].thread == t
    else forall i :: 0 <= i < |s.log| ==> s.log[i].thread != t
  }

  /** Each request commits at most once, and its phase says whether it did. */
  ghost predicate OwnersOk(s: State) {
    && (forall i, j :: 0 <= i < j < |s.log| ==> s.log[i].thread != s.log[j].thread)
    && (forall t :: t in s.threads ==> OwnerOk(s, t))
  }

  lemma OwnersKept(s: State, s': State)
    requires OwnersOk(s) && s'.log == s.log
    requires forall t :: t in s'.threads ==>
      || (t in s.threads && s'.threads[t].phase == s.threads[t].phase)
      || (t in s.threads && !InFlight(s.threads[t].phase) && !s.threads[t].phase.Answered?
          && !InFlight(s'.threads[t].phase)
          && !(s'.threads[t].phase.Answered? && s'.threads[t].phase.reply.Applied?))
      || (t !in s.threads && s'.threads[t].phase.Waiting? && forall i :: 0 <= i < |s.log| ==> s.log[i].thread != t)
    ensures OwnersOk(s')
  {
    forall t | t in s'.threads ensures OwnerOk(s', t) {
      if t in s.threads { assert OwnerOk(s, t); }
    }
  }

  lemma NewcomerOwnsNothing(r: Rules, s: State)
    requires LogOk(r, s) && GateOk(s)
    ensures s.nextThread !in s.threads
    ensures forall i :: 0 <= i < |s.log| ==> s.log[i].thread != s.nextThread
  {
    forall i | 0 <= i < |s.log| ensures s.log[i].thread != s.nextThread { assert CommitOk(r, s, i); }
  }

  lemma WriteOwners(r: Rules, s: State, t: nat)
    requires Inv(r, s) && OwnersOk(s) && t in s.threads && s.threads[t].phase.Cleared?
    ensures OwnersOk(DoWrite(s, t, true))
  {
    var s' := DoWrite(s, t, true);
    GateHolder(r, s, t);
    assert OwnerOk(s, t);
    forall k | k in s'.threads ensures OwnerOk(s', k) { assert OwnerOk(s, k); }
  }

  lemma AppendPublishOwners(r: Rules, s: State, t: nat, s': State)
    requires Inv(r, s) && OwnersOk(s) && t in s.threads && InFlight(s.threads[t].phase)
    requires s'.log == s.log && s'.threads.Keys == s.threads.Keys
    requires forall k :: k in s.threads && k != t ==> s'.threads[k] == s.threads[k]
    requires var p := s'.threads[t].phase;
      InFlight(p) || (p.Answered? && p.reply == Applied(|s.log|))
    ensures OwnersOk(s')
  {
    assert OwnerOk(s, t);
    forall k | k in s'.threads ensures OwnerOk(s', k) { assert OwnerOk(s, k); }
  }

  /** The steps that neither write the file nor follow a write. */
  lemma QuietOwners(r: Rules, s: State, step: Step)
    requires OwnersOk(s)
    requires step.Acquire? || step.TurnAway? || step.Propose? || step.Snapshot? || step.CrashAndRestart?
    ensures OwnersOk(Do(r, s, step))
  {
    hide OwnersOk, FindEntry;
    OwnersKept(s, Do(r, s, step));
  }

  lemma JudgeOwners(r: Rules, s: State, t: nat, world: World)
    requires OwnersOk(s) && t in s.threads && s.threads[t].phase.Snapped?
    ensures OwnersOk(DoJudge(r, s, t, world))
  {
    hide OwnersOk;
    OwnersKept(s, DoJudge(r, s, t, world));
  }

  lemma DoOwners(r: Rules, s: State, step: Step)
    requires Inv(r, s) && OwnersOk(s)
    ensures OwnersOk(Do(r, s, step))
  {
    hide LogOk, GateOk, AuditInv, OwnersOk, DoPropose, DoSnapshot, DoJudge, DoRestart;
    var s' := Do(r, s, step);
    match step
    case Arrive(_) =>
      NewcomerOwnsNothing(r, s);
      OwnersKept(s, s');
    case Judge(t, world) =>
      if t in s.threads && s.threads[t].phase.Snapped? { JudgeOwners(r, s, t, world); }
    case WriteFile(t, ok) =>
      if t in s.threads && s.threads[t].phase.Cleared? {
        WriteOwners(r, s, t);
        if !ok { OwnersKept(s, s'); }
      }
    case AppendAudit(t, _, _) =>
      if t in s.threads && s.threads[t].phase.Written? { AppendPublishOwners(r, s, t, s'); }
    case Publish(t) =>
      if t in s.threads && s.threads[t].phase.Logged? {
        assert PhaseOk(r, s, s.threads[t]);
        AppendPublishOwners(r, s, t, s');
      }
    case Acquire(_) => QuietOwners(r, s, step);
    case TurnAway(_) => QuietOwners(r, s, step);
    case Propose(_, _) => QuietOwners(r, s, step);
    case Snapshot(_) => QuietOwners(r, s, step);
    case CrashAndRestart => QuietOwners(r, s, step);
  }

  lemma {:induction false} RunOwners(r: Rules, s: State, steps: seq<Step>)
    requires Inv(r, s) && OwnersOk(s)
    ensures OwnersOk(Run(r, s, steps))
    decreases |steps|
  {
    hide Inv, OwnersOk, Do;
    if steps != [] {
      DoInv(r, s, steps[0]);
      DoOwners(r, s, steps[0]);
      RunOwners(r, Do(r, s, steps[0]), steps[1..]);
    }
  }

  /** An answer is the truth: a request told that version v was applied is the one that committed version v,
      one told anything else changed nothing, and no request commits twice. */
  lemma AnswersAreTrue(r: Rules, defaults: Doc, steps: seq<Step>)
    ensures var s := Run(r, Start(defaults), steps);
      && (forall i, j :: 0 <= i < j < |s.log| ==> s.log[i].thread != s.log[j].thread)
      && (forall t :: t in s.threads && s.threads[t].phase.Answered? ==>
            match s.threads[t].phase.reply
            case Applied(v) => 1 <= v <= |s.log| && s.log[v - 1].thread == t
            case _ => forall i :: 0 <= i < |s.log| ==> s.log[i].thread != t)
  {
    hide Run, Inv;
    StartInv(r, defaults);
    RunOwners(r, Start(defaults), steps);
    var s := Run(r, Start(defaults), steps);
    forall t | t in s.threads && s.threads[t].phase.Answered?
      ensures match s.threads[t].phase.reply
        case Applied(v) => 1 <= v <= |s.log| && s.log[v - 1].thread == t
        case _ => forall i :: 0 <= i < |s.log| ==> s.log[i].thread != t
    {
      assert OwnerOk(s, t);
    }
  }

  /** History is only ever added to: a committed version keeps its document through every later step,
      crashes included. */
  lemma {:induction false} CommitsAreKept(r: Rules, s: State, steps: seq<Step>)
    ensures |s.log| <= |Run(r, s, steps).log| && Run(r, s, steps).log[..|s.log|] == s.log
    decreases |steps|
  {
    hide FindEntry, Trim;
    if steps != [] {
      var s' := Do(r, s, steps[0]);
      assert |s.log| <= |s'.log| && s'.log[..|s.log|] == s.log;
      CommitsAreKept(r, s', steps[1..]);
      var last := Run(r, s, steps).log;
      assert last[..|s.log|] == last[..|s'.log|][..|s.log|];
    }
  }
}
