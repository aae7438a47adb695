/**
The race for a review that is being rechecked (hybrid_review_service.py: `start`, `resume`, `_restart_review_in_place`,
`_commit_recheck_failure`, `_transition_run_review`, `_save_run_review`; review_store.py: the conditional writes).
Every interleaving of single store operations is a run of `Apply`. A ledger operation reads the session, works on
its copy and saves the copy whole, whatever has been stored in between.
*/
module RecheckProtocol {
  import opened Wrappers
  import opened ReviewModels
  import opened ReviewStore

  /**
  A pipeline, timeout or canceller acting for one attempt, with the copy of the session it has read or written
  last.
  */
  datatype Worker = Worker(attempt: nat, copy: Option<Session>)

  datatype Record =
    | Installed(attempt: nat)
    | Cleared
    | Committed(attempt: nat, terminal: bool, logged: bool)
    | Published

  /** Fresh attempt ids are the numbers from `issued` on. Editors are the copies that ledger operations work on. */
  datatype System = System(
    current: Session, log: seq<Event>, issued: nat, workers: map<nat, Worker>, editors: map<nat, Session>,
    history: seq<Record>)

  datatype Notice = Notice(event: string, data: string)

  datatype Action =
    | Install(body: Session)
    | Clear(body: Session)
    | Open(editor: nat)
    | Save(editor: nat, body: Session)
    | Publish(notice: Notice)
    | Spawn(worker: nat, attempt: nat)
    | Read(worker: nat)
    | Write(worker: nat, session: Session, logged: Option<Notice>)

  predicate Running(session: Session) {
    session.recheckStatus == Some(RecheckRunning)
  }

  /**
  Restarts queue an unfinished review. Ledger operations, and runs that act for no attempt, save the attempt they have
  read; a run may clear its status, and neither finishes the review while it is running. Workers act for issued
  attempts, read before they write, never change the attempt id in their copy nor set it running, and end it together
  with the review.
  */
  predicate Enabled(s: System, a: Action) {
    match a
    case Install(body) => !IsFinal(body.status)
    case Save(e, body) =>
      && e in s.editors
      && body.recheckAttempt == s.editors[e].recheckAttempt
      && body.recheckStatus in {s.editors[e].recheckStatus, None}
      && (Running(body) ==> !IsFinal(body.status))
    case Spawn(w, attempt) => attempt < s.issued
    case Read(w) => w in s.workers
    case Write(w, session, _) =>
      && w in s.workers && s.workers[w].copy.Some?
      && session.recheckAttempt == s.workers[w].copy.value.recheckAttempt
      && (Running(session) ==> Running(s.workers[w].copy.value) && !IsFinal(session.status))
    case _ => true
  }

  predicate Accepts(s: System, a: Action)
    requires a.Write? && a.worker in s.workers
  {
    MatchesRunningRecheck(s.current, s.workers[a.worker].attempt)
  }

  function Apply(s: System, a: Action): System
    requires Enabled(s, a)
  {
    match a
    case Install(body) =>
      s.(current := body.(title := s.current.title, recheckAttempt := Some(s.issued),
                          recheckStatus := Some(RecheckRunning)),
         issued := s.issued + 1, history := s.history + [Installed(s.issued)])
    case Clear(body) =>
      s.(current := body.(title := s.current.title, recheckAttempt := None, recheckStatus := None),
         history := s.history + [Cleared])
    case Open(e) => s.(editors := s.editors[e := s.current])
    case Save(e, body) => s.(current := body.(title := s.current.title))
    case Publish(notice) =>
      s.(log := Appended(s.log, notice.event, notice.data), history := s.history + [Published])
    case Spawn(w, attempt) => s.(workers := s.workers[w := Worker(attempt, None)])
    case Read(w) => s.(workers := s.workers[w := s.workers[w].(copy := Some(s.current))])
    case Write(w, session, logged) =>
      if !Accepts(s, a) then s
      else
        s.(current := session.(title := s.current.title),
           log := if logged.None? then s.log else Appended(s.log, logged.value.event, logged.value.data),
           workers := s.workers[w := s.workers[w].(copy := Some(session))],
           history := s.history + [Committed(s.workers[w].attempt, IsFinal(session.status), logged.Some?)])
  }

  predicate Legal(s: System, actions: seq<Action>)
    decreases |actions|
  {
    actions == [] || (Enabled(s, actions[0]) && Legal(Apply(s, actions[0]), actions[1..]))
  }

  function Run(s: System, actions: seq<Action>): System
    requires Legal(s, actions)
    decreases |actions|
  {
    if actions == [] then s else Run(Apply(s, actions[0]), actions[1..])
  }

  // ---------------------------------------------------------------------------------------------
  // What the history may look like

  /** The attempt installed last, unless it has been cleared since. */
  function Latest(history: seq<Record>, base: Option<nat>): Option<nat>
    decreases |history|
  {
    if history == [] then base
    else
      match history[|history| - 1]
      case Installed(attempt) => Some(attempt)
      case Cleared => None
      case _ => Latest(history[..|history| - 1], base)
  }

  predicate IsTerminalOf(record: Record, attempt: nat) {
    record.Committed? && record.terminal && record.attempt == attempt
  }

  predicate Finished(history: seq<Record>, attempt: nat) {
    exists i :: 0 <= i < |history| && IsTerminalOf(history[i], attempt)
  }

  /** A conditional write was accepted only for the attempt installed last, and not behind its terminal commit. */
  ghost predicate Justified(history: seq<Record>, base: Option<nat>, j: nat)
    requires j < |history|
  {
    history[j].Committed? ==>
      Latest(history[..j], base) == Some(history[j].attempt) && !Finished(history[..j], history[j].attempt)
  }

  ghost predicate AllJustified(history: seq<Record>, base: Option<nat>) {
    forall j :: 0 <= j < |history| ==> Justified(history, base, j)
  }

  /** Attempt ids only grow. */
  ghost predicate Ascending(history: seq<Record>, base: Option<nat>, issued: nat) {
    && (forall i :: 0 <= i < |history| && history[i].Committed? ==> history[i].attempt < issued)
    && (forall i :: 0 <= i < |history| && history[i].Installed? ==>
          history[i].attempt < issued && (base.Some? ==> base.value < history[i].attempt))
    && (forall i, j :: 0 <= i < j < |history| && history[i].Installed? && history[j].Installed? ==>
          history[i].attempt < history[j].attempt)
    && (base.Some? ==> base.value < issued)
  }

  /** An attempt is running only while its review is not finished. */
  predicate EndsTogether(session: Session) {
    Running(session) ==> !IsFinal(session.status)
  }

  ghost predicate EditorsOk(editors: map<nat, Session>, issued: nat) {
    forall e :: e in editors ==> EndsTogether(editors[e]) && Known(editors[e], issued)
  }

  predicate Known(session: Session, issued: nat) {
    Running(session) && session.recheckAttempt.Some? ==> session.recheckAttempt.value < issued
  }

  /** A running attempt in a worker's copy is the worker's own or a newer one. */
  ghost predicate WorkersOk(workers: map<nat, Worker>, issued: nat) {
    forall w :: w in workers ==> workers[w].attempt < issued && WorkerOk(workers[w], issued)
  }

  predicate WorkerOk(worker: Worker, issued: nat) {
    worker.copy.Some? && Running(worker.copy.value) && worker.copy.value.recheckAttempt.Some? ==>
      worker.attempt <= worker.copy.value.recheckAttempt.value < issued
  }

  /** Whoever passes the comparison acts for the attempt installed last, which has not committed terminally. */
  ghost predicate OnlyTheLatest(history: seq<Record>, base: Option<nat>, current: Session) {
    forall attempt: nat :: MatchesRunningRecheck(current, attempt) ==>
      Latest(history, base) == Some(attempt) && !Finished(history, attempt)
  }

  ghost predicate Inv(s: System, base: Option<nat>) {
    && Numbered(s.log)
    && AllJustified(s.history, base)
    && (Latest(s.history, base).Some? ==> Latest(s.history, base).value + 1 == s.issued)
    && EndsTogether(s.current) && EditorsOk(s.editors, s.issued)
    && WorkersOk(s.workers, s.issued)
    && Ascending(s.history, base, s.issued)
    && OnlyTheLatest(s.history, base, s.current)
  }

  /** A review that nobody works on and nothing is recorded of yet; the attempt it names is the newest one. */
  predicate Start(s: System) {
    && s.workers == map[] && s.editors == map[] && s.history == []
    && (forall i :: 0 <= i < |s.log| ==> s.log[i].sequence == i + 1)
    && (s.current.recheckAttempt.Some? ==> s.current.recheckAttempt.value + 1 == s.issued)
    && EndsTogether(s.current)
  }

  /** A save that puts back, as running, an attempt that has committed terminally or is not the latest any more. */
  ghost predicate Resurrects(s: System, base: Option<nat>, body: Session) {
    && body.recheckAttempt.Some? && MatchesRunningRecheck(body, body.recheckAttempt.value)
    && (Latest(s.history, base) != body.recheckAttempt || Finished(s.history, body.recheckAttempt.value))
  }

  /** A run in which no save does that. */
  ghost predicate Undisturbed(s: System, base: Option<nat>, actions: seq<Action>)
    requires Legal(s, actions)
    decreases |actions|
  {
    actions == []
    || ((actions[0].Save? ==> !Resurrects(s, base, actions[0].body))
        && Undisturbed(Apply(s, actions[0]), base, actions[1..]))
  }

  lemma {:induction false} JustifiedAppend(history: seq<Record>, base: Option<nat>, record: Record)
    requires AllJustified(history, base)
    requires record.Committed? ==> Latest(history, base) == Some(record.attempt) && !Finished(history, record.attempt)
    ensures AllJustified(history + [record], base)
    ensures Latest(history + [record], base)
         == (if record.Installed? then Some(record.attempt) else if record.Cleared? then None
             else Latest(history, base))
  {
    var longer := history + [record];
    assert longer[..|history|] == history;
    forall j | 0 <= j < |longer| ensures Justified(longer, base, j) {
      if j < |history| {
        assert longer[..j] == history[..j] && Justified(history, base, j);
      }
    }
  }

  lemma {:induction false} FinishedAppend(history: seq<Record>, record: Record, attempt: nat)
    ensures Finished(history + [record], attempt) <==> Finished(history, attempt) || IsTerminalOf(record, attempt)
  {
    var longer := history + [record];
    if Finished(history, attempt) {
      var i :| 0 <= i < |history| && IsTerminalOf(history[i], attempt);
      assert IsTerminalOf(longer[i], attempt);
    }
    if IsTerminalOf(record, attempt) {
      assert IsTerminalOf(longer[|history|], attempt);
    }
  }

  lemma {:induction false} AscendingAppend(history: seq<Record>, base: Option<nat>, issued: nat, record: Record)
    requires Ascending(history, base, issued)
    requires (record.Committed? ==> record.attempt < issued) && (record.Installed? ==> record.attempt == issued)
    ensures Ascending(history + [record], base, if record.Installed? then issued + 1 else issued)
  {
  }

  /** A record that is no commit and installs nothing changes neither what is latest nor what has finished. */
  lemma {:induction false} StillOnlyTheLatest(history: seq<Record>, base: Option<nat>, current: Session, record: Record)
    requires OnlyTheLatest(history, base, current) && record.Published? && AllJustified(history, base)
    ensures OnlyTheLatest(history + [record], base, current)
  {
    JustifiedAppend(history, base, record);
    forall attempt: nat | MatchesRunningRecheck(current, attempt)
      ensures Latest(history + [record], base) == Some(attempt) && !Finished(history + [record], attempt)
    {
      FinishedAppend(history, record, attempt);
    }
  }

  /** Attempts that have committed were issued. */
  lemma FreshUnfinished(history: seq<Record>, base: Option<nat>, issued: nat)
    requires Ascending(history, base, issued)
    ensures !Finished(history, issued)
  {
  }

  lemma {:induction false} InstallKeepsInv(s: System, base: Option<nat>, body: Session)
    requires Inv(s, base) && Enabled(s, Install(body))
    ensures Inv(Apply(s, Install(body)), base)
  {
    JustifiedAppend(s.history, base, Installed(s.issued));
    AscendingAppend(s.history, base, s.issued, Installed(s.issued));
    FreshUnfinished(s.history, base, s.issued);
    FinishedAppend(s.history, Installed(s.issued), s.issued);
  }

  lemma {:induction false} ClearKeepsInv(s: System, base: Option<nat>, body: Session)
    requires Inv(s, base)
    ensures Inv(Apply(s, Clear(body)), base)
  {
    JustifiedAppend(s.history, base, Cleared);
    AscendingAppend(s.history, base, s.issued, Cleared);
  }

  lemma {:induction false} PublishKeepsInv(s: System, base: Option<nat>, notice: Notice)
    requires Inv(s, base)
    ensures Inv(Apply(s, Publish(notice)), base)
  {
    JustifiedAppend(s.history, base, Published);
    AscendingAppend(s.history, base, s.issued, Published);
    StillOnlyTheLatest(s.history, base, s.current, Published);
  }

  /** Reading the session and starting a worker. */
  lemma {:induction false} QuietKeepsInv(s: System, base: Option<nat>, a: Action)
    requires Inv(s, base) && Enabled(s, a) && (a.Open? || a.Spawn? || a.Read?)
    ensures Inv(Apply(s, a), base)
  {
    if (a.Read? || a.Open?) && Running(s.current) && s.current.recheckAttempt.Some? {
      assert MatchesRunningRecheck(s.current, s.current.recheckAttempt.value);
    }
  }

  lemma {:induction false} SaveKeepsInv(s: System, base: Option<nat>, a: Action)
    requires Inv(s, base) && Enabled(s, a) && a.Save? && !Resurrects(s, base, a.body)
    ensures Inv(Apply(s, a), base)
  {
  }

  /** What an accepted write stores still names the latest attempt if it runs, and has then not finished it. */
  lemma {:induction false} WriteKeepsLatest(
    history: seq<Record>, base: Option<nat>, issued: nat, attempt: nat, session: Session, record: Record
  )
    requires AllJustified(history, base) && record.Committed? && record.attempt == attempt
    requires Latest(history, base) == Some(attempt) && attempt + 1 == issued && !Finished(history, attempt)
    requires record.terminal == IsFinal(session.status)
    requires Running(session) && session.recheckAttempt.Some? ==> session.recheckAttempt == Some(attempt)
    ensures OnlyTheLatest(history + [record], base, session)
  {
    JustifiedAppend(history, base, record);
    FinishedAppend(history, record, attempt);
  }

  lemma {:induction false} WriteKeepsWorkers(workers: map<nat, Worker>, w: nat, session: Session, issued: nat)
    requires WorkersOk(workers, issued) && w in workers && workers[w].copy.Some?
    requires session.recheckAttempt == workers[w].copy.value.recheckAttempt
    requires Running(session) ==> Running(workers[w].copy.value)
    ensures WorkersOk(workers[w := workers[w].(copy := Some(session))], issued)
  {
  }

  lemma {:induction false} WriteKeepsInv(s: System, base: Option<nat>, a: Action)
    requires Inv(s, base) && Enabled(s, a) && a.Write? && Accepts(s, a)
    ensures Inv(Apply(s, a), base)
  {
    var attempt, session := s.workers[a.worker].attempt, a.session.(title := s.current.title);
    var record := Committed(attempt, IsFinal(a.session.status), a.logged.Some?);
    LatestIsNewest(s, base, attempt);
    assert WorkerOk(s.workers[a.worker], s.issued);
    JustifiedAppend(s.history, base, record);
    AscendingAppend(s.history, base, s.issued, record);
    WriteKeepsLatest(s.history, base, s.issued, attempt, session, record);
    WriteKeepsWorkers(s.workers, a.worker, a.session, s.issued);
    WrittenKeepsInv(s, base, a, session, record, Apply(s, a));
  }

  lemma {:induction false} LatestIsNewest(s: System, base: Option<nat>, attempt: nat)
    requires Inv(s, base) && MatchesRunningRecheck(s.current, attempt)
    ensures Latest(s.history, base) == Some(attempt) && attempt + 1 == s.issued && !Finished(s.history, attempt)
  {
  }

  lemma {:induction false} WrittenKeepsInv(
    s: System, base: Option<nat>, a: Action, session: Session, record: Record, after: System
  )
    requires Numbered(s.log) && EditorsOk(s.editors, s.issued) && a.Write? && a.worker in s.workers
    requires after == s.(current := session, workers := after.workers, history := s.history + [record],
                         log := after.log)
    requires after.log == if a.logged.None? then s.log else Appended(s.log, a.logged.value.event, a.logged.value.data)
    requires EndsTogether(session) && WorkersOk(after.workers, s.issued)
    requires AllJustified(after.history, base) && Ascending(after.history, base, s.issued)
    requires Latest(after.history, base).Some? ==> Latest(after.history, base).value + 1 == s.issued
    requires OnlyTheLatest(after.history, base, session)
    ensures Inv(after, base)
  {
  }

  lemma {:induction false} ApplyKeepsInv(s: System, base: Option<nat>, a: Action)
    requires Inv(s, base) && Enabled(s, a) && (a.Save? ==> !Resurrects(s, base, a.body))
    ensures Inv(Apply(s, a), base)
  {
    match a
    case Install(body) => InstallKeepsInv(s, base, body);
    case Clear(body) => ClearKeepsInv(s, base, body);
    case Publish(notice) => PublishKeepsInv(s, base, notice);
    case Save(_, _) => SaveKeepsInv(s, base, a);
    case Write(_, _, _) => if Accepts(s, a) { WriteKeepsInv(s, base, a); }
    case _ => QuietKeepsInv(s, base, a);
  }

  lemma {:induction false} RunKeepsInv(s: System, base: Option<nat>, actions: seq<Action>)
    requires Inv(s, base) && Legal(s, actions) && Undisturbed(s, base, actions)
    ensures Inv(Run(s, actions), base)
    decreases |actions|
  {
    if actions != [] {
      ApplyKeepsInv(s, base, actions[0]);
      RunKeepsInv(Apply(s, actions[0]), base, actions[1..]);
    }
  }

  // ---------------------------------------------------------------------------------------------
  // Main results

  /**
  No conditional write of an attempt is accepted behind its terminal commit, so an attempt commits terminally at
  most once.
  */
  lemma {:induction false} NothingBehindTerminal(s: System, actions: seq<Action>, i: nat, j: nat, attempt: nat)
    requires Start(s) && Legal(s, actions) && Undisturbed(s, s.current.recheckAttempt, actions)
    requires i < j < |Run(s, actions).history|
    requires IsTerminalOf(Run(s, actions).history[i], attempt)
    ensures !(Run(s, actions).history[j].Committed? && Run(s, actions).history[j].attempt == attempt)
  {
    RunKeepsInv(s, s.current.recheckAttempt, actions);
    var history := Run(s, actions).history;
    assert Justified(history, s.current.recheckAttempt, j);
    assert IsTerminalOf(history[..j][i], attempt);
  }

  lemma {:induction false} AtMostOneTerminalCommit(s: System, actions: seq<Action>, i: nat, j: nat, attempt: nat)
    requires Start(s) && Legal(s, actions) && Undisturbed(s, s.current.recheckAttempt, actions)
    requires i < |Run(s, actions).history| && j < |Run(s, actions).history|
    requires IsTerminalOf(Run(s, actions).history[i], attempt) && IsTerminalOf(Run(s, actions).history[j], attempt)
    ensures i == j
  {
    if i < j {
      NothingBehindTerminal(s, actions, i, j, attempt);
    } else if j < i {
      NothingBehindTerminal(s, actions, j, i, attempt);
    }
  }

  // ---------------------------------------------------------------------------------------------
  // Stale saves

  /** Ledger operations that ask for a finished review, all but the confirm, resurrect nothing. */
  lemma FinishedCopyHarmless(s: System, base: Option<nat>, e: nat, body: Session)
    requires Inv(s, base) && Enabled(s, Save(e, body)) && IsFinal(s.editors[e].status)
    ensures !Resurrects(s, base, body)
  {
  }

  predicate ByWorkers(actions: seq<Action>) {
    forall i :: 0 <= i < |actions| ==> actions[i].Spawn? || actions[i].Read? || actions[i].Write?
  }

  /** A run of workers alone in which a write is accepted that should not be. */
  ghost predicate Harmed(s: System, base: Option<nat>, actions: seq<Action>) {
    ByWorkers(actions) && Legal(s, actions) && !AllJustified(Run(s, actions).history, base)
  }

  lemma {:induction false} WorkersUndisturbed(s: System, base: Option<nat>, actions: seq<Action>)
    requires ByWorkers(actions) && Legal(s, actions)
    ensures Undisturbed(s, base, actions)
    decreases |actions|
  {
    if actions != [] {
      WorkersUndisturbed(Apply(s, actions[0]), base, actions[1..]);
    }
  }

  lemma {:induction false} RunCons(s: System, a: Action, rest: seq<Action>)
    requires Enabled(s, a) && Legal(Apply(s, a), rest)
    ensures Legal(s, [a] + rest) && Run(s, [a] + rest) == Run(Apply(s, a), rest)
  {
    assert ([a] + rest)[1..] == rest;
  }

  /** A fresh worker that reads the session and writes it back. */
  function ReadAndWrite(w: nat, attempt: nat, session: Session): seq<Action> {
    [Spawn(w, attempt)] + ([Read(w)] + ([Write(w, session, None)] + []))
  }

  lemma {:induction false} WrittenBack(s: System, w: nat, attempt: nat, session: Session)
    requires attempt < s.issued && MatchesRunningRecheck(s.current, attempt) && session.recheckAttempt == Some(attempt)
    requires Running(session) ==> !IsFinal(session.status)
    ensures Legal(s, ReadAndWrite(w, attempt, session))
    ensures var after := Run(s, ReadAndWrite(w, attempt, session));
            && after.history == s.history + [Committed(attempt, IsFinal(session.status), false)]
            && after.current == session.(title := s.current.title)
            && after.issued == s.issued && after.editors == s.editors
  {
    var spawned := Apply(s, Spawn(w, attempt));
    var begun := Apply(spawned, Read(w));
    RunCons(begun, Write(w, session, None), []);
    RunCons(spawned, Read(w), [Write(w, session, None)] + []);
    RunCons(s, Spawn(w, attempt), [Read(w)] + ([Write(w, session, None)] + []));
  }

  /** A save does harm, if only by what workers do next, exactly when it resurrects an attempt. */
  lemma {:induction false} SaveHarmsExactly(s: System, base: Option<nat>, e: nat, body: Session, w: nat)
    requires Inv(s, base) && Enabled(s, Save(e, body)) && w !in s.workers
    ensures Resurrects(s, base, body) <==> exists actions :: Harmed(Apply(s, Save(e, body)), base, actions)
  {
    var after := Apply(s, Save(e, body));
    if Resurrects(s, base, body) {
      var attempt := body.recheckAttempt.value;
      var actions := ReadAndWrite(w, attempt, after.current);
      assert Known(s.editors[e], s.issued);
      WrittenBack(after, w, attempt, after.current);
      UnjustifiedLast(s.history, base, Committed(attempt, false, false));
      assert Harmed(after, base, actions);
    } else {
      ApplyKeepsInv(s, base, Save(e, body));
      forall actions | ByWorkers(actions) && Legal(after, actions) ensures !Harmed(after, base, actions) {
        WorkersUndisturbed(after, base, actions);
        RunKeepsInv(after, base, actions);
      }
    }
  }

  lemma {:induction false} UnjustifiedLast(history: seq<Record>, base: Option<nat>, record: Record)
    requires record.Committed? && (Latest(history, base) != Some(record.attempt) || Finished(history, record.attempt))
    ensures !AllJustified(history + [record], base)
  {
    assert (history + [record])[..|history|] == history;
    assert !Justified(history + [record], base, |history|);
  }

  /** A confirm that has read the session while the recheck was running and saves it behind the end of the recheck. */
  function LateConfirm(s: System, attempt: nat, ended: Session): seq<Action> {
    [Open(0)] + (ReadAndWrite(0, attempt, ended) + ([Save(0, s.current)] + ReadAndWrite(1, attempt, ended)))
  }

  lemma {:induction false} RunAppend(s: System, a: seq<Action>, b: seq<Action>)
    requires Legal(s, a) && Legal(Run(s, a), b)
    ensures Legal(s, a + b) && Run(s, a + b) == Run(Run(s, a), b)
    decreases |a|
  {
    if a == [] {
      assert a + b == b;
    } else {
      assert (a + b)[1..] == a[1..] + b;
      RunAppend(Apply(s, a[0]), a[1..], b);
    }
  }

  /** From every start with a running attempt, such a confirm lets the attempt commit terminally a second time. */
  lemma {:induction false} LateConfirmCommitsTwice(s: System, attempt: nat, ended: Session)
    requires Start(s) && MatchesRunningRecheck(s.current, attempt)
    requires ended == s.current.(status := Completed, recheckStatus := Some(RecheckCompleted))
    ensures Legal(s, LateConfirm(s, attempt, ended))
    ensures Run(s, LateConfirm(s, attempt, ended)).history
            == [Committed(attempt, true, false), Committed(attempt, true, false)]
  {
    var begun := Apply(s, Open(0));
    var first := ReadAndWrite(0, attempt, ended);
    WrittenBack(begun, 0, attempt, ended);
    var done := Run(begun, first);
    var saved := Apply(done, Save(0, s.current));
    WrittenBack(saved, 1, attempt, ended);
    RunCons(done, Save(0, s.current), ReadAndWrite(1, attempt, ended));
    RunAppend(begun, first, [Save(0, s.current)] + ReadAndWrite(1, attempt, ended));
    RunCons(s, Open(0), first + ([Save(0, s.current)] + ReadAndWrite(1, attempt, ended)));
  }

  predicate Settles(record: Record) {
    record.Installed? || record.Cleared?
  }

  /** Where the latest attempt comes from. */
  lemma {:induction false} LatestFrom(history: seq<Record>, base: Option<nat>, attempt: nat)
    requires Latest(history, base) == Some(attempt)
    ensures (exists k :: 0 <= k < |history| && history[k] == Installed(attempt) && NothingSettles(history, k + 1))
         || (base == Some(attempt) && NothingSettles(history, 0))
    decreases |history|
  {
    if history != [] {
      var n := |history| - 1;
      if history[n].Installed? {
        assert NothingSettles(history, n + 1);
      } else {
        LatestFrom(history[..n], base, attempt);
        if k :| 0 <= k < n && history[..n][k] == Installed(attempt) && NothingSettles(history[..n], k + 1) {
          NothingSettlesLonger(history, k + 1);
        } else {
          NothingSettlesLonger(history, 0);
        }
      }
    }
  }

  ghost predicate NothingSettles(history: seq<Record>, from: nat) {
    forall m :: from <= m < |history| ==> !Settles(history[m])
  }

  lemma {:induction false} NothingSettlesLonger(history: seq<Record>, from: nat)
    requires history != [] && !Settles(history[|history| - 1]) && NothingSettles(history[..|history| - 1], from)
    ensures NothingSettles(history, from)
  {
    forall m | from <= m < |history| ensures !Settles(history[m]) {
      if m < |history| - 1 {
        assert history[..|history| - 1][m] == history[m];
      }
    }
  }

  /**
  An accepted write belongs to the newest attempt: behind the installation of a newer id, or a clearing, no older
  one is accepted.
  */
  lemma {:induction false} NothingBehindNewerInstall(s: System, actions: seq<Action>, i: nat, j: nat)
    requires Start(s) && Legal(s, actions) && Undisturbed(s, s.current.recheckAttempt, actions)
    requires i < j < |Run(s, actions).history|
    requires Run(s, actions).history[j].Committed?
    ensures var history := Run(s, actions).history;
            && (history[i].Installed? ==> history[i].attempt <= history[j].attempt)
            && (history[i].Cleared? ==> exists k :: i < k < j && history[k] == Installed(history[j].attempt))
  {
    var base, history := s.current.recheckAttempt, Run(s, actions).history;
    RunKeepsInv(s, base, actions);
    assert Justified(history, base, j);
    LatestFrom(history[..j], base, history[j].attempt);
    if k :| 0 <= k < j && history[..j][k] == Installed(history[j].attempt) && NothingSettles(history[..j], k + 1) {
      assert Settles(history[..j][i]) ==> i <= k;
    } else {
      assert Settles(history[..j][i]) ==> false;
    }
  }

  /** The records that stand for an event in the log. */
  function Entries(history: seq<Record>): nat {
    if history == [] then 0
    else
      var last := history[|history| - 1];
      Entries(history[..|history| - 1]) + (if last.Published? || (last.Committed? && last.logged) then 1 else 0)
  }

  lemma {:induction false} EntriesAppend(history: seq<Record>, record: Record)
    ensures Entries(history + [record])
         == Entries(history) + (if record.Published? || (record.Committed? && record.logged) then 1 else 0)
  {
    assert (history + [record])[..|history|] == history;
  }

  lemma {:induction false} StepLogs(s: System, a: Action)
    requires Enabled(s, a)
    ensures s.log <= Apply(s, a).log && s.history <= Apply(s, a).history
    ensures |Apply(s, a).log| - Entries(Apply(s, a).history) == |s.log| - Entries(s.history)
  {
    match a
    case Install(_) => EntriesAppend(s.history, Installed(s.issued));
    case Clear(_) => EntriesAppend(s.history, Cleared);
    case Publish(_) => EntriesAppend(s.history, Published);
    case Write(w, session, logged) =>
      EntriesAppend(s.history, Committed(s.workers[w].attempt, IsFinal(session.status), logged.Some?));
    case _ =>
  }

  /** The log only grows, and by exactly one event for each progress notice and each accepted transition. */
  lemma {:induction false} LogMatchesHistory(s: System, actions: seq<Action>)
    requires Legal(s, actions)
    ensures s.log <= Run(s, actions).log && s.history <= Run(s, actions).history
    ensures |Run(s, actions).log| - Entries(Run(s, actions).history) == |s.log| - Entries(s.history)
    decreases |actions|
  {
    if actions != [] {
      StepLogs(s, actions[0]);
      LogMatchesHistory(Apply(s, actions[0]), actions[1..]);
    }
  }
}
