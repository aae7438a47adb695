/**
Confirming and undoing repairs (hybrid_review_service.py: `_confirm_fix_locked`, `undo_revision`,
`revisions`). The functions give each operation's effect on the session; the class in `FixService`
performs them step by step.
*/
module FixLedger {
  import opened Wrappers
  import opened ReviewModels
  import opened Text
  import opened FixSplice

  const MAX_REVISIONS := 20

  /** A stored candidate: the recorded splice together with the file it produces. */
  datatype PreparedFix = PreparedFix(
    findingId: string, fileId: string, baseSha: Digest, scopeSha: Digest, revisedContent: string,
    fixStart: int, fixEnd: int, replacementLines: nat)

  datatype FixError = StaleRevision | FindingGone | NewDiagnostics

  datatype UndoError = NotFinished | NotLatest | FileGone | FileChanged

  // ---------------------------------------------------------------------------------------------
  // Confirming

  function LineDelta(fix: PreparedFix): int {
    fix.replacementLines - (fix.fixEnd - fix.fixStart + 1)
  }

  function LookupFinding(s: Session, id: string): Option<Finding> {
    var open := FindingWithId(s.findings, id);
    if open.Some? then open else if id in s.decided then Some(s.decided[id]) else None
  }

  function FindingWithId(findings: seq<Finding>, id: string): Option<Finding> {
    if findings == [] then None
    else if findings[0].id == id then Some(findings[0])
    else FindingWithId(findings[1..], id)
  }

  /** Where a finding goes: nowhere when it was the repaired one or overlaps the repair. */
  function Remapped(item: Finding, fix: PreparedFix, fileId: string): Option<Finding> {
    if item.id == fix.findingId then None
    else if item.fileId != fileId || item.endLine < fix.fixStart then Some(item)
    else if item.startLine > fix.fixEnd then
      Some(item.(startLine := item.startLine + LineDelta(fix), endLine := item.endLine + LineDelta(fix)))
    else None
  }

  function KeptFindings(findings: seq<Finding>, fix: PreparedFix, fileId: string): seq<Finding> {
    if findings == [] then []
    else
      var last := |findings| - 1;
      var kept := KeptFindings(findings[..last], fix, fileId);
      match Remapped(findings[last], fix, fileId)
      case Some(item) => kept + [item]
      case None => kept
  }

  function AdjustedRange(changed: LineRange, fix: PreparedFix): LineRange {
    var replacementEnd := fix.fixStart + (if fix.replacementLines > 1 then fix.replacementLines else 1) - 1;
    if changed.endLine < fix.fixStart then changed
    else if changed.startLine > fix.fixEnd then
      LineRange(changed.startLine + LineDelta(fix), changed.endLine + LineDelta(fix))
    else
      LineRange(
        if changed.startLine < fix.fixStart then changed.startLine else fix.fixStart,
        if replacementEnd > changed.endLine + LineDelta(fix) then replacementEnd else changed.endLine + LineDelta(fix))
  }

  function AdjustedRanges(ranges: seq<LineRange>, fix: PreparedFix): seq<LineRange> {
    seq(|ranges|, i requires 0 <= i < |ranges| => AdjustedRange(ranges[i], fix))
  }

  function Retained(revisions: seq<Revision>): seq<Revision> {
    if |revisions| > MAX_REVISIONS then revisions[|revisions| - MAX_REVISIONS..] else revisions
  }

  /** `_restart_review_in_place`: queue the review again under a fresh attempt id. */
  function Restarted(s: Session, attempt: nat): Session {
    s.(status := Queued, findings := [], recheckAttempt := Some(attempt), recheckStatus := Some(RecheckRunning))
  }

  function Confirmed(
    s: Session, fix: PreparedFix, clean: bool, revisionId: string, attempt: nat
  ): Result<Session, FixError> {
    if fix.fileId !in s.files then Err(StaleRevision)
    else
      var source := s.files[fix.fileId];
      if Sha(source.content) != fix.baseSha || Sha(source.content) != fix.scopeSha then Err(StaleRevision)
      else if LookupFinding(s, fix.findingId).None? then Err(FindingGone)
      else if !clean then Err(NewDiagnostics)
      else
        var finding := LookupFinding(s, fix.findingId).value;
        var tracked := s.changedRanges.Some? && source.path in s.changedRanges.value;
        var before := if tracked then Some(s.changedRanges.value[source.path]) else None;
        var revision := Revision(revisionId, fix.findingId, fix.fileId, source.path, source.content, before,
                                 Sha(source.content), Sha(fix.revisedContent), false);
        var kept := KeptFindings(s.findings, fix, finding.fileId);
        var decided := s.(
          files := s.files[fix.fileId := source.(content := fix.revisedContent)],
          changedRanges :=
            if tracked then Some(s.changedRanges.value[source.path := AdjustedRanges(before.value, fix)])
            else s.changedRanges,
          findings := kept,
          decided := s.decided[fix.findingId := finding],
          decisions := s.decisions[fix.findingId := Fixed],
          states := s.states[fix.findingId := StateFixedPendingRevalidation],
          revisions := Retained(s.revisions + [revision]));
        Ok(if kept == [] then Restarted(decided, attempt) else decided)
  }

  // ---------------------------------------------------------------------------------------------
  // Undoing

  /** The newest revision not yet undone. */
  function LatestActive(revisions: seq<Revision>): (r: Option<Revision>)
    ensures r.Some? ==> r.value in revisions && !r.value.undone
  {
    if revisions == [] then None
    else if !revisions[|revisions| - 1].undone then Some(revisions[|revisions| - 1])
    else LatestActive(revisions[..|revisions| - 1])
  }

  function MarkUndone(revisions: seq<Revision>, id: string): seq<Revision> {
    seq(|revisions|, i requires 0 <= i < |revisions| =>
      if revisions[i].id == id then revisions[i].(undone := true) else revisions[i])
  }

  function Undone(s: Session, revisionId: string, attempt: nat): Result<Session, UndoError> {
    if s.status !in {Completed, Failed} then Err(NotFinished)
    else
      var latest := LatestActive(s.revisions);
      if latest.None? || latest.value.id != revisionId then Err(NotLatest)
      else if latest.value.fileId !in s.files then Err(FileGone)
      else if Sha(s.files[latest.value.fileId].content) != latest.value.afterSha then Err(FileChanged)
      else
        var w := Restore(Workspace(s.files, s.changedRanges), latest.value);
        Ok(Restarted(
          s.(files := w.files, changedRanges := w.changedRanges,
             revisions := MarkUndone(s.revisions, revisionId),
             decisions := s.decisions - {latest.value.findingId}),
          attempt))
  }

  // ---------------------------------------------------------------------------------------------
  // The files and changed ranges that an undo must bring back

  datatype Workspace = Workspace(files: map<string, SourceFile>, changedRanges: Option<map<string, seq<LineRange>>>)

  function WorkspaceOf(s: Session): Workspace {
    Workspace(s.files, s.changedRanges)
  }

  function Restore(w: Workspace, r: Revision): Workspace
    requires r.fileId in w.files
  {
    Workspace(
      w.files[r.fileId := w.files[r.fileId].(content := r.beforeContent)],
      if w.changedRanges.Some? && r.beforeRanges.Some?
      then Some(w.changedRanges.value[r.path := r.beforeRanges.value])
      else w.changedRanges)
  }

  /** One operation of a session's life. `Elsewhere` is anything that leaves files, ranges and
      revisions alone: review runs, decisions, reopening. */
  datatype Step =
    | Confirm(fix: PreparedFix, clean: bool, revisionId: string, attempt: nat)
    | Undo(revisionId: string, attempt: nat)
    | Elsewhere(status: ReviewStatus, findings: seq<Finding>, decided: map<string, Finding>,
                decisions: map<string, FindingDecision>, states: map<string, FindingState>)

  function Apply(s: Session, step: Step): Session {
    match step
    case Confirm(fix, clean, revisionId, attempt) =>
      var r := Confirmed(s, fix, clean, revisionId, attempt);
      if r.Ok? then r.value else s
    case Undo(revisionId, attempt) =>
      var r := Undone(s, revisionId, attempt);
      if r.Ok? then r.value else s
    case Elsewhere(status, findings, decided, decisions, states) =>
      s.(status := status, findings := findings, decided := decided, decisions := decisions, states := states)
  }

  predicate Forgets(revisions: seq<Revision>, stack: seq<Workspace>) {
    |revisions| >= MAX_REVISIONS && !revisions[0].undone && stack != []
  }

  /** The abstract undo stack: whole workspaces, pushed by a confirm and popped by an undo. A
      confirm that makes the ledger drop an old active revision drops the bottom workspace. */
  ghost function Pushed(revisions: seq<Revision>, stack: seq<Workspace>, w: Workspace): seq<Workspace> {
    (if Forgets(revisions, stack) then stack[1..] else stack) + [w]
  }

  ghost function Stacked(s: Session, stack: seq<Workspace>, step: Step): seq<Workspace> {
    match step
    case Confirm(fix, clean, revisionId, attempt) =>
      var r := Confirmed(s, fix, clean, revisionId, attempt);
      if r.Err? then stack else Pushed(s.revisions, stack, WorkspaceOf(s))
    case Undo(revisionId, attempt) =>
      if Undone(s, revisionId, attempt).Ok? && stack != [] then stack[..|stack| - 1] else stack
    case Elsewhere(_, _, _, _, _) => stack
  }

  function Run(s: Session, steps: seq<Step>): Session
    decreases |steps|
  {
    if steps == [] then s else Run(Apply(s, steps[0]), steps[1..])
  }

  ghost function RunStack(s: Session, stack: seq<Workspace>, steps: seq<Step>): seq<Workspace>
    decreases |steps|
  {
    if steps == [] then stack
    else RunStack(Apply(s, steps[0]), Stacked(s, stack, steps[0]), steps[1..])
  }

  predicate Fresh(revisions: seq<Revision>, step: Step) {
    step.Confirm? ==> forall i :: 0 <= i < |revisions| ==> revisions[i].id != step.revisionId
  }

  /** Every confirm carries a revision id that no retained revision has. */
  predicate FreshIds(s: Session, steps: seq<Step>)
    decreases |steps|
  {
    steps != [] ==>
      && Fresh(s.revisions, steps[0])
      && FreshIds(Apply(s, steps[0]), steps[1..])
  }

  // ---------------------------------------------------------------------------------------------
  // The stack invariant

  /**
  Walking the ledger back from its newest entry, every active revision finds the file exactly as
  it left it, and restoring it yields the workspace on top of the stack; undone entries are
  passed over.
  */
  ghost predicate Unwinds(w: Workspace, revisions: seq<Revision>, stack: seq<Workspace>)
    decreases |revisions|
  {
    if revisions == [] then stack == []
    else
      var n := |revisions| - 1;
      var r := revisions[n];
      if r.undone then Unwinds(w, revisions[..n], stack)
      else
        && stack != []
        && r.fileId in w.files
        && Sha(w.files[r.fileId].content) == r.afterSha
        && Restore(w, r) == stack[|stack| - 1]
        && Unwinds(stack[|stack| - 1], revisions[..n], stack[..|stack| - 1])
  }

  predicate DistinctIds(revisions: seq<Revision>) {
    forall i, j :: 0 <= i < j < |revisions| ==> revisions[i].id != revisions[j].id
  }

  ghost predicate Inv(s: Session, stack: seq<Workspace>) {
    && Unwinds(WorkspaceOf(s), s.revisions, stack)
    && DistinctIds(s.revisions)
    && |s.revisions| <= MAX_REVISIONS
    && History(s.files, s.revisions)
  }

  /** Forgetting the oldest entry forgets the bottom of the stack exactly when it was active. */
  lemma {:induction false} ForgetOldest(w: Workspace, revisions: seq<Revision>, stack: seq<Workspace>)
    requires revisions != [] && Unwinds(w, revisions, stack)
    ensures !revisions[0].undone ==> stack != []
    ensures Unwinds(w, revisions[1..], if revisions[0].undone then stack else stack[1..])
    decreases |revisions|
  {
    var n := |revisions| - 1;
    if n > 0 {
      assert revisions[1..][n - 1] == revisions[n];
      assert revisions[1..][..n - 1] == revisions[..n][1..];
      if revisions[n].undone {
        ForgetOldest(w, revisions[..n], stack);
      } else {
        ForgetOldest(stack[|stack| - 1], revisions[..n], stack[..|stack| - 1]);
        if !revisions[0].undone {
          assert stack[1..][..|stack[1..]| - 1] == stack[..|stack| - 1][1..];
        }
      }
    } else {
      assert revisions[1..] == [];
    }
  }

  /** Undoing the latest active revision pops the stack. */
  lemma {:induction false} PopLatest(w: Workspace, revisions: seq<Revision>, stack: seq<Workspace>)
    requires Unwinds(w, revisions, stack) && DistinctIds(revisions)
    ensures LatestActive(revisions).None? <==> stack == []
    ensures stack != [] ==>
              var r := LatestActive(revisions).value;
              && r.fileId in w.files
              && Sha(w.files[r.fileId].content) == r.afterSha
              && Restore(w, r) == stack[|stack| - 1]
              && Unwinds(stack[|stack| - 1], MarkUndone(revisions, r.id), stack[..|stack| - 1])
    decreases |revisions|
  {
    if revisions != [] {
      var n := |revisions| - 1;
      if revisions[n].undone {
        PopLatest(w, revisions[..n], stack);
        if stack != [] {
          var r := LatestActive(revisions).value;
          assert MarkUndone(revisions, r.id)[..n] == MarkUndone(revisions[..n], r.id);
        }
      } else {
        assert MarkUndone(revisions, revisions[n].id)[..n] == revisions[..n];
      }
    }
  }

  /** Putting back a file's content and its tracked ranges undoes any change to the two. */
  lemma {:induction false} RestoreBack(
    before: Workspace, after: Workspace, r: Revision, content: string, ranges: seq<LineRange>
  )
    requires r.fileId in before.files
    requires after.files == before.files[r.fileId := before.files[r.fileId].(content := content)]
    requires r.path == before.files[r.fileId].path && r.beforeContent == before.files[r.fileId].content
    requires
      if before.changedRanges.Some? && r.path in before.changedRanges.value
      then r.beforeRanges == Some(before.changedRanges.value[r.path])
           && after.changedRanges == Some(before.changedRanges.value[r.path := ranges])
      else r.beforeRanges == None && after.changedRanges == before.changedRanges
    ensures Restore(after, r) == before
  {
    assert Restore(after, r).files == before.files;
    if r.beforeRanges.Some? {
      assert Restore(after, r).changedRanges.value == before.changedRanges.value;
    }
  }

  /** A confirm followed by restoring its own revision gives back the workspace it started from. */
  lemma {:induction false} RestoreUndoesConfirm(
    s: Session, fix: PreparedFix, clean: bool, revisionId: string, attempt: nat
  )
    requires Confirmed(s, fix, clean, revisionId, attempt).Ok?
    ensures var s' := Confirmed(s, fix, clean, revisionId, attempt).value;
            && s'.revisions != []
            && var r := s'.revisions[|s'.revisions| - 1];
               && !r.undone && r.id == revisionId && r.findingId == fix.findingId
               && r.fileId == fix.fileId && r.fileId in s'.files
               && s'.revisions == Retained(s.revisions + [r]) && r.fileId in s.files
               && s'.files == s.files[r.fileId := s.files[r.fileId].(content := fix.revisedContent)]
               && r.afterSha == Sha(fix.revisedContent)
               && Sha(s'.files[r.fileId].content) == r.afterSha
               && r.beforeContent == s.files[fix.fileId].content
               && Restore(WorkspaceOf(s'), r) == WorkspaceOf(s)
  {
    var s' := Confirmed(s, fix, clean, revisionId, attempt).value;
    var r, source := s'.revisions[|s'.revisions| - 1], s.files[fix.fileId];
    var ranges := if r.beforeRanges.Some? then AdjustedRanges(r.beforeRanges.value, fix) else [];
    RestoreBack(WorkspaceOf(s), WorkspaceOf(s'), r, fix.revisedContent, ranges);
  }

  lemma PushKeepsUnwinding(w: Workspace, w': Workspace, revisions: seq<Revision>, r: Revision, stack: seq<Workspace>)
    requires Unwinds(w, revisions, stack) && |revisions| <= MAX_REVISIONS
    requires !r.undone && r.fileId in w'.files && Sha(w'.files[r.fileId].content) == r.afterSha
    requires Restore(w', r) == w
    ensures Unwinds(w', Retained(revisions + [r]), Pushed(revisions, stack, w))
  {
    var all, pushed := revisions + [r], stack + [w];
    assert all[..|all| - 1] == revisions && pushed[..|pushed| - 1] == stack;
    assert Unwinds(w', all, pushed);
    if |all| > MAX_REVISIONS {
      ForgetOldest(w', all, pushed);
      ForgetOldest(w, revisions, stack);
      assert all[0] == revisions[0] && Retained(all) == all[1..];
      assert stack != [] ==> pushed[1..] == stack[1..] + [w];
    }
  }

  // ---------------------------------------------------------------------------------------------
  // History reconstruction

  /** The first entry from `from` on that concerns the file, as the inner search of `revisions`. */
  function NextOfFile(revisions: seq<Revision>, from: nat, fileId: string): (r: Option<nat>)
    requires from <= |revisions|
    ensures r.Some? ==> from <= r.value < |revisions| && revisions[r.value].fileId == fileId
    ensures forall k :: from <= k < (if r.Some? then r.value else |revisions|) ==> revisions[k].fileId != fileId
    decreases |revisions| - from
  {
    if from == |revisions| then None
    else if revisions[from].fileId == fileId then Some(from)
    else NextOfFile(revisions, from + 1, fileId)
  }

  /** The text `revisions` shows as the outcome of entry `i`. */
  function AfterContent(files: map<string, SourceFile>, revisions: seq<Revision>, i: nat): Option<string>
    requires i < |revisions|
  {
    var later := NextOfFile(revisions, i + 1, revisions[i].fileId);
    if later.Some? then Some(revisions[later.value].beforeContent)
    else if revisions[i].fileId in files then Some(files[revisions[i].fileId].content)
    else None
  }

  predicate Faithful(files: map<string, SourceFile>, revisions: seq<Revision>, i: nat)
    requires i < |revisions|
  {
    !revisions[i].undone ==>
      && AfterContent(files, revisions, i).Some?
      && Sha(AfterContent(files, revisions, i).value) == revisions[i].afterSha
  }

  /** For every active revision the reconstructed text is the one it recorded. */
  predicate History(files: map<string, SourceFile>, revisions: seq<Revision>) {
    forall i :: 0 <= i < |revisions| ==> Faithful(files, revisions, i)
  }

  lemma {:induction false} NextAppend(revisions: seq<Revision>, r: Revision, from: nat, fileId: string)
    requires from <= |revisions|
    ensures NextOfFile(revisions + [r], from, fileId)
         == var next := NextOfFile(revisions, from, fileId);
            if next.Some? then next else if r.fileId == fileId then Some(|revisions|) else None
    decreases |revisions| - from
  {
    if from < |revisions| && revisions[from].fileId != fileId {
      NextAppend(revisions, r, from + 1, fileId);
    }
  }

  lemma {:induction false} NextDrop(revisions: seq<Revision>, from: nat, fileId: string)
    requires 1 <= from <= |revisions|
    ensures NextOfFile(revisions[1..], from - 1, fileId)
         == var next := NextOfFile(revisions, from, fileId);
            if next.Some? then Some(next.value - 1) else None
    decreases |revisions| - from
  {
    if from < |revisions| {
      assert revisions[1..][from - 1] == revisions[from];
      if revisions[from].fileId != fileId {
        NextDrop(revisions, from + 1, fileId);
      }
    }
  }

  lemma {:induction false} NextMarked(revisions: seq<Revision>, id: string, from: nat, fileId: string)
    requires from <= |revisions|
    ensures NextOfFile(MarkUndone(revisions, id), from, fileId) == NextOfFile(revisions, from, fileId)
    decreases |revisions| - from
  {
    if from < |revisions| {
      NextMarked(revisions, id, from + 1, fileId);
    }
  }

  lemma HistoryDrop(files: map<string, SourceFile>, revisions: seq<Revision>)
    requires revisions != [] && History(files, revisions)
    ensures History(files, revisions[1..])
  {
    var rest := revisions[1..];
    forall i | 0 <= i < |rest| ensures Faithful(files, rest, i) {
      assert rest[i] == revisions[i + 1];
      NextDrop(revisions, i + 2, revisions[i + 1].fileId);
      assert Faithful(files, revisions, i + 1);
    }
  }

  lemma HistoryPush(files: map<string, SourceFile>, revisions: seq<Revision>, r: Revision, revised: string)
    requires History(files, revisions) && |revisions| <= MAX_REVISIONS
    requires r.fileId in files && r.beforeContent == files[r.fileId].content && r.afterSha == Sha(revised)
    ensures History(files[r.fileId := files[r.fileId].(content := revised)], Retained(revisions + [r]))
  {
    var files' := files[r.fileId := files[r.fileId].(content := revised)];
    var all := revisions + [r];
    forall i | 0 <= i < |all| ensures Faithful(files', all, i) {
      if i < |revisions| {
        NextAppend(revisions, r, i + 1, revisions[i].fileId);
        assert Faithful(files, revisions, i);
      }
    }
    if |all| > MAX_REVISIONS {
      HistoryDrop(files', all);
    }
  }

  lemma {:induction false} LatestIsLast(revisions: seq<Revision>, i: nat)
    requires i < |revisions| && !revisions[i].undone
    ensures LatestActive(revisions).Some?
    ensures exists k :: i <= k < |revisions| && LatestActive(revisions) == Some(revisions[k])
    decreases |revisions|
  {
    var n := |revisions| - 1;
    if revisions[n].undone {
      LatestIsLast(revisions[..n], i);
      var k :| i <= k < n && LatestActive(revisions[..n]) == Some(revisions[..n][k]);
      assert revisions[k] == revisions[..n][k];
    }
  }

  lemma HistoryUndo(files: map<string, SourceFile>, files': map<string, SourceFile>, revisions: seq<Revision>)
    requires History(files, revisions) && DistinctIds(revisions) && LatestActive(revisions).Some?
    requires files'.Keys == files.Keys
    requires forall f :: f in files && f != LatestActive(revisions).value.fileId ==> files'[f] == files[f]
    ensures History(files', MarkUndone(revisions, LatestActive(revisions).value.id))
  {
    var r := LatestActive(revisions).value;
    var marked := MarkUndone(revisions, r.id);
    forall i | 0 <= i < |marked| ensures Faithful(files', marked, i) {
      if !marked[i].undone {
        NextMarked(revisions, r.id, i + 1, revisions[i].fileId);
        LatestIsLast(revisions, i);
        var k :| i <= k < |revisions| && revisions[k] == r;
        assert Faithful(files, revisions, i);
      }
    }
  }

  // ---------------------------------------------------------------------------------------------
  // Main results

  lemma {:induction false} PushKeepsIds(revisions: seq<Revision>, r: Revision)
    requires DistinctIds(revisions) && |revisions| <= MAX_REVISIONS
    requires forall i :: 0 <= i < |revisions| ==> revisions[i].id != r.id
    ensures DistinctIds(Retained(revisions + [r])) && |Retained(revisions + [r])| <= MAX_REVISIONS
  {
  }

  lemma {:induction false} PushKeepsInv(s: Session, s': Session, r: Revision, revised: string, stack: seq<Workspace>)
    requires Inv(s, stack)
    requires !r.undone && forall i :: 0 <= i < |s.revisions| ==> s.revisions[i].id != r.id
    requires r.fileId in s.files && r.beforeContent == s.files[r.fileId].content && r.afterSha == Sha(revised)
    requires s'.files == s.files[r.fileId := s.files[r.fileId].(content := revised)]
    requires s'.revisions == Retained(s.revisions + [r])
    requires Restore(WorkspaceOf(s'), r) == WorkspaceOf(s)
    ensures Inv(s', Pushed(s.revisions, stack, WorkspaceOf(s)))
  {
    PushKeepsUnwinding(WorkspaceOf(s), WorkspaceOf(s'), s.revisions, r, stack);
    PushKeepsIds(s.revisions, r);
    HistoryPush(s.files, s.revisions, r, revised);
  }

  lemma ConfirmKeepsInv(s: Session, stack: seq<Workspace>, step: Step)
    requires Inv(s, stack) && step.Confirm? && Fresh(s.revisions, step)
    requires Confirmed(s, step.fix, step.clean, step.revisionId, step.attempt).Ok?
    ensures Inv(Apply(s, step), Stacked(s, stack, step))
  {
    RestoreUndoesConfirm(s, step.fix, step.clean, step.revisionId, step.attempt);
    var s' := Confirmed(s, step.fix, step.clean, step.revisionId, step.attempt).value;
    PushKeepsInv(s, s', s'.revisions[|s'.revisions| - 1], step.fix.revisedContent, stack);
  }

  /** The newest active revision can be undone, and undoing it pops the stack. */
  lemma UndoKeepsInv(s: Session, stack: seq<Workspace>, attempt: nat)
    requires Inv(s, stack) && stack != [] && s.status in {Completed, Failed}
    ensures LatestActive(s.revisions).Some?
    ensures var r := Undone(s, LatestActive(s.revisions).value.id, attempt);
            r.Ok? && Inv(r.value, stack[..|stack| - 1]) && WorkspaceOf(r.value) == stack[|stack| - 1]
  {
    PopLatest(WorkspaceOf(s), s.revisions, stack);
    HistoryUndo(s.files, stack[|stack| - 1].files, s.revisions);
  }

  lemma StepKeepsInv(s: Session, stack: seq<Workspace>, step: Step)
    requires Inv(s, stack) && Fresh(s.revisions, step)
    ensures Inv(Apply(s, step), Stacked(s, stack, step))
  {
    match step
    case Confirm(fix, clean, revisionId, attempt) =>
      if Confirmed(s, fix, clean, revisionId, attempt).Ok? {
        ConfirmKeepsInv(s, stack, step);
      }
    case Undo(revisionId, attempt) =>
      if Undone(s, revisionId, attempt).Ok? {
        PopLatest(WorkspaceOf(s), s.revisions, stack);
        UndoKeepsInv(s, stack, attempt);
      }
    case Elsewhere(_, _, _, _, _) =>
  }

  /** Every state a session reaches keeps the stack invariant and the history. */
  lemma {:induction false} ReachableInv(s: Session, stack: seq<Workspace>, steps: seq<Step>)
    requires Inv(s, stack) && FreshIds(s, steps)
    ensures Inv(Run(s, steps), RunStack(s, stack, steps))
    decreases |steps|
  {
    if steps != [] {
      StepKeepsInv(s, stack, steps[0]);
      ReachableInv(Apply(s, steps[0]), Stacked(s, stack, steps[0]), steps[1..]);
    }
  }

  /** A new session, whatever its files, starts with an empty ledger. */
  lemma FromNewSession(s: Session, steps: seq<Step>)
    requires s.revisions == [] && FreshIds(s, steps)
    ensures Inv(Run(s, steps), RunStack(s, [], steps))
    ensures History(Run(s, steps).files, Run(s, steps).revisions)
    ensures |Run(s, steps).revisions| <= MAX_REVISIONS
  {
    ReachableInv(s, [], steps);
  }

  /**
  Undo is never stuck: on a finished review it is refused exactly when the id is not that of the
  newest active revision. The missing-file and changed-file branches never fire.
  */
  lemma UndoAcceptedExactly(s: Session, stack: seq<Workspace>, revisionId: string, attempt: nat)
    requires Inv(s, stack)
    ensures Undone(s, revisionId, attempt).Ok? <==>
              && s.status in {Completed, Failed}
              && LatestActive(s.revisions).Some?
              && LatestActive(s.revisions).value.id == revisionId
    ensures Undone(s, revisionId, attempt) != Err(FileGone)
    ensures Undone(s, revisionId, attempt) != Err(FileChanged)
  {
    PopLatest(WorkspaceOf(s), s.revisions, stack);
  }

  /** Undoing the newest active revision once the review has finished. */
  function UndoLatest(s: Session, attempt: nat): Result<Session, UndoError> {
    match LatestActive(s.revisions)
    case None => Err(NotLatest)
    case Some(latest) => Undone(s.(status := Completed), latest.id, attempt)
  }

  function UndoTimes(s: Session, k: nat, attempt: nat): Result<Session, UndoError>
    decreases k
  {
    if k == 0 then Ok(s)
    else
      var r := UndoLatest(s, attempt);
      if r.Err? then r else UndoTimes(r.value, k - 1, attempt)
  }

  lemma UndoLatestRestores(s: Session, stack: seq<Workspace>, attempt: nat)
    requires Inv(s, stack) && stack != []
    ensures UndoLatest(s, attempt).Ok?
    ensures Inv(UndoLatest(s, attempt).value, stack[..|stack| - 1])
    ensures WorkspaceOf(UndoLatest(s, attempt).value) == stack[|stack| - 1]
  {
    UndoKeepsInv(s.(status := Completed), stack, attempt);
  }

  predicate UndoneTo(r: Result<Session, UndoError>, w: Workspace) {
    r.Ok? && WorkspaceOf(r.value) == w
  }

  /**
  Any number of undos, up to every retained active revision, succeeds and brings back exactly the
  files and the changed ranges as they were before the oldest confirm undone.
  */
  lemma {:induction false} UndoTimesRestores(s: Session, stack: seq<Workspace>, k: nat, attempt: nat)
    requires Inv(s, stack) && k <= |stack|
    ensures UndoneTo(UndoTimes(s, k, attempt), (stack + [WorkspaceOf(s)])[|stack| - k])
    decreases k
  {
    if k > 0 {
      UndoLatestRestores(s, stack, attempt);
      var next, n := UndoLatest(s, attempt).value, |stack| - 1;
      UndoTimesRestores(next, stack[..n], k - 1, attempt);
      assert stack[..n] + [WorkspaceOf(next)] == stack;
    }
  }

  function Actives(revisions: seq<Revision>): seq<Revision> {
    if revisions == [] then []
    else
      var n := |revisions| - 1;
      Actives(revisions[..n]) + (if revisions[n].undone then [] else [revisions[n]])
  }

  /** Workspace `i` of the stack is what revision `r` started from, and `next` what it produced. */
  ghost predicate Bridges(r: Revision, before: Workspace, after: Workspace) {
    && r.fileId in before.files && before.files[r.fileId].content == r.beforeContent
    && r.fileId in after.files && Sha(after.files[r.fileId].content) == r.afterSha
  }

  /**
  The stack has one workspace per active revision, and each revision leads from its workspace to
  the next one. Two consecutive active revisions of one file therefore meet in one text.
  */
  lemma {:induction false} StackMatchesActives(w: Workspace, revisions: seq<Revision>, stack: seq<Workspace>)
    requires Unwinds(w, revisions, stack)
    ensures |stack| == |Actives(revisions)|
    ensures forall i :: 0 <= i < |stack| ==> Bridges(Actives(revisions)[i], stack[i], (stack + [w])[i + 1])
    decreases |revisions|
  {
    if revisions != [] {
      var n, m := |revisions| - 1, |stack| - 1;
      if revisions[n].undone {
        StackMatchesActives(w, revisions[..n], stack);
        assert Actives(revisions) == Actives(revisions[..n]);
      } else {
        StackMatchesActives(stack[m], revisions[..n], stack[..m]);
        assert stack[..m] + [stack[m]] == stack;
        forall i | 0 <= i < |stack| ensures Bridges(Actives(revisions)[i], stack[i], (stack + [w])[i + 1]) {
          if i < m {
            assert Bridges(Actives(revisions[..n])[i], stack[..m][i], (stack[..m] + [stack[m]])[i + 1]);
          }
        }
      }
    }
  }

  /** Undoing everything that is retained gives the text before the oldest retained revision. */
  lemma UndoEverything(s: Session, stack: seq<Workspace>, attempt: nat)
    requires Inv(s, stack) && Actives(s.revisions) != []
    ensures var oldest := Actives(s.revisions)[0];
            var r := UndoTimes(s, |Actives(s.revisions)|, attempt);
            && r.Ok?
            && oldest.fileId in r.value.files
            && r.value.files[oldest.fileId].content == oldest.beforeContent
            && stack != [] && WorkspaceOf(r.value) == stack[0]
  {
    StackMatchesActives(WorkspaceOf(s), s.revisions, stack);
    assert Bridges(Actives(s.revisions)[0], stack[0], (stack + [WorkspaceOf(s)])[1]);
    UndoTimesRestores(s, stack, |stack|, attempt);
  }

  lemma {:induction false} UndoneOf(s: Session, r: Revision, attempt: nat)
    requires s.status in {Completed, Failed} && s.revisions != [] && s.revisions[|s.revisions| - 1] == r && !r.undone
    requires r.fileId in s.files && Sha(s.files[r.fileId].content) == r.afterSha
    ensures var undone := Undone(s, r.id, attempt);
            && undone.Ok? && WorkspaceOf(undone.value) == Restore(WorkspaceOf(s), r)
            && undone.value.decisions == s.decisions - {r.findingId} && undone.value.states == s.states
  {
  }

  lemma {:induction false} ConfirmedEntries(
    s: Session, fix: PreparedFix, clean: bool, revisionId: string, attempt: nat
  )
    requires Confirmed(s, fix, clean, revisionId, attempt).Ok?
    ensures var confirmed := Confirmed(s, fix, clean, revisionId, attempt).value;
            && confirmed.decisions == s.decisions[fix.findingId := Fixed]
            && confirmed.states == s.states[fix.findingId := StateFixedPendingRevalidation]
  {
  }

  lemma {:induction false} UndoneAtOnce(
    s: Session, fix: PreparedFix, revisionId: string, attempt: nat, status: ReviewStatus
  )
    requires Confirmed(s, fix, true, revisionId, attempt).Ok?
    requires status in {Completed, Failed}
    ensures var confirmed := Confirmed(s, fix, true, revisionId, attempt).value.(status := status);
            var r := Undone(confirmed, revisionId, attempt + 1);
            && r.Ok? && WorkspaceOf(r.value) == WorkspaceOf(s)
            && r.value.decisions == s.decisions[fix.findingId := Fixed] - {fix.findingId}
            && r.value.states == s.states[fix.findingId := StateFixedPendingRevalidation]
  {
    RestoreUndoesConfirm(s, fix, true, revisionId, attempt);
    ConfirmedEntries(s, fix, true, revisionId, attempt);
    var confirmed := Confirmed(s, fix, true, revisionId, attempt).value.(status := status);
    UndoneOf(confirmed, confirmed.revisions[|confirmed.revisions| - 1], attempt + 1);
  }

  lemma {:induction false} EntryBack<K, V>(m: map<K, V>, key: K, value: V)
    ensures m[key := value] - {key} == m <==> key !in m
    ensures m[key := value] == m <==> key in m && m[key] == value
  {
    assert m[key := value][key] == value;
    assert key !in m[key := value] - {key};
  }

  /**
  Undoing a confirm at once restores files and ranges always, but the finding's decision exactly
  when it had none: undo removes the entry instead of bringing back an earlier one. The finding's
  state it leaves waiting for revalidation, so that is restored exactly when it was so before.
  */
  lemma {:induction false} UndoRestoresDecisionsExactly(
    s: Session, fix: PreparedFix, revisionId: string, attempt: nat, status: ReviewStatus
  )
    requires Confirmed(s, fix, true, revisionId, attempt).Ok?
    requires status in {Completed, Failed}
    ensures var confirmed := Confirmed(s, fix, true, revisionId, attempt).value.(status := status);
            var r := Undone(confirmed, revisionId, attempt + 1);
            && r.Ok?
            && WorkspaceOf(r.value) == WorkspaceOf(s)
            && (r.value.decisions == s.decisions <==> fix.findingId !in s.decisions)
            && (r.value.states == s.states <==>
                  fix.findingId in s.states && s.states[fix.findingId] == StateFixedPendingRevalidation)
  {
    UndoneAtOnce(s, fix, revisionId, attempt, status);
    EntryBack(s.decisions, fix.findingId, Fixed);
    EntryBack(s.states, fix.findingId, StateFixedPendingRevalidation);
  }

  /** A deferred finding that is repaired, and the repair undone, is no longer deferred but waits for revalidation. */
  lemma UndoLosesDecision(s: Session, revisionId: string)
    requires s.status == Completed && s.files == map["f" := SourceFile("p", "x\n")] && s.changedRanges == None
    requires s.findings == [Finding("i", "f", 1, 1)] && s.decisions == map["i" := Deferred] && s.revisions == []
    ensures var fix := PreparedFix("i", "f", Sha("x\n"), Sha("x\n"), "y\n", 1, 1, 1);
            var confirmed := Confirmed(s, fix, true, revisionId, 0);
            && confirmed.Ok?
            && var undone := Undone(confirmed.value.(status := Completed), revisionId, 1);
               && undone.Ok? && WorkspaceOf(undone.value) == WorkspaceOf(s)
               && undone.value.decisions == map[]
               && undone.value.states == s.states["i" := StateFixedPendingRevalidation]
  {
    var fix := PreparedFix("i", "f", Sha("x\n"), Sha("x\n"), "y\n", 1, 1, 1);
    UndoneAtOnce(s, fix, revisionId, 0, Completed);
    assert map["i" := Deferred]["i" := Fixed] - {"i"} == map[];
  }
}
