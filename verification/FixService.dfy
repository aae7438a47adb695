/** The ledger operations as the service performs them on a stored session. */
module FixService {
  import opened Wrappers
  import opened ReviewModels
  import opened FixLedger
  import opened FixReopen

  datatype ShownRevision = ShownRevision(revision: Revision, after: Option<string>)

  /** The loop over the session's findings. */
  method KeepFindings(findings: seq<Finding>, fix: PreparedFix, fileId: string) returns (remaining: seq<Finding>)
    ensures remaining == KeptFindings(findings, fix, fileId)
  {
    remaining := [];
    var delta := fix.replacementLines - (fix.fixEnd - fix.fixStart + 1);
    for i := 0 to |findings|
      invariant remaining == KeptFindings(findings[..i], fix, fileId)
    {
      var item := findings[i];
      assert findings[..i + 1][..i] == findings[..i];
      if item.id == fix.findingId {
        continue;
      }
      if item.fileId != fileId || item.endLine < fix.fixStart {
        remaining := remaining + [item];
        continue;
      }
      if item.startLine > fix.fixEnd {
        remaining := remaining + [item.(startLine := item.startLine + delta, endLine := item.endLine + delta)];
      }
    }
    assert findings[..|findings|] == findings;
  }

  /** The loop over the changed ranges of the repaired file. */
  method AdjustRanges(ranges: seq<LineRange>, fix: PreparedFix) returns (adjusted: seq<LineRange>)
    ensures adjusted == AdjustedRanges(ranges, fix)
  {
    adjusted := [];
    var delta := fix.replacementLines - (fix.fixEnd - fix.fixStart + 1);
    var replacementEnd := fix.fixStart + Max(1, fix.replacementLines) - 1;
    for i := 0 to |ranges|
      invariant adjusted == AdjustedRanges(ranges[..i], fix)
    {
      var changed := ranges[i];
      if changed.endLine < fix.fixStart {
        adjusted := adjusted + [changed];
      } else if changed.startLine > fix.fixEnd {
        adjusted := adjusted + [LineRange(changed.startLine + delta, changed.endLine + delta)];
      } else {
        adjusted := adjusted + [LineRange(Min(changed.startLine, fix.fixStart),
                                          Max(replacementEnd, changed.endLine + delta))];
      }
    }
    assert ranges[..|ranges|] == ranges;
  }

  function Max(a: int, b: int): int { if a > b then a else b }

  function Min(a: int, b: int): int { if a < b then a else b }

  /** The latest active revision is the last of the active ones. */
  lemma {:induction false} LatestOfActives(revisions: seq<Revision>)
    ensures LatestActive(revisions)
         == var active := Actives(revisions);
            if active == [] then None else Some(active[|active| - 1])
    decreases |revisions|
  {
    if revisions != [] {
      LatestOfActives(revisions[..|revisions| - 1]);
    }
  }

  class HybridReviewService {
    var session: Session

    constructor (s: Session)
      ensures session == s
    {
      session := s;
    }

    method ConfirmFix(fix: PreparedFix, clean: bool, revisionId: string, attempt: nat)
      returns (r: Result<Session, FixError>)
      modifies this
      ensures r == Confirmed(old(session), fix, clean, revisionId, attempt)
      ensures session == if r.Ok? then r.value else old(session)
    {
      if fix.fileId !in session.files {
        return Err(StaleRevision);
      }
      var source := session.files[fix.fileId];
      if Sha(source.content) != fix.baseSha {
        return Err(StaleRevision);
      }
      if Sha(source.content) != fix.scopeSha {
        return Err(StaleRevision);
      }
      var finding := LookupFinding(session, fix.findingId);
      if finding.None? {
        return Err(FindingGone);
      }
      if !clean {
        return Err(NewDiagnostics);
      }
      var remaining := KeepFindings(session.findings, fix, finding.value.fileId);
      var before: Option<seq<LineRange>> := None;
      var ranges := session.changedRanges;
      if session.changedRanges.Some? && source.path in session.changedRanges.value {
        before := Some(session.changedRanges.value[source.path]);
        var adjusted := AdjustRanges(before.value, fix);
        ranges := Some(session.changedRanges.value[source.path := adjusted]);
      }
      var revision := Revision(revisionId, fix.findingId, fix.fileId, source.path, source.content, before,
                               Sha(source.content), Sha(fix.revisedContent), false);
      session := session.(
        files := session.files[fix.fileId := source.(content := fix.revisedContent)],
        changedRanges := ranges,
        findings := remaining,
        decided := session.decided[fix.findingId := finding.value],
        decisions := session.decisions[fix.findingId := Fixed],
        states := session.states[fix.findingId := StateFixedPendingRevalidation],
        revisions := Retained(session.revisions + [revision]));
      if remaining == [] {
        session := Restarted(session, attempt);
      }
      return Ok(session);
    }

    method UndoRevision(revisionId: string, attempt: nat) returns (r: Result<Session, UndoError>)
      modifies this
      ensures r == Undone(old(session), revisionId, attempt)
      ensures session == if r.Ok? then r.value else old(session)
    {
      if session.status !in {Completed, Failed} {
        return Err(NotFinished);
      }
      var active := Actives(session.revisions);
      LatestOfActives(session.revisions);
      if active == [] || active[|active| - 1].id != revisionId {
        return Err(NotLatest);
      }
      var revision := active[|active| - 1];
      if revision.fileId !in session.files {
        return Err(FileGone);
      }
      var source := session.files[revision.fileId];
      if Sha(source.content) != revision.afterSha {
        return Err(FileChanged);
      }
      var ranges := session.changedRanges;
      if session.changedRanges.Some? && revision.beforeRanges.Some? {
        ranges := Some(session.changedRanges.value[revision.path := revision.beforeRanges.value]);
      }
      session := Restarted(
        session.(
          files := session.files[revision.fileId := source.(content := revision.beforeContent)],
          changedRanges := ranges,
          revisions := MarkUndone(session.revisions, revisionId),
          decisions := session.decisions - {revision.findingId}),
        attempt);
      return Ok(session);
    }

    method ReopenFinding(findingId: string) returns (r: Result<Reopening, ReopenError>)
      modifies this
      ensures r == Reopened(old(session), findingId)
      ensures session == if r.Ok? then r.value.session else old(session)
    {
      if session.status !in {Completed, Failed} {
        return Err(StillRunning);
      }
      if findingId !in session.decided {
        return Err(Unknown);
      }
      var retained := Retains(session.revisions, findingId);
      var listed := FindingWithId(session.findings, findingId).Some?;
      if findingId !in session.decisions && listed {
        return Ok(Reopening(session, retained, true));
      }
      if findingId !in session.decisions {
        return Err(NotDecided);
      }
      var active := session.findings;
      if !listed {
        active := active + [session.decided[findingId]];
      }
      session := session.(
        decisions := session.decisions - {findingId},
        states := session.states[findingId := StateReopened],
        findings := active);
      return Ok(Reopening(session, retained, false));
    }

    /** The history shown to the user, newest first, with the outcome each active revision had. */
    method Revisions() returns (shown: seq<ShownRevision>)
      ensures |shown| == |session.revisions|
      ensures forall i :: 0 <= i < |shown| ==>
                var entry := session.revisions[i];
                shown[|shown| - 1 - i] == ShownRevision(
                  entry, if entry.undone then None else AfterContent(session.files, session.revisions, i))
    {
      var revisions := session.revisions;
      var repaired: seq<ShownRevision> := [];
      for index := 0 to |revisions|
        invariant |repaired| == index
        invariant forall i :: 0 <= i < index ==>
                    repaired[i] == ShownRevision(
                      revisions[i], if revisions[i].undone then None else AfterContent(session.files, revisions, i))
      {
        var revision := revisions[index];
        var later := index + 1;
        while later < |revisions| && revisions[later].fileId != revision.fileId
          invariant index < later <= |revisions|
          invariant NextOfFile(revisions, index + 1, revision.fileId) == NextOfFile(revisions, later, revision.fileId)
        {
          later := later + 1;
        }
        var after :=
          if later < |revisions| then Some(revisions[later].beforeContent)
          else if revision.fileId in session.files then Some(session.files[revision.fileId].content)
          else None;
        repaired := repaired + [ShownRevision(revision, if revision.undone then None else after)];
      }
      shown := seq(|repaired|, i requires 0 <= i < |repaired| => repaired[|repaired| - 1 - i]);
    }
  }
}
