/**
Reopening a decided finding (hybrid_review_service.py, `reopen_finding`). Its entry in `decided` keeps
the lines it had when the decision was made; repairs confirmed since then may have moved its text.
*/
module FixReopen {
  import opened Wrappers
  import opened ReviewModels
  import opened Text
  import opened FixSplice
  import opened FixLedger
  import opened FixRemap

  datatype ReopenError = StillRunning | Unknown | NotDecided

  datatype Reopening = Reopening(session: Session, revisionRetained: bool, alreadyOpen: bool)

  predicate Retains(revisions: seq<Revision>, findingId: string) {
    exists i :: 0 <= i < |revisions| && revisions[i].findingId == findingId && !revisions[i].undone
  }

  function Reopened(s: Session, id: string): Result<Reopening, ReopenError> {
    if s.status !in {Completed, Failed} then Err(StillRunning)
    else if id !in s.decided then Err(Unknown)
    else
      var listed := FindingWithId(s.findings, id).Some?;
      if id !in s.decisions then
        if listed then Ok(Reopening(s, Retains(s.revisions, id), true)) else Err(NotDecided)
      else
        var reopened := s.(
          decisions := s.decisions - {id},
          states := s.states[id := StateReopened],
          findings := if listed then s.findings else s.findings + [s.decided[id]]);
        Ok(Reopening(reopened, Retains(s.revisions, id), false))
  }

  // ---------------------------------------------------------------------------------------------
  // Where the text under a finding goes

  /** Where the text is and how far repairs have moved it; nowhere once a repair has touched it. */
  datatype Track = Track(place: Option<Finding>, shift: int)

  /** The track, and what it was before each repair that can be taken back. */
  datatype Trail = Trail(at: Track, before: seq<Track>)

  function Moved(at: Track, fix: PreparedFix): Track {
    match at.place
    case None => at
    case Some(item) =>
      Track(Remapped(item, fix, fix.fileId),
            if item.fileId == fix.fileId && item.startLine > fix.fixEnd then at.shift + LineDelta(fix) else at.shift)
  }

  predicate Takes(s: Session, step: Step) {
    step.Confirm? && Confirmed(s, step.fix, step.clean, step.revisionId, step.attempt).Ok?
  }

  predicate Reverts(s: Session, step: Step) {
    step.Undo? && Undone(s, step.revisionId, step.attempt).Ok?
  }

  /** A repair moves the text, an undo takes the newest move back. */
  function Traced(s: Session, step: Step, t: Trail): Trail {
    if Takes(s, step) then Trail(Moved(t.at, step.fix), t.before + [t.at])
    else if Reverts(s, step) && t.before != [] then OneBack(t)
    else t
  }

  function Followed(s: Session, steps: seq<Step>, t: Trail): Trail
    decreases |steps|
  {
    if steps == [] then t else Followed(Apply(s, steps[0]), steps[1..], Traced(s, steps[0], t))
  }

  function Begun(item: Finding): Trail {
    Trail(Track(Some(item), 0), [])
  }

  /** A step that applies only true candidates, undoes only repairs of the trail, and leaves the decided entry alone. */
  predicate Trackable(s: Session, step: Step, t: Trail, item: Finding) {
    && (Takes(s, step) ==> Accurate(s.files[step.fix.fileId].content, step.fix))
    && (Reverts(s, step) ==> t.before != [])
    && item.id in Apply(s, step).decided && Apply(s, step).decided[item.id] == item
  }

  predicate AllTrackable(s: Session, steps: seq<Step>, t: Trail, item: Finding)
    decreases |steps|
  {
    if steps == [] then item.id in s.decided && s.decided[item.id] == item
    else
      && Trackable(s, steps[0], t, item)
      && AllTrackable(Apply(s, steps[0]), steps[1..], Traced(s, steps[0], t), item)
  }

  /** If the track has a place, the text stands there, at the finding's lines moved by the shift. */
  ghost predicate Sited(files: map<string, SourceFile>, at: Track, item: Finding, text: seq<string>) {
    at.place.Some? ==>
      && WellPlaced(files, at.place.value) && Denoted(files, at.place.value) == text
      && at.place.value == item.(startLine := item.startLine + at.shift, endLine := item.endLine + at.shift)
  }

  /** The trail tells the truth about the files of the session and about those that undoing will bring back. */
  ghost predicate TrailOk(
    files: map<string, SourceFile>, stack: seq<Workspace>, t: Trail, item: Finding, text: seq<string>
  )
    decreases |stack|
  {
    && Sited(files, t.at, item, text)
    && (stack != [] && t.before != [] ==>
          TrailOk(stack[|stack| - 1].files, stack[..|stack| - 1], OneBack(t), item, text))
  }

  function OneBack(t: Trail): Trail
    requires t.before != []
  {
    Trail(t.before[|t.before| - 1], t.before[..|t.before| - 1])
  }

  lemma {:induction false} MovedSited(
    files: map<string, SourceFile>, fix: PreparedFix, at: Track, item: Finding, text: seq<string>
  )
    requires fix.fileId in files && Accurate(files[fix.fileId].content, fix) && Sited(files, at, item, text)
    ensures Sited(Revised(files, fix), Moved(at, fix), item, text)
  {
    if Moved(at, fix).place.Some? {
      RemappedDenotesSame(files, fix, at.place.value);
    }
  }

  /** Forgetting the oldest workspace. */
  lemma {:induction false} ForgottenKeepsTrail(
    files: map<string, SourceFile>, stack: seq<Workspace>, t: Trail, item: Finding, text: seq<string>
  )
    requires TrailOk(files, stack, t, item, text) && stack != []
    ensures TrailOk(files, stack[1..], t, item, text)
    decreases |stack|
  {
    var n := |stack| - 1;
    if n > 0 && t.before != [] {
      ForgottenKeepsTrail(stack[n].files, stack[..n], OneBack(t), item, text);
      assert stack[1..][n - 1] == stack[n] && stack[1..][..n - 1] == stack[..n][1..];
    }
  }

  lemma {:induction false} TakenKeepsTrail(
    w: Workspace, stack: seq<Workspace>, fix: PreparedFix, t: Trail, item: Finding, text: seq<string>
  )
    requires TrailOk(w.files, stack, t, item, text)
    requires fix.fileId in w.files && Accurate(w.files[fix.fileId].content, fix)
    ensures TrailOk(Revised(w.files, fix), stack + [w], Trail(Moved(t.at, fix), t.before + [t.at]), item, text)
  {
    MovedSited(w.files, fix, t.at, item, text);
    var longer, before := stack + [w], t.before + [t.at];
    assert longer[..|longer| - 1] == stack && before[..|before| - 1] == t.before;
    assert OneBack(Trail(Moved(t.at, fix), before)) == t;
  }

  lemma {:induction false} StepKeepsTrail(
    s: Session, stack: seq<Workspace>, step: Step, t: Trail, item: Finding, text: seq<string>
  )
    requires Inv(s, stack) && Trackable(s, step, t, item) && TrailOk(s.files, stack, t, item, text)
    ensures TrailOk(Apply(s, step).files, Stacked(s, stack, step), Traced(s, step, t), item, text)
  {
    if Takes(s, step) {
      var kept := if Forgets(s.revisions, stack) then stack[1..] else stack;
      if Forgets(s.revisions, stack) {
        ForgottenKeepsTrail(s.files, stack, t, item, text);
      }
      TakenKeepsTrail(WorkspaceOf(s), kept, step.fix, t, item, text);
      assert Apply(s, step).files == Revised(s.files, step.fix);
    } else if Reverts(s, step) {
      PopLatest(WorkspaceOf(s), s.revisions, stack);
      UndoKeepsInv(s, stack, step.attempt);
    }
  }

  /**
  Over any repairs, undos and other activity, the text of a finding that no repair in force has touched stands
  where the trail says: its old lines, moved by what the repairs in force above it add up to.
  */
  lemma {:induction false} FollowedDenotesSame(
    s: Session, stack: seq<Workspace>, steps: seq<Step>, t: Trail, item: Finding, text: seq<string>
  )
    requires Inv(s, stack) && FreshIds(s, steps)
    requires AllTrackable(s, steps, t, item) && TrailOk(s.files, stack, t, item, text)
    ensures TrailOk(Run(s, steps).files, RunStack(s, stack, steps), Followed(s, steps, t), item, text)
    ensures item.id in Run(s, steps).decided && Run(s, steps).decided[item.id] == item
    decreases |steps|
  {
    if steps != [] {
      StepKeepsInv(s, stack, steps[0]);
      StepKeepsTrail(s, stack, steps[0], t, item, text);
      var next, trail := Apply(s, steps[0]), Traced(s, steps[0], t);
      FollowedDenotesSame(next, Stacked(s, stack, steps[0]), steps[1..], trail, item, text);
    }
  }

  lemma {:induction false} AppendedFound(findings: seq<Finding>, item: Finding)
    requires FindingWithId(findings, item.id).None?
    ensures FindingWithId(findings + [item], item.id) == Some(item)
  {
    if findings != [] {
      assert (findings + [item])[1..] == findings[1..] + [item];
      AppendedFound(findings[1..], item);
    }
  }

  /**
  A finding decided away and reopened after any number of repairs and undos comes back at its old lines. They are
  the lines of its text exactly when no repair in force has touched it and those above it add up to no shift.
  */
  lemma {:induction false} ReopenedStandsExactly(s: Session, stack: seq<Workspace>, steps: seq<Step>, item: Finding)
    requires Inv(s, stack) && FreshIds(s, steps)
    requires WellPlaced(s.files, item) && AllTrackable(s, steps, Begun(item), item)
    requires var after := Run(s, steps);
             && after.status in {Completed, Failed} && item.id in after.decisions
             && FindingWithId(after.findings, item.id).None?
    ensures var after, at, r := Run(s, steps), Followed(s, steps, Begun(item)).at, Reopened(Run(s, steps), item.id);
            && r.Ok? && r.value.session.files == after.files
            && FindingWithId(r.value.session.findings, item.id) == Some(item)
            && Sited(after.files, at, item, Denoted(s.files, item))
            && (at.place == Some(item) <==> at.place.Some? && at.shift == 0)
  {
    FollowedDenotesSame(s, stack, steps, Begun(item), item, Denoted(s.files, item));
    AppendedFound(Run(s, steps).findings, item);
  }

  const TwoLines := "a\nb\n"

  lemma {:induction false} TwoLinesSplit()
    ensures Lines(TwoLines) == ["a\n", "b\n"]
  {
    assert Join(["a\n", "b\n"]) == TwoLines;
    LinesJoin(["a\n", "b\n"]);
  }

  lemma {:induction false} FirstLineDoubled(findingId: string, content: string)
    requires content == TwoLines
    ensures |Lines(content)| == 2
    ensures var fix := SpanCandidate(findingId, "f", content, 1, 1, "x\ny");
            && Lines(fix.revisedContent) == ["x\n", "y\n", "b\n"]
            && fix.baseSha == fix.scopeSha == Sha(content) && fix.fileId == "f" && fix.findingId == findingId
  {
    TwoLinesSplit();
    assert TrimRight(TrimLeft("x\ny")) == "x\ny";
    assert Join(["x\n", "y\n", "b\n"]) == "x\ny\nb\n";
    LinesJoin(["x\n", "y\n", "b\n"]);
    assert Join([]) == "" && Join(["b\n"]) == "b\n";
    assert SpliceLines(content, 1, 1, "x\ny") == "x\ny\nb\n";
  }

  lemma {:induction false} CleanRepairTaken(s: Session, fix: PreparedFix, id: string, revisionId: string, attempt: nat)
    requires fix.fileId in s.files && fix.baseSha == fix.scopeSha == Sha(s.files[fix.fileId].content)
    requires LookupFinding(s, fix.findingId).Some? && id in s.decided && id != fix.findingId
    ensures var r := Confirmed(s, fix, true, revisionId, attempt);
            && r.Ok? && r.value.files == Revised(s.files, fix)
            && id in r.value.decided && r.value.decided[id] == s.decided[id]
  {
  }

  lemma {:induction false} DenotedLine(files: map<string, SourceFile>, item: Finding, lines: seq<string>)
    requires WellPlaced(files, item) && item.startLine == item.endLine && Lines(files[item.fileId].content) == lines
    ensures Denoted(files, item) == [lines[item.startLine - 1]]
  {
  }

  /** A repair that turns line 1 into two leaves a dismissed finding of line 2 at a line of the replacement. */
  lemma {:induction false} ReopenedElsewhere(
    s: Session, content: string, fix: PreparedFix, revisionId: string, attempt: nat
  )
    requires content == TwoLines && s.files == map["f" := SourceFile("p", content)]
    requires "i" in s.decided && s.decided["i"] == Finding("i", "f", 2, 2) && LookupFinding(s, "j").Some?
    requires |Lines(content)| == 2 && fix == SpanCandidate("j", "f", content, 1, 1, "x\ny")
    ensures var r := Confirmed(s, fix, true, revisionId, attempt);
            && r.Ok? && "i" in r.value.decided && r.value.decided["i"] == s.decided["i"]
            && WellPlaced(s.files, s.decided["i"]) && Denoted(s.files, s.decided["i"]) == ["b\n"]
            && WellPlaced(r.value.files, s.decided["i"]) && Denoted(r.value.files, s.decided["i"]) == ["y\n"]
  {
    TwoLinesSplit();
    FirstLineDoubled("j", content);
    CleanRepairTaken(s, fix, "i", revisionId, attempt);
    DenotedLine(s.files, s.decided["i"], ["a\n", "b\n"]);
    DenotedLine(Revised(s.files, fix), s.decided["i"], ["x\n", "y\n", "b\n"]);
  }
}
