/** Targeted undo of permission repairs: assessing journal entries, the plan's eligibility, and
    setting the recorded old modes again. */
module PermissionUndo {
  import opened Basics
  import opened PlanTokens
  import opened RepairRuns

  /** A file, and which file a path names: different texts can name one file, as "" and "." do. */
  type FileId = nat

  type Locator = string -> FileId

  /** Permission bits, as S_IMODE gives them. */
  type Mode = m: nat | m < 4096

  type Modes = map<FileId, Mode>

  datatype UndoType = NoUndo | RestorePermissions | OtherUndo

  datatype EntryStatus = EntryApplied | EntryFailed | EntryOther

  datatype Payload = Payload(path: Option<string>, oldMode: Option<Mode>, newMode: Option<Mode>)

  datatype Entry = Entry(id: string, status: EntryStatus, undo: UndoType, payload: Payload, originalPath: Option<string>)

  datatype Eligibility = ReversibleNow | PartiallyReversible | RequiresFullRestore | NotReversible

  // ----- planning -----

  function Select(entries: seq<Entry>, ids: set<string>): (r: seq<Entry>)
    ensures forall e :: e in r <==> e in entries && if ids == {} then !e.undo.NoUndo? else e.id in ids
  {
    if entries == [] then []
    else
      var init, e := entries[..|entries| - 1], entries[|entries| - 1];
      assert entries == init + [e];
      if (if ids == {} then !e.undo.NoUndo? else e.id in ids) then Select(init, ids) + [e] else Select(init, ids)
  }

  /** The path an entry is assessed by: the payload's, or the entry's own when that is missing or empty. */
  function AssessedPath(e: Entry): string {
    if e.payload.path.Some? && e.payload.path.value != "" then e.payload.path.value
    else if e.originalPath.Some? then e.originalPath.value
    else ""
  }

  predicate HasData(e: Entry) {
    AssessedPath(e) != "" && e.payload.oldMode.Some? && e.payload.newMode.Some?
  }

  predicate Undoable(e: Entry) {
    e.status.EntryApplied? && e.undo.RestorePermissions?
  }

  function AssessedFile(at: Locator, e: Entry): FileId {
    at(AssessedPath(e))
  }

  function Assess(at: Locator, modes: Modes, e: Entry): Eligibility {
    if !HasData(e) then NotReversible
    else if AssessedFile(at, e) !in modes then RequiresFullRestore
    else if modes[AssessedFile(at, e)] != e.payload.newMode.value then RequiresFullRestore
    else if !Undoable(e) then NotReversible
    else ReversibleNow
  }

  predicate Blocked(run: RunStatus, entries: seq<Entry>, selected: seq<Entry>) {
    !run.RunCompleted? || selected == [] || exists e :: e in entries && e.status.EntryFailed?
  }

  function Assessments(at: Locator, modes: Modes, selected: seq<Entry>): set<Eligibility> {
    set e | e in selected :: Assess(at, modes, e)
  }

  function PlanEligibility(found: set<Eligibility>, blocked: bool): Eligibility {
    if blocked then RequiresFullRestore
    else if found == {} then NotReversible
    else if found == {ReversibleNow} then ReversibleNow
    else if RequiresFullRestore in found then RequiresFullRestore
    else if NotReversible in found then NotReversible
    else PartiallyReversible
  }

  function Plan(at: Locator, modes: Modes, run: RunStatus, entries: seq<Entry>, ids: set<string>): Eligibility {
    var selected := Select(entries, ids);
    PlanEligibility(Assessments(at, modes, selected), Blocked(run, entries, selected))
  }

  /** PARTIALLY_REVERSIBLE is never the outcome of a plan: a mixed selection is not reversible or
      requires a full restore. */
  lemma NeverPartiallyReversible(at: Locator, modes: Modes, run: RunStatus, entries: seq<Entry>, ids: set<string>)
    ensures !Plan(at, modes, run, entries, ids).PartiallyReversible?
  {
    var selected := Select(entries, ids);
    var found := Assessments(at, modes, selected);
    forall x | x in found ensures x.ReversibleNow? || x.RequiresFullRestore? || x.NotReversible? {
      var e :| e in selected && Assess(at, modes, e) == x;
    }
    if found != {} && RequiresFullRestore !in found && NotReversible !in found {
      forall x ensures x in found <==> x == ReversibleNow { var y :| y in found; }
      assert found == {ReversibleNow};
    }
  }

  /** A plan is reversible now exactly when the run completed without failed entries, something is
      selected, and every selected entry is an applied permission repair whose file still has the
      recorded new mode. */
  lemma ReversibleNowIff(at: Locator, modes: Modes, run: RunStatus, entries: seq<Entry>, ids: set<string>)
    ensures Plan(at, modes, run, entries, ids).ReversibleNow? <==>
            && run.RunCompleted? && Select(entries, ids) != []
            && (forall e :: e in entries ==> !e.status.EntryFailed?)
            && (forall e :: e in Select(entries, ids) ==> Undoable(e) && HasData(e) && AssessedFile(at, e) in modes
                                                          && modes[AssessedFile(at, e)] == e.payload.newMode.value)
  {
    var selected := Select(entries, ids);
    var found := Assessments(at, modes, selected);
    if selected != [] {
      assert Assess(at, modes, selected[0]) in found;
      if found == {ReversibleNow} {
        forall e | e in selected ensures Assess(at, modes, e).ReversibleNow? { assert Assess(at, modes, e) in found; }
      }
      if forall e :: e in selected ==> Assess(at, modes, e).ReversibleNow? {
        assert found == {ReversibleNow};
      }
    }
  }

  // ----- executing -----

  datatype ItemStatus = ItemApplied | ItemFailed

  /** None stands for an execution that raised: an entry without a path in its payload ends it. */
  datatype Execution = Execution(modes: Modes, items: Option<seq<ItemStatus>>)

  /** The file the payload names, if it names one. */
  function PayloadFile(at: Locator, e: Entry): Option<FileId> {
    if e.payload.path.Some? then Some(at(e.payload.path.value)) else None
  }

  /** The execution takes the path from the payload only. */
  function ExecuteOne(at: Locator, x: Execution, e: Entry, denied: set<FileId>): Execution {
    if x.items.None? then x
    else if e.payload.path.None? || e.payload.oldMode.None? then x.(items := None)
    else
      var f := at(e.payload.path.value);
      if f !in x.modes || f in denied then x.(items := Some(x.items.value + [ItemFailed]))
      else Execution(x.modes[f := e.payload.oldMode.value], Some(x.items.value + [ItemApplied]))
  }

  function ExecuteAll(at: Locator, modes: Modes, selected: seq<Entry>, denied: set<FileId>): Execution {
    if selected == [] then Execution(modes, Some([]))
    else ExecuteOne(at, ExecuteAll(at, modes, selected[..|selected| - 1], denied), selected[|selected| - 1], denied)
  }

  function Execute(at: Locator, modes: Modes, run: RunStatus, entries: seq<Entry>, ids: set<string>, apply: bool, denied: set<FileId>)
    : Execution
  {
    if !apply || !Plan(at, modes, run, entries, ids).ReversibleNow? then Execution(modes, Some([]))
    else ExecuteAll(at, modes, Select(entries, ids), denied)
  }

  /** Nothing but the modes of files that payloads of selected entries name ever changes, and no file
      appears. */
  lemma {:induction false} ExecuteFrame(at: Locator, modes: Modes, selected: seq<Entry>, denied: set<FileId>, f: FileId)
    ensures f in ExecuteAll(at, modes, selected, denied).modes <==> f in modes
    ensures f in modes && (forall e :: e in selected ==> PayloadFile(at, e) != Some(f)) ==>
              ExecuteAll(at, modes, selected, denied).modes[f] == modes[f]
  {
    if selected != [] {
      var n := |selected| - 1;
      ExecuteFrame(at, modes, selected[..n], denied, f);
      assert selected[n] in selected && forall e :: e in selected[..n] ==> e in selected;
    }
  }

  predicate PayloadComplete(e: Entry) {
    e.payload.path.Some? && e.payload.path.value != "" && e.payload.oldMode.Some?
  }

  /** Entries for one file record the same old mode. */
  ghost predicate OldModesAgree(at: Locator, selected: seq<Entry>) {
    forall d, e :: d in selected && e in selected && PayloadFile(at, d) == PayloadFile(at, e) ==>
      d.payload.oldMode == e.payload.oldMode
  }

  ghost predicate Undone(at: Locator, modes: Modes, selected: seq<Entry>) {
    forall e :: e in selected && PayloadComplete(e) && PayloadFile(at, e).value in modes ==>
      modes[PayloadFile(at, e).value] == e.payload.oldMode.value
  }

  ghost predicate AllThere(at: Locator, modes: Modes, selected: seq<Entry>, denied: set<FileId>) {
    forall e :: e in selected ==>
      PayloadComplete(e) && PayloadFile(at, e).value in modes && PayloadFile(at, e).value !in denied
  }

  lemma AllThereSplit(at: Locator, modes: Modes, selected: seq<Entry>, denied: set<FileId>)
    requires selected != [] && AllThere(at, modes, selected, denied)
    ensures AllThere(at, modes, selected[..|selected| - 1], denied)
    ensures var last := selected[|selected| - 1];
      PayloadComplete(last) && PayloadFile(at, last).value in modes && PayloadFile(at, last).value !in denied
  {
    assert selected[|selected| - 1] in selected;
    assert forall e :: e in selected[..|selected| - 1] ==> e in selected;
  }

  lemma AgreeSplit(at: Locator, init: seq<Entry>, last: Entry)
    requires OldModesAgree(at, init + [last])
    ensures OldModesAgree(at, init)
  {
    assert forall e :: e in init ==> e in init + [last];
  }

  lemma {:induction false} ExecuteApplies(at: Locator, modes: Modes, selected: seq<Entry>, denied: set<FileId>)
    requires AllThere(at, modes, selected, denied)
    ensures var x := ExecuteAll(at, modes, selected, denied);
      && x.items.Some? && |x.items.value| == |selected| && (forall i :: i in x.items.value ==> i.ItemApplied?)
      && (selected != [] ==>
            var last := selected[|selected| - 1];
            PayloadFile(at, last).value in x.modes && x.modes[PayloadFile(at, last).value] == last.payload.oldMode.value)
  {
    if selected != [] {
      var n := |selected| - 1;
      AllThereSplit(at, modes, selected, denied);
      ExecuteApplies(at, modes, selected[..n], denied);
      ExecuteFrame(at, modes, selected[..n], denied, PayloadFile(at, selected[n]).value);
    }
  }

  lemma OneMoreUndone(at: Locator, modes: Modes, init: seq<Entry>, last: Entry)
    requires Undone(at, modes, init) && OldModesAgree(at, init + [last]) && PayloadComplete(last)
    ensures Undone(at, modes[PayloadFile(at, last).value := last.payload.oldMode.value], init + [last])
  {
    var after := modes[PayloadFile(at, last).value := last.payload.oldMode.value];
    assert last in init + [last];
    forall e | e in init + [last] && PayloadComplete(e) && PayloadFile(at, e).value in after
      ensures after[PayloadFile(at, e).value] == e.payload.oldMode.value
    {
      if PayloadFile(at, e) != PayloadFile(at, last) { assert e in init; }
    }
  }

  lemma {:induction false} AgreementUndoes(at: Locator, modes: Modes, selected: seq<Entry>, denied: set<FileId>)
    requires AllThere(at, modes, selected, denied) && OldModesAgree(at, selected)
    ensures Undone(at, ExecuteAll(at, modes, selected, denied).modes, selected)
  {
    if selected != [] {
      var init, last := selected[..|selected| - 1], selected[|selected| - 1];
      assert selected == init + [last];
      AllThereSplit(at, modes, selected, denied);
      AgreeSplit(at, init, last);
      AgreementUndoes(at, modes, init, denied);
      ExecuteApplies(at, modes, init, denied);
      ExecuteFrame(at, modes, init, denied, PayloadFile(at, last).value);
      OneMoreUndone(at, ExecuteAll(at, modes, init, denied).modes, init, last);
    }
  }

  lemma DisagreementIsNotUndone(at: Locator, modes: Modes, selected: seq<Entry>)
    requires Undone(at, modes, selected)
    requires forall e :: e in selected ==> PayloadComplete(e) && PayloadFile(at, e).value in modes
    ensures OldModesAgree(at, selected)
  {
  }

  /** For a plan that is reversible now, with every payload naming its path and no chmod refused, the
      undo run completes; it leaves every selected file at its recorded old mode if and only if
      entries for one file agree on it; every other file keeps its mode. */
  lemma UndoRestoresOldModes(at: Locator, modes: Modes, run: RunStatus, entries: seq<Entry>, ids: set<string>, denied: set<FileId>)
    requires Plan(at, modes, run, entries, ids).ReversibleNow?
    requires forall e :: e in Select(entries, ids) ==> PayloadComplete(e) && PayloadFile(at, e).value !in denied
    ensures var x := Execute(at, modes, run, entries, ids, true, denied);
      && x.items.Some? && FinalStatus(x.items.value, ItemFailed, ItemApplied).RunCompleted?
      && (Undone(at, x.modes, Select(entries, ids)) <==> OldModesAgree(at, Select(entries, ids)))
      && x.modes.Keys == modes.Keys
      && forall f :: f in modes && (forall e :: e in Select(entries, ids) ==> PayloadFile(at, e) != Some(f)) ==> x.modes[f] == modes[f]
  {
    var selected := Select(entries, ids);
    ReversibleNowIff(at, modes, run, entries, ids);
    assert AllThere(at, modes, selected, denied);
    ExecuteApplies(at, modes, selected, denied);
    var x := Execute(at, modes, run, entries, ids, true, denied);
    forall f ensures f in x.modes <==> f in modes { ExecuteFrame(at, modes, selected, denied, f); }
    forall f | f in modes && (forall e :: e in selected ==> PayloadFile(at, e) != Some(f)) ensures x.modes[f] == modes[f] {
      ExecuteFrame(at, modes, selected, denied, f);
    }
    if OldModesAgree(at, selected) { AgreementUndoes(at, modes, selected, denied); }
    if Undone(at, x.modes, selected) { DisagreementIsNotUndone(at, x.modes, selected); }
  }

  /** In every other eligibility, and in a dry run, no mode changes. */
  lemma NothingElseChangesModes(at: Locator, modes: Modes, run: RunStatus, entries: seq<Entry>, ids: set<string>, apply: bool,
                                denied: set<FileId>)
    requires Execute(at, modes, run, entries, ids, apply, denied).modes != modes
    ensures apply && Plan(at, modes, run, entries, ids).ReversibleNow?
  {
  }

  lemma {:induction false} RaisedIff(at: Locator, modes: Modes, selected: seq<Entry>, denied: set<FileId>)
    ensures ExecuteAll(at, modes, selected, denied).items.None? <==>
            exists e :: e in selected && (e.payload.path.None? || e.payload.oldMode.None?)
  {
    if selected != [] {
      var n := |selected| - 1;
      assert selected == selected[..n] + [selected[n]];
      RaisedIff(at, modes, selected[..n], denied);
    }
  }

  /** The plan can promise what the execution cannot do: an applicable plan raises, with the entries
      before already undone, exactly when a selected payload has no path of its own. */
  lemma ApplicablePlanRaisesIff(at: Locator, modes: Modes, run: RunStatus, entries: seq<Entry>, ids: set<string>, denied: set<FileId>)
    requires Plan(at, modes, run, entries, ids).ReversibleNow?
    ensures Execute(at, modes, run, entries, ids, true, denied).items.None? <==>
            exists e :: e in Select(entries, ids) && e.payload.path.None?
  {
    ReversibleNowIff(at, modes, run, entries, ids);
    RaisedIff(at, modes, Select(entries, ids), denied);
  }

  lemma SelectSingle(e: Entry)
    ensures Select([e], {}) == if e.undo.NoUndo? then [] else [e]
  {
    assert [e][..0] == [] && Select([], {}) == [];
  }

  lemma ExecuteSingle(at: Locator, modes: Modes, e: Entry, denied: set<FileId>)
    ensures ExecuteAll(at, modes, [e], denied) == ExecuteOne(at, Execution(modes, Some([])), e, denied)
  {
    assert [e][..0] == [] && ExecuteAll(at, modes, [], denied) == Execution(modes, Some([]));
  }

  /** The file that one entry was assessed by gets its old mode exactly when the payload names that file,
      by whatever path, and its mode can be set, or when it has that mode already. */
  lemma UndoReachesAssessedFileIff(at: Locator, modes: Modes, e: Entry, denied: set<FileId>)
    requires Plan(at, modes, RunCompleted, [e], {}).ReversibleNow?
    ensures var f, after := AssessedFile(at, e), Execute(at, modes, RunCompleted, [e], {}, true, denied).modes;
      && f in modes && f in after
      && (e.payload.oldMode == Some(after[f]) <==>
          (PayloadFile(at, e) == Some(f) && f !in denied) || e.payload.oldMode == Some(modes[f]))
  {
    SelectSingle(e);
    ReversibleNowIff(at, modes, RunCompleted, [e], {});
    assert e in Select([e], {});
    ExecuteSingle(at, modes, e, denied);
  }

  // ----- where every file ends -----

  predicate Raises(e: Entry) {
    e.payload.path.None? || e.payload.oldMode.None?
  }

  /** The entries before the first one that raises. */
  function Performed(selected: seq<Entry>): (r: seq<Entry>)
    ensures |r| <= |selected|
  {
    if selected == [] then []
    else
      var n := |selected| - 1;
      var before := Performed(selected[..n]);
      if |before| < n || Raises(selected[n]) then before else before + [selected[n]]
  }

  /** The old mode of the last entry whose payload names the file. */
  function LastMode(at: Locator, performed: seq<Entry>, f: FileId): Option<Mode> {
    if performed == [] then None
    else
      var last := performed[|performed| - 1];
      if PayloadFile(at, last) == Some(f) then last.payload.oldMode else LastMode(at, performed[..|performed| - 1], f)
  }

  lemma {:induction false} PerformedAllIff(at: Locator, modes: Modes, selected: seq<Entry>, denied: set<FileId>)
    ensures |Performed(selected)| == |selected| <==> ExecuteAll(at, modes, selected, denied).items.Some?
  {
    if selected != [] { PerformedAllIff(at, modes, selected[..|selected| - 1], denied); }
  }

  /** A file ends with the old mode of the last performed entry whose payload names it, unless its mode
      cannot be set or no payload names it. */
  lemma {:induction false} FinalModeIs(at: Locator, modes: Modes, selected: seq<Entry>, denied: set<FileId>, f: FileId)
    requires f in modes
    ensures var after, last := ExecuteAll(at, modes, selected, denied).modes, LastMode(at, Performed(selected), f);
      f in after && after[f] == if f in denied || last.None? then modes[f] else last.value
  {
    if selected != [] {
      var n := |selected| - 1;
      FinalModeIs(at, modes, selected[..n], denied, f);
      PerformedAllIff(at, modes, selected[..n], denied);
      var before := Performed(selected[..n]);
      assert (before + [selected[n]])[..|before|] == before;
      ExecuteFrame(at, modes, selected[..n], denied, f);
      PerformedPrefix(selected[..n]);
    }
  }

  lemma {:induction false} PerformedPrefix(selected: seq<Entry>)
    ensures forall e :: e in Performed(selected) ==> !Raises(e)
  {
    if selected != [] { PerformedPrefix(selected[..|selected| - 1]); }
  }

  /** The same for every entry of an undo, whatever the others do and even if one raises: its file ends at
      the entry's old mode exactly when the last performed entry for that file recorded this mode, or
      the file had it and nothing could set another. */
  lemma UndoReachesEachFileIff(at: Locator, modes: Modes, run: RunStatus, entries: seq<Entry>, ids: set<string>,
                               denied: set<FileId>, e: Entry)
    requires Plan(at, modes, run, entries, ids).ReversibleNow? && e in Select(entries, ids)
    ensures var f, after := AssessedFile(at, e), Execute(at, modes, run, entries, ids, true, denied).modes;
      var last := LastMode(at, Performed(Select(entries, ids)), f);
      && f in modes && f in after
      && (e.payload.oldMode == Some(after[f]) <==>
          e.payload.oldMode == if f in denied || last.None? then Some(modes[f]) else last)
  {
    ReversibleNowIff(at, modes, run, entries, ids);
    FinalModeIs(at, modes, Select(entries, ids), denied, AssessedFile(at, e));
  }

  lemma SinglePlan(at: Locator, modes: Modes, e: Entry)
    requires Assess(at, modes, e).ReversibleNow?
    ensures Plan(at, modes, RunCompleted, [e], {}).ReversibleNow?
  {
    SelectSingle(e);
    ReversibleNowIff(at, modes, RunCompleted, [e], {});
  }

  lemma EmptyPathIsExecuted(at: Locator, modes: Modes, e: Entry)
    requires e.payload.path == Some("") && e.payload.oldMode.Some? && at("") in modes
    ensures ExecuteAll(at, modes, [e], {}).modes == modes[at("") := e.payload.oldMode.value]
  {
    ExecuteSingle(at, modes, e, {});
  }

  lemma EmptyPathIsAssessed(at: Locator, modes: Modes, e: Entry, p: string)
    requires Undoable(e) && e.payload.path == Some("") && e.originalPath == Some(p) && p != "" && at(p) in modes
    requires e.payload.oldMode.Some? && e.payload.newMode == Some(modes[at(p)])
    ensures Assess(at, modes, e).ReversibleNow?
  {
    assert AssessedPath(e) == p;
  }

  /** An empty payload path is assessed by the entry's own path but executed on the empty path, the
      current directory: if that is another file, the assessed one keeps its mode and the directory
      gets it. */
  lemma EmptyPathUndoesElsewhere(at: Locator, modes: Modes, e: Entry, p: string)
    requires Undoable(e) && e.payload.path == Some("") && e.originalPath == Some(p) && p != "" && at("") != at(p)
    requires at("") in modes && at(p) in modes
    requires e.payload.oldMode.Some? && e.payload.newMode == Some(modes[at(p)]) && e.payload.oldMode.value != modes[at(p)]
    ensures Plan(at, modes, RunCompleted, [e], {}).ReversibleNow?
    ensures var after := Execute(at, modes, RunCompleted, [e], {}, true, {}).modes;
      after == modes[at("") := e.payload.oldMode.value] && after[at(p)] == modes[at(p)] != e.payload.oldMode.value
  {
    EmptyPathIsAssessed(at, modes, e, p);
    SinglePlan(at, modes, e);
    SelectSingle(e);
    EmptyPathIsExecuted(at, modes, e);
    assert Execute(at, modes, RunCompleted, [e], {}, true, {}) == ExecuteAll(at, modes, [e], {});
  }

  // ----- in place -----

  /** What the plan of an undo is fixed by: the selected entries, and the state of their files. */
  type UndoToken = PlanToken<seq<string>, seq<string>, seq<Option<Mode>>>

  function EntryIds(selected: seq<Entry>): seq<string> {
    seq(|selected|, i requires 0 <= i < |selected| => selected[i].id)
  }

  function FileStates(at: Locator, modes: Modes, selected: seq<Entry>): seq<Option<Mode>> {
    seq(|selected|, i requires 0 <= i < |selected| =>
      if AssessedFile(at, selected[i]) in modes then Some(modes[AssessedFile(at, selected[i])]) else None)
  }

  class UndoTarget {
    const at: Locator
    var modes: Modes
    var journal: seq<ItemStatus>

    /** The status of the undo run, once there is one; RunOther while it is running. */
    var undoRun: Option<RunStatus>

    constructor (at: Locator, modes: Modes)
      ensures this.at == at && this.modes == modes && journal == [] && undoRun.None?
    {
      this.at, this.modes, journal, undoRun := at, modes, [], None;
    }

    /** Set the recorded mode and write a journal entry; false when the payload makes it raise. */
    method ExecuteEntry(e: Entry, denied: set<FileId>) returns (status: Option<ItemStatus>)
      modifies `modes, `journal
      ensures status.None? <==> e.payload.path.None? || e.payload.oldMode.None?
      ensures status.None? ==> modes == old(modes) && journal == old(journal)
      ensures status.Some? ==> Execution(modes, Some(journal)) == ExecuteOne(at, Execution(old(modes), Some(old(journal))), e, denied)
                               && journal == old(journal) + [status.value]
    {
      if e.payload.path.None? || e.payload.oldMode.None? {
        return None;
      }
      var f := at(e.payload.path.value);
      if f !in modes || f in denied {
        status := Some(ItemFailed);
      } else {
        modes := modes[f := e.payload.oldMode.value];
        status := Some(ItemApplied);
      }
      journal := journal + [status.value];
    }

    /** The loop over the selected entries, up to one that raises. */
    method ExecuteEntries(selected: seq<Entry>, denied: set<FileId>) returns (returned: bool)
      requires journal == []
      modifies `modes, `journal
      ensures var x := ExecuteAll(at, old(modes), selected, denied);
        modes == x.modes && returned == x.items.Some? && (returned ==> journal == x.items.value)
    {
      for i := 0 to |selected|
        invariant ExecuteAll(at, old(modes), selected[..i], denied) == Execution(modes, Some(journal))
      {
        assert selected[..i + 1][..i] == selected[..i];
        var status := ExecuteEntry(selected[i], denied);
        if status.None? {
          RaisedEarly(at, old(modes), selected, denied, i + 1);
          return false;
        }
      }
      assert selected[..|selected|] == selected;
      returned := true;
    }

    /** False when an entry raises: the entries before it stay undone and the undo run stays running. The
        token is made and checked within the call, so only the time between can make it invalid. */
    method ExecuteUndo(run: RunStatus, entries: seq<Entry>, ids: set<string>, apply: bool, denied: set<FileId>, created: int,
                       checked: int) returns (returned: bool)
      requires journal == []
      modifies this
      ensures var allowed := apply && Plan(at, old(modes), run, entries, ids).ReversibleNow?;
        var x := Execute(at, old(modes), run, entries, ids, apply, denied);
        if allowed && checked > created + LIFETIME
        then returned && modes == old(modes) && journal == [] && undoRun == Some(RunFailed)
        else
          && modes == x.modes && returned == x.items.Some? && (returned ==> journal == x.items.value)
          && undoRun == if !allowed then old(undoRun)
                        else if returned then Some(FinalStatus(journal, ItemFailed, ItemApplied)) else Some(RunOther)
    {
      if !apply || !Plan(at, modes, run, entries, ids).ReversibleNow? {
        return true;
      }
      var selected := Select(entries, ids);
      var states := FileStates(at, modes, selected);
      var token: UndoToken := CreateToken(EntryIds(selected), EntryIds(selected), states, created);
      undoRun := Some(RunOther);
      if !IsValid(token, EntryIds(selected), EntryIds(selected), states, checked) {
        undoRun := Some(RunFailed);
        return true;
      }
      returned := ExecuteEntries(selected, denied);
      if returned {
        undoRun := Some(FinalStatus(journal, ItemFailed, ItemApplied));
      }
    }
  }

  lemma {:induction false} RaisedEarly(at: Locator, modes: Modes, selected: seq<Entry>, denied: set<FileId>, n: nat)
    requires n <= |selected| && ExecuteAll(at, modes, selected[..n], denied).items.None?
    ensures ExecuteAll(at, modes, selected, denied) == ExecuteAll(at, modes, selected[..n], denied)
    decreases |selected| - n
  {
    if n < |selected| {
      assert selected[..n + 1][..n] == selected[..n];
      RaisedEarly(at, modes, selected, denied, n + 1);
    } else {
      assert selected[..n] == selected;
    }
  }
}
