/** Runs of the generator over a definition: what a run completes, when it changes nothing, and when its
    result is the one on disk. */
module DefinitionRuns {
  import opened Wrappers
  import opened Definition

  // ---------------------------------------------------------------- what is complete

  predicate EntryDone(s: SignalDef, n: nat) {
    && s.uuid.Some? && s.description.Some? && s.argumentNames.Some? && s.ignore.Some? && s.brief.Some?
    && s.displayName.Some?
    && (s.ignore.value || |s.argumentNames.value| >= n)
  }

  /** The signal has an entry, and the last one with its name needs nothing. */
  predicate SignalDone(d: Def, sig: Signal) {
    && ListOf(d, sig.isAction).Some?
    && var l := ListOf(d, sig.isAction).value;
       FindLast(l, sig.name).Some? && EntryDone(l[FindLast(l, sig.name).value], sig.paramCount)
  }

  predicate SignalsDone(d: Def, sigs: seq<Signal>) {
    forall i :: 0 <= i < |sigs| ==> SignalDone(d, sigs[i])
  }

  predicate ParamsDone(p: Params) {
    && p.list.Some? && p.defaultValues.Some? && p.controlGet.Some? && p.controlSet.Some?
    && p.ignore.Some? && p.mandatory.Some?
  }

  predicate PropertyDone(p: Params, prop: Property)
    requires p.list.Some? && p.ignore.Some?
  {
    prop.name in SKIP_LIST || (prop.name in p.list.value && (prop.writable || prop.name in p.ignore.value))
  }

  predicate PropertiesDone(p: Params, props: seq<Property>)
    requires p.list.Some? && p.ignore.Some?
  {
    forall i :: 0 <= i < |props| ==> PropertyDone(p, props[i])
  }

  predicate RestDone(d: Def, e: Element) {
    && d.params.Some? && ParamsDone(d.params.value) && PropertiesDone(d.params.value, e.properties)
    && (NeedsControl(d.params.value) ==> d.control.Some? && d.control.value.uuid.Some?)
    && d.extraHeaders.Some?
  }

  /** The definition has all that the element calls for. */
  predicate Complete(d: Def, e: Element) {
    d.className.Some? && SignalsDone(d, e.signals) && RestDone(d, e)
  }

  // ---------------------------------------------------------------- signals

  lemma {:induction false} FillIdle(s: SignalDef, n: nat, uuid: string)
    ensures Fill(s, n, uuid) == s <==> EntryDone(s, n)
    ensures EntryDone(Fill(s, n, uuid), n)
    ensures forall m :: EntryDone(s, m) ==> EntryDone(Fill(s, n, uuid), m)
  {
  }

  lemma {:induction false} FindLastIs(defs: seq<SignalDef>, name: string, k: nat)
    requires k < |defs| && defs[k].name == name && forall j :: k < j < |defs| ==> defs[j].name != name
    ensures FindLast(defs, name) == Some(k)
  {
  }

  /** Where an entry is found after another signal has been filled in. */
  lemma {:induction false} FindAfter(defs: seq<SignalDef>, sig: Signal, uuid: string, name: string)
    ensures var l := FillList(defs, sig, uuid);
      && (name == sig.name && FindLast(defs, name).Some? ==> FindLast(l, name) == FindLast(defs, name))
      && (name == sig.name && FindLast(defs, name).None? ==> FindLast(l, name) == Some(|defs|))
      && (name != sig.name ==> FindLast(l, name) == FindLast(defs, name))
      && (name != sig.name && FindLast(defs, name).Some? ==>
            l[FindLast(defs, name).value] == defs[FindLast(defs, name).value])
  {
    var l := FillList(defs, sig, uuid);
    var k := FindLast(defs, name);
    assert forall j :: 0 <= j < |defs| ==> l[j].name == defs[j].name;
    if k.Some? {
      FindLastIs(l, name, k.value);
    } else if name == sig.name {
      FindLastIs(l, name, |defs|);
    }
  }

  lemma {:induction false} StepIdle(d: Def, sig: Signal, uuid: string)
    ensures SignalStep(d, sig, uuid) == d <==> SignalDone(d, sig)
    ensures SignalDone(SignalStep(d, sig, uuid), sig)
  {
    var l := ListOrEmpty(d, sig.isAction);
    var l' := FillList(l, sig, uuid);
    FindAfter(l, sig, uuid, sig.name);
    match FindLast(l, sig.name) {
      case Some(k) =>
        FillIdle(l[k], sig.paramCount, uuid);
        assert l'[k] == Fill(l[k], sig.paramCount, uuid);
        if EntryDone(l[k], sig.paramCount) { assert l' == l; }
      case None =>
        FillIdle(NewEntry(sig.name), sig.paramCount, uuid);
        assert |l'| > |l|;
    }
  }

  lemma {:induction false} StepKeepsDone(d: Def, sig: Signal, uuid: string, other: Signal)
    requires SignalDone(d, other)
    ensures SignalDone(SignalStep(d, sig, uuid), other)
  {
    if other.isAction == sig.isAction {
      var l := ListOrEmpty(d, sig.isAction);
      var k := FindLast(l, other.name).value;
      FindAfter(l, sig, uuid, other.name);
      FillIdle(l[k], sig.paramCount, uuid);
    }
  }

  lemma {:induction false} LastStep(d: Def, sigs: seq<Signal>, uuids: nat -> string)
    requires sigs != []
    ensures var n := |sigs| - 1;
      SignalSteps(d, sigs, uuids) == SignalStep(SignalSteps(d, sigs[..n], uuids), sigs[n], uuids(n))
  {
  }

  lemma {:induction false} StepKeepsAllDone(d: Def, d': Def, sigs: seq<Signal>, sig: Signal, uuid: string)
    requires SignalsDone(d, sigs) && d' == SignalStep(d, sig, uuid)
    ensures SignalsDone(d', sigs + [sig])
  {
    forall i | 0 <= i < |sigs| ensures SignalDone(d', sigs[i]) {
      StepKeepsDone(d, sig, uuid, sigs[i]);
    }
    StepIdle(d, sig, uuid);
  }

  lemma {:induction false} LastOf(sigs: seq<Signal>)
    requires sigs != []
    ensures sigs[..|sigs| - 1] + [sigs[|sigs| - 1]] == sigs
  {
  }

  lemma {:induction false} StepsDone(d: Def, sigs: seq<Signal>, uuids: nat -> string)
    ensures SignalsDone(SignalSteps(d, sigs, uuids), sigs)
  {
    if sigs != [] {
      var n := |sigs| - 1;
      var d' := SignalSteps(d, sigs, uuids);
      LastStep(d, sigs, uuids);
      StepsDone(d, sigs[..n], uuids);
      StepKeepsAllDone(SignalSteps(d, sigs[..n], uuids), d', sigs[..n], sigs[n], uuids(n));
      LastOf(sigs);
    }
  }

  lemma {:induction false} StepsIdle(d: Def, sigs: seq<Signal>, uuids: nat -> string)
    requires SignalsDone(d, sigs)
    ensures SignalSteps(d, sigs, uuids) == d
  {
    if sigs != [] {
      var n := |sigs| - 1;
      StepsIdle(d, sigs[..n], uuids);
      StepIdle(d, sigs[n], uuids(n));
    }
  }

  // ---------------------------------------------------------------- the rest

  lemma {:induction false} PropertiesIdle(p: Params, props: seq<Property>)
    requires p.list.Some? && p.ignore.Some?
    ensures PropertiesDone(PropertySteps(p, props), props)
    ensures PropertiesDone(p, props) ==> PropertySteps(p, props) == p
  {
    if props != [] {
      var n := |props| - 1;
      PropertiesIdle(p, props[..n]);
      forall i | 0 <= i < n ensures PropertyDone(PropertySteps(p, props), props[i]) {
        assert PropertyDone(PropertySteps(p, props[..n]), props[..n][i]);
      }
    }
  }

  /** The rest of a run completes its part, and changes nothing exactly when that was complete. */
  lemma {:induction false} RestIdle(d: Def, e: Element, uuid: string)
    ensures RestDone(RestStep(d, e, uuid), e)
    ensures RestStep(d, e, uuid) == d <==> RestDone(d, e)
  {
    var p := FillParams(d.params);
    PropertiesIdle(p, e.properties);
    if RestDone(d, e) {
      assert p == d.params.value;
    }
  }

  lemma {:induction false} SignalsTouchOnlyLists(d: Def, sigs: seq<Signal>, uuids: nat -> string)
    ensures SignalSteps(d, sigs, uuids)
         == d.(signals := SignalSteps(d, sigs, uuids).signals, actions := SignalSteps(d, sigs, uuids).actions)
  {
    if sigs != [] {
      SignalsTouchOnlyLists(d, sigs[..|sigs| - 1], uuids);
    }
  }

  lemma {:induction false} SignalsDoneByLists(d: Def, e: Def, sigs: seq<Signal>)
    requires d.signals == e.signals && d.actions == e.actions && SignalsDone(d, sigs)
    ensures SignalsDone(e, sigs)
  {
    forall i | 0 <= i < |sigs| ensures SignalDone(e, sigs[i]) {
      assert SignalDone(d, sigs[i]);
    }
  }

  /** A run makes the definition complete, and it changes nothing exactly when it was. */
  lemma {:induction false} ReconcileCompletes(d: Def, e: Element, uuids: nat -> string)
    ensures Complete(Reconcile(d, e, uuids), e)
    ensures Reconcile(d, e, uuids) == d <==> Complete(d, e)
  {
    var a := NameStep(d, e);
    var b := SignalSteps(a, e.signals, uuids);
    var c := Reconcile(d, e, uuids);
    SignalsTouchOnlyLists(a, e.signals, uuids);
    StepsDone(a, e.signals, uuids);
    SignalsDoneByLists(b, c, e.signals);
    RestIdle(b, e, uuids(|e.signals|));
    if Complete(d, e) {
      StepsIdle(d, e.signals, uuids);
    }
  }

  /** A second run over the same element, drawing other numbers, changes nothing. */
  lemma {:induction false} ReconcileIdempotent(d: Def, e: Element, uuids: nat -> string, uuids': nat -> string)
    ensures Reconcile(Reconcile(d, e, uuids), e, uuids') == Reconcile(d, e, uuids)
  {
    ReconcileCompletes(d, e, uuids);
    ReconcileCompletes(Reconcile(d, e, uuids), e, uuids');
  }

  // ---------------------------------------------------------------- what is on disk

  /** The signal's entry says that it is to be ignored. */
  predicate Ignored(d: Def, sig: Signal) {
    var l := ListOrEmpty(d, sig.isAction);
    FindLast(l, sig.name).Some? && l[FindLast(l, sig.name).value].ignore == Some(true)
  }

  /** The file after a signal: written when the entry changed, but not for an ignored signal. */
  function DiskStep(disk: Def, d: Def, d': Def, sig: Signal): Def {
    if d' != d && !Ignored(d', sig) then d' else disk
  }

  function DiskSteps(disk: Def, d: Def, sigs: seq<Signal>, uuids: nat -> string): Def {
    if sigs == [] then disk
    else
      var n := |sigs| - 1;
      DiskStep(DiskSteps(disk, d, sigs[..n], uuids), SignalSteps(d, sigs[..n], uuids),
               SignalSteps(d, sigs, uuids), sigs[n])
  }

  /** The file after a run that started from the definition in it. */
  function FinalDisk(d: Def, e: Element, uuids: nat -> string): Def {
    var a := NameStep(d, e);
    var b := SignalSteps(a, e.signals, uuids);
    if a != d || Reconcile(d, e, uuids) != b then Reconcile(d, e, uuids) else DiskSteps(d, a, e.signals, uuids)
  }

  /** No two signals share a name and a kind, as GObject requires. */
  predicate Distinct(sigs: seq<Signal>) {
    forall i, j :: 0 <= i < j < |sigs| ==> Apart(sigs[i], sigs[j])
  }

  predicate Apart(a: Signal, b: Signal) {
    a.name != b.name || a.isAction != b.isAction
  }

  /** The last signal whose entry is incomplete is not one to be ignored, if there is one at all. */
  predicate LastOpenIsWritten(d: Def, sigs: seq<Signal>) {
    if sigs == [] then true
    else if !SignalDone(d, sigs[|sigs| - 1]) then !Ignored(d, sigs[|sigs| - 1])
    else LastOpenIsWritten(d, sigs[..|sigs| - 1])
  }

  lemma {:induction false} StepOnOthers(d: Def, sig: Signal, uuid: string, other: Signal)
    requires Apart(sig, other)
    ensures SignalDone(SignalStep(d, sig, uuid), other) <==> SignalDone(d, other)
    ensures Ignored(SignalStep(d, sig, uuid), other) <==> Ignored(d, other)
  {
    if sig.isAction == other.isAction {
      FindAfter(ListOrEmpty(d, sig.isAction), sig, uuid, other.name);
    }
  }

  lemma {:induction false} StepsOnOthers(d: Def, sigs: seq<Signal>, uuids: nat -> string, other: Signal)
    requires forall i :: 0 <= i < |sigs| ==> Apart(sigs[i], other)
    ensures SignalDone(SignalSteps(d, sigs, uuids), other) <==> SignalDone(d, other)
    ensures Ignored(SignalSteps(d, sigs, uuids), other) <==> Ignored(d, other)
  {
    if sigs != [] {
      var n := |sigs| - 1;
      LastStep(d, sigs, uuids);
      StepsOnOthers(d, sigs[..n], uuids, other);
      StepOnOthers(SignalSteps(d, sigs[..n], uuids), sigs[n], uuids(n), other);
    }
  }

  lemma {:induction false} StepKeepsIgnored(d: Def, sig: Signal, uuid: string)
    ensures Ignored(SignalStep(d, sig, uuid), sig) <==> Ignored(d, sig)
  {
    var l := ListOrEmpty(d, sig.isAction);
    FindAfter(l, sig, uuid, sig.name);
  }

  /** The file is never ahead of the definition. */
  lemma {:induction false} DiskBehind(d: Def, sigs: seq<Signal>, uuids: nat -> string)
    ensures Grows(DiskSteps(d, d, sigs, uuids), SignalSteps(d, sigs, uuids))
  {
    if sigs == [] {
      SignalStepsGrow(d, sigs, uuids);
    } else {
      var n := |sigs| - 1;
      var before, after := SignalSteps(d, sigs[..n], uuids), SignalSteps(d, sigs, uuids);
      DiskBehind(d, sigs[..n], uuids);
      SignalStepGrows(before, sigs[n], uuids(n));
      GrowsTransitive(DiskSteps(d, d, sigs[..n], uuids), before, after);
      SignalStepsGrow(after, [], uuids);
    }
  }

  /** After the signals the file holds the definition exactly when the last signal whose entry had to be
      completed was not an ignored one. */
  lemma {:induction false} SignalsSaved(d: Def, sigs: seq<Signal>, uuids: nat -> string)
    requires Distinct(sigs)
    ensures DiskSteps(d, d, sigs, uuids) == SignalSteps(d, sigs, uuids) <==> LastOpenIsWritten(d, sigs)
  {
    if sigs != [] {
      var n := |sigs| - 1;
      var before, after := SignalSteps(d, sigs[..n], uuids), SignalSteps(d, sigs, uuids);
      SignalsSaved(d, sigs[..n], uuids);
      StepsOnOthers(d, sigs[..n], uuids, sigs[n]);
      StepIdle(before, sigs[n], uuids(n));
      StepKeepsIgnored(before, sigs[n], uuids(n));
      if !SignalDone(d, sigs[n]) && Ignored(d, sigs[n]) {
        StaysBehind(d, sigs, uuids);
      }
    }
  }

  lemma {:induction false} StaysBehind(d: Def, sigs: seq<Signal>, uuids: nat -> string)
    requires sigs != []
    requires SignalSteps(d, sigs, uuids) != SignalSteps(d, sigs[..|sigs| - 1], uuids)
    requires Ignored(SignalSteps(d, sigs, uuids), sigs[|sigs| - 1])
    ensures DiskSteps(d, d, sigs, uuids) != SignalSteps(d, sigs, uuids)
  {
    var n := |sigs| - 1;
    var before, after := SignalSteps(d, sigs[..n], uuids), SignalSteps(d, sigs, uuids);
    SignalStepGrows(before, sigs[n], uuids(n));
    DiskBehind(d, sigs[..n], uuids);
    if DiskSteps(d, d, sigs, uuids) == after {
      GrowsAntisymmetric(before, after);
    }
  }

  /** A run leaves its result on disk exactly when the class name was missing, or something besides the
      signals was incomplete, or the last incomplete signal entry is not ignored. */
  lemma {:induction false} SavedExactly(d: Def, e: Element, uuids: nat -> string)
    requires Distinct(e.signals)
    ensures FinalDisk(d, e, uuids) == Reconcile(d, e, uuids)
      <==> d.className.None? || !RestDone(d, e) || LastOpenIsWritten(d, e.signals)
  {
    var a := NameStep(d, e);
    var b := SignalSteps(a, e.signals, uuids);
    SignalsTouchOnlyLists(a, e.signals, uuids);
    RestIdle(b, e, uuids(|e.signals|));
    if d.className.Some? {
      assert a == d;
      assert RestDone(b, e) <==> RestDone(d, e);
      SignalsSaved(d, e.signals, uuids);
    }
  }

  // ---------------------------------------------------------------- running again from the file

  /** Every incomplete entry is one to be ignored. */
  predicate OpenAreIgnored(d: Def, sigs: seq<Signal>) {
    forall i :: 0 <= i < |sigs| ==> SignalDone(d, sigs[i]) || Ignored(d, sigs[i])
  }

  lemma {:induction false} DiskTouchesOnlyLists(d: Def, sigs: seq<Signal>, uuids: nat -> string)
    ensures var disk := DiskSteps(d, d, sigs, uuids);
      disk == d.(signals := disk.signals, actions := disk.actions)
  {
    if sigs != [] {
      DiskTouchesOnlyLists(d, sigs[..|sigs| - 1], uuids);
      SignalsTouchOnlyLists(d, sigs, uuids);
    }
  }

  lemma {:induction false} DiskOnOthers(d: Def, sigs: seq<Signal>, uuids: nat -> string, other: Signal)
    requires forall i :: 0 <= i < |sigs| ==> Apart(sigs[i], other)
    ensures SignalDone(DiskSteps(d, d, sigs, uuids), other) <==> SignalDone(d, other)
    ensures Ignored(DiskSteps(d, d, sigs, uuids), other) <==> Ignored(d, other)
  {
    if sigs != [] {
      DiskOnOthers(d, sigs[..|sigs| - 1], uuids, other);
      StepsOnOthers(d, sigs, uuids, other);
    }
  }

  /** What a step does to the file, by the state of its signal before the run. */
  lemma {:induction false} LastWrite(d: Def, sigs: seq<Signal>, uuids: nat -> string)
    requires sigs != [] && Distinct(sigs)
    ensures var n := |sigs| - 1;
      DiskSteps(d, d, sigs, uuids) == if SignalDone(d, sigs[n]) || Ignored(d, sigs[n])
        then DiskSteps(d, d, sigs[..n], uuids) else SignalSteps(d, sigs, uuids)
  {
    var n := |sigs| - 1;
    var before := SignalSteps(d, sigs[..n], uuids);
    LastStep(d, sigs, uuids);
    StepsOnOthers(d, sigs[..n], uuids, sigs[n]);
    StepIdle(before, sigs[n], uuids(n));
    StepKeepsIgnored(before, sigs[n], uuids(n));
  }

  /** What a run leaves in the file lacks ignored entries only. */
  lemma {:induction false} FileLacksIgnored(d: Def, sigs: seq<Signal>, uuids: nat -> string)
    requires Distinct(sigs)
    ensures OpenAreIgnored(DiskSteps(d, d, sigs, uuids), sigs)
  {
    if sigs != [] {
      var n := |sigs| - 1;
      LastWrite(d, sigs, uuids);
      if SignalDone(d, sigs[n]) || Ignored(d, sigs[n]) {
        FileLacksIgnored(d, sigs[..n], uuids);
        DiskOnOthers(d, sigs[..n], uuids, sigs[n]);
        OneMoreOpen(DiskSteps(d, d, sigs, uuids), sigs);
      } else {
        StepsDone(d, sigs, uuids);
      }
    }
  }

  lemma {:induction false} OneMoreOpen(d: Def, sigs: seq<Signal>)
    requires sigs != [] && OpenAreIgnored(d, sigs[..|sigs| - 1])
    requires SignalDone(d, sigs[|sigs| - 1]) || Ignored(d, sigs[|sigs| - 1])
    ensures OpenAreIgnored(d, sigs)
  {
    forall i | 0 <= i < |sigs| ensures SignalDone(d, sigs[i]) || Ignored(d, sigs[i]) {
      assert i < |sigs| - 1 ==> sigs[..|sigs| - 1][i] == sigs[i];
    }
  }

  /** And from such a definition nothing is written. */
  lemma {:induction false} NothingWritten(d: Def, sigs: seq<Signal>, uuids: nat -> string)
    requires Distinct(sigs) && OpenAreIgnored(d, sigs)
    ensures DiskSteps(d, d, sigs, uuids) == d
  {
    if sigs != [] {
      LastWrite(d, sigs, uuids);
      NothingWritten(d, sigs[..|sigs| - 1], uuids);
    }
  }

  /** A second run that starts from the file leaves the file as it is, even when the first one left it
      behind. */
  lemma {:induction false} FileStable(d: Def, e: Element, uuids: nat -> string, uuids': nat -> string)
    requires Distinct(e.signals)
    ensures FinalDisk(FinalDisk(d, e, uuids), e, uuids') == FinalDisk(d, e, uuids)
  {
    var disk := FinalDisk(d, e, uuids);
    if disk == Reconcile(d, e, uuids) {
      ReconcileCompletes(d, e, uuids);
      OnlySignalsOpen(disk, e, uuids');
    } else {
      SignalsTouchOnlyLists(d, e.signals, uuids);
      DiskTouchesOnlyLists(d, e.signals, uuids);
      RestIdle(SignalSteps(d, e.signals, uuids), e, uuids(|e.signals|));
      FileLacksIgnored(d, e.signals, uuids);
      OnlySignalsOpen(disk, e, uuids');
    }
  }

  lemma {:induction false} OnlySignalsOpen(d: Def, e: Element, uuids: nat -> string)
    requires d.className.Some? && RestDone(d, e) && Distinct(e.signals) && OpenAreIgnored(d, e.signals)
    ensures FinalDisk(d, e, uuids) == d
  {
    var b := SignalSteps(d, e.signals, uuids);
    assert NameStep(d, e) == d;
    SignalsTouchOnlyLists(d, e.signals, uuids);
    RestIdle(b, e, uuids(|e.signals|));
    NothingWritten(d, e.signals, uuids);
  }

  /** A definition that lacks only the "brief" of an ignored signal: the run fills it in, and the file
      does not get it. */
  lemma {:induction false} UnsavedRun(uuids: nat -> string)
    ensures exists d: Def, e: Element :: Distinct(e.signals) && FinalDisk(d, e, uuids) != Reconcile(d, e, uuids)
  {
    var entry := SignalDef("eos", Some("1"), Some(""), Some([]), Some(true), None, Some(""), map[]);
    var params := Params(Some([]), Some(map[]), Some([]), Some([]), Some([]), Some([]), map[]);
    var d := Def(Some("C"), Some([entry]), None, Some(params), None, Some([]), map[]);
    var e := Element("C", [Signal("eos", false, 0)], []);
    assert FindLast([entry], "eos") == Some(0);
    assert !SignalDone(d, e.signals[0]) && Ignored(d, e.signals[0]);
    SavedExactly(d, e, uuids);
  }
}
