/** GraphGstComponentGenerator (graph_gstcomponent_generator.py): the methods that fill in the component
    definition in place, with their update flags, and the file they write it to. */
module Generator {
  import opened Wrappers
  import opened Numbers
  import opened Definition
  import opened DefinitionRuns
  import opened DefinitionFill

  class GraphGstComponentGenerator {
    var compDef: Def
    var compDefYaml: Def   // what the definition file holds

    /** __updateComponentDefinitionYaml */
    method UpdateComponentDefinitionYaml()
      modifies this`compDefYaml
      ensures compDefYaml == compDef
    {
      compDefYaml := compDef;
    }

    /** The part of __generateSignal that completes the entry of a signal. */
    method GenerateSignal(sig: Signal, uuid: string)
      modifies this
      ensures compDef == SignalStep(old(compDef), sig, uuid)
      ensures compDefYaml == DiskStep(old(compDefYaml), old(compDef), compDef, sig)
    {
      var needUpdate := false;
      var signalDefs := [];
      match if sig.isAction then compDef.actions else compDef.signals {
        case None => needUpdate := true;
        case Some(l) => signalDefs := l;
      }
      ghost var given := signalDefs;
      var k := FindEntry(signalDefs, sig.name);
      if k == |signalDefs| {
        signalDefs := signalDefs + [FillFields(NewEntry(sig.name), uuid)];
        needUpdate := true;
      } else {
        var entry, filled := FillEntry(signalDefs[k], uuid);
        signalDefs := signalDefs[k := entry];
        needUpdate := needUpdate || filled;
      }
      if signalDefs[k].ignore.value {
        Store(sig.isAction, signalDefs);
        StoredEntry(given, sig, uuid, signalDefs, k);
        return;
      }
      var names, named := ExtendNames(signalDefs[k].argumentNames.value, sig.paramCount);
      signalDefs := signalDefs[k := signalDefs[k].(argumentNames := Some(names))];
      needUpdate := needUpdate || named;
      Store(sig.isAction, signalDefs);
      StoredEntry(given, sig, uuid, signalDefs, k);
      StepIdle(old(compDef), sig, uuid);
      if needUpdate {
        UpdateComponentDefinitionYaml();
      }
    }

    /** The list is a value of the dictionary, so its changes are changes of the definition. */
    method Store(isAction: bool, signalDefs: seq<SignalDef>)
      modifies this`compDef
      ensures compDef == WithList(old(compDef), isAction, signalDefs)
    {
      if isAction {
        compDef := compDef.(actions := Some(signalDefs));
      } else {
        compDef := compDef.(signals := Some(signalDefs));
      }
    }

    /** The part of __generateClass that completes the definition. uuids(i) is the i-th number drawn. */
    method GenerateClass(e: Element, uuids: nat -> string)
      requires compDefYaml == compDef
      modifies this
      ensures compDef == Reconcile(old(compDef), e, uuids)
      ensures compDefYaml == FinalDisk(old(compDef), e, uuids)
      ensures Distinct(e.signals) ==> DefFrom(old(compDef), e, uuids, compDef)
    {
      var needDefUpdate := false;
      if compDef.className.None? {
        compDef := compDef.(className := Some(e.className));
        needDefUpdate := true;
      }
      ghost var named := compDef;
      assert named == NameStep(old(compDef), e);
      GenerateSignals(e.signals, uuids);
      var changed := GenerateRest(e, uuids(|e.signals|));
      if needDefUpdate || changed {
        UpdateComponentDefinitionYaml();
      }
      if Distinct(e.signals) { ReconcileFills(old(compDef), e, uuids); }
    }

    /** The loop over the signals. */
    method GenerateSignals(sigs: seq<Signal>, uuids: nat -> string)
      modifies this
      ensures compDef == SignalSteps(old(compDef), sigs, uuids)
      ensures compDefYaml == DiskSteps(old(compDefYaml), old(compDef), sigs, uuids)
    {
      for i := 0 to |sigs|
        invariant compDef == SignalSteps(old(compDef), sigs[..i], uuids)
        invariant compDefYaml == DiskSteps(old(compDefYaml), old(compDef), sigs[..i], uuids)
      {
        assert sigs[..i + 1][..i] == sigs[..i];
        GenerateSignal(sigs[i], uuids(i));
      }
      assert sigs[..|sigs|] == sigs;
    }

    /** Parameters, runtime control and headers; changed is the update flag. */
    method GenerateRest(e: Element, uuid: string) returns (changed: bool)
      modifies this`compDef
      ensures compDef == RestStep(old(compDef), e, uuid)
      ensures changed <==> compDef != old(compDef)
    {
      var p, filled := FillKeys(compDef.params);
      var q, listed := FillProperties(p, e.properties);
      changed := filled || listed;
      compDef := compDef.(params := Some(q));
      if NeedsControl(q) {
        if compDef.control.None? {
          compDef := compDef.(control := Some(Control(None, map[])));
        }
        if compDef.control.value.uuid.None? {
          compDef := compDef.(control := Some(compDef.control.value.(uuid := Some(uuid))));
          changed := true;
        }
      }
      if compDef.extraHeaders.None? {
        compDef := compDef.(extraHeaders := Some([]));
        changed := true;
      }
    }
  }

  /** The loop that finds the last entry with a name; |defs| when there is none. */
  method FindEntry(defs: seq<SignalDef>, name: string) returns (k: nat)
    ensures FindLast(defs, name) == if k < |defs| then Some(k) else None
    ensures k <= |defs|
  {
    k := |defs|;
    for i := 0 to |defs|
      invariant k == |defs| || k < i
      invariant k < |defs| ==> defs[k].name == name && forall j :: k < j < i ==> defs[j].name != name
      invariant k == |defs| ==> forall j :: 0 <= j < i ==> defs[j].name != name
    {
      if defs[i].name == name { k := i; }
    }
  }

  /** The missing keys of an entry, one after another. */
  method FillEntry(s: SignalDef, uuid: string) returns (t: SignalDef, filled: bool)
    ensures t == FillFields(s, uuid) && (filled <==> t != s)
  {
    t, filled := s, false;
    if t.uuid.None? { t := t.(uuid := Some(uuid)); filled := true; }
    if t.description.None? { t := t.(description := Some(s.name + " placeholder description")); filled := true; }
    if t.argumentNames.None? { t := t.(argumentNames := Some([])); filled := true; }
    if t.ignore.None? { t := t.(ignore := Some(false)); filled := true; }
    if t.brief.None? { t := t.(brief := Some(s.name + " placeholder brief")); filled := true; }
    if t.displayName.None? { t := t.(displayName := Some(s.name + " placeholder display-name")); filled := true; }
  }

  /** The loop over the parameters of a signal. */
  method ExtendNames(names: seq<string>, n: nat) returns (r: seq<string>, added: bool)
    ensures r == Extended(names, n) && (added <==> r != names)
  {
    r, added := names, false;
    for paramCount := 0 to n
      invariant r == Extended(names, paramCount) && (added <==> r != names)
    {
      if paramCount >= |r| {
        r := r + ["placeholderArgName" + ShowNat(paramCount)];
        added := true;
      }
    }
  }

  /** The missing keys of "params". */
  method FillKeys(p: Option<Params>) returns (q: Params, filled: bool)
    ensures q == FillParams(p) && (filled <==> Some(q) != p)
  {
    filled := false;
    match p {
      case None => q, filled := Params(None, None, None, None, None, None, map[]), true;
      case Some(x) => q := x;
    }
    if q.list.None? { q := q.(list := Some([])); filled := true; }
    if q.defaultValues.None? { q := q.(defaultValues := Some(map[])); filled := true; }
    if q.controlGet.None? { q := q.(controlGet := Some([])); filled := true; }
    if q.controlSet.None? { q := q.(controlSet := Some([])); filled := true; }
    if q.ignore.None? { q := q.(ignore := Some([])); filled := true; }
    if q.mandatory.None? { q := q.(mandatory := Some([])); filled := true; }
  }

  /** The loop over the properties. */
  method FillProperties(p: Params, props: seq<Property>) returns (q: Params, added: bool)
    requires p.list.Some? && p.ignore.Some?
    ensures q == PropertySteps(p, props) && (added <==> q != p)
  {
    q, added := p, false;
    for i := 0 to |props|
      invariant q == PropertySteps(p, props[..i])
      invariant p.list.value <= q.list.value && p.ignore.value <= q.ignore.value
      invariant added <==> q != p
    {
      assert props[..i + 1][..i] == props[..i];
      var prop := props[i];
      if prop.name in SKIP_LIST { continue; }
      ghost var before := q;
      if prop.name !in q.list.value {
        q := q.(list := Some(q.list.value + [prop.name]));
        added := true;
      }
      if prop.name in q.ignore.value { continue; }
      if !prop.writable {
        q := q.(ignore := Some(q.ignore.value + [prop.name]));
        added := true;
        continue;
      }
    }
    assert props[..|props|] == props;
  }

  /** The list with the entry completed is the one of the specification. */
  lemma {:induction false} StoredEntry(given: seq<SignalDef>, sig: Signal, uuid: string, l: seq<SignalDef>, k: nat)
    requires FindLast(given, sig.name) == if k < |given| then Some(k) else None
    requires k <= |given|
    requires var s := if k < |given| then given[k] else NewEntry(sig.name);
      l == if k < |given| then given[k := Fill(s, sig.paramCount, uuid)]
           else given + [Fill(s, sig.paramCount, uuid)]
    ensures l == FillList(given, sig, uuid)
    ensures FindLast(l, sig.name) == Some(k)
  {
    FindAfter(given, sig, uuid, sig.name);
  }
}
