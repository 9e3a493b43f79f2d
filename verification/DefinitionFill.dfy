/** What a run of the generator puts where something is missing. */
module DefinitionFill {
  import opened Wrappers
  import opened Numbers
  import opened Definition
  import opened DefinitionRuns

  /** A value that was there stays; another is the one given. */
  predicate Keeps<T(==)>(was: Option<T>, now: Option<T>, given: T) {
    now == Some(if was.Some? then was.value else given)
  }

  // ---------------------------------------------------------------- the entry of a signal

  /** The names that were there, and numbered ones up to n. */
  predicate NamesUpTo(was: seq<string>, names: seq<string>, n: nat) {
    && was <= names && |names| == (if |was| < n then n else |was|)
    && forall j :: |was| <= j < |names| ==> names[j] == "placeholderArgName" + ShowNat(j)
  }

  /** The entry after a run, from the entry before it. An ignored entry gets no argument names. */
  predicate EntryFrom(was: SignalDef, s: SignalDef, n: nat, uuid: string) {
    && s.name == was.name && s.extra == was.extra
    && Keeps(was.uuid, s.uuid, uuid)
    && Keeps(was.description, s.description, s.name + " placeholder description")
    && Keeps(was.ignore, s.ignore, false)
    && Keeps(was.brief, s.brief, s.name + " placeholder brief")
    && Keeps(was.displayName, s.displayName, s.name + " placeholder display-name")
    && s.argumentNames.Some?
    && NamesUpTo(if was.argumentNames.Some? then was.argumentNames.value else [], s.argumentNames.value,
                 if s.ignore.value then 0 else n)
  }

  /** The entry of a signal, or one with its name and nothing else. */
  function EntryOf(d: Def, sig: Signal): SignalDef {
    var l := ListOrEmpty(d, sig.isAction);
    match FindLast(l, sig.name)
    case Some(k) => l[k]
    case None => SignalDef(sig.name, None, None, None, None, None, None, map[])
  }

  lemma {:induction false} ExtendedNames(names: seq<string>, n: nat)
    ensures NamesUpTo(names, Extended(names, n), n)
    decreases n
  {
    if |names| < n {
      ExtendedNames(names, n - 1);
    }
  }

  lemma {:induction false} FillMeans(s: SignalDef, n: nat, uuid: string)
    ensures EntryFrom(s, Fill(s, n, uuid), n, uuid)
  {
    ExtendedNames(FillFields(s, uuid).argumentNames.value, n);
  }

  lemma {:induction false} StepFills(d: Def, sig: Signal, uuid: string)
    ensures EntryOf(SignalStep(d, sig, uuid), sig) == Fill(EntryOf(d, sig), sig.paramCount, uuid)
  {
    FindAfter(ListOrEmpty(d, sig.isAction), sig, uuid, sig.name);
  }

  lemma {:induction false} StepLeaves(d: Def, sig: Signal, uuid: string, other: Signal)
    requires Apart(sig, other)
    ensures EntryOf(SignalStep(d, sig, uuid), other) == EntryOf(d, other)
  {
    if sig.isAction == other.isAction {
      FindAfter(ListOrEmpty(d, sig.isAction), sig, uuid, other.name);
    }
  }

  lemma {:induction false} StepsLeave(d: Def, sigs: seq<Signal>, uuids: nat -> string, other: Signal)
    requires forall i :: 0 <= i < |sigs| ==> Apart(sigs[i], other)
    ensures EntryOf(SignalSteps(d, sigs, uuids), other) == EntryOf(d, other)
  {
    if sigs != [] {
      var n := |sigs| - 1;
      LastStep(d, sigs, uuids);
      StepsLeave(d, sigs[..n], uuids, other);
      StepLeaves(SignalSteps(d, sigs[..n], uuids), sigs[n], uuids(n), other);
    }
  }

  /** The entry of the signal is filled in with this number. */
  predicate IsFilled(d: Def, d': Def, sig: Signal, uuid: string) {
    EntryOf(d', sig) == Fill(EntryOf(d, sig), sig.paramCount, uuid)
  }

  lemma {:induction false} LastFills(d: Def, before: Def, sig: Signal, uuid: string)
    requires EntryOf(before, sig) == EntryOf(d, sig)
    ensures IsFilled(d, SignalStep(before, sig, uuid), sig, uuid)
  {
    StepFills(before, sig, uuid);
  }

  lemma {:induction false} ApartFrom(sigs: seq<Signal>, i: nat)
    requires Distinct(sigs) && i < |sigs|
    ensures forall j :: 0 <= j < |sigs| && j != i ==> Apart(sigs[j], sigs[i])
  {
    assert forall j :: 0 <= j < i ==> Apart(sigs[j], sigs[i]);
    assert forall j :: i < j < |sigs| ==> Apart(sigs[i], sigs[j]);
  }

  /** The signals after signal i leave its entry alone. */
  lemma {:induction false} LaterLeave(d: Def, sigs: seq<Signal>, uuids: nat -> string, i: nat)
    requires i < |sigs| && forall j :: i < j < |sigs| ==> Apart(sigs[j], sigs[i])
    ensures EntryOf(SignalSteps(d, sigs, uuids), sigs[i]) == EntryOf(SignalSteps(d, sigs[..i + 1], uuids), sigs[i])
  {
    var n := |sigs| - 1;
    if i == n {
      assert sigs[..i + 1] == sigs;
    } else {
      LastStep(d, sigs, uuids);
      LaterLeave(d, sigs[..n], uuids, i);
      assert sigs[..n][..i + 1] == sigs[..i + 1];
      StepLeaves(SignalSteps(d, sigs[..n], uuids), sigs[n], uuids(n), sigs[i]);
    }
  }

  /** Signal i is filled in with the number drawn for it. */
  lemma {:induction false} StepsFill(d: Def, sigs: seq<Signal>, uuids: nat -> string, i: nat)
    requires Distinct(sigs) && i < |sigs|
    ensures IsFilled(d, SignalSteps(d, sigs, uuids), sigs[i], uuids(i))
  {
    ApartFrom(sigs, i);
    LaterLeave(d, sigs, uuids, i);
    StepsLeave(d, sigs[..i], uuids, sigs[i]);
    LastFills(d, SignalSteps(d, sigs[..i], uuids), sigs[i], uuids(i));
    LastStep(d, sigs[..i + 1], uuids);
    assert sigs[..i + 1][..i] == sigs[..i];
  }

  /** Every signal's entry after the run, from the one before it. */
  predicate EntriesFrom(d: Def, d': Def, sigs: seq<Signal>, uuids: nat -> string) {
    forall i :: 0 <= i < |sigs| ==> EntryFrom(EntryOf(d, sigs[i]), EntryOf(d', sigs[i]), sigs[i].paramCount, uuids(i))
  }

  lemma {:induction false} AllFilled(d: Def, d': Def, sigs: seq<Signal>, uuids: nat -> string)
    requires Distinct(sigs)
    requires d'.signals == SignalSteps(d, sigs, uuids).signals && d'.actions == SignalSteps(d, sigs, uuids).actions
    ensures EntriesFrom(d, d', sigs, uuids)
  {
    forall i | 0 <= i < |sigs|
      ensures EntryFrom(EntryOf(d, sigs[i]), EntryOf(d', sigs[i]), sigs[i].paramCount, uuids(i))
    {
      StepsFill(d, sigs, uuids, i);
      SameLists(SignalSteps(d, sigs, uuids), d', sigs[i]);
      FillMeans(EntryOf(d, sigs[i]), sigs[i].paramCount, uuids(i));
    }
  }

  lemma {:induction false} SameLists(d: Def, d': Def, sig: Signal)
    requires d.signals == d'.signals && d.actions == d'.actions
    ensures EntryOf(d, sig) == EntryOf(d', sig)
  {
  }

  lemma {:induction false} SameEntries(d: Def, a: Def, d': Def, sigs: seq<Signal>, uuids: nat -> string)
    requires d.signals == a.signals && d.actions == a.actions && EntriesFrom(a, d', sigs, uuids)
    ensures EntriesFrom(d, d', sigs, uuids)
  {
    forall i | 0 <= i < |sigs|
      ensures EntryFrom(EntryOf(d, sigs[i]), EntryOf(d', sigs[i]), sigs[i].paramCount, uuids(i))
    {
      SameLists(d, a, sigs[i]);
    }
  }

  // ---------------------------------------------------------------- other entries

  predicate Names(sigs: seq<Signal>, isAction: bool, name: string) {
    exists i :: 0 <= i < |sigs| && sigs[i].isAction == isAction && sigs[i].name == name
  }

  /** New entries are of signals of the element, entries of other names are as they were, and a list is made
      only for a signal. */
  predicate OnlyNamed(l: Option<seq<SignalDef>>, l': Option<seq<SignalDef>>, sigs: seq<Signal>, isAction: bool) {
    var was, now := if l.Some? then l.value else [], if l'.Some? then l'.value else [];
    && |was| <= |now|
    && (forall k :: 0 <= k < |now| ==> (k < |was| && now[k] == was[k]) || Names(sigs, isAction, now[k].name))
    && (forall j, k :: |was| <= j < k < |now| ==> now[j].name != now[k].name)
    && (l'.Some? <==> l.Some? || exists i :: 0 <= i < |sigs| && sigs[i].isAction == isAction)
  }

  lemma {:induction false} FillListNamed(defs: seq<SignalDef>, sig: Signal, uuid: string)
    ensures var l := FillList(defs, sig, uuid);
      && |defs| <= |l| <= |defs| + 1
      && (forall k :: 0 <= k < |l| ==> (k < |defs| && l[k] == defs[k]) || l[k].name == sig.name)
      && (|l| > |defs| ==> forall k :: 0 <= k < |defs| ==> defs[k].name != sig.name)
      && forall k :: 0 <= k < |defs| ==> l[k].name == defs[k].name
  {
  }

  lemma {:induction false} MoreNames(sigs: seq<Signal>, sig: Signal, isAction: bool, name: string)
    ensures Names(sigs + [sig], isAction, name) <==>
      Names(sigs, isAction, name) || (sig.isAction == isAction && sig.name == name)
  {
    var more := sigs + [sig];
    if Names(sigs, isAction, name) {
      var i :| 0 <= i < |sigs| && sigs[i].isAction == isAction && sigs[i].name == name;
      assert more[i] == sigs[i];
    }
    assert more[|sigs|] == sig;
  }

  lemma {:induction false} StepNames(d: Def, d1: Def, sigs: seq<Signal>, sig: Signal, uuid: string, isAction: bool)
    requires OnlyNamed(ListOf(d, isAction), ListOf(d1, isAction), sigs, isAction)
    ensures OnlyNamed(ListOf(d, isAction), ListOf(SignalStep(d1, sig, uuid), isAction), sigs + [sig], isAction)
  {
    var more := sigs + [sig];
    assert more[|sigs|] == sig;
    var l := ListOrEmpty(d1, isAction);
    var l' := ListOrEmpty(SignalStep(d1, sig, uuid), isAction);
    if sig.isAction == isAction { FillListNamed(l, sig, uuid); }
    forall k | 0 <= k < |l'|
      ensures (k < |ListOrEmpty(d, isAction)| && l'[k] == ListOrEmpty(d, isAction)[k])
           || Names(more, isAction, l'[k].name)
    {
      MoreNames(sigs, sig, isAction, l'[k].name);
    }
    if i :| 0 <= i < |sigs| && sigs[i].isAction == isAction { assert more[i] == sigs[i]; }
  }

  lemma {:induction false} StepsName(d: Def, sigs: seq<Signal>, uuids: nat -> string, isAction: bool)
    ensures OnlyNamed(ListOf(d, isAction), ListOf(SignalSteps(d, sigs, uuids), isAction), sigs, isAction)
  {
    if sigs != [] {
      var n := |sigs| - 1;
      LastStep(d, sigs, uuids);
      StepsName(d, sigs[..n], uuids, isAction);
      StepNames(d, SignalSteps(d, sigs[..n], uuids), sigs[..n], sigs[n], uuids(n), isAction);
      LastOf(sigs);
    }
  }

  // ---------------------------------------------------------------- properties and the rest

  /** A property that is not one of every element. */
  predicate Listed(props: seq<Property>, name: string, onlyUnwritable: bool) {
    && name != "name" && name != "parent"
    && exists i :: 0 <= i < |props| && props[i].name == name && (onlyUnwritable ==> !props[i].writable)
  }

  /** The names that were there, and those of the properties that were not, each once. */
  ghost predicate ListFrom(was: Option<seq<string>>, l: Option<seq<string>>, props: seq<Property>,
                           onlyUnwritable: bool)
  {
    var before := if was.Some? then was.value else [];
    && l.Some? && before <= l.value
    && (forall name :: name in l.value <==> name in before || Listed(props, name, onlyUnwritable))
    && (forall j, k :: 0 <= j < k < |l.value| && |before| <= k ==> l.value[j] != l.value[k])
  }

  lemma {:induction false} MoreListed(props: seq<Property>, prop: Property, onlyUnwritable: bool)
    ensures forall name :: Listed(props + [prop], name, onlyUnwritable) <==>
      || Listed(props, name, onlyUnwritable)
      || (name == prop.name && name != "name" && name != "parent" && (onlyUnwritable ==> !prop.writable))
  {
    var more := props + [prop];
    assert more[|props|] == prop;
    forall name | Listed(props, name, onlyUnwritable) ensures Listed(more, name, onlyUnwritable) {
      var i :| 0 <= i < |props| && props[i].name == name && (onlyUnwritable ==> !props[i].writable);
      assert more[i] == props[i];
    }
  }

  lemma {:induction false} AddStep(was: Option<seq<string>>, l: seq<string>, props: seq<Property>, prop: Property,
      onlyUnwritable: bool)
    requires ListFrom(was, Some(l), props, onlyUnwritable)
    ensures var adds := prop.name != "name" && prop.name != "parent" && (onlyUnwritable ==> !prop.writable);
      ListFrom(was, Some(if adds then AddMissing(l, prop.name) else l), props + [prop], onlyUnwritable)
  {
    MoreListed(props, prop, onlyUnwritable);
  }

  lemma {:induction false} PropertiesFill(p: Params, props: seq<Property>)
    requires p.list.Some? && p.ignore.Some?
    ensures ListFrom(p.list, PropertySteps(p, props).list, props, false)
    ensures ListFrom(p.ignore, PropertySteps(p, props).ignore, props, true)
  {
    if props != [] {
      var n := |props| - 1;
      var before := PropertySteps(p, props[..n]);
      PropertiesFill(p, props[..n]);
      AddStep(p.list, before.list.value, props[..n], props[n], false);
      AddStep(p.ignore, before.ignore.value, props[..n], props[n], true);
      assert props[..n] + [props[n]] == props;
    }
  }

  /** The parameters after a run. */
  ghost predicate ParamsFrom(was: Params, p: Params, props: seq<Property>) {
    && ListFrom(was.list, p.list, props, false) && ListFrom(was.ignore, p.ignore, props, true)
    && Keeps(was.defaultValues, p.defaultValues, map[])
    && Keeps(was.controlGet, p.controlGet, []) && Keeps(was.controlSet, p.controlSet, [])
    && Keeps(was.mandatory, p.mandatory, []) && p.extra == was.extra
  }

  /** The run-time control after a run: it is there when a property is to be controlled. */
  predicate ControlFrom(was: Option<Control>, c: Option<Control>, p: Params, uuid: string)
    requires p.controlGet.Some? && p.controlSet.Some?
  {
    if p.controlGet.value == [] && p.controlSet.value == [] then c == was
    else
      && c.Some? && Keeps(if was.Some? then was.value.uuid else None, c.value.uuid, uuid)
      && c.value.extra == if was.Some? then was.value.extra else map[]
  }

  /** The parameters, or none. */
  function ParamsOf(d: Def): Params {
    match d.params case Some(p) => p case None => Params(None, None, None, None, None, None, map[])
  }

  lemma {:induction false} RestFills(d: Def, e: Element, uuid: string)
    ensures var d' := RestStep(d, e, uuid);
      && d'.params.Some? && ParamsFrom(ParamsOf(d), d'.params.value, e.properties)
      && ControlFrom(d.control, d'.control, d'.params.value, uuid)
      && Keeps(d.extraHeaders, d'.extraHeaders, [])
      && d'.className == d.className && d'.signals == d.signals && d'.actions == d.actions && d'.extra == d.extra
  {
    PropertiesFill(FillParams(d.params), e.properties);
  }

  // ---------------------------------------------------------------- a whole run

  /** The definition after a run, from the one before it. */
  ghost predicate DefFrom(d: Def, e: Element, uuids: nat -> string, d': Def) {
    && Keeps(d.className, d'.className, e.className)
    && EntriesFrom(d, d', e.signals, uuids)
    && OnlyNamed(d.signals, d'.signals, e.signals, false) && OnlyNamed(d.actions, d'.actions, e.signals, true)
    && d'.params.Some? && ParamsFrom(ParamsOf(d), d'.params.value, e.properties)
    && ControlFrom(d.control, d'.control, d'.params.value, uuids(|e.signals|))
    && Keeps(d.extraHeaders, d'.extraHeaders, []) && d'.extra == d.extra
  }

  /** A run fills in exactly this: what was there stays, what is missing gets the drawn uuids, placeholders and
      empty values, and nothing else is added. */
  lemma {:induction false} ReconcileFills(d: Def, e: Element, uuids: nat -> string)
    requires Distinct(e.signals)
    ensures DefFrom(d, e, uuids, Reconcile(d, e, uuids))
  {
    var a := NameStep(d, e);
    var b := SignalSteps(a, e.signals, uuids);
    var c := Reconcile(d, e, uuids);
    SignalsTouchOnlyLists(a, e.signals, uuids);
    RestFills(b, e, uuids(|e.signals|));
    StepsName(a, e.signals, uuids, false);
    StepsName(a, e.signals, uuids, true);
    AllFilled(a, c, e.signals, uuids);
    SameEntries(d, a, c, e.signals, uuids);
  }
}
