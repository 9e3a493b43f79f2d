/** The component definition of the extension generator (graph_gstcomponent_generator.py): a nested
    dictionary that is filled in from the description of an element, and never overwritten. */
module Definition {
  import opened Wrappers
  import opened Numbers

  /** An entry of "signals" or "actions". A key may be missing, save for "name"; extra holds other keys. */
  datatype SignalDef = SignalDef(
    name: string,
    uuid: Option<string>,
    description: Option<string>,
    argumentNames: Option<seq<string>>,
    ignore: Option<bool>,
    brief: Option<string>,
    displayName: Option<string>,
    extra: map<string, string>)

  /** The entry "params". */
  datatype Params = Params(
    list: Option<seq<string>>,
    defaultValues: Option<map<string, string>>,
    controlGet: Option<seq<string>>,
    controlSet: Option<seq<string>>,
    ignore: Option<seq<string>>,
    mandatory: Option<seq<string>>,
    extra: map<string, string>)

  /** The entry "runtime-control-props-comp-details". */
  datatype Control = Control(uuid: Option<string>, extra: map<string, string>)

  datatype Def = Def(
    className: Option<string>,
    signals: Option<seq<SignalDef>>,
    actions: Option<seq<SignalDef>>,
    params: Option<Params>,
    control: Option<Control>,
    extraHeaders: Option<seq<string>>,
    extra: map<string, string>)

  /** What GStreamer says about an element. */
  datatype Signal = Signal(name: string, isAction: bool, paramCount: nat)
  datatype Property = Property(name: string, writable: bool)
  datatype Element = Element(className: string, signals: seq<Signal>, properties: seq<Property>)

  // ---------------------------------------------------------------- filling in signals

  function Or<T>(x: Option<T>, default: T): Option<T> {
    if x.Some? then x else Some(default)
  }

  /** Argument names for n parameters: the ones given, and placeholders. */
  function Extended(names: seq<string>, n: nat): (r: seq<string>)
    ensures names <= r && |r| == if |names| < n then n else |names|
    decreases n
  {
    if |names| < n then Extended(names, n - 1) + ["placeholderArgName" + ShowNat(n - 1)] else names
  }

  function FillFields(s: SignalDef, uuid: string): SignalDef {
    s.(uuid := Or(s.uuid, uuid),
       description := Or(s.description, s.name + " placeholder description"),
       argumentNames := Or(s.argumentNames, []),
       ignore := Or(s.ignore, false),
       brief := Or(s.brief, s.name + " placeholder brief"),
       displayName := Or(s.displayName, s.name + " placeholder display-name"))
  }

  /** The entry after a signal with n parameters: an ignored one gets no argument names. */
  function Fill(s: SignalDef, n: nat, uuid: string): SignalDef {
    var t := FillFields(s, uuid);
    if t.ignore.value then t else t.(argumentNames := Some(Extended(t.argumentNames.value, n)))
  }

  function NewEntry(name: string): SignalDef {
    SignalDef(name, None, None, None, None, None, None, map[])
  }

  /** The last entry with a name. */
  function FindLast(defs: seq<SignalDef>, name: string): (k: Option<nat>)
    ensures k.Some? ==> k.value < |defs| && defs[k.value].name == name
    ensures k.Some? ==> forall j :: k.value < j < |defs| ==> defs[j].name != name
    ensures k.None? ==> forall j :: 0 <= j < |defs| ==> defs[j].name != name
  {
    if defs == [] then None
    else if defs[|defs| - 1].name == name then Some(|defs| - 1)
    else FindLast(defs[..|defs| - 1], name)
  }

  function FillList(defs: seq<SignalDef>, sig: Signal, uuid: string): seq<SignalDef> {
    match FindLast(defs, sig.name)
    case Some(k) => defs[k := Fill(defs[k], sig.paramCount, uuid)]
    case None => defs + [Fill(NewEntry(sig.name), sig.paramCount, uuid)]
  }

  /** The list that a signal belongs to. */
  function ListOf(d: Def, isAction: bool): Option<seq<SignalDef>> {
    if isAction then d.actions else d.signals
  }

  function ListOrEmpty(d: Def, isAction: bool): seq<SignalDef> {
    match ListOf(d, isAction) case Some(l) => l case None => []
  }

  function WithList(d: Def, isAction: bool, l: seq<SignalDef>): Def {
    if isAction then d.(actions := Some(l)) else d.(signals := Some(l))
  }

  /** The definition after one signal. */
  function SignalStep(d: Def, sig: Signal, uuid: string): Def {
    WithList(d, sig.isAction, FillList(ListOrEmpty(d, sig.isAction), sig, uuid))
  }

  /** The definition after the first n signals of an element; uuids(i) is drawn for signal i. */
  function SignalSteps(d: Def, sigs: seq<Signal>, uuids: nat -> string): Def {
    if sigs == [] then d
    else
      var n := |sigs| - 1;
      SignalStep(SignalSteps(d, sigs[..n], uuids), sigs[n], uuids(n))
  }

  // ---------------------------------------------------------------- filling in the rest

  const SKIP_LIST: seq<string> := ["name", "parent"]

  function FillParams(p: Option<Params>): Params {
    var q := match p case Some(x) => x case None => Params(None, None, None, None, None, None, map[]);
    q.(list := Or(q.list, []), defaultValues := Or(q.defaultValues, map[]), controlGet := Or(q.controlGet, []),
       controlSet := Or(q.controlSet, []), ignore := Or(q.ignore, []), mandatory := Or(q.mandatory, []))
  }

  function AddMissing(l: seq<string>, name: string): seq<string> {
    if name in l then l else l + [name]
  }

  /** One property: it is listed, and when it cannot be written it is ignored. */
  function PropertyStep(p: Params, prop: Property): Params
    requires p.list.Some? && p.ignore.Some?
  {
    if prop.name in SKIP_LIST then p
    else
      var q := p.(list := Some(AddMissing(p.list.value, prop.name)));
      if prop.writable then q else q.(ignore := Some(AddMissing(p.ignore.value, prop.name)))
  }

  function PropertySteps(p: Params, props: seq<Property>): (q: Params)
    requires p.list.Some? && p.ignore.Some?
    ensures q.list.Some? && q.ignore.Some? && q == p.(list := q.list, ignore := q.ignore)
  {
    if props == [] then p
    else PropertyStep(PropertySteps(p, props[..|props| - 1]), props[|props| - 1])
  }

  predicate NeedsControl(p: Params) {
    (p.controlGet.Some? && p.controlGet.value != []) || (p.controlSet.Some? && p.controlSet.value != [])
  }

  function FillControl(c: Option<Control>, uuid: string): Control {
    match c case Some(x) => x.(uuid := Or(x.uuid, uuid)) case None => Control(Some(uuid), map[])
  }

  function NameStep(d: Def, e: Element): Def {
    d.(className := Or(d.className, e.className))
  }

  /** What __generateClass fills in besides the class name and the signals. */
  function RestStep(d: Def, e: Element, uuid: string): Def {
    var p := PropertySteps(FillParams(d.params), e.properties);
    d.(params := Some(p),
       control := if NeedsControl(p) then Some(FillControl(d.control, uuid)) else d.control,
       extraHeaders := Or(d.extraHeaders, []))
  }

  /** One run of the generator over an element. uuids(i) is the i-th number drawn. */
  function Reconcile(d: Def, e: Element, uuids: nat -> string): Def {
    RestStep(SignalSteps(NameStep(d, e), e.signals, uuids), e, uuids(|e.signals|))
  }

  // ---------------------------------------------------------------- the order of definitions

  predicate Kept<T(==)>(x: Option<T>, y: Option<T>) {
    x.Some? ==> y == x
  }

  predicate KeptPrefix<T(==)>(x: Option<seq<T>>, y: Option<seq<T>>) {
    x.Some? ==> y.Some? && x.value <= y.value
  }

  predicate SignalGrows(s: SignalDef, t: SignalDef) {
    && s.name == t.name && Kept(s.uuid, t.uuid) && Kept(s.description, t.description)
    && KeptPrefix(s.argumentNames, t.argumentNames) && Kept(s.ignore, t.ignore)
    && Kept(s.brief, t.brief) && Kept(s.displayName, t.displayName) && s.extra == t.extra
  }

  predicate SignalsGrow(x: seq<SignalDef>, y: seq<SignalDef>) {
    |x| <= |y| && forall i :: 0 <= i < |x| ==> SignalGrows(x[i], y[i])
  }

  predicate ListGrows(x: Option<seq<SignalDef>>, y: Option<seq<SignalDef>>) {
    x.Some? ==> y.Some? && SignalsGrow(x.value, y.value)
  }

  predicate ParamsGrow(x: Option<Params>, y: Option<Params>) {
    x.Some? ==>
      && y.Some?
      && KeptPrefix(x.value.list, y.value.list) && Kept(x.value.defaultValues, y.value.defaultValues)
      && Kept(x.value.controlGet, y.value.controlGet) && Kept(x.value.controlSet, y.value.controlSet)
      && KeptPrefix(x.value.ignore, y.value.ignore) && Kept(x.value.mandatory, y.value.mandatory)
      && x.value.extra == y.value.extra
  }

  predicate ControlGrows(x: Option<Control>, y: Option<Control>) {
    x.Some? ==> y.Some? && Kept(x.value.uuid, y.value.uuid) && x.value.extra == y.value.extra
  }

  /** e has everything that d has, unchanged: keys and list elements are only added. */
  predicate Grows(d: Def, e: Def) {
    && Kept(d.className, e.className)
    && ListGrows(d.signals, e.signals) && ListGrows(d.actions, e.actions)
    && ParamsGrow(d.params, e.params) && ControlGrows(d.control, e.control)
    && Kept(d.extraHeaders, e.extraHeaders) && d.extra == e.extra
  }

  lemma {:induction false} GrowsTransitive(a: Def, b: Def, c: Def)
    requires Grows(a, b) && Grows(b, c)
    ensures Grows(a, c)
  {
  }

  lemma {:induction false} PrefixBothWays<T>(x: Option<seq<T>>, y: Option<seq<T>>)
    requires KeptPrefix(x, y) && KeptPrefix(y, x)
    ensures x == y
  {
    if x.Some? {
      assert x.value == y.value[..|x.value|] == y.value;
    }
  }

  lemma {:induction false} SignalBothWays(s: SignalDef, t: SignalDef)
    requires SignalGrows(s, t) && SignalGrows(t, s)
    ensures s == t
  {
    PrefixBothWays(s.argumentNames, t.argumentNames);
  }

  lemma {:induction false} ListBothWays(x: Option<seq<SignalDef>>, y: Option<seq<SignalDef>>)
    requires ListGrows(x, y) && ListGrows(y, x)
    ensures x == y
  {
    if x.Some? {
      forall i | 0 <= i < |x.value| ensures x.value[i] == y.value[i] {
        SignalBothWays(x.value[i], y.value[i]);
      }
      assert x.value == y.value;
    }
  }

  lemma {:induction false} ParamsBothWays(x: Option<Params>, y: Option<Params>)
    requires ParamsGrow(x, y) && ParamsGrow(y, x)
    ensures x == y
  {
    if x.Some? {
      PrefixBothWays(x.value.list, y.value.list);
      PrefixBothWays(x.value.ignore, y.value.ignore);
    }
  }

  /** Nothing can be taken back: two definitions that grow into each other are equal. */
  lemma {:induction false} GrowsAntisymmetric(a: Def, b: Def)
    requires Grows(a, b) && Grows(b, a)
    ensures a == b
  {
    ListBothWays(a.signals, b.signals);
    ListBothWays(a.actions, b.actions);
    ParamsBothWays(a.params, b.params);
    assert a.control == b.control;
  }

  lemma {:induction false} FillGrows(s: SignalDef, n: nat, uuid: string)
    ensures SignalGrows(s, Fill(s, n, uuid))
  {
  }

  lemma {:induction false} FillListGrows(defs: seq<SignalDef>, sig: Signal, uuid: string)
    ensures SignalsGrow(defs, FillList(defs, sig, uuid))
  {
    match FindLast(defs, sig.name)
    case Some(k) => FillGrows(defs[k], sig.paramCount, uuid);
    case None =>
  }

  lemma {:induction false} SignalStepGrows(d: Def, sig: Signal, uuid: string)
    ensures Grows(d, SignalStep(d, sig, uuid))
  {
    FillListGrows(ListOrEmpty(d, sig.isAction), sig, uuid);
  }

  lemma {:induction false} SignalStepsGrow(d: Def, sigs: seq<Signal>, uuids: nat -> string)
    ensures Grows(d, SignalSteps(d, sigs, uuids))
  {
    if sigs != [] {
      var n := |sigs| - 1;
      var before := SignalSteps(d, sigs[..n], uuids);
      SignalStepsGrow(d, sigs[..n], uuids);
      SignalStepGrows(before, sigs[n], uuids(n));
      GrowsTransitive(d, before, SignalSteps(d, sigs, uuids));
    }
  }

  lemma {:induction false} PropertyStepsGrow(p: Params, props: seq<Property>)
    requires p.list.Some? && p.ignore.Some?
    ensures p.list.value <= PropertySteps(p, props).list.value
    ensures p.ignore.value <= PropertySteps(p, props).ignore.value
  {
    if props != [] {
      PropertyStepsGrow(p, props[..|props| - 1]);
    }
  }

  lemma {:induction false} RestStepGrows(d: Def, e: Element, uuid: string)
    ensures Grows(d, RestStep(d, e, uuid))
  {
    PropertyStepsGrow(FillParams(d.params), e.properties);
  }

  /** A run only adds: every uuid, argument name, list element and field of the user stays as it is. */
  lemma {:induction false} ReconcileGrows(d: Def, e: Element, uuids: nat -> string)
    ensures Grows(d, Reconcile(d, e, uuids))
  {
    var a := NameStep(d, e);
    var b := SignalSteps(a, e.signals, uuids);
    SignalStepsGrow(a, e.signals, uuids);
    RestStepGrows(b, e, uuids(|e.signals|));
    GrowsTransitive(d, a, b);
    GrowsTransitive(d, b, Reconcile(d, e, uuids));
  }
}
