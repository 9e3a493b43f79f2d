/** The element list and its grouping by plugin (generate_extensions.py). */
module PluginGroups {
  import opened Wrappers

  // ---------------------------------------------------------------- sorting

  /** The order of Python strings. */
  predicate LexLeq(a: string, b: string) {
    a == "" || (b != "" && (a[0] < b[0] || (a[0] == b[0] && LexLeq(a[1..], b[1..]))))
  }

  lemma {:induction false} LexTransitive(a: string, b: string, c: string)
    requires LexLeq(a, b) && LexLeq(b, c)
    ensures LexLeq(a, c)
  {
    if a != "" && a[0] == b[0] && b[0] == c[0] {
      LexTransitive(a[1..], b[1..], c[1..]);
    }
  }

  lemma {:induction false} LexTotal(a: string, b: string)
    ensures LexLeq(a, b) || LexLeq(b, a)
  {
    if a != "" && b != "" && a[0] == b[0] {
      LexTotal(a[1..], b[1..]);
    }
  }

  /** One is the start of the other, or smaller where they first differ. */
  lemma {:induction false} LexMeans(a: string, b: string)
    ensures LexLeq(a, b) <==> a <= b || exists i :: 0 <= i < |a| && i < |b| && a[i] < b[i] && a[..i] == b[..i]
  {
    if a != "" && b != "" && a[0] == b[0] {
      LexMeans(a[1..], b[1..]);
      if i :| 0 <= i < |a| - 1 && i < |b| - 1 && a[1..][i] < b[1..][i] && a[1..][..i] == b[1..][..i] {
        assert a[..i + 1] == [a[0]] + a[1..][..i] && b[..i + 1] == [b[0]] + b[1..][..i];
        assert a[i + 1] < b[i + 1];
      }
      if i :| 0 <= i < |a| && i < |b| && a[i] < b[i] && a[..i] == b[..i] {
        assert a[1..][..i - 1] == a[..i][1..] && b[1..][..i - 1] == b[..i][1..];
        assert a[1..][i - 1] < b[1..][i - 1];
      }
      assert a <= b <==> a[1..] <= b[1..];
    } else if a != "" && b != "" && a[0] < b[0] {
      assert a[..0] == b[..0];
    }
  }

  predicate Ascending(l: seq<string>) {
    forall i, j :: 0 <= i < j < |l| ==> LexLeq(l[i], l[j])
  }

  function Inserted(x: string, l: seq<string>): (r: seq<string>)
    ensures multiset(r) == multiset(l) + multiset{x}
  {
    if l == [] then [x]
    else if LexLeq(l[|l| - 1], x) then l + [x]
    else
      assert l == l[..|l| - 1] + [l[|l| - 1]];
      Inserted(x, l[..|l| - 1]) + [l[|l| - 1]]
  }

  /** list.sort() */
  function Sorted(l: seq<string>): (r: seq<string>)
    ensures multiset(r) == multiset(l)
  {
    if l == [] then []
    else
      assert l == l[..|l| - 1] + [l[|l| - 1]];
      Inserted(l[|l| - 1], Sorted(l[..|l| - 1]))
  }

  lemma {:induction false} InsertedAscending(x: string, l: seq<string>)
    requires Ascending(l)
    ensures Ascending(Inserted(x, l))
  {
    if l != [] {
      var last := l[|l| - 1];
      if LexLeq(last, x) {
        forall i | 0 <= i < |l| ensures LexLeq(l[i], x) {
          if i < |l| - 1 { LexTransitive(l[i], last, x); }
        }
      } else {
        var init := l[..|l| - 1];
        InsertedAscending(x, init);
        LexTotal(last, x);
        var r := Inserted(x, init);
        forall i | 0 <= i < |r| ensures LexLeq(r[i], last) {
          assert r[i] in multiset(r);
          if r[i] != x { assert r[i] in init; }
        }
      }
    }
  }

  lemma {:induction false} SortedAscending(l: seq<string>)
    ensures Ascending(Sorted(l))
  {
    if l != [] {
      SortedAscending(l[..|l| - 1]);
      InsertedAscending(l[|l| - 1], Sorted(l[..|l| - 1]));
    }
  }

  // ---------------------------------------------------------------- the element list

  predicate IsComment(x: string) {
    x != "" && x[0] == '#'
  }

  predicate NoRepeats(l: seq<string>) {
    forall i, j :: 0 <= i < j < |l| ==> l[i] != l[j]
  }

  /** The sorted lines, each once, without comments. */
  method ElementList(lines: seq<string>) returns (elements: seq<string>)
    ensures Ascending(elements) && NoRepeats(elements)
    ensures forall x :: x in elements <==> x in lines && (x == "" || x[0] != '#')
  {
    var sorted := Sorted(lines);
    SortedAscending(lines);
    elements := [];
    for i := 0 to |sorted|
      invariant Ascending(elements) && NoRepeats(elements)
      invariant forall x :: x in elements <==> x in sorted[..i] && !IsComment(x)
    {
      var x := sorted[i];
      assert sorted[..i + 1] == sorted[..i] + [x];
      if x !in elements && !IsComment(x) {
        forall j | 0 <= j < |elements| ensures LexLeq(elements[j], x) {
          assert elements[j] in sorted[..i];
        }
        elements := elements + [x];
      }
    }
    assert sorted[..|sorted|] == sorted;
    forall x ensures x in sorted <==> x in lines {
      assert x in multiset(sorted) <==> x in multiset(lines);
    }
  }

  // ---------------------------------------------------------------- the groups

  /** An entry of the dictionary; entries are in the order of their insertion. */
  datatype Group = Group(plugin: string, elements: seq<string>)

  /** The elements of a plugin, in order. */
  function Members(l: seq<string>, pluginOf: string -> Option<string>, plugin: string): seq<string> {
    if l == [] then []
    else Members(l[..|l| - 1], pluginOf, plugin) + if pluginOf(l[|l| - 1]) == Some(plugin) then [l[|l| - 1]] else []
  }

  /** idx are the places of the plugin's elements in the list, in order. */
  predicate ArePlaces(idx: seq<nat>, l: seq<string>, pluginOf: string -> Option<string>, plugin: string) {
    && (forall m, m' :: 0 <= m < m' < |idx| ==> idx[m] < idx[m'])
    && (forall m :: 0 <= m < |idx| ==> idx[m] < |l|)
    && forall i :: 0 <= i < |l| ==> (i in idx <==> pluginOf(l[i]) == Some(plugin))
  }

  /** A group is the subsequence of its plugin. */
  lemma {:induction false} MembersExactly(l: seq<string>, pluginOf: string -> Option<string>, plugin: string)
      returns (idx: seq<nat>)
    ensures ArePlaces(idx, l, pluginOf, plugin)
    ensures var g := Members(l, pluginOf, plugin); |g| == |idx| && forall m :: 0 <= m < |g| ==> g[m] == l[idx[m]]
  {
    if l == [] {
      idx := [];
    } else {
      var n := |l| - 1;
      idx := MembersExactly(l[..n], pluginOf, plugin);
      PlacesMore(idx, l, pluginOf, plugin);
      if pluginOf(l[n]) == Some(plugin) { idx := idx + [n]; }
    }
  }

  lemma {:induction false} PlacesMore(idx: seq<nat>, l: seq<string>, pluginOf: string -> Option<string>,
      plugin: string)
    requires l != [] && ArePlaces(idx, l[..|l| - 1], pluginOf, plugin)
    ensures var n := |l| - 1;
      ArePlaces(if pluginOf(l[n]) == Some(plugin) then idx + [n] else idx, l, pluginOf, plugin)
  {
    var n := |l| - 1;
    var more := if pluginOf(l[n]) == Some(plugin) then idx + [n] else idx;
    forall i | 0 <= i < |l| ensures i in more <==> pluginOf(l[i]) == Some(plugin) {
      if i < n { assert l[..n][i] == l[i]; }
    }
  }

  predicate HasGroup(groups: seq<Group>, plugin: string) {
    exists k :: 0 <= k < |groups| && groups[k].plugin == plugin
  }

  /** The plugins of the elements, each once, in the order in which the list first names them. */
  function Plugins(l: seq<string>, pluginOf: string -> Option<string>): (ps: seq<string>)
    ensures forall k :: 0 <= k < |ps| ==> FirstOf(l, pluginOf, ps[k]) < |l|
  {
    if l == [] then []
    else
      var x := pluginOf(l[|l| - 1]);
      var ps := Plugins(l[..|l| - 1], pluginOf);
      FirstOfInit(l, pluginOf);
      if x.None? || x.value in ps then ps else ps + [x.value]
  }

  /** The index of the first element of a plugin, or |l|. */
  function FirstOf(l: seq<string>, pluginOf: string -> Option<string>, plugin: string): (n: nat)
    ensures n <= |l| && (n < |l| ==> pluginOf(l[n]) == Some(plugin))
    ensures forall i :: 0 <= i < n ==> pluginOf(l[i]) != Some(plugin)
  {
    if l == [] then 0
    else
      var n := FirstOf(l[..|l| - 1], pluginOf, plugin);
      if n < |l| - 1 || pluginOf(l[|l| - 1]) == Some(plugin) then n else |l|
  }

  lemma {:induction false} FirstOfInit(l: seq<string>, pluginOf: string -> Option<string>)
    requires l != []
    ensures forall p :: FirstOf(l[..|l| - 1], pluginOf, p) < |l| - 1 ==>
      FirstOf(l, pluginOf, p) == FirstOf(l[..|l| - 1], pluginOf, p)
  {
  }

  /** Groups come in the order of their first elements. */
  lemma {:induction false} PluginsInOrder(l: seq<string>, pluginOf: string -> Option<string>, j: nat, k: nat)
    requires j < k < |Plugins(l, pluginOf)|
    ensures FirstOf(l, pluginOf, Plugins(l, pluginOf)[j]) < FirstOf(l, pluginOf, Plugins(l, pluginOf)[k])
  {
    FirstOfInit(l, pluginOf);
    var ps := Plugins(l[..|l| - 1], pluginOf);
    if k < |ps| {
      PluginsInOrder(l[..|l| - 1], pluginOf, j, k);
    } else {
      PluginsComplete(l[..|l| - 1], pluginOf);
    }
  }

  lemma {:induction false} PluginsComplete(l: seq<string>, pluginOf: string -> Option<string>)
    ensures forall p :: FirstOf(l, pluginOf, p) < |l| ==> p in Plugins(l, pluginOf)
  {
    if l != [] {
      PluginsComplete(l[..|l| - 1], pluginOf);
    }
  }

  predicate InOrder(groups: seq<Group>, ps: seq<string>) {
    |groups| == |ps| && forall k :: 0 <= k < |groups| ==> groups[k].plugin == ps[k]
  }

  /** Each plugin has at most one group, each group is the non-empty list of its plugin's elements, and
      each element that can be loaded has a group. */
  predicate GroupsOf(groups: seq<Group>, l: seq<string>, pluginOf: string -> Option<string>) {
    && (forall j, k :: 0 <= j < k < |groups| ==> groups[j].plugin != groups[k].plugin)
    && (forall k :: 0 <= k < |groups| ==>
          groups[k].elements == Members(l, pluginOf, groups[k].plugin) && groups[k].elements != [])
    && (forall i :: 0 <= i < |l| && pluginOf(l[i]).Some? ==> HasGroup(groups, pluginOf(l[i]).value))
  }

  method FindGroup(groups: seq<Group>, plugin: string) returns (k: nat)
    ensures k <= |groups| && (k < |groups| ==> groups[k].plugin == plugin)
    ensures k == |groups| ==> !HasGroup(groups, plugin)
  {
    k := 0;
    while k < |groups| && groups[k].plugin != plugin
      invariant k <= |groups| && forall j :: 0 <= j < k ==> groups[j].plugin != plugin
    {
      k := k + 1;
    }
  }

  method GroupElementsByPlugin(elementList: seq<string>, pluginOf: string -> Option<string>)
    returns (groups: seq<Group>)
    ensures GroupsOf(groups, elementList, pluginOf)
    ensures InOrder(groups, Plugins(elementList, pluginOf))
  {
    groups := [];
    for i := 0 to |elementList|
      invariant GroupsOf(groups, elementList[..i], pluginOf)
      invariant InOrder(groups, Plugins(elementList[..i], pluginOf))
    {
      var x := elementList[i];
      var plugin := pluginOf(x);
      assert elementList[..i + 1] == elementList[..i] + [x];
      if plugin.Some? {
        groups := AddElement(groups, elementList[..i], x, pluginOf);
      } else {
        UnloadedElement(groups, elementList[..i], x, pluginOf);
        PluginsStep(elementList[..i], x, pluginOf);
      }
    }
    assert elementList[..|elementList|] == elementList;
  }

  /** pluginGroups[plugin].append(element), after the list has been made when there is none. */
  method AddElement(before: seq<Group>, ghost l: seq<string>, x: string, pluginOf: string -> Option<string>)
    returns (groups: seq<Group>)
    requires GroupsOf(before, l, pluginOf) && InOrder(before, Plugins(l, pluginOf)) && pluginOf(x).Some?
    ensures GroupsOf(groups, l + [x], pluginOf) && InOrder(groups, Plugins(l + [x], pluginOf))
  {
    var plugin := pluginOf(x).value;
    var k := FindGroup(before, plugin);
    groups := before;
    if k == |groups| {
      groups := groups + [Group(plugin, [])];
    }
    assert k == |before| ==> groups[k].elements + [x] == [x];
    groups := groups[k := groups[k].(elements := groups[k].elements + [x])];
    assert k == |before| ==> groups == before + [Group(plugin, [x])];
    OneMoreElement(before, groups, l, x, k, pluginOf);
    OrderKept(before, groups, l, x, k, pluginOf);
  }

  lemma {:induction false} MembersStep(l: seq<string>, x: string, pluginOf: string -> Option<string>, plugin: string)
    ensures Members(l + [x], pluginOf, plugin)
         == Members(l, pluginOf, plugin) + if pluginOf(x) == Some(plugin) then [x] else []
  {
    assert (l + [x])[..|l|] == l;
  }

  lemma {:induction false} PluginsStep(l: seq<string>, x: string, pluginOf: string -> Option<string>)
    ensures Plugins(l + [x], pluginOf)
         == Plugins(l, pluginOf)
          + if pluginOf(x).Some? && pluginOf(x).value !in Plugins(l, pluginOf) then [pluginOf(x).value] else []
  {
    assert (l + [x])[..|l|] == l;
  }

  lemma {:induction false} GroupOf(groups: seq<Group>, ps: seq<string>, plugin: string)
    requires InOrder(groups, ps)
    ensures HasGroup(groups, plugin) <==> plugin in ps
  {
    if plugin in ps {
      var k :| 0 <= k < |ps| && ps[k] == plugin;
      assert groups[k].plugin == plugin;
    }
  }

  lemma {:induction false} NoMembers(l: seq<string>, pluginOf: string -> Option<string>, plugin: string)
    requires forall i :: 0 <= i < |l| ==> pluginOf(l[i]) != Some(plugin)
    ensures Members(l, pluginOf, plugin) == []
  {
    if l != [] {
      NoMembers(l[..|l| - 1], pluginOf, plugin);
    }
  }

  lemma {:induction false} UnloadedElement(groups: seq<Group>, l: seq<string>, x: string,
      pluginOf: string -> Option<string>)
    requires GroupsOf(groups, l, pluginOf) && pluginOf(x).None?
    ensures GroupsOf(groups, l + [x], pluginOf)
  {
    forall k | 0 <= k < |groups|
      ensures groups[k].elements == Members(l + [x], pluginOf, groups[k].plugin)
    {
      MembersStep(l, x, pluginOf, groups[k].plugin);
    }
  }

  lemma {:induction false} OrderKept(before: seq<Group>, after: seq<Group>, l: seq<string>, x: string, k: nat,
      pluginOf: string -> Option<string>)
    requires InOrder(before, Plugins(l, pluginOf)) && pluginOf(x).Some? && k <= |before|
    requires if k < |before| then before[k].plugin == pluginOf(x).value && |after| == |before|
             else !HasGroup(before, pluginOf(x).value) && |after| == |before| + 1
    requires forall j :: 0 <= j < |after| ==>
      after[j].plugin == if j < |before| then before[j].plugin else pluginOf(x).value
    ensures InOrder(after, Plugins(l + [x], pluginOf))
  {
    PluginsStep(l, x, pluginOf);
    GroupOf(before, Plugins(l, pluginOf), pluginOf(x).value);
    assert k < |before| ==> HasGroup(before, pluginOf(x).value);
  }

  lemma {:induction false} OneMoreElement(before: seq<Group>, after: seq<Group>, l: seq<string>, x: string, k: nat,
                       pluginOf: string -> Option<string>)
    requires GroupsOf(before, l, pluginOf) && pluginOf(x).Some? && k <= |before|
    requires k < |before| ==> before[k].plugin == pluginOf(x).value
    requires k == |before| ==> !HasGroup(before, pluginOf(x).value)
    requires after == if k < |before| then before[k := before[k].(elements := before[k].elements + [x])]
                      else before + [Group(pluginOf(x).value, [x])]
    ensures GroupsOf(after, l + [x], pluginOf)
  {
    var plugin := pluginOf(x).value;
    if k == |before| {
      NoMembers(l, pluginOf, plugin);
    }
    forall j | 0 <= j < |after| ensures after[j].elements == Members(l + [x], pluginOf, after[j].plugin) {
      MembersStep(l, x, pluginOf, after[j].plugin);
    }
    forall i | 0 <= i < |l + [x]| && pluginOf((l + [x])[i]).Some?
      ensures HasGroup(after, pluginOf((l + [x])[i]).value)
    {
      if i < |l| {
        var j :| 0 <= j < |before| && before[j].plugin == pluginOf(l[i]).value;
        assert after[j].plugin == before[j].plugin;
      } else {
        assert after[k].plugin == plugin;
      }
    }
  }

  /** The groups are a partition: an element of the list is in exactly one group if it can be loaded, and
      in none otherwise. */
  lemma {:induction false} GroupsPartition(groups: seq<Group>, l: seq<string>, pluginOf: string -> Option<string>,
      x: string)
    requires GroupsOf(groups, l, pluginOf) && x in l
    ensures pluginOf(x).Some? <==> exists k :: 0 <= k < |groups| && x in groups[k].elements
    ensures forall j, k :: 0 <= j < k < |groups| ==> !(x in groups[j].elements && x in groups[k].elements)
  {
    forall k | 0 <= k < |groups|
      ensures x in groups[k].elements <==> pluginOf(x) == Some(groups[k].plugin)
    {
      MembersAre(l, pluginOf, groups[k].plugin, x);
    }
  }

  lemma {:induction false} MembersAre(l: seq<string>, pluginOf: string -> Option<string>, plugin: string, x: string)
    ensures x in Members(l, pluginOf, plugin) <==> x in l && pluginOf(x) == Some(plugin)
  {
    if l != [] {
      assert l == l[..|l| - 1] + [l[|l| - 1]];
      MembersAre(l[..|l| - 1], pluginOf, plugin, x);
    }
  }

  /** Within a group no element is repeated. */
  lemma {:induction false} MembersUnique(l: seq<string>, pluginOf: string -> Option<string>, plugin: string)
    requires NoRepeats(l)
    ensures NoRepeats(Members(l, pluginOf, plugin))
  {
    if l != [] {
      var init := l[..|l| - 1];
      MembersUnique(init, pluginOf, plugin);
      MembersAre(init, pluginOf, plugin, l[|l| - 1]);
    }
  }
}
