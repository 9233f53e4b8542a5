/**
  The grouping behind the app drawer's list view (AppsList in
  AppDrawerPage.kt): every app is filed under the first character of its
  name, upper-cased when it is a letter and `'#'` otherwise, by Kotlin's
  `groupBy`, whose result keeps keys in first-occurrence order and apps in
  input order inside each group. Group headers are drawn only when the
  setting asks for them and there is more than one group.

  `isAlphabet` is a project extension that is not part of this model; it is
  taken to be the ASCII-letter test. `first()` throws on an empty name, so
  grouping demands that every name be non-empty.
 */
module AppDrawer {
  import opened Apps

  /** `Char.isAlphabet`, assumed to accept exactly the ASCII letters. */
  predicate IsAlphabet(c: char) {
    'a' <= c <= 'z' || 'A' <= c <= 'Z'
  }

  /** `uppercaseChar` on the characters `IsAlphabet` accepts. */
  function UppercaseChar(c: char): (u: char)
    requires IsAlphabet(c)
    ensures 'A' <= u <= 'Z'
    ensures u == c || u as int + 32 == c as int
  {
    if 'a' <= c <= 'z' then (c as int - 32) as char else c
  }

  /** The group an app is filed under. */
  function GroupKey(app: App): (key: char)
    requires app.name != []
    ensures 'A' <= key <= 'Z' || key == '#'
    ensures key == '#' <==> !IsAlphabet(app.name[0])
    ensures key != '#' ==> key == app.name[0] || key as int + 32 == app.name[0] as int
  {
    var c := app.name[0];
    if IsAlphabet(c) then UppercaseChar(c) else '#'
  }

  ghost predicate AllNamed(apps: seq<App>) {
    forall a :: a in apps ==> a.name != []
  }

  /** One entry of the `groupBy` map. */
  datatype Group = Group(key: char, apps: seq<App>)

  /** File `app` under `key`: append to that group, or open a new group at the end. */
  function AddToGroup(groups: seq<Group>, key: char, app: App): (r: seq<Group>)
    ensures r != [] && |r| <= |groups| + 1
  {
    if groups == [] then [Group(key, [app])]
    else if groups[0].key == key then [Group(key, groups[0].apps + [app])] + groups[1..]
    else [groups[0]] + AddToGroup(groups[1..], key, app)
  }

  /** `appsList.groupBy { key }`: the apps filed one by one, first to last. */
  function GroupBy(apps: seq<App>): (groups: seq<Group>)
    requires AllNamed(apps)
    ensures |groups| <= |apps|
    ensures groups == [] <==> apps == []
    decreases |apps|
  {
    if apps == [] then []
    else
      var last := apps[|apps| - 1];
      AddToGroup(GroupBy(apps[..|apps| - 1]), GroupKey(last), last)
  }

  /** `showAppGroupHeader && groupedApps.size != 1`. */
  predicate ShowAppGroupHeader(setting: bool, groups: seq<Group>): (shown: bool)
    ensures shown ==> setting
    ensures |groups| == 1 ==> !shown
  {
    setting && |groups| != 1
  }

  // ----- An independent description of what `groupBy` produces -----

  /** The keys of the groups, in iteration order. */
  function GroupKeys(groups: seq<Group>): seq<char> {
    seq(|groups|, i requires 0 <= i < |groups| => groups[i].key)
  }

  /** The key of every app, in input order. */
  function KeysOf(apps: seq<App>): seq<char>
    requires AllNamed(apps)
  {
    seq(|apps|, i requires 0 <= i < |apps| => GroupKey(apps[i]))
  }

  /** The distinct elements of `s`, each where it first occurs. */
  function FirstOccurrences(s: seq<char>): seq<char>
    decreases |s|
  {
    if s == [] then []
    else
      var prefix := FirstOccurrences(s[..|s| - 1]);
      if s[|s| - 1] in s[..|s| - 1] then prefix else prefix + [s[|s| - 1]]
  }

  /** The apps whose key is `key`, in input order. */
  function AppsWithKey(apps: seq<App>, key: char): seq<App>
    requires AllNamed(apps)
    decreases |apps|
  {
    if apps == [] then []
    else
      var last := apps[|apps| - 1];
      AppsWithKey(apps[..|apps| - 1], key) + (if GroupKey(last) == key then [last] else [])
  }

  /** The group filed under `key`, or nothing. */
  function GroupOf(groups: seq<Group>, key: char): seq<App> {
    if groups == [] then []
    else if groups[0].key == key then groups[0].apps
    else GroupOf(groups[1..], key)
  }

  /** All groups one after the other, as the list view draws them. */
  function Flatten(groups: seq<Group>): seq<App> {
    if groups == [] then [] else groups[0].apps + Flatten(groups[1..])
  }

  ghost predicate DistinctKeys(groups: seq<Group>) {
    forall i, j :: 0 <= i < j < |groups| ==> groups[i].key != groups[j].key
  }

  /** Every group is non-empty and holds only apps whose key is the group's. */
  ghost predicate WellFiled(groups: seq<Group>, apps: seq<App>)
    requires AllNamed(apps)
  {
    forall g :: g in groups ==>
      g.apps != [] && forall a :: a in g.apps ==> a in apps && GroupKey(a) == g.key
  }

  // ----- One filing step -----

  lemma {:induction false} AddToGroupKeys(groups: seq<Group>, key: char, app: App)
    ensures GroupKeys(AddToGroup(groups, key, app))
         == if key in GroupKeys(groups) then GroupKeys(groups) else GroupKeys(groups) + [key]
    decreases |groups|
  {
    var added := AddToGroup(groups, key, app);
    if groups == [] {
      assert GroupKeys(added) == [key];
    } else {
      assert GroupKeys(groups) == [groups[0].key] + GroupKeys(groups[1..]);
      if groups[0].key == key {
        assert GroupKeys(added) == GroupKeys(groups);
      } else {
        AddToGroupKeys(groups[1..], key, app);
        assert added == [groups[0]] + AddToGroup(groups[1..], key, app);
        assert GroupKeys(added) == [groups[0].key] + GroupKeys(AddToGroup(groups[1..], key, app));
      }
    }
  }

  lemma {:induction false} AddToGroupGroupOf(groups: seq<Group>, key: char, app: App, k: char)
    ensures GroupOf(AddToGroup(groups, key, app), k)
         == if k == key then GroupOf(groups, k) + [app] else GroupOf(groups, k)
    decreases |groups|
  {
    if groups != [] {
      var added := AddToGroup(groups, key, app);
      if groups[0].key != key {
        AddToGroupGroupOf(groups[1..], key, app, k);
        assert added[1..] == AddToGroup(groups[1..], key, app);
      } else {
        assert added[1..] == groups[1..];
      }
    }
  }

  lemma {:induction false} AddToGroupFlatten(groups: seq<Group>, key: char, app: App)
    ensures multiset(Flatten(AddToGroup(groups, key, app))) == multiset(Flatten(groups)) + multiset{app}
    decreases |groups|
  {
    if groups != [] {
      var g := groups[0];
      if g.key == key {
        var added := AddToGroup(groups, key, app);
        assert added[0].apps == g.apps + [app] && added[1..] == groups[1..];
        assert Flatten(added) == (g.apps + [app]) + Flatten(groups[1..]);
      } else {
        AddToGroupFlatten(groups[1..], key, app);
      }
    }
  }

  lemma {:induction false} AddToGroupWellFiled(groups: seq<Group>, apps: seq<App>, app: App)
    requires AllNamed(apps + [app]) && WellFiled(groups, apps)
    ensures WellFiled(AddToGroup(groups, GroupKey(app), app), apps + [app])
    decreases |groups|
  {
    if groups != [] && groups[0].key != GroupKey(app) {
      assert WellFiled(groups[1..], apps);
      AddToGroupWellFiled(groups[1..], apps, app);
    }
  }

  // ----- What `groupBy` produces -----

  /** Groups come in first-occurrence order of their keys. */
  lemma {:induction false} GroupByKeys(apps: seq<App>)
    requires AllNamed(apps)
    ensures GroupKeys(GroupBy(apps)) == FirstOccurrences(KeysOf(apps))
    decreases |apps|
  {
    if apps != [] {
      var init, last := apps[..|apps| - 1], apps[|apps| - 1];
      GroupByKeys(init);
      AddToGroupKeys(GroupBy(init), GroupKey(last), last);
      assert KeysOf(apps)[..|apps| - 1] == KeysOf(init);
      assert GroupKey(last) in KeysOf(init) <==> GroupKey(last) in FirstOccurrences(KeysOf(init)) by {
        FirstOccurrencesMembers(KeysOf(init), GroupKey(last));
      }
    }
  }

  /** The group for a key holds exactly the apps with that key, in input order. */
  lemma {:induction false} GroupByGroupOf(apps: seq<App>, key: char)
    requires AllNamed(apps)
    ensures GroupOf(GroupBy(apps), key) == AppsWithKey(apps, key)
    decreases |apps|
  {
    if apps != [] {
      var init, last := apps[..|apps| - 1], apps[|apps| - 1];
      GroupByGroupOf(init, key);
      AddToGroupGroupOf(GroupBy(init), GroupKey(last), last, key);
    }
  }

  /** Reading the groups one after the other gives back the input, reordered. */
  lemma {:induction false} GroupByPermutation(apps: seq<App>)
    requires AllNamed(apps)
    ensures multiset(Flatten(GroupBy(apps))) == multiset(apps)
    decreases |apps|
  {
    if apps != [] {
      var init, last := apps[..|apps| - 1], apps[|apps| - 1];
      GroupByPermutation(init);
      AddToGroupFlatten(GroupBy(init), GroupKey(last), last);
      assert apps == init + [last];
    }
  }

  /** No group is empty, and a group holds only input apps carrying its key. */
  lemma {:induction false} GroupByWellFiled(apps: seq<App>)
    requires AllNamed(apps)
    ensures WellFiled(GroupBy(apps), apps)
    decreases |apps|
  {
    if apps != [] {
      var init, last := apps[..|apps| - 1], apps[|apps| - 1];
      GroupByWellFiled(init);
      assert apps == init + [last];
      AddToGroupWellFiled(GroupBy(init), init, last);
    }
  }

  /** Keys never repeat, and every key is an upper-case letter or `'#'`. */
  lemma GroupByDistinctKeys(apps: seq<App>)
    requires AllNamed(apps)
    ensures DistinctKeys(GroupBy(apps))
    ensures forall g :: g in GroupBy(apps) ==> 'A' <= g.key <= 'Z' || g.key == '#'
  {
    GroupByKeys(apps);
    FirstOccurrencesDistinct(KeysOf(apps));
    var gs := GroupBy(apps);
    forall i, j | 0 <= i < j < |gs| ensures gs[i].key != gs[j].key {
      assert GroupKeys(gs)[i] == gs[i].key && GroupKeys(gs)[j] == gs[j].key;
    }
    GroupByWellFiled(apps);
    forall g | g in gs ensures 'A' <= g.key <= 'Z' || g.key == '#' {
      assert GroupKey(g.apps[0]) == g.key;
    }
  }

  /** Each app sits in exactly one group: the one for its own key. */
  lemma AppInItsGroupOnly(apps: seq<App>, a: App)
    requires AllNamed(apps) && a in apps
    ensures a in GroupOf(GroupBy(apps), GroupKey(a))
    ensures forall g :: g in GroupBy(apps) && a in g.apps ==> g.key == GroupKey(a)
  {
    GroupByGroupOf(apps, GroupKey(a));
    AppsWithKeyMembers(apps, GroupKey(a), a);
    GroupByWellFiled(apps);
  }

  /** Headers show exactly when the setting is on and not all apps share one key. */
  lemma HeaderVisibility(setting: bool, apps: seq<App>)
    requires AllNamed(apps)
    ensures ShowAppGroupHeader(setting, GroupBy(apps))
        <==> setting && (apps == [] || exists i :: 0 <= i < |apps| && GroupKey(apps[i]) != GroupKey(apps[0]))
  {
    GroupByKeys(apps);
    var ks := KeysOf(apps);
    assert |GroupBy(apps)| == |FirstOccurrences(ks)|;
    SingleKey(ks);
    if apps != [] {
      assert forall i :: 0 <= i < |apps| ==> ks[i] == GroupKey(apps[i]);
    }
  }

  // ----- Facts about the reference functions -----

  lemma {:induction false} FirstOccurrencesMembers(s: seq<char>, c: char)
    ensures c in FirstOccurrences(s) <==> c in s
    decreases |s|
  {
    if s != [] {
      FirstOccurrencesMembers(s[..|s| - 1], c);
      assert s == s[..|s| - 1] + [s[|s| - 1]];
    }
  }

  lemma {:induction false} FirstOccurrencesDistinct(s: seq<char>)
    ensures forall i, j :: 0 <= i < j < |FirstOccurrences(s)| ==> FirstOccurrences(s)[i] != FirstOccurrences(s)[j]
    decreases |s|
  {
    if s != [] {
      FirstOccurrencesDistinct(s[..|s| - 1]);
      FirstOccurrencesMembers(s[..|s| - 1], s[|s| - 1]);
    }
  }

  /** One distinct element exactly when the sequence is non-empty and constant. */
  lemma SingleKey(s: seq<char>)
    ensures |FirstOccurrences(s)| == 1 <==> s != [] && forall i :: 0 <= i < |s| ==> s[i] == s[0]
  {
    var fo := FirstOccurrences(s);
    FirstOccurrencesDistinct(s);
    forall i | 0 <= i < |s| ensures s[i] in fo {
      FirstOccurrencesMembers(s, s[i]);
    }
    forall c | c in fo ensures c in s {
      FirstOccurrencesMembers(s, c);
    }
    assert |fo| >= 2 ==> fo[0] != fo[1];
  }

  lemma {:induction false} AppsWithKeyMembers(apps: seq<App>, key: char, a: App)
    requires AllNamed(apps)
    ensures a in AppsWithKey(apps, key) <==> a in apps && GroupKey(a) == key
    decreases |apps|
  {
    if apps != [] {
      AppsWithKeyMembers(apps[..|apps| - 1], key, a);
      assert apps == apps[..|apps| - 1] + [apps[|apps| - 1]];
    }
  }
}
