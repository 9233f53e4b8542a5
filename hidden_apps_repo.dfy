/**
  HiddenAppsRepo: which apps the user has hidden from the drawer.

  Two tables back the repository: the hidden-apps table, a list of package
  names in the order the table returns them, and the apps table, a map from
  package name to the installed app. The DAOs themselves are not part of
  this model; their behaviour is stated as an assumption: hiding a package
  that is already hidden changes nothing (the package name is the table's
  key), a new one is appended, un-hiding deletes the row with that key, and
  clearing deletes every row.
 */
module HiddenApps {
  import opened Apps

  ghost predicate NoDuplicates(hidden: seq<string>) {
    forall i, j :: 0 <= i < j < |hidden| ==> hidden[i] != hidden[j]
  }

  /** `HiddenAppsDao.hideApp`, as assumed. */
  function HideApp(hidden: seq<string>, packageName: string): (r: seq<string>)
    ensures forall q :: q in r <==> q in hidden || q == packageName
    ensures |r| <= |hidden| + 1
  {
    if packageName in hidden then hidden else hidden + [packageName]
  }

  /** `HiddenAppsDao.unHideApp`, as assumed: drop the rows with that key. */
  function UnhideApp(hidden: seq<string>, packageName: string): (r: seq<string>)
    ensures |r| <= |hidden|
  {
    if hidden == [] then []
    else if hidden[0] == packageName then UnhideApp(hidden[1..], packageName)
    else [hidden[0]] + UnhideApp(hidden[1..], packageName)
  }

  /**
    `onlyHiddenAppsFlow`: look every hidden package name up in the apps
    table, in the hidden table's order, dropping the names with no app.
   */
  function OnlyHiddenApps(hidden: seq<string>, apps: map<string, App>): (r: seq<App>)
    ensures |r| <= |hidden|
  {
    if hidden == [] then []
    else
      (if hidden[0] in apps then [apps[hidden[0]]] else [])
      + OnlyHiddenApps(hidden[1..], apps)
  }

  /** The join works entry by entry, so it keeps the hidden table's order. */
  lemma {:induction false} OnlyHiddenAppsAppend(h1: seq<string>, h2: seq<string>, apps: map<string, App>)
    ensures OnlyHiddenApps(h1 + h2, apps) == OnlyHiddenApps(h1, apps) + OnlyHiddenApps(h2, apps)
    decreases |h1|
  {
    if h1 == [] {
      assert h1 + h2 == h2;
    } else {
      assert (h1 + h2)[0] == h1[0];
      assert (h1 + h2)[1..] == h1[1..] + h2;
      OnlyHiddenAppsAppend(h1[1..], h2, apps);
    }
  }

  /** An app is in the join exactly when some hidden package name looks it up. */
  lemma {:induction false} OnlyHiddenAppsMembers(hidden: seq<string>, apps: map<string, App>, a: App)
    ensures a in OnlyHiddenApps(hidden, apps) <==> exists p :: p in hidden && p in apps && apps[p] == a
    decreases |hidden|
  {
    if hidden != [] {
      OnlyHiddenAppsMembers(hidden[1..], apps, a);
      assert hidden == [hidden[0]] + hidden[1..];
      if exists p :: p in hidden && p in apps && apps[p] == a {
        var p :| p in hidden && p in apps && apps[p] == a;
        assert p == hidden[0] || p in hidden[1..];
      }
    }
  }

  /** When every hidden package has an app, the join is the lookup of each, one to one. */
  lemma {:induction false} OnlyHiddenAppsTotal(hidden: seq<string>, apps: map<string, App>)
    requires forall p :: p in hidden ==> p in apps
    ensures |OnlyHiddenApps(hidden, apps)| == |hidden|
    ensures forall i :: 0 <= i < |hidden| ==> OnlyHiddenApps(hidden, apps)[i] == apps[hidden[i]]
    decreases |hidden|
  {
    if hidden != [] {
      assert forall p :: p in hidden[1..] ==> p in hidden;
      OnlyHiddenAppsTotal(hidden[1..], apps);
    }
  }

  /** Un-hiding removes exactly the given package name. */
  lemma {:induction false} UnhideAppMembers(hidden: seq<string>, packageName: string, q: string)
    ensures q in UnhideApp(hidden, packageName) <==> q in hidden && q != packageName
    decreases |hidden|
  {
    if hidden != [] {
      UnhideAppMembers(hidden[1..], packageName, q);
      assert hidden == [hidden[0]] + hidden[1..];
    }
  }

  lemma {:induction false} UnhideAppAppend(h1: seq<string>, h2: seq<string>, packageName: string)
    ensures UnhideApp(h1 + h2, packageName) == UnhideApp(h1, packageName) + UnhideApp(h2, packageName)
    decreases |h1|
  {
    if h1 == [] {
      assert h1 + h2 == h2;
    } else {
      assert (h1 + h2)[0] == h1[0];
      assert (h1 + h2)[1..] == h1[1..] + h2;
      UnhideAppAppend(h1[1..], h2, packageName);
    }
  }

  /** Un-hiding undoes hiding: the hidden table is as if the hide never happened. */
  lemma UnhideAfterHide(hidden: seq<string>, packageName: string)
    ensures UnhideApp(HideApp(hidden, packageName), packageName) == UnhideApp(hidden, packageName)
  {
    if packageName !in hidden {
      UnhideAppAppend(hidden, [packageName], packageName);
      assert UnhideApp([packageName], packageName) == [];
    }
  }

  /** Un-hiding a package name that is not hidden changes nothing. */
  lemma {:induction false} UnhideAbsent(hidden: seq<string>, packageName: string)
    requires packageName !in hidden
    ensures UnhideApp(hidden, packageName) == hidden
    decreases |hidden|
  {
    if hidden != [] {
      assert packageName !in hidden[1..];
      UnhideAbsent(hidden[1..], packageName);
      assert hidden == [hidden[0]] + hidden[1..];
    }
  }

  /** Both table operations keep the package names unique. */
  lemma {:induction false} UnhideKeepsNoDuplicates(hidden: seq<string>, packageName: string)
    requires NoDuplicates(hidden)
    ensures NoDuplicates(UnhideApp(hidden, packageName))
    decreases |hidden|
  {
    if hidden != [] {
      var rest := UnhideApp(hidden[1..], packageName);
      UnhideKeepsNoDuplicates(hidden[1..], packageName);
      UnhideAppMembers(hidden[1..], packageName, hidden[0]);
      assert hidden[0] !in hidden[1..];
    }
  }

  /** With unique names, un-hiding a hidden package removes exactly one row. */
  lemma {:induction false} UnhideHiddenLength(hidden: seq<string>, packageName: string)
    requires NoDuplicates(hidden) && packageName in hidden
    ensures |UnhideApp(hidden, packageName)| == |hidden| - 1
    decreases |hidden|
  {
    if hidden[0] == packageName {
      assert packageName !in hidden[1..];
      UnhideAbsent(hidden[1..], packageName);
    } else {
      assert packageName in hidden[1..];
      UnhideHiddenLength(hidden[1..], packageName);
    }
  }

  lemma HideKeepsNoDuplicates(hidden: seq<string>, packageName: string)
    requires NoDuplicates(hidden)
    ensures NoDuplicates(HideApp(hidden, packageName))
    ensures packageName in HideApp(hidden, packageName)
  {
  }

  /** A hidden app whose table entry is present shows up in the join. */
  lemma HiddenAppIsListed(hidden: seq<string>, apps: map<string, App>, app: App)
    requires app.packageName in apps && apps[app.packageName] == app
    ensures app in OnlyHiddenApps(HideApp(hidden, app.packageName), apps)
  {
    OnlyHiddenAppsMembers(HideApp(hidden, app.packageName), apps, app);
  }

  /** After un-hiding a package, no app with that package name is listed. */
  lemma UnhiddenAppIsNotListed(hidden: seq<string>, apps: map<string, App>, packageName: string)
    requires KeyedByPackage(apps)
    ensures forall a :: a in OnlyHiddenApps(UnhideApp(hidden, packageName), apps) ==> a.packageName != packageName
  {
    forall a | a in OnlyHiddenApps(UnhideApp(hidden, packageName), apps)
      ensures a.packageName != packageName
    {
      OnlyHiddenAppsMembers(UnhideApp(hidden, packageName), apps, a);
      var p :| p in UnhideApp(hidden, packageName) && p in apps && apps[p] == a;
      UnhideAppMembers(hidden, packageName, p);
    }
  }

  class HiddenAppsRepo {
    /** The hidden-apps table (HiddenAppsDao). */
    var hiddenApps: seq<string>
    /** The apps table (AppsDao). */
    var apps: map<string, App>

    ghost predicate Valid()
      reads this
    {
      NoDuplicates(hiddenApps)
    }

    constructor (hidden: seq<string>, installed: map<string, App>)
      requires NoDuplicates(hidden)
      ensures Valid() && hiddenApps == hidden && apps == installed
    {
      hiddenApps := hidden;
      apps := installed;
    }

    /** The current value of `onlyHiddenAppsFlow`. */
    function OnlyHiddenAppsFlow(): (r: seq<App>)
      reads this
      ensures |r| <= |hiddenApps|
      ensures forall a :: a in r ==> exists p :: p in hiddenApps && p in apps && apps[p] == a
    {
      var r := OnlyHiddenApps(hiddenApps, apps);
      assert forall a :: a in r ==> exists p :: p in hiddenApps && p in apps && apps[p] == a by {
        forall a | a in r ensures exists p :: p in hiddenApps && p in apps && apps[p] == a {
          OnlyHiddenAppsMembers(hiddenApps, apps, a);
        }
      }
      r
    }

    /** `addToHiddenApps`: hand the table exactly the app's package name. */
    method AddToHiddenApps(app: App)
      requires Valid()
      modifies this
      ensures Valid()
      ensures hiddenApps == HideApp(old(hiddenApps), app.packageName)
      ensures app.packageName in hiddenApps
      ensures |hiddenApps| == old(|hiddenApps|) + (if app.packageName in old(hiddenApps) then 0 else 1)
      ensures apps == old(apps)
    {
      HideKeepsNoDuplicates(hiddenApps, app.packageName);
      hiddenApps := HideApp(hiddenApps, app.packageName);
    }

    /** `removeFromHiddenApps`: hand the table exactly the given package name. */
    method RemoveFromHiddenApps(packageName: string)
      requires Valid()
      modifies this
      ensures Valid()
      ensures hiddenApps == UnhideApp(old(hiddenApps), packageName)
      ensures packageName !in hiddenApps
      ensures |hiddenApps| == old(|hiddenApps|) - (if packageName in old(hiddenApps) then 1 else 0)
      ensures apps == old(apps)
    {
      if packageName in hiddenApps {
        UnhideHiddenLength(hiddenApps, packageName);
      } else {
        UnhideAbsent(hiddenApps, packageName);
      }
      UnhideKeepsNoDuplicates(hiddenApps, packageName);
      UnhideAppMembers(hiddenApps, packageName, packageName);
      hiddenApps := UnhideApp(hiddenApps, packageName);
    }

    /** `clearHiddenApps`. */
    method ClearHiddenApps()
      requires Valid()
      modifies this
      ensures Valid()
      ensures hiddenApps == [] && OnlyHiddenAppsFlow() == []
      ensures apps == old(apps)
    {
      hiddenApps := [];
    }

    /** `isHidden`: the hidden table has a row for the package name. */
    method IsHidden(packageName: string) returns (hidden: bool)
      ensures hidden <==> packageName in hiddenApps
    {
      hidden := packageName in hiddenApps;
    }
  }
}
