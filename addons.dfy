/** `HassBackup.get_addons`: a backup's addon include/exclude lists turned
    into the ordered list passed to `ha backups new --addons`, using the
    host's catalogue of installed addons. */
module Addons {
  import opened Outcomes
  import opened Ordering
  import opened SeqSets
  import opened Config

  /** The slugs of the installed-addon catalogue. */
  ghost function InstalledSlugs(installed: seq<Addon>): set<string>
  {
    set i | 0 <= i < |installed| :: installed[i].slug
  }

  /** `installed_addons[slug]['name']`. The catalogue is the dict built from
      the `ha addons` list, so a later record for a slug replaces an earlier
      one; `None` is the KeyError of a slug that is not installed. */
  function NameOf(installed: seq<Addon>, slug: string): (r: Option<string>)
    ensures r.Some? <==> slug in InstalledSlugs(installed)
    ensures r.Some? ==> exists i ::
      (0 <= i < |installed| && installed[i] == Addon(slug, r.value) &&
       forall j :: i < j < |installed| ==> installed[j].slug != slug)
  {
    if installed == [] then None
    else
      var n := |installed| - 1;
      assert InstalledSlugs(installed) == InstalledSlugs(installed[..n]) + {installed[n].slug} by {
        forall s ensures s in InstalledSlugs(installed) <==> s in InstalledSlugs(installed[..n]) || s == installed[n].slug {
          if s in InstalledSlugs(installed) {
            var i :| 0 <= i < |installed| && installed[i].slug == s;
            if i < n { assert installed[..n][i] == installed[i]; }
          }
          if s in InstalledSlugs(installed[..n]) {
            var i :| 0 <= i < n && installed[..n][i].slug == s;
            assert installed[i] == installed[..n][i];
          }
        }
      }
      if installed[n].slug == slug then
        assert installed[n] == Addon(slug, installed[n].name);
        Some(installed[n].name)
      else
        var r := NameOf(installed[..n], slug);
        assert r.Some? ==> exists i ::
          (0 <= i < |installed| && installed[i] == Addon(slug, r.value) &&
           forall j :: i < j < |installed| ==> installed[j].slug != slug)
        by {
          if r.Some? {
            var i :| 0 <= i < n && installed[..n][i] == Addon(slug, r.value) &&
              forall j :: i < j < n ==> installed[..n][j].slug != slug;
            assert installed[i] == installed[..n][i];
            forall j | i < j < |installed| ensures installed[j].slug != slug {
              if j < n {
                assert installed[j] == installed[..n][j];
              }
            }
          }
        }
        r
  }

  /** The display name an installed slug sorts by. */
  function NameOr(installed: seq<Addon>, slug: string): string
  {
    match NameOf(installed, slug)
    case Some(name) => name
    case None => ""
  }

  /** The sort key of `get_addons`: a slug's display name in the catalogue. */
  function NameKey(installed: seq<Addon>): string -> string
  {
    slug => NameOr(installed, slug)
  }

  /** `for addon in installed_addons: addons.add(addon)`. */
  function AddSlugs(acc: seq<string>, installed: seq<Addon>): (r: seq<string>)
    ensures Elems(r) == Elems(acc) + InstalledSlugs(installed)
    ensures NoDup(acc) ==> NoDup(r)
    decreases installed
  {
    if installed == [] then acc
    else
      assert InstalledSlugs(installed) == {installed[0].slug} + InstalledSlugs(installed[1..]) by {
        forall s ensures s in InstalledSlugs(installed) <==> s == installed[0].slug || s in InstalledSlugs(installed[1..]) {
          if s in InstalledSlugs(installed) {
            var i :| 0 <= i < |installed| && installed[i].slug == s;
            if i > 0 { assert installed[1..][i - 1] == installed[i]; }
          }
          if s in InstalledSlugs(installed[1..]) {
            var i :| 0 <= i < |installed[1..]| && installed[1..][i].slug == s;
            assert installed[i + 1] == installed[1..][i];
          }
        }
      }
      AddSlugs(Add(acc, installed[0].slug), installed[1..])
  }

  /** The include loop: `*` adds every installed slug, any other entry is
      added as it is, installed or not. */
  function IncludeEach(acc: seq<string>, includes: seq<string>, installed: seq<Addon>): (r: seq<string>)
    ensures Elems(r) ==
      Elems(acc) + (if Wildcard in includes then InstalledSlugs(installed) else {}) + (Elems(includes) - {Wildcard})
    ensures NoDup(acc) ==> NoDup(r)
    decreases includes
  {
    if includes == [] then acc
    else
      assert Elems(includes) == {includes[0]} + Elems(includes[1..]) by {
        forall y ensures y in Elems(includes) <==> y == includes[0] || y in Elems(includes[1..]) {
          ElemsMembership(includes, y);
          ElemsMembership(includes[1..], y);
          assert includes == [includes[0]] + includes[1..];
        }
      }
      assert Wildcard in includes <==> includes[0] == Wildcard || Wildcard in includes[1..] by {
        assert includes == [includes[0]] + includes[1..];
      }
      if includes[0] == Wildcard then IncludeEach(AddSlugs(acc, installed), includes[1..], installed)
      else IncludeEach(Add(acc, includes[0]), includes[1..], installed)
  }

  /** An exclude-only declaration starts from every installed addon. */
  function Seed(includes: seq<string>, excludes: seq<string>, installed: seq<Addon>): seq<string>
  {
    if |includes| == 0 && |excludes| > 0 then AddSlugs([], installed) else []
  }

  /** The working set of `get_addons` after its include and exclude loops;
      excluding a slug that is not in the set does nothing. */
  function WorkingAddons(includes: seq<string>, excludes: seq<string>, installed: seq<Addon>): seq<string>
  {
    DiscardEach(IncludeEach(Seed(includes, excludes, installed), includes, installed), excludes)
  }

  /** The working set, stated as sets: every installed slug when the
      declaration is exclude-only or includes `*`, plus the literal includes,
      minus the excludes. */
  ghost function WorkingSet(includes: seq<string>, excludes: seq<string>, installed: seq<Addon>): set<string>
  {
    ((if (includes == [] && excludes != []) || Wildcard in includes then InstalledSlugs(installed) else {})
      + (Elems(includes) - {Wildcard}))
    - Elems(excludes)
  }

  lemma WorkingAddonsIsWorkingSet(includes: seq<string>, excludes: seq<string>, installed: seq<Addon>)
    ensures NoDup(WorkingAddons(includes, excludes, installed))
    ensures Elems(WorkingAddons(includes, excludes, installed)) == WorkingSet(includes, excludes, installed)
  {
    var seed := Seed(includes, excludes, installed);
    ElemsEmpty([]);
    assert Elems(seed) == if includes == [] && excludes != [] then InstalledSlugs(installed) else {};
  }

  /** The first slug of the working set with no catalogue entry: the sort key
      lookup raises KeyError on it. */
  function FirstUninstalled(w: seq<string>, installed: seq<Addon>): (r: Option<string>)
    ensures r.None? <==> forall i :: 0 <= i < |w| ==> NameOf(installed, w[i]).Some?
    ensures r.Some? ==> r.value in w && NameOf(installed, r.value).None?
  {
    if w == [] then None
    else if NameOf(installed, w[0]).None? then Some(w[0])
    else
      var r := FirstUninstalled(w[1..], installed);
      assert forall i :: 1 <= i < |w| ==> w[i] == w[1..][i - 1];
      r
  }

  /** The addon list of a backup: the working set sorted by display name. */
  function ResolveAddons(includes: seq<string>, excludes: seq<string>, installed: seq<Addon>): Result<seq<string>>
  {
    var w := WorkingAddons(includes, excludes, installed);
    match FirstUninstalled(w, installed)
    case Some(slug) => Err(KeyError(slug))
    case None => Ok(SortBy(w, NameKey(installed)))
  }

  /** Resolution fails exactly when a slug of the working set is not
      installed, with KeyError on such a slug. */
  lemma ResolveAddonsFails(includes: seq<string>, excludes: seq<string>, installed: seq<Addon>)
    ensures ResolveAddons(includes, excludes, installed).Err? <==>
      !(WorkingSet(includes, excludes, installed) <= InstalledSlugs(installed))
    ensures ResolveAddons(includes, excludes, installed).Err? ==>
      exists slug :: slug in WorkingSet(includes, excludes, installed) - InstalledSlugs(installed) &&
        ResolveAddons(includes, excludes, installed) == Err(KeyError(slug))
  {
    var w := WorkingAddons(includes, excludes, installed);
    WorkingAddonsIsWorkingSet(includes, excludes, installed);
    var f := FirstUninstalled(w, installed);
    if f.Some? {
      ElemsMembership(w, f.value);
    } else {
      forall s | s in Elems(w) ensures s in InstalledSlugs(installed) {
        ElemsMembership(w, s);
        var i :| 0 <= i < |w| && w[i] == s;
      }
    }
  }

  /** A successful resolution lists every slug of the working set exactly
      once, each installed, in non-decreasing order of display name. */
  lemma ResolveAddonsOrder(includes: seq<string>, excludes: seq<string>, installed: seq<Addon>)
    requires ResolveAddons(includes, excludes, installed).Ok?
    ensures var r := ResolveAddons(includes, excludes, installed).value;
      && multiset(r) == multiset(WorkingAddons(includes, excludes, installed))
      && NoDup(r)
      && Elems(r) == WorkingSet(includes, excludes, installed)
      && Elems(r) <= InstalledSlugs(installed)
      && forall i, j :: 0 <= i < j < |r| ==> Below(NameOr(installed, r[i]), NameOr(installed, r[j]))
  {
    var w := WorkingAddons(includes, excludes, installed);
    var r := ResolveAddons(includes, excludes, installed).value;
    WorkingAddonsIsWorkingSet(includes, excludes, installed);
    ResolveAddonsFails(includes, excludes, installed);
    assert r == SortBy(w, NameKey(installed));
    NoDupPermutation(w, r);
    PermutationElems(w, r);
    forall i, j | 0 <= i < j < |r| ensures Below(NameOr(installed, r[i]), NameOr(installed, r[j])) {
      assert Below(NameKey(installed)(r[i]), NameKey(installed)(r[j]));
    }
  }

  /** Excluding a slug that is not in the working set changes nothing, as
      long as the declaration already had an include or an exclude: the
      tool swallows the KeyError of `set.remove`. */
  lemma ExcludeAbsentIsNoOp(includes: seq<string>, excludes: seq<string>, installed: seq<Addon>, slug: string)
    requires includes != [] || excludes != []
    requires slug !in WorkingSet(includes, excludes, installed)
    ensures WorkingAddons(includes, excludes + [slug], installed) == WorkingAddons(includes, excludes, installed)
    ensures ResolveAddons(includes, excludes + [slug], installed) == ResolveAddons(includes, excludes, installed)
  {
    var seeded := IncludeEach(Seed(includes, excludes, installed), includes, installed);
    assert Seed(includes, excludes + [slug], installed) == Seed(includes, excludes, installed);
    DiscardEachSnoc(seeded, excludes, slug);
    WorkingAddonsIsWorkingSet(includes, excludes, installed);
    ElemsMembership(WorkingAddons(includes, excludes, installed), slug);
    DiscardAbsent(WorkingAddons(includes, excludes, installed), slug);
  }

  /** An exclude-only declaration backs up every installed addon but the
      excluded ones. */
  lemma ExcludeOnlyKeepsTheRest(excludes: seq<string>, installed: seq<Addon>)
    requires excludes != []
    ensures Elems(WorkingAddons([], excludes, installed)) == InstalledSlugs(installed) - Elems(excludes)
  {
    WorkingAddonsIsWorkingSet([], excludes, installed);
    ElemsEmpty([]);
  }

  lemma SingleElement(r: seq<string>, y: string)
    requires NoDup(r) && Elems(r) == {y}
    ensures r == [y]
  {
    NoDupCardinality(r);
    ElemsMembership(r, r[0]);
  }

  /** Include `*` over `{a: Zeta, b: Alpha}`, exclude `a`: only `b` remains. */
  lemma WildcardExcludeExample()
    ensures ResolveAddons(["*"], ["a"], [Addon("a", "Zeta"), Addon("b", "Alpha")]) == Ok(["b"])
  {
    var installed := [Addon("a", "Zeta"), Addon("b", "Alpha")];
    assert InstalledSlugs(installed) == {"a", "b"} by {
      assert installed[0].slug == "a" && installed[1].slug == "b";
    }
    ElemsMembership(["*"], "*");
    forall y ensures y in Elems(["*"]) <==> y == "*" {
      ElemsMembership(["*"], y);
    }
    forall y ensures y in Elems(["a"]) <==> y == "a" {
      ElemsMembership(["a"], y);
    }
    assert WorkingSet(["*"], ["a"], installed) == {"b"};
    ResolveAddonsFails(["*"], ["a"], installed);
    ResolveAddonsOrder(["*"], ["a"], installed);
    SingleElement(ResolveAddons(["*"], ["a"], installed).value, "b");
  }

  /** Exclude-only `x` over installed `{x, y}`: the result is `y`. */
  lemma ExcludeOnlyExample()
    ensures ResolveAddons([], ["x"], [Addon("x", "X"), Addon("y", "Y")]) == Ok(["y"])
  {
    var installed := [Addon("x", "X"), Addon("y", "Y")];
    assert InstalledSlugs(installed) == {"x", "y"} by {
      assert installed[0].slug == "x" && installed[1].slug == "y";
    }
    ElemsEmpty([]);
    forall y ensures y in Elems(["x"]) <==> y == "x" {
      ElemsMembership(["x"], y);
    }
    assert WorkingSet([], ["x"], installed) == {"y"};
    ResolveAddonsFails([], ["x"], installed);
    ResolveAddonsOrder([], ["x"], installed);
    SingleElement(ResolveAddons([], ["x"], installed).value, "y");
  }

  /** Addons are ordered by display name, not slug: over `{a: Zeta, b: Alpha}`
      include `*` gives `b` before `a`. */
  lemma NameOrderExample()
    ensures ResolveAddons(["*"], [], [Addon("a", "Zeta"), Addon("b", "Alpha")]) == Ok(["b", "a"])
  {
    var installed := [Addon("a", "Zeta"), Addon("b", "Alpha")];
    assert InstalledSlugs(installed) == {"a", "b"} by {
      assert installed[0].slug == "a" && installed[1].slug == "b";
    }
    forall y ensures y in Elems(["*"]) <==> y == "*" {
      ElemsMembership(["*"], y);
    }
    ElemsEmpty([]);
    assert WorkingSet(["*"], [], installed) == {"a", "b"};
    ResolveAddonsFails(["*"], [], installed);
    ResolveAddonsOrder(["*"], [], installed);
    var r := ResolveAddons(["*"], [], installed).value;
    TwoElements(r, "a", "b");
    ExampleSortedPair(r);
  }

  lemma ExampleSortedPair(r: seq<string>)
    requires r == ["a", "b"] || r == ["b", "a"]
    requires SortedBy(r, NameKey([Addon("a", "Zeta"), Addon("b", "Alpha")]))
    ensures r == ["b", "a"]
  {
    ExampleNames();
    assert !Below("Zeta", "Alpha");
    assert Below(NameKey([Addon("a", "Zeta"), Addon("b", "Alpha")])(r[0]), NameKey([Addon("a", "Zeta"), Addon("b", "Alpha")])(r[1]));
  }

  lemma ExampleNames()
    ensures NameOr([Addon("a", "Zeta"), Addon("b", "Alpha")], "a") == "Zeta"
    ensures NameOr([Addon("a", "Zeta"), Addon("b", "Alpha")], "b") == "Alpha"
  {
    var installed := [Addon("a", "Zeta"), Addon("b", "Alpha")];
    assert installed[..1] == [Addon("a", "Zeta")];
    assert installed[..1][..0] == [];
  }

  lemma TwoElements(r: seq<string>, x: string, y: string)
    requires NoDup(r) && Elems(r) == {x, y} && x != y
    ensures r == [x, y] || r == [y, x]
  {
    NoDupCardinality(r);
    ElemsMembership(r, r[0]);
    ElemsMembership(r, r[1]);
  }

  /** `for addon in installed_addons: addons.add(addon)`. */
  method AddInstalled(acc: seq<string>, installed: seq<Addon>) returns (r: seq<string>)
    ensures r == AddSlugs(acc, installed)
  {
    r := acc;
    for i := 0 to |installed|
      invariant AddSlugs(r, installed[i..]) == AddSlugs(acc, installed)
    {
      AddSlugsStep(r, installed, i);
      r := Add(r, installed[i].slug);
    }
  }

  /** One turn of the seeding loop. */
  lemma AddSlugsStep(acc: seq<string>, installed: seq<Addon>, i: nat)
    requires i < |installed|
    ensures AddSlugs(acc, installed[i..]) == AddSlugs(Add(acc, installed[i].slug), installed[i + 1..])
  {
    assert installed[i..][1..] == installed[i + 1..];
  }

  /** The include loop of `get_addons`. */
  method IncludeAddons(acc: seq<string>, includes: seq<string>, installed: seq<Addon>) returns (r: seq<string>)
    ensures r == IncludeEach(acc, includes, installed)
  {
    r := acc;
    for i := 0 to |includes|
      invariant IncludeEach(r, includes[i..], installed) == IncludeEach(acc, includes, installed)
    {
      IncludeEachStep(r, includes, installed, i);
      if includes[i] == Wildcard {
        r := AddInstalled(r, installed);
      } else {
        r := Add(r, includes[i]);
      }
    }
    assert includes[|includes|..] == [];
  }

  lemma IncludeEachStep(acc: seq<string>, includes: seq<string>, installed: seq<Addon>, i: nat)
    requires i < |includes|
    ensures IncludeEach(acc, includes[i..], installed) ==
      if includes[i] == Wildcard then IncludeEach(AddSlugs(acc, installed), includes[i + 1..], installed)
      else IncludeEach(Add(acc, includes[i]), includes[i + 1..], installed)
  {
    assert includes[i..][1..] == includes[i + 1..];
  }

  /** The exclude loop of `get_addons`: `set.remove` whose KeyError is
      swallowed. */
  method DiscardAddons(acc: seq<string>, excludes: seq<string>) returns (r: seq<string>)
    ensures r == DiscardEach(acc, excludes)
  {
    r := acc;
    for i := 0 to |excludes|
      invariant DiscardEach(r, excludes[i..]) == DiscardEach(acc, excludes)
    {
      assert excludes[i..] == [excludes[i]] + excludes[i + 1..];
      r := Discard(r, excludes[i]);
    }
    assert excludes[|excludes|..] == [];
  }

  /** `get_addons` as the tool runs it, over the catalogue it was handed. */
  method GetAddons(includes: seq<string>, excludes: seq<string>, installed: seq<Addon>) returns (r: Result<seq<string>>)
    ensures r == ResolveAddons(includes, excludes, installed)
  {
    var addons: seq<string> := [];
    if |includes| == 0 && |excludes| > 0 {
      addons := AddInstalled(addons, installed);
    }
    addons := IncludeAddons(addons, includes, installed);
    addons := DiscardAddons(addons, excludes);
    var missing := FirstUninstalled(addons, installed);
    if missing.Some? {
      return Err(KeyError(missing.value));
    }
    return Ok(SortBy(addons, NameKey(installed)));
  }
}
