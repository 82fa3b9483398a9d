/** `HassBackup.get_folders`: a backup's folder include/exclude lists turned
    into the ordered list passed to `ha backups new --folders`. */
module Folders {
  import opened Outcomes
  import opened Ordering
  import opened SeqSets
  import opened Config

  /** The folder holding the Home Assistant configuration, always listed first. */
  const Home := "homeassistant"
  const WildcardMessage := "Folder include '*' not implemented yet"
  const ExpansionMessage := "Auto folder expansion not implemented yet"

  function Id(s: string): string { s }

  /** Moves `homeassistant`, when present, to the front. */
  function HomeFirst(s: seq<string>): seq<string>
  {
    if Home in s then [Home] + Discard(s, Home) else s
  }

  /** The folder list of a backup, step by step as the tool computes it: a
      wildcard include is refused, an exclude with nothing included is
      refused, each exclude is removed from the included set (KeyError when
      it is not there), and the rest is sorted with `homeassistant` first. */
  function ResolveFolders(includes: seq<string>, excludes: seq<string>): Result<seq<string>>
  {
    if Wildcard in includes then Err(NotImplementedError(WildcardMessage))
    else
      var folders := AddEach([], includes);
      if |folders| == 0 && |excludes| > 0 then Err(NotImplementedError(ExpansionMessage))
      else
        match RemoveEach(folders, excludes)
        case Err(f) => Err(f)
        case Ok(rest) => Ok(if rest == [] then [] else HomeFirst(SortBy(rest, Id)))
  }

  ghost predicate Ascending(s: seq<string>)
  {
    forall i, j :: 0 <= i < j < |s| ==> Below(s[i], s[j])
  }

  /** `r` lists exactly `names`, once each, in ascending order except that
      `homeassistant`, when among them, comes first. */
  ghost predicate FolderOrder(r: seq<string>, names: set<string>)
  {
    && NoDup(r)
    && Elems(r) == names
    && (Home in names ==> |r| > 0 && r[0] == Home)
    && forall i, j :: 0 <= i < j < |r| && r[i] != Home && r[j] != Home ==> Below(r[i], r[j])
  }

  /** The three ways folder resolution fails, and the exception each raises. */
  lemma ResolveFoldersFails(includes: seq<string>, excludes: seq<string>)
    ensures ResolveFolders(includes, excludes).Err? <==>
      Wildcard in includes || (includes == [] && excludes != []) ||
      !(Elems(excludes) <= Elems(includes) && NoDup(excludes))
    ensures Wildcard in includes ==>
      ResolveFolders(includes, excludes) == Err(NotImplementedError(WildcardMessage))
    ensures Wildcard !in includes && includes == [] && excludes != [] ==>
      ResolveFolders(includes, excludes) == Err(NotImplementedError(ExpansionMessage))
    ensures Wildcard !in includes && includes != [] && ResolveFolders(includes, excludes).Err? ==>
      exists k :: k in excludes && ResolveFolders(includes, excludes) == Err(KeyError(k))
  {
    var folders := AddEach([], includes);
    ElemsEmpty(folders);
    ElemsEmpty(includes);
    ElemsEmpty(excludes);
    RemoveEachSucceeds(folders, excludes);
  }

  /** Moving `homeassistant` to the front of a sorted duplicate-free list
      gives the folder order of its names. */
  lemma HomeFirstOrder(sorted: seq<string>)
    requires NoDup(sorted) && Ascending(sorted)
    ensures FolderOrder(HomeFirst(sorted), Elems(sorted))
  {
    ElemsMembership(sorted, Home);
    if Home in sorted {
      var tail := Discard(sorted, Home);
      DiscardSorted(sorted, Home, Id);
      var r := [Home] + tail;
      ElemsMembership(tail, Home);
      forall i, j | 0 <= i < j < |r| ensures r[i] != r[j] {
        if i == 0 {
          assert r[j] == tail[j - 1];
          ElemsMembership(tail, r[j]);
        } else {
          assert r[i] == tail[i - 1] && r[j] == tail[j - 1];
        }
      }
      forall x ensures x in Elems(r) <==> x == Home || x in Elems(tail) {
        ElemsMembership(r, x);
        ElemsMembership(tail, x);
      }
      forall i, j | 0 <= i < j < |r| && r[i] != Home && r[j] != Home ensures Below(r[i], r[j]) {
        assert r[i] == tail[i - 1] && r[j] == tail[j - 1];
        assert Below(Id(tail[i - 1]), Id(tail[j - 1]));
      }
    }
  }

  lemma SortedIsAscending(s: seq<string>)
    ensures Ascending(SortBy(s, Id))
  {
    var sorted := SortBy(s, Id);
    forall i, j | 0 <= i < j < |sorted| ensures Below(sorted[i], sorted[j]) {
      assert Below(Id(sorted[i]), Id(sorted[j]));
    }
  }

  /** A successful resolution lists exactly the included folders that are not
      excluded, once each, sorted, `homeassistant` first. */
  lemma ResolveFoldersOrder(includes: seq<string>, excludes: seq<string>)
    requires ResolveFolders(includes, excludes).Ok?
    ensures FolderOrder(ResolveFolders(includes, excludes).value, Elems(includes) - Elems(excludes))
  {
    var folders := AddEach([], includes);
    RemoveEachSucceeds(folders, excludes);
    var rest := RemoveEach(folders, excludes).value;
    if rest == [] {
      ElemsEmpty(rest);
    } else {
      var sorted := SortBy(rest, Id);
      NoDupPermutation(rest, sorted);
      PermutationElems(rest, sorted);
      SortedIsAscending(rest);
      HomeFirstOrder(sorted);
    }
  }

  lemma {:induction false} AscendingUnique(r1: seq<string>, r2: seq<string>)
    requires NoDup(r1) && NoDup(r2) && Ascending(r1) && Ascending(r2)
    requires Elems(r1) == Elems(r2)
    ensures r1 == r2
    decreases |r1|
  {
    ElemsEmpty(r1);
    ElemsEmpty(r2);
    if r1 != [] {
      ElemsMembership(r2, r1[0]);
      ElemsMembership(r1, r2[0]);
      var k :| 0 <= k < |r2| && r2[k] == r1[0];
      var m :| 0 <= m < |r1| && r1[m] == r2[0];
      if k != 0 { assert Below(r2[0], r2[k]); }
      if m != 0 { assert Below(r1[0], r1[m]); }
      BelowReflexive(r1[0]);
      BelowAntisymmetric(r1[0], r2[0]);
      var t1, t2 := r1[1..], r2[1..];
      forall x ensures x in Elems(t1) <==> x in Elems(t2) {
        ElemsMembership(t1, x);
        ElemsMembership(t2, x);
        ElemsMembership(r1, x);
        ElemsMembership(r2, x);
        if x in t1 {
          var a :| 0 <= a < |t1| && t1[a] == x;
          assert r1[a + 1] == x;
          if x == r1[0] { assert false; }
        }
        if x in t2 {
          var b :| 0 <= b < |t2| && t2[b] == x;
          assert r2[b + 1] == x;
          if x == r2[0] { assert false; }
        }
        if x in r1 && x != r1[0] {
          var a :| 0 <= a < |r1| && r1[a] == x;
          assert t1[a - 1] == x;
        }
        if x in r2 && x != r2[0] {
          var b :| 0 <= b < |r2| && r2[b] == x;
          assert t2[b - 1] == x;
        }
      }
      forall i, j | 0 <= i < j < |t1| ensures t1[i] != t1[j] && Below(t1[i], t1[j]) {
        assert t1[i] == r1[i + 1] && t1[j] == r1[j + 1];
      }
      forall i, j | 0 <= i < j < |t2| ensures t2[i] != t2[j] && Below(t2[i], t2[j]) {
        assert t2[i] == r2[i + 1] && t2[j] == r2[j + 1];
      }
      AscendingUnique(t1, t2);
      assert r1 == [r1[0]] + t1 && r2 == [r2[0]] + t2;
    }
  }

  /** The folder order is determined by the set of names alone, so the
      arbitrary iteration order of the tool's Python set never shows. */
  lemma FolderOrderUnique(r1: seq<string>, r2: seq<string>, names: set<string>)
    requires FolderOrder(r1, names) && FolderOrder(r2, names)
    ensures r1 == r2
  {
    if Home in names {
      var t1, t2 := r1[1..], r2[1..];
      forall i, j | 0 <= i < j < |t1| ensures t1[i] != t1[j] && Below(t1[i], t1[j]) {
        assert t1[i] == r1[i + 1] && t1[j] == r1[j + 1];
      }
      forall i, j | 0 <= i < j < |t2| ensures t2[i] != t2[j] && Below(t2[i], t2[j]) {
        assert t2[i] == r2[i + 1] && t2[j] == r2[j + 1];
      }
      forall x ensures x in Elems(t1) <==> x in Elems(t2) {
        ElemsMembership(t1, x);
        ElemsMembership(t2, x);
        ElemsMembership(r1, x);
        ElemsMembership(r2, x);
        if x in t1 {
          var a :| 0 <= a < |t1| && t1[a] == x;
          assert r1[a + 1] == x;
          if x == Home { assert false; }
        }
        if x in t2 {
          var b :| 0 <= b < |t2| && t2[b] == x;
          assert r2[b + 1] == x;
          if x == Home { assert false; }
        }
        if x in r1 && x != Home {
          var a :| 0 <= a < |r1| && r1[a] == x;
          assert t1[a - 1] == x;
        }
        if x in r2 && x != Home {
          var b :| 0 <= b < |r2| && r2[b] == x;
          assert t2[b - 1] == x;
        }
      }
      AscendingUnique(t1, t2);
      assert r1 == [r1[0]] + t1 && r2 == [r2[0]] + t2;
    } else {
      forall i | 0 <= i < |r1| ensures r1[i] != Home {
        ElemsMembership(r1, Home);
      }
      forall i | 0 <= i < |r2| ensures r2[i] != Home {
        ElemsMembership(r2, Home);
      }
      AscendingUnique(r1, r2);
    }
  }

  /** The include loop of `get_folders`: each include is added to the set,
      and a wildcard raises on the spot. */
  method IncludeFolders(includes: seq<string>) returns (r: Result<seq<string>>)
    ensures Wildcard in includes ==> r == Err(NotImplementedError(WildcardMessage))
    ensures Wildcard !in includes ==> r == Ok(AddEach([], includes))
  {
    var folders: seq<string> := [];
    for i := 0 to |includes|
      invariant forall j :: 0 <= j < i ==> includes[j] != Wildcard
      invariant AddEach(folders, includes[i..]) == AddEach([], includes)
    {
      if includes[i] == Wildcard {
        return Err(NotImplementedError(WildcardMessage));
      }
      AddEachStep(folders, includes, i);
      folders := Add(folders, includes[i]);
    }
    assert includes[|includes|..] == [];
    return Ok(folders);
  }

  /** One turn of the include loop. */
  lemma AddEachStep(acc: seq<string>, includes: seq<string>, i: nat)
    requires i < |includes|
    ensures AddEach(acc, includes[i..]) == AddEach(Add(acc, includes[i]), includes[i + 1..])
  {
    assert includes[i..][1..] == includes[i + 1..];
  }

  /** The exclude loop of `get_folders`: `set.remove` of each exclude. */
  method RemoveFolders(folders: seq<string>, excludes: seq<string>) returns (r: Result<seq<string>>)
    ensures r == RemoveEach(folders, excludes)
  {
    var rest := folders;
    for j := 0 to |excludes|
      invariant RemoveEach(rest, excludes[j..]) == RemoveEach(folders, excludes)
    {
      assert excludes[j..] == [excludes[j]] + excludes[j + 1..];
      if excludes[j] !in rest {
        return Err(KeyError(excludes[j]));
      }
      rest := Discard(rest, excludes[j]);
    }
    assert excludes[|excludes|..] == [];
    return Ok(rest);
  }

  /** `get_folders` as the tool runs it: the include loop, the check for an
      exclude with nothing included, the exclude loop, then the sort. */
  method GetFolders(includes: seq<string>, excludes: seq<string>) returns (r: Result<seq<string>>)
    ensures r == ResolveFolders(includes, excludes)
  {
    var added := IncludeFolders(includes);
    if added.Err? {
      return added;
    }
    var folders := added.value;
    if |folders| == 0 && |excludes| > 0 {
      return Err(NotImplementedError(ExpansionMessage));
    }
    var removed := RemoveFolders(folders, excludes);
    if removed.Err? {
      return removed;
    }
    folders := removed.value;
    if folders == [] {
      return Ok([]);
    }
    var sorted := SortBy(folders, Id);
    if Home in sorted {
      sorted := [Home] + Discard(sorted, Home);
    }
    return Ok(sorted);
  }

  lemma ExampleOrder()
    ensures FolderOrder(["homeassistant", "media", "ssl"], Elems(["ssl", "homeassistant", "media"]))
  {
    var includes := ["ssl", "homeassistant", "media"];
    var expected := ["homeassistant", "media", "ssl"];
    forall x ensures x in Elems(includes) <==> x in Elems(expected) {
      ElemsMembership(includes, x);
      ElemsMembership(expected, x);
    }
    assert Below("media", "ssl");
  }

  /** The worked example: `["ssl", "homeassistant", "media"]` resolves to
      `["homeassistant", "media", "ssl"]`. */
  lemma FoldersExample()
    ensures ResolveFolders(["ssl", "homeassistant", "media"], []) == Ok(["homeassistant", "media", "ssl"])
  {
    var includes := ["ssl", "homeassistant", "media"];
    ResolveFoldersFails(includes, []);
    ResolveFoldersOrder(includes, []);
    assert Elems(includes) - Elems([]) == Elems(includes);
    ExampleOrder();
    FolderOrderUnique(ResolveFolders(includes, []).value, ["homeassistant", "media", "ssl"], Elems(includes));
  }
}
