/** Hashes and keys of the summary tiers (`backend/summarise/tiers.py`). */
module Tiers {
  import opened Ordering
  import opened Text

  /** A file's module is its parent folder; at the root it is the service itself. */
  function ModuleKey(service: string, path: string): string {
    ParentOr(path, service)
  }

  /** The module of a file in a folder is the folder; of one that is in none, the service. */
  lemma ModuleIsFolder(service: string, folder: string, name: string)
    requires '/' !in name
    ensures folder != "" ==> ModuleKey(service, folder + "/" + name) == folder
    ensures ModuleKey(service, "/" + name) == "/"
    ensures ModuleKey(service, name) == service
  {
    ParentOfJoined(folder, name, service);
    ParentOfJoined("", name, service);
    assert "" + "/" + name == "/" + name;
  }

  /** Files in folders share a module exactly when they share the folder. */
  lemma SameModuleIffSameFolder(service: string, f: string, a: string, h: string, b: string)
    requires '/' !in a && '/' !in b && f != "" && h != ""
    ensures ModuleKey(service, f + "/" + a) == ModuleKey(service, h + "/" + b) <==> f == h
  {
    ModuleIsFolder(service, f, a);
    ModuleIsFolder(service, h, b);
  }

  /** A file in no folder shares its module with others of its kind, and with a folder named like the service. */
  lemma RootModule(service: string, a: string, b: string, folder: string)
    requires '/' !in a && '/' !in b && folder != ""
    ensures ModuleKey(service, a) == ModuleKey(service, b)
    ensures ModuleKey(service, a) == ModuleKey(service, folder + "/" + b) <==> folder == service
  {
    ModuleIsFolder(service, folder, b);
    ModuleIsFolder(service, folder, a);
  }

  /** The key of a higher-tier summary: its children's hashes, in sorted order, and the prompt version. */
  function HigherContentHash(sha: string -> string, childHashes: seq<string>, version: string): string {
    sha(JoinWith(Sort(childHashes, StringLeq), "|") + "::" + version)
  }

  /** The key of one child's hash, and of two, whichever is given first. */
  lemma KeySpelledOut(sha: string -> string, a: string, b: string, version: string)
    ensures HigherContentHash(sha, [a], version) == sha(a + "::" + version)
    ensures StringLeq(a, b) ==>
              HigherContentHash(sha, [a, b], version) == HigherContentHash(sha, [b, a], version)
              == sha(a + "|" + b + "::" + version)
  {
    StringLeqTotal(a, b);
    SortOne(a);
    assert JoinWith([a], "|") == a;
    if StringLeq(a, b) {
      SortTwo(a, b);
      assert [a, b][1..] == [b];
      assert JoinWith([a, b], "|") == a + "|" + b;
    }
  }

  lemma SortOne(a: string)
    ensures Sort([a], StringLeq) == [a]
  {
    assert [a][1..] == [];
  }

  lemma SortTwo(a: string, b: string)
    requires StringLeq(a, b)
    ensures Sort([a, b], StringLeq) == Sort([b, a], StringLeq) == [a, b]
  {
    StringLeqTotal(a, b);
    SortOne(a);
    SortOne(b);
    assert [a, b][1..] == [b] && [b, a][1..] == [a] && [a][1..] == [];
    assert Insert(b, [], StringLeq) == [b];
  }

  /** What digests look like: non-empty and free of the separator. */
  predicate Digest(h: string) { h != "" && '|' !in h }

  ghost predicate Injective(sha: string -> string) { forall a, b :: sha(a) == sha(b) ==> a == b }

  lemma {:induction false} FirstSeparator(a: string, x: string, b: string, y: string)
    requires '|' !in a && '|' !in b && a + "|" + x == b + "|" + y
    ensures a == b && x == y
  {
    var s, t := a + "|" + x, b + "|" + y;
    assert s[|a|] == '|' && t[|b|] == '|';
    assert forall i :: 0 <= i < |a| ==> s[i] == a[i] && a[i] != '|';
    assert forall i :: 0 <= i < |b| ==> t[i] == b[i] && b[i] != '|';
    assert |a| == |b|;
    assert a == s[..|a|] && b == t[..|b|];
    assert x == s[|a| + 1..] && y == t[|b| + 1..];
  }

  lemma {:induction false} JoinShape(a: seq<string>)
    requires forall h <- a :: Digest(h)
    ensures JoinWith(a, "|") == "" <==> a == []
    ensures '|' in JoinWith(a, "|") <==> |a| > 1
  {
    if a != [] {
      assert Digest(a[0]);
      if |a| > 1 {
        assert JoinWith(a, "|")[|a[0]|] == '|';
      }
    }
  }

  /** Joining digests loses nothing. */
  lemma {:induction false} JoinInjective(a: seq<string>, b: seq<string>)
    requires (forall h <- a :: Digest(h)) && (forall h <- b :: Digest(h))
    requires JoinWith(a, "|") == JoinWith(b, "|")
    ensures a == b
  {
    JoinShape(a);
    JoinShape(b);
    if |a| > 1 {
      assert Digest(a[0]) && Digest(b[0]);
      FirstSeparator(a[0], JoinWith(a[1..], "|"), b[0], JoinWith(b[1..], "|"));
      JoinInjective(a[1..], b[1..]);
      assert a == [a[0]] + a[1..] && b == [b[0]] + b[1..];
    } else if |a| == 1 {
      assert a == [a[0]] && b == [b[0]];
    }
  }

  lemma CommonSuffix(a: string, b: string, suffix: string)
    requires a + suffix == b + suffix
    ensures a == b
  {
    assert |a| == |b|;
    assert a == (a + suffix)[..|a|] && b == (b + suffix)[..|b|];
  }

  lemma SortedHashes(a: seq<string>, b: seq<string>)
    ensures Sort(a, StringLeq) == Sort(b, StringLeq) <==> multiset(a) == multiset(b)
    ensures forall h :: h in Sort(a, StringLeq) <==> h in a
  {
    StringOrderIsTotal();
    SortDependsOnlyOnContents(a, b, StringLeq);
    SameMembers(Sort(a, StringLeq), a);
  }

  lemma HashIgnoresOrder(sha: string -> string, a: seq<string>, b: seq<string>, version: string)
    requires multiset(a) == multiset(b)
    ensures HigherContentHash(sha, a, version) == HigherContentHash(sha, b, version)
  {
    SortedHashes(a, b);
  }

  /** The key changes exactly when the multiset of child hashes does; their order never matters. */
  lemma HashIdentifiesChildren(sha: string -> string, a: seq<string>, b: seq<string>, version: string)
    requires Injective(sha) && (forall h <- a :: Digest(h)) && (forall h <- b :: Digest(h))
    ensures HigherContentHash(sha, a, version) == HigherContentHash(sha, b, version) <==> multiset(a) == multiset(b)
  {
    SortedHashes(a, b);
    SortedHashes(b, a);
    if HigherContentHash(sha, a, version) == HigherContentHash(sha, b, version) {
      SameHashSameList(sha, Sort(a, StringLeq), Sort(b, StringLeq), version);
    }
  }

  lemma SameHashSameList(sha: string -> string, x: seq<string>, y: seq<string>, version: string)
    requires Injective(sha) && (forall h <- x :: Digest(h)) && (forall h <- y :: Digest(h))
    requires sha(JoinWith(x, "|") + "::" + version) == sha(JoinWith(y, "|") + "::" + version)
    ensures x == y
  {
    var a, b := JoinWith(x, "|"), JoinWith(y, "|");
    assert a + "::" + version == a + ("::" + version) && b + "::" + version == b + ("::" + version);
    CommonSuffix(a, b, "::" + version);
    JoinInjective(x, y);
  }
}
