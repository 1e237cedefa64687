/**
 The directory whitelist of src/core/audio_system.cpp: a string-prefix test on slash-terminated
 paths, against ancestry of component lists.

 A path reaches this code already canonical; `None` stands for a path that could not be resolved.
 */
module Whitelist {
  import opened Text

  // ---------- normalizing ----------

  /** Every backslash turned into a slash. */
  function Slashes(s: string): (r: string)
    ensures |r| == |s|
    ensures forall i :: 0 <= i < |s| ==> r[i] == if s[i] == '\\' then '/' else s[i]
  {
    seq(|s|, i requires 0 <= i < |s| => if s[i] == '\\' then '/' else s[i])
  }

  function Normalized(s: string): (n: string)
    ensures Slashes(s) <= n && |n| <= |s| + 1
    ensures s == "" <==> n == ""
    ensures n != "" ==> n[|n| - 1] == '/' && '\\' !in n
    ensures s != "" && s[|s| - 1] in {'/', '\\'} ==> |n| == |s|
  {
    var r := Slashes(s);
    if r != "" && r[|r| - 1] != '/' then r + "/" else r
  }

  predicate Allowed(whitelisted: set<string>, path: Option<string>) {
    path.Some? && exists w :: w in whitelisted && w <= Normalized(path.value)
  }

  class DirectoryWhitelist {
    var whitelistedPaths: set<string>

    /** The three default directories, resolved; one that cannot be is left out. */
    constructor (sounds: Option<string>, audio: Option<string>, sfx: Option<string>)
      ensures whitelistedPaths == set d | d in {sounds, audio, sfx} && d.Some? :: Normalized(d.value)
    {
      whitelistedPaths := {};
      new;
      AddWhitelistedDirectory(sounds);
      AddWhitelistedDirectory(audio);
      AddWhitelistedDirectory(sfx);
    }

    method NormalizePath(path: string) returns (result: string)
      ensures result == Normalized(path)
    {
      result := path;
      for i := 0 to |path|
        invariant |result| == |path|
        invariant forall j :: 0 <= j < i ==> result[j] == Slashes(path)[j]
        invariant forall j :: i <= j < |path| ==> result[j] == path[j]
      {
        if result[i] == '\\' {
          result := result[i := '/'];
        }
      }
      assert result == Slashes(path);
      if result != "" && result[|result| - 1] != '/' {
        result := result + "/";
      }
    }

    method AddWhitelistedDirectory(directory: Option<string>)
      modifies this
      ensures whitelistedPaths == old(whitelistedPaths)
                                  + if directory.Some? then {Normalized(directory.value)} else {}
    {
      if directory.Some? {
        var normalized := NormalizePath(directory.value);
        whitelistedPaths := whitelistedPaths + {normalized};
      }
    }

    method IsPathAllowed(path: Option<string>) returns (r: bool)
      ensures r <==> Allowed(whitelistedPaths, path)
    {
      if path.None? {
        return false;
      }
      var normalized := NormalizePath(path.value);
      var left := whitelistedPaths;
      while left != {}
        invariant left <= whitelistedPaths
        invariant forall w :: w in whitelistedPaths && w !in left ==> !(w <= normalized)
      {
        var whitelisted :| whitelisted in left;
        if whitelisted <= normalized {
          return true;
        }
        left := left - {whitelisted};
      }
      return false;
    }
  }

  // ---------- components ----------

  /** A file name on a canonical path. */
  predicate IsComponent(c: string) {
    c != "" && '/' !in c
  }

  predicate AreComponents(cs: seq<string>) {
    forall i :: 0 <= i < |cs| ==> IsComponent(cs[i])
  }

  /** Each component followed by a slash. */
  function Terminated(cs: seq<string>): string {
    if |cs| == 0 then "" else cs[0] + "/" + Terminated(cs[1..])
  }

  /** An absolute path: its root name (empty, or a drive such as `C:`) and its components. */
  datatype Place = Place(root: string, components: seq<string>)

  predicate IsAbsolute(p: Place) {
    '/' !in p.root && AreComponents(p.components)
  }

  /** The path spelled with slashes. */
  function PathString(p: Place): string {
    p.root + "/" + Joined(p.components, "/")
  }

  /** `s` is the path, each separator spelled either way. */
  predicate Spells(s: string, p: Place) {
    IsAbsolute(p) && Slashes(s) == PathString(p)
  }

  /** Ancestry: the same root, and the directory's components begin those of the path. */
  predicate Under(p: Place, directory: Place) {
    directory.root == p.root && directory.components <= p.components
  }

  lemma {:induction false} JoinedTerminated(cs: seq<string>)
    requires AreComponents(cs) && |cs| > 0
    ensures Joined(cs, "/") + "/" == Terminated(cs)
    ensures Joined(cs, "/") != "" && Joined(cs, "/")[|Joined(cs, "/")| - 1] != '/'
  {
    assert IsComponent(cs[0]);
    if |cs| == 1 {
      assert cs[1..] == [] && cs[0] + "/" + "" == cs[0] + "/";
      assert cs[0][|cs[0]| - 1] in cs[0];
    } else {
      assert forall i :: 0 <= i < |cs[1..]| ==> cs[1..][i] == cs[i + 1];
      JoinedTerminated(cs[1..]);
      var rest := Joined(cs[1..], "/");
      assert cs[0] + "/" + rest + "/" == cs[0] + "/" + (rest + "/");
    }
  }

  /** Normalizing, the root directory included, gives the slash-terminated spelling. */
  lemma NormalizedSpelling(s: string, p: Place)
    requires Spells(s, p)
    ensures Normalized(s) == p.root + "/" + Terminated(p.components)
  {
    if |p.components| > 0 {
      JoinedTerminated(p.components);
      var joined := Joined(p.components, "/");
      assert p.root + "/" + joined + "/" == p.root + "/" + (joined + "/");
    }
  }

  lemma FirstPartsAgree(d: string, dRest: string, p: string, pRest: string)
    requires '/' !in d && '/' !in p
    requires d + "/" + dRest <= p + "/" + pRest
    ensures d == p && dRest <= pRest
  {
    var a, b := d + "/" + dRest, p + "/" + pRest;
    assert a[|d|] == '/' == b[|d|] && b[|p|] == '/';
    assert d == a[..|d|] == b[..|d|] == p;
    assert dRest == a[|d| + 1..] && pRest == b[|d| + 1..];
  }

  lemma {:induction false} TerminatedPrefix(ds: seq<string>, ps: seq<string>)
    requires AreComponents(ds) && AreComponents(ps)
    ensures Terminated(ds) <= Terminated(ps) <==> ds <= ps
  {
    if |ds| > 0 && |ps| > 0 {
      assert IsComponent(ds[0]) && IsComponent(ps[0]);
      TerminatedPrefix(ds[1..], ps[1..]);
      assert ds == [ds[0]] + ds[1..] && ps == [ps[0]] + ps[1..];
      if Terminated(ds) <= Terminated(ps) {
        FirstPartsAgree(ds[0], Terminated(ds[1..]), ps[0], Terminated(ps[1..]));
      }
      if ds <= ps {
        assert ds[0] == ps[0] && ds[1..] <= ps[1..];
      }
    }
  }

  lemma PrefixIffUnder(directory: string, d: Place, path: string, p: Place)
    requires Spells(directory, d) && Spells(path, p)
    ensures Normalized(directory) <= Normalized(path) <==> Under(p, d)
  {
    NormalizedSpelling(directory, d);
    NormalizedSpelling(path, p);
    TerminatedPrefix(d.components, p.components);
    var a, b := Terminated(d.components), Terminated(p.components);
    if Normalized(directory) <= Normalized(path) {
      FirstPartsAgree(d.root, a, p.root, b);
    }
    if Under(p, d) {
      assert p.root + "/" + b == (p.root + "/" + a) + b[|a|..];
    }
  }

  /** The string test is ancestry: a path is allowed exactly when it lies under some whitelisted
      directory. */
  lemma AllowedIffUnderADirectory(dirs: seq<string>, places: seq<Place>, path: string, p: Place)
    requires |dirs| == |places| && Spells(path, p)
    requires forall i :: 0 <= i < |dirs| ==> Spells(dirs[i], places[i])
    ensures Allowed(set i | 0 <= i < |dirs| :: Normalized(dirs[i]), Some(path))
       <==> exists i :: 0 <= i < |places| && Under(p, places[i])
  {
    var whitelisted := set i | 0 <= i < |dirs| :: Normalized(dirs[i]);
    forall i | 0 <= i < |dirs|
      ensures Normalized(dirs[i]) <= Normalized(path) <==> Under(p, places[i])
      ensures Normalized(dirs[i]) in whitelisted
    {
      PrefixIffUnder(dirs[i], places[i], path, p);
    }
  }

  /** Whatever lies below an allowed path is allowed, and stays so as directories are added. */
  lemma AllowedIsInherited(dirs: seq<string>, places: seq<Place>, path: string, p: Place,
                           below: string, deeper: seq<string>, more: string)
    requires |dirs| == |places| && Spells(path, p) && Spells(below, Place(p.root, p.components + deeper))
    requires forall i :: 0 <= i < |dirs| ==> Spells(dirs[i], places[i])
    requires Allowed(set i | 0 <= i < |dirs| :: Normalized(dirs[i]), Some(path))
    ensures Allowed((set i | 0 <= i < |dirs| :: Normalized(dirs[i])) + {Normalized(more)}, Some(below))
  {
    AllowedIffUnderADirectory(dirs, places, path, p);
    AllowedIffUnderADirectory(dirs, places, below, Place(p.root, p.components + deeper));
    var i :| 0 <= i < |places| && Under(p, places[i]);
    assert Under(Place(p.root, p.components + deeper), places[i]);
  }
}
