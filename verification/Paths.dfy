/** Protected paths: the direct check, and the check of a child against the cached facts about its directory. */
module Paths {
  import opened Bytes

  type Path = bytes

  const SLASH: byte := 47
  const BACKSLASH: byte := 92

  /** Paths compare byte by byte, on Windows without regard to ASCII case. */
  datatype Platform = Windows | Posix

  function Fold(os: Platform, c: byte): byte {
    if os == Windows && 65 <= c <= 90 then c + 32 else c
  }

  /** The same path up to folding. */
  predicate Same(os: Platform, a: Path, b: Path) {
    |a| == |b| && forall i :: 0 <= i < |a| ==> Fold(os, a[i]) == Fold(os, b[i])
  }

  /** `base::StartsWith`. */
  predicate StartsWith(os: Platform, a: Path, b: Path) {
    |b| <= |a| && forall i :: 0 <= i < |b| ==> Fold(os, a[i]) == Fold(os, b[i])
  }

  predicate MatchPath(os: Platform, a: Path, b: Path, fullEqual: bool) {
    if |a| < |b| then false
    else if fullEqual && |a| != |b| then false
    else StartsWith(os, a, b)
  }

  predicate IsStartWith(os: Platform, path: Path, start: Path) {
    if |path| == |start| then MatchPath(os, path, start, false) else MatchPath(os, path, start + [SLASH], false)
  }

  /** The same letter in the other case. */
  predicate OtherCase(c: byte, d: byte) {
    (65 <= c <= 90 && d == c + 32) || (97 <= c <= 122 && c == d + 32)
  }

  /** Bytes compare equal when they are equal, and on Windows also when they are one letter in both cases. */
  lemma FoldedBytes(os: Platform, c: byte, d: byte)
    ensures Fold(os, c) == Fold(os, d) <==> c == d || (os == Windows && OtherCase(c, d))
  {
  }

  /** So paths are the same on Posix when they are equal, on Windows when they differ in case only. */
  lemma SamePaths(os: Platform, a: Path, b: Path)
    ensures Same(os, a, b)
            <==> |a| == |b| && forall i :: 0 <= i < |a| ==> a[i] == b[i] || (os == Windows && OtherCase(a[i], b[i]))
    ensures Same(Posix, a, b) <==> a == b
  {
    forall i | 0 <= i < |a| == |b|
      ensures Fold(os, a[i]) == Fold(os, b[i]) <==> a[i] == b[i] || (os == Windows && OtherCase(a[i], b[i]))
    {
      FoldedBytes(os, a[i], b[i]);
    }
  }

  /** A match is always on whole components: the path itself, or something below it. */
  lemma WholeComponents(os: Platform, path: Path, start: Path)
    ensures IsStartWith(os, path, start)
            <==> Same(os, path, start)
                 || (|start| < |path| && Same(os, path[..|start|], start) && path[|start|] == SLASH)
    ensures MatchPath(os, path, start, true) <==> Same(os, path, start)
  {
    var s := start + [SLASH];
    if |start| < |path| {
      assert StartsWith(os, path, s) ==> Fold(os, path[|start|]) == Fold(os, s[|start|]);
      assert forall i :: 0 <= i < |start| ==> s[i] == start[i];
    }
  }

  /** What a machine protects: profile directories themselves, and protected trees with all they hold. */
  datatype Policy = Policy(os: Platform, profiles: seq<Path>, protected: seq<Path>)

  predicate IsProfile(p: Policy, path: Path) {
    exists i :: 0 <= i < |p.profiles| && MatchPath(p.os, path, p.profiles[i], true)
  }

  predicate BelowProfile(p: Policy, path: Path) {
    exists i :: 0 <= i < |p.profiles| && IsStartWith(p.os, path, p.profiles[i])
  }

  predicate BelowProtected(p: Policy, path: Path) {
    exists i :: 0 <= i < |p.protected| && IsStartWith(p.os, path, p.protected[i])
  }

  predicate AboveProtected(p: Policy, path: Path) {
    exists i :: 0 <= i < |p.protected| && IsStartWith(p.os, p.protected[i], path)
  }

  /** `ProtectedPath::IsProtected`. */
  predicate IsProtected(p: Policy, path: Path) {
    IsProfile(p, path) || (!BelowProfile(p, path) && BelowProtected(p, path))
  }

  /** `ProtectedPath::IsProtectedEx`: what holds a protected path is protected too. */
  predicate IsProtectedEx(p: Policy, path: Path) {
    IsProtected(p, path) || AboveProtected(p, path)
  }

  /** The directory itself, or something below it. */
  predicate Within(os: Platform, path: Path, dir: Path) {
    Same(os, path, dir) || (|dir| < |path| && Same(os, path[..|dir|], dir) && path[|dir|] == 47)
  }

  /**
   What is protected: the profile directories themselves, and what is within a protected tree but not
   within a profile; by the wider check also what a protected tree is within.
   */
  lemma WhatIsProtected(p: Policy, path: Path)
    ensures IsProtected(p, path)
            <==> || (exists i :: 0 <= i < |p.profiles| && Same(p.os, path, p.profiles[i]))
                 || (&& (forall i :: 0 <= i < |p.profiles| ==> !Within(p.os, path, p.profiles[i]))
                     && (exists i :: 0 <= i < |p.protected| && Within(p.os, path, p.protected[i])))
    ensures IsProtectedEx(p, path)
            <==> IsProtected(p, path) || exists i :: 0 <= i < |p.protected| && Within(p.os, p.protected[i], path)
  {
    hide Same;
    forall i | 0 <= i < |p.profiles|
      ensures IsStartWith(p.os, path, p.profiles[i]) == Within(p.os, path, p.profiles[i])
      ensures MatchPath(p.os, path, p.profiles[i], true) == Same(p.os, path, p.profiles[i])
    {
      WholeComponents(p.os, path, p.profiles[i]);
    }
    forall i | 0 <= i < |p.protected|
      ensures IsStartWith(p.os, path, p.protected[i]) == Within(p.os, path, p.protected[i])
      ensures IsStartWith(p.os, p.protected[i], path) == Within(p.os, p.protected[i], path)
    {
      WholeComponents(p.os, path, p.protected[i]);
      WholeComponents(p.os, p.protected[i], path);
    }
    hide Within, IsStartWith, MatchPath;
  }

  lemma SameMatches(os: Platform, a: Path, b: Path, c: Path)
    requires Same(os, a, b)
    ensures IsStartWith(os, a, c) == IsStartWith(os, b, c) && IsStartWith(os, c, a) == IsStartWith(os, c, b)
    ensures MatchPath(os, a, c, true) == MatchPath(os, b, c, true)
  {
    var c', a', b' := c + [SLASH], a + [SLASH], b + [SLASH];
    assert forall i :: 0 <= i < |a| ==> Fold(os, a[i]) == Fold(os, b[i]);
    assert forall i :: 0 <= i < |a'| ==> Fold(os, a'[i]) == Fold(os, b'[i]);
    assert StartsWith(os, a, c') == StartsWith(os, b, c') && StartsWith(os, a, c) == StartsWith(os, b, c);
    assert StartsWith(os, c, a') == StartsWith(os, c, b') && StartsWith(os, c, a) == StartsWith(os, c, b);
  }

  /** The same path in another spelling gets the same answers. */
  lemma SameAnswers(p: Policy, a: Path, b: Path)
    requires Same(p.os, a, b)
    ensures IsProtected(p, a) == IsProtected(p, b) && IsProtectedEx(p, a) == IsProtectedEx(p, b)
  {
    hide IsStartWith, MatchPath, Same;
    forall c: Path
      ensures IsStartWith(p.os, a, c) == IsStartWith(p.os, b, c) && IsStartWith(p.os, c, a) == IsStartWith(p.os, c, b)
      ensures MatchPath(p.os, a, c, true) == MatchPath(p.os, b, c, true)
    {
      SameMatches(p.os, a, b, c);
    }
  }

  function Child(root: Path, name: Path): Path { root + [SLASH] + name }

  predicate Plain(name: Path) { forall i :: 0 <= i < |name| ==> name[i] != SLASH }

  // ---------- The cached check agrees with the direct one ----------

  lemma ChildBelow(os: Platform, root: Path, name: Path, start: Path)
    requires IsStartWith(os, root, start)
    ensures IsStartWith(os, Child(root, name), start)
  {
    WholeComponents(os, root, start);
    WholeComponents(os, Child(root, name), start);
    assert Child(root, name)[..|start|] == root[..|start|];
  }

  /** A child lies below something only if its directory does or it is that thing itself. */
  lemma BelowChild(os: Platform, root: Path, name: Path, start: Path)
    requires Plain(name) && IsStartWith(os, Child(root, name), start)
    ensures IsStartWith(os, root, start) || MatchPath(os, Child(root, name), start, true)
  {
    var c := Child(root, name);
    WholeComponents(os, root, start);
    WholeComponents(os, c, start);
    assert forall i :: |root| < i < |c| ==> c[i] == name[i - |root| - 1];
    if |start| <= |root| {
      assert c[..|start|] == root[..|start|];
      if |start| == |root| { assert root[..|start|] == root; }
    }
  }

  /** What the constructor of `ProtectedPathCheck` remembers about a directory. */
  predicate CachedAnswer(p: Policy, root: Path, name: Path) {
    !IsProfile(p, root) && (IsProtected(p, root) || IsProtected(p, Child(root, name)))
  }

  predicate CachedAnswerEx(p: Policy, root: Path, name: Path) {
    !IsProfile(p, root) && (IsProtected(p, root) || IsProtectedEx(p, Child(root, name)))
  }

  /** In a protected directory that is no profile every child is protected. */
  lemma {:induction false} ProtectedBelow(p: Policy, root: Path, name: Path)
    requires Plain(name) && !IsProfile(p, root) && IsProtected(p, root)
    ensures IsProtected(p, Child(root, name))
  {
    var c := Child(root, name);
    if BelowProfile(p, c) {
      var i :| 0 <= i < |p.profiles| && IsStartWith(p.os, c, p.profiles[i]);
      BelowChild(p.os, root, name, p.profiles[i]);
      assert MatchPath(p.os, c, p.profiles[i], true);
    }
    var j :| 0 <= j < |p.protected| && IsStartWith(p.os, root, p.protected[j]);
    ChildBelow(p.os, root, name, p.protected[j]);
  }

  /** A child of a profile directory is protected only if it is itself a profile directory. */
  lemma {:induction false} ProfileBelow(p: Policy, root: Path, name: Path)
    requires IsProfile(p, root)
    ensures IsProtected(p, Child(root, name)) <==> IsProfile(p, Child(root, name))
  {
    var i :| 0 <= i < |p.profiles| && MatchPath(p.os, root, p.profiles[i], true);
    WholeComponents(p.os, root, p.profiles[i]);
    ChildBelow(p.os, root, name, p.profiles[i]);
  }

  /**
   For every directory and every plain child name, the cached check equals the direct check of the
   whole path if and only if not both the directory and the child are profile directories.
   */
  lemma {:induction false} CacheAgrees(p: Policy, root: Path, name: Path)
    requires Plain(name)
    ensures CachedAnswer(p, root, name) == IsProtected(p, Child(root, name))
            <==> !(IsProfile(p, root) && IsProfile(p, Child(root, name)))
  {
    if IsProfile(p, root) {
      ProfileBelow(p, root, name);
    } else if IsProtected(p, root) {
      ProtectedBelow(p, root, name);
    }
  }

  /** The extended check also disagrees for a child of a profile directory that holds a protected path. */
  lemma {:induction false} CacheAgreesEx(p: Policy, root: Path, name: Path)
    requires Plain(name)
    ensures CachedAnswerEx(p, root, name) == IsProtectedEx(p, Child(root, name))
            <==> !(IsProfile(p, root) && (IsProfile(p, Child(root, name)) || AboveProtected(p, Child(root, name))))
  {
    if IsProfile(p, root) {
      ProfileBelow(p, root, name);
    } else if IsProtected(p, root) {
      ProtectedBelow(p, root, name);
    }
  }

  /** `C:/U`, the directory of a profile; its children `C:/U/m` and `C:/U/p`; and `C:/W`. */
  const PROFILE: Path := [67, 58, 47, 85]
  const MUSIC: Path := [109]
  const PROGRAMS: Path := [112]
  const SYSTEM: Path := [67, 58, 47, 87]

  /** A profile directory inside a profile directory: protected, but not according to the cached checks. */
  lemma NestedProfiles()
    ensures var p := Policy(Windows, [PROFILE, Child(PROFILE, MUSIC)], [SYSTEM]);
            && Plain(MUSIC) && IsProtected(p, Child(PROFILE, MUSIC)) && IsProtectedEx(p, Child(PROFILE, MUSIC))
            && !CachedAnswer(p, PROFILE, MUSIC) && !CachedAnswerEx(p, PROFILE, MUSIC)
  {
    var p := Policy(Windows, [PROFILE, Child(PROFILE, MUSIC)], [SYSTEM]);
    WholeComponents(Windows, PROFILE, p.profiles[0]);
    WholeComponents(Windows, Child(PROFILE, MUSIC), p.profiles[1]);
  }

  /** A protected path two levels below a profile directory: only the extended checks differ on the level between. */
  lemma ProtectedInsideProfile()
    ensures var child := Child(PROFILE, PROGRAMS);
            var p := Policy(Windows, [PROFILE], [SYSTEM, Child(child, MUSIC)]);
            && Plain(PROGRAMS) && IsProtectedEx(p, child) && !CachedAnswerEx(p, PROFILE, PROGRAMS)
            && !IsProtected(p, child) && !CachedAnswer(p, PROFILE, PROGRAMS)
  {
    var child := Child(PROFILE, PROGRAMS);
    var p := Policy(Windows, [PROFILE], [SYSTEM, Child(child, MUSIC)]);
    WholeComponents(Windows, PROFILE, p.profiles[0]);
    WholeComponents(Windows, child, p.profiles[0]);
    WholeComponents(Windows, p.protected[1], child);
    assert p.protected[1][..|child|] == child && child[..|PROFILE|] == PROFILE;
    assert BelowProfile(p, child) && AboveProtected(p, child);
  }

  // ---------- The code ----------

  method ScanProfiles(p: Policy, path: Path) returns (r: bool)
    ensures r == IsProfile(p, path)
  {
    for i := 0 to |p.profiles|
      invariant forall j :: 0 <= j < i ==> !MatchPath(p.os, path, p.profiles[j], true)
    {
      if MatchPath(p.os, path, p.profiles[i], true) { return true; }
    }
    return false;
  }

  method ScanBelow(os: Platform, path: Path, starts: seq<Path>) returns (r: bool)
    ensures r == exists i :: 0 <= i < |starts| && IsStartWith(os, path, starts[i])
  {
    for i := 0 to |starts|
      invariant forall j :: 0 <= j < i ==> !IsStartWith(os, path, starts[j])
    {
      if IsStartWith(os, path, starts[i]) { return true; }
    }
    return false;
  }

  method CheckProtected(p: Policy, path: Path) returns (r: bool)
    ensures r == IsProtected(p, path)
  {
    var profile := ScanProfiles(p, path);
    if profile { return true; }
    var below := ScanBelow(p.os, path, p.profiles);
    if below { return false; }
    r := ScanBelow(p.os, path, p.protected);
  }

  method CheckProtectedEx(p: Policy, path: Path) returns (r: bool)
    ensures r == IsProtectedEx(p, path)
  {
    r := CheckProtected(p, path);
    if r { return; }
    for i := 0 to |p.protected|
      invariant forall j :: 0 <= j < i ==> !IsStartWith(p.os, p.protected[j], path)
    {
      if IsStartWith(p.os, p.protected[i], path) { return true; }
    }
  }

  function UnifiedSlash(path: Path): (r: Path)
    ensures |r| == |path| && 92 !in r
    ensures forall i :: 0 <= i < |path| ==> if path[i] == 92 then r[i] == 47 else r[i] == path[i]
  {
    seq(|path|, i requires 0 <= i < |path| => if path[i] == BACKSLASH then SLASH else path[i])
  }

  class ProtectedPathCheck {
    const policy: Policy
    const rootPath: Path
    const rootIsProfile: bool
    const rootIsProtected: bool

    ghost predicate Valid() {
      rootIsProfile == IsProfile(policy, rootPath) && rootIsProtected == IsProtected(policy, rootPath)
    }

    constructor (policy: Policy, path: Path)
      ensures Valid() && this.policy == policy && rootPath == UnifiedSlash(path)
    {
      var root := UnifiedSlash(path);
      var isProfile := ScanProfiles(policy, root);
      var isProtected := CheckProtected(policy, root);
      this.policy, rootPath, rootIsProfile, rootIsProtected := policy, root, isProfile, isProtected;
    }

    /** The cached check of a child. */
    method IsChildProtected(name: Path) returns (r: bool)
      requires Valid()
      ensures r == CachedAnswer(policy, rootPath, name)
    {
      if rootIsProfile { return false; }
      if rootIsProtected { return true; }
      r := CheckProtected(policy, rootPath + [SLASH] + name);
    }

    method IsChildProtectedEx(name: Path) returns (r: bool)
      requires Valid()
      ensures r == CachedAnswerEx(policy, rootPath, name)
    {
      if rootIsProfile { return false; }
      if rootIsProtected { return true; }
      r := CheckProtectedEx(policy, rootPath + [SLASH] + name);
    }
  }
}
