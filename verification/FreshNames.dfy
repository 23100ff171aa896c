/** The search for a file name that does not exist yet, in its two naming modes. */
module FreshNames {
  import opened Common
  import opened Bytes

  type Path = bytes

  /** The suffix of a copy, in UTF-8. */
  const COPY_SUFFIX: bytes := [32, 45, 32, 229, 137, 175, 230, 156, 172]

  /** Where the extension of a path begins; `None` for the base names that take none (empty, `.` and `..`). */
  type Extension = e: Path -> Option<nat> | e([]) == None witness _ => None

  function At(ext: Extension, path: Path): (k: nat)
    requires ext(path).Some?
    ensures k <= |path|
  {
    if ext(path).value <= |path| then ext(path).value else |path|
  }

  /**
   `InsertBeforeExtension`: the suffix goes in at a position that depends on the path alone; a special
   base name gives the empty path.
   */
  function Insert(ext: Extension, path: Path, suffix: bytes): (r: Path)
    ensures ext(path).Some? ==> |r| == |path| + |suffix|
    ensures ext(path).None? ==> r == []
  {
    if ext(path).None? then [] else path[..At(ext, path)] + suffix + path[At(ext, path)..]
  }

  /** `StringPrintf(" (%d)", times)`. */
  function Number(times: nat): bytes { [32, 40] + ToDecimal(times) + [41] }

  /** The paths tried with numbers only: the path itself, then number 2, 3, ... */
  function NumberedCandidate(ext: Extension, path: Path, i: nat): Path {
    if i == 0 then path else Insert(ext, path, Number(i + 1))
  }

  /** The paths tried otherwise: the path itself, the copy, then the copy with number 2, 3, ... */
  function CopyCandidate(ext: Extension, path: Path, i: nat): Path {
    if i == 0 then path
    else if i == 1 then Insert(ext, path, COPY_SUFFIX)
    else Insert(ext, Insert(ext, path, COPY_SUFFIX), Number(i))
  }

  /** The suffix stands before the extension, and nothing else is changed. */
  lemma InsertPlaces(ext: Extension, path: Path, suffix: bytes, k: nat)
    requires ext(path) == Some(k) && k <= |path|
    ensures var r := Insert(ext, path, suffix);
            && r[..k] == path[..k] && r[k..k + |suffix|] == suffix && r[k + |suffix|..] == path[k..]
  {
  }

  lemma TwoInDecimal()
    ensures ToDecimal(2) == [50]
  {
  }

  /** The second paths tried: ` (2)` before the extension, or ` - ` and two characters of three bytes. */
  lemma SecondCandidates(ext: Extension, path: Path, k: nat)
    requires ext(path) == Some(k) && k <= |path|
    ensures NumberedCandidate(ext, path, 1) == path[..k] + [32, 40, 50, 41] + path[k..]
    ensures CopyCandidate(ext, path, 1) == path[..k] + [32, 45, 32, 229, 137, 175, 230, 156, 172] + path[k..]
  {
    TwoInDecimal();
  }

  lemma NumberInjective(i: nat, j: nat)
    requires Number(i) == Number(j)
    ensures i == j
  {
    assert Number(i)[2..|Number(i)| - 1] == ToDecimal(i);
    assert Number(j)[2..|Number(j)| - 1] == ToDecimal(j);
    DecimalRoundTrip(i);
    DecimalRoundTrip(j);
  }

  lemma InsertInjective(ext: Extension, path: Path, a: bytes, b: bytes)
    requires ext(path).Some? && Insert(ext, path, a) == Insert(ext, path, b)
    ensures a == b
  {
    var k := At(ext, path);
    assert Insert(ext, path, a)[k..k + |a|] == a;
    assert Insert(ext, path, b)[k..k + |b|] == b;
  }

  /** All candidates of one search are different, in both modes, except that several may be the empty path. */
  lemma CandidatesDiffer(ext: Extension, path: Path, i: nat, j: nat)
    requires i != j
    ensures NumberedCandidate(ext, path, i) == NumberedCandidate(ext, path, j) ==> NumberedCandidate(ext, path, i) == []
    ensures CopyCandidate(ext, path, i) == CopyCandidate(ext, path, j) ==> CopyCandidate(ext, path, i) == []
  {
    var copy := Insert(ext, path, COPY_SUFFIX);
    if i != 0 && j != 0 && ext(path).Some? && NumberedCandidate(ext, path, i) == NumberedCandidate(ext, path, j) {
      InsertInjective(ext, path, Number(i + 1), Number(j + 1));
      NumberInjective(i + 1, j + 1);
    }
    if i > 1 && j > 1 && ext(copy).Some? && CopyCandidate(ext, path, i) == CopyCandidate(ext, path, j) {
      InsertInjective(ext, copy, Number(i), Number(j));
      NumberInjective(i, j);
    }
  }

  /** The first candidates, as a set. */
  ghost function Tried(candidate: nat -> Path, k: nat): (s: set<Path>)
  {
    set i | 0 <= i < k :: candidate(i)
  }

  ghost predicate Distinct(candidate: nat -> Path) {
    forall i, j :: i != j && candidate(i) == candidate(j) ==> candidate(i) == []
  }

  lemma {:induction false} TriedSize(candidate: nat -> Path, k: nat)
    requires Distinct(candidate) && forall i :: 0 <= i < k ==> candidate(i) != []
    ensures |Tried(candidate, k)| == k
  {
    if k > 0 {
      TriedSize(candidate, k - 1);
      assert candidate(k - 1) !in Tried(candidate, k - 1);
      assert Tried(candidate, k) == Tried(candidate, k - 1) + {candidate(k - 1)};
    }
  }

  lemma {:induction false} SubsetSize(a: set<Path>, b: set<Path>)
    requires a <= b
    ensures |a| <= |b|
  {
    assert b == a + (b - a);
  }

  /** Pigeonhole: among more candidates than existing paths, one does not exist. The empty path never does. */
  lemma {:induction false} TooManyToExist(candidate: nat -> Path, k: nat, existing: set<Path>)
    requires Distinct(candidate) && [] !in existing
    requires forall i :: 0 <= i < k ==> candidate(i) in existing
    ensures k <= |existing|
  {
    TriedSize(candidate, k);
    assert Tried(candidate, k) <= existing;
    SubsetSize(Tried(candidate, k), existing);
  }

  /** What a search returns: the first candidate that does not exist, with few enough tries for an `int`. */
  ghost predicate FirstFree(candidate: nat -> Path, existing: set<Path>, r: Path) {
    exists k: nat :: k <= |existing| && r == candidate(k) && r !in existing
                     && forall i :: 0 <= i < k ==> candidate(i) in existing
  }

  ghost function Numbered(ext: Extension, path: Path): nat -> Path { i => NumberedCandidate(ext, path, i) }
  ghost function Copies(ext: Extension, path: Path): nat -> Path { i => CopyCandidate(ext, path, i) }

  lemma CandidatesDistinct(ext: Extension, path: Path)
    ensures Distinct(Numbered(ext, path)) && Distinct(Copies(ext, path))
  {
    forall i: nat, j: nat | i != j
      ensures Numbered(ext, path)(i) == Numbered(ext, path)(j) ==> Numbered(ext, path)(i) == []
      ensures Copies(ext, path)(i) == Copies(ext, path)(j) ==> Copies(ext, path)(i) == []
    {
      CandidatesDiffer(ext, path, i, j);
    }
  }

  /** `GetNoExistFilePath` with numbers only. It terminates for every finite set of existing paths. */
  method FindNumbered(ext: Extension, path: Path, existing: set<Path>) returns (r: Path)
    requires [] !in existing && |existing| + 2 <= INT_MAX
    ensures FirstFree(Numbered(ext, path), existing, r)
  {
    ghost var c := Numbered(ext, path);
    CandidatesDistinct(ext, path);
    hide Insert, Number, Distinct;
    r := path;
    var times := 2;
    while r in existing
      invariant 2 <= times && r == c(times - 2)
      invariant forall i :: 0 <= i < times - 2 ==> c(i) in existing
      invariant times - 2 <= |existing|
      decreases |existing| + 2 - times
    {
      assert forall i :: 0 <= i < times - 1 ==> c(i) in existing;
      TooManyToExist(c, times - 1, existing);
      assert times <= INT_MAX;
      r := Insert(ext, path, Number(times));
      times := times + 1;
    }
  }

  /** `GetNoExistFileNameInSpecDir`: first the copy, then the copy with numbers. */
  method FindCopy(ext: Extension, path: Path, existing: set<Path>) returns (r: Path)
    requires [] !in existing && |existing| + 2 <= INT_MAX
    ensures FirstFree(Copies(ext, path), existing, r)
  {
    ghost var c := Copies(ext, path);
    CandidatesDistinct(ext, path);
    hide Insert, Number, Distinct;
    var base := path;
    r := path;
    var times := 1;
    while r in existing
      invariant 1 <= times && r == c(times - 1)
      invariant base == if times == 1 then path else Insert(ext, path, COPY_SUFFIX)
      invariant forall i :: 0 <= i < times - 1 ==> c(i) in existing
      invariant times - 1 <= |existing|
      decreases |existing| + 1 - times
    {
      assert forall i :: 0 <= i < times ==> c(i) in existing;
      TooManyToExist(c, times, existing);
      assert times <= INT_MAX;
      if times > 1 {
        r := Insert(ext, base, Number(times));
      } else {
        base := Insert(ext, base, COPY_SUFFIX);
        r := base;
      }
      times := times + 1;
    }
  }
}
