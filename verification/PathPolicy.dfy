// include/canonical_path_policy.h: normalising, comparing and nesting paths
// that are already canonical.

module PathPolicy {

  datatype Flavor = Posix | Windows

  /**
   * The two Unicode facts the policy asks Qt for: the case fold of a character and
   * whether it is a letter. All that is assumed of the fold is that the separator,
   * and nothing else, folds to the separator.
   */
  datatype Characters = Characters(fold: char -> char, isLetter: char -> bool)

  ghost predicate KeepsSeparator(table: Characters) {
    forall c :: table.fold(c) == '/' <==> c == '/'
  }

  // ---------------------------------------------------------------------
  // normalized

  function ForwardSlashes(path: string): (r: string)
    ensures |r| == |path|
  {
    seq(|path|, i requires 0 <= i < |path| => if path[i] == '\\' then '/' else path[i])
  }

  function Spelled(path: string, flavor: Flavor): string {
    if flavor.Windows? then ForwardSlashes(path) else path
  }

  /** A letter that takes one 16-bit unit, so that Qt counts the drive root as three units. */
  predicate IsDriveLetter(c: char, table: Characters) {
    c as int < 0x1_0000 && table.isLetter(c)
  }

  predicate IsDriveRoot(path: string, flavor: Flavor, table: Characters) {
    flavor.Windows? && |path| == 3 && IsDriveLetter(path[0], table) && path[1] == ':' && path[2] == '/'
  }

  /** No trailing separator is left to chop. */
  predicate Settled(path: string, flavor: Flavor, table: Characters) {
    |path| <= 1 || path[|path| - 1] != '/' || IsDriveRoot(path, flavor, table)
  }

  function Chopped(path: string, flavor: Flavor, table: Characters): (r: string)
    ensures Settled(r, flavor, table)
    ensures r <= path
    ensures |path| > 0 ==> |r| > 0
    decreases |path|
  {
    if Settled(path, flavor, table) then path else Chopped(path[..|path| - 1], flavor, table)
  }

  function Normalized(path: string, flavor: Flavor, table: Characters): string {
    Chopped(Spelled(path, flavor), flavor, table)
  }

  method Normalize(path: string, flavor: Flavor, table: Characters) returns (result: string)
    ensures result == Normalized(path, flavor, table)
  {
    result := path;
    if flavor.Windows? {
      result := ForwardSlashes(result);
    }
    while |result| > 1 && result[|result| - 1] == '/'
      invariant Chopped(result, flavor, table) == Normalized(path, flavor, table)
      decreases |result|
    {
      if IsDriveRoot(result, flavor, table) {
        break;
      }
      result := result[..|result| - 1];
    }
  }

  /** Only separators were chopped. */
  lemma {:induction false} ChoppedRest(path: string, flavor: Flavor, table: Characters)
    ensures var r := Chopped(path, flavor, table);
            forall k | |r| <= k < |path| :: path[k] == '/'
    decreases |path|
  {
    if !Settled(path, flavor, table) {
      ChoppedRest(path[..|path| - 1], flavor, table);
    }
  }

  /**
   * What normalisation means without its loop: the longest settled prefix of the spelled
   * path that leaves only separators behind.
   */
  lemma {:induction false} NormalizedIsLongest(path: string, flavor: Flavor, table: Characters, other: nat)
    requires other <= |Spelled(path, flavor)|
    requires Settled(Spelled(path, flavor)[..other], flavor, table)
    requires forall k | other <= k < |Spelled(path, flavor)| :: Spelled(path, flavor)[k] == '/'
    ensures other <= |Normalized(path, flavor, table)|
  {
    LongestSettledPrefix(Spelled(path, flavor), flavor, table, other);
  }

  lemma {:induction false} LongestSettledPrefix(path: string, flavor: Flavor, table: Characters, other: nat)
    requires other <= |path|
    requires Settled(path[..other], flavor, table)
    requires forall k | other <= k < |path| :: path[k] == '/'
    ensures other <= |Chopped(path, flavor, table)|
    decreases |path|
  {
    if !Settled(path, flavor, table) {
      assert path[..|path|] == path;
      var shorter := path[..|path| - 1];
      assert shorter[..other] == path[..other];
      LongestSettledPrefix(shorter, flavor, table, other);
    }
  }

  lemma NormalizedIdempotent(path: string, flavor: Flavor, table: Characters)
    ensures var r := Normalized(path, flavor, table); Normalized(r, flavor, table) == r
  {
    var spelled := Spelled(path, flavor);
    var r := Normalized(path, flavor, table);
    assert r <= spelled;
    assert Spelled(r, flavor) == r by {
      if flavor.Windows? {
        assert forall k | 0 <= k < |r| :: r[k] == spelled[k] && spelled[k] != '\\';
      }
    }
  }

  // ---------------------------------------------------------------------
  // equals and isStrictDescendant

  /** The form two characters are compared in: folded on Windows, as they are on POSIX. */
  function Key(path: string, flavor: Flavor, table: Characters): (r: string)
    ensures |r| == |path|
  {
    if flavor.Windows? then seq(|path|, i requires 0 <= i < |path| => table.fold(path[i])) else path
  }

  predicate Equals(left: string, right: string, flavor: Flavor, table: Characters) {
    var l := Normalized(left, flavor, table);
    var r := Normalized(right, flavor, table);
    l != "" && r != "" && Key(l, flavor, table) == Key(r, flavor, table)
  }

  predicate IsStrictDescendant(parent: string, path: string, flavor: Flavor, table: Characters) {
    var p := Normalized(parent, flavor, table);
    var q := Normalized(path, flavor, table);
    if p == "" || q == "" || Key(p, flavor, table) == Key(q, flavor, table) then false
    else
      var prefix := if p[|p| - 1] == '/' then p else p + "/";
      Key(prefix, flavor, table) <= Key(q, flavor, table)
  }

  lemma KeyAppendSlash(p: string, flavor: Flavor, table: Characters)
    requires KeepsSeparator(table)
    ensures Key(p + "/", flavor, table) == Key(p, flavor, table) + "/"
  {
    if flavor.Windows? {
      assert table.fold('/') == '/';
    }
  }

  /** Whether a path ends in the separator is visible in its key. */
  lemma KeyEndsWithSlash(p: string, flavor: Flavor, table: Characters)
    requires KeepsSeparator(table) && p != ""
    ensures p[|p| - 1] == '/' <==> Key(p, flavor, table)[|p| - 1] == '/'
  {
  }

  /** The key under which the strict descendants of a non-empty normalised path live. */
  function Prefix(key: string): (r: string)
    requires key != ""
    ensures key <= r
  {
    if key[|key| - 1] == '/' then key else key + "/"
  }

  lemma KeyOfPrefix(p: string, flavor: Flavor, table: Characters)
    requires KeepsSeparator(table) && p != ""
    ensures Key(if p[|p| - 1] == '/' then p else p + "/", flavor, table) == Prefix(Key(p, flavor, table))
  {
    KeyAppendSlash(p, flavor, table);
    KeyEndsWithSlash(p, flavor, table);
  }

  /** Nesting is a relation between keys: a proper extension of the parent's prefix. */
  lemma StrictDescendantOnKeys(parent: string, path: string, flavor: Flavor, table: Characters)
    requires KeepsSeparator(table)
    ensures var p := Key(Normalized(parent, flavor, table), flavor, table);
            var q := Key(Normalized(path, flavor, table), flavor, table);
            IsStrictDescendant(parent, path, flavor, table)
            <==> p != "" && q != "" && p != q && Prefix(p) <= q
  {
    var p := Normalized(parent, flavor, table);
    if p != "" {
      KeyOfPrefix(p, flavor, table);
    }
  }

  /** equals is reflexive on the paths that do not normalise to nothing, which are the non-empty ones. */
  lemma EqualsReflexive(a: string, flavor: Flavor, table: Characters)
    ensures Equals(a, a, flavor, table) <==> a != ""
  {
  }

  lemma EqualsSymmetricTransitive(a: string, b: string, c: string, flavor: Flavor, table: Characters)
    ensures Equals(a, b, flavor, table) <==> Equals(b, a, flavor, table)
    ensures Equals(a, b, flavor, table) && Equals(b, c, flavor, table) ==> Equals(a, c, flavor, table)
  {
  }

  /** A strict partial order: a descendant's key is longer, and prefixes chain. */
  lemma StrictDescendantOrder(a: string, b: string, c: string, flavor: Flavor, table: Characters)
    requires KeepsSeparator(table)
    ensures !IsStrictDescendant(a, a, flavor, table)
    ensures IsStrictDescendant(a, b, flavor, table) ==> !IsStrictDescendant(b, a, flavor, table)
    ensures IsStrictDescendant(a, b, flavor, table) && IsStrictDescendant(b, c, flavor, table)
            ==> IsStrictDescendant(a, c, flavor, table)
  {
    StrictDescendantOnKeys(a, b, flavor, table);
    StrictDescendantOnKeys(b, a, flavor, table);
    StrictDescendantOnKeys(b, c, flavor, table);
    StrictDescendantOnKeys(a, c, flavor, table);
  }

  /** Nesting sees paths only up to equals, on both sides, and never relates equal paths. */
  lemma StrictDescendantRespectsEquals(a: string, a': string, b: string, b': string,
                                       flavor: Flavor, table: Characters)
    requires KeepsSeparator(table)
    requires Equals(a, a', flavor, table) && Equals(b, b', flavor, table)
    ensures IsStrictDescendant(a, b, flavor, table) <==> IsStrictDescendant(a', b', flavor, table)
    ensures Equals(a, b, flavor, table) ==> !IsStrictDescendant(a, b, flavor, table)
  {
    StrictDescendantOnKeys(a, b, flavor, table);
    StrictDescendantOnKeys(a', b', flavor, table);
  }

  /**
   * The roots are no exception: everything else that starts with the root's separator is
   * below it, and the Windows drive "C:" has its root "C:/" as a strict descendant.
   */
  lemma Roots(path: string, drive: char, flavor: Flavor, table: Characters)
    requires KeepsSeparator(table)
    ensures var q := Normalized(path, flavor, table);
            IsStrictDescendant("/", path, flavor, table) <==> q != "" && q != "/" && q[0] == '/'
    ensures IsDriveLetter(drive, table) && drive != '\\' ==>
              var root := [drive] + ":/";
              var q := Key(Normalized(path, Windows, table), Windows, table);
              && (IsStrictDescendant(root, path, Windows, table)
                  <==> |q| > 3 && Key(root, Windows, table) <= q)
              && IsStrictDescendant([drive] + ":", root, Windows, table)
  {
    RootOfAll(path, flavor, table);
    if IsDriveLetter(drive, table) && drive != '\\' {
      DriveRoot(path, drive, table);
    }
  }

  lemma RootOfAll(path: string, flavor: Flavor, table: Characters)
    requires KeepsSeparator(table)
    ensures var q := Normalized(path, flavor, table);
            IsStrictDescendant("/", path, flavor, table) <==> q != "" && q != "/" && q[0] == '/'
  {
    StrictDescendantOnKeys("/", path, flavor, table);
    assert Spelled("/", flavor) == "/";
    assert Normalized("/", flavor, table) == "/";
    var q := Normalized(path, flavor, table);
    var key := Key(q, flavor, table);
    assert Key("/", flavor, table) == "/" by {
      KeyEndsWithSlash("/", flavor, table);
    }
    if q != "" {
      assert key[0] == '/' <==> q[0] == '/';
      assert key == "/" <==> q == "/" by {
        if |q| == 1 {
          assert q == [q[0]] && key == [key[0]];
        }
      }
    }
  }

  lemma DriveRoot(path: string, drive: char, table: Characters)
    requires KeepsSeparator(table)
    requires IsDriveLetter(drive, table) && drive != '\\'
    ensures var root := [drive] + ":/";
            var q := Key(Normalized(path, Windows, table), Windows, table);
            && (IsStrictDescendant(root, path, Windows, table) <==> |q| > 3 && Key(root, Windows, table) <= q)
            && IsStrictDescendant([drive] + ":", root, Windows, table)
  {
    var root, bare := [drive] + ":/", [drive] + ":";
    assert Spelled(root, Windows) == root && Spelled(bare, Windows) == bare;
    assert IsDriveRoot(root, Windows, table);
    assert Normalized(root, Windows, table) == root && Normalized(bare, Windows, table) == bare;
    KeyEndsWithSlash(root, Windows, table);
    StrictDescendantOnKeys(root, path, Windows, table);
    StrictDescendantOnKeys(bare, root, Windows, table);
    assert bare + "/" == root;
    KeyAppendSlash(bare, Windows, table);
    KeyEndsWithSlash(bare, Windows, table);
    assert bare[|bare| - 1] == ':';
  }

  // ---------------------------------------------------------------------
  // The two flavours, apart from spelling and keys

  /** POSIX: what is left is the path without its trailing separators, but for a first one. */
  lemma PosixNormalized(path: string, table: Characters)
    ensures var r := Normalized(path, Posix, table);
            && r <= path && (forall k | |r| <= k < |path| :: path[k] == '/')
            && (|r| > 1 ==> r[|r| - 1] != '/') && (path != "" ==> r != "")
  {
    ChoppedRest(path, Posix, table);
  }

  predicate IsSeparator(c: char) {
    c == '/' || c == '\\'
  }

  /** Windows: backslashes become separators, and a trailing separator stays only behind a drive. */
  lemma WindowsNormalized(path: string, table: Characters)
    ensures var r := Normalized(path, Windows, table);
            && |r| <= |path| && (forall k | |r| <= k < |path| :: IsSeparator(path[k]))
            && (forall k | 0 <= k < |r| :: r[k] == if path[k] == '\\' then '/' else path[k])
            && (path != "" ==> r != "")
            && (|r| > 1 && r[|r| - 1] == '/' ==> |r| == 3 && IsDriveLetter(r[0], table) && r[1] == ':')
    ensures |path| >= 3 && IsDriveLetter(path[0], table) && path[0] != '\\' && path[1] == ':'
            && (forall k | 2 <= k < |path| :: IsSeparator(path[k]))
            ==> Normalized(path, Windows, table) == [path[0]] + ":/"
  {
    var spelled, r := ForwardSlashes(path), Normalized(path, Windows, table);
    ChoppedRest(spelled, Windows, table);
    assert forall k | 0 <= k < |r| :: r[k] == spelled[k];
    assert forall k | |r| <= k < |path| :: spelled[k] == '/';
    if |path| >= 3 && IsDriveLetter(path[0], table) && path[0] != '\\' && path[1] == ':'
       && (forall k | 2 <= k < |path| :: IsSeparator(path[k])) {
      DriveRootStays(path, table);
    }
  }

  lemma DriveRootStays(path: string, table: Characters)
    requires |path| >= 3 && IsDriveLetter(path[0], table) && path[0] != '\\' && path[1] == ':'
    requires forall k | 2 <= k < |path| :: IsSeparator(path[k])
    ensures Normalized(path, Windows, table) == [path[0]] + ":/"
  {
    var spelled := ForwardSlashes(path);
    assert spelled[..3] == [path[0]] + ":/";
    NormalizedIsLongest(path, Windows, table, 3);
    var r := Normalized(path, Windows, table);
    assert r == spelled[..|r|];
    assert forall k | 2 <= k < |spelled| :: spelled[k] == '/';
  }

  /** POSIX paths are equal, and nested, character by character. */
  lemma PosixIsExact(left: string, right: string, table: Characters)
    ensures var l, r := Normalized(left, Posix, table), Normalized(right, Posix, table);
            && (Equals(left, right, Posix, table) <==> l != "" && l == r)
            && (IsStrictDescendant(left, right, Posix, table)
                <==> l != "" && l != r && (if l == "/" then "/" else l + "/") <= r)
  {
    var l, r := Normalized(left, Posix, table), Normalized(right, Posix, table);
    PosixNormalized(left, table);
    if l != "" && l[|l| - 1] == '/' {
      assert l == "/";
    }
  }

  /** Two characters that Windows paths do not tell apart. */
  predicate Alike(a: char, b: char, table: Characters) {
    table.fold(a) == table.fold(b)
  }

  /** Windows paths are equal when their characters are alike in case folding. */
  lemma WindowsFoldsCase(left: string, right: string, table: Characters)
    ensures var l, r := Normalized(left, Windows, table), Normalized(right, Windows, table);
            Equals(left, right, Windows, table)
            <==> l != "" && |l| == |r| && forall k | 0 <= k < |l| :: Alike(l[k], r[k], table)
  {
    var l, r := Normalized(left, Windows, table), Normalized(right, Windows, table);
    var x, y := Key(l, Windows, table), Key(r, Windows, table);
    if x == y {
      forall k | 0 <= k < |l|
        ensures Alike(l[k], r[k], table)
      {
        assert x[k] == table.fold(l[k]) && y[k] == table.fold(r[k]);
      }
    }
  }

  /** The same difference in case: told apart on POSIX, not on Windows. */
  lemma CaseMattersOnPosixOnly(table: Characters)
    requires KeepsSeparator(table) && table.fold('A') == table.fold('a')
    ensures !Equals("/A", "/a", Posix, table) && Equals("/A", "/a", Windows, table)
  {
    PosixIsExact("/A", "/a", table);
    WindowsFoldsCase("/A", "/a", table);
    assert Spelled("/A", Windows) == "/A" && Spelled("/a", Windows) == "/a";
  }
}
