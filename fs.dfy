/**
 * Path normalisation used as the key of every per-path table: on Windows an
 * absolute drive path is case-folded, everything else is kept as it is.
 * The platform test, done once when the module loads, is the parameter
 * `isWindows`.
 */
module Fs {
  import opened Text

  /** The regular expression `^[a-zA-Z]:\\`. */
  predicate HasDrivePrefix(p: string) {
    |p| >= 3 && IsAsciiLetter(p[0]) && p[1] == ':' && p[2] == '\\'
  }

  /**
   * `normalizePath`: the key of a path. Lower-casing is modelled on ASCII
   * letters only (see `Text.ToLower`).
   */
  function NormalizePath(isWindows: bool, p: string): (r: string)
    ensures |r| == |p|
    ensures !isWindows || !HasDrivePrefix(p) ==> r == p
    ensures isWindows && HasDrivePrefix(p) ==> forall i :: 0 <= i < |p| ==> r[i] == LowerChar(p[i])
  {
    if isWindows && HasDrivePrefix(p) then ToLower(p) else p
  }

  /** Normalising twice is normalising once. */
  lemma NormalizePathIdempotent(isWindows: bool, p: string)
    ensures NormalizePath(isWindows, NormalizePath(isWindows, p)) == NormalizePath(isWindows, p)
  {
    if isWindows && HasDrivePrefix(p) {
      var l := ToLower(p);
      assert IsAsciiLetter(l[0]) && l[1] == ':' && l[2] == '\\';
      ToLowerIdempotent(p);
    }
  }

  /**
   * On Windows, two drive paths that differ only in the case of ASCII letters
   * normalise to the same key, so they share one breakpoint list.
   */
  lemma NormalizePathFoldsCase(p: string, q: string)
    requires HasDrivePrefix(p) && |p| == |q|
    requires forall i :: 0 <= i < |p| ==> LowerChar(p[i]) == LowerChar(q[i])
    ensures NormalizePath(true, p) == NormalizePath(true, q)
  {
    assert IsAsciiLetter(q[0]) by {
      assert LowerChar(p[0]) == LowerChar(q[0]);
    }
    assert q[1] == ':' by { assert LowerChar(p[1]) == LowerChar(q[1]); }
    assert q[2] == '\\' by { assert LowerChar(p[2]) == LowerChar(q[2]); }
  }
}
