/** `os.path.splitext` on a POSIX system (separator `/`, extension separator `.`). */
module PosixPath {

  /** `s.rfind(c)`: the last index holding `c`, or -1. */
  function RFind(s: string, c: char): (r: int)
    ensures -1 <= r < |s|
    ensures r >= 0 ==> s[r] == c
    ensures forall j :: r < j < |s| ==> s[j] != c
  {
    if s == [] then -1
    else if s[|s| - 1] == c then |s| - 1
    else RFind(s[..|s| - 1], c)
  }

  /** The last occurrence is where the scan from the right stops. */
  lemma {:induction false} RFindAt(s: string, c: char, k: int)
    requires 0 <= k < |s| && s[k] == c
    requires forall j :: k < j < |s| ==> s[j] != c
    ensures RFind(s, c) == k
  {
    if k < |s| - 1 {
      RFindAt(s[..|s| - 1], c, k);
    }
  }

  /** No occurrence at all: -1. */
  lemma {:induction false} RFindNone(s: string, c: char)
    requires forall j :: 0 <= j < |s| ==> s[j] != c
    ensures RFind(s, c) == -1
  {
    if s != [] {
      RFindNone(s[..|s| - 1], c);
    }
  }

  /** An extension exists exactly when a `.` after the last `/` follows some other character of that component. */
  lemma ExtensionWitness(p: string)
    ensures (exists d, k :: RFind(p, '/') < k < d < |p| && p[d] == '.' && p[k] != '.')
        <==> RFind(p, '.') > RFind(p, '/') && exists k | RFind(p, '/') + 1 <= k < RFind(p, '.') :: p[k] != '.'
  {
    var sepIndex, dotIndex := RFind(p, '/'), RFind(p, '.');
    if exists d, k :: sepIndex < k < d < |p| && p[d] == '.' && p[k] != '.' {
      var d, k :| sepIndex < k < d < |p| && p[d] == '.' && p[k] != '.';
      assert d <= dotIndex;
    }
  }

  /**
   * `(root, ext)` with `root + ext == p`. The extension starts at the last `.`
   * after the last `/`, unless everything before that dot in the last path
   * component is a dot too (so `.bashrc` and `..` have no extension).
   */
  function SplitExt(p: string): (r: (string, string))
    ensures r.0 + r.1 == p
    ensures r.1 == [] || (r.1[0] == '.' && forall j :: 1 <= j < |r.1| ==> r.1[j] != '.' && r.1[j] != '/')
    ensures r.1 != [] <==> exists d, k :: RFind(p, '/') < k < d < |p| && p[d] == '.' && p[k] != '.'
  {
    var sepIndex := RFind(p, '/');
    var dotIndex := RFind(p, '.');
    ExtensionWitness(p);
    if dotIndex > sepIndex && exists k | sepIndex + 1 <= k < dotIndex :: p[k] != '.' then
      var ext := p[dotIndex..];
      assert forall j :: 1 <= j < |ext| ==> ext[j] == p[dotIndex + j];
      assert p[..dotIndex] + ext == p;
      (p[..dotIndex], ext)
    else (p, [])
  }
}
