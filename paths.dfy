/** POSIX path arithmetic as Python's posixpath does it, and the filesystem as an oracle. */
module Paths {
  import opened Outcomes
  import opened Strings

  /**
   * What crankd asks of the filesystem, taken as given: os.path.realpath,
   * os.path.expanduser, os.path.exists, os.path.isdir and the st_mtime of os.stat
   * (a path missing from `mtime` is one whose stat raises).
   */
  datatype FileSystem = FileSystem(
    realpath: string -> string,
    expanduser: string -> string,
    existing: set<string>,
    directories: set<string>,
    mtime: map<string, int>)

  predicate AllSlashes(s: string) {
    forall i :: 0 <= i < |s| ==> s[i] == '/'
  }

  /** `s.rstrip('/')`. */
  function RStripSlashes(s: string): (r: string)
    ensures r <= s
    ensures r == [] || r[|r| - 1] != '/'
    ensures AllSlashes(s[|r|..])
  {
    if s != [] && s[|s| - 1] == '/' then RStripSlashes(s[..|s| - 1]) else s
  }

  /**
   * `os.path.dirname(p)`: everything up to the last slash, with trailing slashes
   * removed unless the head is made of slashes only.
   */
  function Dirname(p: string): (r: string)
    ensures r <= p
    ensures '/' !in p ==> r == []
    ensures '/' in p ==> r != [] && (AllSlashes(r) || r[|r| - 1] != '/')
    // the split is at the last slash: only slashes separate r from a slash-free tail,
    // and none do exactly when r is the leading run of slashes
    ensures '/' in p ==> exists m :: SplitAfter(p, r, m)
  {
    var cut := match LastIndexOf(p, '/') case None => 0 case Some(d) => d + 1;
    var head := p[..cut];
    var r := if head != [] && !AllSlashes(head) then RStripSlashes(head) else head;
    assert '/' in p ==> SplitAfter(p, r, cut);
    r
  }

  /**
   * `r` is `p` cut before the run of slashes `p[|r|..m]`, and `p[m..]` holds no slash;
   * the run is empty exactly when `r` is itself made of slashes.
   */
  predicate SplitAfter(p: string, r: string, m: int)
  {
    |r| <= m <= |p| && AllSlashes(p[|r|..m]) && '/' !in p[m..] && (m == |r| <==> AllSlashes(r))
  }

  /** What Dirname's contract says of a path that holds a slash. */
  ghost predicate IsDirnameOf(p: string, r: string)
  {
    r <= p && r != [] && (AllSlashes(r) || r[|r| - 1] != '/') && exists m :: SplitAfter(p, r, m)
  }

  /** The split of Dirname's contract ends at the last slash of `p`. */
  lemma SplitEndsAtLastSlash(p: string, r: string, m: int)
    requires r <= p && r != [] && SplitAfter(p, r, m)
    ensures LastIndexOf(p, '/') == Some(m - 1)
  {
    if m == |r| {
      assert r[|r| - 1] == '/';
    } else {
      assert p[|r|..m][m - 1 - |r|] == '/';
    }
    NoSlashAfter(p, m, LastIndexOf(p, '/').value);
  }

  /** A slash-free tail `p[m..]` has no slash at any position from `m` on. */
  lemma NoSlashAfter(p: string, m: int, j: int)
    requires 0 <= m <= |p| && '/' !in p[m..]
    ensures m <= j < |p| ==> p[j] != '/'
  {
    if m <= j < |p| {
      assert p[m..][j - m] == p[j];
    }
  }

  /** Where the run of slashes that ends at `m` starts. */
  function SlashRunStart(p: string, m: nat): (k: nat)
    requires m <= |p|
    ensures k <= m
  {
    if m > 0 && p[m - 1] == '/' then SlashRunStart(p, m - 1) else m
  }

  /** The run of slashes ending at `m` starts at `k` when `p[k..m]` is slashes after a non-slash. */
  lemma {:induction false} SlashRunStartAt(p: string, k: nat, m: nat)
    requires k <= m <= |p| && AllSlashes(p[k..m])
    requires k == 0 || p[k - 1] != '/'
    ensures SlashRunStart(p, m) == k
    decreases m
  {
    if m > k {
      assert p[k..m][m - 1 - k] == '/';
      assert p[k..m - 1] == p[k..m][..m - 1 - k];
      SlashRunStartAt(p, k, m - 1);
    }
  }

  /** A string that meets Dirname's contract is fixed by where its split ends. */
  lemma CandidateBySplit(p: string, r: string, m: int)
    requires r <= p && r != [] && (AllSlashes(r) || r[|r| - 1] != '/') && SplitAfter(p, r, m)
    ensures 0 <= m <= |p|
    ensures r == if SlashRunStart(p, m) == 0 then p[..m] else p[..SlashRunStart(p, m)]
  {
    if AllSlashes(r) {
      assert p[..m] == r;
      SlashRunStartAt(p, 0, m);
    } else {
      SlashRunStartAt(p, |r|, m);
    }
  }

  /** Dirname's contract determines its result: any string that meets it is the dirname. */
  lemma DirnameDetermined(p: string, r: string)
    requires '/' in p && IsDirnameOf(p, r)
    ensures r == Dirname(p)
  {
    var d := Dirname(p);
    var m :| SplitAfter(p, r, m);
    var n :| SplitAfter(p, d, n);
    SplitEndsAtLastSlash(p, r, m);
    SplitEndsAtLastSlash(p, d, n);
    CandidateBySplit(p, r, m);
    CandidateBySplit(p, d, n);
  }

  /** Dirname either leaves a path alone (a root such as "/", or "") or makes it shorter. */
  lemma DirnameShortens(p: string)
    ensures Dirname(p) == p || |Dirname(p)| < |p|
  {
    var d := Dirname(p);
    if |d| == |p| {
      assert d == p[..|d|];
    }
  }
}
