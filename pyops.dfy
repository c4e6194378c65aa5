/** Python built-ins the orchestration code leans on, with Python's own semantics:
    floor division, list slicing with negative or out-of-range bounds, and
    `PurePath.suffix` / `PurePath.stem`. */
module PyOps {

  /** A `pathlib.Path`: the directory it sits in and its final component (`.name`). */
  datatype Path = Path(dir: string, name: string)

  /** Python's `a // b`: the quotient rounded toward negative infinity
      (Dafny's own `/` is Euclidean, which differs for a negative divisor). */
  function FloorDiv(a: int, b: int): (q: int)
    requires b != 0
    ensures b > 0 ==> q * b <= a < q * b + b
    ensures b < 0 ==> q * b + b < a <= q * b
  {
    if b > 0 || a % b == 0 then a / b else a / b - 1
  }

  /** How Python resolves one bound of `s[lo:hi]` against a length `n`. */
  function ClampIndex(i: int, n: nat): (r: nat)
    ensures r <= n
    ensures 0 <= i <= n ==> r == i
  {
    if i < 0 then (if i + n < 0 then 0 else i + n)
    else if i > n then n
    else i
  }

  /** Python's `s[lo:hi]` with step 1. */
  function Slice<T>(s: seq<T>, lo: int, hi: int): (r: seq<T>)
    ensures 0 <= lo <= hi <= |s| ==> r == s[lo..hi]
    ensures |r| <= |s|
  {
    var a, b := ClampIndex(lo, |s|), ClampIndex(hi, |s|);
    if a < b then s[a..b] else []
  }

  /** `name.rfind('.')`: the index of the last dot, or -1. */
  function LastDot(name: string): (i: int)
    ensures -1 <= i < |name|
    ensures 0 <= i ==> name[i] == '.'
    ensures forall j :: i < j < |name| ==> name[j] != '.'
  {
    if name == [] then -1
    else if name[|name| - 1] == '.' then |name| - 1
    else LastDot(name[..|name| - 1])
  }

  /** `PurePath(name).suffix`: the final dot and what follows it, unless the
      dot leads the name or ends it. */
  function Suffix(name: string): string
  {
    var i := LastDot(name);
    if 0 < i < |name| - 1 then name[i..] else ""
  }

  /** `PurePath(name).stem`: the name without its suffix. */
  function Stem(name: string): string
  {
    var i := LastDot(name);
    if 0 < i < |name| - 1 then name[..i] else name
  }

  /** A suffix is empty or a dot, not leading the name, followed by at least one
      character and no further dot, at the end of the name; the stem is the part
      of the name before it. */
  lemma NameShape(name: string)
    ensures var s := Suffix(name);
      s == [] || (2 <= |s| < |name| && s[0] == '.' && name[|name| - |s|..] == s)
    ensures forall j :: 0 < j < |Suffix(name)| ==> Suffix(name)[j] != '.'
    ensures Stem(name) <= name
    ensures |Stem(name)| < |name| ==> name[|Stem(name)|] == '.'
  {
  }

  /** Stem and suffix split a name without losing anything. */
  lemma StemSuffixSplit(name: string)
    ensures Stem(name) + Suffix(name) == name
    ensures |Suffix(name)| != 1
  {
  }

  /** Appending an extension such as ".md" to a non-empty base yields a name whose
      suffix is that extension and whose stem is the base. */
  lemma {:induction false} SuffixOfAppended(base: string, ext: string)
    requires |base| > 0 && |ext| >= 2 && ext[0] == '.'
    requires forall j :: 1 <= j < |ext| ==> ext[j] != '.'
    ensures Suffix(base + ext) == ext
    ensures Stem(base + ext) == base
  {
    LastDotOfAppended(base, ext);
    assert (base + ext)[|base|..] == ext;
    assert (base + ext)[..|base|] == base;
  }

  lemma {:induction false} LastDotOfAppended(base: string, ext: string)
    requires |ext| >= 1 && ext[0] == '.'
    requires forall j :: 1 <= j < |ext| ==> ext[j] != '.'
    ensures LastDot(base + ext) == |base|
    decreases |ext|
  {
    var name := base + ext;
    if |ext| > 1 {
      assert name[..|name| - 1] == base + ext[..|ext| - 1];
      LastDotOfAppended(base, ext[..|ext| - 1]);
    }
  }

  /** A stem is never empty when the file name is not. */
  lemma StemNonEmpty(name: string)
    requires |name| > 0
    ensures |Stem(name)| > 0
  {
  }
}
