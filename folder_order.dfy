/** Folder priority order (process_paper.py, `sort_folders_by_date_desc`): pair each
    folder with its date key, sort the pairs newest first with Python's stable
    `list.sort(key=..., reverse=True)`, and keep the folders. */
module FolderOrder {
  import opened FolderDates
  import opened PyOps

  function FolderKey(p: Path): Date
  {
    ExtractDate(p.name)
  }

  /** Keys never increase from left to right. */
  ghost predicate NonIncreasing<T>(s: seq<T>, key: T -> Date)
  {
    forall i, j :: 0 <= i < j < |s| ==> AtOrBefore(key(s[j]), key(s[i]))
  }

  /** The elements of `s` whose key is `k`, in their order in `s`. */
  function WithKey<T>(s: seq<T>, key: T -> Date, k: Date): seq<T>
  {
    if s == [] then [] else (if key(s[0]) == k then [s[0]] else []) + WithKey(s[1..], key, k)
  }

  /** Inserts `x` in front of the first element whose key is not later than its own,
      so `x` stays ahead of the elements with an equal key. */
  function InsertDesc<T>(x: T, s: seq<T>, key: T -> Date): seq<T>
  {
    if s == [] || AtOrBefore(key(s[0]), key(x)) then [x] + s
    else [s[0]] + InsertDesc(x, s[1..], key)
  }

  /** The result of Python's stable `sort(key=key, reverse=True)` on `s`. */
  function SortDesc<T>(s: seq<T>, key: T -> Date): seq<T>
  {
    if s == [] then [] else InsertDesc(s[0], SortDesc(s[1..], key), key)
  }

  lemma {:induction false} InsertDescPermutes<T>(x: T, s: seq<T>, key: T -> Date)
    ensures multiset(InsertDesc(x, s, key)) == multiset(s) + multiset{x}
  {
    if s != [] && !AtOrBefore(key(s[0]), key(x)) {
      InsertDescPermutes(x, s[1..], key);
      assert s == [s[0]] + s[1..];
    }
  }

  lemma {:induction false} InsertDescSorted<T>(x: T, s: seq<T>, key: T -> Date)
    requires NonIncreasing(s, key)
    ensures NonIncreasing(InsertDesc(x, s, key), key)
  {
    var r := InsertDesc(x, s, key);
    if s == [] {
    } else if AtOrBefore(key(s[0]), key(x)) {
      forall i, j | 0 <= i < j < |r| ensures AtOrBefore(key(r[j]), key(r[i])) {
        if i == 0 {
          AtOrBeforeTotalOrder(key(s[j - 1]), key(s[0]), key(x));
          if j > 1 { assert AtOrBefore(key(s[j - 1]), key(s[0])); }
        }
      }
    } else {
      var t := InsertDesc(x, s[1..], key);
      InsertDescSorted(x, s[1..], key);
      InsertDescPermutes(x, s[1..], key);
      forall i, j | 0 <= i < j < |r| ensures AtOrBefore(key(r[j]), key(r[i])) {
        if i == 0 {
          var y := t[j - 1];
          assert y in multiset(t);
          assert y in multiset(s[1..]) + multiset{x};
          if y == x {
            AtOrBeforeTotalOrder(key(x), key(s[0]), key(x));
          } else {
            assert y in s[1..];
            var m :| 0 <= m < |s[1..]| && s[1..][m] == y;
            assert s[m + 1] == y;
          }
        }
      }
    }
  }

  /** Inserting `x` adds it to the front of its own key class and leaves the
      others as they were. */
  lemma {:induction false} InsertDescStable<T>(x: T, s: seq<T>, key: T -> Date, k: Date)
    ensures WithKey(InsertDesc(x, s, key), key, k)
         == (if key(x) == k then [x] else []) + WithKey(s, key, k)
  {
    if s == [] || AtOrBefore(key(s[0]), key(x)) {
      assert ([x] + s)[1..] == s;
    } else {
      InsertDescStable(x, s[1..], key, k);
      assert ([s[0]] + InsertDesc(x, s[1..], key))[1..] == InsertDesc(x, s[1..], key);
    }
  }

  /** The sort returns a permutation of its input whose keys never increase, and
      it is stable: each key class keeps its input order. */
  lemma {:induction false} SortDescCorrect<T>(s: seq<T>, key: T -> Date)
    ensures multiset(SortDesc(s, key)) == multiset(s)
    ensures NonIncreasing(SortDesc(s, key), key)
    ensures forall k :: WithKey(SortDesc(s, key), key, k) == WithKey(s, key, k)
  {
    if s != [] {
      SortDescCorrect(s[1..], key);
      var t := SortDesc(s[1..], key);
      InsertDescPermutes(s[0], t, key);
      InsertDescSorted(s[0], t, key);
      assert s == [s[0]] + s[1..];
      forall k ensures WithKey(SortDesc(s, key), key, k) == WithKey(s, key, k) {
        InsertDescStable(s[0], t, key, k);
      }
    }
  }

  /** A folder whose key is after the fallback is ranked ahead of every folder
      that got the fallback key. */
  lemma DatedBeforeFallback<T>(s: seq<T>, key: T -> Date, i: nat, j: nat)
    requires i < |s| && j < |s|
    requires NonIncreasing(s, key)
    requires key(s[j]) == Fallback && AtOrBefore(Fallback, key(s[i])) && key(s[i]) != Fallback
    ensures i < j
  {
    if j < i {
      AtOrBeforeTotalOrder(key(s[i]), key(s[j]), key(s[i]));
    }
  }

  function PairKey<T>(p: (T, Date)): Date
  {
    p.1
  }

  /** Each element paired with its key, as the source's first loop builds them. */
  function Keyed<T>(s: seq<T>, key: T -> Date): (r: seq<(T, Date)>)
    ensures |r| == |s|
  {
    seq(|s|, i requires 0 <= i < |s| => (s[i], key(s[i])))
  }

  function Firsts<T>(ps: seq<(T, Date)>): (r: seq<T>)
    ensures |r| == |ps|
  {
    seq(|ps|, i requires 0 <= i < |ps| => ps[i].0)
  }

  lemma {:induction false} InsertKeyed<T>(x: T, s: seq<T>, key: T -> Date)
    ensures InsertDesc((x, key(x)), Keyed(s, key), PairKey) == Keyed(InsertDesc(x, s, key), key)
  {
    if s != [] && !AtOrBefore(key(s[0]), key(x)) {
      InsertKeyed(x, s[1..], key);
      assert Keyed(s, key)[1..] == Keyed(s[1..], key);
    }
  }

  /** Sorting the (folder, key) pairs by their key sorts the folders by key. */
  lemma {:induction false} SortKeyed<T>(s: seq<T>, key: T -> Date)
    ensures SortDesc(Keyed(s, key), PairKey) == Keyed(SortDesc(s, key), key)
  {
    if s != [] {
      SortKeyed(s[1..], key);
      assert Keyed(s, key)[1..] == Keyed(s[1..], key);
      InsertKeyed(s[0], SortDesc(s[1..], key), key);
    }
  }

  /** `sort_folders_by_date_desc`: newest folder first, a permutation of the input,
      folders with equal keys in discovery order. */
  method SortFoldersByDateDesc(folders: seq<Path>) returns (sorted: seq<Path>)
    ensures multiset(sorted) == multiset(folders)
    ensures NonIncreasing(sorted, FolderKey)
    ensures forall k :: WithKey(sorted, FolderKey, k) == WithKey(folders, FolderKey, k)
  {
    var pairs: seq<(Path, Date)> := [];
    var i := 0;
    while i < |folders|
      invariant 0 <= i <= |folders|
      invariant pairs == Keyed(folders[..i], FolderKey)
    {
      pairs := pairs + [(folders[i], FolderKey(folders[i]))];
      i := i + 1;
    }
    assert folders[..i] == folders;
    var sortedPairs := SortDesc(pairs, PairKey);
    sorted := Firsts(sortedPairs);
    SortKeyed(folders, FolderKey);
    assert sorted == SortDesc(folders, FolderKey);
    SortDescCorrect(folders, FolderKey);
  }
}
