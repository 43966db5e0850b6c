/** What Sequelize's `findAndCountAll({ where, limit, offset, order: [['createdAt', 'DESC']] })`
    returns from SQLite: the matching rows newest first, the page `LIMIT offset, limit`
    of them, and the count of all matches. A negative LIMIT means no bound and a
    negative OFFSET counts as zero, as SQLite defines them. Rows with equal
    timestamps keep their table order (SQL leaves that order open). */
module Query {

  function Filter<T>(s: seq<T>, keep: T -> bool): (r: seq<T>)
    ensures |r| <= |s|
    ensures forall i :: 0 <= i < |r| ==> r[i] in s && keep(r[i])
    ensures forall i :: 0 <= i < |s| && keep(s[i]) ==> s[i] in r
  {
    if s == [] then []
    else if keep(s[0]) then [s[0]] + Filter(s[1..], keep)
    else Filter(s[1..], keep)
  }

  /** The kept rows are exactly the matching rows, each as often as in the
      table, so `|Filter(s, keep)|` counts the matches. */
  lemma {:induction false} FilterMultiset<T>(s: seq<T>, keep: T -> bool)
    ensures forall x :: multiset(Filter(s, keep))[x] == if keep(x) then multiset(s)[x] else 0
  {
    if s != [] {
      FilterMultiset(s[1..], keep);
      assert s == [s[0]] + s[1..];
      assert multiset(s) == multiset{s[0]} + multiset(s[1..]);
    }
  }

  /** Newest first: keys never increase along the sequence. */
  ghost predicate SortedDesc<T>(s: seq<T>, key: T -> int) {
    forall i, j :: 0 <= i < j < |s| ==> key(s[i]) >= key(s[j])
  }

  /** Insert `x` before the first element whose key is not larger. */
  function Insert<T>(x: T, s: seq<T>, key: T -> int): (r: seq<T>)
    ensures |r| == |s| + 1
    ensures multiset(r) == multiset(s) + multiset{x}
  {
    if s == [] || key(x) >= key(s[0]) then [x] + s
    else
      assert s == [s[0]] + s[1..];
      [s[0]] + Insert(x, s[1..], key)
  }

  /** Inserting under a bound keeps every key under it. */
  lemma {:induction false} InsertBounded<T>(x: T, s: seq<T>, key: T -> int, b: int)
    requires key(x) <= b
    requires forall i :: 0 <= i < |s| ==> key(s[i]) <= b
    ensures forall i :: 0 <= i < |Insert(x, s, key)| ==> key(Insert(x, s, key)[i]) <= b
  {
    if s != [] && key(x) < key(s[0]) {
      var tail := Insert(x, s[1..], key);
      InsertBounded(x, s[1..], key, b);
      var r := Insert(x, s, key);
      assert r == [s[0]] + tail;
      forall i | 0 <= i < |r| ensures key(r[i]) <= b {
        if i > 0 {
          assert r[i] == tail[i - 1];
        }
      }
    }
  }

  lemma {:induction false} InsertSorted<T>(x: T, s: seq<T>, key: T -> int)
    requires SortedDesc(s, key)
    ensures SortedDesc(Insert(x, s, key), key)
  {
    if s != [] && key(x) < key(s[0]) {
      var tail := Insert(x, s[1..], key);
      InsertSorted(x, s[1..], key);
      forall i | 0 <= i < |s[1..]| ensures key(s[1..][i]) <= key(s[0]) {
        assert s[1..][i] == s[i + 1];
      }
      InsertBounded(x, s[1..], key, key(s[0]));
      var r := [s[0]] + tail;
      forall i, j | 0 <= i < j < |r| ensures key(r[i]) >= key(r[j]) {
        assert r[j] == tail[j - 1];
        if i > 0 {
          assert r[i] == tail[i - 1];
        }
      }
    }
  }

  /** Insertion sort, newest first. */
  function SortDesc<T>(s: seq<T>, key: T -> int): (r: seq<T>)
    ensures |r| == |s|
    ensures multiset(r) == multiset(s)
  {
    if s == [] then []
    else
      assert s == [s[0]] + s[1..];
      Insert(s[0], SortDesc(s[1..], key), key)
  }

  /** The sort orders its input newest first and is a permutation of it. */
  lemma {:induction false} SortDescSorted<T>(s: seq<T>, key: T -> int)
    ensures SortedDesc(SortDesc(s, key), key)
    ensures multiset(SortDesc(s, key)) == multiset(s)
  {
    if s != [] {
      SortDescSorted(s[1..], key);
      InsertSorted(s[0], SortDesc(s[1..], key), key);
    }
  }

  /** The first row a query returns: OFFSET, clamped to [0, |s|]. */
  function Start(size: nat, offset: int): (k: nat)
    ensures k <= size
  {
    if offset <= 0 then 0 else if offset >= size then size else offset
  }

  /** `LIMIT offset, limit` applied to the ordered rows `s`. */
  function Window<T>(s: seq<T>, limit: int, offset: int): (r: seq<T>)
    ensures |r| <= |s|
    ensures limit >= 0 ==> |r| <= limit
    ensures |r| == (if limit < 0 || Start(|s|, offset) + limit > |s| then |s| - Start(|s|, offset) else limit)
    ensures forall i :: 0 <= i < |r| ==> r[i] == s[Start(|s|, offset) + i]
  {
    var start := Start(|s|, offset);
    var end := if limit < 0 || start + limit > |s| then |s| else start + limit;
    s[start..end]
  }

  /** A window of a newest-first sequence is newest first. */
  lemma WindowSorted<T>(s: seq<T>, key: T -> int, limit: int, offset: int)
    requires SortedDesc(s, key)
    ensures SortedDesc(Window(s, limit, offset), key)
  {
    var w := Window(s, limit, offset);
    var start := Start(|s|, offset);
    forall a, b | 0 <= a < b < |w| ensures key(w[a]) >= key(w[b]) {
      assert w[a] == s[start + a] && w[b] == s[start + b];
    }
  }

  /** A page of the sorted rows is still newest first, and each of its rows is
      one of the input rows. */
  lemma PageOfSorted<T>(s: seq<T>, key: T -> int, limit: int, offset: int)
    ensures SortedDesc(Window(SortDesc(s, key), limit, offset), key)
    ensures forall k :: 0 <= k < |Window(SortDesc(s, key), limit, offset)| ==>
      Window(SortDesc(s, key), limit, offset)[k] in s
  {
    var sorted := SortDesc(s, key);
    SortDescSorted(s, key);
    WindowSorted(sorted, key, limit, offset);
    var w := Window(sorted, limit, offset);
    var start := Start(|sorted|, offset);
    forall k | 0 <= k < |w| ensures w[k] in s {
      assert w[k] == sorted[start + k];
      assert w[k] in multiset(sorted);
    }
  }

  /** A result of `findAndCountAll`: the page of rows and the count of all matches. */
  datatype Page<T> = Page(count: nat, rows: seq<T>)
}
