/**
 * The position ledger of one container (the columns of a board, or the tasks
 * of a column), seen as a map from item id to its integer `position`.
 *
 * The four operations the repositories perform on a container are stated here
 * once, independently of SQL: append at max+1, reorder within the container,
 * remove with compaction, and insert at a position (the destination half of a
 * cross-column move). Each is proved to keep the container dense (positions
 * exactly 1..N), and each is checked against a second, sequence-based oracle:
 * the container read in position order, spliced the way a list would be.
 */
module Ledger {

  /** The set {lo, ..., hi}. */
  function Interval(lo: int, hi: int): (r: set<int>)
    ensures forall v :: v in r <==> lo <= v <= hi
    decreases hi - lo
  {
    if lo > hi then {} else {lo} + Interval(lo + 1, hi)
  }

  ghost predicate Injective<K>(m: map<K, int>) {
    forall j, k :: j in m && k in m && j != k ==> m[j] != m[k]
  }

  /** No gaps and no duplicates: every position lies in 1..N and no two items share one. */
  ghost predicate Dense<K>(m: map<K, int>) {
    (forall k :: k in m ==> 1 <= m[k] <= |m|) && Injective(m)
  }

  /** `s` lists the container's items in position order: s[i] sits at position i+1. */
  ghost predicate Lists<K>(s: seq<K>, m: map<K, int>) {
    |s| == |m| && forall i :: 0 <= i < |s| ==> s[i] in m && m[s[i]] == i + 1
  }

  // ---------------------------------------------------------------------------
  // Operations
  // ---------------------------------------------------------------------------

  /** The position a newly created item receives: COALESCE(MAX(position), 0) + 1. */
  function Next<K>(m: map<K, int>): (r: int)
    ensures |m| == 0 ==> r == 1
    ensures |m| != 0 ==> (exists k :: k in m && m[k] + 1 == r) && forall k :: k in m ==> m[k] < r
  {
    if |m| == 0 then 1
    else
      MaxExists(m);
      var top :| top in m && forall k :: k in m ==> m[k] <= m[top]; m[top] + 1
  }

  /** Append-on-create: the new item `k` is written at Next(m); nobody else moves. */
  function Append<K>(m: map<K, int>, k: K): map<K, int> {
    m[k := Next(m)]
  }

  /**
   * Where an item at position `v` ends up when the item at `from` is moved to `to`:
   * moving towards the end, the items in (from, to] step back by one;
   * moving towards the front, the items in [to, from) step forward by one.
   */
  function Shifted(v: int, from: int, to: int): int {
    if from < to && from < v <= to then v - 1
    else if to < from && to <= v < from then v + 1
    else v
  }

  /** Reorder within the container: item `k` goes to position `p`. */
  function Reorder<K>(m: map<K, int>, k: K, p: int): map<K, int>
    requires k in m
  {
    map j | j in m :: if j == k then p else Shifted(m[j], m[k], p)
  }

  /** Delete with compaction: `k` leaves and everything above its slot steps back by one. */
  function Remove<K>(m: map<K, int>, k: K): map<K, int>
    requires k in m
  {
    map j | j in m && j != k :: if m[j] > m[k] then m[j] - 1 else m[j]
  }

  /** Open a slot at `p` (everything at or above `p` steps forward) and put `k` there. */
  function Insert<K>(m: map<K, int>, k: K, p: int): map<K, int> {
    (map j | j in m :: if m[j] >= p then m[j] + 1 else m[j])[k := p]
  }

  // Sequence splices the oracle lemmas compare with.

  function Without<K>(s: seq<K>, i: int): seq<K>
    requires 0 <= i < |s|
  {
    s[..i] + s[i + 1..]
  }

  function InsertAt<K>(s: seq<K>, i: int, x: K): seq<K>
    requires 0 <= i <= |s|
  {
    s[..i] + [x] + s[i..]
  }

  /** Take the element at index `from` out and put it back at index `to`. */
  function Splice<K>(s: seq<K>, from: int, to: int): seq<K>
    requires 0 <= from < |s| && 0 <= to < |s|
  {
    InsertAt(Without(s, from), to, s[from])
  }

  // ---------------------------------------------------------------------------
  // Counting helpers
  // ---------------------------------------------------------------------------

  lemma {:induction false} MaxExists<K>(m: map<K, int>)
    requires |m| != 0
    ensures exists top :: top in m && forall k :: k in m ==> m[k] <= m[top]
    decreases |m|
  {
    var y :| y in m;
    var rest := m - {y};
    assert rest.Keys == m.Keys - {y};
    if |rest| != 0 {
      MaxExists(rest);
      var x :| x in rest && forall k :: k in rest ==> rest[k] <= rest[x];
      var top := if m[y] <= m[x] then x else y;
      forall k | k in m ensures m[k] <= m[top] {
        if k != y { assert k in rest && m[k] == rest[k]; }
      }
      assert top in m;
    } else {
      forall k | k in m ensures m[k] <= m[y] {
        assert k == y || k in rest.Keys;
      }
    }
  }

  lemma SubsetCard<T>(a: set<T>, b: set<T>)
    requires a <= b
    ensures |a| <= |b|
    ensures |a| == |b| ==> a == b
  {
    assert b == a + (b - a);
    assert a * (b - a) == {};
    if |a| == |b| {
      assert |b - a| == 0;
    }
  }

  lemma {:induction false} IntervalSize(lo: int, hi: int)
    requires lo <= hi + 1
    ensures |Interval(lo, hi)| == hi - lo + 1
    decreases hi - lo
  {
    if lo == hi + 1 {
      assert Interval(lo, hi) == {};
    } else {
      IntervalSize(lo, hi - 1);
      assert Interval(lo, hi) == Interval(lo, hi - 1) + {hi};
    }
  }

  /** A map has at most as many distinct positions as items, and exactly as many when injective. */
  lemma {:induction false} ValuesCard<K>(m: map<K, int>)
    ensures |m.Values| <= |m|
    ensures Injective(m) ==> |m.Values| == |m|
    decreases |m|
  {
    if |m| != 0 {
      var k :| k in m;
      var rest := m - {k};
      assert rest.Keys == m.Keys - {k};
      assert |rest| == |m| - 1;
      ValuesCard(rest);
      assert m.Values == rest.Values + {m[k]} by {
        forall v | v in m.Values ensures v in rest.Values + {m[k]} {
          var j :| j in m && m[j] == v;
          if j != k { assert j in rest && rest[j] == v; }
        }
      }
      if |m.Values| > |rest.Values| + 1 {
        assert |rest.Values + {m[k]}| <= |rest.Values| + 1;
      }
      if Injective(m) {
        assert m[k] !in rest.Values by {
          forall j | j in rest ensures rest[j] != m[k] {
            assert m[j] != m[k];
          }
        }
        forall j, i | j in rest && i in rest && j != i ensures rest[j] != rest[i] {
          assert m[j] != m[i];
        }
        assert |rest.Values + {m[k]}| == |rest.Values| + 1;
      }
    } else {
      assert m.Values == {};
    }
  }

  // ---------------------------------------------------------------------------
  // Density
  // ---------------------------------------------------------------------------

  /** Density is exactly "the set of positions is {1, ..., count}". */
  lemma DenseIffExactly<K>(m: map<K, int>)
    ensures Dense(m) <==> m.Values == Interval(1, |m|)
  {
    IntervalSize(1, |m|);
    ValuesCard(m);
    if Dense(m) {
      assert m.Values <= Interval(1, |m|);
      SubsetCard(m.Values, Interval(1, |m|));
    }
    if m.Values == Interval(1, |m|) {
      forall k | k in m ensures 1 <= m[k] <= |m| {
        assert m[k] in m.Values;
      }
      if !Injective(m) {
        var j, k :| j in m && k in m && j != k && m[j] == m[k];
        var rest := m - {k};
        assert rest.Keys == m.Keys - {k};
        ValuesCard(rest);
        assert m.Values <= rest.Values by {
          forall v | v in m.Values ensures v in rest.Values {
            var i :| i in m && m[i] == v;
            if i == k { assert j in rest && rest[j] == v; } else { assert i in rest; }
          }
        }
        SubsetCard(m.Values, rest.Values);
        assert false;
      }
    }
  }

  /** In a dense container COALESCE(MAX(position), 0) + 1 is the item count plus one. */
  lemma NextOfDense<K>(m: map<K, int>)
    requires Dense(m)
    ensures Next(m) == |m| + 1
  {
    DenseIffExactly(m);
    if |m| > 0 {
      assert |m| in Interval(1, |m|);
    } else {
      assert m.Values == {};
    }
  }

  lemma AppendKeepsDense<K>(m: map<K, int>, k: K)
    requires Dense(m) && k !in m
    ensures Dense(Append(m, k))
    ensures Append(m, k)[k] == |m| + 1 && |Append(m, k)| == |m| + 1
    ensures forall j :: j in m ==> j in Append(m, k) && Append(m, k)[j] == m[j]
  {
    NextOfDense(m);
    var a := Append(m, k);
    assert a.Keys == m.Keys + {k};
  }

  lemma ReorderKeepsDense<K>(m: map<K, int>, k: K, p: int)
    requires Dense(m) && k in m && 1 <= p <= |m|
    ensures Dense(Reorder(m, k, p))
    ensures Reorder(m, k, p)[k] == p && Reorder(m, k, p).Keys == m.Keys
  {
    var r := Reorder(m, k, p);
    assert r.Keys == m.Keys;
    assert |r| == |m|;
    forall i, j | i in r && j in r && i != j ensures r[i] != r[j] {
      assert m[i] != m[j];
    }
  }

  /** Moving an item to its own position changes nothing. */
  lemma ReorderToSelf<K>(m: map<K, int>, k: K)
    requires k in m
    ensures Reorder(m, k, m[k]) == m
  {
  }

  lemma RemoveKeepsDense<K>(m: map<K, int>, k: K)
    requires Dense(m) && k in m
    ensures Dense(Remove(m, k))
    ensures |Remove(m, k)| == |m| - 1 && Remove(m, k).Keys == m.Keys - {k}
  {
    var r := Remove(m, k);
    assert r.Keys == m.Keys - {k};
    forall i, j | i in r && j in r && i != j ensures r[i] != r[j] {
      assert m[i] != m[j] && m[i] != m[k] && m[j] != m[k];
    }
    forall j | j in r ensures 1 <= r[j] <= |r| {
      assert m[j] != m[k];
    }
  }

  lemma InsertKeepsDense<K>(m: map<K, int>, k: K, p: int)
    requires Dense(m) && k !in m && 1 <= p <= |m| + 1
    ensures Dense(Insert(m, k, p))
    ensures Insert(m, k, p)[k] == p && Insert(m, k, p).Keys == m.Keys + {k}
    ensures |Insert(m, k, p)| == |m| + 1
  {
    InsertInRange(m, k, p);
    InsertInjective(m, k, p);
  }

  lemma InsertInRange<K>(m: map<K, int>, k: K, p: int)
    requires Dense(m) && k !in m && 1 <= p <= |m| + 1
    ensures Insert(m, k, p).Keys == m.Keys + {k} && |Insert(m, k, p)| == |m| + 1
    ensures forall j :: j in Insert(m, k, p) ==> 1 <= Insert(m, k, p)[j] <= |m| + 1
  {
    var r := Insert(m, k, p);
    assert r.Keys == m.Keys + {k};
    forall j | j in r ensures 1 <= r[j] <= |m| + 1 {
      if j != k { assert 1 <= m[j] <= |m|; }
    }
  }

  lemma InsertInjective<K>(m: map<K, int>, k: K, p: int)
    requires Injective(m) && k !in m
    ensures Injective(Insert(m, k, p))
  {
    var r := Insert(m, k, p);
    forall i, j | i in r && j in r && i != j ensures r[i] != r[j] {
      if i != k && j != k { assert m[i] != m[j]; }
    }
  }

  /** An insert past count+1 leaves a hole: the container is no longer dense. */
  lemma InsertPastEndBreaksDense<K>(m: map<K, int>, k: K, p: int)
    requires k !in m && p > |m| + 1
    ensures !Dense(Insert(m, k, p))
  {
    var r := Insert(m, k, p);
    assert r.Keys == m.Keys + {k};
    assert r[k] == p > |r|;
  }

  /** Reordering to position 0 puts an item below 1: the container is no longer dense. */
  lemma ReorderToZeroBreaksDense<K>(m: map<K, int>, k: K)
    requires k in m
    ensures !Dense(Reorder(m, k, 0))
  {
    assert Reorder(m, k, 0)[k] == 0;
  }

  // ---------------------------------------------------------------------------
  // The sequence oracle
  // ---------------------------------------------------------------------------

  lemma ListedIsDense<K>(s: seq<K>, m: map<K, int>)
    requires Lists(s, m)
    ensures Dense(m)
  {
    assert Interval(1, |m|) <= m.Values by {
      forall v | v in Interval(1, |m|) ensures v in m.Values {
        assert m[s[v - 1]] == v;
      }
    }
    IntervalSize(1, |m|);
    ValuesCard(m);
    SubsetCard(Interval(1, |m|), m.Values);
    DenseIffExactly(m);
  }

  /** In a listing, the item at position q is s[q-1]. */
  lemma ListedAt<K>(s: seq<K>, m: map<K, int>, k: K)
    requires Lists(s, m) && k in m
    ensures 1 <= m[k] <= |s| && s[m[k] - 1] == k
  {
    ListedIsDense(s, m);
    assert m[s[m[k] - 1]] == m[k];
  }

  lemma WithoutAt<K>(s: seq<K>, i: int, j: int)
    requires 0 <= i < |s| && 0 <= j < |s| - 1
    ensures |Without(s, i)| == |s| - 1
    ensures Without(s, i)[j] == if j < i then s[j] else s[j + 1]
  {
  }

  lemma InsertAtAt<K>(s: seq<K>, i: int, x: K, j: int)
    requires 0 <= i <= |s| && 0 <= j <= |s|
    ensures |InsertAt(s, i, x)| == |s| + 1
    ensures InsertAt(s, i, x)[j] == if j < i then s[j] else if j == i then x else s[j - 1]
  {
  }

  /** Appending is pushing onto the end of the listing. */
  lemma AppendMatchesListing<K>(s: seq<K>, m: map<K, int>, k: K)
    requires Lists(s, m) && k !in m
    ensures Lists(s + [k], Append(m, k))
  {
    ListedIsDense(s, m);
    NextOfDense(m);
    var a := Append(m, k);
    assert a.Keys == m.Keys + {k};
  }

  /** Reordering is the list splice "take out at old-1, put back at new-1". */
  lemma ReorderMatchesListing<K>(s: seq<K>, m: map<K, int>, k: K, p: int)
    requires Lists(s, m) && k in m && 1 <= p <= |m|
    ensures 1 <= m[k] <= |s|
    ensures Lists(Splice(s, m[k] - 1, p - 1), Reorder(m, k, p))
  {
    ListedAt(s, m, k);
    var o := m[k];
    var r := Reorder(m, k, p);
    var w := Without(s, o - 1);
    var t := Splice(s, o - 1, p - 1);
    assert r.Keys == m.Keys;
    assert |t| == |s|;
    forall i | 0 <= i < |t| ensures t[i] in r && r[t[i]] == i + 1 {
      InsertAtAt(w, p - 1, k, i);
      if i < p - 1 {
        WithoutAt(s, o - 1, i);
      } else if i > p - 1 {
        WithoutAt(s, o - 1, i - 1);
      }
    }
  }

  /** Deleting is removing the item's entry from the listing. */
  lemma RemoveMatchesListing<K>(s: seq<K>, m: map<K, int>, k: K)
    requires Lists(s, m) && k in m
    ensures 1 <= m[k] <= |s|
    ensures Lists(Without(s, m[k] - 1), Remove(m, k))
  {
    ListedAt(s, m, k);
    var o := m[k];
    var r := Remove(m, k);
    var w := Without(s, o - 1);
    assert r.Keys == m.Keys - {k};
    forall i | 0 <= i < |w| ensures w[i] in r && r[w[i]] == i + 1 {
      WithoutAt(s, o - 1, i);
    }
  }

  /** Inserting at p is splicing the item in at index p-1. */
  lemma InsertMatchesListing<K>(s: seq<K>, m: map<K, int>, k: K, p: int)
    requires Lists(s, m) && k !in m && 1 <= p <= |m| + 1
    ensures Lists(InsertAt(s, p - 1, k), Insert(m, k, p))
  {
    var r := Insert(m, k, p);
    var t := InsertAt(s, p - 1, k);
    assert r.Keys == m.Keys + {k};
    forall i | 0 <= i < |t| ensures t[i] in r && r[t[i]] == i + 1 {
      InsertAtAt(s, p - 1, k, i);
      if i != p - 1 {
        var j := if i < p - 1 then i else i - 1;
        assert s[j] != k;
      }
    }
  }
}
