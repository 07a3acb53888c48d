/** What the kernel's lists mean: a sequence of items and the position of the walking index. */
module ListSpec {

  ghost predicate NoDup<T>(s: seq<T>) {
    forall i, j :: 0 <= i < j < |s| ==> s[i] != s[j]
  }

  // index 0 stands for the end marker, index i > 0 for items[i - 1].
  datatype Ring<T> = Ring(items: seq<T>, index: nat)

  ghost predicate IsRing<T>(r: Ring<T>) {
    r.index <= |r.items| && NoDup(r.items)
  }

  function Inserted<T>(s: seq<T>, k: nat, x: T): (r: seq<T>)
    requires k <= |s|
    ensures |r| == |s| + 1
  {
    s[..k] + [x] + s[k..]
  }

  function Removed<T>(s: seq<T>, k: nat): (r: seq<T>)
    requires k < |s|
    ensures |r| == |s| - 1
  {
    s[..k] + s[k + 1..]
  }

  // Inserting and removing strictly inside a sequence, seen without its two ends.
  lemma InsertedInside<T>(r: seq<T>, k: nat, x: T)
    requires k < |r| - 1
    ensures Inserted(r, k + 1, x)[1..|r|] == Inserted(r[1..|r| - 1], k, x)
  {
  }

  lemma RemovedInside<T>(r: seq<T>, k: nat)
    requires k < |r| - 2
    ensures Removed(r, k + 1)[1..|r| - 2] == Removed(r[1..|r| - 1], k)
  {
  }

  function Find<T(==)>(s: seq<T>, x: T): (k: nat)
    requires x in s
    ensures k < |s| && s[k] == x
  {
    if s[0] == x then 0 else 1 + Find(s[1..], x)
  }

  // The sequence without the first occurrence of x.
  function Without<T(==)>(s: seq<T>, x: T): (r: seq<T>)
    ensures x !in s ==> r == s
    ensures x in s ==> |r| == |s| - 1
  {
    if x in s then Removed(s, Find(s, x)) else s
  }

  lemma RemovedAt<T>(s: seq<T>, k: nat, i: nat)
    requires k < |s| && i < |s| - 1
    ensures Removed(s, k)[i] == s[if i < k then i else i + 1]
  {
  }

  lemma RemovedNoDup<T>(s: seq<T>, k: nat)
    requires NoDup(s) && k < |s|
    ensures NoDup(Removed(s, k)) && s[k] !in Removed(s, k)
  {
    var r := Removed(s, k);
    forall i | 0 <= i < |r| ensures r[i] == s[if i < k then i else i + 1] {
      RemovedAt(s, k, i);
    }
    hide Removed;
  }

  lemma RemovedHas<T>(s: seq<T>, k: nat, y: T)
    requires k < |s| && y != s[k]
    ensures y in Removed(s, k) <==> y in s
  {
    var r := Removed(s, k);
    if y in s {
      var i := Find(s, y);
      assert r[if i < k then i else i - 1] == y;
    }
  }

  lemma WithoutNoDup<T(!new)>(s: seq<T>, x: T)
    requires NoDup(s)
    ensures NoDup(Without(s, x))
    ensures forall y :: y in Without(s, x) <==> y in s && y != x
  {
    if x in s {
      RemovedNoDup(s, Find(s, x));
      hide Removed, NoDup;
      forall y | y != x ensures y in Without(s, x) <==> y in s {
        RemovedHas(s, Find(s, x), y);
      }
    }
  }

  // ----- sorted insertion ------------------------------------------------------------------------

  ghost predicate Sorted<T>(s: seq<T>, v: map<T, nat>) {
    && (forall x :: x in s ==> x in v)
    && (forall i, j :: 0 <= i < j < |s| ==> v[s[i]] <= v[s[j]])
  }

  function ValueOf<T>(v: map<T, nat>, x: T): nat {
    if x in v then v[x] else 0
  }

  // After every item whose value is not larger: equal values keep their order of insertion.
  function InsertByValue<T(==,!new)>(s: seq<T>, v: map<T, nat>, x: T): (r: seq<T>)
    ensures |r| == |s| + 1
    ensures forall y :: y in r <==> y == x || y in s
  {
    if s == [] || ValueOf(v, s[0]) > ValueOf(v, x) then [x] + s else [s[0]] + InsertByValue(s[1..], v, x)
  }

  lemma {:induction false} InsertByValueSorted<T(!new)>(s: seq<T>, v: map<T, nat>, x: T)
    requires x in v && Sorted(s, v)
    ensures Sorted(InsertByValue(s, v, x), v)
  {
    if s != [] && v[s[0]] <= v[x] {
      InsertByValueSorted(s[1..], v, x);
      var r := InsertByValue(s[1..], v, x);
      assert forall y :: y in r ==> v[s[0]] <= v[y] by {
        forall y | y in r ensures v[s[0]] <= v[y] {
          if y in s[1..] {
            var k :| 0 <= k < |s[1..]| && s[1..][k] == y;
            assert y == s[k + 1];
          }
        }
      }
    }
  }

  lemma {:induction false} InsertByValueNoDup<T(!new)>(s: seq<T>, v: map<T, nat>, x: T)
    requires NoDup(s) && x !in s
    ensures NoDup(InsertByValue(s, v, x))
  {
    if s != [] && ValueOf(v, s[0]) <= ValueOf(v, x) {
      InsertByValueNoDup(s[1..], v, x);
      assert s[0] !in s[1..];
    }
  }

  lemma GapSorted<T(!new)>(s: seq<T>, r: seq<T>, k: nat, v: map<T, nat>)
    requires Sorted(s, v) && k < |s| == |r| + 1
    requires forall i :: 0 <= i < |r| ==> r[i] == s[if i < k then i else i + 1]
    ensures Sorted(r, v)
  {
  }

  lemma WithoutSorted<T(!new)>(s: seq<T>, v: map<T, nat>, x: T)
    requires Sorted(s, v)
    ensures Sorted(Without(s, x), v)
  {
    if x in s {
      var k, r := Find(s, x), Without(s, x);
      forall i | 0 <= i < |r| ensures r[i] == s[if i < k then i else i + 1] {
      }
      GapSorted(s, r, k, v);
    }
  }

  // The number of leading values that are not larger than x: where vListInsert stops walking.
  function InsertPos(vals: seq<nat>, x: nat): (p: nat)
    ensures p <= |vals|
    ensures forall i :: 0 <= i < p ==> vals[i] <= x
    ensures p < |vals| ==> x < vals[p]
  {
    if vals == [] || vals[0] > x then 0 else 1 + InsertPos(vals[1..], x)
  }

  lemma {:induction false} InsertPosAt(vals: seq<nat>, x: nat, k: nat)
    requires k <= |vals| && (forall i :: 0 <= i < k ==> vals[i] <= x) && (k < |vals| ==> x < vals[k])
    ensures InsertPos(vals, x) == k
  {
    if k > 0 {
      InsertPosAt(vals[1..], x, k - 1);
    }
  }

  lemma ConsInserted<T>(h: T, t: seq<T>, k: nat, x: T)
    requires k <= |t|
    ensures [h] + Inserted(t, k, x) == Inserted([h] + t, k + 1, x)
  {
  }

  // Stable sorted insertion is insertion at that position.
  lemma {:induction false} InsertByValueAt<T(!new)>(s: seq<T>, v: map<T, nat>, x: T, vals: seq<nat>)
    requires |vals| == |s| && forall i :: 0 <= i < |s| ==> vals[i] == ValueOf(v, s[i])
    ensures var p := InsertPos(vals, ValueOf(v, x)); InsertByValue(s, v, x) == Inserted(s, p, x)
  {
    if s != [] && ValueOf(v, s[0]) <= ValueOf(v, x) {
      var t, q := s[1..], InsertPos(vals[1..], ValueOf(v, x));
      InsertByValueAt(t, v, x, vals[1..]);
      ConsInserted(s[0], t, q, x);
      assert [s[0]] + t == s;
    }
  }

  lemma InsertedAt<T>(s: seq<T>, k: nat, x: T, i: nat)
    requires k <= |s| && i <= |s|
    ensures Inserted(s, k, x)[i] == if i < k then s[i] else if i == k then x else s[i - 1]
  {
  }

  // Among sorted values that position keeps the order, and puts x after all that are equal to it.
  lemma InsertPosStable(vals: seq<nat>, x: nat)
    requires forall i, j :: 0 <= i < j < |vals| ==> vals[i] <= vals[j]
    ensures var p, r := InsertPos(vals, x), Inserted(vals, InsertPos(vals, x), x);
            && (forall i, j :: 0 <= i < j < |r| ==> r[i] <= r[j])
            && (forall i :: 0 <= i < |vals| ==> (vals[i] <= x <==> i < p))
  {
    var p, r := InsertPos(vals, x), Inserted(vals, InsertPos(vals, x), x);
    hide InsertPos;
    forall i | 0 <= i < |r| ensures r[i] == if i < p then vals[i] else if i == p then x else vals[i - 1] {
      InsertedAt(vals, p, x, i);
    }
    hide Inserted;
  }

  // ----- the walking index -----------------------------------------------------------------------

  // vListInsertEnd puts the item just before the index: it is the last one a walk will come to.
  function InsertEnd<T>(r: Ring<T>, x: T): Ring<T>
    requires r.index <= |r.items|
  {
    if r.index == 0 then Ring(r.items + [x], 0)
    else Ring(Inserted(r.items, r.index - 1, x), r.index + 1)
  }

  lemma InsertEndMembers<T(!new)>(r: Ring<T>, x: T)
    requires IsRing(r) && x !in r.items
    ensures IsRing(InsertEnd(r, x))
    ensures forall y :: y in InsertEnd(r, x).items <==> y == x || y in r.items
  {
    var q := InsertEnd(r, x);
    var k := if r.index == 0 then |r.items| else r.index - 1;
    assert q.items == Inserted(r.items, k, x);
    assert q.items[k] == x;
    forall y | y in r.items ensures y in q.items {
      var i := Find(r.items, y);
      assert q.items[if i < k then i else i + 1] == y;
    }
    forall i, j | 0 <= i < j < |q.items| ensures q.items[i] != q.items[j] {
      assert i != k ==> q.items[i] == r.items[if i < k then i else i - 1];
      assert j != k ==> q.items[j] == r.items[if j < k then j else j - 1];
    }
  }

  // uxListRemove moves an index that points at the removed item back to the previous item.
  function RemoveAt<T>(r: Ring<T>, k: nat): Ring<T>
    requires k < |r.items| && r.index <= |r.items|
  {
    Ring(Removed(r.items, k), if r.index > k then r.index - 1 else r.index)
  }

  // listGET_OWNER_OF_NEXT_ENTRY skips the end marker.
  function Advance<T>(r: Ring<T>): Ring<T>
    requires r.index <= |r.items|
  {
    if r.index == |r.items| then (if |r.items| == 0 then r else r.(index := 1)) else r.(index := r.index + 1)
  }

  function Pointed<T>(r: Ring<T>): T
    requires 0 < r.index <= |r.items|
  {
    r.items[r.index - 1]
  }

  function AdvanceBy<T>(r: Ring<T>, n: nat): Ring<T>
    requires r.index <= |r.items|
    decreases n
  {
    if n == 0 then r else AdvanceBy(Advance(r), n - 1)
  }

  lemma {:induction false} AdvanceByIndex<T>(r: Ring<T>, n: nat)
    requires 0 < |r.items| && r.index <= |r.items| && n <= |r.items|
    ensures AdvanceBy(r, n).items == r.items
    ensures AdvanceBy(r, n).index == if r.index + n <= |r.items| then r.index + n else r.index + n - |r.items|
    decreases n
  {
    if n > 0 {
      AdvanceByIndex(Advance(r), n - 1);
    }
  }

  // Round robin: among the next |items| walking steps every item of the list is returned exactly once.
  lemma {:induction false} RoundRobin<T>(r: Ring<T>, k: nat)
    requires r.index <= |r.items| && k < |r.items|
    ensures var n := if r.index <= k then k + 1 - r.index else k + 1 + |r.items| - r.index;
            && 1 <= n <= |r.items|
            && AdvanceBy(r, n).index == k + 1
            && forall m :: 1 <= m <= |r.items| && AdvanceBy(r, m).index == k + 1 ==> m == n
  {
    var n := if r.index <= k then k + 1 - r.index else k + 1 + |r.items| - r.index;
    AdvanceByIndex(r, n);
    forall m | 1 <= m <= |r.items| && AdvanceBy(r, m).index == k + 1 ensures m == n {
      AdvanceByIndex(r, m);
    }
  }

  // vListInsertEnd makes the new item the last one a walk comes to: it is returned at step
  // |items| + 1, or at step |items| when the index stands on an item, which then comes after it.
  lemma InsertEndIsLast<T>(r: Ring<T>, x: T)
    requires r.index <= |r.items|
    ensures var n := if r.index == 0 then |r.items| + 1 else |r.items|;
            var q := AdvanceBy(InsertEnd(r, x), n);
            0 < q.index <= |q.items| && Pointed(q) == x
  {
    var n := if r.index == 0 then |r.items| + 1 else |r.items|;
    AdvanceByIndex(InsertEnd(r, x), n);
  }

  // The items in the order in which a walk comes to them.
  function Walk<T>(r: Ring<T>): (w: seq<T>)
    requires r.index <= |r.items|
    ensures |w| == |r.items|
  {
    r.items[r.index..] + r.items[..r.index]
  }

  lemma WalkVisits<T>(r: Ring<T>, n: nat)
    requires r.index <= |r.items| && 1 <= n <= |r.items|
    ensures var q := AdvanceBy(r, n); 0 < q.index <= |q.items| && Pointed(q) == Walk(r)[n - 1]
  {
    AdvanceByIndex(r, n);
  }

  // A step of the walk takes the first of them and puts it last.
  lemma AdvanceWalk<T>(r: Ring<T>)
    requires r.index <= |r.items| && r.items != []
    ensures var q := Advance(r); 0 < q.index <= |q.items| && Pointed(q) == Walk(r)[0]
    ensures Walk(Advance(r)) == Walk(r)[1..] + [Walk(r)[0]]
  {
  }

  // Where in the walk the k-th item is.
  function Turn<T>(r: Ring<T>, k: nat): (j: nat)
    requires k < |r.items| && r.index <= |r.items|
    ensures j < |r.items| && Walk(r)[j] == r.items[k]
  {
    if k >= r.index then k - r.index else k + |r.items| - r.index
  }

  // Removing an item leaves the order of the others as it was: nobody is passed over or comes twice.
  lemma RemoveWalk<T>(r: Ring<T>, k: nat)
    requires k < |r.items| && r.index <= |r.items|
    ensures RemoveAt(r, k).index <= |RemoveAt(r, k).items| && Walk(RemoveAt(r, k)) == Removed(Walk(r), Turn(r, k))
  {
    var q, w := RemoveAt(r, k), Removed(Walk(r), Turn(r, k));
    forall i | 0 <= i < |w| ensures Walk(q)[i] == w[i] {
      RemovedAt(Walk(r), Turn(r, k), i);
      var p := if i < |q.items| - q.index then q.index + i else i - (|q.items| - q.index);
      RemovedAt(r.items, k, p);
    }
  }

  // A new item comes after all the others, except that the one the index points at, which has just had
  // its turn, comes after it.
  lemma InsertWalk<T>(r: Ring<T>, x: T)
    requires r.index <= |r.items|
    ensures var n: nat := if r.index == 0 then |r.items| else |r.items| - 1;
            InsertEnd(r, x).index <= |InsertEnd(r, x).items| && Walk(InsertEnd(r, x)) == Inserted(Walk(r), n, x)
  {
    if r.index > 0 {
      var q, w := InsertEnd(r, x), Inserted(Walk(r), |r.items| - 1, x);
      forall i | 0 <= i < |w| ensures Walk(q)[i] == w[i] {
        InsertedAt(Walk(r), |r.items| - 1, x, i);
        var p := if i < |q.items| - q.index then q.index + i else i - (|q.items| - q.index);
        InsertedAt(r.items, r.index - 1, x, p);
      }
    }
  }
}
