/** The array-field updates the user service asks the document store for:
    `$addToSet` behind the capacity check of the add paths, and `$pull`. */
module MongoArrays {

  datatype Option<T> = None | Some(value: T)

  /** A list at this length or longer refuses every further add. */
  const Capacity: nat := 50

  predicate Distinct(l: seq<string>) {
    forall i, j :: 0 <= i < j < |l| ==> l[i] != l[j]
  }

  /** What every stored favourites or history list satisfies. */
  predicate WellFormed(l: seq<string>) {
    |l| <= Capacity && Distinct(l)
  }

  /** `s` can be obtained from `t` by deleting elements (order kept). */
  predicate IsSubsequence(s: seq<string>, t: seq<string>)
    decreases |t|
  {
    if s == [] then true
    else if t == [] then false
    else if s[0] == t[0] then IsSubsequence(s[1..], t[1..])
    else IsSubsequence(s, t[1..])
  }

  /** `$addToSet`: append `x` at the end unless it is already present. */
  function AddToSet(l: seq<string>, x: string): (r: seq<string>)
    ensures x in r
    ensures forall y :: y in r <==> y in l || y == x
    ensures |l| <= |r| && r[..|l|] == l
    ensures |r| == if x in l then |l| else |l| + 1
    ensures Distinct(l) ==> Distinct(r)
  {
    if x in l then l else l + [x]
  }

  /** `$pull`: drop every occurrence of `x`. */
  function Pull(l: seq<string>, x: string): (r: seq<string>)
    ensures forall y :: y in r <==> y in l && y != x
    ensures |r| <= |l|
    decreases |l|
  {
    if l == [] then []
    else if l[0] == x then Pull(l[1..], x)
    else [l[0]] + Pull(l[1..], x)
  }

  lemma {:induction false} PullCount(l: seq<string>, x: string)
    ensures multiset(Pull(l, x)) == multiset(l)[x := 0]
    decreases |l|
  {
    if l != [] {
      PullCount(l[1..], x);
      assert l == [l[0]] + l[1..];
      assert multiset(l) == multiset{l[0]} + multiset(l[1..]);
    }
  }

  lemma {:induction false} PullKeepsOrder(l: seq<string>, x: string)
    ensures IsSubsequence(Pull(l, x), l)
    decreases |l|
  {
    if l != [] {
      PullKeepsOrder(l[1..], x);
      var p := Pull(l[1..], x);
      if l[0] != x {
        assert ([l[0]] + p)[1..] == p;
      } else if p != [] {
        assert p[0] in p;
      }
    }
  }

  lemma {:induction false} PullAbsent(l: seq<string>, x: string)
    ensures x !in l ==> Pull(l, x) == l
    decreases |l|
  {
    if l != [] && x !in l {
      assert l[0] in l;
      assert forall y :: y in l[1..] ==> y in l;
      PullAbsent(l[1..], x);
      assert l == [l[0]] + l[1..];
    }
  }

  lemma {:induction false} PullDistinct(l: seq<string>, x: string)
    requires Distinct(l)
    ensures Distinct(Pull(l, x))
    decreases |l|
  {
    if l != [] {
      var t := l[1..];
      assert Distinct(t) by {
        forall i, j | 0 <= i < j < |t| ensures t[i] != t[j] {
          assert t[i] == l[i + 1] && t[j] == l[j + 1];
        }
      }
      PullDistinct(t, x);
      if l[0] != x {
        assert l[0] !in t by {
          forall k | 0 <= k < |t| ensures t[k] != l[0] {
            assert t[k] == l[k + 1];
          }
        }
        var p := Pull(t, x);
        forall i, j | 0 <= i < j < |[l[0]] + p| ensures ([l[0]] + p)[i] != ([l[0]] + p)[j] {
          if i == 0 {
            assert ([l[0]] + p)[j] == p[j - 1];
            assert p[j - 1] in p;
          } else {
            assert ([l[0]] + p)[i] == p[i - 1] && ([l[0]] + p)[j] == p[j - 1];
          }
        }
      }
    }
  }

  /** The add path: refuse when the list already holds `Capacity` entries,
      whether or not `x` is one of them; otherwise `$addToSet`. */
  function AddWithCap(l: seq<string>, x: string): (r: Option<seq<string>>)
    ensures r.None? <==> |l| >= Capacity
    ensures r.Some? ==> r.value == AddToSet(l, x)
    ensures r.Some? ==> x in r.value && forall y :: y in l ==> y in r.value
    ensures WellFormed(l) && r.Some? ==> WellFormed(r.value)
  {
    if |l| >= Capacity then None else Some(AddToSet(l, x))
  }

  /** One update of a list as the store sees it: a refused add leaves the
      list as it was. */
  datatype ListOp = AddOp(item: string) | PullOp(item: string)

  function Step(l: seq<string>, op: ListOp): (r: seq<string>)
    ensures |l| <= Capacity ==> |r| <= Capacity
    ensures op.AddOp? ==> (op.item in r <==> op.item in l || |l| < Capacity)
    ensures op.AddOp? ==> forall y :: y in l ==> y in r
    ensures op.PullOp? ==> op.item !in r && forall y :: y in r ==> y in l
  {
    match op
    case AddOp(x) => (match AddWithCap(l, x) case None => l case Some(r) => r)
    case PullOp(x) => Pull(l, x)
  }

  /** Starting from at most `Capacity` entries, no sequence of adds and
      removes makes the list longer than `Capacity`. */
  function Replay(l: seq<string>, ops: seq<ListOp>): (r: seq<string>)
    ensures |l| <= Capacity ==> |r| <= Capacity
    decreases |ops|
  {
    if ops == [] then l else Replay(Step(l, ops[0]), ops[1..])
  }

  lemma StepKeepsWellFormed(l: seq<string>, op: ListOp)
    requires WellFormed(l)
    ensures WellFormed(Step(l, op))
  {
    if op.PullOp? {
      PullDistinct(l, op.item);
    }
  }

  /** Starting from a well-formed list, no sequence of adds and removes makes
      it longer than `Capacity` or introduces a duplicate. */
  lemma {:induction false} ReplayKeepsWellFormed(l: seq<string>, ops: seq<ListOp>)
    requires WellFormed(l)
    ensures WellFormed(Replay(l, ops))
    decreases |ops|
  {
    if ops != [] {
      StepKeepsWellFormed(l, ops[0]);
      ReplayKeepsWellFormed(Step(l, ops[0]), ops[1..]);
    }
  }

  /** Adding the same item twice leaves the list as adding it once. */
  lemma AddTwiceIsAddOnce(l: seq<string>, x: string)
    ensures Step(Step(l, AddOp(x)), AddOp(x)) == Step(l, AddOp(x))
  {
  }

  /** The answer to a repeated add: it succeeds with the unchanged list unless
      the first add filled the list to `Capacity`, in which case it is refused. */
  lemma SecondAdd(l: seq<string>, x: string)
    requires AddWithCap(l, x).Some?
    ensures var l1 := AddWithCap(l, x).value;
            AddWithCap(l1, x) == if |l1| < Capacity then Some(l1) else None
  {
  }

  /** Removing twice is removing once; removing an absent item changes nothing. */
  lemma PullTwiceIsPullOnce(l: seq<string>, x: string)
    ensures Pull(Pull(l, x), x) == Pull(l, x)
  {
    PullAbsent(Pull(l, x), x);
  }
}
