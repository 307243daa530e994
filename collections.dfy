/** The list operations every record page performs on its ordered collection of records:
    `filter`, `filter(...).length`, removing, merging into or replacing the entries with a
    given id, and appending only the records whose id is not already present. */
module Collections {
  import opened Values
  import opened Strings

  /** `xs.filter(keep)` */
  function Filter<T(!new)>(xs: seq<T>, keep: T -> bool): (r: seq<T>)
    ensures |r| <= |xs|
    ensures forall x :: x in r <==> x in xs && keep(x)
    decreases |xs|
  {
    if xs == [] then []
    else if keep(xs[0]) then [xs[0]] + Filter(xs[1..], keep)
    else Filter(xs[1..], keep)
  }

  /** `a` is `b` with some entries left out, in the same order. */
  predicate IsSubsequence<T(==)>(a: seq<T>, b: seq<T>)
    decreases |b|
  {
    if a == [] then true
    else if b == [] then false
    else (a[0] == b[0] && IsSubsequence(a[1..], b[1..])) || IsSubsequence(a, b[1..])
  }

  /** A filtered view never invents or reorders entries. */
  lemma {:induction false} FilterIsSubsequence<T(!new)>(xs: seq<T>, keep: T -> bool)
    ensures IsSubsequence(Filter(xs, keep), xs)
    decreases |xs|
  {
    if xs != [] {
      FilterIsSubsequence(xs[1..], keep);
    }
  }

  /** A filter that every entry passes returns the whole list, in order. */
  lemma {:induction false} FilterAll<T(!new)>(xs: seq<T>, keep: T -> bool)
    requires forall x :: x in xs ==> keep(x)
    ensures Filter(xs, keep) == xs
    decreases |xs|
  {
    if xs != [] {
      assert xs[0] in xs;
      FilterAll(xs[1..], keep);
      assert xs == [xs[0]] + xs[1..];
    }
  }

  /** An entry is either kept by a filter or by its complement. */
  lemma {:induction false} FilterPartition<T(!new)>(xs: seq<T>, keep: T -> bool, drop: T -> bool)
    requires forall x :: drop(x) <==> !keep(x)
    ensures |Filter(xs, keep)| + |Filter(xs, drop)| == |xs|
    decreases |xs|
  {
    if xs != [] {
      FilterPartition(xs[1..], keep, drop);
    }
  }

  /** `xs.filter(keep).length` */
  function Count<T(!new)>(xs: seq<T>, keep: T -> bool): (n: nat)
    ensures n <= |xs|
    ensures n == 0 <==> forall x :: x in xs ==> !keep(x)
  {
    assert Filter(xs, keep) == [] || Filter(xs, keep)[0] in Filter(xs, keep);
    |Filter(xs, keep)|
  }

  /** `xs.filter(r => r[key] === v).length` */
  function CountEq(xs: seq<Record>, key: string, v: Value): nat
  {
    Count(xs, (r: Record) => Get(r, key) == v)
  }

  lemma CountEqUnfold(xs: seq<Record>, key: string, v: Value)
    requires xs != []
    ensures CountEq(xs, key, v) == (if Get(xs[0], key) == v then 1 else 0) + CountEq(xs[1..], key, v)
  {
  }

  /** The counts of the values `vs`, added up. */
  function SumCounts(xs: seq<Record>, key: string, vs: seq<Value>): nat
  {
    if vs == [] then 0 else CountEq(xs, key, vs[0]) + SumCounts(xs, key, vs[1..])
  }

  predicate Distinct<T(==)>(vs: seq<T>)
  {
    forall i, j :: 0 <= i < j < |vs| ==> vs[i] != vs[j]
  }

  /** How many of `vs` equal `v`. */
  function Hits(v: Value, vs: seq<Value>): nat
  {
    if vs == [] then 0 else (if vs[0] == v then 1 else 0) + Hits(v, vs[1..])
  }

  lemma {:induction false} HitsAtMostOne(v: Value, vs: seq<Value>)
    requires Distinct(vs)
    ensures Hits(v, vs) <= 1
  {
    if vs != [] {
      HitsAtMostOne(v, vs[1..]);
      if vs[0] == v {
        HitsAbsent(v, vs[1..]);
      }
    }
  }

  lemma {:induction false} HitsAbsent(v: Value, vs: seq<Value>)
    requires v !in vs
    ensures Hits(v, vs) == 0
  {
    if vs != [] {
      HitsAbsent(v, vs[1..]);
    }
  }

  lemma {:induction false} SumCountsUnfold(xs: seq<Record>, key: string, vs: seq<Value>)
    requires xs != []
    ensures SumCounts(xs, key, vs) == Hits(Get(xs[0], key), vs) + SumCounts(xs[1..], key, vs)
  {
    if vs != [] {
      CountEqUnfold(xs, key, vs[0]);
      SumCountsUnfold(xs, key, vs[1..]);
    }
  }

  /** Counting the records whose field takes each of several different values counts
      every record at most once: the counts add up to at most the list's length. */
  lemma {:induction false} DistinctCountsBounded(xs: seq<Record>, key: string, vs: seq<Value>)
    requires Distinct(vs)
    ensures SumCounts(xs, key, vs) <= |xs|
  {
    if xs == [] {
      ZeroCounts(key, vs);
    } else {
      SumCountsUnfold(xs, key, vs);
      HitsAtMostOne(Get(xs[0], key), vs);
      DistinctCountsBounded(xs[1..], key, vs);
    }
  }

  lemma {:induction false} ZeroCounts(key: string, vs: seq<Value>)
    ensures SumCounts([], key, vs) == 0
  {
    if vs != [] {
      ZeroCounts(key, vs[1..]);
    }
  }

  /** The column of `key` values, in list order. */
  function Column(xs: seq<Record>, key: string): (col: seq<Value>)
    ensures |col| == |xs| && forall i :: 0 <= i < |xs| ==> col[i] == Get(xs[i], key)
  {
    seq(|xs|, i requires 0 <= i < |xs| => Get(xs[i], key))
  }

  /** A filter-and-count is the number of times the value occurs in the column. */
  lemma {:induction false} CountEqIsMultiplicity(xs: seq<Record>, key: string, v: Value)
    ensures CountEq(xs, key, v) == multiset(Column(xs, key))[v]
  {
    if xs != [] {
      CountEqUnfold(xs, key, v);
      CountEqIsMultiplicity(xs[1..], key, v);
      assert Column(xs, key) == [Get(xs[0], key)] + Column(xs[1..], key);
    }
  }

  /** Two counts of different values of one field add up to at most the length. */
  lemma TwoCountsBounded(xs: seq<Record>, key: string, a: Value, b: Value)
    requires a != b
    ensures CountEq(xs, key, a) + CountEq(xs, key, b) <= |xs|
  {
    var vs := [a, b];
    assert vs[1..] == [b] && vs[1..][1..] == [];
    DistinctCountsBounded(xs, key, vs);
  }

  /** Four counts of pairwise different values of one field add up to at most the length. */
  lemma FourCountsBounded(xs: seq<Record>, key: string, a: Value, b: Value, c: Value, d: Value)
    requires a != b && a != c && a != d && b != c && b != d && c != d
    ensures CountEq(xs, key, a) + CountEq(xs, key, b) + CountEq(xs, key, c) + CountEq(xs, key, d) <= |xs|
  {
    var vs := [a, b, c, d];
    assert vs[1..] == [b, c, d] && vs[1..][1..] == [c, d] && vs[1..][1..][1..] == [d];
    assert vs[1..][1..][1..][1..] == [];
    assert SumCounts(xs, key, [d]) == CountEq(xs, key, d);
    assert SumCounts(xs, key, [c, d]) == CountEq(xs, key, c) + CountEq(xs, key, d);
    assert SumCounts(xs, key, [b, c, d]) == CountEq(xs, key, b) + SumCounts(xs, key, [c, d]);
    DistinctCountsBounded(xs, key, vs);
  }

  /** `r[field]?.toLowerCase().includes(term.toLowerCase())`: a case-insensitive search in
      one text field; a missing or non-text field does not match. */
  predicate FieldIncludes(r: Record, field: string, term: string)
  {
    match Get(r, field)
    case Str(s) => Includes(Lower(s), Lower(term))
    case _ => false
  }

  /** The empty search term matches every text field. */
  lemma EmptyTermMatchesText(r: Record, field: string)
    requires Get(r, field).Str?
    ensures FieldIncludes(r, field, "")
  {
    IncludesEmpty(Lower(Get(r, field).s));
  }

  /** No two entries share an id. */
  predicate UniqueIds(xs: seq<Record>, key: string)
  {
    forall i, j :: 0 <= i < j < |xs| ==> Get(xs[i], key) != Get(xs[j], key)
  }

  /** The ids present in `xs`: `new Set(xs.map(r => r[key]))`. */
  function IdSet(xs: seq<Record>, key: string): (ids: set<Value>)
    ensures forall x :: x in xs ==> Get(x, key) in ids
    ensures forall id :: id in ids ==> exists x :: x in xs && Get(x, key) == id
  {
    set x | x in xs :: Get(x, key)
  }

  /** In a list with unique ids, an id present in the list is carried by exactly one entry. */
  lemma {:induction false} CountEqUnique(xs: seq<Record>, key: string, id: Value)
    requires UniqueIds(xs, key)
    ensures CountEq(xs, key, id) <= 1
    ensures id in IdSet(xs, key) ==> CountEq(xs, key, id) == 1
  {
    if xs != [] {
      CountEqUnfold(xs, key, id);
      CountEqUnique(xs[1..], key, id);
      if Get(xs[0], key) == id {
        AbsentIdCount(xs[1..], key, id);
      } else if id in IdSet(xs, key) {
        var x :| x in xs && Get(x, key) == id;
        assert x in xs[1..];
      }
    }
  }

  lemma {:induction false} AbsentIdCount(xs: seq<Record>, key: string, id: Value)
    requires forall x :: x in xs ==> Get(x, key) != id
    ensures CountEq(xs, key, id) == 0
  {
    if xs != [] {
      CountEqUnfold(xs, key, id);
      AbsentIdCount(xs[1..], key, id);
    }
  }

  /** `xs.filter(r => r[key] !== id)`: the delete handlers' local update. */
  function RemoveId(xs: seq<Record>, key: string, id: Value): (r: seq<Record>)
    ensures forall x :: x in r <==> x in xs && Get(x, key) != id
    ensures IsSubsequence(r, xs)
    ensures |r| == |xs| - CountEq(xs, key, id)
  {
    var keep := (x: Record) => Get(x, key) != id;
    FilterIsSubsequence(xs, keep);
    FilterPartition(xs, keep, (x: Record) => Get(x, key) == id);
    Filter(xs, keep)
  }

  /** Deleting an id that is present from a list with unique ids removes exactly one entry. */
  lemma RemovePresentId(xs: seq<Record>, key: string, id: Value)
    requires UniqueIds(xs, key) && id in IdSet(xs, key)
    ensures |RemoveId(xs, key, id)| == |xs| - 1
    ensures id !in IdSet(RemoveId(xs, key, id), key)
  {
    CountEqUnique(xs, key, id);
  }

  /** `xs.map(r => r[key] === id ? {...r, ...patch} : r)`: an update merged into every
      entry carrying the id. */
  function MergeId(xs: seq<Record>, key: string, id: Value, patch: Record): (r: seq<Record>)
    ensures |r| == |xs|
    ensures forall i :: 0 <= i < |xs| && Get(xs[i], key) != id ==> r[i] == xs[i]
    ensures forall i :: 0 <= i < |xs| && Get(xs[i], key) == id ==>
              r[i].Keys == xs[i].Keys + patch.Keys &&
              (forall k :: k in patch ==> r[i][k] == patch[k]) &&
              (forall k :: k in xs[i] && k !in patch ==> r[i][k] == xs[i][k])
  {
    seq(|xs|, i requires 0 <= i < |xs| => if Get(xs[i], key) == id then xs[i] + patch else xs[i])
  }

  /** A merge whose patch keeps the id (or does not mention it) leaves every entry's id
      where it was, so a list with unique ids keeps unique ids. */
  lemma MergeIdKeepsIds(xs: seq<Record>, key: string, id: Value, patch: Record)
    requires key !in patch || patch[key] == id
    ensures forall i :: 0 <= i < |xs| ==> Get(MergeId(xs, key, id, patch)[i], key) == Get(xs[i], key)
    ensures UniqueIds(xs, key) ==> UniqueIds(MergeId(xs, key, id, patch), key)
  {
    var r := MergeId(xs, key, id, patch);
    forall i | 0 <= i < |xs| ensures Get(r[i], key) == Get(xs[i], key) {
      if Get(xs[i], key) == id && key !in patch && key !in xs[i] {
        assert key !in r[i];
      }
    }
  }

  /** An update for an id that no entry carries changes nothing. */
  lemma MergeAbsentId(xs: seq<Record>, key: string, id: Value, patch: Record)
    requires id !in IdSet(xs, key)
    ensures MergeId(xs, key, id, patch) == xs
  {
  }

  /** `xs.map(r => r[key] === id ? rec : r)`: every entry carrying the id replaced by `rec`. */
  function ReplaceId(xs: seq<Record>, key: string, id: Value, rec: Record): (r: seq<Record>)
    ensures |r| == |xs|
    ensures forall i :: 0 <= i < |xs| ==> r[i] == if Get(xs[i], key) == id then rec else xs[i]
  {
    seq(|xs|, i requires 0 <= i < |xs| => if Get(xs[i], key) == id then rec else xs[i])
  }

  /** Replacing by a record that carries the same id keeps every id in place. */
  lemma ReplaceIdKeepsIds(xs: seq<Record>, key: string, id: Value, rec: Record)
    requires Get(rec, key) == id
    ensures forall i :: 0 <= i < |xs| ==> Get(ReplaceId(xs, key, id, rec)[i], key) == Get(xs[i], key)
    ensures UniqueIds(xs, key) ==> UniqueIds(ReplaceId(xs, key, id, rec), key)
  {
  }

  /** `[...prev, ...batch.filter(p => !existingIds.has(p[key]))]`: the import that appends
      only the records whose id is not already in the list. */
  function AppendUnseen(prev: seq<Record>, batch: seq<Record>, key: string): (r: seq<Record>)
    ensures |prev| <= |r| <= |prev| + |batch|
    ensures r[..|prev|] == prev
    ensures forall x :: x in r[|prev|..] <==> x in batch && Get(x, key) !in IdSet(prev, key)
    ensures IsSubsequence(r[|prev|..], batch)
  {
    var ids := IdSet(prev, key);
    var unseen := Filter(batch, (p: Record) => Get(p, key) !in ids);
    FilterIsSubsequence(batch, (p: Record) => Get(p, key) !in ids);
    assert (prev + unseen)[|prev|..] == unseen;
    prev + unseen
  }

  /** An empty import leaves the list as it was. */
  lemma AppendNothing(prev: seq<Record>, key: string)
    ensures AppendUnseen(prev, [], key) == prev
  {
    assert AppendUnseen(prev, [], key)[..|prev|] == prev;
  }

  /** When no imported id is already present the whole batch is appended, duplicates
      inside the batch included. */
  lemma AppendAllUnseen(prev: seq<Record>, batch: seq<Record>, key: string)
    requires forall x :: x in batch ==> Get(x, key) !in IdSet(prev, key)
    ensures AppendUnseen(prev, batch, key) == prev + batch
  {
    var ids := IdSet(prev, key);
    FilterAll(batch, (p: Record) => Get(p, key) !in ids);
  }

  lemma {:induction false} FilterKeepsUnique(xs: seq<Record>, keep: Record -> bool, key: string)
    requires UniqueIds(xs, key)
    ensures UniqueIds(Filter(xs, keep), key)
    decreases |xs|
  {
    if xs != [] {
      var rest := Filter(xs[1..], keep);
      FilterKeepsUnique(xs[1..], keep, key);
      if keep(xs[0]) {
        var r := [xs[0]] + rest;
        forall i, j | 0 <= i < j < |r| ensures Get(r[i], key) != Get(r[j], key) {
          if i == 0 {
            assert r[j] in xs[1..];
            var m :| 0 <= m < |xs[1..]| && xs[1..][m] == r[j];
            assert xs[m + 1] == r[j];
          } else {
            assert r[i] == rest[i - 1] && r[j] == rest[j - 1];
          }
        }
      }
    }
  }

  /** Importing into a list with unique ids a batch with unique ids keeps the ids unique:
      no imported record duplicates an id already present. */
  lemma AppendUnseenKeepsUnique(prev: seq<Record>, batch: seq<Record>, key: string)
    requires UniqueIds(prev, key) && UniqueIds(batch, key)
    ensures UniqueIds(AppendUnseen(prev, batch, key), key)
  {
    var ids := IdSet(prev, key);
    var unseen := Filter(batch, (p: Record) => Get(p, key) !in ids);
    FilterKeepsUnique(batch, (p: Record) => Get(p, key) !in ids, key);
    var r := AppendUnseen(prev, batch, key);
    assert r == prev + unseen;
    forall i, j | 0 <= i < j < |r| ensures Get(r[i], key) != Get(r[j], key) {
      if j >= |prev| && i < |prev| {
        assert r[j] == unseen[j - |prev|];
        assert r[i] in prev;
      } else if i >= |prev| {
        assert r[i] == unseen[i - |prev|] && r[j] == unseen[j - |prev|];
      }
    }
  }
}
