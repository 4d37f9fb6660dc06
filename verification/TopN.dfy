/**
 The streaming top-N of the classifier (src/ai_application/ai_common/Classifier.cc): an ordered set of
 (score, index) pairs from which the least is dropped whenever a greater score comes along.  Scores are
 taken from a total order, so NaN is not among them.
 */
module TopN {
  datatype Entry = Entry(value: real, index: nat)

  /** The order of std::pair, by which std::set keeps its elements. */
  predicate Less(a: Entry, b: Entry) {
    a.value < b.value || (a.value == b.value && a.index < b.index)
  }

  predicate Ascending(s: seq<Entry>) {
    forall i, j :: 0 <= i < j < |s| ==> Less(s[i], s[j])
  }

  /** Where a new element goes in an ordered set. */
  function Insert(s: seq<Entry>, e: Entry): seq<Entry> {
    if s == [] || Less(e, s[0]) then [e] + s else [s[0]] + Insert(s[1..], e)
  }

  function Values(s: seq<Entry>): seq<real> {
    seq(|s|, i requires 0 <= i < |s| => s[i].value)
  }

  lemma ValuesCons(e: Entry, s: seq<Entry>)
    ensures Values([e] + s) == [e.value] + Values(s)
  {
  }

  /** Insertion adds exactly the new element. */
  lemma {:induction false} InsertMembers(s: seq<Entry>, e: Entry)
    ensures |Insert(s, e)| == |s| + 1
    ensures forall x :: x in Insert(s, e) <==> x == e || x in s
    ensures s != [] ==> Insert(s, e)[0] == if Less(e, s[0]) then e else s[0]
  {
    if !(s == [] || Less(e, s[0])) {
      InsertMembers(s[1..], e);
      assert s == [s[0]] + s[1..];
    }
  }

  lemma {:induction false} InsertValues(s: seq<Entry>, e: Entry)
    ensures multiset(Values(Insert(s, e))) == multiset(Values(s)) + multiset{e.value}
  {
    hide Values;
    if s == [] || Less(e, s[0]) {
      ValuesCons(e, s);
    } else {
      InsertValues(s[1..], e);
      assert s == [s[0]] + s[1..];
      ValuesCons(s[0], s[1..]);
      ValuesCons(s[0], Insert(s[1..], e));
    }
  }

  /** Insertion keeps the order. */
  lemma {:induction false} InsertAscending(s: seq<Entry>, e: Entry)
    requires Ascending(s) && forall i :: 0 <= i < |s| ==> s[i].index != e.index
    ensures Ascending(Insert(s, e))
  {
    if !(s == [] || Less(e, s[0])) {
      var t := Insert(s[1..], e);
      InsertAscending(s[1..], e);
      InsertMembers(s[1..], e);
      forall j | 0 <= j < |t| ensures Less(s[0], t[j]) {
        assert t[j] in t;
        if t[j] != e {
          assert t[j] in s[1..];
        }
      }
    }
  }

  lemma Inserted(s: seq<Entry>, e: Entry)
    requires Ascending(s) && forall i :: 0 <= i < |s| ==> s[i].index != e.index
    ensures Ascending(Insert(s, e)) && |Insert(s, e)| == |s| + 1
    ensures forall x :: x in Insert(s, e) <==> x == e || x in s
    ensures multiset(Values(Insert(s, e))) == multiset(Values(s)) + multiset{e.value}
    ensures s != [] ==> Insert(s, e)[0] == if Less(e, s[0]) then e else s[0]
  {
    hide Insert, Values, Ascending;
    InsertMembers(s, e);
    InsertValues(s, e);
    InsertAscending(s, e);
  }

  // ---------------------------------------------------------------- sorting, as the reference

  predicate Descending(s: seq<real>) {
    forall i, j :: 0 <= i < j < |s| ==> s[i] >= s[j]
  }

  function InsertDown(s: seq<real>, v: real): (r: seq<real>)
    ensures |r| == |s| + 1
  {
    if s == [] || v >= s[0] then [v] + s else [s[0]] + InsertDown(s[1..], v)
  }

  function SortDown(s: seq<real>): (r: seq<real>)
    ensures |r| == |s|
  {
    if s == [] then [] else InsertDown(SortDown(s[1..]), s[0])
  }

  lemma {:induction false} InsertDownMembers(s: seq<real>, v: real)
    ensures multiset(InsertDown(s, v)) == multiset(s) + multiset{v}
    ensures forall x :: x in InsertDown(s, v) ==> x == v || x in s
  {
    if !(s == [] || v >= s[0]) {
      InsertDownMembers(s[1..], v);
      assert s == [s[0]] + s[1..];
    }
  }

  lemma {:induction false} InsertDownSorts(s: seq<real>, v: real)
    requires Descending(s)
    ensures Descending(InsertDown(s, v))
  {
    if !(s == [] || v >= s[0]) {
      InsertDownSorts(s[1..], v);
      InsertDownMembers(s[1..], v);
      var t := InsertDown(s[1..], v);
      forall j | 0 <= j < |t| ensures s[0] >= t[j] {
        assert t[j] in t;
      }
    }
  }

  lemma {:induction false} SortDownSorts(s: seq<real>)
    ensures Descending(SortDown(s)) && multiset(SortDown(s)) == multiset(s)
  {
    if s != [] {
      SortDownSorts(s[1..]);
      InsertDownSorts(SortDown(s[1..]), s[0]);
      InsertDownMembers(SortDown(s[1..]), s[0]);
      assert s == [s[0]] + s[1..];
    }
  }

  lemma HeadIsGreatest(a: seq<real>, b: seq<real>)
    requires Descending(a) && multiset(a) == multiset(b) && a != [] && b != []
    ensures a[0] >= b[0]
  {
    assert b[0] in multiset(b);
    assert b[0] in a;
  }

  lemma SameTails(a: seq<real>, b: seq<real>)
    requires a != [] && b != [] && a[0] == b[0] && multiset(a) == multiset(b)
    ensures multiset(a[1..]) == multiset(b[1..])
  {
    assert multiset(a[1..]) == multiset(a) - multiset{a[0]} by {
      assert a == [a[0]] + a[1..];
    }
    assert multiset(b[1..]) == multiset(b) - multiset{b[0]} by {
      assert b == [b[0]] + b[1..];
    }
  }

  /** There is only one way to sort. */
  lemma {:induction false} SortedUnique(a: seq<real>, b: seq<real>)
    requires Descending(a) && Descending(b) && multiset(a) == multiset(b)
    ensures a == b
  {
    assert |multiset(a)| == |a| && |multiset(b)| == |b|;
    if a != [] {
      HeadIsGreatest(a, b);
      HeadIsGreatest(b, a);
      SameTails(a, b);
      SortedUnique(a[1..], b[1..]);
      assert a == [a[0]] + b[1..];
    }
  }

  // ---------------------------------------------------------------- the stream

  predicate Chosen(s: seq<Entry>, i: nat) {
    exists k :: 0 <= k < |s| && s[k].index == i
  }

  /** What the ordered set is after the first `n` scores: its own entries, and nothing passed over is greater. */
  ghost predicate Kept(tensor: seq<real>, s: seq<Entry>, n: nat, rest: seq<real>) {
    && n <= |tensor|
    && Ascending(s)
    && (forall i :: 0 <= i < |s| ==> s[i].index < n && s[i].value == tensor[s[i].index])
    && multiset(Values(s)) + multiset(rest) == multiset(tensor[..n])
    && (s != [] ==> forall i :: 0 <= i < |rest| ==> rest[i] <= s[0].value)
    && (s == [] ==> rest == [])
    && (forall i :: 0 <= i < n && !Chosen(s, i) ==> s != [] && tensor[i] <= s[0].value)
  }

  lemma ChosenAfter(s: seq<Entry>, t: seq<Entry>, e: Entry, i: nat)
    requires forall x :: x in t <==> x == e || x in s
    ensures Chosen(t, i) <==> i == e.index || Chosen(s, i)
  {
    assert e in t;
    if Chosen(t, i) {
      var k :| 0 <= k < |t| && t[k].index == i;
      assert t[k] in t;
    }
    if Chosen(s, i) {
      var k :| 0 <= k < |s| && s[k].index == i;
      assert s[k] in t;
    }
  }

  lemma PrefixGrows(tensor: seq<real>, n: nat)
    requires n < |tensor|
    ensures multiset(tensor[..n + 1]) == multiset(tensor[..n]) + multiset{tensor[n]}
  {
    assert tensor[..n + 1] == tensor[..n] + [tensor[n]];
  }

  /** Taking the next score in without dropping one. */
  lemma KeepMore(tensor: seq<real>, s: seq<Entry>, n: nat)
    requires Kept(tensor, s, n, []) && n < |tensor| && forall i :: 0 <= i < n ==> Chosen(s, i)
    ensures Kept(tensor, Insert(s, Entry(tensor[n], n)), n + 1, [])
    ensures forall i :: 0 <= i < n + 1 ==> Chosen(Insert(s, Entry(tensor[n], n)), i)
    ensures |Insert(s, Entry(tensor[n], n))| == |s| + 1
  {
    var e := Entry(tensor[n], n);
    Inserted(s, e);
    PrefixGrows(tensor, n);
    var t := Insert(s, e);
    forall i | 0 <= i < |t| ensures t[i].index < n + 1 && t[i].value == tensor[t[i].index] {
      assert t[i] in t;
    }
    forall i | 0 <= i < n + 1 ensures Chosen(t, i) {
      ChosenAfter(s, t, e, i);
    }
  }

  /** Passing the next score over. */
  lemma PassOver(tensor: seq<real>, s: seq<Entry>, n: nat, rest: seq<real>)
    requires Kept(tensor, s, n, rest) && n < |tensor| && s != [] && tensor[n] <= s[0].value
    ensures Kept(tensor, s, n + 1, rest + [tensor[n]])
  {
    PrefixGrows(tensor, n);
  }

  /** Dropping the least entry for the next score: order, entries and scores. */
  lemma ReplaceKeeps(tensor: seq<real>, s: seq<Entry>, n: nat, rest: seq<real>)
    requires Kept(tensor, s, n, rest) && n < |tensor| && s != [] && s[0].value < tensor[n]
    ensures var t := Insert(s[1..], Entry(tensor[n], n));
      && Ascending(t) && |t| == |s|
      && (forall x :: x in t <==> x == Entry(tensor[n], n) || x in s[1..])
      && (forall i :: 0 <= i < |t| ==>
            t[i].index < n + 1 && t[i].value == tensor[t[i].index] && s[0].value <= t[i].value)
      && multiset(Values(t)) + multiset(rest + [s[0].value]) == multiset(tensor[..n + 1])
  {
    hide Insert, Values, Chosen;
    var e := Entry(tensor[n], n);
    Inserted(s[1..], e);
    PrefixGrows(tensor, n);
    assert multiset(Values(s)) == multiset{s[0].value} + multiset(Values(s[1..])) by {
      ValuesCons(s[0], s[1..]);
      assert s == [s[0]] + s[1..];
    }
    var t := Insert(s[1..], e);
    forall i | 0 <= i < |t| ensures t[i].index < n + 1 && t[i].value == tensor[t[i].index] && s[0].value <= t[i].value {
      assert t[i] in t;
      if t[i] != e {
        assert t[i] in s[1..];
      }
    }
  }

  lemma ChosenTail(s: seq<Entry>, i: nat)
    requires s != []
    ensures Chosen(s, i) <==> i == s[0].index || Chosen(s[1..], i)
  {
    if Chosen(s, i) {
      var k :| 0 <= k < |s| && s[k].index == i;
      if k > 0 {
        assert s[1..][k - 1].index == i;
      }
    }
    if Chosen(s[1..], i) {
      var k :| 0 <= k < |s[1..]| && s[1..][k].index == i;
      assert s[k + 1].index == i;
    }
  }

  lemma Replace(tensor: seq<real>, s: seq<Entry>, n: nat, rest: seq<real>)
    requires Kept(tensor, s, n, rest) && n < |tensor| && s != [] && s[0].value < tensor[n]
    ensures Kept(tensor, Insert(s[1..], Entry(tensor[n], n)), n + 1, rest + [s[0].value])
    ensures |Insert(s[1..], Entry(tensor[n], n))| == |s|
  {
    hide Insert, Values, Ascending, Chosen;
    ReplaceKeeps(tensor, s, n, rest);
    var e := Entry(tensor[n], n);
    var t := Insert(s[1..], e);
    forall i | 0 <= i < n + 1 && !Chosen(t, i) ensures tensor[i] <= t[0].value {
      ChosenAfter(s[1..], t, e, i);
      ChosenTail(s, i);
    }
  }

  function Reversed(s: seq<Entry>): seq<Entry> {
    seq(|s|, i requires 0 <= i < |s| => s[|s| - 1 - i])
  }

  lemma TopThenTail(s: seq<Entry>, rest: seq<real>, tail: seq<real>)
    requires s != [] && Ascending(s) && forall i :: 0 <= i < |rest| ==> rest[i] <= s[0].value
    requires Descending(tail) && multiset(tail) == multiset(rest)
    ensures Descending(Values(Reversed(s)) + tail)
    ensures |Values(Reversed(s))| == |s|
  {
    var top := Values(Reversed(s));
    forall i | 0 <= i < |top| ensures s[0].value <= top[i] {
      assert top[i] == s[|s| - 1 - i].value;
    }
    forall i | 0 <= i < |tail| ensures tail[i] <= s[0].value {
      assert tail[i] in multiset(tail);
      assert tail[i] in rest;
    }
  }

  lemma {:induction false} ReversedValues(s: seq<Entry>)
    ensures multiset(Values(Reversed(s))) == multiset(Values(s))
  {
    if s != [] {
      var t := s[1..];
      ReversedValues(t);
      assert Reversed(s) == Reversed(t) + [s[0]];
      assert Values(Reversed(s)) == Values(Reversed(t)) + [s[0].value];
      assert s == [s[0]] + t;
      ValuesCons(s[0], t);
    } else {
      assert Values(Reversed(s)) == Values(s);
    }
  }

  /** The results, greatest first, are the sorted scores' first entries. */
  lemma TakesTheTop(tensor: seq<real>, s: seq<Entry>, n: nat, rest: seq<real>)
    requires Kept(tensor, s, n, rest) && s != []
    ensures |SortDown(tensor[..n])| == n && |s| <= n
    ensures Values(Reversed(s)) == SortDown(tensor[..n])[..|s|]
  {
    hide Values, Reversed, SortDown, Descending;
    SortDownSorts(rest);
    SortDownSorts(tensor[..n]);
    var top := Values(Reversed(s));
    var tail := SortDown(rest);
    ReversedValues(s);
    TopThenTail(s, rest, tail);
    SortedUnique(top + tail, SortDown(tensor[..n]));
    assert (top + tail)[..|top|] == top;
  }

  /** `SetVectorResults`: fills the vector from the greatest element down. */
  method SetVectorResults(topNSet: seq<Entry>, vecResults: array<Entry>)
    requires vecResults.Length == |topNSet|
    modifies vecResults
    ensures vecResults[..] == Reversed(topNSet)
  {
    var i, iter := 0, |topNSet|;
    while i < vecResults.Length && iter != 0
      invariant 0 <= i <= vecResults.Length && iter == |topNSet| - i
      invariant forall k :: 0 <= k < i ==> vecResults[k] == topNSet[|topNSet| - 1 - k]
    {
      vecResults[i] := topNSet[iter - 1];
      i, iter := i + 1, iter - 1;
    }
  }

  /** What the filled vector holds. */
  lemma Results(tensor: seq<real>, s: seq<Entry>, n: nat, rest: seq<real>)
    requires Kept(tensor, s, n, rest) && s != []
    ensures var r := Reversed(s);
      && (forall k :: 0 <= k < |s| ==> r[k].index < n && r[k].value == tensor[r[k].index])
      && (forall j, k :: 0 <= j < k < |s| ==> r[j].index != r[k].index && r[j].value >= r[k].value)
      && (forall i :: 0 <= i < n && (forall k :: 0 <= k < |s| ==> r[k].index != i) ==> tensor[i] <= r[|s| - 1].value)
  {
    hide Values;
    var r := Reversed(s);
    forall i | 0 <= i < n && (forall k :: 0 <= k < |s| ==> r[k].index != i) ensures tensor[i] <= r[|s| - 1].value {
      assert forall k :: 0 <= k < |s| ==> s[k] == r[|s| - 1 - k];
      assert !Chosen(s, i);
    }
  }

  lemma KeptNothing(tensor: seq<real>)
    ensures Kept(tensor, [], 0, [])
  {
    assert Values([]) == [];
    assert tensor[..0] == [];
  }

  /**
   `GetTopNResults`: topN distinct labels with their own scores, greatest first; the scores are those a
   full sort would put first, and no label left out has a greater one.
   */
  method GetTopNResults(tensor: seq<real>, topNCount: nat, labelSize: nat) returns (vecResults: array<Entry>)
    requires 1 <= topNCount <= labelSize <= |tensor|
    ensures fresh(vecResults) && vecResults.Length == topNCount
    ensures forall k :: 0 <= k < topNCount ==>
      vecResults[k].index < labelSize && vecResults[k].value == tensor[vecResults[k].index]
    ensures forall j, k :: 0 <= j < k < topNCount ==>
      vecResults[j].index != vecResults[k].index && vecResults[j].value >= vecResults[k].value
    ensures Values(vecResults[..]) == SortDown(tensor[..labelSize])[..topNCount]
    ensures forall i :: 0 <= i < labelSize && (forall k :: 0 <= k < topNCount ==> vecResults[k].index != i) ==>
      tensor[i] <= vecResults[topNCount - 1].value
  {
    hide Insert, SortDown, Values, Kept, Chosen, Reversed;
    var sortedSet: seq<Entry> := [];
    KeptNothing(tensor);
    for i := 0 to topNCount
      invariant |sortedSet| == i && Kept(tensor, sortedSet, i, []) && forall k :: 0 <= k < i ==> Chosen(sortedSet, k)
    {
      KeepMore(tensor, sortedSet, i);
      sortedSet := Insert(sortedSet, Entry(tensor[i], i));
    }
    ghost var rest: seq<real> := [];
    for i := topNCount to labelSize
      invariant |sortedSet| == topNCount && Kept(tensor, sortedSet, i, rest)
    {
      assert sortedSet != [];
      if sortedSet[0].value < tensor[i] {
        Replace(tensor, sortedSet, i, rest);
        rest := rest + [sortedSet[0].value];
        sortedSet := Insert(sortedSet[1..], Entry(tensor[i], i));
      } else {
        PassOver(tensor, sortedSet, i, rest);
        rest := rest + [tensor[i]];
      }
    }
    vecResults := new Entry[topNCount](_ => Entry(0.0, 0));
    SetVectorResults(sortedSet, vecResults);
    TakesTheTop(tensor, sortedSet, labelSize, rest);
    Results(tensor, sortedSet, labelSize, rest);
  }
}
