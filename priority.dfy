/**
 * How api/manager.py orders and filters a news type's `ApiSource` list:
 * the enabled sources, the sources other than a failed URL, and
 * `list.sort(key=lambda x: x.priority)`, which is a stable sort.
 */
module Priority {
  import opened Models

  // ----- filters -----

  /** `[s for s in sources if s.enabled]`. */
  function Enabled(s: seq<ApiSource>): (r: seq<ApiSource>)
    ensures |r| <= |s|
    ensures forall x :: x in r <==> x in s && x.enabled
  {
    if |s| == 0 then []
    else Enabled(s[..|s| - 1]) + (if s[|s| - 1].enabled then [s[|s| - 1]] else [])
  }

  /** `[s for s in sources if s.url != url]`. */
  function Without(s: seq<ApiSource>, url: string): (r: seq<ApiSource>)
    ensures |r| <= |s|
    ensures forall x :: x in r <==> x in s && x.url != url
  {
    if |s| == 0 then []
    else Without(s[..|s| - 1], url) + (if s[|s| - 1].url != url then [s[|s| - 1]] else [])
  }

  // ----- the stable sort by priority -----

  predicate SortedByPriority(s: seq<ApiSource>) {
    forall i, j :: 0 <= i < j < |s| ==> s[i].priority <= s[j].priority
  }

  /** Insert x after every element whose priority is not greater. */
  function Insert(sorted: seq<ApiSource>, x: ApiSource): (r: seq<ApiSource>)
    ensures |r| == |sorted| + 1
    ensures multiset(r) == multiset(sorted) + multiset{x}
  {
    if |sorted| == 0 then [x]
    else if sorted[|sorted| - 1].priority <= x.priority then sorted + [x]
    else
      assert sorted == sorted[..|sorted| - 1] + [sorted[|sorted| - 1]];
      Insert(sorted[..|sorted| - 1], x) + [sorted[|sorted| - 1]]
  }

  /** `sources.sort(key=lambda x: x.priority)`, as an insertion sort of the elements in order. */
  function ByPriority(s: seq<ApiSource>): (r: seq<ApiSource>)
    ensures |r| == |s|
    ensures multiset(r) == multiset(s)
  {
    if |s| == 0 then []
    else
      assert s == s[..|s| - 1] + [s[|s| - 1]];
      Insert(ByPriority(s[..|s| - 1]), s[|s| - 1])
  }

  lemma {:induction false} InsertSorted(sorted: seq<ApiSource>, x: ApiSource)
    requires SortedByPriority(sorted)
    ensures SortedByPriority(Insert(sorted, x))
  {
    if |sorted| > 0 && sorted[|sorted| - 1].priority > x.priority {
      var init := sorted[..|sorted| - 1];
      var last := sorted[|sorted| - 1];
      InsertSorted(init, x);
      var ins := Insert(init, x);
      forall y | y in ins
        ensures y.priority <= last.priority
      {
        assert y in multiset(ins);
        if y != x {
          assert y in init;
        }
      }
      forall i, j | 0 <= i < j < |ins| + 1
        ensures (ins + [last])[i].priority <= (ins + [last])[j].priority
      {
        if j == |ins| {
          assert ins[i] in ins;
        }
      }
    }
  }

  lemma {:induction false} ByPrioritySorted(s: seq<ApiSource>)
    ensures SortedByPriority(ByPriority(s))
  {
    if |s| > 0 {
      ByPrioritySorted(s[..|s| - 1]);
      InsertSorted(ByPriority(s[..|s| - 1]), s[|s| - 1]);
    }
  }

  /** The elements of priority p, in order. */
  function OfPriority(s: seq<ApiSource>, p: int): seq<ApiSource> {
    if |s| == 0 then []
    else OfPriority(s[..|s| - 1], p) + (if s[|s| - 1].priority == p then [s[|s| - 1]] else [])
  }

  lemma {:induction false} OfPriorityAppend(a: seq<ApiSource>, b: seq<ApiSource>, p: int)
    ensures OfPriority(a + b, p) == OfPriority(a, p) + OfPriority(b, p)
  {
    if |b| > 0 {
      OfPriorityAppend(a, b[..|b| - 1], p);
      assert (a + b)[..|a + b| - 1] == a + b[..|b| - 1];
    } else {
      assert a + b == a;
    }
  }

  /** Two sources of different priorities: at most one of them has priority p. */
  lemma OfPrioritySingles(x: ApiSource, y: ApiSource, p: int)
    requires x.priority != y.priority
    ensures OfPriority([x], p) + OfPriority([y], p) == OfPriority([y], p) + OfPriority([x], p)
  {
    assert [x][..0] == [] && [y][..0] == [];
  }

  /** x went in before last, which has a greater priority: appending last keeps the filter stable. */
  lemma InsertBehind(ins: seq<ApiSource>, init: seq<ApiSource>, x: ApiSource, last: ApiSource, p: int)
    requires last.priority > x.priority
    requires OfPriority(ins, p) == OfPriority(init, p) + OfPriority([x], p)
    ensures OfPriority(ins + [last], p) == OfPriority(init + [last], p) + OfPriority([x], p)
  {
    OfPriorityAppend(ins, [last], p);
    OfPriorityAppend(init, [last], p);
    OfPrioritySingles(x, last, p);
  }

  lemma {:induction false} InsertStable(sorted: seq<ApiSource>, x: ApiSource, p: int)
    ensures OfPriority(Insert(sorted, x), p) == OfPriority(sorted, p) + OfPriority([x], p)
  {
    if |sorted| == 0 {
    } else if sorted[|sorted| - 1].priority <= x.priority {
      assert Insert(sorted, x) == sorted + [x];
      OfPriorityAppend(sorted, [x], p);
    } else {
      var init := sorted[..|sorted| - 1];
      var last := sorted[|sorted| - 1];
      assert Insert(sorted, x) == Insert(init, x) + [last];
      assert sorted == init + [last];
      InsertStable(init, x, p);
      InsertBehind(Insert(init, x), init, x, last, p);
    }
  }

  /**
   * The sort is ordered by priority, a permutation, and stable: the sources
   * of any one priority keep their relative order.
   */
  lemma {:induction false} ByPrioritySpec(s: seq<ApiSource>)
    ensures SortedByPriority(ByPriority(s))
    ensures multiset(ByPriority(s)) == multiset(s)
    ensures forall p :: OfPriority(ByPriority(s), p) == OfPriority(s, p)
  {
    ByPrioritySorted(s);
    forall p
      ensures OfPriority(ByPriority(s), p) == OfPriority(s, p)
    {
      ByPriorityStable(s, p);
    }
  }

  lemma {:induction false} ByPriorityStable(s: seq<ApiSource>, p: int)
    ensures OfPriority(ByPriority(s), p) == OfPriority(s, p)
  {
    if |s| > 0 {
      var init := s[..|s| - 1];
      ByPriorityStable(init, p);
      InsertStable(ByPriority(init), s[|s| - 1], p);
    }
  }

  // ----- the head of the sorted list -----

  /** The position of the first element of least priority. */
  function FirstMinIndex(s: seq<ApiSource>): (i: nat)
    requires |s| > 0
    ensures i < |s|
    ensures forall j :: 0 <= j < |s| ==> s[i].priority <= s[j].priority
    ensures forall j :: 0 <= j < i ==> s[j].priority > s[i].priority
  {
    if |s| == 1 then 0
    else
      var m := FirstMinIndex(s[..|s| - 1]);
      if s[|s| - 1].priority < s[m].priority then |s| - 1 else m
  }

  lemma {:induction false} InsertHead(sorted: seq<ApiSource>, x: ApiSource)
    requires |sorted| > 0 && SortedByPriority(sorted)
    ensures Insert(sorted, x)[0] == if x.priority < sorted[0].priority then x else sorted[0]
  {
    var init := sorted[..|sorted| - 1];
    if |init| > 0 && sorted[|sorted| - 1].priority > x.priority {
      InsertHead(init, x);
    }
  }

  /** The head of the sorted list is the first element of least priority. */
  lemma {:induction false} ByPriorityHead(s: seq<ApiSource>)
    requires |s| > 0
    ensures ByPriority(s)[0] == s[FirstMinIndex(s)]
  {
    if |s| > 1 {
      var init := s[..|s| - 1];
      ByPriorityHead(init);
      ByPrioritySorted(init);
      InsertHead(ByPriority(init), s[|s| - 1]);
    }
  }
}
