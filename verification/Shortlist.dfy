/** The optimiser's prescreen: the best k candidates of a stream, kept in a bounded min-heap. */
module Shortlist {
  import Sets


  /** A scored candidate; the sequence number is its place in the stream. */
  datatype Item<T> = Item(score: real, sequence: nat, candidate: T)

  /** The order of the heap's tuples: by score, then by sequence. Sequences never tie. */
  predicate Below<T>(a: Item<T>, b: Item<T>) {
    a.score < b.score || (a.score == b.score && a.sequence < b.sequence)
  }

  /** The order of the final listing: best score first, and among equals the earlier first. */
  predicate Before<T>(a: Item<T>, b: Item<T>) {
    a.score > b.score || (a.score == b.score && a.sequence < b.sequence)
  }

  function Stream<T>(scored: seq<(real, T)>): (items: seq<Item<T>>)
    ensures |items| == |scored|
    ensures forall i :: 0 <= i < |scored| ==> items[i] == Item(scored[i].0, i, scored[i].1)
  {
    seq(|scored|, i requires 0 <= i < |scored| => Item(scored[i].0, i, scored[i].1))
  }

  ghost function Members<T>(items: seq<Item<T>>): set<Item<T>> {
    set i | 0 <= i < |items| :: items[i]
  }

  /** `kept` are the k greatest of `all`: as many as there can be, and nothing left out is above
      anything kept. */
  ghost predicate AreGreatest<T(!new)>(kept: set<Item<T>>, all: set<Item<T>>, k: nat) {
    && kept <= all
    && |kept| == (if |all| <= k then |all| else k)
    && forall a, b :: a in kept && b in all && b !in kept ==> Below(b, a)
  }

  ghost predicate Numbered<T(!new)>(items: set<Item<T>>) {
    forall a, b :: a in items && b in items && a.sequence == b.sequence ==> a == b
  }

  ghost predicate IsLeast<T(!new)>(m: Item<T>, items: set<Item<T>>) {
    m in items && forall x :: x in items && x != m ==> Below(m, x)
  }

  lemma {:induction false} HasLeast<T(!new)>(items: set<Item<T>>) returns (m: Item<T>)
    requires items != {} && Numbered(items)
    ensures IsLeast(m, items)
    decreases |items|
  {
    m := Sets.Member(items);
    var rest := items - {m};
    assert forall x :: x in items ==> x == m || x in rest;
    if rest != {} {
      var least := HasLeast(rest);
      if Below(least, m) {
        m := least;
      }
    }
  }

  /** What `heappop` removes. */
  function Least<T(==, !new)>(items: set<Item<T>>): (m: Item<T>)
    requires items != {} && Numbered(items)
    ensures m in items && forall x :: x in items && x != m ==> Below(m, x)
  {
    assert exists m :: IsLeast(m, items) by {
      var m := HasLeast(items);
    }
    var m :| m in items && forall x :: x in items && x != m ==> Below(m, x);
    m
  }

  ghost predicate IsFirst<T(!new)>(m: Item<T>, items: set<Item<T>>) {
    m in items && forall x :: x in items && x != m ==> Before(m, x)
  }

  lemma {:induction false} HasFirst<T(!new)>(items: set<Item<T>>) returns (m: Item<T>)
    requires items != {} && Numbered(items)
    ensures IsFirst(m, items)
    decreases |items|
  {
    m := Sets.Member(items);
    var rest := items - {m};
    assert forall x :: x in items ==> x == m || x in rest;
    if rest != {} {
      var first := HasFirst(rest);
      if Before(first, m) {
        m := first;
      }
    }
  }

  /** What the final sort puts first. */
  function First<T(==, !new)>(items: set<Item<T>>): (m: Item<T>)
    requires items != {} && Numbered(items)
    ensures m in items && forall x :: x in items && x != m ==> Before(m, x)
  {
    assert exists m :: IsFirst(m, items) by {
      var m := HasFirst(items);
    }
    var m :| m in items && forall x :: x in items && x != m ==> Before(m, x);
    m
  }

  /** Pushing while there is room keeps everything. */
  lemma PushKeepsGreatest<T(!new)>(heap: set<Item<T>>, all: set<Item<T>>, item: Item<T>, k: nat)
    requires AreGreatest(heap, all, k) && item !in all && |heap| < k
    ensures AreGreatest(heap + {item}, all + {item}, k)
  {
    assert |heap| == |all|;
    Sets.SubsetOfSameSize(heap, all);
  }

  /** Pushing into a full heap and popping its least keeps the greatest. */
  lemma PushPopKeepsGreatest<T(!new)>(heap: set<Item<T>>, all: set<Item<T>>, item: Item<T>, k: nat)
    requires AreGreatest(heap, all, k) && item !in all && |heap| == k && Numbered(all + {item})
    ensures Numbered(heap + {item})
    ensures AreGreatest(heap + {item} - {Least(heap + {item})}, all + {item}, k)
  {
    assert heap + {item} <= all + {item};
    var grown := heap + {item};
    var out := Least(grown);
    var kept := grown - {out};
    assert |grown| == k + 1 && |kept| == k;
    assert |all + {item}| == |all| + 1;
    Sets.SubsetIsSmaller(heap, all);
    forall a, b | a in kept && b in all + {item} && b !in kept ensures Below(b, a) {
      if b != out {
        assert b in all && b !in heap;
        if a == item {
          // out is not the item, so it was in the heap: b is below it, and it is below the item
          assert out in heap && Below(b, out) && Below(out, a);
        } else {
          assert Below(b, a);
        }
      }
    }
  }

  ghost predicate Listed<T(!new)>(items: seq<Item<T>>) {
    forall i, j :: 0 <= i < j < |items| ==> Before(items[i], items[j])
  }

  lemma {:induction false} MembersOfPrefix<T>(items: seq<Item<T>>, n: nat)
    requires n < |items|
    ensures Members(items[..n + 1]) == Members(items[..n]) + {items[n]}
  {
    assert items[..n + 1] == items[..n] + [items[n]];
    forall x | x in Members(items[..n + 1]) ensures x in Members(items[..n]) + {items[n]} {
      var i :| 0 <= i < n + 1 && items[..n + 1][i] == x;
      if i < n { assert items[..n][i] == x; }
    }
    forall x | x in Members(items[..n]) + {items[n]} ensures x in Members(items[..n + 1]) {
      if x == items[n] {
        assert items[..n + 1][n] == x;
      } else {
        var i :| 0 <= i < n && items[..n][i] == x;
        assert items[..n + 1][i] == x;
      }
    }
  }

  lemma StreamIsNumbered<T(!new)>(scored: seq<(real, T)>, n: nat)
    requires n <= |scored|
    ensures Numbered(Members(Stream(scored)[..n]))
    ensures forall x :: x in Members(Stream(scored)[..n]) ==> x.sequence < n
  {
  }

  /** What one more candidate adds to the stream seen so far. */
  lemma StreamStep<T(!new)>(scored: seq<(real, T)>, n: nat)
    requires n < |scored|
    ensures var stream := Stream(scored);
            && Members(stream[..n + 1]) == Members(stream[..n]) + {stream[n]}
            && stream[n] !in Members(stream[..n])
            && Numbered(Members(stream[..n]) + {stream[n]})
  {
    MembersOfPrefix(Stream(scored), n);
    StreamIsNumbered(scored, n);
    StreamIsNumbered(scored, n + 1);
  }

  /** The heap holds the k greatest of the first n candidates. */
  ghost predicate HoldsGreatest<T(!new)>(heap: set<Item<T>>, scored: seq<(real, T)>, n: nat, k: nat)
    requires n <= |scored|
  {
    AreGreatest(heap, Members(Stream(scored)[..n]), k)
  }

  /** One turn of the loop on the heap. */
  method Offer<T(==, !new)>(heap: set<Item<T>>, scored: seq<(real, T)>, n: nat, shortlistSize: int)
    returns (heap': set<Item<T>>)
    requires n < |scored| && HoldsGreatest(heap, scored, n, Size(shortlistSize))
    ensures HoldsGreatest(heap', scored, n + 1, Size(shortlistSize))
  {
    var item := Stream(scored)[n];
    ghost var seen := Members(Stream(scored)[..n]);
    StreamStep(scored, n);
    if |heap| < shortlistSize {
      PushKeepsGreatest(heap, seen, item, Size(shortlistSize));
      heap' := heap + {item};
    } else {
      PushPopKeepsGreatest(heap, seen, item, Size(shortlistSize));
      heap' := heap + {item} - {Least(heap + {item})};
    }
  }

  function Size(shortlistSize: int): nat {
    if shortlistSize > 0 then shortlistSize else 0
  }

  lemma MembersOfAppend<T>(items: seq<Item<T>>, x: Item<T>)
    ensures Members(items + [x]) == Members(items) + {x}
  {
    MembersOfPrefix(items + [x], |items|);
    assert (items + [x])[..|items|] == items && (items + [x])[..|items| + 1] == items + [x];
  }

  lemma ListedAppend<T(!new)>(listed: seq<Item<T>>, rest: set<Item<T>>, first: Item<T>)
    requires Listed(listed) && AllBefore(listed, rest) && first in rest
    requires forall x :: x in rest && x != first ==> Before(first, x)
    ensures Listed(listed + [first]) && AllBefore(listed + [first], rest - {first})
  {
  }

  ghost predicate AllBefore<T(!new)>(listed: seq<Item<T>>, rest: set<Item<T>>) {
    forall i, x :: 0 <= i < |listed| && x in rest ==> Before(listed[i], x)
  }

  /** `sorted` with the reversed key, by repeatedly taking the first. */
  method ListInOrder<T(==, !new)>(heap: set<Item<T>>) returns (listed: seq<Item<T>>)
    requires Numbered(heap)
    ensures Listed(listed) && |listed| == |heap| && Members(listed) == heap
  {
    listed := [];
    var rest := heap;
    while rest != {}
      invariant rest <= heap && Members(listed) == heap - rest && |listed| + |rest| == |heap|
      invariant Listed(listed) && AllBefore(listed, rest)
      decreases |rest|
    {
      var first := First(rest);
      ListedAppend(listed, rest, first);
      MembersOfAppend(listed, first);
      listed := listed + [first];
      rest := rest - {first};
    }
  }

  /** The loop over the stream. */
  method FillHeap<T(==, !new)>(scored: seq<(real, T)>, shortlistSize: int) returns (heap: set<Item<T>>)
    ensures AreGreatest(heap, Members(Stream(scored)), Size(shortlistSize)) && Numbered(heap)
  {
    heap := {};
    for sequence := 0 to |scored|
      invariant HoldsGreatest(heap, scored, sequence, Size(shortlistSize))
    {
      heap := Offer(heap, scored, sequence, shortlistSize);
    }
    assert Stream(scored)[..|scored|] == Stream(scored);
    StreamIsNumbered(scored, |scored|);
  }

  /** Better scores first, and among equal scores the earlier in the stream first. */
  ghost predicate GoesByScore<T>(shortlist: seq<Item<T>>) {
    forall i, j :: 0 <= i < j < |shortlist| ==>
      || shortlist[i].score > shortlist[j].score
      || (shortlist[i].score == shortlist[j].score && shortlist[i].sequence < shortlist[j].sequence)
  }

  /** What is left out has a lower score than anything listed, or the same score and an earlier place in the stream. */
  ghost predicate BeatsTheRest<T(!new)>(shortlist: seq<Item<T>>, scored: seq<(real, T)>) {
    forall i, k :: 0 <= i < |shortlist| && 0 <= k < |scored| && Item(scored[k].0, k, scored[k].1) !in shortlist ==>
      || scored[k].0 < shortlist[i].score
      || (scored[k].0 == shortlist[i].score && k < shortlist[i].sequence)
  }

  ghost predicate FromStream<T(!new)>(shortlist: seq<Item<T>>, scored: seq<(real, T)>) {
    forall i :: 0 <= i < |shortlist| ==>
      && shortlist[i].sequence < |scored|
      && shortlist[i].score == scored[shortlist[i].sequence].0
      && shortlist[i].candidate == scored[shortlist[i].sequence].1
  }

  /** `_prescreen_candidates`: the shortlist is as many of the candidates as are asked for, the best by score. At equal
      scores the later candidate is kept, and the earlier listed first. */
  method Prescreen<T(==, !new)>(scored: seq<(real, T)>, shortlistSize: int) returns (shortlist: seq<Item<T>>)
    ensures AreGreatest(Members(shortlist), Members(Stream(scored)), Size(shortlistSize))
    ensures |shortlist| == if shortlistSize <= 0 then 0
                           else if |scored| <= shortlistSize then |scored| else shortlistSize
    ensures GoesByScore(shortlist) && FromStream(shortlist, scored) && BeatsTheRest(shortlist, scored)
  {
    var heap := FillHeap(scored, shortlistSize);
    shortlist := ListInOrder(heap);
    StreamSize(scored, |scored|);
    assert Stream(scored)[..|scored|] == Stream(scored);
    ListingMeans(shortlist, scored, Size(shortlistSize));
  }

  lemma StreamSize<T(!new)>(scored: seq<(real, T)>, n: nat)
    requires n <= |scored|
    ensures |Members(Stream(scored)[..n])| == n
  {
    for i := 0 to n
      invariant |Members(Stream(scored)[..i])| == i
    {
      StreamStep(scored, i);
    }
  }

  lemma ListingMeans<T(!new)>(shortlist: seq<Item<T>>, scored: seq<(real, T)>, k: nat)
    requires Listed(shortlist) && AreGreatest(Members(shortlist), Members(Stream(scored)), k)
    ensures GoesByScore(shortlist) && FromStream(shortlist, scored) && BeatsTheRest(shortlist, scored)
  {
    var stream := Stream(scored);
    forall i | 0 <= i < |shortlist| ensures shortlist[i] in Members(stream) {
      assert shortlist[i] in Members(shortlist);
    }
    forall i, k | 0 <= i < |shortlist| && 0 <= k < |scored| && Item(scored[k].0, k, scored[k].1) !in shortlist
      ensures Below(stream[k], shortlist[i])
    {
      assert stream[k] in Members(stream) && shortlist[i] in Members(shortlist);
      assert stream[k] !in Members(shortlist);
    }
  }

  /** The k greatest are determined: any two selections agree, so the shortlist is what sorting the
      whole stream and keeping k would give. */
  lemma GreatestAreUnique<T(!new)>(a: set<Item<T>>, b: set<Item<T>>, all: set<Item<T>>, k: nat)
    requires AreGreatest(a, all, k) && AreGreatest(b, all, k)
    ensures a == b
  {
    var onlyA, onlyB := a - b, b - a;
    assert a == onlyA + (a * b) && b == onlyB + (a * b);
    assert |onlyA| == |onlyB|;
    if onlyA != {} {
      var x := Sets.Member(onlyA);
      var y := Sets.Member(onlyB);
      assert false;
    }
    Sets.SubsetOfSameSize(a, b);
  }
}
