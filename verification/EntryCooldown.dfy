/** The entry cooldown: greedy acceptance of candidate bars, and why greedy is the best possible. */
module EntryCooldown {
  import Sets
  import opened Options


  /** Far enough from the last accepted entry. */
  predicate Free(last: Option<nat>, i: nat, cooldown: nat) {
    last.None? || i - last.value > cooldown
  }

  /** The last bar before n that was accepted. */
  function LastAccepted(candidates: seq<bool>, cooldown: nat, n: nat): (last: Option<nat>)
    requires n <= |candidates|
    ensures last.Some? ==> last.value < n
  {
    if n == 0 then None
    else
      var before := LastAccepted(candidates, cooldown, n - 1);
      if candidates[n - 1] && Free(before, n - 1, cooldown) then Some(n - 1) else before
  }

  predicate Accepted(candidates: seq<bool>, cooldown: nat, i: nat)
    requires i < |candidates|
  {
    candidates[i] && Free(LastAccepted(candidates, cooldown, i), i, cooldown)
  }

  function AcceptedBefore(candidates: seq<bool>, cooldown: nat, n: nat): set<nat>
    requires n <= |candidates|
  {
    set i: nat | i < n && Accepted(candidates, cooldown, i)
  }

  /** Bars pairwise more than the cooldown apart. */
  ghost predicate Spaced(bars: set<nat>, cooldown: nat) {
    forall i, j :: i in bars && j in bars && i < j ==> j - i > cooldown
  }

  ghost predicate AllCandidates(bars: set<nat>, candidates: seq<bool>, n: nat)
    requires n <= |candidates|
  {
    forall i :: i in bars ==> i < n && candidates[i]
  }

  lemma {:induction false} LastIsLast(candidates: seq<bool>, cooldown: nat, n: nat)
    requires n <= |candidates|
    ensures var last := LastAccepted(candidates, cooldown, n);
            && (last.Some? ==> Accepted(candidates, cooldown, last.value))
            && (forall i :: (if last.Some? then last.value + 1 else 0) <= i < n ==> !Accepted(candidates, cooldown, i))
  {
    if n > 0 {
      LastIsLast(candidates, cooldown, n - 1);
    }
  }

  /** Accepted entries are more than the cooldown apart. */
  lemma AcceptedAreSpaced(candidates: seq<bool>, cooldown: nat)
    ensures Spaced(AcceptedBefore(candidates, cooldown, |candidates|), cooldown)
  {
    forall i: nat, j: nat | i < j < |candidates| && Accepted(candidates, cooldown, i)
        && Accepted(candidates, cooldown, j)
      ensures j - i > cooldown
    {
      LastIsLast(candidates, cooldown, j);
    }
  }

  /** A candidate is turned away exactly when an accepted entry lies at most the cooldown before it. */
  lemma RejectedOnlyWhenClose(candidates: seq<bool>, cooldown: nat, i: nat)
    requires i < |candidates| && candidates[i]
    ensures !Accepted(candidates, cooldown, i) <==>
            exists a :: 0 <= a < i && Accepted(candidates, cooldown, a) && i - a <= cooldown
  {
    LastIsLast(candidates, cooldown, i);
  }

  lemma AcceptedUpToLast(candidates: seq<bool>, cooldown: nat, n: nat)
    requires n <= |candidates|
    ensures var last := LastAccepted(candidates, cooldown, n);
            AcceptedBefore(candidates, cooldown, n) ==
            if last.None? then {} else AcceptedBefore(candidates, cooldown, last.value) + {last.value}
  {
    LastIsLast(candidates, cooldown, n);
  }

  /** Optimality: no set of candidate bars with the required spacing is larger than the accepted one. */
  lemma {:induction false} GreedyIsLargest(candidates: seq<bool>, cooldown: nat, n: nat, chosen: set<nat>)
    requires n <= |candidates| && AllCandidates(chosen, candidates, n) && Spaced(chosen, cooldown)
    ensures |chosen| <= |AcceptedBefore(candidates, cooldown, n)|
  {
    if n == 0 {
      assert forall i :: i !in chosen;
      assert chosen == {};
    } else {
      var i := n - 1;
      var accepted := AcceptedBefore(candidates, cooldown, n);
      if i !in chosen {
        GreedyIsLargest(candidates, cooldown, i, chosen);
        Sets.SubsetIsSmaller(AcceptedBefore(candidates, cooldown, i), accepted);
      } else {
        // Either i was accepted, or the accepted entry that displaced it stands in for it.
        LastIsLast(candidates, cooldown, n);
        AcceptedUpToLast(candidates, cooldown, n);
        var last := LastAccepted(candidates, cooldown, n).value;
        var rest := chosen - {i};
        assert AllCandidates(rest, candidates, last);
        GreedyIsLargest(candidates, cooldown, last, rest);
        assert last !in AcceptedBefore(candidates, cooldown, last);
        assert |chosen| == |rest| + 1;
      }
    }
  }

  lemma {:induction false} PrefixSameLast(candidates: seq<bool>, more: seq<bool>, cooldown: nat, n: nat)
    requires candidates <= more && n <= |candidates|
    ensures LastAccepted(more, cooldown, n) == LastAccepted(candidates, cooldown, n)
  {
    if n > 0 {
      PrefixSameLast(candidates, more, cooldown, n - 1);
    }
  }

  /** Either side's start signal. */
  function Candidates(long: seq<bool>, short: seq<bool>): (c: seq<bool>)
    requires |long| == |short|
    ensures |c| == |long| && forall i :: 0 <= i < |c| ==> c[i] == (long[i] || short[i])
  {
    seq(|long|, i requires 0 <= i < |long| => long[i] || short[i])
  }

  function Cooldown(bars: int): nat {
    if bars > 0 then bars else 0
  }

  /** `_apply_entry_cooldown`. */
  method ApplyEntryCooldown(long: seq<bool>, short: seq<bool>, cooldownBars: int)
    returns (acceptedLong: seq<bool>, acceptedShort: seq<bool>, allowed: seq<bool>)
    requires |long| == |short|
    ensures |acceptedLong| == |acceptedShort| == |allowed| == |long|
    ensures var c := Candidates(long, short);
            forall i :: 0 <= i < |long| ==>
              && acceptedLong[i] == (long[i] && Accepted(c, Cooldown(cooldownBars), i))
              && acceptedShort[i] == (short[i] && Accepted(c, Cooldown(cooldownBars), i))
              && allowed[i] == (c[i] ==> Accepted(c, Cooldown(cooldownBars), i))
  {
    var cooldown := Cooldown(cooldownBars);
    ghost var c := Candidates(long, short);
    if cooldown <= 0 {
      return long, short, seq(|long|, _ => true);
    }
    acceptedLong, acceptedShort, allowed := [], [], [];
    var last: Option<nat> := None;
    for i := 0 to |long|
      invariant |acceptedLong| == |acceptedShort| == |allowed| == i
      invariant last == LastAccepted(c, cooldown, i)
      invariant forall j :: 0 <= j < i ==>
                  && acceptedLong[j] == (long[j] && Accepted(c, cooldown, j))
                  && acceptedShort[j] == (short[j] && Accepted(c, cooldown, j))
                  && allowed[j] == (c[j] ==> Accepted(c, cooldown, j))
    {
      var candidate := long[i] || short[i];
      var free := last.None? || i - last.value > cooldown;
      var accept := candidate && free;
      acceptedLong := acceptedLong + [accept && long[i]];
      acceptedShort := acceptedShort + [accept && short[i]];
      allowed := allowed + [!candidate || free];
      if accept {
        last := Some(i);
      }
    }
  }
}
