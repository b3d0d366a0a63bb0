/** What several modules share. */
module Common {

  datatype Option<+T> = None | Some(value: T)

  lemma MulMonotone(n: nat, a: int, b: int)
    requires a <= b
    ensures n * a <= n * b
  {
  }

  lemma DivBounds(a: int, n: nat)
    requires n > 0
    ensures n * (a / n) <= a < n * (a / n) + n
  {
  }

  /** A 16-bit counter that wraps counts modulo 2^16. */
  lemma CounterStep(n: nat)
    ensures (n % 0x1_0000 + 1) % 0x1_0000 == (n + 1) % 0x1_0000
  {
  }

  // ------------------------------------------------------------------
  // Filtering, as a relation
  // ------------------------------------------------------------------

  /** at lists, in order, the positions of ys whose elements are kept. */
  ghost predicate Picks<T>(ys: seq<T>, keep: T -> bool, xs: seq<T>, at: seq<nat>) {
    && |at| == |xs|
    && (forall j :: 0 <= j < |at| ==> at[j] < |ys| && xs[j] == ys[at[j]])
    && (forall i, j :: 0 <= i < j < |at| ==> at[i] < at[j])
    && (forall i: nat :: i < |ys| ==> (keep(ys[i]) <==> i in at))
  }

  /** xs is what ys holds of a kind: in its order and as often. */
  ghost predicate Filtered<T(!new)>(ys: seq<T>, keep: T -> bool, xs: seq<T>) {
    exists at :: Picks(ys, keep, xs, at)
  }

  function Kept<T>(ys: seq<T>, keep: T -> bool): seq<T> {
    if ys == [] then []
    else Kept(ys[..|ys| - 1], keep) + (if keep(ys[|ys| - 1]) then [ys[|ys| - 1]] else [])
  }

  lemma PicksSnoc<T>(ys: seq<T>, y: T, keep: T -> bool, xs: seq<T>, at: seq<nat>)
    requires Picks(ys, keep, xs, at)
    ensures Picks(ys + [y], keep, xs + (if keep(y) then [y] else []), at + (if keep(y) then [|ys|] else []))
  {
    var zs, at' := ys + [y], at + (if keep(y) then [|ys|] else []);
    forall i: nat | i < |zs| ensures keep(zs[i]) <==> i in at' {
      if i < |ys| {
        assert zs[i] == ys[i];
        assert i in at' <==> i in at;
      }
    }
  }

  lemma {:induction false} KeptPicks<T>(ys: seq<T>, keep: T -> bool) returns (at: seq<nat>)
    ensures Picks(ys, keep, Kept(ys, keep), at)
  {
    if ys == [] {
      at := [];
    } else {
      hide Picks;
      var n := |ys| - 1;
      at := KeptPicks(ys[..n], keep);
      PicksSnoc(ys[..n], ys[n], keep, Kept(ys[..n], keep), at);
      assert ys[..n] + [ys[n]] == ys;
      at := at + (if keep(ys[n]) then [n] else []);
    }
  }

  lemma PicksFront<T>(ys: seq<T>, keep: T -> bool, xs: seq<T>, at: seq<nat>)
    requires ys != [] && Picks(ys, keep, xs, at)
    ensures var n := |ys| - 1;
      if keep(ys[n]) then xs != [] && xs[|xs| - 1] == ys[n] && Picks(ys[..n], keep, xs[..|xs| - 1], at[..|at| - 1])
      else Picks(ys[..n], keep, xs, at)
  {
    var n := |ys| - 1;
    if keep(ys[n]) {
      LastPicked(ys, keep, xs, at);
      var m := |at| - 1;
      forall i: nat | i < n ensures keep(ys[..n][i]) <==> i in at[..m] {
        assert at == at[..m] + [n];
      }
    } else {
      assert n !in at;
      forall j | 0 <= j < |at| ensures at[j] < n {
        assert at[j] in at;
      }
    }
  }

  lemma LastPicked<T>(ys: seq<T>, keep: T -> bool, xs: seq<T>, at: seq<nat>)
    requires ys != [] && Picks(ys, keep, xs, at) && keep(ys[|ys| - 1])
    ensures at != [] && at[|at| - 1] == |ys| - 1
  {
    assert |ys| - 1 in at;
    var j :| 0 <= j < |at| && at[j] == |ys| - 1;
    NoLater(at, j, |at| - 1);
    assert at[|at| - 1] < |ys|;
  }

  lemma NoLater(at: seq<nat>, j: nat, k: nat)
    requires j <= k < |at| && forall i, j :: 0 <= i < j < |at| ==> at[i] < at[j]
    ensures at[j] <= at[k]
  {
  }

  lemma {:induction false} PicksKept<T>(ys: seq<T>, keep: T -> bool, xs: seq<T>, at: seq<nat>)
    requires Picks(ys, keep, xs, at)
    ensures xs == Kept(ys, keep)
  {
    if ys != [] {
      var n := |ys| - 1;
      PicksFront(ys, keep, xs, at);
      assert |xs| == |at|;
      hide Picks;
      if keep(ys[n]) {
        PicksKept(ys[..n], keep, xs[..|xs| - 1], at[..|at| - 1]);
        assert xs == xs[..|xs| - 1] + [ys[n]];
      } else {
        PicksKept(ys[..n], keep, xs, at);
      }
    }
  }

  lemma FilteredIff<T(!new)>(ys: seq<T>, keep: T -> bool, xs: seq<T>)
    ensures Filtered(ys, keep, xs) <==> xs == Kept(ys, keep)
  {
    hide Picks;
    if at :| Picks(ys, keep, xs, at) {
      PicksKept(ys, keep, xs, at);
    }
    var at := KeptPicks(ys, keep);
  }

  /** Filtering from the front. */
  lemma {:induction false} KeptCons<T>(y: T, ys: seq<T>, keep: T -> bool)
    ensures Kept([y] + ys, keep) == (if keep(y) then [y] else []) + Kept(ys, keep)
  {
    if ys == [] {
      assert [y] + ys == [y] && [y][..0] == [];
    } else {
      var n := |ys| - 1;
      assert ([y] + ys)[..n + 1] == [y] + ys[..n] && ([y] + ys)[n + 1] == ys[n];
      KeptCons(y, ys[..n], keep);
    }
  }
}
