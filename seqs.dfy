/** Order-preserving selection from a sequence: the meaning of Rust's
    `Vec::retain` and of a loop that pushes only the items it accepts. */
module Seqs {

  /** The elements of `s` that satisfy `keep`, in their original order. */
  function Retained<T>(s: seq<T>, keep: T -> bool): (r: seq<T>)
    ensures |r| <= |s|
    ensures forall x :: x in r ==> x in s && keep(x)
  {
    if s == [] then []
    else
      var last := s[|s| - 1];
      assert forall x :: x in s[..|s| - 1] ==> x in s;
      Retained(s[..|s| - 1], keep) + (if keep(last) then [last] else [])
  }

  /** Retaining over a sequence extended by one element. */
  lemma RetainedSnoc<T>(s: seq<T>, x: T, keep: T -> bool)
    ensures Retained(s + [x], keep) == Retained(s, keep) + (if keep(x) then [x] else [])
  {
  }

  /** The indices of the elements of `s` that satisfy `keep`, ascending:
      an index appears exactly when its element is kept. */
  function Positions<T>(s: seq<T>, keep: T -> bool): (p: seq<nat>)
    ensures forall j :: 0 <= j < |p| ==> p[j] < |s| && keep(s[p[j]])
    ensures forall j, j' :: 0 <= j < j' < |p| ==> p[j] < p[j']
    ensures forall i :: 0 <= i < |s| && keep(s[i]) ==> i in p
  {
    if s == [] then []
    else
      var n := |s| - 1;
      var front := Positions(s[..n], keep);
      assert forall j :: 0 <= j < |front| ==> s[front[j]] == s[..n][front[j]];
      assert forall i :: 0 <= i < n ==> s[i] == s[..n][i];
      front + (if keep(s[n]) then [n] else [])
  }

  /** `Retained` is the subsequence of `s` picked out by `Positions`. */
  lemma {:induction false} RetainedAtPositions<T>(s: seq<T>, keep: T -> bool)
    ensures |Retained(s, keep)| == |Positions(s, keep)|
    ensures forall j :: 0 <= j < |Positions(s, keep)| ==>
              Retained(s, keep)[j] == s[Positions(s, keep)[j]]
  {
    if s != [] {
      var n := |s| - 1;
      RetainedAtPositions(s[..n], keep);
      var r, p := Retained(s[..n], keep), Positions(s[..n], keep);
      forall j | 0 <= j < |p|
        ensures Retained(s, keep)[j] == s[Positions(s, keep)[j]]
      {
        assert Retained(s, keep)[j] == r[j];
        assert Positions(s, keep)[j] == p[j];
        assert s[..n][p[j]] == s[p[j]];
      }
    }
  }

  /** Filtering twice with the same test is filtering once. */
  lemma {:induction false} RetainedIdempotent<T>(s: seq<T>, keep: T -> bool)
    ensures Retained(Retained(s, keep), keep) == Retained(s, keep)
  {
    if s != [] {
      var n := |s| - 1;
      var r := Retained(s[..n], keep);
      RetainedIdempotent(s[..n], keep);
      if keep(s[n]) {
        var r' := r + [s[n]];
        assert Retained(s, keep) == r';
        assert r'[..|r|] == r;
        assert Retained(r', keep) == Retained(r, keep) + [s[n]];
      } else {
        assert Retained(s, keep) == r;
      }
    }
  }

  /** A test that accepts everything keeps the whole sequence. */
  lemma {:induction false} RetainedAll<T>(s: seq<T>, keep: T -> bool)
    requires forall x :: x in s ==> keep(x)
    ensures Retained(s, keep) == s
  {
    if s != [] {
      var n := |s| - 1;
      assert s == s[..n] + [s[n]];
      assert forall x :: x in s[..n] ==> x in s;
      RetainedAll(s[..n], keep);
      RetainedSnoc(s[..n], s[n], keep);
    }
  }

  /** A test that accepts nothing leaves nothing. */
  lemma {:induction false} RetainedNone<T>(s: seq<T>, keep: T -> bool)
    requires forall x :: x in s ==> !keep(x)
    ensures Retained(s, keep) == []
  {
    if s != [] {
      var n := |s| - 1;
      assert s == s[..n] + [s[n]];
      assert forall x :: x in s[..n] ==> x in s;
      RetainedNone(s[..n], keep);
      RetainedSnoc(s[..n], s[n], keep);
    }
  }
}
