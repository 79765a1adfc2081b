/**
 Truncation selection. The pool is sorted by evaluation with a stable sort
 (equal evaluations keep their pool order) and its first `mu` members
 survive. The sort is modelled on pool positions: position `i` ranks ahead
 of position `j` when its evaluation is smaller, or equal and `i < j`.
 */
module Selection {
  import opened Individuals

  function Min(a: nat, b: nat): nat
  {
    if a <= b then a else b
  }

  function Keys(pool: seq<Individual>): (keys: seq<real>)
    ensures |keys| == |pool|
    ensures forall i :: 0 <= i < |pool| ==> keys[i] == pool[i].eval
  {
    seq(|pool|, i requires 0 <= i < |pool| => pool[i].eval)
  }

  /** Position `i` ranks strictly ahead of position `j` in a stable ascending sort. */
  predicate Ahead(keys: seq<real>, i: nat, j: nat)
    requires i < |keys| && j < |keys|
  {
    keys[i] < keys[j] || (keys[i] == keys[j] && i < j)
  }

  predicate InRange(keys: seq<real>, s: seq<nat>)
  {
    forall k :: 0 <= k < |s| ==> s[k] < |keys|
  }

  /** Every position of `s` ranks ahead of every later one. */
  predicate Ranked(keys: seq<real>, s: seq<nat>)
    requires InRange(keys, s)
  {
    forall a, b :: 0 <= a < b < |s| ==> Ahead(keys, s[a], s[b])
  }

  function Insert(keys: seq<real>, x: nat, s: seq<nat>): (r: seq<nat>)
    requires x < |keys| && InRange(keys, s)
    ensures |r| == |s| + 1
    ensures multiset(r) == multiset(s) + multiset{x}
    ensures InRange(keys, r)
    decreases |s|
  {
    if |s| == 0 || Ahead(keys, x, s[0]) then [x] + s
    else
      assert s == [s[0]] + s[1..];
      [s[0]] + Insert(keys, x, s[1..])
  }

  lemma AheadTransitive(keys: seq<real>, i: nat, j: nat, k: nat)
    requires i < |keys| && j < |keys| && k < |keys|
    requires Ahead(keys, i, j) && Ahead(keys, j, k)
    ensures Ahead(keys, i, k)
  {
  }

  /** The members of an insertion result are the inserted position and the members of the list. */
  lemma InsertMembers(keys: seq<real>, x: nat, s: seq<nat>)
    requires x < |keys| && InRange(keys, s)
    ensures forall y :: y in Insert(keys, x, s) <==> y == x || y in s
  {
    var r := Insert(keys, x, s);
    forall y ensures y in r <==> y == x || y in s {
      assert y in r <==> y in multiset(r);
      assert y in s <==> y in multiset(s);
    }
  }

  /** The head of a ranked list ranks ahead of everything behind it. */
  lemma HeadAhead(keys: seq<real>, s: seq<nat>, y: nat)
    requires InRange(keys, s) && Ranked(keys, s) && |s| > 0 && y in s[1..]
    ensures Ahead(keys, s[0], y)
  {
    var c :| 0 <= c < |s[1..]| && s[1..][c] == y;
    assert s[c + 1] == y;
  }

  /** Inserting a new position into a ranked list keeps it ranked. */
  lemma {:induction false} InsertRanked(keys: seq<real>, x: nat, s: seq<nat>)
    requires x < |keys| && InRange(keys, s) && Ranked(keys, s) && x !in s
    ensures Ranked(keys, Insert(keys, x, s))
    decreases |s|
  {
    var r := Insert(keys, x, s);
    if |s| == 0 {
    } else if Ahead(keys, x, s[0]) {
      forall a, b | 0 <= a < b < |r| ensures Ahead(keys, r[a], r[b]) {
        if a == 0 && b > 1 {
          AheadTransitive(keys, x, s[0], s[b - 1]);
        }
      }
    } else {
      var tail := s[1..];
      assert Ranked(keys, tail) by {
        forall a, b | 0 <= a < b < |tail| ensures Ahead(keys, tail[a], tail[b]) {
          assert tail[a] == s[a + 1] && tail[b] == s[b + 1];
        }
      }
      InsertRanked(keys, x, tail);
      InsertMembers(keys, x, tail);
      var t := Insert(keys, x, tail);
      assert r == [s[0]] + t;
      forall a, b | 0 <= a < b < |r| ensures Ahead(keys, r[a], r[b]) {
        if a == 0 {
          var y := t[b - 1];
          assert y in t;
          if y != x {
            HeadAhead(keys, s, y);
          }
        } else {
          assert r[a] == t[a - 1] && r[b] == t[b - 1];
        }
      }
    }
  }

  /** The positions `0 .. k-1` of the pool, stably sorted. */
  function RankPrefix(keys: seq<real>, k: nat): (r: seq<nat>)
    requires k <= |keys|
    ensures |r| == k
    ensures InRange(keys, r) && Ranked(keys, r)
    ensures forall i :: 0 <= i < k <==> i in r
    decreases k
  {
    if k == 0 then []
    else
      var s := RankPrefix(keys, k - 1);
      InsertRanked(keys, k - 1, s);
      InsertMembers(keys, k - 1, s);
      Insert(keys, k - 1, s)
  }

  /**
   The surviving pool positions, best first: the first `mu` of the stable
   sort (or the whole pool when it is smaller).
   */
  function Survivors(keys: seq<real>, mu: nat): (r: seq<nat>)
    // exactly min(mu, pool size) distinct pool positions survive
    ensures |r| == Min(mu, |keys|)
    ensures InRange(keys, r)
    ensures forall a, b :: 0 <= a < b < |r| ==> r[a] != r[b]
    // in non-decreasing order of evaluation
    ensures forall a, b :: 0 <= a < b < |r| ==> keys[r[a]] <= keys[r[b]]
    // no survivor is worse than a discarded pool member
    ensures forall a, j :: 0 <= a < |r| && 0 <= j < |keys| && j !in r ==> keys[r[a]] <= keys[j]
    // ties keep pool order: of two equal pool members the earlier one survives first and ranks first
    ensures forall i, j :: 0 <= i < j < |keys| && keys[i] == keys[j] && j in r ==> i in r
    ensures forall a, b :: 0 <= a < |r| && 0 <= b < |r| && keys[r[a]] == keys[r[b]] && r[a] < r[b] ==> a < b
  {
    var full := RankPrefix(keys, |keys|);
    var m := Min(mu, |keys|);
    PrefixBeatsRest(keys, full, m);
    PrefixKeepsTies(keys, full, m);
    full[..m]
  }

  /** A prefix of the full ranking holds no member worse than one it leaves out. */
  lemma PrefixBeatsRest(keys: seq<real>, full: seq<nat>, m: nat)
    requires InRange(keys, full) && Ranked(keys, full) && m <= |full|
    requires forall i :: 0 <= i < |keys| <==> i in full
    ensures forall a, j :: 0 <= a < m && 0 <= j < |keys| && j !in full[..m] ==> keys[full[a]] <= keys[j]
  {
    forall a, j | 0 <= a < m && 0 <= j < |keys| && j !in full[..m]
      ensures keys[full[a]] <= keys[j]
    {
      assert j in full;
      var p :| 0 <= p < |full| && full[p] == j;
      assert Ahead(keys, full[a], full[p]);
    }
  }

  /** A prefix of the full ranking that holds a member holds every equal member earlier in the pool. */
  lemma PrefixKeepsTies(keys: seq<real>, full: seq<nat>, m: nat)
    requires InRange(keys, full) && Ranked(keys, full) && m <= |full|
    requires forall i :: 0 <= i < |keys| <==> i in full
    ensures forall i, j :: 0 <= i < j < |keys| && keys[i] == keys[j] && j in full[..m] ==> i in full[..m]
  {
    var r := full[..m];
    forall i, j | 0 <= i < j < |keys| && keys[i] == keys[j] && j in r
      ensures i in r
    {
      var q :| 0 <= q < |r| && r[q] == j;
      assert i in full;
      var p :| 0 <= p < |full| && full[p] == i;
      assert r[p] == i;
    }
  }

  /**
   The next parents: the pool members at the surviving positions, in
   ranking order.
   */
  function Select(pool: seq<Individual>, mu: nat): (next: seq<Individual>)
    ensures |next| == Min(mu, |pool|)
    ensures forall k :: 0 <= k < |next| ==> next[k] in pool
    ensures forall a, b :: 0 <= a < b < |next| ==> next[a].eval <= next[b].eval
    ensures var r := Survivors(Keys(pool), mu);
            forall k :: 0 <= k < |next| ==> next[k] == pool[r[k]]
  {
    var r := Survivors(Keys(pool), mu);
    var next := seq(|r|, k requires 0 <= k < |r| => pool[r[k]]);
    PickedInOrder(pool, r, next);
    next
  }

  /** The pool members at ranked positions are pool members, in order of evaluation. */
  lemma PickedInOrder(pool: seq<Individual>, r: seq<nat>, next: seq<Individual>)
    requires InRange(Keys(pool), r) && |next| == |r|
    requires forall a, b :: 0 <= a < b < |r| ==> Keys(pool)[r[a]] <= Keys(pool)[r[b]]
    requires forall k :: 0 <= k < |r| ==> next[k] == pool[r[k]]
    ensures forall k :: 0 <= k < |next| ==> next[k] in pool
    ensures forall a, b :: 0 <= a < b < |next| ==> next[a].eval <= next[b].eval
  {
    var keys := Keys(pool);
    forall a, b | 0 <= a < b < |next| ensures next[a].eval <= next[b].eval {
      assert keys[r[a]] <= keys[r[b]];
    }
  }

  /** Selecting from a fully evaluated pool yields fully evaluated parents. */
  lemma SelectEvaluated(pool: seq<Individual>, mu: nat)
    requires forall i :: 0 <= i < |pool| ==> pool[i].Evaluated()
    ensures forall k :: 0 <= k < |Select(pool, mu)| ==> Select(pool, mu)[k].Evaluated()
  {
  }
}
