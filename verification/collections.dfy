/**
 * The two dictionary helpers: `flatten_dicts`, which merges a dictionary of
 * dictionaries into one, and `get_len_key`, which lists each key with the
 * length of its value, ordered by that length. A Python dictionary whose
 * order matters is modelled as the sequence of its items in insertion order.
 */
module Collections {

  // ---------------------------------------------------------------------------
  // flatten_dicts
  // ---------------------------------------------------------------------------

  /** The merge of `dicts` in order: a key takes its value from the last dictionary that has it. */
  function Flatten<K, V>(dicts: seq<map<K, V>>): map<K, V>
  {
    if dicts == [] then map[] else Flatten(dicts[..|dicts| - 1]) + dicts[|dicts| - 1]
  }

  /** Some dictionary of `dicts` has key `k`. */
  predicate InSome<K, V>(dicts: seq<map<K, V>>, k: K)
  {
    exists i :: 0 <= i < |dicts| && k in dicts[i]
  }

  /** A key is in the merge exactly when some dictionary has it. */
  lemma {:induction false} FlattenKeys<K, V>(dicts: seq<map<K, V>>)
    ensures forall k :: k in Flatten(dicts) <==> InSome(dicts, k)
  {
    if dicts != [] {
      var init := dicts[..|dicts| - 1];
      FlattenKeys(init);
      forall k | k in Flatten(dicts)
        ensures InSome(dicts, k)
      {
        if k !in dicts[|dicts| - 1] {
          assert InSome(init, k);
          var i :| 0 <= i < |init| && k in init[i];
          assert dicts[i] == init[i];
        } else {
          assert 0 <= |dicts| - 1 < |dicts| && k in dicts[|dicts| - 1];
        }
      }
      forall k | InSome(dicts, k)
        ensures k in Flatten(dicts)
      {
        var i :| 0 <= i < |dicts| && k in dicts[i];
        if i < |init| {
          assert init[i] == dicts[i];
        }
      }
    }
  }

  /** Last wins: a key that no later dictionary has keeps the value dictionary `i` gives it. */
  lemma {:induction false} FlattenLastWins<K, V>(dicts: seq<map<K, V>>, i: int, k: K)
    requires 0 <= i < |dicts| && k in dicts[i]
    requires forall j :: i < j < |dicts| ==> k !in dicts[j]
    ensures k in Flatten(dicts) && Flatten(dicts)[k] == dicts[i][k]
  {
    var init := dicts[..|dicts| - 1];
    if i < |init| {
      assert init[i] == dicts[i];
      forall j | i < j < |init|
        ensures k !in init[j]
      {
        assert init[j] == dicts[j];
      }
      FlattenLastWins(init, i, k);
    }
  }

  /** Without key conflicts, which is what the merge assumes, every dictionary's entries survive intact. */
  lemma FlattenDisjoint<K, V>(dicts: seq<map<K, V>>, i: int, k: K)
    requires forall a, b :: 0 <= a < b < |dicts| ==> dicts[a].Keys !! dicts[b].Keys
    requires 0 <= i < |dicts| && k in dicts[i]
    ensures k in Flatten(dicts) && Flatten(dicts)[k] == dicts[i][k]
  {
    forall j | i < j < |dicts|
      ensures k !in dicts[j]
    {
      assert dicts[i].Keys !! dicts[j].Keys;
    }
    FlattenLastWins(dicts, i, k);
  }

  /** `flatten_dicts`: every entry of every dictionary, in order, assigned into one result. */
  method FlattenDicts<K, V>(dicts: seq<map<K, V>>) returns (out: map<K, V>)
    ensures out == Flatten(dicts)
  {
    out := map[];
    for i := 0 to |dicts|
      invariant out == Flatten(dicts[..i])
    {
      assert dicts[..i + 1][..i] == dicts[..i];
      out := AssignAll(out, dicts[i]);
    }
    assert dicts[..|dicts|] == dicts;
  }

  /** The inner loop of `flatten_dicts`: each item of `adict` assigned into `out`, in whatever order the keys come. */
  method AssignAll<K, V>(out: map<K, V>, adict: map<K, V>) returns (r: map<K, V>)
    ensures r == out + adict
  {
    r := out;
    var todo := adict.Keys;
    while todo != {}
      invariant todo <= adict.Keys
      invariant r.Keys == out.Keys + (adict.Keys - todo)
      invariant forall k :: k in r ==> r[k] == if k in adict && k !in todo then adict[k] else out[k]
      decreases todo
    {
      var key :| key in todo;
      r := r[key := adict[key]];
      todo := todo - {key};
    }
  }

  // ---------------------------------------------------------------------------
  // get_len_key
  // ---------------------------------------------------------------------------

  /** A key with the length of its value, as `get_len_key` lists it. */
  type Count<K> = (K, nat)

  /** The position of an entry in the order `sorted` uses: by length, or by minus the length when `reverse`. */
  function Rank<K>(e: Count<K>, reverse: bool): int
  {
    if reverse then -(e.1 as int) else e.1 as int
  }

  /** Ordered by rank, smallest first (so longest first when `reverse`): each entry ranks no higher than the next. */
  predicate Sorted<K>(s: seq<Count<K>>, reverse: bool)
  {
    |s| <= 1 || (Rank(s[0], reverse) <= Rank(s[1], reverse) && Sorted(s[1..], reverse))
  }

  /** A sorted sequence is ordered between any two positions, not just neighbouring ones. */
  lemma {:induction false} SortedPairwise<K>(s: seq<Count<K>>, reverse: bool)
    requires Sorted(s, reverse)
    ensures forall i, j :: 0 <= i < j < |s| ==> Rank(s[i], reverse) <= Rank(s[j], reverse)
  {
    if |s| > 1 {
      SortedPairwise(s[1..], reverse);
      forall i, j | 0 <= i < j < |s|
        ensures Rank(s[i], reverse) <= Rank(s[j], reverse)
      {
        if i > 0 {
          assert s[i] == s[1..][i - 1] && s[j] == s[1..][j - 1];
        } else if j > 1 {
          assert s[1] == s[1..][0] && s[j] == s[1..][j - 1];
        }
      }
    }
  }

  /** The entries of `s` of rank `n`, in the order they appear. */
  function OfRank<K>(s: seq<Count<K>>, reverse: bool, n: int): seq<Count<K>>
  {
    if s == [] then [] else IfRank(s[0], reverse, n) + OfRank(s[1..], reverse, n)
  }

  /** `[e]` when `e` has rank `n`, else nothing. */
  function IfRank<K>(e: Count<K>, reverse: bool, n: int): seq<Count<K>>
  {
    if Rank(e, reverse) == n then [e] else []
  }

  lemma {:induction false} OfRankAppend<K>(a: seq<Count<K>>, b: seq<Count<K>>, reverse: bool, n: int)
    ensures OfRank(a + b, reverse, n) == OfRank(a, reverse, n) + OfRank(b, reverse, n)
  {
    if a == [] {
      assert a + b == b;
    } else {
      assert (a + b)[1..] == a[1..] + b;
      OfRankAppend(a[1..], b, reverse, n);
    }
  }

  /** A sorted sequence whose first entry ranks above `n` has no entry of rank `n`. */
  lemma {:induction false} OfRankAbove<K>(s: seq<Count<K>>, reverse: bool, n: int)
    requires Sorted(s, reverse) && s != [] && Rank(s[0], reverse) > n
    ensures OfRank(s, reverse, n) == []
  {
    if |s| > 1 {
      OfRankAbove(s[1..], reverse, n);
    }
  }

  /**
   * `x` placed into `t` after every leading entry that does not rank above
   * it: the step that keeps the sort stable.
   */
  function Insert<K>(x: Count<K>, t: seq<Count<K>>, reverse: bool): (r: seq<Count<K>>)
    ensures |r| == |t| + 1
    ensures r[0] == x || (t != [] && r[0] == t[0])
  {
    if t == [] then [x]
    else if Rank(x, reverse) < Rank(t[0], reverse) then [x] + t
    else [t[0]] + Insert(x, t[1..], reverse)
  }

  /** Inserting adds exactly `x`: the result is a permutation of `t` with `x`. */
  lemma {:induction false} InsertPermutes<K>(x: Count<K>, t: seq<Count<K>>, reverse: bool)
    ensures multiset(Insert(x, t, reverse)) == multiset(t) + multiset{x}
  {
    if t != [] && Rank(x, reverse) >= Rank(t[0], reverse) {
      InsertPermutes(x, t[1..], reverse);
      assert t == [t[0]] + t[1..];
    }
  }

  /** Inserting into a sorted sequence keeps it sorted. */
  lemma {:induction false} InsertSorted<K>(x: Count<K>, t: seq<Count<K>>, reverse: bool)
    requires Sorted(t, reverse)
    ensures Sorted(Insert(x, t, reverse), reverse)
  {
    if t != [] && Rank(x, reverse) >= Rank(t[0], reverse) {
      var rest := Insert(x, t[1..], reverse);
      InsertSorted(x, t[1..], reverse);
      assert ([t[0]] + rest)[1..] == rest;
    } else if t != [] {
      assert ([x] + t)[1..] == t;
    }
  }

  /** Inserting `x` into a sorted sequence puts it after the entries of its own rank. */
  lemma {:induction false} InsertOfRank<K>(x: Count<K>, t: seq<Count<K>>, reverse: bool, n: int)
    requires Sorted(t, reverse)
    ensures OfRank(Insert(x, t, reverse), reverse, n) == OfRank(t, reverse, n) + IfRank(x, reverse, n)
    decreases |t|, 1
  {
    if t == [] {
      assert OfRank([x], reverse, n) == IfRank(x, reverse, n) + OfRank([], reverse, n);
    } else if Rank(x, reverse) < Rank(t[0], reverse) {
      InsertFrontOfRank(x, t, reverse, n);
    } else {
      InsertLaterOfRank(x, t, reverse, n);
    }
  }

  /** `x` ranks below the head: it goes first, and no entry of its rank follows it. */
  lemma InsertFrontOfRank<K>(x: Count<K>, t: seq<Count<K>>, reverse: bool, n: int)
    requires Sorted(t, reverse) && t != [] && Rank(x, reverse) < Rank(t[0], reverse)
    ensures OfRank(Insert(x, t, reverse), reverse, n) == OfRank(t, reverse, n) + IfRank(x, reverse, n)
  {
    assert ([x] + t)[1..] == t;
    if Rank(x, reverse) == n {
      OfRankAbove(t, reverse, n);
    }
  }

  /** `x` does not rank below the head: the head stays first and `x` goes into the tail. */
  lemma {:induction false} InsertLaterOfRank<K>(x: Count<K>, t: seq<Count<K>>, reverse: bool, n: int)
    requires Sorted(t, reverse) && t != [] && Rank(x, reverse) >= Rank(t[0], reverse)
    ensures OfRank(Insert(x, t, reverse), reverse, n) == OfRank(t, reverse, n) + IfRank(x, reverse, n)
    decreases |t|, 0
  {
    var rest := Insert(x, t[1..], reverse);
    calc {
      OfRank(Insert(x, t, reverse), reverse, n);
      OfRank([t[0]] + rest, reverse, n);
      { assert ([t[0]] + rest)[1..] == rest; }
      IfRank(t[0], reverse, n) + OfRank(rest, reverse, n);
      { InsertOfRank(x, t[1..], reverse, n); }
      IfRank(t[0], reverse, n) + (OfRank(t[1..], reverse, n) + IfRank(x, reverse, n));
      OfRank(t, reverse, n) + IfRank(x, reverse, n);
    }
  }

  /**
   * Python's `sorted` on the rank: the entries in rank order, entries of
   * equal rank in their original order (which `reverse` does not change).
   */
  function SortByRank<K>(s: seq<Count<K>>, reverse: bool): seq<Count<K>>
  {
    if s == [] then [] else Insert(s[|s| - 1], SortByRank(s[..|s| - 1], reverse), reverse)
  }

  /** The sort orders its input by rank. */
  lemma {:induction false} SortSorts<K>(s: seq<Count<K>>, reverse: bool)
    ensures Sorted(SortByRank(s, reverse), reverse)
  {
    if s != [] {
      SortSorts(s[..|s| - 1], reverse);
      InsertSorted(s[|s| - 1], SortByRank(s[..|s| - 1], reverse), reverse);
    }
  }

  /** The sort loses and adds nothing: its result is a permutation of its input. */
  lemma {:induction false} SortPermutes<K>(s: seq<Count<K>>, reverse: bool)
    ensures multiset(SortByRank(s, reverse)) == multiset(s)
  {
    if s != [] {
      var init := s[..|s| - 1];
      SortPermutes(init, reverse);
      InsertPermutes(s[|s| - 1], SortByRank(init, reverse), reverse);
      assert s == init + [s[|s| - 1]];
    }
  }

  /** The sort is stable: for every rank, the entries of that rank keep their input order. */
  lemma {:induction false} SortStable<K>(s: seq<Count<K>>, reverse: bool, n: int)
    ensures OfRank(SortByRank(s, reverse), reverse, n) == OfRank(s, reverse, n)
  {
    if s != [] {
      var init := s[..|s| - 1];
      var x := s[|s| - 1];
      var sorted := SortByRank(init, reverse);
      assert SortByRank(s, reverse) == Insert(x, sorted, reverse);
      SortStable(init, reverse, n);
      SortSorts(init, reverse);
      assert s == init + [x];
      StableStep(init, x, sorted, reverse, n);
    }
  }

  /** One step of the sort: inserting the next input entry keeps each rank's entries in input order. */
  lemma StableStep<K>(init: seq<Count<K>>, x: Count<K>, sorted: seq<Count<K>>, reverse: bool, n: int)
    requires Sorted(sorted, reverse)
    requires OfRank(sorted, reverse, n) == OfRank(init, reverse, n)
    ensures OfRank(Insert(x, sorted, reverse), reverse, n) == OfRank(init + [x], reverse, n)
  {
    InsertOfRank(x, sorted, reverse, n);
    OfRankAppend(init, [x], reverse, n);
    assert OfRank([x], reverse, n) == IfRank(x, reverse, n) + OfRank([], reverse, n);
  }

  /** Each key of the dictionary with the length of its value, in the dictionary's order. */
  function Lengths<K, T>(adict: seq<(K, seq<T>)>): (r: seq<Count<K>>)
    ensures |r| == |adict|
    ensures forall i :: 0 <= i < |adict| ==> r[i] == (adict[i].0, |adict[i].1|)
  {
    if adict == [] then [] else [(adict[0].0, |adict[0].1|)] + Lengths(adict[1..])
  }

  /**
   * `get_len_key`: each key with the length of its value, ordered by length,
   * longest first when `reverse` (the default), keys of equal length in the
   * dictionary's order.
   */
  function GetLenKey<K, T>(adict: seq<(K, seq<T>)>, reverse: bool): (r: seq<Count<K>>)
    ensures |r| == |adict|
    ensures multiset(r) == multiset(Lengths(adict))
    ensures reverse ==> forall i, j :: 0 <= i < j < |r| ==> r[i].1 >= r[j].1
    ensures !reverse ==> forall i, j :: 0 <= i < j < |r| ==> r[i].1 <= r[j].1
  {
    var r := SortByRank(Lengths(adict), reverse);
    SortSorts(Lengths(adict), reverse);
    SortPermutes(Lengths(adict), reverse);
    assert |r| == |multiset(r)|;
    SortedPairwise(r, reverse);
    r
  }

  /** Keys whose values have the same length keep the order they have in the dictionary. */
  lemma GetLenKeyStable<K, T>(adict: seq<(K, seq<T>)>, reverse: bool, n: int)
    ensures OfRank(GetLenKey(adict, reverse), reverse, n) == OfRank(Lengths(adict), reverse, n)
  {
    SortStable(Lengths(adict), reverse, n);
  }
}
