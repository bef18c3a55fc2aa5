/** Strata, repositories and the bootstrap replicates drawn from them, over exact reals. */
module Bootstrap {
  import opened Options
  import opened Canonical
  import opened CanonicalProofs
  import opened Sampling

  datatype Pair = Pair(stratum: Text, repo: Text, control: bool, treatment: bool)

  function One(b: bool): int { if b then 1 else 0 }
  function Difference(p: Pair): int { One(p.treatment) - One(p.control) }

  function Sum(rows: seq<Pair>): int { if |rows| == 0 then 0 else Sum(rows[..|rows| - 1]) + Difference(rows[|rows| - 1]) }

  /** How many pairs went from `control` to `treatment` as given. */
  function Discordant(rows: seq<Pair>, control: bool, treatment: bool): nat {
    if |rows| == 0 then 0
    else
      var last := rows[|rows| - 1];
      Discordant(rows[..|rows| - 1], control, treatment) + One(last.control == control && last.treatment == treatment)
  }

  function Ratio(a: int, b: int): real
    requires b != 0
  {
    a as real / b as real
  }

  function Weigh(weight: real, x: real): real { weight * x }

  type Key = Pair -> Text

  function Select(rows: seq<Pair>, field: Key, key: Text): seq<Pair> {
    if |rows| == 0 then []
    else Select(rows[..|rows| - 1], field, key) + if field(rows[|rows| - 1]) == key then [rows[|rows| - 1]] else []
  }

  /** Adds a key to a sorted list without repeats. */
  function AddKey(keys: seq<Text>, key: Text): seq<Text> {
    if |keys| == 0 then [key]
    else if keys[0] == key then keys
    else if Less(key, keys[0]) then [key] + keys
    else [keys[0]] + AddKey(keys[1..], key)
  }

  /** The keys that occur, sorted, each once. */
  function KeysOf(rows: seq<Pair>, field: Key): seq<Text> {
    if |rows| == 0 then [] else AddKey(KeysOf(rows[..|rows| - 1], field), field(rows[|rows| - 1]))
  }

  datatype Stratum = Stratum(weight: real, repos: seq<seq<Pair>>, rows: seq<Pair>)

  function ByStratum(p: Pair): Text { p.stratum }
  function ByRepo(p: Pair): Text { p.repo }

  function ReposOf(rows: seq<Pair>): (repos: seq<seq<Pair>>)
    ensures |repos| == |KeysOf(rows, ByRepo)| && forall i :: 0 <= i < |repos| ==> repos[i] == Select(rows, ByRepo, KeysOf(rows, ByRepo)[i])
  {
    var keys := KeysOf(rows, ByRepo);
    seq(|keys|, i requires 0 <= i < |keys| => Select(rows, ByRepo, keys[i]))
  }

  function StratumOf(pairs: seq<Pair>, key: Text): Stratum
    requires |pairs| > 0
  {
    var rows := Select(pairs, ByStratum, key);
    Stratum(Ratio(|rows|, |pairs|), ReposOf(rows), rows)
  }

  function StrataOf(pairs: seq<Pair>): (strata: seq<Stratum>)
    requires |pairs| > 0
    ensures |strata| == |KeysOf(pairs, ByStratum)| && forall i :: 0 <= i < |strata| ==> strata[i] == StratumOf(pairs, KeysOf(pairs, ByStratum)[i])
  {
    var keys := KeysOf(pairs, ByStratum);
    seq(|keys|, i requires 0 <= i < |keys| => StratumOf(pairs, keys[i]))
  }

  // ---- keys ------------------------------------------------------------------------------------------------------------

  predicate Increasing(keys: seq<Text>) { forall i, j :: 0 <= i < j < |keys| ==> Less(keys[i], keys[j]) }

  lemma {:induction false} AddKeyKeeps(keys: seq<Text>, key: Text)
    requires Increasing(keys)
    ensures Increasing(AddKey(keys, key))
    ensures forall k :: k in AddKey(keys, key) <==> k in keys || k == key
  {
    if |keys| > 0 && keys[0] != key {
      LessOrder(key, keys[0]);
      if Less(key, keys[0]) {
        forall i | 0 <= i < |keys| ensures Less(key, keys[i]) { if i > 0 { LessTrans(key, keys[0], keys[i]); } }
      } else {
        AddKeyKeeps(keys[1..], key);
        var rest := AddKey(keys[1..], key);
        forall j | 0 <= j < |rest| ensures Less(keys[0], rest[j]) {
          assert rest[j] in rest;
          if rest[j] != key {
            var i :| 0 <= i < |keys| - 1 && keys[1..][i] == rest[j];
            assert Less(keys[0], keys[i + 1]);
          }
        }
        assert keys == [keys[0]] + keys[1..];
      }
    }
  }

  lemma {:induction false} KeysOk(rows: seq<Pair>, field: Key)
    ensures Increasing(KeysOf(rows, field))
    ensures forall k :: k in KeysOf(rows, field) <==> exists i :: 0 <= i < |rows| && field(rows[i]) == k
  {
    if |rows| > 0 {
      var init, last := rows[..|rows| - 1], rows[|rows| - 1];
      KeysOk(init, field);
      AddKeyKeeps(KeysOf(init, field), field(last));
      assert forall i :: 0 <= i < |init| ==> init[i] == rows[i];
    }
  }

  lemma {:induction false} SelectNonempty(rows: seq<Pair>, field: Key, i: nat)
    requires i < |rows|
    ensures |Select(rows, field, field(rows[i]))| > 0
  {
    if i < |rows| - 1 { SelectNonempty(rows[..|rows| - 1], field, i); }
  }

  // ---- a partition -------------------------------------------------------------------------------------------------------

  /** Over the first `n` keys: how many rows they select, and what those sum to. */
  function CountUnder(rows: seq<Pair>, field: Key, keys: seq<Text>, n: nat): nat
    requires n <= |keys|
  { if n == 0 then 0 else CountUnder(rows, field, keys, n - 1) + |Select(rows, field, keys[n - 1])| }

  function SumUnder(rows: seq<Pair>, field: Key, keys: seq<Text>, n: nat): int
    requires n <= |keys|
  { if n == 0 then 0 else SumUnder(rows, field, keys, n - 1) + Sum(Select(rows, field, keys[n - 1])) }

  predicate Among(keys: seq<Text>, n: nat, key: Text)
    requires n <= |keys|
  {
    exists i :: 0 <= i < n && keys[i] == key
  }

  lemma SelectAdds(rows: seq<Pair>, last: Pair, field: Key, key: Text)
    ensures |Select(rows + [last], field, key)| == |Select(rows, field, key)| + One(field(last) == key)
    ensures Sum(Select(rows + [last], field, key)) == Sum(Select(rows, field, key)) + if field(last) == key then Difference(last) else 0
  {
    assert (rows + [last])[..|rows|] == rows;
    var s := Select(rows, field, key);
    assert (s + [last])[..|s|] == s;
    assert s + [] == s;
  }

  lemma {:induction false} AddRow(rows: seq<Pair>, last: Pair, field: Key, keys: seq<Text>, n: nat)
    requires Increasing(keys) && n <= |keys|
    ensures CountUnder(rows + [last], field, keys, n) == CountUnder(rows, field, keys, n) + One(Among(keys, n, field(last)))
    ensures SumUnder(rows + [last], field, keys, n) ==
            SumUnder(rows, field, keys, n) + if Among(keys, n, field(last)) then Difference(last) else 0
  {
    if n > 0 {
      AddRow(rows, last, field, keys, n - 1);
      SelectAdds(rows, last, field, keys[n - 1]);
      hide Select, Sum;
      if keys[n - 1] == field(last) {
        forall i | 0 <= i < n - 1 ensures keys[i] != field(last) { LessOrder(keys[i], keys[n - 1]); }
        assert !Among(keys, n - 1, field(last)) && Among(keys, n, field(last));
      } else {
        assert Among(keys, n, field(last)) <==> Among(keys, n - 1, field(last));
      }
    }
  }

  lemma {:induction false} NoRows(field: Key, keys: seq<Text>, n: nat)
    requires n <= |keys|
    ensures CountUnder([], field, keys, n) == 0 && SumUnder([], field, keys, n) == 0
  { if n > 0 { NoRows(field, keys, n - 1); } }

  /** Sorted keys that cover the rows cut them into parts: every row is in exactly one. */
  lemma {:induction false} Partition(rows: seq<Pair>, field: Key, keys: seq<Text>)
    requires Increasing(keys) && forall i :: 0 <= i < |rows| ==> field(rows[i]) in keys
    ensures CountUnder(rows, field, keys, |keys|) == |rows| && SumUnder(rows, field, keys, |keys|) == Sum(rows)
  {
    if |rows| == 0 {
      NoRows(field, keys, |keys|);
      assert rows == [];
    } else {
      var init, last := rows[..|rows| - 1], rows[|rows| - 1];
      assert forall i :: 0 <= i < |init| ==> init[i] == rows[i];
      Partition(init, field, keys);
      AddRow(init, last, field, keys, |keys|);
      assert init + [last] == rows;
      assert field(last) in keys;
      assert Among(keys, |keys|, field(last));
    }
  }

  lemma {:induction false} SumIsNet(rows: seq<Pair>)
    ensures Sum(rows) == Discordant(rows, false, true) - Discordant(rows, true, false)
    ensures -|rows| <= Sum(rows) <= |rows|
  { if |rows| > 0 { SumIsNet(rows[..|rows| - 1]); } }

  // ---- weights and means -------------------------------------------------------------------------------------------------

  /** Of no rows there is no mean; `StrataOk` says that never happens to a stratum. */
  function Mean(rows: seq<Pair>): real { if |rows| == 0 then 0.0 else Ratio(Sum(rows), |rows|) }

  function Delta(pairs: seq<Pair>): real
    requires |pairs| > 0
  { Ratio(Discordant(pairs, false, true) - Discordant(pairs, true, false), |pairs|) }

  function TotalWeight(strata: seq<Stratum>, n: nat): real
    requires n <= |strata|
  { if n == 0 then 0.0 else TotalWeight(strata, n - 1) + strata[n - 1].weight }

  function TotalMean(strata: seq<Stratum>, n: nat): real
    requires n <= |strata|
  { if n == 0 then 0.0 else TotalMean(strata, n - 1) + Weigh(strata[n - 1].weight, Mean(strata[n - 1].rows)) }

  /** Every stratum has rows and a positive weight, and every repository listed has rows of it. */
  predicate StratumOk(s: Stratum) {
    && |s.rows| > 0 && s.weight > 0.0 && |s.repos| > 0
    && (forall i :: 0 <= i < |s.repos| ==> |s.repos[i]| > 0)
  }

  lemma KeyStratumOk(pairs: seq<Pair>, j: nat)
    requires j < |pairs|
    ensures StratumOk(StratumOf(pairs, ByStratum(pairs[j])))
  {
    var rows := Select(pairs, ByStratum, ByStratum(pairs[j]));
    SelectNonempty(pairs, ByStratum, j);
    hide Select, ReposOf, KeysOf;
    ReposNonempty(rows);
    assert Ratio(|rows|, |pairs|) > 0.0;
  }

  lemma StrataOk(pairs: seq<Pair>)
    requires |pairs| > 0
    ensures forall i :: 0 <= i < |StrataOf(pairs)| ==> StratumOk(StrataOf(pairs)[i])
  {
    hide Select, ReposOf, KeysOf, StratumOf, StratumOk;
    var keys := KeysOf(pairs, ByStratum);
    KeysOk(pairs, ByStratum);
    forall i | 0 <= i < |keys| ensures StratumOk(StratumOf(pairs, keys[i])) {
      assert keys[i] in keys;
      var j :| 0 <= j < |pairs| && ByStratum(pairs[j]) == keys[i];
      KeyStratumOk(pairs, j);
    }
  }

  lemma ReposNonempty(rows: seq<Pair>)
    requires |rows| > 0
    ensures |ReposOf(rows)| > 0 && forall i :: 0 <= i < |ReposOf(rows)| ==> |ReposOf(rows)[i]| > 0
  {
    var keys := KeysOf(rows, ByRepo);
    KeysOk(rows, ByRepo);
    assert ByRepo(rows[0]) in keys;
    forall i | 0 <= i < |keys| ensures |Select(rows, ByRepo, keys[i])| > 0 {
      assert keys[i] in keys;
      var j :| 0 <= j < |rows| && ByRepo(rows[j]) == keys[i];
      SelectNonempty(rows, ByRepo, j);
    }
  }

  lemma Fraction(a: int, b: int, n: int)
    requires n > 0 && b > 0
    ensures Weigh(Ratio(b, n), Ratio(a, b)) == Ratio(a, n)
  {
    var x, y := Ratio(b, n), Ratio(a, b);
    assert x * n as real == b as real && y * b as real == a as real;
    assert x * y * n as real == a as real by { assert x * y * n as real == (x * n as real) * y; }
  }

  /** One stratum's share of the total: its rows over all, and their sum over all. */
  lemma Share(pairs: seq<Pair>, i: nat)
    requires |pairs| > 0 && i < |KeysOf(pairs, ByStratum)|
    ensures var s, rows := StrataOf(pairs)[i], Select(pairs, ByStratum, KeysOf(pairs, ByStratum)[i]);
      s.weight == Ratio(|rows|, |pairs|) && Weigh(s.weight, Mean(s.rows)) == Ratio(Sum(rows), |pairs|)
  {
    var rows := Select(pairs, ByStratum, KeysOf(pairs, ByStratum)[i]);
    assert |rows| > 0 by {
      StrataOk(pairs);
      assert StratumOk(StrataOf(pairs)[i]);
      hide Select, KeysOf, Sum, Ratio;
    }
    Fraction(Sum(rows), |rows|, |pairs|);
    hide Select, KeysOf, Sum, ReposOf, Ratio, Weigh;
  }

  lemma AddFractions(a: int, b: int, n: int)
    requires n > 0
    ensures Ratio(a, n) + Ratio(b, n) == Ratio(a + b, n)
  {}

  lemma RatioZero(n: int)
    requires n > 0
    ensures Ratio(0, n) == 0.0 && Ratio(n, n) == 1.0
  {}

  lemma {:induction false} Totals(pairs: seq<Pair>, n: nat)
    requires |pairs| > 0 && n <= |KeysOf(pairs, ByStratum)|
    ensures TotalWeight(StrataOf(pairs), n) == Ratio(CountUnder(pairs, ByStratum, KeysOf(pairs, ByStratum), n), |pairs|)
    ensures TotalMean(StrataOf(pairs), n) == Ratio(SumUnder(pairs, ByStratum, KeysOf(pairs, ByStratum), n), |pairs|)
  {
    hide Select, KeysOf, Sum, ReposOf, StratumOf, Mean, Ratio, Weigh;
    if n > 0 {
      Totals(pairs, n - 1);
      Share(pairs, n - 1);
      var keys := KeysOf(pairs, ByStratum);
      var rows := Select(pairs, ByStratum, keys[n - 1]);
      AddFractions(CountUnder(pairs, ByStratum, keys, n - 1), |rows|, |pairs|);
      AddFractions(SumUnder(pairs, ByStratum, keys, n - 1), Sum(rows), |pairs|);
    } else {
      RatioZero(|pairs|);
    }
  }

  /** The weights sum to one, and the weighted stratum means to the overall difference. */
  lemma WeightsAndMeans(pairs: seq<Pair>)
    requires |pairs| > 0
    ensures TotalWeight(StrataOf(pairs), |StrataOf(pairs)|) == 1.0
    ensures TotalMean(StrataOf(pairs), |StrataOf(pairs)|) == Delta(pairs)
  {
    hide Select, KeysOf, Sum, ReposOf, StratumOf, Mean, CountUnder, SumUnder, TotalWeight, TotalMean, Discordant, Ratio;
    var keys := KeysOf(pairs, ByStratum);
    KeysOk(pairs, ByStratum);
    forall i | 0 <= i < |pairs| ensures ByStratum(pairs[i]) in keys {}
    Partition(pairs, ByStratum, keys);
    assert |StrataOf(pairs)| == |keys|;
    Totals(pairs, |keys|);
    SumIsNet(pairs);
    RatioZero(|pairs|);
    assert TotalMean(StrataOf(pairs), |keys|) == Ratio(Sum(pairs), |pairs|);
  }

  // ---- replicates --------------------------------------------------------------------------------------------------------

  lemma AboveOne(r: real, n: real)
    requires n > 0.0 && r > 1.0
    ensures r * n > n
  {
    assert (r - 1.0) * n > 0.0;
  }

  lemma MeanInside(sum: int, count: int)
    requires count > 0 && -count <= sum <= count
    ensures -1.0 <= Ratio(sum, count) <= 1.0
  {
    var r, n := Ratio(sum, count), count as real;
    assert r * n == sum as real && -r * n == -(sum as real) && -n <= sum as real <= n;
    if r > 1.0 { AboveOne(r, n); }
    if -r > 1.0 { AboveOne(-r, n); }
  }

  lemma MeanOf(rows: seq<Pair>)
    requires |rows| > 0
    ensures -1.0 <= Mean(rows) <= 1.0
  {
    SumIsNet(rows);
    MeanInside(Sum(rows), |rows|);
    hide Sum, Discordant, Ratio;
  }

  lemma WeightOf(s: Stratum)
    requires StratumOk(s)
    ensures s.weight >= 0.0
  {}

  lemma Weighted(w: real, x: real)
    requires w >= 0.0 && -1.0 <= x <= 1.0
    ensures -w <= Weigh(w, x) <= w
  {}

  /** Sum, count and generator state after `i` draws from a stratum's repositories. */
  function Draws(s: Stratum, state: int, i: nat): (r: (int, int, int))
    requires |s.repos| > 0 && 0 <= state < RANGE
    ensures 0 <= r.2 < RANGE
  {
    if i == 0 then (0, 0, state)
    else
      var before := Draws(s, state, i - 1);
      var drawn := StepState(before.2);
      PositionInside(drawn, |s.repos|);
      var repo := s.repos[Position(drawn, |s.repos|)];
      (before.0 + Sum(repo), before.1 + |repo|, drawn)
  }

  lemma {:induction false} DrawsInside(s: Stratum, state: int, i: nat)
    requires StratumOk(s) && 0 <= state < RANGE
    ensures var d := Draws(s, state, i); d.1 >= i && -d.1 <= d.0 <= d.1
  {
    if i > 0 {
      DrawsInside(s, state, i - 1);
      var drawn := StepState(Draws(s, state, i - 1).2);
      PositionInside(drawn, |s.repos|);
      SumIsNet(s.repos[Position(drawn, |s.repos|)]);
      hide Sum, Discordant, Position, StepState;
    }
  }

  /** The rows of the repositories drawn, one after another. */
  function Pooled(s: Stratum, state: int, i: nat): seq<Pair>
    requires |s.repos| > 0 && 0 <= state < RANGE
  {
    if i == 0 then []
    else
      StatesInside(state, i);
      PositionInside(StateFrom(state, i), |s.repos|);
      Pooled(s, state, i - 1) + s.repos[Position(StateFrom(state, i), |s.repos|)]
  }

  /** The generator's state `k` steps on. */
  function StateFrom(state: int, k: nat): int { if k == 0 then state else StepState(StateFrom(state, k - 1)) }

  lemma {:induction false} StatesInside(state: int, k: nat)
    requires 0 <= state < RANGE
    ensures 0 <= StateFrom(state, k) < RANGE
  { if k > 0 { StatesInside(state, k - 1); } }

  lemma {:induction false} SumAppend(a: seq<Pair>, b: seq<Pair>)
    ensures Sum(a + b) == Sum(a) + Sum(b)
  {
    if |b| == 0 {
      assert a + b == a;
    } else {
      assert (a + b)[..|a + b| - 1] == a + b[..|b| - 1] && (a + b)[|a + b| - 1] == b[|b| - 1];
      SumAppend(a, b[..|b| - 1]);
    }
  }

  /** A resample's mean is the mean of the pooled rows, whichever repositories the generator's next numbers pick. */
  lemma {:induction false} DrawsPool(s: Stratum, state: int, i: nat)
    requires |s.repos| > 0 && 0 <= state < RANGE
    ensures Draws(s, state, i) == (Sum(Pooled(s, state, i)), |Pooled(s, state, i)|, StateFrom(state, i))
  {
    hide Position, StepState;
    if i > 0 {
      DrawsPool(s, state, i - 1);
      StatesInside(state, i);
      PositionInside(StateFrom(state, i), |s.repos|);
      SumAppend(Pooled(s, state, i - 1), s.repos[Position(StateFrom(state, i), |s.repos|)]);
    }
  }

  /** One stratum's resample: as many repositories as it has, drawn with replacement. */
  method Resample(s: Stratum, next: Generator) returns (sum: int, count: int)
    requires StratumOk(s) && next.Valid()
    modifies next
    ensures next.Valid() && (sum, count, next.state) == Draws(s, old(next.state), |s.repos|)
    ensures count > 0 && -count <= sum <= count
  {
    DrawsInside(s, next.state, |s.repos|);
    hide Sum, Position, StepState;
    sum, count := 0, 0;
    for i := 0 to |s.repos|
      invariant next.Valid() && (sum, count, next.state) == Draws(s, old(next.state), i)
    {
      var at := next.Pick(|s.repos|);
      var repo := s.repos[at];
      sum := sum + Sum(repo);
      count := count + |repo|;
    }
  }

  /** The replicate's value and the generator's state after the first `n` strata. */
  function ReplicateTo(strata: seq<Stratum>, state: int, n: nat): (r: (real, int))
    requires n <= |strata| && 0 <= state < RANGE && forall i :: 0 <= i < |strata| ==> StratumOk(strata[i])
    ensures 0 <= r.1 < RANGE
  {
    if n == 0 then (0.0, state)
    else
      var before := ReplicateTo(strata, state, n - 1);
      var s := strata[n - 1];
      DrawsInside(s, before.1, |s.repos|);
      var d := Draws(s, before.1, |s.repos|);
      (before.0 + Weigh(s.weight, Ratio(d.0, d.1)), d.2)
  }

  /** A bootstrap replicate: the weighted means of what is drawn; whatever is drawn, it lies between -1 and 1. */
  method Replicate(pairs: seq<Pair>, next: Generator) returns (value: real)
    requires |pairs| > 0 && next.Valid()
    modifies next
    ensures forall i :: 0 <= i < |StrataOf(pairs)| ==> StratumOk(StrataOf(pairs)[i])
    ensures next.Valid() && (value, next.state) == ReplicateTo(StrataOf(pairs), old(next.state), |StrataOf(pairs)|)
    ensures -1.0 <= value <= 1.0
  {
    hide StrataOf, StratumOk, Ratio, Weigh, Draws;
    var strata := StrataOf(pairs);
    StrataOk(pairs);
    WeightsAndMeans(pairs);
    value := 0.0;
    for i := 0 to |strata|
      invariant next.Valid() && (value, next.state) == ReplicateTo(strata, old(next.state), i)
      invariant -TotalWeight(strata, i) <= value <= TotalWeight(strata, i)
    {
      var sum, count := Resample(strata[i], next);
      MeanInside(sum, count);
      WeightOf(strata[i]);
      Weighted(strata[i].weight, Ratio(sum, count));
      value := value + Weigh(strata[i].weight, Ratio(sum, count));
    }
  }

  /** The rows of every other repository. */
  function Without(rows: seq<Pair>, repo: Text): seq<Pair> {
    if |rows| == 0 then []
    else Without(rows[..|rows| - 1], repo) + if rows[|rows| - 1].repo != repo then [rows[|rows| - 1]] else []
  }

  /** How many of the first `i` rows are of another repository. */
  function OthersBefore(rows: seq<Pair>, repo: Text, i: nat): nat
    requires i <= |rows|
  {
    if i == 0 then 0 else OthersBefore(rows, repo, i - 1) + if rows[i - 1].repo == repo then 0 else 1
  }

  /** What stays are the rows of the other repositories, all of them, in order. */
  lemma {:induction false} WithoutKeeps(rows: seq<Pair>, repo: Text, i: nat)
    requires i <= |rows|
    ensures |Without(rows, repo)| == OthersBefore(rows, repo, |rows|) >= OthersBefore(rows, repo, i)
    ensures i < |rows| && rows[i].repo != repo ==>
      OthersBefore(rows, repo, i) < |Without(rows, repo)| && Without(rows, repo)[OthersBefore(rows, repo, i)] == rows[i]
    decreases |rows|
  {
    if |rows| > 0 {
      var n := |rows| - 1;
      OthersSame(rows, repo, n, n);
      WithoutKeeps(rows[..n], repo, if i < n then i else n);
      if i < n { OthersSame(rows, repo, n, i); }
    }
  }

  lemma {:induction false} OthersSame(rows: seq<Pair>, repo: Text, n: nat, i: nat)
    requires i <= n <= |rows|
    ensures OthersBefore(rows[..n], repo, i) == OthersBefore(rows, repo, i)
  {
    if i > 0 { OthersSame(rows, repo, n, i - 1); }
  }

  function LeftOut(strata: seq<Stratum>, repo: Text, n: nat): real
    requires n <= |strata|
  { if n == 0 then 0.0 else LeftOut(strata, repo, n - 1) + Weigh(strata[n - 1].weight, Mean(Without(strata[n - 1].rows, repo))) }

  /** One repository left out: defined exactly when no stratum consists of it alone, and then between -1 and 1. */
  method LeaveOut(pairs: seq<Pair>, repo: Text) returns (value: Option<real>)
    requires |pairs| > 0
    ensures value.Some? <==> forall i :: 0 <= i < |StrataOf(pairs)| ==> |Without(StrataOf(pairs)[i].rows, repo)| > 0
    ensures value.Some? ==> value.value == LeftOut(StrataOf(pairs), repo, |StrataOf(pairs)|) && -1.0 <= value.value <= 1.0
  {
    hide StrataOf, StratumOk, StratumOf, KeysOf, Select, ReposOf, Sum, Discordant, Without, Ratio, Weigh, Mean, TotalMean, Delta;
    var strata := StrataOf(pairs);
    StrataOk(pairs);
    WeightsAndMeans(pairs);
    var total := 0.0;
    for i := 0 to |strata|
      invariant forall k :: 0 <= k < i ==> |Without(strata[k].rows, repo)| > 0
      invariant total == LeftOut(strata, repo, i) && -TotalWeight(strata, i) <= total <= TotalWeight(strata, i)
    {
      var rows := Without(strata[i].rows, repo);
      if |rows| == 0 { return None; }
      MeanOf(rows);
      WeightOf(strata[i]);
      Weighted(strata[i].weight, Mean(rows));
      total := total + Weigh(strata[i].weight, Mean(rows));
    }
    return Some(total);
  }
}
