/** accumulate_rollout_stats (metta/rl/functions.py): the per-report
    `(key, value)` pairs of a rollout, flattened from their nested
    dictionaries, are detached and grouped by key, and each group is then
    appended to the list the caller's statistics dictionary keeps for that
    key. */
module RolloutStats {

  /** The reported values: a plain number, a tensor or a NumPy array (the
      elements are in row-major order; their shape is not modelled). */
  datatype Value =
    | Scalar(x: int)
    | Tensor(elements: seq<int>)
    | NdArray(elements: seq<int>)

  /** A report after unroll_nested_dict: its flattened keys with values. */
  type Report = seq<(string, Value)>

  /** The detaching step: a one-element tensor or array becomes its single
      number, a larger tensor becomes an array, anything else is kept. */
  function Detach(v: Value): (r: Value)
    ensures !r.Tensor?
    ensures r.NdArray? ==> |r.elements| != 1
    ensures (v.Tensor? || v.NdArray?) && |v.elements| == 1 ==> r == Scalar(v.elements[0])
    ensures (v.Tensor? || v.NdArray?) && |v.elements| != 1 ==> r == NdArray(v.elements)
    ensures v.Scalar? ==> r == v
  {
    match v
    case Scalar(_) => v
    case Tensor(xs) => if |xs| == 1 then Scalar(xs[0]) else NdArray(xs)
    case NdArray(xs) => if |xs| == 1 then Scalar(xs[0]) else v
  }

  /** Detaching twice is detaching once. */
  lemma DetachIdempotent(v: Value)
    ensures Detach(Detach(v)) == Detach(v)
  {
  }

  /** All pairs of the reports, report by report. */
  function Flatten(reports: seq<Report>): Report {
    if |reports| == 0 then [] else Flatten(reports[..|reports| - 1]) + reports[|reports| - 1]
  }

  /** The keys that occur among the pairs. */
  function KeysOf(pairs: Report): set<string> {
    set i | 0 <= i < |pairs| :: pairs[i].0
  }

  /** The detached values reported for `k`, in the order they were reported. */
  function Reported(pairs: Report, k: string): (r: seq<Value>)
    ensures k !in KeysOf(pairs) ==> r == []
  {
    if |pairs| == 0 then []
    else
      var last := pairs[|pairs| - 1];
      var init := Reported(pairs[..|pairs| - 1], k);
      assert KeysOf(pairs) == KeysOf(pairs[..|pairs| - 1]) + {last.0};
      if last.0 == k then init + [Detach(last.1)] else init
  }

  /** What `d[k]` reads in a dictionary of lists that `setdefault(k, [])`
      would consult: the stored list, or the empty one. */
  function ListAt(m: map<string, seq<Value>>, k: string): seq<Value> {
    if k in m then m[k] else []
  }

  /** The statistics after accumulating `pairs` into `stats`: every reported
      key's list is extended by its values, every other entry is kept. */
  function Accumulated(stats: map<string, seq<Value>>, pairs: Report): map<string, seq<Value>> {
    map k | k in stats.Keys + KeysOf(pairs) :: ListAt(stats, k) + Reported(pairs, k)
  }

  /** Each reported key's list is its old list followed by the key's
      detached values in report order; an unreported key keeps its entry,
      and no other key appears. */
  lemma AccumulatedEntries(stats: map<string, seq<Value>>, pairs: Report, k: string)
    ensures var r := Accumulated(stats, pairs);
            && (k in r <==> k in stats || k in KeysOf(pairs))
            && (k in KeysOf(pairs) ==> r[k] == ListAt(stats, k) + Reported(pairs, k))
            && (k !in KeysOf(pairs) && k in stats ==> r[k] == stats[k])
  {
  }

  /** Reported values of concatenated pairs concatenate. */
  lemma {:induction false} ReportedAppend(p1: Report, p2: Report, k: string)
    ensures Reported(p1 + p2, k) == Reported(p1, k) + Reported(p2, k)
    decreases |p2|
  {
    if |p2| == 0 {
      assert p1 + p2 == p1;
    } else {
      var init := p2[..|p2| - 1];
      assert (p1 + p2)[..|p1 + p2| - 1] == p1 + init;
      ReportedAppend(p1, init, k);
    }
  }

  lemma KeysOfAppend(p1: Report, p2: Report)
    ensures KeysOf(p1 + p2) == KeysOf(p1) + KeysOf(p2)
  {
    forall k | k in KeysOf(p1 + p2) ensures k in KeysOf(p1) + KeysOf(p2) {
      var i :| 0 <= i < |p1 + p2| && (p1 + p2)[i].0 == k;
      if i >= |p1| {
        assert p2[i - |p1|].0 == k;
      } else {
        assert p1[i].0 == k;
      }
    }
    forall k | k in KeysOf(p1) ensures k in KeysOf(p1 + p2) {
      var i :| 0 <= i < |p1| && p1[i].0 == k;
      assert (p1 + p2)[i].0 == k;
    }
    forall k | k in KeysOf(p2) ensures k in KeysOf(p1 + p2) {
      var i :| 0 <= i < |p2| && p2[i].0 == k;
      assert (p1 + p2)[|p1| + i].0 == k;
    }
  }

  /** Accumulating two batches of reports one after the other is
      accumulating them together. */
  lemma AccumulatedTwice(stats: map<string, seq<Value>>, p1: Report, p2: Report)
    ensures Accumulated(Accumulated(stats, p1), p2) == Accumulated(stats, p1 + p2)
  {
    var lhs, rhs := Accumulated(Accumulated(stats, p1), p2), Accumulated(stats, p1 + p2);
    forall k ensures (k in lhs <==> k in rhs) && (k in rhs ==> lhs[k] == rhs[k]) {
      AccumulatedTwiceAt(stats, p1, p2, k);
    }
    assert lhs.Keys == rhs.Keys;
  }

  lemma AccumulatedTwiceAt(stats: map<string, seq<Value>>, p1: Report, p2: Report, k: string)
    ensures var lhs, rhs := Accumulated(Accumulated(stats, p1), p2), Accumulated(stats, p1 + p2);
            (k in lhs <==> k in rhs) && (k in rhs ==> lhs[k] == rhs[k])
  {
    var lhs, rhs := Accumulated(Accumulated(stats, p1), p2), Accumulated(stats, p1 + p2);
    KeysOfAppend(p1, p2);
    assert k in lhs <==> k in rhs;
    if k in rhs {
      var l := ListsTwice(stats, p1, p2, k);
      assert lhs[k] == l == rhs[k];
    }
  }

  /** The list of `k` after the two accumulations, read both ways. */
  lemma ListsTwice(stats: map<string, seq<Value>>, p1: Report, p2: Report, k: string) returns (l: seq<Value>)
    ensures l == ListAt(Accumulated(stats, p1), k) + Reported(p2, k)
    ensures l == ListAt(stats, k) + Reported(p1 + p2, k)
  {
    ReportedAppend(p1, p2, k);
    ListAtAccumulated(stats, p1, k);
    var a, b, c := ListAt(stats, k), Reported(p1, k), Reported(p2, k);
    SeqAssoc(a, b, c);
    l := (a + b) + c;
  }

  lemma SeqAssoc(a: seq<Value>, b: seq<Value>, c: seq<Value>)
    ensures (a + b) + c == a + (b + c)
  {
  }

  /** Reading an accumulated list with the empty default. */
  lemma ListAtAccumulated(stats: map<string, seq<Value>>, pairs: Report, k: string)
    ensures ListAt(Accumulated(stats, pairs), k) == ListAt(stats, k) + Reported(pairs, k)
  {
  }

  /** Every stored value is already detached: no tensor and no one-element
      array reaches the statistics. */
  lemma {:induction false} ReportedDetached(pairs: Report, k: string)
    ensures forall v | v in Reported(pairs, k) :: Detach(v) == v && !v.Tensor?
    decreases |pairs|
  {
    if |pairs| > 0 {
      ReportedDetached(pairs[..|pairs| - 1], k);
      DetachIdempotent(pairs[|pairs| - 1].1);
    }
  }

  /** The caller's dictionary of statistics, mutated in place. */
  class StatsDict {
    var entries: map<string, seq<Value>>

    constructor (initial: map<string, seq<Value>>)
      ensures entries == initial
    {
      entries := initial;
    }

    /** `stats.setdefault(k, []).extend(vs)` */
    method Extend(k: string, vs: seq<Value>)
      modifies this
      ensures entries == old(entries)[k := ListAt(old(entries), k) + vs]
    {
      entries := entries[k := ListAt(entries, k) + vs];
    }
  }

  /** The grouping dictionary holds exactly the reported values of `pairs`,
      and `order` lists its keys once each, in the order of first report. */
  ghost predicate Grouped(infos: map<string, seq<Value>>, order: seq<string>, pairs: Report) {
    && infos.Keys == KeysOf(pairs)
    && (forall k | k in infos :: infos[k] == Reported(pairs, k))
    && (forall i | 0 <= i < |order| :: order[i] in infos)
    && (forall k | k in infos :: k in order)
    && (forall i, j | 0 <= i < j < |order| :: order[i] != order[j])
  }

  /** Appending one pair to the grouping. */
  lemma GroupStep(infos: map<string, seq<Value>>, order: seq<string>, pairs: Report, k: string, v: Value)
    requires Grouped(infos, order, pairs)
    ensures var order' := if k in infos then order else order + [k];
            Grouped(infos[k := ListAt(infos, k) + [Detach(v)]], order', pairs + [(k, v)])
  {
    var pairs' := pairs + [(k, v)];
    assert pairs'[..|pairs'| - 1] == pairs;
    assert KeysOf(pairs') == KeysOf(pairs) + {k} by {
      KeysOfAppend(pairs, [(k, v)]);
      assert [(k, v)][0].0 == k;
      assert KeysOf([(k, v)]) == {k};
    }
  }

  /** The whole of accumulate_rollout_stats: the grouping loop over the
      reports, then the extending loop over the grouped keys. */
  method AccumulateRolloutStats(rawInfos: seq<Report>, stats: StatsDict)
    modifies stats
    ensures stats.entries == Accumulated(old(stats.entries), Flatten(rawInfos))
  {
    var infos, order := Group(rawInfos);
    ExtendAll(infos, order, Flatten(rawInfos), stats);
  }

  /** The grouping loop over the reports into a fresh `defaultdict(list)`. */
  method Group(rawInfos: seq<Report>) returns (infos: map<string, seq<Value>>, order: seq<string>)
    ensures Grouped(infos, order, Flatten(rawInfos))
  {
    infos, order := map[], [];
    for i := 0 to |rawInfos|
      invariant Grouped(infos, order, Flatten(rawInfos[..i]))
    {
      assert rawInfos[..i + 1][..i] == rawInfos[..i];
      assert Flatten(rawInfos[..i + 1]) == Flatten(rawInfos[..i]) + rawInfos[i];
      infos, order := GroupReport(infos, order, Flatten(rawInfos[..i]), rawInfos[i]);
    }
    assert rawInfos[..|rawInfos|] == rawInfos;
  }

  /** The inner loop: group the pairs of one report after those of `pairs`. */
  method GroupReport(infos: map<string, seq<Value>>, order: seq<string>, ghost pairs: Report, report: Report)
    returns (infos': map<string, seq<Value>>, order': seq<string>)
    requires Grouped(infos, order, pairs)
    ensures Grouped(infos', order', pairs + report)
  {
    infos', order' := infos, order;
    ghost var seen := pairs;
    for j := 0 to |report|
      invariant seen == pairs + report[..j]
      invariant Grouped(infos', order', seen)
    {
      infos', order' := AddPair(infos', order', seen, report[j].0, report[j].1);
      seen := seen + [report[j]];
      assert report[..j + 1] == report[..j] + [report[j]];
    }
    assert report[..|report|] == report;
  }

  /** `infos[k].append(v)` after detaching `v`. */
  method AddPair(infos: map<string, seq<Value>>, order: seq<string>, ghost seen: Report, k: string, v: Value)
    returns (infos': map<string, seq<Value>>, order': seq<string>)
    requires Grouped(infos, order, seen)
    ensures Grouped(infos', order', seen + [(k, v)])
  {
    GroupStep(infos, order, seen, k, v);
    order' := if k in infos then order else order + [k];
    infos' := infos[k := ListAt(infos, k) + [Detach(v)]];
  }

  /** The second loop: extend the caller's lists key by key. */
  method ExtendAll(infos: map<string, seq<Value>>, order: seq<string>, ghost pairs: Report, stats: StatsDict)
    requires Grouped(infos, order, pairs)
    modifies stats
    ensures stats.entries == Accumulated(old(stats.entries), pairs)
  {
    ghost var before := stats.entries;
    for n := 0 to |order|
      invariant Extended(stats.entries, before, infos, order[..n])
    {
      assert order[..n + 1] == order[..n] + [order[n]];
      ExtendStep(stats.entries, before, infos, order[..n], order[n]);
      stats.Extend(order[n], infos[order[n]]);
    }
    assert order[..|order|] == order;
    ExtendedAll(stats.entries, before, infos, order, pairs);
  }

  /** The caller's lists after the keys `done` have been extended. */
  ghost predicate Extended(entries: map<string, seq<Value>>, before: map<string, seq<Value>>,
                           infos: map<string, seq<Value>>, done: seq<string>) {
    && (forall k :: k in entries <==> k in before || k in done)
    && (forall k | k in entries :: entries[k] == ListAt(before, k) + (if k in done then ListAt(infos, k) else []))
  }

  lemma ExtendStep(entries: map<string, seq<Value>>, before: map<string, seq<Value>>,
                   infos: map<string, seq<Value>>, done: seq<string>, k: string)
    requires Extended(entries, before, infos, done) && k !in done && k in infos
    ensures Extended(entries[k := ListAt(entries, k) + infos[k]], before, infos, done + [k])
  {
    var entries', done' := entries[k := ListAt(entries, k) + infos[k]], done + [k];
    forall x | x in entries'
      ensures entries'[x] == ListAt(before, x) + (if x in done' then ListAt(infos, x) else [])
    {
      if x == k {
        assert ListAt(entries, k) == ListAt(before, k);
      }
    }
  }

  lemma ExtendedAll(entries: map<string, seq<Value>>, before: map<string, seq<Value>>,
                    infos: map<string, seq<Value>>, order: seq<string>, pairs: Report)
    requires Grouped(infos, order, pairs)
    requires Extended(entries, before, infos, order)
    ensures entries == Accumulated(before, pairs)
  {
    var r := Accumulated(before, pairs);
    forall k | k in entries ensures k in r && entries[k] == r[k] {
      if k !in order {
        assert k !in infos;
      }
    }
    assert entries.Keys == r.Keys;
  }

  /** Two reports: a one-element tensor becomes a number, a two-element
      array stays an array, and an existing list is extended at its end. */
  lemma AccumulatedExample()
    ensures Accumulated(map["reward" := [Scalar(0)]],
                        Flatten([[("reward", Tensor([1])), ("length", Scalar(3))],
                                 [("reward", NdArray([2, 3]))]]))
            == map["reward" := [Scalar(0), Scalar(1), NdArray([2, 3])], "length" := [Scalar(3)]]
  {
    var pairs := ExamplePairs();
    ExampleReported(pairs);
    var r := Accumulated(map["reward" := [Scalar(0)]], pairs);
    assert r.Keys == {"reward", "length"};
    var expected := map["reward" := [Scalar(0), Scalar(1), NdArray([2, 3])], "length" := [Scalar(3)]];
    assert r["reward"] == expected["reward"];
    assert r["length"] == expected["length"];
    assert expected.Keys == r.Keys;
  }

  lemma ExamplePairs() returns (pairs: Report)
    ensures pairs == Flatten([[("reward", Tensor([1])), ("length", Scalar(3))], [("reward", NdArray([2, 3]))]])
    ensures pairs == [("reward", Tensor([1])), ("length", Scalar(3)), ("reward", NdArray([2, 3]))]
  {
    var r1: Report := [("reward", Tensor([1])), ("length", Scalar(3))];
    var r2: Report := [("reward", NdArray([2, 3]))];
    var reports := [r1, r2];
    assert reports[..1] == [r1] && [r1][..0] == [];
    assert Flatten([r1]) == r1;
    pairs := r1 + r2;
  }

  lemma ExampleReported(pairs: Report)
    requires pairs == [("reward", Tensor([1])), ("length", Scalar(3)), ("reward", NdArray([2, 3]))]
    ensures KeysOf(pairs) == {"reward", "length"}
    ensures Reported(pairs, "reward") == [Scalar(1), NdArray([2, 3])]
    ensures Reported(pairs, "length") == [Scalar(3)]
  {
    var r1 := pairs[..2];
    assert r1[..1] == [pairs[0]] && [pairs[0]][..0] == [];
    assert pairs[0].0 == "reward" && pairs[1].0 == "length" && pairs[2].0 == "reward";
    assert Reported(r1, "reward") == [Scalar(1)];
    assert Reported(r1, "length") == [Scalar(3)];
  }
}
