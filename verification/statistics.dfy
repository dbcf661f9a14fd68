/** The statistics report (get_document_statistics in app.py): chunk records
    counted per source file, the number of sources, and the sources listed by
    descending count with their share of the records. */
module Statistics {
  import opened Common


  /** One entry of the per-source dict: a source and its record count. */
  datatype Item = Item(source: string, count: nat)

  /** One line of the report; `share` is count / total chunks as an exact ratio. */
  datatype Row = Row(source: string, count: nat, share: real)

  datatype Stats =
    | NoDocuments                                   // the collection has no ids
    | StatsFailed                                   // a record has no metadata dict
    | Report(totalChunks: nat, sourceCount: nat, rows: seq<Row>)

  /** Every record has a metadata dict (the vector store may give None). */
  predicate AllPresent(mds: seq<Option<Metadata>>) {
    forall i :: 0 <= i < |mds| ==> mds[i].Some?
  }

  /** The source label of every record. */
  function Labels(mds: seq<Option<Metadata>>): (r: seq<string>)
    requires AllPresent(mds)
    ensures |r| == |mds| && forall i :: 0 <= i < |mds| ==> r[i] == SourceLabel(mds[i].value)
  {
    seq(|mds|, i requires 0 <= i < |mds| => SourceLabel(mds[i].value))
  }

  /** The dict's items in insertion order: each key with its count in labels. */
  function Tally(keys: seq<string>, labels: seq<string>): (r: seq<Item>)
    ensures |r| == |keys|
    ensures forall i :: 0 <= i < |keys| ==> r[i] == Item(keys[i], Count(labels, keys[i]))
  {
    seq(|keys|, i requires 0 <= i < |keys| => Item(keys[i], Count(labels, keys[i])))
  }

  function SumCounts(items: seq<Item>): nat {
    if items == [] then 0 else items[0].count + SumCounts(items[1..])
  }

  lemma {:induction false} SumCountsSnoc(items: seq<Item>, x: Item)
    ensures SumCounts(items + [x]) == SumCounts(items) + x.count
  {
    if items != [] {
      SumCountsSnoc(items[1..], x);
      assert (items + [x])[1..] == items[1..] + [x];
    }
  }

  /** One more record shifts the total over the keys by the number of times its
      label is a key. */
  lemma {:induction false} TallyAddRecord(keys: seq<string>, labels: seq<string>, x: string)
    ensures SumCounts(Tally(keys, labels + [x])) == SumCounts(Tally(keys, labels)) + Count(keys, x)
  {
    if keys != [] {
      var init, last := keys[..|keys| - 1], keys[|keys| - 1];
      TallyAddRecord(init, labels, x);
      assert Tally(keys, labels + [x]) == Tally(init, labels + [x]) + [Item(last, Count(labels + [x], last))];
      assert Tally(keys, labels) == Tally(init, labels) + [Item(last, Count(labels, last))];
      SumCountsSnoc(Tally(init, labels + [x]), Item(last, Count(labels + [x], last)));
      SumCountsSnoc(Tally(init, labels), Item(last, Count(labels, last)));
      assert (labels + [x])[..|labels|] == labels;
    }
  }

  lemma {:induction false} NoDupCountOne(xs: seq<string>, x: string)
    requires NoDup(xs) && x in xs
    ensures Count(xs, x) == 1
  {
    var init, last := xs[..|xs| - 1], xs[|xs| - 1];
    assert NoDup(init);
    if last == x {
      assert x !in init by {
        assert forall i :: 0 <= i < |init| ==> init[i] == xs[i] != xs[|xs| - 1];
      }
      CountPositiveIffIn(init, x);
    } else {
      assert x in init by { assert xs == init + [last]; }
      NoDupCountOne(init, x);
    }
  }

  /** The per-source counts add up to the number of records. */
  lemma {:induction false} TallyTotal(labels: seq<string>)
    ensures SumCounts(Tally(Distinct(labels), labels)) == |labels|
  {
    if labels != [] {
      var init, x := labels[..|labels| - 1], labels[|labels| - 1];
      var d := Distinct(init);
      assert labels == init + [x];
      TallyTotal(init);
      TallyAddRecord(d, init, x);
      if x in d {
        NoDupCountOne(d, x);
      } else {
        CountPositiveIffIn(d, x);
        CountPositiveIffIn(init, x);
        TallyAddRecord(d, init, x);
        var t := Tally(d, labels);
        assert Tally(d + [x], labels) == t + [Item(x, Count(labels, x))];
        SumCountsSnoc(t, Item(x, Count(labels, x)));
      }
    }
  }

  /** Counts never increase from one item to the next. */
  predicate NonIncreasing(items: seq<Item>) {
    forall i, j :: 0 <= i < j < |items| ==> items[i].count >= items[j].count
  }

  /** Places x before the first item whose count is not larger than its own. */
  function InsertByCount(x: Item, sorted: seq<Item>): (r: seq<Item>)
    ensures |r| == |sorted| + 1
    ensures r[0] == x || (sorted != [] && r[0] == sorted[0])
    ensures multiset(r) == multiset(sorted) + multiset{x}
    ensures SumCounts(r) == x.count + SumCounts(sorted)
  {
    if sorted == [] || sorted[0].count <= x.count then [x] + sorted
    else
      var head, tail := sorted[0], sorted[1..];
      assert sorted == [head] + tail;
      [head] + InsertByCount(x, tail)
  }

  /** Inserting into a list in non-increasing count order keeps that order. */
  lemma {:induction false} InsertKeepsOrder(x: Item, sorted: seq<Item>)
    requires NonIncreasing(sorted)
    ensures NonIncreasing(InsertByCount(x, sorted))
  {
    var r := InsertByCount(x, sorted);
    if sorted == [] || sorted[0].count <= x.count {
      forall i, j | 0 <= i < j < |r| ensures r[i].count >= r[j].count {
        if i == 0 {
          assert r[j] == sorted[j - 1];
        } else {
          assert r[i] == sorted[i - 1] && r[j] == sorted[j - 1];
        }
      }
    } else {
      var head, tail := sorted[0], sorted[1..];
      var rest := InsertByCount(x, tail);
      assert NonIncreasing(tail) by {
        forall i, j | 0 <= i < j < |tail| ensures tail[i].count >= tail[j].count {
          assert tail[i] == sorted[i + 1] && tail[j] == sorted[j + 1];
        }
      }
      InsertKeepsOrder(x, tail);
      assert r == [head] + rest;
      assert head.count >= rest[0].count;
      forall i, j | 0 <= i < j < |r| ensures r[i].count >= r[j].count {
        if i == 0 {
          assert r[j] == rest[j - 1];
          assert rest[0].count >= rest[j - 1].count;
        } else {
          assert r[i] == rest[i - 1] && r[j] == rest[j - 1];
        }
      }
    }
  }

  /** sorted(items, key=count, reverse=True): a permutation of the items in
      non-increasing count order. */
  function SortByCount(items: seq<Item>): (r: seq<Item>)
    ensures multiset(r) == multiset(items)
    ensures NonIncreasing(r)
    ensures SumCounts(r) == SumCounts(items)
  {
    if items == [] then []
    else
      assert items == [items[0]] + items[1..];
      var rest := SortByCount(items[1..]);
      InsertKeepsOrder(items[0], rest);
      InsertByCount(items[0], rest)
  }

  /** The report rows of the sorted items, each with its share of total. */
  function Rows(items: seq<Item>, total: nat): (r: seq<Row>)
    requires total > 0
    ensures |r| == |items|
    ensures forall i :: 0 <= i < |items| ==> r[i].source == items[i].source && r[i].count == items[i].count
  {
    seq(|items|, i requires 0 <= i < |items| =>
      Row(items[i].source, items[i].count, items[i].count as real / total as real))
  }

  function SumShares(rows: seq<Row>): real {
    if rows == [] then 0.0 else rows[0].share + SumShares(rows[1..])
  }

  /** The shares add up to the records counted over the total. */
  lemma {:induction false} SumSharesRatio(items: seq<Item>, total: nat)
    requires total > 0
    ensures SumShares(Rows(items, total)) == SumCounts(items) as real / total as real
  {
    if items != [] {
      var rows := Rows(items, total);
      SumSharesRatio(items[1..], total);
      assert rows[1..] == Rows(items[1..], total);
      assert SumShares(rows) == rows[0].share + SumShares(rows[1..]);
      AddRatios(items[0].count as real, SumCounts(items[1..]) as real, total as real);
    }
  }

  /** Real division distributes over a sum; kept apart so that the sum proof
      does not unfold it. */
  lemma AddRatios(a: real, b: real, t: real)
    requires t > 0.0
    ensures a / t + b / t == (a + b) / t
  {
  }

  lemma DivSelf(x: real)
    requires x > 0.0
    ensures x / x == 1.0
  {
  }

  /** get_document_statistics, on the ids and metadatas the vector store returns. */
  function Statistics(ids: seq<string>, mds: seq<Option<Metadata>>): (r: Stats)
    ensures r.NoDocuments? <==> |ids| == 0
    ensures r.StatsFailed? <==> |ids| > 0 && !AllPresent(mds)
    ensures r.Report? ==> r.totalChunks == |ids| && |r.rows| == r.sourceCount
  {
    if |ids| == 0 then NoDocuments
    else if !AllPresent(mds) then StatsFailed
    else
      var labels := Labels(mds);
      var keys := Distinct(labels);
      Report(|ids|, |keys|, Rows(SortByCount(Tally(keys, labels)), |ids|))
  }

  /** A reordering of the dict items names the same sources, each still with
      its own count. */
  lemma PermutedTally(keys: seq<string>, labels: seq<string>, sorted: seq<Item>)
    requires multiset(sorted) == multiset(Tally(keys, labels))
    ensures forall src :: src in keys <==> exists i :: 0 <= i < |sorted| && sorted[i].source == src
    ensures forall i :: 0 <= i < |sorted| ==> sorted[i].count == Count(labels, sorted[i].source)
  {
    var tally := Tally(keys, labels);
    forall src ensures src in keys <==> exists i :: 0 <= i < |sorted| && sorted[i].source == src {
      if src in keys {
        var k :| 0 <= k < |keys| && keys[k] == src;
        assert tally[k] in multiset(sorted);
        var i :| 0 <= i < |sorted| && sorted[i] == tally[k];
      }
      if exists i :: 0 <= i < |sorted| && sorted[i].source == src {
        var i :| 0 <= i < |sorted| && sorted[i].source == src;
        assert sorted[i] in multiset(tally);
      }
    }
    forall i | 0 <= i < |sorted| ensures sorted[i].count == Count(labels, sorted[i].source) {
      assert sorted[i] in multiset(tally);
    }
  }

  /** The sorted dict items: one per distinct label, each with that label's
      number of records, adding up to all the records. */
  lemma SortedTallyCoversLabels(labels: seq<string>)
    ensures var sorted := SortByCount(Tally(Distinct(labels), labels));
      && |sorted| == |set l | l in labels|
      && (forall src :: src in labels <==> exists i :: 0 <= i < |sorted| && sorted[i].source == src)
      && (forall i :: 0 <= i < |sorted| ==> sorted[i].count == Count(labels, sorted[i].source))
      && SumCounts(sorted) == |labels|
  {
    var keys := Distinct(labels);
    var tally := Tally(keys, labels);
    var sorted := SortByCount(tally);
    assert |sorted| == |keys| by {
      NoDupCardinality(keys);
      assert |sorted| == |multiset(sorted)| == |multiset(tally)| == |tally|;
    }
    assert |keys| == |set l | l in labels| by {
      NoDupCardinality(keys);
      assert (set l | l in keys) == (set l | l in labels);
    }
    PermutedTally(keys, labels, sorted);
    TallyTotal(labels);
  }

  /** What the report states: the total is the number of ids, the number of
      sources is the number of distinct labels and of rows, and the rows come
      in non-increasing count order. */
  lemma StatisticsReport(ids: seq<string>, mds: seq<Option<Metadata>>)
    requires |ids| > 0 && AllPresent(mds)
    ensures var s := Statistics(ids, mds);
      && s.Report?
      && s.totalChunks == |ids|
      && s.sourceCount == |s.rows| == |set l | l in Labels(mds)|
      && (forall i, j :: 0 <= i < j < |s.rows| ==> s.rows[i].count >= s.rows[j].count)
  {
    var labels := Labels(mds);
    var keys := Distinct(labels);
    var sorted := SortByCount(Tally(keys, labels));
    assert Statistics(ids, mds) == Report(|ids|, |keys|, Rows(sorted, |ids|));
    SortedTallyCoversLabels(labels);
    assert |keys| == |set l | l in labels| by {
      NoDupCardinality(keys);
      assert (set l | l in keys) == (set l | l in labels);
    }
  }

  /** There is a row exactly for each source label, and it holds the number of
      records with that label. */
  lemma StatisticsRowPerSource(ids: seq<string>, mds: seq<Option<Metadata>>)
    requires |ids| > 0 && AllPresent(mds)
    ensures var s := Statistics(ids, mds); var labels := Labels(mds);
      && s.Report?
      && (forall src :: src in labels <==> exists i :: 0 <= i < |s.rows| && s.rows[i].source == src)
      && (forall i :: 0 <= i < |s.rows| ==> s.rows[i].count == Count(labels, s.rows[i].source))
  {
    var labels := Labels(mds);
    var sorted := SortByCount(Tally(Distinct(labels), labels));
    var rows := Rows(sorted, |ids|);
    SortedTallyCoversLabels(labels);
    forall src | src in labels ensures exists i :: 0 <= i < |rows| && rows[i].source == src {
      var i :| 0 <= i < |sorted| && sorted[i].source == src;
      assert rows[i].source == src;
    }
  }

  /** Each share is count / total; the counts add up to the number of metadata
      records, so the shares add up to 1 when every id has its record. */
  lemma StatisticsShares(ids: seq<string>, mds: seq<Option<Metadata>>)
    requires |ids| > 0 && AllPresent(mds)
    ensures var s := Statistics(ids, mds);
      && s.Report?
      && (forall i :: 0 <= i < |s.rows| ==> s.rows[i].share == s.rows[i].count as real / |ids| as real)
      && SumShares(s.rows) == |mds| as real / |ids| as real
      && (|mds| == |ids| ==> SumShares(s.rows) == 1.0)
  {
    var labels := Labels(mds);
    var sorted := SortByCount(Tally(Distinct(labels), labels));
    TallyTotal(labels);
    SumSharesRatio(sorted, |ids|);
    if |mds| == |ids| {
      DivSelf(|ids| as real);
    }
  }

  /** Counts the records per source as the loop over the metadatas does,
      keeping the dict's keys in insertion order. Fails on the first record
      without a metadata dict. */
  method CountSources(mds: seq<Option<Metadata>>)
    returns (failed: bool, keys: seq<string>, counts: map<string, nat>)
    ensures failed <==> !AllPresent(mds)
    ensures !failed ==> keys == Distinct(Labels(mds))
    ensures !failed ==> forall k :: k in counts <==> k in keys
    ensures !failed ==> forall k :: k in counts ==> counts[k] == Count(Labels(mds), k)
  {
    keys, counts := [], map[];
    ghost var seen: seq<string> := [];
    var i := 0;
    while i < |mds|
      invariant 0 <= i <= |mds|
      invariant |seen| == i
      invariant forall k :: 0 <= k < i ==> mds[k].Some? && seen[k] == SourceLabel(mds[k].value)
      invariant keys == Distinct(seen)
      invariant forall k :: k in counts <==> k in keys
      invariant forall k :: k in counts ==> counts[k] == Count(seen, k)
    {
      if mds[i].None? {
        return true, keys, counts;
      }
      var source := SourceLabel(mds[i].value);
      CountPositiveIffIn(seen, source);
      ghost var next := seen + [source];
      assert next[..i] == seen && next[i] == source;
      assert Distinct(next) == if source in Distinct(seen) then Distinct(seen) else Distinct(seen) + [source];
      assert forall k :: Count(next, k) == Count(seen, k) + (if k == source then 1 else 0);
      forall k | 0 <= k < i + 1 ensures mds[k].Some? && next[k] == SourceLabel(mds[k].value) {
        if k < i { assert next[k] == seen[k]; }
      }
      if source !in counts {
        keys := keys + [source];
      }
      counts := counts[source := (if source in counts then counts[source] else 0) + 1];
      seen := seen + [source];
      i := i + 1;
    }
    assert seen == Labels(mds);
    failed := false;
  }

  /** The report lines, one per sorted item, as the final loop appends them. */
  method ReportRows(sorted: seq<Item>, total: nat) returns (rows: seq<Row>)
    requires total > 0
    ensures rows == Rows(sorted, total)
  {
    rows := [];
    var i := 0;
    while i < |sorted|
      invariant 0 <= i <= |sorted|
      invariant rows == Rows(sorted[..i], total)
    {
      assert Rows(sorted[..i + 1], total) == Rows(sorted[..i], total)
        + [Row(sorted[i].source, sorted[i].count, sorted[i].count as real / total as real)];
      rows := rows + [Row(sorted[i].source, sorted[i].count, sorted[i].count as real / total as real)];
      i := i + 1;
    }
    assert sorted[..|sorted|] == sorted;
  }

  /** A dict whose keys are exactly the duplicate-free key list has as many
      entries as the list. */
  lemma DictSize(keys: seq<string>, counts: map<string, nat>)
    requires NoDup(keys) && forall k :: k in counts <==> k in keys
    ensures |counts| == |keys|
  {
    NoDupCardinality(keys);
    assert counts.Keys == set k | k in keys;
  }

  /** get_document_statistics: the counting loop, the sort and one report line
      per sorted item. */
  method GetDocumentStatistics(ids: seq<string>, mds: seq<Option<Metadata>>) returns (stats: Stats)
    ensures stats == Statistics(ids, mds)
  {
    if |ids| == 0 {
      return NoDocuments;
    }
    var failed, keys, counts := CountSources(mds);
    if failed {
      return StatsFailed;
    }
    var items := seq(|keys|, i requires 0 <= i < |keys| => Item(keys[i], counts[keys[i]]));
    assert items == Tally(keys, Labels(mds));
    DictSize(keys, counts);
    var rows := ReportRows(SortByCount(items), |ids|);
    stats := Report(|ids|, |counts|, rows);
  }
}
