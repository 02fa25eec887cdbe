/** `batched`: file names in bounded batches, in order, and why no split needs fewer. */
module FormatBatches {

  const MAX_BATCH_FILES := 120
  const MAX_COMMAND_CHARS := 28000

  /** Characters a batch takes on the command line: each name with three more. */
  function Cost(batch: seq<string>): nat {
    if batch == [] then 0 else |batch[0]| + 3 + Cost(batch[1..])
  }

  predicate Fits(batch: seq<string>) {
    |batch| <= MAX_BATCH_FILES && Cost(batch) <= MAX_COMMAND_CHARS
  }

  /** A batch may only break the limits when it is a single name. */
  predicate Legal(batch: seq<string>) {
    |batch| == 1 || (batch != [] && Fits(batch))
  }

  function Flatten(batches: seq<seq<string>>): seq<string> {
    if batches == [] then [] else Flatten(batches[..|batches| - 1]) + batches[|batches| - 1]
  }

  /** A split of the names into legal batches, in order. */
  ghost predicate LegalSplit(batches: seq<seq<string>>, values: seq<string>) {
    Flatten(batches) == values && forall b :: b in batches ==> Legal(b)
  }

  function Place(batches: seq<seq<string>>, v: string): seq<seq<string>> {
    if batches == [] || !Fits(batches[|batches| - 1] + [v]) then batches + [[v]]
    else batches[..|batches| - 1] + [batches[|batches| - 1] + [v]]
  }

  function Greedy(values: seq<string>): seq<seq<string>> {
    if values == [] then [] else Place(Greedy(values[..|values| - 1]), values[|values| - 1])
  }

  lemma {:induction false} CostConcat(a: seq<string>, b: seq<string>)
    ensures Cost(a + b) == Cost(a) + Cost(b)
  {
    if a == [] {
      assert a + b == b;
    } else {
      CostConcat(a[1..], b);
      assert (a + b)[1..] == a[1..] + b;
    }
  }

  lemma FlattenLast(batches: seq<seq<string>>, last: seq<string>)
    ensures Flatten(batches + [last]) == Flatten(batches) + last
  {
    assert (batches + [last])[..|batches|] == batches;
  }

  lemma GreedyStep(values: seq<string>, i: nat)
    requires i < |values|
    ensures Greedy(values[..i + 1]) == Place(Greedy(values[..i]), values[i])
    ensures Greedy([]) == []
  {
    hide Place;
    assert values[..i + 1][..i] == values[..i];
  }

  lemma PlaceOpen(batches: seq<seq<string>>, batch: seq<string>, v: string)
    ensures Place(batches + [batch], v) ==
            if Fits(batch + [v]) then batches + [batch + [v]] else batches + [batch] + [[v]]
    ensures Place([], v) == [[v]]
  {
    hide Fits;
    assert (batches + [batch])[..|batches|] == batches;
  }

  lemma NextFits(batch: seq<string>, v: string)
    ensures Cost(batch + [v]) == Cost(batch) + |v| + 3 && Cost([v]) == |v| + 3 && Cost([]) == 0
    ensures Fits(batch + [v]) <==> |batch| < MAX_BATCH_FILES && Cost(batch) + |v| + 3 <= MAX_COMMAND_CHARS
  {
    CostConcat(batch, [v]);
  }

  /** `batched`: the open batch and its length grow, and are closed when the next name does not fit. */
  method Batched(values: seq<string>) returns (batches: seq<seq<string>>)
    ensures batches == Greedy(values)
    ensures LegalSplit(batches, values)
    ensures forall b :: b in batches ==> b != [] && (|b| == 1 || (|b| <= 120 && Cost(b) <= 28000))
    ensures forall split :: LegalSplit(split, values) ==> |batches| <= |split|
  {
    batches := [];
    var batch: seq<string>, length: nat := [], 0;
    for i := 0 to |values|
      invariant length == Cost(batch)
      invariant i > 0 ==> batch != []
      invariant i == 0 ==> batches == [] && batch == []
      invariant i > 0 ==> batches + [batch] == Greedy(values[..i])
    {
      hide Greedy, Place, Cost, Fits;
      var value := values[i];
      var extra := |value| + 3;
      GreedyStep(values, i);
      PlaceOpen(batches, batch, value);
      NextFits(batch, value);
      if batch != [] && (|batch| >= MAX_BATCH_FILES || length + extra > MAX_COMMAND_CHARS) {
        batches := batches + [batch];
        batch := [];
        length := 0;
      }
      assert [] + [value] == [value];
      batch := batch + [value];
      length := length + extra;
    }
    hide Greedy, LegalSplit;
    assert values[..|values|] == values;
    if batch != [] {
      batches := batches + [batch];
    }
    GreedySplits(values);
    forall split | LegalSplit(split, values) ensures |batches| <= |split| {
      GreedyIsOptimal(values, split);
    }
  }

  lemma PlaceSplits(g: seq<seq<string>>, values: seq<string>, v: string)
    requires LegalSplit(g, values)
    ensures LegalSplit(Place(g, v), values + [v]) && Place(g, v) != []
  {
    hide Cost;
    if g == [] || !Fits(g[|g| - 1] + [v]) {
      FlattenLast(g, [v]);
    } else {
      var before, last := g[..|g| - 1], g[|g| - 1];
      assert g == before + [last];
      assert forall b :: b in before ==> b in g;
      FlattenLast(before, last);
      FlattenLast(before, last + [v]);
      assert Flatten(before) + (last + [v]) == values + [v];
    }
  }

  /** Nothing is lost or reordered, and every batch obeys both limits unless it is a single name. */
  lemma {:induction false} GreedySplits(values: seq<string>)
    ensures LegalSplit(Greedy(values), values)
    ensures values != [] ==> Greedy(values) != []
  {
    hide Place;
    if values != [] {
      var init, v := values[..|values| - 1], values[|values| - 1];
      GreedySplits(init);
      PlaceSplits(Greedy(init), init, v);
      assert values == init + [v];
    }
  }

  /** Of two tails of one list the shorter costs no more and, with a name added, fits when the longer does. */
  lemma ShorterTailFits(whole: seq<string>, short: seq<string>, long: seq<string>, v: string)
    requires |short| <= |long| <= |whole|
    requires whole[|whole| - |short|..] == short && whole[|whole| - |long|..] == long
    requires Fits(long + [v])
    ensures Fits(short + [v])
  {
    var extra := long[..|long| - |short|];
    assert long == extra + short;
    assert long + [v] == extra + (short + [v]);
    CostConcat(extra, short + [v]);
  }

  lemma LastIsTail(batches: seq<seq<string>>)
    requires batches != []
    ensures var f, last := Flatten(batches), batches[|batches| - 1];
            |last| <= |f| && f[|f| - |last|..] == last
  {
  }

  lemma {:induction false} EmptyFlatten(batches: seq<seq<string>>)
    requires LegalSplit(batches, [])
    ensures batches == []
  {
    if batches != [] {
      assert batches[|batches| - 1] in batches;
      LastIsTail(batches);
    }
  }

  /** Greedy stays ahead: fewer batches than the other split, or as many with a last one no longer. */
  ghost predicate Ahead(g: seq<seq<string>>, s: seq<seq<string>>) {
    |g| < |s| || (|g| == |s| && g != [] && |g[|g| - 1]| <= |s[|s| - 1]|)
  }

  /** One more name: the other split opens a new batch for it. */
  lemma AheadOpening(g: seq<seq<string>>, before: seq<seq<string>>, v: string)
    requires Ahead(g, before) || (g == [] && before == [])
    ensures Ahead(Place(g, v), before + [[v]])
  {
  }

  /** One more name: the other split puts it into its last batch. */
  lemma AheadExtending(g: seq<seq<string>>, before: seq<seq<string>>, shorter: seq<string>, v: string)
    requires Ahead(g, before + [shorter]) && g != []
    requires |g| == |before| + 1 ==> Fits(g[|g| - 1] + [v])
    ensures Ahead(Place(g, v), before + [shorter + [v]])
  {
  }

  lemma PrefixIsLegal(shorter: seq<string>, v: string)
    requires shorter != [] && Legal(shorter + [v])
    ensures Legal(shorter) && Fits(shorter + [v])
  {
    CostConcat(shorter, [v]);
  }

  lemma {:induction false} GreedyStaysAhead(values: seq<string>, split: seq<seq<string>>)
    requires values != [] && LegalSplit(split, values)
    ensures split != [] && Ahead(Greedy(values), split)
    decreases |values|
  {
    hide Place, Legal, Fits, Cost;
    assert split != [];
    var n := |split| - 1;
    var before, last := split[..n], split[n];
    assert split == before + [last];
    assert last in split && forall b :: b in before ==> b in split;
    assert last != [] by {
      LegalNotEmpty(last);
    }
    var init, v := values[..|values| - 1], values[|values| - 1];
    var shorter := last[..|last| - 1];
    assert values == Flatten(before) + last;
    assert last == shorter + [v];
    assert init == Flatten(before) + shorter;
    var g := Greedy(init);
    GreedySplits(init);
    if shorter == [] {
      assert last == [v] && init == Flatten(before);
      if init == [] {
        EmptyFlatten(before);
      } else {
        GreedyStaysAhead(init, before);
      }
      AheadOpening(g, before, v);
    } else {
      var rest := before + [shorter];
      FlattenLast(before, shorter);
      PrefixIsLegal(shorter, v);
      GreedyStaysAhead(init, rest);
      if |g| == |rest| {
        LastIsTail(g);
        LastIsTail(rest);
        ShorterTailFits(init, g[|g| - 1], shorter, v);
      }
      AheadExtending(g, before, shorter, v);
    }
  }

  lemma LegalNotEmpty(batch: seq<string>)
    requires Legal(batch)
    ensures batch != []
  {
  }

  /** No in-order split into legal batches uses fewer batches than the greedy one. */
  lemma GreedyIsOptimal(values: seq<string>, split: seq<seq<string>>)
    requires LegalSplit(split, values)
    ensures |Greedy(values)| <= |split|
  {
    if values != [] {
      GreedyStaysAhead(values, split);
    }
  }
}
