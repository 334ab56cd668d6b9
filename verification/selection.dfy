/** Row selection as kept by the terminals and devices tables: a list of ids
    toggled one at a time, and a select-all button that compares counts
    (`handleSelectTerminal`/`handleSelectAll` in `src/app/terminals/page.tsx`,
    `handleSelectDevice`/`handleSelectAll` in `src/app/devices/page.tsx`). */
module Selection {

  /** `prev.filter(x => x !== id)`. */
  function RemoveAll(xs: seq<string>, id: string): (r: seq<string>)
    ensures |r| <= |xs|
    ensures forall x :: x in r <==> x in xs && x != id
    decreases |xs|
  {
    if |xs| == 0 then []
    else if xs[0] == id then RemoveAll(xs[1..], id)
    else [xs[0]] + RemoveAll(xs[1..], id)
  }

  /** Removing an absent id changes nothing. */
  lemma {:induction false} RemoveAbsent(xs: seq<string>, id: string)
    requires id !in xs
    ensures RemoveAll(xs, id) == xs
    decreases |xs|
  {
    if |xs| > 0 {
      RemoveAbsent(xs[1..], id);
      assert [xs[0]] + xs[1..] == xs;
    }
  }

  /** Removal distributes over appending a single id. */
  lemma {:induction false} RemoveSnoc(xs: seq<string>, x: string, id: string)
    ensures RemoveAll(xs + [x], id) == RemoveAll(xs, id) + (if x == id then [] else [x])
    decreases |xs|
  {
    if |xs| == 0 {
      assert xs + [x] == [x];
    } else {
      assert (xs + [x])[1..] == xs[1..] + [x];
      RemoveSnoc(xs[1..], x, id);
    }
  }

  /** Toggle one id: drop every occurrence when selected, else append it. */
  function Toggle(selected: seq<string>, id: string): (r: seq<string>)
    ensures id in r <==> id !in selected
    ensures forall x :: x != id ==> (x in r <==> x in selected)
    ensures id !in selected ==> r == selected + [id]
    ensures id in selected ==> r == RemoveAll(selected, id)
  {
    if id in selected then RemoveAll(selected, id) else selected + [id]
  }

  /** Toggling twice restores membership of every id; from an unselected id it
      restores the exact list. */
  lemma ToggleTwice(selected: seq<string>, id: string)
    ensures forall x :: x in Toggle(Toggle(selected, id), id) <==> x in selected
    ensures id !in selected ==> Toggle(Toggle(selected, id), id) == selected
  {
    if id !in selected {
      RemoveSnoc(selected, id, id);
      RemoveAbsent(selected, id);
    }
  }

  /** `handleSelectAll` once the page has rows: clear when the selection has as
      many entries as the page has rows, else select exactly the page's ids. */
  function SelectAll(selected: seq<string>, rowIds: seq<string>): (r: seq<string>)
    ensures |selected| == |rowIds| ==> r == []
    ensures |selected| != |rowIds| ==> r == rowIds
  {
    if |selected| == |rowIds| then [] else rowIds
  }

  /** The test counts entries and does not look at them: select-all ends with
      every row selected exactly when the counts differ (or the page is empty),
      and a selection of the page's size is dropped whole, even one left over
      from another page that holds none of these rows. */
  lemma SelectAllComparesCounts(selected: seq<string>, rowIds: seq<string>)
    ensures (forall x :: x in rowIds ==> x in SelectAll(selected, rowIds))
            <==> |selected| != |rowIds| || rowIds == []
    ensures |selected| == |rowIds| ==> forall x :: x in selected ==> x !in SelectAll(selected, rowIds)
  {
    if |selected| == |rowIds| && rowIds != [] {
      assert rowIds[0] !in SelectAll(selected, rowIds);
    }
  }

  predicate Distinct(xs: seq<string>) {
    forall i, j :: 0 <= i < j < |xs| ==> xs[i] != xs[j]
  }

  function Elements(xs: seq<string>): set<string> {
    set x | x in xs
  }

  lemma {:induction false} DistinctCard(xs: seq<string>)
    requires Distinct(xs)
    ensures |Elements(xs)| == |xs|
    decreases |xs|
  {
    if |xs| > 0 {
      DistinctCard(xs[1..]);
      assert Elements(xs) == {xs[0]} + Elements(xs[1..]);
      assert xs[0] !in Elements(xs[1..]) by {
        forall k | 0 <= k < |xs[1..]| ensures xs[1..][k] != xs[0] {
          assert xs[1..][k] == xs[k + 1];
        }
      }
    }
  }

  lemma ElementsCardBound(xs: seq<string>)
    ensures |Elements(xs)| <= |xs|
    decreases |xs|
  {
    if |xs| > 0 {
      ElementsCardBound(xs[1..]);
      assert Elements(xs) == {xs[0]} + Elements(xs[1..]);
    }
  }

  /** When the selection only ever holds ids of the current page, without
      repeats, comparing counts is the same as asking whether every row is
      selected. */
  lemma CountsMatchSetsOnOnePage(selected: seq<string>, rowIds: seq<string>)
    requires Distinct(selected) && Distinct(rowIds)
    requires forall x :: x in selected ==> x in rowIds
    ensures |selected| == |rowIds| <==> forall x :: x in rowIds ==> x in selected
  {
    DistinctCard(selected);
    DistinctCard(rowIds);
    var a, b := Elements(selected), Elements(rowIds);
    assert a <= b;
    if |selected| == |rowIds| {
      if a != b {
        var y :| y in b && y !in a;
        SubsetCard(a, b - {y});
        assert false;
      }
      forall x | x in rowIds ensures x in selected {
        assert x in b;
      }
    }
    if forall x :: x in rowIds ==> x in selected {
      forall x | x in b ensures x in a {
      }
      assert a == b;
    }
  }

  lemma SubsetCard(a: set<string>, b: set<string>)
    requires a <= b
    ensures |a| <= |b|
    decreases |a|
  {
    if a != {} {
      var x :| x in a;
      SubsetCard(a - {x}, b - {x});
    }
  }
}
