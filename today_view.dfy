/**
 * The list logic of the today view (src/app/today/TodayView.tsx): grouping
 * the plan's items by context, the progress counters, and the optimistic
 * updates of an item when its task is completed or skipped.
 */
module TodayView {
  import opened Wrappers
  import opened Types
  import opened Sorting

  // ==========================================================================
  // groupByContext
  // ==========================================================================

  /** A labelled group of items, `{ label, items }` in the original. */
  datatype Group = Group(name: string, items: seq<PlanItem>)

  /** `item.context_group || 'Anywhere'`. */
  function LabelOf(item: PlanItem): (l: string)
    ensures l != ""
    ensures item.contextGroup.None? ==> l == "Anywhere"
  {
    if item.contextGroup.Some? && item.contextGroup.value != "" then item.contextGroup.value else "Anywhere"
  }

  /** The position in ['At Work', 'At Home', 'Errands', 'Anywhere'], 99 for any other label. */
  function Rank(name: string): (r: int)
    ensures r == 99 <==> name !in ["At Work", "At Home", "Errands", "Anywhere"]
  {
    if name == "At Work" then 0
    else if name == "At Home" then 1
    else if name == "Errands" then 2
    else if name == "Anywhere" then 3
    else 99
  }

  function GroupKey(g: Group): SortKey { SortKey(Rank(g.name), 0, 0) }

  /** The labels of the items in order of first appearance, as the Map keeps its keys. */
  function LabelsInOrder(items: seq<PlanItem>): (ls: seq<string>)
    ensures Distinct(ls)
    ensures forall l :: l in ls <==> exists i :: 0 <= i < |items| && LabelOf(items[i]) == l
  {
    if items == [] then []
    else
      var init := items[..|items| - 1];
      var p := LabelsInOrder(init);
      var l := LabelOf(items[|items| - 1]);
      assert forall i :: 0 <= i < |init| ==> init[i] == items[i];
      if l in p then p else p + [l]
  }

  /** The items with a label, in input order. */
  function WithLabel(items: seq<PlanItem>, l: string): (r: seq<PlanItem>)
    ensures |r| <= |items|
    ensures forall x :: x in r <==> x in items && LabelOf(x) == l
  {
    if items == [] then []
    else
      var init := items[..|items| - 1];
      assert items == init + [items[|items| - 1]];
      WithLabel(init, l) + (if LabelOf(items[|items| - 1]) == l then [items[|items| - 1]] else [])
  }

  /** `Array.from(map.entries())`: the groups in order of first appearance. */
  function Entries(items: seq<PlanItem>): (gs: seq<Group>)
    ensures |gs| == |LabelsInOrder(items)|
    ensures forall k :: 0 <= k < |gs| ==> gs[k] == Group(LabelsInOrder(items)[k], WithLabel(items, LabelsInOrder(items)[k]))
  {
    var labels := LabelsInOrder(items);
    seq(|labels|, k requires 0 <= k < |labels| => Group(labels[k], WithLabel(items, labels[k])))
  }

  function Names(groups: seq<Group>): (ls: seq<string>)
    ensures |ls| == |groups|
    ensures forall k :: 0 <= k < |groups| ==> ls[k] == groups[k].name
  {
    seq(|groups|, k requires 0 <= k < |groups| => groups[k].name)
  }

  /** A label that no item carries has no items. */
  lemma WithLabelAbsent(items: seq<PlanItem>, name: string)
    requires name !in LabelsInOrder(items)
    ensures WithLabel(items, name) == []
  {
    if WithLabel(items, name) != [] {
      assert WithLabel(items, name)[0] in WithLabel(items, name);
    }
  }

  /** One more item: its label is appended if it is new. */
  lemma LabelsSnoc(init: seq<PlanItem>, x: PlanItem)
    ensures LabelsInOrder(init + [x])
         == if LabelOf(x) in LabelsInOrder(init) then LabelsInOrder(init) else LabelsInOrder(init) + [LabelOf(x)]
  {
    var items := init + [x];
    assert items[..|items| - 1] == init;
  }

  /** One more item joins the items with its label. */
  lemma WithLabelSnoc(init: seq<PlanItem>, x: PlanItem, l: string)
    ensures WithLabel(init + [x], l) == WithLabel(init, l) + (if LabelOf(x) == l then [x] else [])
  {
    var items := init + [x];
    assert items[..|items| - 1] == init;
  }

  /** The loop state of groupByContext after `items`: the labels seen and, per label, its items. */
  ghost predicate Filled(items: seq<PlanItem>, labels: seq<string>, buckets: map<string, seq<PlanItem>>) {
    && labels == LabelsInOrder(items)
    && (forall l :: l in buckets <==> l in labels)
    && (forall l :: l in buckets ==> buckets[l] == WithLabel(items, l))
  }

  /** One step of the loop keeps the loop state faithful. */
  lemma FilledSnoc(init: seq<PlanItem>, x: PlanItem, labels: seq<string>, buckets: map<string, seq<PlanItem>>,
                   labels': seq<string>, buckets': map<string, seq<PlanItem>>)
    requires Filled(init, labels, buckets)
    requires labels' == if LabelOf(x) in buckets then labels else labels + [LabelOf(x)]
    requires forall l :: l in buckets' <==> l in buckets || l == LabelOf(x)
    requires forall l :: l in buckets' ==>
      buckets'[l] == if l != LabelOf(x) then buckets[l] else (if l in buckets then buckets[l] else []) + [x]
    ensures Filled(init + [x], labels', buckets')
  {
    var name := LabelOf(x);
    LabelsSnoc(init, x);
    if name !in buckets {
      WithLabelAbsent(init, name);
    }
    assert labels' == LabelsInOrder(init + [x]);
    forall l | l in buckets' ensures buckets'[l] == WithLabel(init + [x], l) {
      WithLabelSnoc(init, x, l);
      if l == name {
        assert (if l in buckets then buckets[l] else []) == WithLabel(init, l);
      } else {
        assert buckets'[l] == buckets[l] == WithLabel(init, l);
      }
    }
    assert forall l :: l in buckets' <==> l in labels';
  }

  /** The entries read off a faithful loop state are the entries of the Map. */
  lemma FilledEntries(items: seq<PlanItem>, labels: seq<string>, buckets: map<string, seq<PlanItem>>)
    requires Filled(items, labels, buckets)
    ensures (forall k :: 0 <= k < |labels| ==> labels[k] in buckets)
    ensures seq(|labels|, k requires 0 <= k < |labels| && labels[k] in buckets => Group(labels[k], buckets[labels[k]])) == Entries(items)
  {
  }

  /**
   * groupByContext: the Map filled in one pass over the items, then its
   * entries sorted by the rank of their label.
   */
  method GroupByContext(items: seq<PlanItem>) returns (groups: seq<Group>)
    ensures groups == StableSort(Entries(items), GroupKey)
  {
    var labels: seq<string> := [];
    var buckets: map<string, seq<PlanItem>> := map[];
    for idx := 0 to |items|
      invariant Filled(items[..idx], labels, buckets)
    {
      var name := LabelOf(items[idx]);
      ghost var labels0, buckets0 := labels, buckets;
      if name !in buckets {
        labels := labels + [name];
        buckets := buckets[name := []];
      }
      buckets := buckets[name := buckets[name] + [items[idx]]];
      FilledSnoc(items[..idx], items[idx], labels0, buckets0, labels, buckets);
      assert items[..idx + 1] == items[..idx] + [items[idx]];
    }
    assert items[..|items|] == items;
    FilledEntries(items, labels, buckets);
    var entries := seq(|labels|, k requires 0 <= k < |labels| && labels[k] in buckets => Group(labels[k], buckets[labels[k]]));
    groups := StableSort(entries, GroupKey);
  }

  lemma EntriesFacts(items: seq<PlanItem>)
    ensures var entries := Entries(items);
      && Distinct(entries)
      && Distinct(Names(entries))
      && (forall l :: l in Names(entries) <==> exists i :: 0 <= i < |items| && LabelOf(items[i]) == l)
  {
    var entries, labels := Entries(items), LabelsInOrder(items);
    forall i, j | 0 <= i < j < |entries| ensures entries[i] != entries[j] {
      assert entries[i].name == labels[i] && entries[j].name == labels[j];
    }
    assert Names(entries) == labels;
  }

  /** The sorted groups are the entries, reordered. */
  lemma SameGroups(items: seq<PlanItem>)
    ensures var entries := Entries(items);
      var groups := StableSort(entries, GroupKey);
      && Distinct(groups)
      && (forall g :: g in groups <==> g in entries)
  {
    var entries := Entries(items);
    var groups := StableSort(entries, GroupKey);
    EntriesFacts(items);
    DistinctPermutation(entries, groups);
    forall g ensures g in groups <==> g in entries {
      assert g in groups <==> g in multiset(groups);
      assert g in entries <==> g in multiset(entries);
    }
  }

  /**
   * The groups have distinct labels, which are exactly the labels of the
   * items; each group holds exactly the items with its label, in input order;
   * groups are ordered At Work, At Home, Errands, Anywhere, then other labels,
   * which keep their order of first appearance.
   */
  lemma GroupsAreFaithful(items: seq<PlanItem>)
    ensures var groups := StableSort(Entries(items), GroupKey);
      && Distinct(Names(groups))
      && (forall l :: l in Names(groups) <==> exists i :: 0 <= i < |items| && LabelOf(items[i]) == l)
      && (forall k :: 0 <= k < |groups| ==> groups[k].items == WithLabel(items, groups[k].name))
      && (forall i, j :: 0 <= i < j < |groups| ==> Rank(groups[i].name) <= Rank(groups[j].name))
      && WithKey(groups, GroupKey, SortKey(99, 0, 0)) == WithKey(Entries(items), GroupKey, SortKey(99, 0, 0))
  {
    var entries := Entries(items);
    var groups := StableSort(entries, GroupKey);
    EntriesFacts(items);
    SameGroups(items);
    GroupsHoldTheirItems(items, entries, groups);
    GroupNamesDistinct(entries, groups);
    GroupNamesAreLabels(items, entries, groups);
    GroupsRanked(groups);
    StableSortIsStable(entries, GroupKey, SortKey(99, 0, 0));
  }

  lemma GroupsHoldTheirItems(items: seq<PlanItem>, entries: seq<Group>, groups: seq<Group>)
    requires entries == Entries(items)
    requires forall g :: g in groups <==> g in entries
    ensures forall k :: 0 <= k < |groups| ==> groups[k].items == WithLabel(items, groups[k].name)
  {
    forall k | 0 <= k < |groups| ensures groups[k].items == WithLabel(items, groups[k].name) {
      assert groups[k] in entries;
    }
  }

  lemma GroupNamesDistinct(entries: seq<Group>, groups: seq<Group>)
    requires Distinct(Names(entries)) && Distinct(groups)
    requires forall g :: g in groups <==> g in entries
    ensures Distinct(Names(groups))
  {
    forall i, j | 0 <= i < j < |groups| ensures groups[i].name != groups[j].name {
      assert groups[i] in entries && groups[j] in entries;
      var a :| 0 <= a < |entries| && entries[a] == groups[i];
      var b :| 0 <= b < |entries| && entries[b] == groups[j];
      assert a != b;
      assert Names(entries)[a] == groups[i].name && Names(entries)[b] == groups[j].name;
    }
  }

  lemma GroupNamesAreLabels(items: seq<PlanItem>, entries: seq<Group>, groups: seq<Group>)
    requires forall l :: l in Names(entries) <==> exists i :: 0 <= i < |items| && LabelOf(items[i]) == l
    requires forall g :: g in groups <==> g in entries
    ensures forall l :: l in Names(groups) <==> exists i :: 0 <= i < |items| && LabelOf(items[i]) == l
  {
    forall l ensures l in Names(groups) <==> l in Names(entries) {
      if l in Names(entries) {
        var k :| 0 <= k < |entries| && entries[k].name == l;
        assert entries[k] in groups;
      }
      if l in Names(groups) {
        var k :| 0 <= k < |groups| && groups[k].name == l;
        assert groups[k] in entries;
      }
    }
  }

  lemma GroupsRanked(groups: seq<Group>)
    requires SortedBy(groups, GroupKey)
    ensures forall i, j :: 0 <= i < j < |groups| ==> Rank(groups[i].name) <= Rank(groups[j].name)
  {
    forall i, j | 0 <= i < j < |groups| ensures Rank(groups[i].name) <= Rank(groups[j].name) {
      assert !KeyLess(GroupKey(groups[j]), GroupKey(groups[i]));
    }
  }

  /** Sum of the group sizes. */
  function TotalItems(groups: seq<Group>): nat {
    if groups == [] then 0 else |groups[0].items| + TotalItems(groups[1..])
  }

  /** Sum over labels of the number of items with that label. */
  function CountByLabel(items: seq<PlanItem>, ls: seq<string>): nat {
    if ls == [] then 0 else |WithLabel(items, ls[0])| + CountByLabel(items, ls[1..])
  }

  /** The number of times `a` occurs in `ls`. */
  function Occurrences(ls: seq<string>, a: string): nat {
    if ls == [] then 0 else (if ls[0] == a then 1 else 0) + Occurrences(ls[1..], a)
  }

  lemma {:induction false} OccursOnce(ls: seq<string>, a: string)
    requires Distinct(ls)
    ensures Occurrences(ls, a) == if a in ls then 1 else 0
  {
    if ls != [] {
      assert Distinct(ls[1..]) by {
        forall i, j | 0 <= i < j < |ls[1..]| ensures ls[1..][i] != ls[1..][j] {
          assert ls[1..][i] == ls[i + 1] && ls[1..][j] == ls[j + 1];
        }
      }
      OccursOnce(ls[1..], a);
      if ls[0] == a {
        assert a !in ls[1..] by {
          forall k | 0 <= k < |ls[1..]| ensures ls[1..][k] != a {
            assert ls[1..][k] == ls[k + 1];
          }
        }
      }
      assert forall x :: x in ls <==> x == ls[0] || x in ls[1..];
    }
  }

  lemma {:induction false} CountByLabelSnoc(init: seq<PlanItem>, x: PlanItem, ls: seq<string>)
    ensures CountByLabel(init + [x], ls) == CountByLabel(init, ls) + Occurrences(ls, LabelOf(x))
  {
    if ls != [] {
      assert (init + [x])[..|init + [x]| - 1] == init;
      CountByLabelSnoc(init, x, ls[1..]);
    }
  }

  /** Labels that are distinct and cover every item count every item once. */
  lemma {:induction false} CountByLabelIsTotal(items: seq<PlanItem>, ls: seq<string>)
    requires Distinct(ls)
    requires forall i :: 0 <= i < |items| ==> LabelOf(items[i]) in ls
    ensures CountByLabel(items, ls) == |items|
  {
    if items == [] {
      CountByLabelEmpty(ls);
    } else {
      var init, x := items[..|items| - 1], items[|items| - 1];
      assert items == init + [x];
      CountByLabelSnoc(init, x, ls);
      OccursOnce(ls, LabelOf(x));
      CountByLabelIsTotal(init, ls);
    }
  }

  lemma {:induction false} CountByLabelEmpty(ls: seq<string>)
    ensures CountByLabel([], ls) == 0
  {
    if ls != [] { CountByLabelEmpty(ls[1..]); }
  }

  lemma {:induction false} TotalIsCount(items: seq<PlanItem>, groups: seq<Group>)
    requires forall k :: 0 <= k < |groups| ==> groups[k].items == WithLabel(items, groups[k].name)
    ensures TotalItems(groups) == CountByLabel(items, Names(groups))
  {
    if groups != [] {
      assert Names(groups)[1..] == Names(groups[1..]);
      TotalIsCount(items, groups[1..]);
    }
  }

  /** Grouping puts every item into exactly one group: the group sizes add up to the number of items. */
  lemma GroupingPreservesCount(items: seq<PlanItem>)
    ensures TotalItems(StableSort(Entries(items), GroupKey)) == |items|
  {
    var groups := StableSort(Entries(items), GroupKey);
    GroupsAreFaithful(items);
    TotalIsCount(items, groups);
    CountByLabelIsTotal(items, Names(groups));
  }

  /** An item without a context group is in the 'Anywhere' group. */
  lemma MissingContextIsAnywhere(items: seq<PlanItem>, i: nat)
    requires i < |items| && items[i].contextGroup.None?
    ensures var groups := StableSort(Entries(items), GroupKey);
      exists k :: 0 <= k < |groups| && groups[k].name == "Anywhere" && items[i] in groups[k].items
  {
    var groups := StableSort(Entries(items), GroupKey);
    GroupsAreFaithful(items);
    assert LabelOf(items[i]) == "Anywhere";
    assert "Anywhere" in Names(groups);
    var k :| 0 <= k < |groups| && Names(groups)[k] == "Anywhere";
    assert items[i] in WithLabel(items, "Anywhere");
  }

  // ==========================================================================
  // Progress counters
  // ==========================================================================

  /** An item counts as done when it was completed or skipped. */
  predicate Done(item: PlanItem) { item.completed || item.skipped }

  /** `items.filter((i) => i.completed || i.skipped).length`. */
  function CompletedCount(items: seq<PlanItem>): (c: nat)
    ensures c <= |items|
  {
    if items == [] then 0 else (if Done(items[0]) then 1 else 0) + CompletedCount(items[1..])
  }

  /** The count reaches the length exactly when every item is done. */
  lemma {:induction false} CompletedCountIsLength(items: seq<PlanItem>)
    ensures CompletedCount(items) == |items| <==> forall i :: 0 <= i < |items| ==> Done(items[i])
  {
    if items != [] {
      CompletedCountIsLength(items[1..]);
      assert forall i :: 1 <= i < |items| ==> items[i] == items[1..][i - 1];
      if forall i :: 0 <= i < |items| ==> Done(items[i]) {
        assert forall i :: 0 <= i < |items[1..]| ==> Done(items[1..][i]) by {
          forall i | 0 <= i < |items[1..]| ensures Done(items[1..][i]) {
            assert items[1..][i] == items[i + 1];
          }
        }
      }
    }
  }

  /** Items that are done at least where `a`'s are count at least as many. */
  lemma {:induction false} CompletedCountMonotone(a: seq<PlanItem>, b: seq<PlanItem>)
    requires |a| == |b|
    requires forall k :: 0 <= k < |a| && Done(a[k]) ==> Done(b[k])
    ensures CompletedCount(a) <= CompletedCount(b)
  {
    if a != [] {
      assert forall k :: 0 <= k < |a[1..]| ==> a[1..][k] == a[k + 1] && b[1..][k] == b[k + 1];
      CompletedCountMonotone(a[1..], b[1..]);
    }
  }

  /** `totalCount > 0 ? (completedCount / totalCount) * 100 : 0`. */
  function Progress(items: seq<PlanItem>): real {
    if |items| > 0 then (CompletedCount(items) as real / |items| as real) * 100.0 else 0.0
  }

  /** `totalCount > 0 && completedCount === totalCount`. */
  predicate AllDone(items: seq<PlanItem>) {
    |items| > 0 && CompletedCount(items) == |items|
  }

  /** All done exactly when there are items and every one is completed or skipped. */
  lemma AllDoneMeansEveryItem(items: seq<PlanItem>)
    ensures AllDone(items) <==> items != [] && forall i :: 0 <= i < |items| ==> Done(items[i])
  {
    CompletedCountIsLength(items);
  }

  /** The fraction of a count over a larger positive total lies in [0, 1], and is 1 only for equal numbers. */
  lemma FractionBounds(c: nat, n: nat)
    requires 0 < n && c <= n
    ensures 0.0 <= c as real / n as real <= 1.0
    ensures c as real / n as real == 1.0 <==> c == n
  {
    var q, cr, nr := c as real / n as real, c as real, n as real;
    assert q * nr == cr;
    assert (q - 1.0) * nr == cr - nr;
    ProductSign(q, nr);
    ProductSign(q - 1.0, nr);
  }

  /** Multiplying by a positive number keeps the sign. */
  lemma ProductSign(a: real, b: real)
    requires b > 0.0
    ensures a < 0.0 ==> a * b < 0.0
    ensures a > 0.0 ==> a * b > 0.0
  {
  }

  /** The progress is a percentage, and it is 100 exactly when all items are done. */
  lemma ProgressBounds(items: seq<PlanItem>)
    ensures 0.0 <= Progress(items) <= 100.0
    ensures Progress(items) == 100.0 <==> AllDone(items)
  {
    if |items| > 0 {
      FractionBounds(CompletedCount(items), |items|);
    }
  }

  // ==========================================================================
  // Optimistic updates
  // ==========================================================================

  /** `items.find((i) => i.task_id === taskId)`. */
  function FindByTask(items: seq<PlanItem>, taskId: string): (r: Option<PlanItem>)
    ensures r.None? <==> forall i :: 0 <= i < |items| ==> items[i].taskId != taskId
    ensures r.Some? ==> exists i :: (0 <= i < |items| && items[i] == r.value && r.value.taskId == taskId
                                     && forall j :: 0 <= j < i ==> items[j].taskId != taskId)
  {
    if items == [] then None
    else if items[0].taskId == taskId then Some(items[0])
    else
      var r := FindByTask(items[1..], taskId);
      assert forall i :: 1 <= i < |items| ==> items[i] == items[1..][i - 1];
      if r.Some? then
        var i :| 0 <= i < |items[1..]| && items[1..][i] == r.value && r.value.taskId == taskId
                 && forall j :: 0 <= j < i ==> items[1..][j].taskId != taskId;
        assert items[i + 1] == r.value;
        assert forall j :: 0 <= j < i + 1 ==> items[j].taskId != taskId by {
          forall j | 0 <= j < i + 1 ensures items[j].taskId != taskId {
            if j > 0 { assert items[j] == items[1..][j - 1]; }
          }
        }
        r
      else
        r
  }

  /** `{ ...i, completed: true, completed_at: now }` for the items with the given id. */
  function MarkCompleted(items: seq<PlanItem>, itemId: string, now: nat): (r: seq<PlanItem>) {
    seq(|items|, k requires 0 <= k < |items| =>
      if items[k].id == itemId then items[k].(completed := true, completedAt := Some(now)) else items[k])
  }

  /** `{ ...i, completed: false, completed_at: null }` for the items with the given id. */
  function UnmarkCompleted(items: seq<PlanItem>, itemId: string): (r: seq<PlanItem>) {
    seq(|items|, k requires 0 <= k < |items| =>
      if items[k].id == itemId then items[k].(completed := false, completedAt := None) else items[k])
  }

  /** `{ ...i, skipped: true }` for the items with the given id. */
  function MarkSkipped(items: seq<PlanItem>, itemId: string): (r: seq<PlanItem>) {
    seq(|items|, k requires 0 <= k < |items| =>
      if items[k].id == itemId then items[k].(skipped := true) else items[k])
  }

  /** `{ ...i, skipped: false }` for the items with the given id. */
  function UnmarkSkipped(items: seq<PlanItem>, itemId: string): (r: seq<PlanItem>) {
    seq(|items|, k requires 0 <= k < |items| =>
      if items[k].id == itemId then items[k].(skipped := false) else items[k])
  }

  /**
   * The optimistic update of handleComplete: nothing happens without a plan
   * or without an item for the task; otherwise the item found for the task,
   * and every item sharing its id, is marked completed at `now`.
   */
  function OptimisticComplete(items: seq<PlanItem>, hasPlan: bool, taskId: string, now: nat): (r: seq<PlanItem>)
    ensures |r| == |items|
    ensures !hasPlan || FindByTask(items, taskId).None? ==> r == items
    ensures hasPlan && FindByTask(items, taskId).Some? ==>
      var id := FindByTask(items, taskId).value.id;
      forall k :: 0 <= k < |items| ==>
        if items[k].id == id then r[k] == items[k].(completed := true, completedAt := Some(now)) else r[k] == items[k]
  {
    match FindByTask(items, taskId)
    case Some(item) => if hasPlan then MarkCompleted(items, item.id, now) else items
    case None => items
  }

  /** The revert of handleComplete after a failed request. */
  function RevertComplete(items: seq<PlanItem>, hasPlan: bool, taskId: string, original: seq<PlanItem>): (r: seq<PlanItem>)
    ensures |r| == |items|
    ensures !hasPlan || FindByTask(original, taskId).None? ==> r == items
    ensures hasPlan && FindByTask(original, taskId).Some? ==>
      var id := FindByTask(original, taskId).value.id;
      forall k :: 0 <= k < |items| ==>
        if items[k].id == id then r[k] == items[k].(completed := false, completedAt := None) else r[k] == items[k]
  {
    match FindByTask(original, taskId)
    case Some(item) => if hasPlan then UnmarkCompleted(items, item.id) else items
    case None => items
  }

  /** The optimistic update of handleSkip: the found item, and every item sharing its id, is marked skipped. */
  function OptimisticSkip(items: seq<PlanItem>, hasPlan: bool, taskId: string): (r: seq<PlanItem>)
    ensures |r| == |items|
    ensures !hasPlan || FindByTask(items, taskId).None? ==> r == items
    ensures hasPlan && FindByTask(items, taskId).Some? ==>
      var id := FindByTask(items, taskId).value.id;
      forall k :: 0 <= k < |items| ==>
        if items[k].id == id then r[k] == items[k].(skipped := true) else r[k] == items[k]
  {
    match FindByTask(items, taskId)
    case Some(item) => if hasPlan then MarkSkipped(items, item.id) else items
    case None => items
  }

  /** The revert of handleSkip after a failed request. */
  function RevertSkip(items: seq<PlanItem>, hasPlan: bool, taskId: string, original: seq<PlanItem>): (r: seq<PlanItem>)
    ensures |r| == |items|
    ensures !hasPlan || FindByTask(original, taskId).None? ==> r == items
    ensures hasPlan && FindByTask(original, taskId).Some? ==>
      var id := FindByTask(original, taskId).value.id;
      forall k :: 0 <= k < |items| ==>
        if items[k].id == id then r[k] == items[k].(skipped := false) else r[k] == items[k]
  {
    match FindByTask(original, taskId)
    case Some(item) => if hasPlan then UnmarkSkipped(items, item.id) else items
    case None => items
  }

  /** The item found for the task is done after the optimistic completion, and nothing done before is undone. */
  lemma CompleteMarksDone(items: seq<PlanItem>, taskId: string, now: nat)
    requires FindByTask(items, taskId).Some?
    ensures var r := OptimisticComplete(items, true, taskId, now);
      && (forall k :: 0 <= k < |items| && items[k] == FindByTask(items, taskId).value ==> Done(r[k]))
      && CompletedCount(items) <= CompletedCount(r)
  {
    var r := OptimisticComplete(items, true, taskId, now);
    CompletedCountMonotone(items, r);
  }

  /**
   * A failed completion is undone: when no item with the found item's id was
   * completed before, completing and reverting gives back the original items.
   */
  lemma RevertCompleteRestores(items: seq<PlanItem>, taskId: string, now: nat)
    requires FindByTask(items, taskId).Some?
    requires forall k :: 0 <= k < |items| && items[k].id == FindByTask(items, taskId).value.id ==>
      !items[k].completed && items[k].completedAt.None?
    ensures RevertComplete(OptimisticComplete(items, true, taskId, now), true, taskId, items) == items
  {
    var r := RevertComplete(OptimisticComplete(items, true, taskId, now), true, taskId, items);
    assert forall k :: 0 <= k < |items| ==> r[k] == items[k];
  }

  /** The item found for the task is done after the optimistic skip, and nothing done before is undone. */
  lemma SkipMarksDone(items: seq<PlanItem>, taskId: string)
    requires FindByTask(items, taskId).Some?
    ensures var r := OptimisticSkip(items, true, taskId);
      && (forall k :: 0 <= k < |items| && items[k] == FindByTask(items, taskId).value ==> Done(r[k]))
      && CompletedCount(items) <= CompletedCount(r)
  {
    var r := OptimisticSkip(items, true, taskId);
    CompletedCountMonotone(items, r);
  }

  /** A failed skip is undone when no item with the found item's id was skipped before. */
  lemma RevertSkipRestores(items: seq<PlanItem>, taskId: string)
    requires FindByTask(items, taskId).Some?
    requires forall k :: 0 <= k < |items| && items[k].id == FindByTask(items, taskId).value.id ==> !items[k].skipped
    ensures RevertSkip(OptimisticSkip(items, true, taskId), true, taskId, items) == items
  {
    var r := RevertSkip(OptimisticSkip(items, true, taskId), true, taskId, items);
    assert forall k :: 0 <= k < |items| ==> r[k] == items[k];
  }
}
