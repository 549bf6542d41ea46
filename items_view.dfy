/**
 * `itemsToShow`: the part of the todo list shown under the current tab.
 * A record is shown when `Boolean(t?.completed)` equals the tab's flag; a
 * missing `completed` (or a record that is not an object) counts as false.
 */
module ItemsView {
  import opened Json

  /** `Boolean(t?.completed)` */
  predicate IsCompleted(t: Value) {
    TruthyProp(PropertyOf(t, "completed"))
  }

  /**
   * `list.filter(t => Boolean(t?.completed) === viewCompleted)`: each record
   * of `list` is kept, as many times as it occurs, exactly when its
   * completion matches `viewCompleted`.
   */
  function Filter(list: seq<Value>, viewCompleted: bool): (r: seq<Value>)
    ensures forall t :: multiset(r)[t] == if IsCompleted(t) == viewCompleted then multiset(list)[t] else 0
    ensures |r| <= |list|
  {
    if list == [] then []
    else
      var rest := Filter(list[1..], viewCompleted);
      assert list == [list[0]] + list[1..];
      if IsCompleted(list[0]) == viewCompleted then [list[0]] + rest else rest
  }

  /**
   * The records shown for the flag `viewCompleted`, given whatever value the
   * list slot holds: a value that is not an array shows nothing.
   */
  function ItemsToShow(todoList: Value, viewCompleted: bool): (r: seq<Value>)
    ensures !todoList.Arr? ==> r == []
    ensures forall t :: t in r <==> todoList.Arr? && t in todoList.elems && IsCompleted(t) == viewCompleted
    ensures todoList.Arr? ==>
      forall t :: multiset(r)[t] == if IsCompleted(t) == viewCompleted then multiset(todoList.elems)[t] else 0
    ensures todoList.Arr? ==> IsSubsequence(r, todoList.elems)
  {
    if todoList.Arr? then
      FilterKeepsOrder(todoList.elems, viewCompleted);
      Filter(todoList.elems, viewCompleted)
    else []
  }

  /** `r` keeps some of the elements of `s`, in their order in `s`. */
  predicate IsSubsequence(r: seq<Value>, s: seq<Value>)
    decreases |s|
  {
    if s == [] then r == []
    else (r != [] && r[0] == s[0] && IsSubsequence(r[1..], s[1..])) || IsSubsequence(r, s[1..])
  }

  /** The view keeps the list's order. */
  lemma {:induction false} FilterKeepsOrder(list: seq<Value>, viewCompleted: bool)
    ensures IsSubsequence(Filter(list, viewCompleted), list)
  {
    if list != [] {
      FilterKeepsOrder(list[1..], viewCompleted);
      var rest := Filter(list[1..], viewCompleted);
      if IsCompleted(list[0]) == viewCompleted {
        assert ([list[0]] + rest)[1..] == rest;
      }
    }
  }

  /**
   * The completed and the incomplete view partition the list: no record is
   * in both, and together they hold every record exactly as often as the
   * list does, each in list order.
   */
  lemma {:induction false} ViewsPartition(list: seq<Value>)
    ensures forall t :: !(t in Filter(list, true) && t in Filter(list, false))
    ensures multiset(Filter(list, true)) + multiset(Filter(list, false)) == multiset(list)
    ensures |Filter(list, true)| + |Filter(list, false)| == |list|
    ensures IsSubsequence(Filter(list, true), list) && IsSubsequence(Filter(list, false), list)
  {
    var yes, no := Filter(list, true), Filter(list, false);
    forall t ensures !(t in yes && t in no) {
      assert t in yes ==> multiset(yes)[t] > 0;
      assert t in no ==> multiset(no)[t] > 0;
    }
    forall t ensures (multiset(yes) + multiset(no))[t] == multiset(list)[t] {
    }
    assert multiset(yes) + multiset(no) == multiset(list);
    assert |multiset(yes)| + |multiset(no)| == |multiset(list)|;
    FilterKeepsOrder(list, true);
    FilterKeepsOrder(list, false);
  }
}
