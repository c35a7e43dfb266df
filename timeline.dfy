/** The timeline view: the memories newest first, and the confirmation
    that guards a deletion. */
module Timeline {
  import opened Js
  import opened Calendar
  import opened Types
  import opened Sorting

  /** The comparator `(a, b) => time(b) - time(a)` sorts ascending on the
      negated date. */
  function NewestFirstKey(m: Memory): int {
    -DayNumber(m.date)
  }

  /** `[...memories].sort(...)`: a sorted copy. */
  function SortedMemories(memories: seq<Memory>): seq<Memory> {
    SortBy(memories, NewestFirstKey)
  }

  /** `[...memories].sort(...)`: the memories are spread into a fresh array,
      which is sorted in place; the caller's array is only read. */
  method SortCopy(memories: array<Memory>) returns (sorted: array<Memory>)
    ensures fresh(sorted)
    ensures sorted[..] == SortedMemories(memories[..])
  {
    sorted := new Memory[memories.Length](i requires 0 <= i < memories.Length reads memories => memories[i]);
    assert sorted[..] == memories[..];
    InsertionSort(sorted, NewestFirstKey);
  }

  /** Newest first, and the same memories as the input. */
  lemma SortedMemoriesOrder(memories: seq<Memory>)
    ensures var r := SortedMemories(memories);
      && multiset(r) == multiset(memories) && |r| == |memories|
      && forall i, j :: 0 <= i < j < |r| ==> DayNumber(r[i].date) >= DayNumber(r[j].date)
  {
    var r := SortedMemories(memories);
    assert |multiset(r)| == |multiset(memories)|;
    SortBySorted(memories, NewestFirstKey);
    forall i, j | 0 <= i < j < |r| ensures DayNumber(r[i].date) >= DayNumber(r[j].date) {
      assert NewestFirstKey(r[i]) <= NewestFirstKey(r[j]);
    }
  }

  /** Memories of the same date keep their input order: those on day
      number `n` appear in the sorted copy as they did in the input. */
  lemma SortedMemoriesStable(memories: seq<Memory>, n: int)
    ensures WithKey(SortedMemories(memories), NewestFirstKey, -n) == WithKey(memories, NewestFirstKey, -n)
  {
    SortByStable(memories, NewestFirstKey, -n);
  }

  /** `handleDelete(id, title)`: the id passed to `onDelete`, if any. The
      user's answer to the confirmation and the presence of the optional
      callback are parameters. */
  function DeleteRequest(id: string, confirmed: bool, hasHandler: bool): Option<string> {
    if confirmed && hasHandler then Some(id) else None
  }

  /** `确定要删除「<title>」吗？` */
  function ConfirmPrompt(title: string): string {
    "确定要删除「" + title + "」吗？"
  }

  /** Deletion is requested only after confirmation, and then for that
      memory's id. */
  lemma DeleteOnlyAfterConfirm(id: string, confirmed: bool, hasHandler: bool)
    ensures DeleteRequest(id, confirmed, hasHandler).Some? <==> confirmed && hasHandler
    ensures DeleteRequest(id, confirmed, hasHandler).Some? ==> DeleteRequest(id, confirmed, hasHandler).value == id
  {
  }
}
