/**
 * Ledger rows (transactions) as the classification pipeline sees them, and `addTag`,
 * the one shared mutation helper (src/mutation-functions.ts).
 */
module Rows {
  import opened Wrappers
  import opened Seqs

  /** A date as date-fns `parse` returns it: a calendar day (a day number), or Invalid Date. */
  datatype ParsedDate = Day(day: int) | InvalidDate

  /** The per-pass scratch object `row.sharedPluginData`; `split` false stands for "not set". */
  datatype SharedPluginData = SharedPluginData(parsedDate: Option<ParsedDate>, split: bool, amazonCategory: Option<string>)

  const EmptySharedPluginData := SharedPluginData(None, false, None)

  /**
   * One transaction. Amounts are integer cents (credits positive); optional fields are
   * `None` when the property is absent from the object.
   */
  datatype Row = Row(
    id: string,
    amount: int,
    date: string,
    originalPayee: string,
    payee: Option<string>,
    note: Option<string>,
    categoryTitle: Option<string>,
    tags: Option<seq<string>>,
    sharedPluginData: Option<SharedPluginData>,
    splitItems: Option<seq<Row>>)

  /** JavaScript truthiness of an optional string: present and not empty. */
  predicate Truthy(s: Option<string>) {
    s.Some? && s.value != ""
  }

  /** `addTag(row, tag)`: push `tag` onto `row.tags` unless it is already there. */
  function AddTag(row: Row, tag: string): (r: Row)
    requires row.tags.Some?
    ensures r.tags.Some? && tag in r.tags.value
    ensures tag in row.tags.value ==> r == row
    ensures tag !in row.tags.value ==> r.tags.value == row.tags.value + [tag]
    ensures r == row.(tags := r.tags)
    ensures NoDup(row.tags.value) ==> NoDup(r.tags.value)
  {
    if tag in row.tags.value then row else row.(tags := Some(row.tags.value + [tag]))
  }

  /** `addTag` once for each tag of `ts`, in order. */
  function AddTags(row: Row, ts: seq<string>): Row
    requires row.tags.Some?
    decreases |ts|
  {
    if ts == [] then row else AddTag(AddTags(row, ts[..|ts| - 1]), ts[|ts| - 1])
  }

  lemma {:induction false} AddTagIdempotent(row: Row, tag: string)
    requires row.tags.Some?
    ensures AddTag(AddTag(row, tag), tag) == AddTag(row, tag)
  {
  }

  /**
   * What adding tags in order does: the tags present keep their place, every tag of
   * `ts` ends up present, nothing outside `ts` is added, a duplicate-free list stays
   * duplicate-free, and only `tags` changes.
   */
  lemma {:induction false} AddTagsEffect(row: Row, ts: seq<string>)
    requires row.tags.Some?
    ensures AddTags(row, ts).tags.Some?
    ensures |AddTags(row, ts).tags.value| >= |row.tags.value|
    ensures AddTags(row, ts).tags.value[..|row.tags.value|] == row.tags.value
    ensures forall t :: t in ts ==> t in AddTags(row, ts).tags.value
    ensures forall t :: t in AddTags(row, ts).tags.value ==> t in row.tags.value || t in ts
    ensures NoDup(row.tags.value) ==> NoDup(AddTags(row, ts).tags.value)
    ensures AddTags(row, ts) == row.(tags := AddTags(row, ts).tags)
    decreases |ts|
  {
    if ts != [] {
      var init := ts[..|ts| - 1];
      AddTagsEffect(row, init);
      forall t | t in ts ensures t in AddTags(row, ts).tags.value {
        if t != ts[|ts| - 1] {
          assert t in init;
        }
      }
    }
  }

  /**
   * The tags appended by `AddTags` are the tags of `ts` not yet present, in the order of
   * `ts`: the new part of the list is a subsequence of `ts`.
   */
  lemma {:induction false} AddTagsAppendInOrder(row: Row, ts: seq<string>)
    requires row.tags.Some?
    ensures AddTags(row, ts).tags.Some? && |AddTags(row, ts).tags.value| >= |row.tags.value|
    ensures IsSubsequence(AddTags(row, ts).tags.value[|row.tags.value|..], ts)
    decreases |ts|
  {
    AddTagsEffect(row, ts);
    var n := |row.tags.value|;
    if ts != [] {
      var init := ts[..|ts| - 1];
      var x := ts[|ts| - 1];
      AddTagsAppendInOrder(row, init);
      var before := AddTags(row, init).tags.value;
      AddTagsEffect(row, init);
      assert ts == init + [x];
      if x in before {
        SubsequenceSkip(before[n..], init, x);
      } else {
        assert AddTags(row, ts).tags.value[n..] == before[n..] + [x];
        SubsequenceAppend(before[n..], init, x);
      }
    }
  }
}
