/**
 * What a matching rule does to a row: the `updateRow` of `SimplePlugin` (a no-op) and of
 * its four subclasses, which add labels as tags or set the category title, the payee or
 * the note to the rule's `newValue`.
 */
module EffectPlugins {
  import opened Wrappers
  import opened Seqs
  import opened Rows

  /** A rule's `newValue`: absent, a string, or the list of labels a label rule adds. */
  datatype NewValue = NoValue | Value(text: string) | Labels(labels: seq<string>)

  /** `if (rule.newValue)`: a non-empty string, or any array (an empty array is truthy too). */
  predicate TruthyValue(v: NewValue) {
    (v.Value? && v.text != "") || v.Labels?
  }

  /** Which class's `updateRow` a plugin runs. */
  datatype Effect = Base | Label | Category | Name | Note

  /** The `name` of each concrete plugin; it selects the plugin's rule file. */
  function PluginName(e: Effect): string
    requires e != Base
  {
    match e
    case Label => "Label"
    case Category => "Category"
    case Name => "Name"
    case Note => "Note"
  }

  /** A `newValue` of the type the plugin's `updateRow` takes: labels for the label plugin, a string otherwise. */
  predicate Fits(e: Effect, v: NewValue) {
    v.NoValue? || e == Base || (e == Label <==> v.Labels?)
  }

  /** The row after `updateRow(row, newValue)`. */
  function UpdateRow(e: Effect, row: Row, v: NewValue): (r: Row)
    requires Fits(e, v) && TruthyValue(v)
    requires e == Label ==> row.tags.Some?
  {
    match e
    case Base => row
    case Label => AddTags(row, v.labels)
    case Category => row.(categoryTitle := Some(v.text))
    case Name => row.(payee := Some(v.text))
    case Note => row.(note := Some(v.text))
  }

  /** The base `updateRow` changes nothing. */
  lemma BaseUpdateIsNoOp(row: Row, v: NewValue)
    requires TruthyValue(v)
    ensures UpdateRow(Base, row, v) == row
  {
  }

  /**
   * The category, name and note plugins set their one field to the new value and leave
   * every other field as it was.
   */
  lemma FieldUpdates(row: Row, v: NewValue)
    requires v.Value? && v.text != ""
    ensures UpdateRow(Category, row, v).categoryTitle == Some(v.text)
    ensures UpdateRow(Category, row, v) == row.(categoryTitle := UpdateRow(Category, row, v).categoryTitle)
    ensures UpdateRow(Name, row, v).payee == Some(v.text)
    ensures UpdateRow(Name, row, v) == row.(payee := UpdateRow(Name, row, v).payee)
    ensures UpdateRow(Note, row, v).note == Some(v.text)
    ensures UpdateRow(Note, row, v) == row.(note := UpdateRow(Note, row, v).note)
  {
  }

  /** A label rule leaves every label present, keeps the old tags first, adds nothing else and no duplicate, and only touches tags. */
  lemma LabelUpdate(row: Row, labels: seq<string>)
    requires row.tags.Some?
    ensures var r := UpdateRow(Label, row, Labels(labels));
      && r.tags.Some?
      && (forall t :: t in labels ==> t in r.tags.value)
      && |r.tags.value| >= |row.tags.value| && r.tags.value[..|row.tags.value|] == row.tags.value
      && IsSubsequence(r.tags.value[|row.tags.value|..], labels)
      && (forall t :: t in r.tags.value ==> t in row.tags.value || t in labels)
      && (NoDup(row.tags.value) ==> NoDup(r.tags.value))
      && r == row.(tags := r.tags)
  {
    AddTagsEffect(row, labels);
    AddTagsAppendInOrder(row, labels);
  }

  /** Adding tags that are all present already changes nothing. */
  lemma {:induction false} AddTagsPresent(row: Row, ts: seq<string>)
    requires row.tags.Some?
    requires forall t :: t in ts ==> t in row.tags.value
    ensures AddTags(row, ts) == row
    decreases |ts|
  {
    if ts != [] {
      AddTagsPresent(row, ts[..|ts| - 1]);
    }
  }

  /** Applying the same update twice is applying it once, for every plugin. */
  lemma UpdateRowIdempotent(e: Effect, row: Row, v: NewValue)
    requires Fits(e, v) && TruthyValue(v)
    requires e == Label ==> row.tags.Some?
    ensures e == Label ==> UpdateRow(e, row, v).tags.Some?
    ensures UpdateRow(e, UpdateRow(e, row, v), v) == UpdateRow(e, row, v)
  {
    if e == Label {
      AddTagsEffect(row, v.labels);
      AddTagsPresent(AddTags(row, v.labels), v.labels);
    }
  }
}
