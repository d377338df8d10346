/** The size-class tables `SizeToInt` and `IntToSize`.

    The tables themselves are not part of this model; they are modelled as
    one ordered list of size labels whose positions are the ordinals, so the
    two lookups are inverse to each other whenever the labels are distinct. */
module SizeTables {
  import opened Wrappers

  /** The label the size rule substitutes for a gas giant parent. */
  const LargeLabel: string := "Large"

  /** `labels[i]` is the size label with ordinal `i`. */
  datatype SizeTable = SizeTable(labels: seq<string>)

  /** One ordinal per label: no label is listed twice. */
  predicate Distinct(t: SizeTable) {
    forall i, j :: 0 <= i < j < |t.labels| ==> t.labels[i] != t.labels[j]
  }

  /** A well-formed table: distinct labels, and "Large" is one of them. */
  predicate Valid(t: SizeTable) {
    Distinct(t) && LargeLabel in t.labels
  }

  /** `SizeToInt[label]`: the ordinal of a label; `None` where Python raises `KeyError`. */
  function SizeToInt(t: SizeTable, name: string): (r: Option<nat>)
    ensures r.None? <==> name !in t.labels
    ensures r.Some? ==> r.value < |t.labels| && t.labels[r.value] == name
    ensures r.Some? ==> forall j :: 0 <= j < r.value ==> t.labels[j] != name
  {
    IndexFrom(t.labels, name, 0)
  }

  /** First position at or after `from` holding `name`. */
  function IndexFrom(labels: seq<string>, name: string, from: nat): (r: Option<nat>)
    requires from <= |labels|
    requires name !in labels[..from]
    ensures r.None? <==> name !in labels
    ensures r.Some? ==> from <= r.value < |labels| && labels[r.value] == name
    ensures r.Some? ==> forall j :: 0 <= j < r.value ==> labels[j] != name
    decreases |labels| - from
  {
    if from == |labels| then
      assert labels[..from] == labels;
      None
    else if labels[from] == name then
      Some(from)
    else
      assert labels[..from + 1] == labels[..from] + [labels[from]];
      IndexFrom(labels, name, from + 1)
  }

  /** `IntToSize[i]`: the label with ordinal `i`. */
  function IntToSize(t: SizeTable, i: nat): (name: string)
    requires i < |t.labels|
    ensures name in t.labels
  {
    t.labels[i]
  }

  /** Every label of the table survives the trip through its ordinal. */
  lemma LabelRoundTrip(t: SizeTable, name: string)
    requires name in t.labels
    ensures SizeToInt(t, name).Some?
    ensures IntToSize(t, SizeToInt(t, name).value) == name
  {
  }

  /** In a table with distinct labels every ordinal survives the trip
      through its label: together with `LabelRoundTrip` the two lookups form
      a bijection. */
  lemma OrdinalRoundTrip(t: SizeTable, i: nat)
    requires Distinct(t)
    requires i < |t.labels|
    ensures SizeToInt(t, IntToSize(t, i)) == Some(i)
  {
  }

  /** The ordinal substituted for a gas giant parent. */
  function LargeOrdinal(t: SizeTable): (n: nat)
    requires Valid(t)
    ensures n < |t.labels| && t.labels[n] == LargeLabel
  {
    SizeToInt(t, LargeLabel).value
  }
}
