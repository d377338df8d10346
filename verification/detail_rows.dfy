/** The atmosphere and pressure rows of the per-world property tables that
    `XmlWriter.planetdetails` and `XmlWriter.moondetails` build
    (gurpsspace/output/xmlout.py); the two methods share this code
    word for word. Numbers arrive as already formatted text, except the
    pressure, whose value decides between the two pressure rows. */
module DetailRows {
  import opened Wrappers
  import opened Text

  /** The end of every table row: a space, two backslashes, a space, a newline. */
  const RowEnd: string := " \\\\ \n"

  const AtmospherePrefix: string := "Atm. Comp. & "

  const PressurePrefix: string := "Pressure & "

  /** The unit and the separator between the pressure and its category. */
  const PressureUnit: string := " atm, "

  /** The row for a world without atmospheric pressure. */
  const NoPressureRow: string := PressurePrefix + "None" + RowEnd

  /** A component without an entry in `AtmCompAbbr`: the `KeyError` that aborts the report. */
  datatype Error = MissingAbbreviation(component: string)

  // ---------------------------------------------------------------------
  // Atmosphere composition
  // ---------------------------------------------------------------------

  /** The components whose flag is `True`, in the order of `atmcomp`. */
  function FlaggedKeys(atmcomp: seq<(string, bool)>): (keys: seq<string>)
    ensures |keys| <= |atmcomp|
    ensures forall k :: k in keys <==> (k, true) in atmcomp
  {
    if |atmcomp| == 0 then []
    else
      var rest := FlaggedKeys(atmcomp[1..]);
      assert forall p :: p in atmcomp <==> p == atmcomp[0] || p in atmcomp[1..];
      if atmcomp[0].1 then [atmcomp[0].0] + rest else rest
  }

  /** Filtering a concatenation filters each part, in order: the flagged
      keys keep the order of `atmcomp`. */
  lemma {:induction false} FlaggedKeysAppend(a: seq<(string, bool)>, b: seq<(string, bool)>)
    ensures FlaggedKeys(a + b) == FlaggedKeys(a) + FlaggedKeys(b)
    decreases |a|
  {
    if |a| > 0 {
      assert (a + b)[1..] == a[1..] + b;
      FlaggedKeysAppend(a[1..], b);
    } else {
      assert a + b == b;
    }
  }

  /** One entry contributes its key exactly when its flag is true. */
  lemma FlaggedKeysOfEntry(key: string, flag: bool)
    ensures FlaggedKeys([(key, flag)]) == if flag then [key] else []
  {
    assert [(key, flag)][1..] == [];
  }

  /** The abbreviation of each key, in order. */
  function Abbreviations(keys: seq<string>, abbr: map<string, string>): (xs: seq<string>)
    requires forall k :: k in keys ==> k in abbr
    ensures |xs| == |keys|
    ensures forall i :: 0 <= i < |keys| ==> xs[i] == abbr[keys[i]]
  {
    seq(|keys|, i requires 0 <= i < |keys| => abbr[keys[i]])
  }

  /** The atmosphere row for a non-empty list of abbreviations. */
  function AtmosphereRowText(xs: seq<string>): string {
    AtmospherePrefix + Join(xs) + RowEnd
  }

  /** Builds the atmosphere row the way the writer does: append each
      abbreviation and ", ", cut the last two characters, and write the
      row only when some component is flagged. */
  method AtmosphereRow(atmcomp: seq<(string, bool)>, abbr: map<string, string>) returns (r: Result<string, Error>)
    ensures r.Failure? <==> exists k :: k in FlaggedKeys(atmcomp) && k !in abbr
    ensures r.Failure? ==> r.error.component in FlaggedKeys(atmcomp) && r.error.component !in abbr
    ensures r.Failure? ==> exists i :: 0 <= i < |FlaggedKeys(atmcomp)| && FlaggedKeys(atmcomp)[i] == r.error.component
                                       && forall j :: 0 <= j < i ==> FlaggedKeys(atmcomp)[j] in abbr
    ensures r.Success? && |FlaggedKeys(atmcomp)| == 0 ==> r.value == ""
    ensures r.Success? && |FlaggedKeys(atmcomp)| > 0 ==>
              r.value == AtmosphereRowText(Abbreviations(FlaggedKeys(atmcomp), abbr))
  {
    var atkeys := FlaggedKeys(atmcomp);
    var text := "";
    for i := 0 to |atkeys|
      invariant forall j :: 0 <= j < i ==> atkeys[j] in abbr
      invariant text == Terminated(Abbreviations(atkeys[..i], abbr))
    {
      if atkeys[i] !in abbr {
        return Failure(MissingAbbreviation(atkeys[i]));
      }
      var done := Abbreviations(atkeys[..i + 1], abbr);
      assert done[..i] == Abbreviations(atkeys[..i], abbr);
      text := text + abbr[atkeys[i]] + Separator;
    }
    assert atkeys[..|atkeys|] == atkeys;
    if |atkeys| > 0 {
      StripTerminatedIsJoin(Abbreviations(atkeys, abbr));
      return Success(AtmospherePrefix + DropLast2(text) + RowEnd);
    }
    return Success("");
  }

  /** Reads the list back out of an atmosphere row. */
  function ReadAtmosphereRow(row: string): Option<seq<string>> {
    var p, e := |AtmospherePrefix|, |RowEnd|;
    if |row| >= p + e && row[..p] == AtmospherePrefix && row[|row| - e..] == RowEnd
    then Some(Split(row[p..|row| - e]))
    else None
  }

  /** The row lists exactly the abbreviations, in order, when none of them
      contains a comma: nothing is lost or added by the trailing-separator cut. */
  lemma AtmosphereRowReadsBack(xs: seq<string>)
    requires |xs| > 0
    requires forall k :: 0 <= k < |xs| ==> ',' !in xs[k]
    ensures ReadAtmosphereRow(AtmosphereRowText(xs)) == Some(xs)
  {
    var row := AtmosphereRowText(xs);
    var p, e := |AtmospherePrefix|, |RowEnd|;
    assert row[..p] == AtmospherePrefix;
    assert row[|row| - e..] == RowEnd;
    assert row[p..|row| - e] == Join(xs);
    SplitJoin(xs);
  }

  // ---------------------------------------------------------------------
  // Pressure
  // ---------------------------------------------------------------------

  /** The pressure row: "None" for zero pressure, otherwise the formatted
      pressure in atmospheres and the pressure category. */
  function PressureRow(pressure: real, pressureText: string, category: string): (row: string)
    ensures row == NoPressureRow <==> pressure == 0.0
  {
    if pressure == 0.0 then NoPressureRow
    else PressurePrefix + pressureText + PressureUnit + category + RowEnd
  }

  /** What a reader recovers from a pressure row. */
  datatype PressureReading = NoPressure | Reading(pressureText: string, category: string) | Unreadable

  function ReadPressureRow(row: string): PressureReading {
    var p, e := |PressurePrefix|, |RowEnd|;
    if row == NoPressureRow then NoPressure
    else if |row| >= p + e && row[..p] == PressurePrefix && row[|row| - e..] == RowEnd then
      var middle := row[p..|row| - e];
      if ' ' in middle then
        var i := FirstIndex(middle, ' ');
        if |middle| - i >= |PressureUnit| && middle[i..i + |PressureUnit|] == PressureUnit
        then Reading(middle[..i], middle[i + |PressureUnit|..])
        else Unreadable
      else Unreadable
    else Unreadable
  }

  /** A non-zero pressure row is the prefix, the pressure text with its
      unit and category, and the row end. */
  lemma PressureRowMiddle(pressureText: string, category: string)
    ensures var row := PressurePrefix + pressureText + PressureUnit + category + RowEnd;
            var p, e := |PressurePrefix|, |RowEnd|;
            && |row| >= p + e
            && row[..p] == PressurePrefix
            && row[|row| - e..] == RowEnd
            && row[p..|row| - e] == pressureText + PressureUnit + category
  {
  }

  /** The first space of the middle part starts the unit, and the category follows it. */
  lemma PressureMiddleParts(pressureText: string, category: string)
    requires ' ' !in pressureText
    ensures var middle, n := pressureText + PressureUnit + category, |pressureText|;
            && ' ' in middle
            && FirstIndex(middle, ' ') == n
            && |middle| - n >= |PressureUnit|
            && middle[..n] == pressureText
            && middle[n..n + |PressureUnit|] == PressureUnit
            && middle[n + |PressureUnit|..] == category
  {
    var middle := pressureText + PressureUnit + category;
    assert middle == pressureText + (PressureUnit + category);
    FirstIndexAfterPrefix(pressureText, PressureUnit + category, ' ');
  }

  /** The row says "None" exactly for zero pressure, and otherwise carries
      the formatted pressure and the category, which read back unchanged
      (the formatted number has no space in it). */
  lemma PressureRowReadsBack(pressure: real, pressureText: string, category: string)
    requires ' ' !in pressureText
    ensures ReadPressureRow(PressureRow(pressure, pressureText, category))
              == if pressure == 0.0 then NoPressure else Reading(pressureText, category)
  {
    if pressure != 0.0 {
      var row := PressureRow(pressure, pressureText, category);
      var middle := pressureText + PressureUnit + category;
      PressureRowMiddle(pressureText, category);
      PressureMiddleParts(pressureText, category);
      assert row[|PressurePrefix|..|row| - |RowEnd|] == middle;
    }
  }
}
