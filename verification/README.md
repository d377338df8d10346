# Moons and the star-system XML report

This project models two parts of a GURPS Space star-system generator.

- **Major moons** (`Moon` in `gurps/space/satellites.py`):
  - the size rule `makesize`;
  - the volcanic bonus `volcanicbonus`;
  - the blackbody temperature inherited from the parent (`makebbtemp`, `getBBTemp`);
  - the fixed order in which the constructor derives a moon's attributes;
  - `setOrbit`.
- **The XML writer** (`XmlWriter` in `gurpsspace/output/xmlout.py`):
  - the document `starsystemprop` and `starprop` build: which elements appear, how many, in which order, and with which texts;
  - the atmosphere-composition row and the pressure row of the per-world tables. `planetdetails` and `moondetails` share this code word for word.

Files:

- `wrappers.dfy`: `Option` and `Result`. A Python `KeyError` becomes a `Failure`.
- `sizes.dfy` (`SizeTables`): the `SizeToInt` / `IntToSize` tables, modelled as one ordered list of labels.
- `satellites.dfy` (`Satellites`): the moon.
- `text.dfy` (`Text`):
  - the `", "`-joined list;
  - Python's `s[:-2]`;
  - a reader that splits the list back into its items.
- `decimal.dfy` (`Decimal`): the decimal text of the star count and its parser.
- `detail_rows.dfy` (`DetailRows`): the atmosphere and pressure rows.
- `xml_document.dfy` (`XmlDocument`):
  - the XML document as a sequence of lines (open tag, close tag, element with optional unit);
  - the exact rendering of those lines;
  - the lemmas about the document's shape.

The size rule follows the code as written. The `if diceroll >= 15` branch is not chained to the `if`/`else` that follows it. Its store of `parentsize - 1` is therefore always overwritten. A roll of 15 or more takes two steps off the parent, like any roll of 12 or more. That dead store at `satellites.py:61` shows a three-tier table was evidently meant: 15 or more takes one step, 12 to 14 two, lower rolls three, as in the moon-size table of GURPS Space. The model follows the code. `Satellites.TieredOffset` states the three-tier reading as a reference. `Satellites.AsWrittenAgreesWithTieredBelow15` proves where the two agree (exactly below 15) and by how much they differ above.

## Model

| member | source | states |
|---|---|---|
| Satellites.SizeOffset | gurps/space/satellites.py:59-65 | the offset subtracted from the parent's ordinal is 2 or 3, and never 1 |
| Satellites.AsWrittenAgreesWithTieredBelow15 | gurps/space/satellites.py:60-65 | the code's rule equals the tiered 1/2/3 rule exactly for rolls below 15; from 15 up it takes one more step |
| Satellites.ChildOrdinal | gurps/space/satellites.py:60-67 | the moon's ordinal never exceeds the parent's. It is strictly smaller when the parent's ordinal is positive. It is 0 exactly when the parent's ordinal is at most the offset |
| Satellites.ChildOrdinalByRoll | gurps/space/satellites.py:60-67 | rolls of 12 or more (15 to 18 included) subtract 2; lower rolls subtract 3; the result is clamped at 0; a one-step result happens only for parents of ordinal 0 or 1 |
| Satellites.ChildOrdinalMonotone | gurps/space/satellites.py:60-67 | a larger parent and a higher roll never give a smaller moon |
| Satellites.ParentOrdinal | gurps/space/satellites.py:55-58 | the parent's own label is looked up first, so it fails even for a gas giant. A gas giant's ordinal is then replaced by the ordinal of "Large". The lookup fails exactly when a needed label is missing, and the error names the first missing label in that order |
| Satellites.MakeSize | gurps/space/satellites.py:54-68 | fails exactly when the parent's label, or "Large" for a gas giant, is not in the table, and the error names the parent's label when that is missing and "Large" otherwise; otherwise yields a label of the table |
| Satellites.OwnLabelLookedUpFirst | gurps/space/satellites.py:56-58 | for every table, a gas giant whose own label is missing fails on its own label, even when "Large" is missing too; one whose own label is known fails on "Large" when that is missing |
| Satellites.MakeSizeOrdinal | gurps/space/satellites.py:54-68 | in a table with distinct labels, which must hold "Large" only for a gas-giant parent, the moon's label has ordinal base-2 (roll at least 12) or base-3, clamped at 0. The base is the parent's ordinal, or that of "Large" for a gas giant |
| Satellites.MakeSizeNotAboveParent | gurps/space/satellites.py:54-68 | in a table with distinct labels, which need not contain "Large", a moon of a non-gas-giant is never larger than its parent, and strictly smaller unless the parent has ordinal 0 |
| Satellites.GasGiantParentSizeIrrelevant | gurps/space/satellites.py:56-58 | for a gas giant parent with a known label, the moon's size does not depend on the parent's own size |
| Satellites.MakeSizeMonotone | gurps/space/satellites.py:54-68 | in a table with distinct labels, for parents that are not gas giants, larger parents and higher rolls give moons at least as large |
| Satellites.Pipeline | gurps/space/satellites.py:10-26 | the constructor runs sixteen distinct derivation steps |
| Satellites.StepError | gurps/space/satellites.py:10-26 | a step raises exactly when it is the size step and `makesize` fails, or an inherited world step whose outcome is to raise; the size step's error is that of `makesize` |
| Satellites.FirstError | gurps/space/satellites.py:10-26 | an error escapes a run of steps exactly when some step in it raises |
| Satellites.FirstErrorAt | gurps/space/satellites.py:10-26 | the escaping error is that of the first step that raises, whatever later steps would do |
| Satellites.PipelineErrors | gurps/space/satellites.py:10-26 | the constructor's steps raise exactly when the size rule fails or some inherited world step raises; a size failure always decides the error, because no world step runs before it |
| Satellites.RunStep | gurps/space/satellites.py:10-26 | each step either raises its own error or appends itself to the record. The steps set the temperature, size and type, and leave the other fields alone |
| Satellites.RunStepAdvances | gurps/space/satellites.py:10-26 | a step that does not raise extends the builder by exactly the next step of the constructor's order |
| Satellites.RunPipeline | gurps/space/satellites.py:10-26 | running the steps in order either stops with the first raising step's error, or, when none raises, has run all sixteen and stored the temperature, size and type |
| Satellites.Construct | gurps/space/satellites.py:6-26 | construction fails exactly when the size rule fails or an inherited world step raises, with the error of the first step that raises, which is the size rule's whenever it fails. Otherwise it runs all sixteen steps in the constructor's order. It copies the parent's blackbody temperature, stores the size rule's label and the world type, and leaves the orbit unset |
| Satellites.GetBBTemp | gurps/space/satellites.py:49-52 | a constructed moon reports the blackbody temperature of its parent |
| Satellites.StepIndex | gurps/space/satellites.py:10-26 | every step has a position in the constructor's order |
| Satellites.EveryStepRunsOnce | gurps/space/satellites.py:10-26 | every step runs, and at exactly one position |
| Satellites.StepOrder | gurps/space/satellites.py:10-26 | the temperature is derived first; the size before the type; the type, which the volcanic bonus reads, before volcanism |
| Satellites.SetOrbit | gurps/space/satellites.py:73-74 | sets the orbit and changes nothing else; a constructed moon stays constructed |
| Satellites.SetOrbitLastWins | gurps/space/satellites.py:73-74 | the last `setOrbit` wins, and setting the old orbit back restores the moon |
| Satellites.SetOrbitKeepsDerived | gurps/space/satellites.py:73-74 | attaching an orbit changes neither the volcanic bonus nor the blackbody temperature |
| Satellites.VolcanicBonus | gurps/space/satellites.py:79-84 | 60 exactly for a Sulfur world; 5 exactly for a non-Sulfur moon of a gas giant; 0 exactly otherwise |
| Satellites.BonusIsRankedNotSummed | gurps/space/satellites.py:79-84 | the bonuses are ranked, not added. The result differs from the sum only for a Sulfur moon of a gas giant, and it is never 65 |
| SizeTables.SizeToInt | gurps/space/satellites.py:56 | the ordinal of a label is its first position in the table; no ordinal exactly for an unknown label |
| SizeTables.IntToSize | gurps/space/satellites.py:68 | every in-range ordinal names a label of the table |
| SizeTables.LabelRoundTrip | gurps/space/satellites.py:56-68 | a label survives the trip through its ordinal |
| SizeTables.OrdinalRoundTrip | gurps/space/satellites.py:56-68 | in a table with distinct labels an ordinal survives the trip through its label |
| SizeTables.LargeOrdinal | gurps/space/satellites.py:58 | in a valid table "Large" has an ordinal |
| Text.Terminated | gurpsspace/output/xmlout.py:134-136 | appending each item and ", " leaves a string that ends in ", " |
| Text.DropLast2 | gurpsspace/output/xmlout.py:138 | `[:-2]` removes exactly the last two characters, or everything from a shorter string |
| Text.TerminatedIsJoinPlusSeparator | gurpsspace/output/xmlout.py:134-136 | the loop's string is the joined list plus one trailing ", " |
| Text.StripTerminatedIsJoin | gurpsspace/output/xmlout.py:134-138 | cutting the last two characters leaves exactly the ", "-joined list, with no trailing separator |
| Text.SplitJoin | gurpsspace/output/xmlout.py:138 | items without commas are recovered from the joined list, in order |
| Decimal.NatToString | gurpsspace/output/xmlout.py:46 | the star count is written as a non-empty string of digits without a leading zero |
| Decimal.ParseNatToString | gurpsspace/output/xmlout.py:46 | the written count parses back to the count |
| Decimal.NatToStringInjective | gurpsspace/output/xmlout.py:46 | different counts are written differently |
| DetailRows.FlaggedKeys | gurpsspace/output/xmlout.py:133 | a component is listed exactly when its flag is true |
| DetailRows.FlaggedKeysAppend | gurpsspace/output/xmlout.py:133 | the flagged components of two runs of entries are those of the first run followed by those of the second, so the list keeps the entries' order |
| DetailRows.FlaggedKeysOfEntry | gurpsspace/output/xmlout.py:133 | a single entry contributes its component exactly when its flag is true |
| DetailRows.Abbreviations | gurpsspace/output/xmlout.py:135-136 | each listed component is replaced by its abbreviation, position by position |
| DetailRows.AtmosphereRow | gurpsspace/output/xmlout.py:132-138 | fails exactly when a flagged component has no abbreviation, and names the first such component in entry order. With no flagged component there is no row. Otherwise the row holds the abbreviations joined by ", " |
| DetailRows.AtmosphereRowReadsBack | gurpsspace/output/xmlout.py:134-138 | reading the row back gives exactly the abbreviations, in order, when none contains a comma |
| DetailRows.PressureRow | gurpsspace/output/xmlout.py:139-142 | the "None" row is written exactly when the pressure is zero |
| DetailRows.PressureRowReadsBack | gurpsspace/output/xmlout.py:139-142 | a zero pressure reads back as no pressure. Any other pressure reads back as its formatted value and its category, unchanged |
| XmlDocument.OrbitShape | gurpsspace/output/xmlout.py:92-103 | an orbit entry opens one `<orbit>` and has one `<type>` with its type text. It has a `<planet>` only for Terrestrial and Gas Giant, holding that kind |
| XmlDocument.OrbitNeverCloses | gurpsspace/output/xmlout.py:92-103 | an orbit entry never writes `</orbit>` |
| XmlDocument.OrbitsShape | gurpsspace/output/xmlout.py:90-104 | over all entries, in order: one `<orbit>` and one `<type>` per entry; planets exactly for the terrestrial and gas giant entries; no `</orbit>` |
| XmlDocument.StarOpensOnce | gurpsspace/output/xmlout.py:71-107 | a star block opens one `<star>` |
| XmlDocument.StarClosesOnce | gurpsspace/output/xmlout.py:71-107 | a star block closes one `</star>` |
| XmlDocument.StarSequence | gurpsspace/output/xmlout.py:75 | a star block names the star's sequence once |
| XmlDocument.StarForbidden | gurpsspace/output/xmlout.py:83-85 | the forbidden-zone edges are written exactly when the star has a forbidden zone |
| XmlDocument.StarOrbitOpens | gurpsspace/output/xmlout.py:87-104 | a star block opens one `<orbit>` per orbit entry and closes none |
| XmlDocument.StarTypes | gurpsspace/output/xmlout.py:96 | a star block's `<type>` texts are its entries' type texts, in order |
| XmlDocument.StarPlanets | gurpsspace/output/xmlout.py:98-103 | a star block's `<planet>` texts are the kinds of its terrestrial and gas giant entries, in order |
| XmlDocument.StarsInOrder | gurpsspace/output/xmlout.py:64-65 | one star block per star, with the stars' sequences in list order |
| XmlDocument.StarsOrbits | gurpsspace/output/xmlout.py:64-65 | the star blocks open one `<orbit>` per entry over all stars, and close none |
| XmlDocument.StarsForbidden | gurpsspace/output/xmlout.py:64-65 | the forbidden-zone edges come from exactly the stars that have a forbidden zone, in list order |
| XmlDocument.SeparationShape | gurpsspace/output/xmlout.py:56-58 | one separation and one eccentricity per pair of `getOrbits()`, in order |
| XmlDocument.PeriodShape | gurpsspace/output/xmlout.py:60-61 | one period per entry of `getPeriod()`, in order |
| XmlDocument.OrbitalShape | gurpsspace/output/xmlout.py:53-61 | separations, eccentricities and periods appear only when there is more than one star |
| XmlDocument.SystemStarNumber | gurpsspace/output/xmlout.py:45-46 | the document has one `<starNumber>`, and it reads back as the number of stars |
| XmlDocument.SystemOrbitalElements | gurpsspace/output/xmlout.py:53-61 | the document's separations, eccentricities and periods are those of `getOrbits()` and `getPeriod()` when there is more than one star, and absent otherwise |
| XmlDocument.SystemStars | gurpsspace/output/xmlout.py:63-66 | the document opens one `<star>` per star and lists the sequences in star order |
| XmlDocument.SystemOrbits | gurpsspace/output/xmlout.py:63-66 | the document opens one `<orbit>` per orbit entry over all stars and never closes one |
| XmlDocument.SystemForbidden | gurpsspace/output/xmlout.py:63-66 | the document's forbidden-zone edges are exactly those of the stars that have one |
| XmlDocument.StarsClose | gurpsspace/output/xmlout.py:64-65 | the star blocks close one `</star>` per star |
| XmlDocument.SystemStarsTag | gurpsspace/output/xmlout.py:63-66 | the document opens `<stars>` once and closes it once |
| XmlDocument.SystemStarsWrapper | gurpsspace/output/xmlout.py:63-66 | one `<stars>` wrapper, holding one `<star>` and one `</star>` per star |
| XmlDocument.StarSystemProp | gurpsspace/output/xmlout.py:42-69 | `starsystemprop` starts with `<starsystem>` and ends with `</starsystem>` |
| XmlDocument.StarProp | gurpsspace/output/xmlout.py:71-107 | `starprop` starts with `<star>` and ends with `</star>` |
| XmlDocument.StarsText | gurpsspace/output/xmlout.py:64-65 | the star blocks' text is the text of `starprop` for each star, concatenated in list order |
| XmlDocument.StarsBlockText | gurpsspace/output/xmlout.py:63-66 | the `<stars>` element's text is `<stars>`, each star's `starprop` in order, and `</stars>` |
| XmlDocument.StarSystemPropComposes | gurpsspace/output/xmlout.py:42-69 | `starsystemprop` is the header text, the orbital elements' text, the `<stars>` element holding each star's `starprop` in order, and `</starsystem>` |

## Left out

- The dice: the 3d6 roll of `makesize` is an argument. No 3..18 range is assumed, because the code checks none.
- The contents of `SizeToInt`, `IntToSize` and `AtmCompAbbr`. These tables are not part of this model. The size tables are an ordered list of labels; the abbreviation table is a map argument.
- The attribute methods inherited from `World` (`maketype`, `makeatmosphere`, through `makeaffinity`). The world generator is not part of this model. They are opaque named steps. Whether each raises is an argument (the set of steps that raise), and only the outcome of `maketype` is kept, as an argument, because `volcanicbonus` reads it.
- `parent.getBBTemp()` in `makebbtemp` is taken not to raise: the planet code is not part of this model, and the parent's temperature is a field.
- `primarystar` is stored by the constructor but read by no modelled code, so the model does not carry it.
- `printinfo`, `getSize`, `roll` and `Moonlet`: console output and one-line delegations.
- `XmlWriter.write` and `preamble`: file I/O and a constant header.
- Number formatting (`{}` of floats, `{:.2f}`, `round(e)`, the radius times 149597871). Every number except the star count and the zero test on the pressure arrives as already formatted text.
- The other rows of `planetdetails` and `moondetails`, and all of `psdetails` and `gasgiantdetails`: LaTeX text with no logic beyond formatting. Their moon and planet loops are not part of this model.
- Dictionary iteration order: `atmcomp` and `getOrbitcontents()` are sequences in the order Python iterates them.
- `star.hasForbidden()` and `getForbidden()` are plain fields, because the star code is not part of this model.
- Concurrency: none in the source.
