/** The XML text `XmlWriter.starsystemprop` and `XmlWriter.starprop` build
    (gurpsspace/output/xmlout.py).

    Every `str += ...` of one element appends one line; the star loop
    appends one block of lines per star. The model builds the
    same lines as values (`Line`) and renders them to the exact text; the
    shape of the document is stated on the lines. Numbers other than the
    star count arrive as already formatted text. */
module XmlDocument {
  import opened Wrappers
  import Decimal

  /** One line of output: an opening tag, a closing tag, or an element with
      an optional `unit` attribute and its text. */
  datatype Line =
    | Open(tag: Tag)
    | Close(tag: Tag)
    | Leaf(tag: Tag, unit: Option<string>, text: string)

  /** The element names the writer uses. */
  datatype Tag =
    | StarsystemTag | StarNumberTag | SystemAgeTag
    | SeparationTag | EccentricityTag | PeriodTag
    | StarsTag | StarTag | SequenceTag | MassTag | TemperatureTag | LuminosityTag
    | RadiusTag | InnerOrbitLimitTag | OuterOrbitLimitTag | SnowlineTag
    | ForbiddenInnerTag | ForbiddenOuterTag
    | OrbitsTag | OrbitTag | TypeTag | PlanetTag

  function TagName(t: Tag): string {
    match t
    case StarsystemTag => "starsystem"
    case StarNumberTag => "starNumber"
    case SystemAgeTag => "systemAge"
    case SeparationTag => "systemOrbitalSeparation"
    case EccentricityTag => "systemOrbitalEccentricity"
    case PeriodTag => "systemOrbitalPeriod"
    case StarsTag => "stars"
    case StarTag => "star"
    case SequenceTag => "sequence"
    case MassTag => "mass"
    case TemperatureTag => "temperature"
    case LuminosityTag => "luminosity"
    case RadiusTag => "radius"
    case InnerOrbitLimitTag => "innerOrbitLimit"
    case OuterOrbitLimitTag => "outerOrbitLimit"
    case SnowlineTag => "snowline"
    case ForbiddenInnerTag => "forbiddenZoneInner"
    case ForbiddenOuterTag => "forbiddenZoneOuter"
    case OrbitsTag => "orbits"
    case OrbitTag => "orbit"
    case TypeTag => "type"
    case PlanetTag => "planet"
  }

  /** The part of the document an element belongs to. */
  datatype Section =
    | SystemSection | OrbitalSection | StarSection | MeasureSection | ForbiddenSection | OrbitSection

  function SectionOf(t: Tag): Section {
    match t
    case StarsystemTag | StarNumberTag | SystemAgeTag | StarsTag => SystemSection
    case SeparationTag | EccentricityTag | PeriodTag => OrbitalSection
    case StarTag | SequenceTag | OrbitsTag => StarSection
    case MassTag | TemperatureTag | LuminosityTag | RadiusTag
       | InnerOrbitLimitTag | OuterOrbitLimitTag | SnowlineTag => MeasureSection
    case ForbiddenInnerTag | ForbiddenOuterTag => ForbiddenSection
    case OrbitTag | TypeTag | PlanetTag => OrbitSection
  }

  /** The start tag of an element, with its `unit` attribute if it has one. */
  function StartTag(t: Tag, unit: Option<string>): string {
    match unit
    case None => "<" + TagName(t) + ">"
    case Some(u) => "<" + TagName(t) + " unit=\"" + u + "\">"
  }

  /** The end tag of an element and the line break after it. */
  function EndTag(t: Tag): string {
    "</" + TagName(t) + ">\n"
  }

  function Render(l: Line): string {
    match l
    case Open(t) => "<" + TagName(t) + ">\n"
    case Close(t) => EndTag(t)
    case Leaf(t, unit, x) => StartTag(t, unit) + x + EndTag(t)
  }

  function RenderAll(ls: seq<Line>): string {
    if |ls| == 0 then "" else Render(ls[0]) + RenderAll(ls[1..])
  }

  lemma AppendAssoc(x: string, y: string, z: string)
    ensures x + (y + z) == (x + y) + z
  {
  }

  /** The text of a block is the text of its first line followed by the rest. */
  lemma RenderAllCons(l: Line, ls: seq<Line>)
    ensures RenderAll([l] + ls) == Render(l) + RenderAll(ls)
  {
    assert ([l] + ls)[1..] == ls;
  }

  lemma {:induction false} RenderAllAppend(a: seq<Line>, b: seq<Line>)
    ensures RenderAll(a + b) == RenderAll(a) + RenderAll(b)
    decreases |a|
  {
    if |a| > 0 {
      var rest := a[1..];
      assert a == [a[0]] + rest;
      assert a + b == [a[0]] + (rest + b);
      RenderAllCons(a[0], rest + b);
      RenderAllCons(a[0], rest);
      RenderAllAppend(rest, b);
      AppendAssoc(Render(a[0]), RenderAll(rest), RenderAll(b));
    } else {
      assert a + b == b;
    }
  }

  // ---------------------------------------------------------------------
  // The data the writer reads
  // ---------------------------------------------------------------------

  /** One entry of `getOrbitcontents()`: the text of `getType()` and the
      value of `type()`. */
  datatype OrbitEntry = OrbitEntry(typeText: string, kind: string)

  /** What `starprop` reads from a star, each number already formatted. */
  datatype Star = Star(
    sequence: string,
    mass: string,
    temperature: string,
    luminosity: string,
    radius: string,
    innerLimit: string,
    outerLimit: string,
    snowline: string,
    hasForbidden: bool,
    forbiddenInner: string,
    forbiddenOuter: string,
    orbits: seq<OrbitEntry>)

  /** What `starsystemprop` reads: the stars, the age, the (separation,
      eccentricity) pairs of `getOrbits()` and the periods of `getPeriod()`. */
  datatype StarSystem = StarSystem(
    stars: seq<Star>,
    age: string,
    separations: seq<(string, string)>,
    periods: seq<string>)

  // ---------------------------------------------------------------------
  // The lines the writer emits
  // ---------------------------------------------------------------------

  function OrbitLines(o: OrbitEntry): seq<Line> {
    [Open(OrbitTag), Leaf(TypeTag, None, o.typeText)]
    + (if o.kind == "Terrestrial" then [Leaf(PlanetTag, None, "Terrestrial")] else [])
    + (if o.kind == "Gas Giant" then [Leaf(PlanetTag, None, "Gas Giant")] else [])
  }

  function OrbitsLines(os: seq<OrbitEntry>): seq<Line> {
    if |os| == 0 then [] else OrbitLines(os[0]) + OrbitsLines(os[1..])
  }

  /** The star's physical data, each element with its unit. */
  function MeasureLines(s: Star): seq<Line> {
    [Leaf(MassTag, Some("Solar Mass"), s.mass),
     Leaf(TemperatureTag, Some("Kelvin"), s.temperature),
     Leaf(LuminosityTag, Some("Solar Luminosity"), s.luminosity),
     Leaf(RadiusTag, Some("kilometer"), s.radius),
     Leaf(InnerOrbitLimitTag, Some("AU"), s.innerLimit),
     Leaf(OuterOrbitLimitTag, Some("AU"), s.outerLimit),
     Leaf(SnowlineTag, Some("AU"), s.snowline)]
  }

  function ForbiddenLines(s: Star): seq<Line> {
    if s.hasForbidden then
      [Leaf(ForbiddenInnerTag, Some("AU"), s.forbiddenInner),
       Leaf(ForbiddenOuterTag, Some("AU"), s.forbiddenOuter)]
    else []
  }

  function StarLines(s: Star): seq<Line> {
    [Open(StarTag), Leaf(SequenceTag, None, s.sequence)] + MeasureLines(s) + ForbiddenLines(s)
    + [Open(OrbitsTag)] + OrbitsLines(s.orbits) + [Close(OrbitsTag), Close(StarTag)]
  }

  function StarsLines(ss: seq<Star>): seq<Line> {
    if |ss| == 0 then [] else StarLines(ss[0]) + StarsLines(ss[1..])
  }

  function SeparationPair(sep: (string, string)): seq<Line> {
    [Leaf(SeparationTag, Some("AU"), sep.0), Leaf(EccentricityTag, None, sep.1)]
  }

  function SeparationLines(seps: seq<(string, string)>): seq<Line> {
    if |seps| == 0 then []
    else SeparationPair(seps[0]) + SeparationLines(seps[1..])
  }

  function PeriodLines(ps: seq<string>): seq<Line> {
    if |ps| == 0 then [] else [Leaf(PeriodTag, None, ps[0])] + PeriodLines(ps[1..])
  }

  function SystemHeadLines(sys: StarSystem): seq<Line> {
    [Open(StarsystemTag),
     Leaf(StarNumberTag, None, Decimal.NatToString(|sys.stars|)),
     Leaf(SystemAgeTag, Some("billion years"), sys.age)]
  }

  /** The orbital elements, written only for a multiple star system. */
  function OrbitalLines(sys: StarSystem): seq<Line> {
    if |sys.stars| > 1 then SeparationLines(sys.separations) + PeriodLines(sys.periods) else []
  }

  /** The `<stars>` element around the star blocks. */
  function StarsBlock(ss: seq<Star>): seq<Line> {
    [Open(StarsTag)] + StarsLines(ss) + [Close(StarsTag)]
  }

  function SystemLines(sys: StarSystem): seq<Line> {
    SystemHeadLines(sys) + OrbitalLines(sys) + StarsBlock(sys.stars) + [Close(StarsystemTag)]
  }

  /** `starprop`: one `<star>` element. */
  function StarProp(s: Star): (r: string)
    ensures |r| >= 8 && r[..7] == "<star>\n" && r[|r| - 8..] == "</star>\n"
  {
    StarTextFramed(s);
    RenderAll(StarLines(s))
  }

  /** `starsystemprop`: one `<starsystem>` element. */
  function StarSystemProp(sys: StarSystem): (r: string)
    ensures |r| >= 14 && r[..13] == "<starsystem>\n" && r[|r| - 14..] == "</starsystem>\n"
  {
    SystemTextFramed(sys);
    RenderAll(SystemLines(sys))
  }

  // ---------------------------------------------------------------------
  // Reading the document: lines of one shape, and the texts of elements
  // ---------------------------------------------------------------------

  /** A line with its text and attribute forgotten. */
  datatype Shape = OpenShape(tag: Tag) | CloseShape(tag: Tag) | LeafShape(tag: Tag)

  function ShapeOf(l: Line): Shape {
    match l
    case Open(t) => OpenShape(t)
    case Close(t) => CloseShape(t)
    case Leaf(t, _, _) => LeafShape(t)
  }

  /** The lines of shape `sh`, in document order. */
  function Select(ls: seq<Line>, sh: Shape): seq<Line> {
    if |ls| == 0 then []
    else (if ShapeOf(ls[0]) == sh then [ls[0]] else []) + Select(ls[1..], sh)
  }

  /** How many lines of shape `sh` there are. */
  function Count(ls: seq<Line>, sh: Shape): nat {
    |Select(ls, sh)|
  }

  function TextOf(l: Line): string {
    if l.Leaf? then l.text else ""
  }

  /** The texts of the `tag` elements, in document order. */
  function LeafTexts(ls: seq<Line>, tag: Tag): (texts: seq<string>)
    ensures |texts| == Count(ls, LeafShape(tag))
  {
    var sel := Select(ls, LeafShape(tag));
    seq(|sel|, k requires 0 <= k < |sel| => TextOf(sel[k]))
  }

  lemma {:induction false} SelectAppend(a: seq<Line>, b: seq<Line>, sh: Shape)
    ensures Select(a + b, sh) == Select(a, sh) + Select(b, sh)
    decreases |a|
  {
    if |a| > 0 {
      assert (a + b)[1..] == a[1..] + b;
      SelectAppend(a[1..], b, sh);
    } else {
      assert a + b == b;
    }
  }

  lemma LeafTextsAppend(a: seq<Line>, b: seq<Line>, tag: Tag)
    ensures LeafTexts(a + b, tag) == LeafTexts(a, tag) + LeafTexts(b, tag)
  {
    SelectAppend(a, b, LeafShape(tag));
  }

  lemma LeafTextsOfLeaf(t: Tag, u: Option<string>, x: string, tag: Tag)
    ensures LeafTexts([Leaf(t, u, x)], tag) == if t == tag then [x] else []
  {
    var ls := [Leaf(t, u, x)];
    assert ls[1..] == [];
    assert Select(ls, LeafShape(tag)) == if t == tag then ls else [];
  }

  lemma {:induction false} SelectNone(ls: seq<Line>, sh: Shape)
    requires forall k :: 0 <= k < |ls| ==> ShapeOf(ls[k]) != sh
    ensures Select(ls, sh) == []
    decreases |ls|
  {
    if |ls| > 0 {
      SelectNone(ls[1..], sh);
    }
  }

  lemma {:induction false} SelectOne(ls: seq<Line>, sh: Shape, k0: nat)
    requires k0 < |ls| && ShapeOf(ls[k0]) == sh
    requires forall k :: 0 <= k < |ls| && k != k0 ==> ShapeOf(ls[k]) != sh
    ensures Select(ls, sh) == [ls[k0]]
    decreases |ls|
  {
    if k0 == 0 {
      SelectNone(ls[1..], sh);
    } else {
      SelectOne(ls[1..], sh, k0 - 1);
    }
  }

  /** Every line of `ls` belongs to one of `sections`. */
  predicate WithinSections(ls: seq<Line>, sections: set<Section>) {
    forall k :: 0 <= k < |ls| ==> SectionOf(ls[k].tag) in sections
  }

  lemma WithinSectionsAppend(a: seq<Line>, b: seq<Line>, sections: set<Section>)
    requires WithinSections(a, sections) && WithinSections(b, sections)
    ensures WithinSections(a + b, sections)
  {
  }

  lemma AbsentSection(ls: seq<Line>, sections: set<Section>, sh: Shape)
    requires WithinSections(ls, sections)
    requires SectionOf(sh.tag) !in sections
    ensures Select(ls, sh) == []
  {
  }

  // ---------------------------------------------------------------------
  // Orbits
  // ---------------------------------------------------------------------

  /** The planet types `starprop` writes a `<planet>` element for. */
  const PlanetTypes: set<string> := {"Terrestrial", "Gas Giant"}

  /** The `getType()` texts of the entries, in order. */
  function TypeTexts(os: seq<OrbitEntry>): (texts: seq<string>)
    ensures |texts| == |os|
    ensures forall k :: 0 <= k < |os| ==> texts[k] == os[k].typeText
  {
    seq(|os|, k requires 0 <= k < |os| => os[k].typeText)
  }

  /** The `type()` values of the entries that are planets, in order. */
  function PlanetKinds(os: seq<OrbitEntry>): (kinds: seq<string>)
    ensures |kinds| <= |os|
    ensures forall k :: 0 <= k < |kinds| ==> kinds[k] in PlanetTypes
  {
    if |os| == 0 then []
    else (if os[0].kind in PlanetTypes then [os[0].kind] else []) + PlanetKinds(os[1..])
  }

  const OrbitSections: set<Section> := {OrbitSection}

  /** An orbit entry writes `<orbit>`, then `<type>`, then a `<planet>`
      only for the two planet types. */
  lemma OrbitLinesExplicit(o: OrbitEntry)
    ensures OrbitLines(o) == [Open(OrbitTag), Leaf(TypeTag, None, o.typeText)]
                             + if o.kind in PlanetTypes then [Leaf(PlanetTag, None, o.kind)] else []
  {
  }

  lemma OrbitWithin(o: OrbitEntry)
    ensures WithinSections(OrbitLines(o), OrbitSections)
  {
  }

  lemma OrbitOpens(o: OrbitEntry)
    ensures Count(OrbitLines(o), OpenShape(OrbitTag)) == 1
  {
    var head, tail := [Open(OrbitTag), Leaf(TypeTag, None, o.typeText)],
      if o.kind in PlanetTypes then [Leaf(PlanetTag, None, o.kind)] else [];
    OrbitLinesExplicit(o);
    SelectAppend(head, tail, OpenShape(OrbitTag));
    SelectOne(head, OpenShape(OrbitTag), 0);
    SelectNone(tail, OpenShape(OrbitTag));
  }

  lemma OrbitType(o: OrbitEntry)
    ensures LeafTexts(OrbitLines(o), TypeTag) == [o.typeText]
  {
    var head, tail := [Open(OrbitTag), Leaf(TypeTag, None, o.typeText)],
      if o.kind in PlanetTypes then [Leaf(PlanetTag, None, o.kind)] else [];
    OrbitLinesExplicit(o);
    SelectAppend(head, tail, LeafShape(TypeTag));
    SelectOne(head, LeafShape(TypeTag), 1);
    SelectNone(tail, LeafShape(TypeTag));
  }

  lemma OrbitPlanet(o: OrbitEntry)
    ensures LeafTexts(OrbitLines(o), PlanetTag) == if o.kind in PlanetTypes then [o.kind] else []
  {
    var head, tail := [Open(OrbitTag), Leaf(TypeTag, None, o.typeText)],
      if o.kind in PlanetTypes then [Leaf(PlanetTag, None, o.kind)] else [];
    OrbitLinesExplicit(o);
    SelectAppend(head, tail, LeafShape(PlanetTag));
    SelectNone(head, LeafShape(PlanetTag));
    if o.kind in PlanetTypes {
      SelectOne(tail, LeafShape(PlanetTag), 0);
    }
  }

  lemma OrbitShape(o: OrbitEntry)
    ensures WithinSections(OrbitLines(o), OrbitSections)
    ensures Count(OrbitLines(o), OpenShape(OrbitTag)) == 1
    ensures LeafTexts(OrbitLines(o), TypeTag) == [o.typeText]
    ensures LeafTexts(OrbitLines(o), PlanetTag) == if o.kind in PlanetTypes then [o.kind] else []
  {
    OrbitWithin(o);
    OrbitOpens(o);
    OrbitType(o);
    OrbitPlanet(o);
  }

  /** An orbit entry opens an `<orbit>` and never closes it. */
  lemma OrbitNeverCloses(o: OrbitEntry)
    ensures Count(OrbitLines(o), CloseShape(OrbitTag)) == 0
  {
    SelectNone(OrbitLines(o), CloseShape(OrbitTag));
  }

  lemma {:induction false} OrbitsWithin(os: seq<OrbitEntry>)
    ensures WithinSections(OrbitsLines(os), OrbitSections)
    decreases |os|
  {
    if |os| > 0 {
      OrbitShape(os[0]);
      OrbitsWithin(os[1..]);
      WithinSectionsAppend(OrbitLines(os[0]), OrbitsLines(os[1..]), OrbitSections);
    }
  }

  lemma {:induction false} OrbitsOpenNeverClose(os: seq<OrbitEntry>)
    ensures Count(OrbitsLines(os), OpenShape(OrbitTag)) == |os|
    ensures Count(OrbitsLines(os), CloseShape(OrbitTag)) == 0
    decreases |os|
  {
    if |os| > 0 {
      var head, rest := OrbitLines(os[0]), OrbitsLines(os[1..]);
      OrbitShape(os[0]);
      OrbitNeverCloses(os[0]);
      OrbitsOpenNeverClose(os[1..]);
      SelectAppend(head, rest, OpenShape(OrbitTag));
      SelectAppend(head, rest, CloseShape(OrbitTag));
    }
  }

  lemma {:induction false} OrbitsTypes(os: seq<OrbitEntry>)
    ensures LeafTexts(OrbitsLines(os), TypeTag) == TypeTexts(os)
    decreases |os|
  {
    if |os| > 0 {
      OrbitShape(os[0]);
      OrbitsTypes(os[1..]);
      LeafTextsAppend(OrbitLines(os[0]), OrbitsLines(os[1..]), TypeTag);
      assert TypeTexts(os) == [os[0].typeText] + TypeTexts(os[1..]);
    }
  }

  lemma {:induction false} OrbitsPlanets(os: seq<OrbitEntry>)
    ensures LeafTexts(OrbitsLines(os), PlanetTag) == PlanetKinds(os)
    decreases |os|
  {
    if |os| > 0 {
      OrbitShape(os[0]);
      OrbitsPlanets(os[1..]);
      LeafTextsAppend(OrbitLines(os[0]), OrbitsLines(os[1..]), PlanetTag);
    }
  }

  /** One `<orbit>` and one `<type>` per entry, a `<planet>` exactly for the
      terrestrial and gas giant entries, and never an `</orbit>`. */
  lemma OrbitsShape(os: seq<OrbitEntry>)
    ensures WithinSections(OrbitsLines(os), OrbitSections)
    ensures Count(OrbitsLines(os), OpenShape(OrbitTag)) == |os|
    ensures Count(OrbitsLines(os), CloseShape(OrbitTag)) == 0
    ensures LeafTexts(OrbitsLines(os), TypeTag) == TypeTexts(os)
    ensures LeafTexts(OrbitsLines(os), PlanetTag) == PlanetKinds(os)
  {
    OrbitsWithin(os);
    OrbitsOpenNeverClose(os);
    OrbitsTypes(os);
    OrbitsPlanets(os);
  }

  // ---------------------------------------------------------------------
  // Stars
  // ---------------------------------------------------------------------

  const StarSections: set<Section> := {StarSection, MeasureSection, ForbiddenSection, OrbitSection}

  lemma MeasureWithin(s: Star)
    ensures WithinSections(MeasureLines(s), {MeasureSection})
  {
  }

  lemma ForbiddenWithin(s: Star)
    ensures WithinSections(ForbiddenLines(s), {ForbiddenSection})
  {
  }

  /** The lines of any shape but the block's own frame come from the
      opening pair, the physical data, the forbidden zone and the orbits,
      in that order. */
  lemma StarSelect(s: Star, sh: Shape)
    requires sh !in {OpenShape(OrbitsTag), CloseShape(OrbitsTag), CloseShape(StarTag)}
    ensures Select(StarLines(s), sh)
      == Select([Open(StarTag), Leaf(SequenceTag, None, s.sequence)], sh)
         + Select(MeasureLines(s), sh) + Select(ForbiddenLines(s), sh) + Select(OrbitsLines(s.orbits), sh)
  {
    var h, m, f, o, t := [Open(StarTag), Leaf(SequenceTag, None, s.sequence)], MeasureLines(s),
      ForbiddenLines(s), OrbitsLines(s.orbits), [Close(OrbitsTag), Close(StarTag)];
    var hm, hmf := h + m, h + m + f;
    var hmfo := hmf + [Open(OrbitsTag)];
    assert StarLines(s) == hmfo + o + t;
    SelectNone([Open(OrbitsTag)], sh);
    SelectNone(t, sh);
    calc {
      Select(StarLines(s), sh);
      { SelectAppend(hmfo + o, t, sh); }
      Select(hmfo + o, sh) + Select(t, sh);
      Select(hmfo + o, sh);
      { SelectAppend(hmfo, o, sh); }
      Select(hmfo, sh) + Select(o, sh);
      { SelectAppend(hmf, [Open(OrbitsTag)], sh); }
      Select(hmf, sh) + Select(o, sh);
      { SelectAppend(hm, f, sh); }
      Select(hm, sh) + Select(f, sh) + Select(o, sh);
      { SelectAppend(h, m, sh); }
      Select(h, sh) + Select(m, sh) + Select(f, sh) + Select(o, sh);
    }
  }

  /** The lines of a shape from the orbit entries' section come from the orbit entries alone. */
  lemma StarOrbitPart(s: Star, sh: Shape)
    requires SectionOf(sh.tag) == OrbitSection
    ensures Select(StarLines(s), sh) == Select(OrbitsLines(s.orbits), sh)
  {
    StarSelect(s, sh);
    SelectNone([Open(StarTag), Leaf(SequenceTag, None, s.sequence)], sh);
    MeasureWithin(s);
    AbsentSection(MeasureLines(s), {MeasureSection}, sh);
    ForbiddenWithin(s);
    AbsentSection(ForbiddenLines(s), {ForbiddenSection}, sh);
  }

  lemma StarWithinSections(s: Star)
    ensures WithinSections(StarLines(s), StarSections)
  {
    var h, m, f, o, t := [Open(StarTag), Leaf(SequenceTag, None, s.sequence)], MeasureLines(s),
      ForbiddenLines(s), OrbitsLines(s.orbits), [Close(OrbitsTag), Close(StarTag)];
    OrbitsWithin(s.orbits);
    MeasureWithin(s);
    ForbiddenWithin(s);
    WithinSectionsAppend(h, m, StarSections);
    WithinSectionsAppend(h + m, f, StarSections);
    WithinSectionsAppend(h + m + f, [Open(OrbitsTag)], StarSections);
    WithinSectionsAppend(h + m + f + [Open(OrbitsTag)], o, StarSections);
    WithinSectionsAppend(h + m + f + [Open(OrbitsTag)] + o, t, StarSections);
  }

  /** A star block opens one `<star>` element. */
  lemma StarOpensOnce(s: Star)
    ensures Count(StarLines(s), OpenShape(StarTag)) == 1
  {
    var sh := OpenShape(StarTag);
    StarSelect(s, sh);
    SelectOne([Open(StarTag), Leaf(SequenceTag, None, s.sequence)], sh, 0);
    MeasureWithin(s);
    AbsentSection(MeasureLines(s), {MeasureSection}, sh);
    ForbiddenWithin(s);
    AbsentSection(ForbiddenLines(s), {ForbiddenSection}, sh);
    OrbitsWithin(s.orbits);
    AbsentSection(OrbitsLines(s.orbits), OrbitSections, sh);
    assert Select(StarLines(s), sh) == [Open(StarTag)];
  }

  /** A star block closes one `</star>`, its last line. */
  lemma StarClosesOnce(s: Star)
    ensures Count(StarLines(s), CloseShape(StarTag)) == 1
  {
    var sh := CloseShape(StarTag);
    var h, m, f, o, t := [Open(StarTag), Leaf(SequenceTag, None, s.sequence)], MeasureLines(s),
      ForbiddenLines(s), OrbitsLines(s.orbits), [Close(OrbitsTag), Close(StarTag)];
    SelectAppend(h, m, sh);
    SelectAppend(h + m, f, sh);
    SelectAppend(h + m + f, [Open(OrbitsTag)], sh);
    SelectAppend(h + m + f + [Open(OrbitsTag)], o, sh);
    SelectAppend(h + m + f + [Open(OrbitsTag)] + o, t, sh);
    SelectNone(h, sh);
    MeasureWithin(s);
    AbsentSection(m, {MeasureSection}, sh);
    ForbiddenWithin(s);
    AbsentSection(f, {ForbiddenSection}, sh);
    SelectNone([Open(OrbitsTag)], sh);
    OrbitsWithin(s.orbits);
    AbsentSection(o, OrbitSections, sh);
    SelectOne(t, sh, 1);
  }

  /** A star block names the star's sequence once. */
  lemma StarSequence(s: Star)
    ensures LeafTexts(StarLines(s), SequenceTag) == [s.sequence]
  {
    var sh := LeafShape(SequenceTag);
    StarSelect(s, sh);
    SelectOne([Open(StarTag), Leaf(SequenceTag, None, s.sequence)], sh, 1);
    MeasureWithin(s);
    AbsentSection(MeasureLines(s), {MeasureSection}, sh);
    ForbiddenWithin(s);
    AbsentSection(ForbiddenLines(s), {ForbiddenSection}, sh);
    OrbitsWithin(s.orbits);
    AbsentSection(OrbitsLines(s.orbits), OrbitSections, sh);
  }

  /** The forbidden-zone elements appear exactly when the star has a forbidden zone. */
  lemma StarForbidden(s: Star, tag: Tag)
    requires tag == ForbiddenInnerTag || tag == ForbiddenOuterTag
    ensures LeafTexts(StarLines(s), tag)
              == if !s.hasForbidden then []
                 else if tag == ForbiddenInnerTag then [s.forbiddenInner] else [s.forbiddenOuter]
  {
    var sh := LeafShape(tag);
    StarSelect(s, sh);
    SelectNone([Open(StarTag), Leaf(SequenceTag, None, s.sequence)], sh);
    MeasureWithin(s);
    AbsentSection(MeasureLines(s), {MeasureSection}, sh);
    OrbitsWithin(s.orbits);
    AbsentSection(OrbitsLines(s.orbits), OrbitSections, sh);
    var sel := Select(ForbiddenLines(s), sh);
    assert Select(StarLines(s), sh) == sel;
    if s.hasForbidden {
      var k0 := if tag == ForbiddenInnerTag then 0 else 1;
      SelectOne(ForbiddenLines(s), sh, k0);
      assert sel == [Leaf(tag, Some("AU"), if tag == ForbiddenInnerTag then s.forbiddenInner else s.forbiddenOuter)];
    } else {
      assert sel == [];
    }
  }

  /** A star block opens one `<orbit>` per orbit entry and never closes one. */
  lemma StarOrbitOpens(s: Star)
    ensures Count(StarLines(s), OpenShape(OrbitTag)) == |s.orbits|
    ensures Count(StarLines(s), CloseShape(OrbitTag)) == 0
  {
    OrbitsOpenNeverClose(s.orbits);
    StarOrbitPart(s, OpenShape(OrbitTag));
    StarOrbitPart(s, CloseShape(OrbitTag));
  }

  /** A star block has one `<type>` per orbit entry, in entry order. */
  lemma StarTypes(s: Star)
    ensures LeafTexts(StarLines(s), TypeTag) == TypeTexts(s.orbits)
  {
    OrbitsTypes(s.orbits);
    StarOrbitPart(s, LeafShape(TypeTag));
  }

  /** A star block has a `<planet>` exactly for its terrestrial and gas giant entries. */
  lemma StarPlanets(s: Star)
    ensures LeafTexts(StarLines(s), PlanetTag) == PlanetKinds(s.orbits)
  {
    OrbitsPlanets(s.orbits);
    StarOrbitPart(s, LeafShape(PlanetTag));
  }

  /** The `getSequence()` texts of the stars, in list order. */
  function Sequences(ss: seq<Star>): (texts: seq<string>)
    ensures |texts| == |ss|
    ensures forall k :: 0 <= k < |ss| ==> texts[k] == ss[k].sequence
  {
    seq(|ss|, k requires 0 <= k < |ss| => ss[k].sequence)
  }

  /** The number of orbit entries over all stars. */
  function TotalOrbits(ss: seq<Star>): nat {
    if |ss| == 0 then 0 else |ss[0].orbits| + TotalOrbits(ss[1..])
  }

  /** The inner and outer edges of the forbidden zones, for the stars that have one, in order. */
  function ForbiddenInners(ss: seq<Star>): (texts: seq<string>)
    ensures |texts| <= |ss|
  {
    if |ss| == 0 then []
    else (if ss[0].hasForbidden then [ss[0].forbiddenInner] else []) + ForbiddenInners(ss[1..])
  }

  function ForbiddenOuters(ss: seq<Star>): (texts: seq<string>)
    ensures |texts| <= |ss|
  {
    if |ss| == 0 then []
    else (if ss[0].hasForbidden then [ss[0].forbiddenOuter] else []) + ForbiddenOuters(ss[1..])
  }

  lemma {:induction false} StarsWithin(ss: seq<Star>)
    ensures WithinSections(StarsLines(ss), StarSections)
    decreases |ss|
  {
    if |ss| > 0 {
      StarWithinSections(ss[0]);
      StarsWithin(ss[1..]);
      WithinSectionsAppend(StarLines(ss[0]), StarsLines(ss[1..]), StarSections);
    }
  }

  /** One star block per star, in list order. */
  lemma StarsInOrder(ss: seq<Star>)
    ensures Count(StarsLines(ss), OpenShape(StarTag)) == |ss|
    ensures LeafTexts(StarsLines(ss), SequenceTag) == Sequences(ss)
  {
    StarsOpen(ss);
    StarsSequences(ss);
  }

  lemma {:induction false} StarsOpen(ss: seq<Star>)
    ensures Count(StarsLines(ss), OpenShape(StarTag)) == |ss|
    decreases |ss|
  {
    if |ss| > 0 {
      var head, rest := StarLines(ss[0]), StarsLines(ss[1..]);
      StarOpensOnce(ss[0]);
      StarsOpen(ss[1..]);
      SelectAppend(head, rest, OpenShape(StarTag));
    }
  }

  lemma {:induction false} StarsSequences(ss: seq<Star>)
    ensures LeafTexts(StarsLines(ss), SequenceTag) == Sequences(ss)
    decreases |ss|
  {
    if |ss| > 0 {
      var head, rest := StarLines(ss[0]), StarsLines(ss[1..]);
      StarSequence(ss[0]);
      StarsSequences(ss[1..]);
      LeafTextsAppend(head, rest, SequenceTag);
      assert Sequences(ss) == [ss[0].sequence] + Sequences(ss[1..]);
    }
  }

  /** One `</star>` per star. */
  lemma {:induction false} StarsClose(ss: seq<Star>)
    ensures Count(StarsLines(ss), CloseShape(StarTag)) == |ss|
    decreases |ss|
  {
    if |ss| > 0 {
      StarClosesOnce(ss[0]);
      StarsClose(ss[1..]);
      SelectAppend(StarLines(ss[0]), StarsLines(ss[1..]), CloseShape(StarTag));
    }
  }

  /** Every orbit entry of every star opens an `<orbit>`; none is closed. */
  lemma {:induction false} StarsOrbits(ss: seq<Star>)
    ensures Count(StarsLines(ss), OpenShape(OrbitTag)) == TotalOrbits(ss)
    ensures Count(StarsLines(ss), CloseShape(OrbitTag)) == 0
    decreases |ss|
  {
    if |ss| > 0 {
      var head, rest := StarLines(ss[0]), StarsLines(ss[1..]);
      StarOrbitOpens(ss[0]);
      StarsOrbits(ss[1..]);
      SelectAppend(head, rest, OpenShape(OrbitTag));
      SelectAppend(head, rest, CloseShape(OrbitTag));
    }
  }

  /** The forbidden-zone elements of the document are those of the stars
      that have a forbidden zone, in list order. */
  lemma {:induction false} StarsForbidden(ss: seq<Star>)
    ensures LeafTexts(StarsLines(ss), ForbiddenInnerTag) == ForbiddenInners(ss)
    ensures LeafTexts(StarsLines(ss), ForbiddenOuterTag) == ForbiddenOuters(ss)
    decreases |ss|
  {
    if |ss| > 0 {
      var head, rest := StarLines(ss[0]), StarsLines(ss[1..]);
      StarForbidden(ss[0], ForbiddenInnerTag);
      StarForbidden(ss[0], ForbiddenOuterTag);
      StarsForbidden(ss[1..]);
      LeafTextsAppend(head, rest, ForbiddenInnerTag);
      LeafTextsAppend(head, rest, ForbiddenOuterTag);
    }
  }

  // ---------------------------------------------------------------------
  // The star system
  // ---------------------------------------------------------------------

  /** The separations and eccentricities of `getOrbits()`, in order. */
  function Separations(seps: seq<(string, string)>): (texts: seq<string>)
    ensures |texts| == |seps|
    ensures forall k :: 0 <= k < |seps| ==> texts[k] == seps[k].0
  {
    seq(|seps|, k requires 0 <= k < |seps| => seps[k].0)
  }

  function Eccentricities(seps: seq<(string, string)>): (texts: seq<string>)
    ensures |texts| == |seps|
    ensures forall k :: 0 <= k < |seps| ==> texts[k] == seps[k].1
  {
    seq(|seps|, k requires 0 <= k < |seps| => seps[k].1)
  }

  const OrbitalSections: set<Section> := {OrbitalSection}

  /** The two elements written for one (separation, eccentricity) pair. */
  lemma SeparationPairShape(sep: (string, string))
    ensures WithinSections(SeparationPair(sep), OrbitalSections)
    ensures LeafTexts(SeparationPair(sep), SeparationTag) == [sep.0]
    ensures LeafTexts(SeparationPair(sep), EccentricityTag) == [sep.1]
    ensures Select(SeparationPair(sep), LeafShape(PeriodTag)) == []
  {
    var ls := SeparationPair(sep);
    SelectOne(ls, LeafShape(SeparationTag), 0);
    SelectOne(ls, LeafShape(EccentricityTag), 1);
    SelectNone(ls, LeafShape(PeriodTag));
  }

  lemma {:induction false} SeparationWithin(seps: seq<(string, string)>)
    ensures WithinSections(SeparationLines(seps), OrbitalSections)
    ensures Select(SeparationLines(seps), LeafShape(PeriodTag)) == []
    decreases |seps|
  {
    if |seps| > 0 {
      var head, rest := SeparationPair(seps[0]), SeparationLines(seps[1..]);
      SeparationPairShape(seps[0]);
      SeparationWithin(seps[1..]);
      WithinSectionsAppend(head, rest, OrbitalSections);
      SelectAppend(head, rest, LeafShape(PeriodTag));
    }
  }

  lemma {:induction false} SeparationTexts(seps: seq<(string, string)>)
    ensures LeafTexts(SeparationLines(seps), SeparationTag) == Separations(seps)
    decreases |seps|
  {
    if |seps| > 0 {
      SeparationPairShape(seps[0]);
      SeparationTexts(seps[1..]);
      LeafTextsAppend(SeparationPair(seps[0]), SeparationLines(seps[1..]), SeparationTag);
      assert Separations(seps) == [seps[0].0] + Separations(seps[1..]);
    }
  }

  lemma {:induction false} EccentricityTexts(seps: seq<(string, string)>)
    ensures LeafTexts(SeparationLines(seps), EccentricityTag) == Eccentricities(seps)
    decreases |seps|
  {
    if |seps| > 0 {
      SeparationPairShape(seps[0]);
      EccentricityTexts(seps[1..]);
      LeafTextsAppend(SeparationPair(seps[0]), SeparationLines(seps[1..]), EccentricityTag);
      assert Eccentricities(seps) == [seps[0].1] + Eccentricities(seps[1..]);
    }
  }

  /** One separation and one eccentricity element per pair, in order. */
  lemma SeparationShape(seps: seq<(string, string)>)
    ensures WithinSections(SeparationLines(seps), OrbitalSections)
    ensures LeafTexts(SeparationLines(seps), SeparationTag) == Separations(seps)
    ensures LeafTexts(SeparationLines(seps), EccentricityTag) == Eccentricities(seps)
    ensures Select(SeparationLines(seps), LeafShape(PeriodTag)) == []
  {
    SeparationWithin(seps);
    SeparationTexts(seps);
    EccentricityTexts(seps);
  }

  /** One period element per period, in order. */
  lemma {:induction false} PeriodShape(ps: seq<string>)
    ensures WithinSections(PeriodLines(ps), OrbitalSections)
    ensures LeafTexts(PeriodLines(ps), PeriodTag) == ps
    ensures Select(PeriodLines(ps), LeafShape(SeparationTag)) == []
    ensures Select(PeriodLines(ps), LeafShape(EccentricityTag)) == []
    decreases |ps|
  {
    if |ps| > 0 {
      var head := [Leaf(PeriodTag, None, ps[0])];
      var rest := PeriodLines(ps[1..]);
      PeriodShape(ps[1..]);
      WithinSectionsAppend(head, rest, OrbitalSections);
      LeafTextsOfLeaf(PeriodTag, None, ps[0], PeriodTag);
      LeafTextsAppend(head, rest, PeriodTag);
      SelectAppend(head, rest, LeafShape(SeparationTag));
      SelectAppend(head, rest, LeafShape(EccentricityTag));
      SelectNone(head, LeafShape(SeparationTag));
      SelectNone(head, LeafShape(EccentricityTag));
      assert ps == [ps[0]] + ps[1..];
    }
  }

  /** The header holds only document-level elements. */
  lemma SystemHeadWithin(sys: StarSystem)
    ensures WithinSections(SystemHeadLines(sys), {SystemSection})
  {
  }

  /** The lines of any shape but the document's own frame come from the
      header, the orbital elements and the star blocks, in that order. */
  lemma SystemSelect(sys: StarSystem, sh: Shape)
    requires sh != OpenShape(StarsTag) && sh != CloseShape(StarsTag) && sh != CloseShape(StarsystemTag)
    ensures Select(SystemLines(sys), sh)
      == Select(SystemHeadLines(sys), sh) + Select(OrbitalLines(sys), sh) + Select(StarsLines(sys.stars), sh)
  {
    var h, x, b := SystemHeadLines(sys), OrbitalLines(sys), StarsBlock(sys.stars);
    SelectAppend(h, x, sh);
    SelectAppend(h + x, b, sh);
    SelectAppend(h + x + b, [Close(StarsystemTag)], sh);
    SelectNone([Close(StarsystemTag)], sh);
    StarsBlockSelect(sys.stars, sh);
  }

  lemma StarsBlockSelect(ss: seq<Star>, sh: Shape)
    requires sh != OpenShape(StarsTag) && sh != CloseShape(StarsTag)
    ensures Select(StarsBlock(ss), sh) == Select(StarsLines(ss), sh)
  {
    SelectAppend([Open(StarsTag)], StarsLines(ss), sh);
    SelectAppend([Open(StarsTag)] + StarsLines(ss), [Close(StarsTag)], sh);
    SelectNone([Open(StarsTag)], sh);
    SelectNone([Close(StarsTag)], sh);
  }

  lemma OrbitalWithin(sys: StarSystem)
    ensures WithinSections(OrbitalLines(sys), OrbitalSections)
  {
    if |sys.stars| > 1 {
      var a, b := SeparationLines(sys.separations), PeriodLines(sys.periods);
      SeparationShape(sys.separations);
      PeriodShape(sys.periods);
      WithinSectionsAppend(a, b, OrbitalSections);
    }
  }

  lemma OrbitalShape(sys: StarSystem)
    ensures LeafTexts(OrbitalLines(sys), SeparationTag)
              == if |sys.stars| > 1 then Separations(sys.separations) else []
    ensures LeafTexts(OrbitalLines(sys), EccentricityTag)
              == if |sys.stars| > 1 then Eccentricities(sys.separations) else []
    ensures LeafTexts(OrbitalLines(sys), PeriodTag)
              == if |sys.stars| > 1 then sys.periods else []
  {
    if |sys.stars| > 1 {
      var a, b := SeparationLines(sys.separations), PeriodLines(sys.periods);
      SeparationShape(sys.separations);
      PeriodShape(sys.periods);
      LeafTextsAppend(a, b, SeparationTag);
      LeafTextsAppend(a, b, EccentricityTag);
      LeafTextsAppend(a, b, PeriodTag);
    }
  }

  /** The `<starNumber>` element holds the number of stars, written in decimal. */
  lemma SystemStarNumber(sys: StarSystem)
    ensures LeafTexts(SystemLines(sys), StarNumberTag) == [Decimal.NatToString(|sys.stars|)]
    ensures Decimal.ParseNat(LeafTexts(SystemLines(sys), StarNumberTag)[0]) == Some(|sys.stars|)
  {
    var sh := LeafShape(StarNumberTag);
    SystemSelect(sys, sh);
    SelectOne(SystemHeadLines(sys), sh, 1);
    OrbitalWithin(sys);
    AbsentSection(OrbitalLines(sys), OrbitalSections, sh);
    StarsWithin(sys.stars);
    AbsentSection(StarsLines(sys.stars), StarSections, sh);
    Decimal.ParseNatToString(|sys.stars|);
  }

  /** Separation, eccentricity and period elements appear only in a
      multiple star system: then one separation and one eccentricity per
      pair of `getOrbits()` and one period per entry of `getPeriod()`. */
  lemma SystemOrbitalElements(sys: StarSystem)
    ensures LeafTexts(SystemLines(sys), SeparationTag)
              == if |sys.stars| > 1 then Separations(sys.separations) else []
    ensures LeafTexts(SystemLines(sys), EccentricityTag)
              == if |sys.stars| > 1 then Eccentricities(sys.separations) else []
    ensures LeafTexts(SystemLines(sys), PeriodTag)
              == if |sys.stars| > 1 then sys.periods else []
  {
    OrbitalShape(sys);
    SystemOrbitalElement(sys, SeparationTag);
    SystemOrbitalElement(sys, EccentricityTag);
    SystemOrbitalElement(sys, PeriodTag);
  }

  lemma SystemOrbitalElement(sys: StarSystem, tag: Tag)
    requires SectionOf(tag) == OrbitalSection
    ensures LeafTexts(SystemLines(sys), tag) == LeafTexts(OrbitalLines(sys), tag)
  {
    var sh := LeafShape(tag);
    SystemSelect(sys, sh);
    SystemHeadWithin(sys);
    AbsentSection(SystemHeadLines(sys), {SystemSection}, sh);
    StarsWithin(sys.stars);
    AbsentSection(StarsLines(sys.stars), StarSections, sh);
    assert Select(SystemLines(sys), sh) == Select(OrbitalLines(sys), sh);
  }

  /** The lines of a shape the header and the orbital elements never use
      are exactly those of the star blocks. */
  lemma SystemStarPart(sys: StarSystem, sh: Shape)
    requires SectionOf(sh.tag) != SystemSection && SectionOf(sh.tag) != OrbitalSection
    ensures Select(SystemLines(sys), sh) == Select(StarsLines(sys.stars), sh)
  {
    SystemSelect(sys, sh);
    SystemHeadWithin(sys);
    AbsentSection(SystemHeadLines(sys), {SystemSection}, sh);
    OrbitalWithin(sys);
    AbsentSection(OrbitalLines(sys), OrbitalSections, sh);
  }

  /** One `<star>` block per star, in list order. */
  lemma SystemStars(sys: StarSystem)
    ensures Count(SystemLines(sys), OpenShape(StarTag)) == |sys.stars|
    ensures LeafTexts(SystemLines(sys), SequenceTag) == Sequences(sys.stars)
  {
    StarsInOrder(sys.stars);
    SystemStarPart(sys, OpenShape(StarTag));
    SystemStarPart(sys, LeafShape(SequenceTag));
  }

  /** The star list has one opening and one closing `stars` tag. */
  lemma StarsBlockTag(ss: seq<Star>, sh: Shape)
    requires sh == OpenShape(StarsTag) || sh == CloseShape(StarsTag)
    ensures Select(StarsBlock(ss), sh) == [if sh.OpenShape? then Open(StarsTag) else Close(StarsTag)]
  {
    var o, m, c := [Open(StarsTag)], StarsLines(ss), [Close(StarsTag)];
    SelectAppend(o, m, sh);
    SelectAppend(o + m, c, sh);
    StarsWithin(ss);
    AbsentSection(m, StarSections, sh);
    if sh == OpenShape(StarsTag) {
      SelectOne(o, sh, 0);
      SelectNone(c, sh);
    } else {
      SelectNone(o, sh);
      SelectOne(c, sh, 0);
    }
  }

  /** The document has one `<stars>` element: one opening and one closing tag. */
  lemma SystemStarsTag(sys: StarSystem, sh: Shape)
    requires sh == OpenShape(StarsTag) || sh == CloseShape(StarsTag)
    ensures Count(SystemLines(sys), sh) == 1
  {
    var h, x, b, e := SystemHeadLines(sys), OrbitalLines(sys), StarsBlock(sys.stars), [Close(StarsystemTag)];
    SelectAppend(h, x, sh);
    SelectAppend(h + x, b, sh);
    SelectAppend(h + x + b, e, sh);
    SelectNone(h, sh);
    OrbitalWithin(sys);
    AbsentSection(x, OrbitalSections, sh);
    StarsBlockTag(sys.stars, sh);
    SelectNone(e, sh);
  }

  /** One `<stars>` element around one `<star>` block per star. */
  lemma SystemStarsWrapper(sys: StarSystem)
    ensures Count(SystemLines(sys), OpenShape(StarsTag)) == 1
    ensures Count(SystemLines(sys), CloseShape(StarsTag)) == 1
    ensures Count(SystemLines(sys), OpenShape(StarTag)) == |sys.stars|
    ensures Count(SystemLines(sys), CloseShape(StarTag)) == |sys.stars|
  {
    SystemStarsTag(sys, OpenShape(StarsTag));
    SystemStarsTag(sys, CloseShape(StarsTag));
    SystemStars(sys);
    StarsClose(sys.stars);
    SystemStarPart(sys, CloseShape(StarTag));
  }

  /** One `<orbit>` per orbit entry over all stars, and no `</orbit>`. */
  lemma SystemOrbits(sys: StarSystem)
    ensures Count(SystemLines(sys), OpenShape(OrbitTag)) == TotalOrbits(sys.stars)
    ensures Count(SystemLines(sys), CloseShape(OrbitTag)) == 0
  {
    StarsOrbits(sys.stars);
    SystemStarPart(sys, OpenShape(OrbitTag));
    SystemStarPart(sys, CloseShape(OrbitTag));
  }

  /** Forbidden-zone elements exactly for the stars that have one. */
  lemma SystemForbidden(sys: StarSystem)
    ensures LeafTexts(SystemLines(sys), ForbiddenInnerTag) == ForbiddenInners(sys.stars)
    ensures LeafTexts(SystemLines(sys), ForbiddenOuterTag) == ForbiddenOuters(sys.stars)
  {
    StarsForbidden(sys.stars);
    SystemStarPart(sys, LeafShape(ForbiddenInnerTag));
    SystemStarPart(sys, LeafShape(ForbiddenOuterTag));
  }

  // ---------------------------------------------------------------------
  // The text
  // ---------------------------------------------------------------------

  /** The text of a block starts with the text of its first line. */
  lemma RenderStartsWith(ls: seq<Line>)
    requires |ls| > 0
    ensures |RenderAll(ls)| >= |Render(ls[0])|
    ensures RenderAll(ls)[..|Render(ls[0])|] == Render(ls[0])
  {
  }

  /** The text of a block ends with the text of its last line. */
  lemma RenderEndsWith(ls: seq<Line>)
    requires |ls| > 0
    ensures |RenderAll(ls)| >= |Render(ls[|ls| - 1])|
    ensures var r, l := RenderAll(ls), Render(ls[|ls| - 1]); r[|r| - |l|..] == l
  {
    var init := ls[..|ls| - 1];
    assert ls == init + [ls[|ls| - 1]];
    RenderAllAppend(init, [ls[|ls| - 1]]);
    assert [ls[|ls| - 1]][1..] == [];
  }

  /** The document's text opens and closes `<starsystem>`. */
  lemma SystemTextFramed(sys: StarSystem)
    ensures var r := RenderAll(SystemLines(sys));
      |r| >= 14 && r[..13] == "<starsystem>\n" && r[|r| - 14..] == "</starsystem>\n"
  {
    var ls := SystemLines(sys);
    SystemLinesFramed(sys);
    RenderStartsWith(ls);
    RenderEndsWith(ls);
    SystemFrameTexts();
  }

  /** A star's text opens and closes `<star>`. */
  lemma StarTextFramed(s: Star)
    ensures var r := RenderAll(StarLines(s));
      |r| >= 8 && r[..7] == "<star>\n" && r[|r| - 8..] == "</star>\n"
  {
    var ls := StarLines(s);
    StarLinesFramed(s);
    RenderStartsWith(ls);
    RenderEndsWith(ls);
    StarFrameTexts();
  }

  /** The document's lines begin by opening `<starsystem>` and end by closing it. */
  lemma SystemLinesFramed(sys: StarSystem)
    ensures |SystemLines(sys)| > 0
    ensures SystemLines(sys)[0] == Open(StarsystemTag)
    ensures SystemLines(sys)[|SystemLines(sys)| - 1] == Close(StarsystemTag)
  {
  }

  /** A star's lines begin by opening `<star>` and end by closing it. */
  lemma StarLinesFramed(s: Star)
    ensures |StarLines(s)| > 0
    ensures StarLines(s)[0] == Open(StarTag)
    ensures StarLines(s)[|StarLines(s)| - 1] == Close(StarTag)
  {
  }

  /** The texts `starprop` returns for the stars, one after the other. */
  function StarProps(ss: seq<Star>): string {
    if |ss| == 0 then "" else StarProp(ss[0]) + StarProps(ss[1..])
  }

  lemma {:induction false} StarsText(ss: seq<Star>)
    ensures RenderAll(StarsLines(ss)) == StarProps(ss)
    decreases |ss|
  {
    if |ss| > 0 {
      RenderAllAppend(StarLines(ss[0]), StarsLines(ss[1..]));
      StarsText(ss[1..]);
    }
  }

  /** The texts of the tags that frame a star block. */
  lemma StarFrameTexts()
    ensures Render(Open(StarTag)) == "<star>\n"
    ensures Render(Close(StarTag)) == "</star>\n"
  {
  }

  /** The texts of the tags that frame the document and its star list. */
  lemma SystemFrameTexts()
    ensures Render(Open(StarsystemTag)) == "<starsystem>\n"
    ensures Render(Close(StarsystemTag)) == "</starsystem>\n"
    ensures RenderAll([Open(StarsTag)]) == "<stars>\n"
    ensures RenderAll([Close(StarsTag)]) == "</stars>\n"
    ensures RenderAll([Close(StarsystemTag)]) == "</starsystem>\n"
  {
    assert [Open(StarsTag)][1..] == [];
    assert [Close(StarsTag)][1..] == [];
    assert [Close(StarsystemTag)][1..] == [];
  }

  /** The `<stars>` element holds the text of `starprop` for every star, in order. */
  lemma StarsBlockText(ss: seq<Star>)
    ensures RenderAll(StarsBlock(ss)) == "<stars>\n" + StarProps(ss) + "</stars>\n"
  {
    var o, m, c := [Open(StarsTag)], StarsLines(ss), [Close(StarsTag)];
    RenderAllAppend(o, m);
    RenderAllAppend(o + m, c);
    SystemFrameTexts();
    StarsText(ss);
  }

  /** `starsystemprop` is the header, the orbital elements, and the text of
      `starprop` for every star, in order, inside `<stars>`, then the
      closing tag. */
  lemma StarSystemPropComposes(sys: StarSystem)
    ensures StarSystemProp(sys)
      == RenderAll(SystemHeadLines(sys)) + RenderAll(OrbitalLines(sys))
         + ("<stars>\n" + StarProps(sys.stars) + "</stars>\n") + "</starsystem>\n"
  {
    var h, x, b, e := SystemHeadLines(sys), OrbitalLines(sys), StarsBlock(sys.stars), [Close(StarsystemTag)];
    RenderAllAppend(h, x);
    RenderAllAppend(h + x, b);
    RenderAllAppend(h + x + b, e);
    SystemFrameTexts();
    StarsBlockText(sys.stars);
  }
}
