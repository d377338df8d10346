/** A major moon (`Moon` in gurps/space/satellites.py): the size rule, the
    volcanic bonus, the inherited blackbody temperature, and the fixed order
    in which the constructor derives the moon's attributes.

    The dice roll is an argument. The attribute steps inherited from the
    world generator are opaque named steps; of them only the world type is
    carried, because the volcanic bonus reads it. */
module Satellites {
  import opened Wrappers
  import opened SizeTables

  /** The parent type for which the size rule and the volcanic bonus branch. */
  const GasGiant: string := "Gas Giant"

  /** The world type that earns the large volcanic bonus. */
  const Sulfur: string := "Sulfur"

  /** What a moon reads from its parent planet: `getSize()`, `type()` and `getBBTemp()`. */
  datatype Parent = Parent(size: string, kind: string, bbtemp: real)

  /** Why construction stops: a failed size-table lookup (the `KeyError` of
      `makesize`), or an exception raised by one of the inherited world steps. */
  datatype Error = MissingSizeLabel(name: string) | WorldStepFailed(step: Step)

  /** The orbit the star system attaches later, modelled as a real; the star
      system's orbit object is not part of this model. */
  type Orbit = real

  // ---------------------------------------------------------------------
  // Size
  // ---------------------------------------------------------------------

  function Max0(x: int): nat {
    if x < 0 then 0 else x
  }

  /** The offset `makesize` subtracts from the parent's ordinal, as the code
      is written: the `if` for rolls of 15 or more is not chained to the
      `if`/`else` after it, so its store of `parentsize - 1` is always
      overwritten and an offset of 1 never survives. */
  function SizeOffset(roll: int): (offset: int)
    ensures offset == 2 || offset == 3
    ensures offset != 1
  {
    if roll >= 12 then 2 else 3
  }

  /** The three-tier reading of the same rule (1 from 15 up, 2 from 12 up,
      3 below), kept as the reference the written code is compared with. */
  function TieredOffset(roll: int): (offset: int)
    ensures 1 <= offset <= 3
  {
    if roll >= 15 then 1 else if roll >= 12 then 2 else 3
  }

  /** The written rule and the tiered rule agree exactly on rolls below 15. */
  lemma AsWrittenAgreesWithTieredBelow15(roll: int)
    ensures SizeOffset(roll) == TieredOffset(roll) <==> roll < 15
    ensures roll >= 15 ==> SizeOffset(roll) == TieredOffset(roll) + 1
  {
  }

  /** The child's ordinal from the parent's: subtract the offset, clamp at 0. */
  function ChildOrdinal(parentsize: nat, roll: int): (child: nat)
    ensures child <= parentsize
    ensures parentsize > 0 ==> child < parentsize
    ensures child == 0 <==> parentsize <= SizeOffset(roll)
  {
    Max0(parentsize - SizeOffset(roll))
  }

  /** Every roll of 12 or more, 15 to 18 included, takes two steps off the
      parent; every lower roll takes three. */
  lemma ChildOrdinalByRoll(parentsize: nat, roll: int)
    ensures roll >= 12 ==> ChildOrdinal(parentsize, roll) == Max0(parentsize - 2)
    ensures roll < 12 ==> ChildOrdinal(parentsize, roll) == Max0(parentsize - 3)
    ensures ChildOrdinal(parentsize, roll) == Max0(parentsize - 1) ==> parentsize <= 1
  {
  }

  /** A higher roll or a larger parent never gives a smaller moon. */
  lemma ChildOrdinalMonotone(p1: nat, p2: nat, roll1: int, roll2: int)
    requires p1 <= p2
    requires roll1 <= roll2
    ensures ChildOrdinal(p1, roll1) <= ChildOrdinal(p2, roll2)
  {
  }

  /** The ordinal the size rule starts from: the parent's own, looked up
      first (so an unknown label fails even for a gas giant), then replaced
      by the "Large" ordinal when the parent is a gas giant. */
  function ParentOrdinal(t: SizeTable, parent: Parent): (r: Result<nat, Error>)
    ensures r.Failure? <==> parent.size !in t.labels || (parent.kind == GasGiant && LargeLabel !in t.labels)
    ensures parent.size !in t.labels ==> r == Failure(MissingSizeLabel(parent.size))
    ensures parent.size in t.labels && parent.kind == GasGiant && LargeLabel !in t.labels ==>
              r == Failure(MissingSizeLabel(LargeLabel))
    ensures r.Success? ==> r.value < |t.labels|
    ensures r.Success? && parent.kind == GasGiant ==> t.labels[r.value] == LargeLabel
    ensures r.Success? && parent.kind != GasGiant ==> t.labels[r.value] == parent.size
  {
    match SizeToInt(t, parent.size)
    case None => Failure(MissingSizeLabel(parent.size))
    case Some(own) =>
      if parent.kind == GasGiant then
        match SizeToInt(t, LargeLabel)
        case None => Failure(MissingSizeLabel(LargeLabel))
        case Some(large) => Success(large)
      else
        Success(own)
  }

  /** The parent's own label is looked up before "Large": a gas giant whose
      label is unknown fails on its own label even when "Large" is missing
      too, and fails on "Large" only once its own label is known. */
  lemma OwnLabelLookedUpFirst(t: SizeTable, parent: Parent, roll: int)
    requires parent.kind == GasGiant
    ensures parent.size !in t.labels ==> MakeSize(t, parent, roll) == Failure(MissingSizeLabel(parent.size))
    ensures parent.size in t.labels && LargeLabel !in t.labels ==>
              MakeSize(t, parent, roll) == Failure(MissingSizeLabel(LargeLabel))
  {
  }

  /** `makesize`: the moon's size label for a given 3d6 roll. The clamp
      keeps the `IntToSize` index in range, so the only failure is an
      unknown label. */
  function MakeSize(t: SizeTable, parent: Parent, roll: int): (r: Result<string, Error>)
    ensures r.Failure? <==> parent.size !in t.labels || (parent.kind == GasGiant && LargeLabel !in t.labels)
    ensures parent.size !in t.labels ==> r == Failure(MissingSizeLabel(parent.size))
    ensures parent.size in t.labels && parent.kind == GasGiant && LargeLabel !in t.labels ==>
              r == Failure(MissingSizeLabel(LargeLabel))
    ensures r.Success? ==> r.value in t.labels
  {
    match ParentOrdinal(t, parent)
    case Failure(e) => Failure(e)
    case Success(parentsize) => Success(IntToSize(t, ChildOrdinal(parentsize, roll)))
  }

  /** In a table with distinct labels the moon's ordinal is the parent's
      (or, for a gas giant, Large's) ordinal minus 2 for a roll of 12 or
      more and minus 3 otherwise, clamped at 0. */
  lemma MakeSizeOrdinal(t: SizeTable, parent: Parent, roll: int)
    requires Distinct(t)
    requires parent.size in t.labels
    requires parent.kind == GasGiant ==> LargeLabel in t.labels
    ensures MakeSize(t, parent, roll).Success?
    ensures var base := if parent.kind == GasGiant then SizeToInt(t, LargeLabel).value else SizeToInt(t, parent.size).value;
            SizeToInt(t, MakeSize(t, parent, roll).value)
              == Some(if roll >= 12 then Max0(base - 2) else Max0(base - 3))
  {
  }

  /** A moon of a planet that is not a gas giant is never larger than its
      parent, and strictly smaller unless the parent has ordinal 0. */
  lemma MakeSizeNotAboveParent(t: SizeTable, parent: Parent, roll: int)
    requires Distinct(t)
    requires parent.size in t.labels
    requires parent.kind != GasGiant
    ensures MakeSize(t, parent, roll).Success?
    ensures SizeToInt(t, MakeSize(t, parent, roll).value).value <= SizeToInt(t, parent.size).value
    ensures SizeToInt(t, parent.size).value > 0 ==>
              SizeToInt(t, MakeSize(t, parent, roll).value).value < SizeToInt(t, parent.size).value
  {
  }

  /** For a gas giant parent the result depends on the roll only: the
      parent's own size label is looked up but then discarded. */
  lemma GasGiantParentSizeIrrelevant(t: SizeTable, p1: Parent, p2: Parent, roll: int)
    requires p1.kind == GasGiant && p2.kind == GasGiant
    requires p1.size in t.labels && p2.size in t.labels
    ensures MakeSize(t, p1, roll) == MakeSize(t, p2, roll)
  {
  }

  /** Larger parents and higher rolls give moons at least as large. */
  lemma MakeSizeMonotone(t: SizeTable, p1: Parent, p2: Parent, roll1: int, roll2: int)
    requires Distinct(t)
    requires p1.size in t.labels && p2.size in t.labels
    requires p1.kind != GasGiant && p2.kind != GasGiant
    requires SizeToInt(t, p1.size).value <= SizeToInt(t, p2.size).value
    requires roll1 <= roll2
    ensures MakeSize(t, p1, roll1).Success? && MakeSize(t, p2, roll2).Success?
    ensures SizeToInt(t, MakeSize(t, p1, roll1).value).value <= SizeToInt(t, MakeSize(t, p2, roll2).value).value
  {
  }

  // ---------------------------------------------------------------------
  // The constructor's derivation order
  // ---------------------------------------------------------------------

  /** One derivation step of the constructor, named after the method it calls. */
  datatype Step =
    | BBTempStep | SizeStep | TypeStep | AtmosphereStep | HydrographicsStep
    | ClimateStep | DensityStep | DiameterStep | GravityStep | MassStep
    | PressureStep | VolcanismStep | TectonismStep | ResourcesStep
    | HabitabilityStep | AffinityStep

  /** The steps in the order the constructor calls them. */
  function Pipeline(): (p: seq<Step>)
    ensures |p| == 16
    ensures forall i, j :: 0 <= i < j < |p| ==> p[i] != p[j]
  {
    [BBTempStep, SizeStep, TypeStep, AtmosphereStep, HydrographicsStep,
     ClimateStep, DensityStep, DiameterStep, GravityStep, MassStep,
     PressureStep, VolcanismStep, TectonismStep, ResourcesStep,
     HabitabilityStep, AffinityStep]
  }

  /** A finished moon. `steps` records the derivation steps in the order they ran. */
  datatype Moon = Moon(
    parent: Parent,
    bbtemp: real,
    orbit: Option<Orbit>,
    sizeClass: string,
    worldType: string,
    steps: seq<Step>)

  /** The attributes derived so far while the constructor runs. */
  datatype Builder = Builder(
    bbtemp: Option<real>,
    sizeClass: Option<string>,
    worldType: Option<string>,
    steps: seq<Step>)

  /** The steps whose methods are inherited from the world generator:
      every step but the temperature copy and the size rule. */
  predicate IsWorldStep(s: Step) {
    s != BBTempStep && s != SizeStep
  }

  /** The error a step raises, if any. The world generator is not part of
      this model, so `raising` names the inherited steps that raise; the
      size step fails exactly when the size rule does, and copying the
      parent's temperature never fails. */
  function StepError(s: Step, t: SizeTable, parent: Parent, sizeRoll: int, raising: set<Step>)
    : (e: Option<Error>)
    ensures e.Some? <==> (s == SizeStep && MakeSize(t, parent, sizeRoll).Failure?) || (IsWorldStep(s) && s in raising)
    ensures e.Some? && s == SizeStep ==> e.value == MakeSize(t, parent, sizeRoll).error
  {
    if s == SizeStep then
      (match MakeSize(t, parent, sizeRoll)
       case Failure(err) => Some(err)
       case Success(_) => None)
    else if IsWorldStep(s) && s in raising then Some(WorldStepFailed(s))
    else None
  }

  /** The error of the first step of `steps` that raises: the exception
      that escapes the constructor. */
  function FirstError(steps: seq<Step>, t: SizeTable, parent: Parent, sizeRoll: int, raising: set<Step>)
    : (e: Option<Error>)
    ensures e.Some? <==> exists i :: 0 <= i < |steps| && StepError(steps[i], t, parent, sizeRoll, raising).Some?
  {
    if |steps| == 0 then None
    else if StepError(steps[0], t, parent, sizeRoll, raising).Some? then
      StepError(steps[0], t, parent, sizeRoll, raising)
    else
      var rest := FirstError(steps[1..], t, parent, sizeRoll, raising);
      assert forall i :: 0 < i < |steps| ==> steps[i] == steps[1..][i - 1];
      rest
  }

  /** A step that raises after steps that did not decides the error. */
  lemma {:induction false} FirstErrorAt(steps: seq<Step>, i: nat, t: SizeTable, parent: Parent, sizeRoll: int, raising: set<Step>)
    requires i < |steps|
    requires forall j :: 0 <= j < i ==> StepError(steps[j], t, parent, sizeRoll, raising).None?
    requires StepError(steps[i], t, parent, sizeRoll, raising).Some?
    ensures FirstError(steps, t, parent, sizeRoll, raising) == StepError(steps[i], t, parent, sizeRoll, raising)
    decreases i
  {
    if i > 0 {
      assert StepError(steps[0], t, parent, sizeRoll, raising).None?;
      FirstErrorAt(steps[1..], i - 1, t, parent, sizeRoll, raising);
    }
  }

  /** Construction stops exactly when the size rule fails or some inherited
      step raises; a size failure always wins, because no inherited step
      runs before the size step. */
  lemma PipelineErrors(t: SizeTable, parent: Parent, sizeRoll: int, raising: set<Step>)
    ensures FirstError(Pipeline(), t, parent, sizeRoll, raising).Some? <==>
              MakeSize(t, parent, sizeRoll).Failure? || exists s :: s in raising && IsWorldStep(s)
    ensures MakeSize(t, parent, sizeRoll).Failure? ==>
              FirstError(Pipeline(), t, parent, sizeRoll, raising) == Some(MakeSize(t, parent, sizeRoll).error)
  {
    var p := Pipeline();
    if MakeSize(t, parent, sizeRoll).Failure? {
      assert p[1] == SizeStep;
      FirstErrorAt(p, 1, t, parent, sizeRoll, raising);
    }
    if s :| s in raising && IsWorldStep(s) {
      assert StepError(p[StepIndex(s)], t, parent, sizeRoll, raising).Some?;
    }
  }

  /** Runs one step: the step either raises its error or records itself and
      stores what it derives. The type step stores the outcome of the world
      generator's `maketype`; the other inherited steps are opaque. */
  function RunStep(b: Builder, s: Step, t: SizeTable, parent: Parent, sizeRoll: int, worldType: string, raising: set<Step>)
    : (r: Result<Builder, Error>)
    ensures r.Failure? <==> StepError(s, t, parent, sizeRoll, raising).Some?
    ensures r.Failure? ==> r.error == StepError(s, t, parent, sizeRoll, raising).value
    ensures r.Success? ==> r.value.steps == b.steps + [s]
    ensures r.Success? ==> r.value.bbtemp == if s == BBTempStep then Some(parent.bbtemp) else b.bbtemp
    ensures r.Success? ==> r.value.sizeClass == if s == SizeStep then Some(MakeSize(t, parent, sizeRoll).value) else b.sizeClass
    ensures r.Success? ==> r.value.worldType == if s == TypeStep then Some(worldType) else b.worldType
  {
    var b' := b.(steps := b.steps + [s]);
    match s
    case BBTempStep => Success(b'.(bbtemp := Some(parent.bbtemp)))
    case SizeStep =>
      (match MakeSize(t, parent, sizeRoll)
       case Failure(e) => Failure(e)
       case Success(size) => Success(b'.(sizeClass := Some(size))))
    case _ =>
      if s in raising then Failure(WorldStepFailed(s))
      else if s == TypeStep then Success(b'.(worldType := Some(worldType)))
      else Success(b')
  }

  /** Where the steps that derive a stored attribute sit in the order. */
  lemma PipelineAt(i: nat)
    requires i < |Pipeline()|
    ensures Pipeline()[i] == BBTempStep <==> i == 0
    ensures Pipeline()[i] == SizeStep <==> i == 1
    ensures Pipeline()[i] == TypeStep <==> i == 2
  {
  }

  /** The builder after the first `i` steps have run without raising. */
  predicate BuiltUpTo(b: Builder, i: nat, t: SizeTable, parent: Parent, sizeRoll: int, worldType: string) {
    && i <= |Pipeline()|
    && b.steps == Pipeline()[..i]
    && b.bbtemp == (if i >= 1 then Some(parent.bbtemp) else None)
    && (i >= 2 ==> MakeSize(t, parent, sizeRoll).Success?)
    && b.sizeClass == (if i >= 2 then Some(MakeSize(t, parent, sizeRoll).value) else None)
    && b.worldType == (if i >= 3 then Some(worldType) else None)
  }

  /** Running the next step without raising extends the builder by that step. */
  lemma RunStepAdvances(b: Builder, i: nat, t: SizeTable, parent: Parent, sizeRoll: int, worldType: string, raising: set<Step>)
    requires i < |Pipeline()|
    requires BuiltUpTo(b, i, t, parent, sizeRoll, worldType)
    requires RunStep(b, Pipeline()[i], t, parent, sizeRoll, worldType, raising).Success?
    ensures BuiltUpTo(RunStep(b, Pipeline()[i], t, parent, sizeRoll, worldType, raising).value, i + 1, t, parent, sizeRoll, worldType)
  {
    PipelineAt(i);
    assert Pipeline()[..i + 1] == Pipeline()[..i] + [Pipeline()[i]];
  }

  /** What construction guarantees of a moon: the parent's temperature was
      copied and every step ran, in the constructor's order. */
  predicate Constructed(m: Moon) {
    m.bbtemp == m.parent.bbtemp && m.steps == Pipeline()
  }

  /** Runs the steps in the constructor's order until one raises: the
      outcome is that step's error, or the builder after all of them. */
  method RunPipeline(t: SizeTable, parent: Parent, sizeRoll: int, worldType: string, raising: set<Step>)
    returns (r: Result<Builder, Error>)
    ensures r.Failure? ==> Some(r.error) == FirstError(Pipeline(), t, parent, sizeRoll, raising)
    ensures r.Success? ==> FirstError(Pipeline(), t, parent, sizeRoll, raising).None?
    ensures r.Success? ==> BuiltUpTo(r.value, |Pipeline()|, t, parent, sizeRoll, worldType)
  {
    var pipeline := Pipeline();
    var b := Builder(None, None, None, []);
    var i := 0;
    while i < |pipeline|
      invariant 0 <= i <= |pipeline|
      invariant forall j :: 0 <= j < i ==> StepError(pipeline[j], t, parent, sizeRoll, raising).None?
      invariant BuiltUpTo(b, i, t, parent, sizeRoll, worldType)
    {
      var next := RunStep(b, pipeline[i], t, parent, sizeRoll, worldType, raising);
      if next.Failure? {
        FirstErrorAt(pipeline, i, t, parent, sizeRoll, raising);
        return Failure(next.error);
      }
      RunStepAdvances(b, i, t, parent, sizeRoll, worldType, raising);
      b := next.value;
      i := i + 1;
    }
    return Success(b);
  }

  /** The constructor: runs every step once, in order, and leaves the orbit
      unset. The first step that raises aborts construction with its error,
      so no partial moon exists. */
  method Construct(t: SizeTable, parent: Parent, sizeRoll: int, worldType: string, raising: set<Step>)
    returns (r: Result<Moon, Error>)
    ensures r.Failure? <==> MakeSize(t, parent, sizeRoll).Failure? || exists s :: s in raising && IsWorldStep(s)
    ensures r.Failure? ==> Some(r.error) == FirstError(Pipeline(), t, parent, sizeRoll, raising)
    ensures MakeSize(t, parent, sizeRoll).Failure? ==> r == Failure(MakeSize(t, parent, sizeRoll).error)
    ensures r.Success? ==> Constructed(r.value)
    ensures r.Success? ==> r.value.parent == parent
    ensures r.Success? ==> r.value.orbit == None
    ensures r.Success? ==> r.value.sizeClass == MakeSize(t, parent, sizeRoll).value
    ensures r.Success? ==> r.value.worldType == worldType
  {
    PipelineErrors(t, parent, sizeRoll, raising);
    var built := RunPipeline(t, parent, sizeRoll, worldType, raising);
    if built.Failure? {
      return Failure(built.error);
    }
    var b := built.value;
    assert Pipeline()[..|Pipeline()|] == Pipeline();
    r := Success(Moon(parent, b.bbtemp.value, None, b.sizeClass.value, b.worldType.value, b.steps));
  }

  /** Position of a step in the constructor's order. */
  function StepIndex(s: Step): (i: nat)
    ensures i < |Pipeline()| && Pipeline()[i] == s
  {
    match s
    case BBTempStep => 0
    case SizeStep => 1
    case TypeStep => 2
    case AtmosphereStep => 3
    case HydrographicsStep => 4
    case ClimateStep => 5
    case DensityStep => 6
    case DiameterStep => 7
    case GravityStep => 8
    case MassStep => 9
    case PressureStep => 10
    case VolcanismStep => 11
    case TectonismStep => 12
    case ResourcesStep => 13
    case HabitabilityStep => 14
    case AffinityStep => 15
  }

  /** No step is skipped and none runs twice. */
  lemma EveryStepRunsOnce(s: Step)
    ensures s in Pipeline()
    ensures forall i :: 0 <= i < |Pipeline()| && Pipeline()[i] == s ==> i == StepIndex(s)
  {
  }

  /** Every step a later step reads has already run: the blackbody
      temperature comes first, and the world type (read by the volcanic
      bonus) is fixed before volcanism. */
  lemma StepOrder()
    ensures StepIndex(BBTempStep) == 0
    ensures StepIndex(SizeStep) < StepIndex(TypeStep)
    ensures StepIndex(TypeStep) < StepIndex(VolcanismStep)
  {
  }

  // ---------------------------------------------------------------------
  // Accessors, the orbit, the volcanic bonus
  // ---------------------------------------------------------------------

  /** `getBBTemp`: for a constructed moon, the parent's blackbody temperature. */
  function GetBBTemp(m: Moon): (temp: real)
    ensures Constructed(m) ==> temp == m.parent.bbtemp
  {
    m.bbtemp
  }

  /** `setOrbit`: the one mutator after construction. */
  function SetOrbit(m: Moon, orbit: Option<Orbit>): (r: Moon)
    ensures r.orbit == orbit
    ensures r.parent == m.parent && r.bbtemp == m.bbtemp && r.sizeClass == m.sizeClass
    ensures r.worldType == m.worldType && r.steps == m.steps
    ensures Constructed(m) ==> Constructed(r)
  {
    m.(orbit := orbit)
  }

  /** Setting the orbit again overrides the earlier setting, and setting
      it back restores the moon exactly. */
  lemma SetOrbitLastWins(m: Moon, a: Option<Orbit>, b: Option<Orbit>)
    ensures SetOrbit(SetOrbit(m, a), b) == SetOrbit(m, b)
    ensures SetOrbit(SetOrbit(m, a), m.orbit) == m
  {
  }

  /** `volcanicbonus`: Sulfur first, then a gas giant parent, otherwise nothing. */
  function VolcanicBonus(m: Moon): (bonus: int)
    ensures bonus in {0, 5, 60}
    ensures bonus == 60 <==> m.worldType == Sulfur
    ensures bonus == 5 <==> m.worldType != Sulfur && m.parent.kind == GasGiant
    ensures bonus == 0 <==> m.worldType != Sulfur && m.parent.kind != GasGiant
  {
    if m.worldType == Sulfur then 60
    else if m.parent.kind == GasGiant then 5
    else 0
  }

  /** The two bonuses as if they were added up instead of ranked. */
  function SummedBonus(m: Moon): (bonus: int)
    ensures bonus in {0, 5, 60, 65}
  {
    (if m.worldType == Sulfur then 60 else 0) + (if m.parent.kind == GasGiant then 5 else 0)
  }

  /** The ranking differs from the sum only for a Sulfur moon of a gas
      giant, which gets 60 and never 65. */
  lemma BonusIsRankedNotSummed(m: Moon)
    ensures VolcanicBonus(m) == SummedBonus(m) <==> !(m.worldType == Sulfur && m.parent.kind == GasGiant)
    ensures VolcanicBonus(m) != 65
  {
  }

  /** Attaching an orbit changes neither the bonus nor the temperature. */
  lemma SetOrbitKeepsDerived(m: Moon, orbit: Option<Orbit>)
    ensures VolcanicBonus(SetOrbit(m, orbit)) == VolcanicBonus(m)
    ensures GetBBTemp(SetOrbit(m, orbit)) == GetBBTemp(m)
  {
  }
}
