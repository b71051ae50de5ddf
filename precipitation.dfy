/**
 * The precipitation cube and the two steps of the script that update it in
 * place: the unit conversion (`convert_pr_units`) and the land/ocean mask
 * (`apply_mask`).
 */
module Precipitation {
  import opened Errors
  import opened Grid

  /** The only units the converter accepts: a mass flux per area per time. */
  const FluxUnits: string := "kg m-2 s-1"
  /** The units the converter relabels the data with. */
  const DailyUnits: string := "mm/day"
  /** Seconds per day: 1 kg m-2 s-1 of water is 86400 mm/day. */
  const SecondsPerDay: real := 86400.0
  /** The realm name that selects the ocean branch of the mask rule. */
  const Ocean: string := "ocean"
  /** The land-area-fraction percentage at which a cell counts as land. */
  const LandThreshold: real := 50.0

  /**
   * The value of a cube: `steps` time samples of `cells` spatial cells,
   * stored time-major in `data`, with one mask flag (true = hidden) per value
   * and the file's global attributes.
   */
  datatype Field = Field(data: seq<real>, units: string, mask: seq<bool>, steps: nat, cells: nat,
                         attributes: map<string, string>)
  {
    predicate WellShaped()
    {
      steps > 0 && Tiled(|data|, steps, cells) && |mask| == |data|
    }
  }

  /** What `convert_pr_units` turns a cube into, or the assertion it fails. */
  function Converted(f: Field): (r: Result<Field>)
    ensures r.Failure? <==> f.units != FluxUnits
    ensures r.Failure? ==> r.error == UnitsAssertion(f.units)
    ensures r.Success? ==>
              && r.value.units == DailyUnits
              && |r.value.data| == |f.data|
              && (forall i :: 0 <= i < |f.data| ==> r.value.data[i] == SecondsPerDay * f.data[i])
              && r.value.mask == f.mask
              && r.value.steps == f.steps && r.value.cells == f.cells
              && r.value.attributes == f.attributes
  {
    if f.units != FluxUnits then Failure(UnitsAssertion(f.units))
    else Success(f.(data := Scaled(f.data, SecondsPerDay), units := DailyUnits))
  }

  /**
   * The mask built from a land-area-fraction grid: for realm "ocean" the
   * cells below 50 are hidden, for every other realm string the cells at or
   * above 50.
   */
  function HiddenCells(sftlf: seq<real>, realm: string): (hidden: seq<bool>)
    ensures |hidden| == |sftlf|
    ensures realm == Ocean ==>
              forall i :: 0 <= i < |sftlf| ==> (hidden[i] <==> sftlf[i] < 50.0)
    ensures realm != Ocean ==>
              forall i :: 0 <= i < |sftlf| ==> (hidden[i] <==> sftlf[i] >= 50.0)
  {
    if realm == Ocean then Below(sftlf, LandThreshold) else AtLeast(sftlf, LandThreshold)
  }

  /** A misspelt or unknown realm masks exactly like "land". */
  lemma UnknownRealmIsLand(sftlf: seq<real>, realm: string)
    requires realm != Ocean
    ensures HiddenCells(sftlf, realm) == HiddenCells(sftlf, "land")
  {
  }

  /**
   * The "ocean" mask and any other realm's mask over one grid are pointwise
   * complements, the boundary value 50 included (hidden for the non-ocean
   * realm, visible for "ocean").
   */
  lemma MasksComplement(sftlf: seq<real>, realm: string)
    requires realm != Ocean
    ensures forall i :: 0 <= i < |sftlf| ==>
              HiddenCells(sftlf, Ocean)[i] == !HiddenCells(sftlf, realm)[i]
    ensures forall i :: 0 <= i < |sftlf| && sftlf[i] == LandThreshold ==>
              HiddenCells(sftlf, realm)[i] && !HiddenCells(sftlf, Ocean)[i]
  {
  }

  /**
   * What `apply_mask` turns a cube into: the mask is replaced wholesale by
   * the realm's rule over `sftlf`; values, units, shape and attributes stay.
   */
  function Masked(f: Field, sftlf: seq<real>, realm: string): (g: Field)
    ensures g.data == f.data && g.units == f.units && g.attributes == f.attributes
    ensures g.steps == f.steps && g.cells == f.cells
    ensures f.WellShaped() && |sftlf| == |f.data| ==> g.WellShaped()
    ensures |g.mask| == |sftlf|
    ensures forall i :: 0 <= i < |sftlf| ==>
              (g.mask[i] <==> if realm == Ocean then sftlf[i] < 50.0 else sftlf[i] >= 50.0)
  {
    f.(mask := HiddenCells(sftlf, realm))
  }

  /** The new mask does not depend on the mask the cube had before. */
  lemma MaskedIgnoresOldMask(f: Field, sftlf: seq<real>, realm: string, oldMask: seq<bool>)
    ensures Masked(f.(mask := oldMask), sftlf, realm) == Masked(f, sftlf, realm)
  {
  }

  /** Masking twice with the same inputs is masking once. */
  lemma MaskedIdempotent(f: Field, sftlf: seq<real>, realm: string)
    ensures Masked(Masked(f, sftlf, realm), sftlf, realm) == Masked(f, sftlf, realm)
  {
  }

  /**
   * What `cube.collapsed('time', MEAN)` yields: one sample holding the time
   * mean of every cell, same units and attributes, nothing hidden.
   */
  function Collapsed(f: Field): (g: Field)
    requires f.WellShaped()
    ensures g.WellShaped() && g.steps == 1 && g.cells == f.cells
    ensures g.units == f.units && g.attributes == f.attributes
    ensures forall j :: 0 <= j < f.cells ==>
              g.data[j] == Sum(SeriesAt(f.data, f.steps, f.cells, j)) / (f.steps as real)
  {
    Field(TimeMean(f.data, f.steps, f.cells), f.units, Constant(f.cells, false), 1, f.cells,
          f.attributes)
  }

  /** An iris cube, as far as the script reads and writes it. */
  class Cube {
    var data: seq<real>
    var units: string
    var mask: seq<bool>
    const steps: nat
    const cells: nat
    const attributes: map<string, string>

    ghost predicate Valid()
      reads this
    {
      State().WellShaped()
    }

    /** The cube's current value. */
    function State(): Field
      reads this
    {
      Field(data, units, mask, steps, cells, attributes)
    }

    constructor (f: Field)
      requires f.WellShaped()
      ensures Valid() && State() == f
    {
      data, units, mask := f.data, f.units, f.mask;
      steps, cells, attributes := f.steps, f.cells, f.attributes;
    }

    /**
     * `convert_pr_units`: refuse any units but "kg m-2 s-1", leaving the cube
     * as it was; otherwise rescale every value to mm/day in place.
     */
    method ConvertPrUnits() returns (r: Outcome)
      requires Valid()
      modifies this
      ensures Valid()
      ensures r.Fail? <==> old(units) != FluxUnits
      ensures r.Fail? ==> r.error == UnitsAssertion(old(units)) && State() == old(State())
      ensures r.Pass? ==> State() == Converted(old(State())).value
    {
      if units != FluxUnits {
        return Fail(UnitsAssertion(units));
      }
      data := Scaled(data, SecondsPerDay);
      units := DailyUnits;
      return Pass;
    }

    /**
     * `apply_mask`: overwrite the mask with the one the realm selects from
     * the land-area-fraction grid `sftlf`, which covers the same cells.
     */
    method ApplyMask(sftlf: seq<real>, realm: string)
      requires Valid() && |sftlf| == |data|
      modifies this
      ensures Valid()
      ensures State() == Masked(old(State()), sftlf, realm)
    {
      mask := HiddenCells(sftlf, realm);
    }

    /** `collapsed('time', MEAN)`: a new cube holding the time mean. */
    method CollapsedTime() returns (clim: Cube)
      requires Valid()
      ensures fresh(clim) && clim.Valid()
      ensures clim.State() == Collapsed(State())
    {
      clim := new Cube(Collapsed(State()));
    }
  }
}
