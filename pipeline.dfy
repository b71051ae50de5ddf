/**
 * The stage order of `main`: read, convert units, take the time mean,
 * optionally mask, plot, then write the provenance log and save the figure.
 */
module Pipeline {
  import opened Errors
  import opened Grid
  import opened Precipitation
  import opened Provenance

  /** `--mask SFTLF_FILE REALM`, with the land-area-fraction grid already read. */
  datatype MaskRequest = MaskRequest(sftlf: seq<real>, realm: string)

  /** A file the script writes, in the order it writes them. */
  datatype Output = LogWritten(path: string) | FigureSaved(path: string)

  /** How a run ends, the climatology it computed and the files it wrote. */
  datatype Report = Report(outcome: Outcome, clim: Option<Field>, written: seq<Output>)

  /** The attribute the plot title reads. */
  const ModelId: string := "model_id"
  /** The attribute the provenance record reads. */
  const History: string := "history"

  /** The value of `read_data`'s result: None when no time sample matched the month. */
  function Loaded(cube: Cube?): Option<Field>
    reads cube
  {
    if cube == null then None else Some(cube.State())
  }

  predicate MaskFits(loaded: Option<Field>, request: Option<MaskRequest>)
  {
    loaded.Some? && request.Some? ==> |request.value.sftlf| == loaded.value.cells
  }

  /** Stages 2 to 4: convert units, then collapse time, then mask if asked. */
  function Climatology(loaded: Option<Field>, request: Option<MaskRequest>): (r: Result<Field>)
    requires loaded.Some? ==> loaded.value.WellShaped()
    requires MaskFits(loaded, request)
    ensures loaded.None? ==> r == Failure(NothingExtracted)
    ensures loaded.Some? && loaded.value.units != FluxUnits ==>
              r == Failure(UnitsAssertion(loaded.value.units))
    ensures r.Success? <==> loaded.Some? && loaded.value.units == FluxUnits
    ensures r.Success? ==>
              && r.value.WellShaped() && r.value.units == DailyUnits
              && r.value.steps == 1 && r.value.cells == loaded.value.cells
              && r.value.attributes == loaded.value.attributes
  {
    if loaded.None? then Failure(NothingExtracted)
    else
      match Converted(loaded.value)
      case Failure(e) => Failure(e)
      case Success(converted) =>
        var clim := Collapsed(converted);
        if request.None? then Success(clim)
        else Success(Masked(clim, request.value.sftlf, request.value.realm))
  }

  /**
   * The whole run: the climatology; the plot, whose title reads the
   * "model_id" attribute; the provenance record, which reads the input's
   * "history" attribute; then the log, then the figure.
   */
  function Script(loaded: Option<Field>, request: Option<MaskRequest>, outfile: string): (r: Report)
    requires loaded.Some? ==> loaded.value.WellShaped()
    requires MaskFits(loaded, request)
    ensures r.outcome.Pass? <==> r.written != []
    ensures r.written != [] ==>
              LogName(outfile).Success? &&
              r.written == [LogWritten(LogName(outfile).value), FigureSaved(outfile)]
    ensures r.clim == match Climatology(loaded, request)
                      case Success(clim) => Some(clim)
                      case Failure(_) => None
    ensures Climatology(loaded, request).Failure? ==>
              r.outcome == Fail(Climatology(loaded, request).error)
  {
    match Climatology(loaded, request)
    case Failure(e) => Report(Fail(e), None, [])
    case Success(clim) =>
      if ModelId !in clim.attributes then Report(Fail(MissingAttribute(ModelId)), Some(clim), [])
      else if History !in loaded.value.attributes then
        Report(Fail(MissingAttribute(History)), Some(clim), [])
      else
      match LogName(outfile)
      case Failure(e) => Report(Fail(e), Some(clim), [])
      case Success(log) => Report(Pass, Some(clim), [LogWritten(log), FigureSaved(outfile)])
  }

  /**
   * `main`: `cube` is what `read_data` returned. The cube is converted in
   * place; the climatology is a new cube, masked in place when asked.
   */
  method Run(cube: Cube?, request: Option<MaskRequest>, outfile: string)
    returns (report: Report, clim: Cube?)
    requires cube != null ==> cube.Valid()
    requires MaskFits(Loaded(cube), request)
    modifies cube
    ensures report == Script(old(Loaded(cube)), request, outfile)
    ensures report.clim.Some? ==> clim != null && fresh(clim) && clim.State() == report.clim.value
    ensures cube != null ==>
              (cube.State() ==
                 match Converted(old(cube.State()))
                 case Success(converted) => converted
                 case Failure(_) => old(cube.State()))
  {
    if cube == null {
      return Report(Fail(NothingExtracted), None, []), null;
    }
    var converted := cube.ConvertPrUnits();
    if converted.Fail? {
      return Report(converted, None, []), null;
    }
    clim := cube.CollapsedTime();
    if request.Some? {
      clim.ApplyMask(request.value.sftlf, request.value.realm);
    }
    // plot_data renders `clim`; only its read of the title attribute is modelled
    if ModelId !in clim.attributes {
      return Report(Fail(MissingAttribute(ModelId)), Some(clim.State()), []), clim;
    }
    if History !in cube.attributes {
      return Report(Fail(MissingAttribute(History)), Some(clim.State()), []), clim;
    }
    var written: seq<Output> := [];
    var log := LogName(outfile);
    if log.Failure? {
      return Report(Fail(log.error), Some(clim.State()), written), clim;
    }
    written := written + [LogWritten(log.value)];
    written := written + [FigureSaved(outfile)];
    report := Report(Pass, Some(clim.State()), written);
  }

  /**
   * The figure is saved only after the log, and only when the output name
   * has exactly one '.' and both attributes are present: a naming error
   * means no file is written at all.
   */
  lemma FigureFollowsLog(loaded: Option<Field>, request: Option<MaskRequest>, outfile: string)
    requires loaded.Some? ==> loaded.value.WellShaped()
    requires MaskFits(loaded, request)
    ensures var report := Script(loaded, request, outfile);
            && (FigureSaved(outfile) in report.written <==>
                  && Climatology(loaded, request).Success?
                  && ModelId in loaded.value.attributes && History in loaded.value.attributes
                  && Count(outfile, '.') == 1)
            && (report.written != [] ==>
                  report.written == [LogWritten(LogName(outfile).value), FigureSaved(outfile)])
            && (Count(outfile, '.') != 1 ==> report.written == [] && report.outcome.Fail?)
  {
  }

  /** A run with an output name like "my.map.png" fails and writes nothing. */
  lemma TwoPeriodsWriteNothing(loaded: Option<Field>, request: Option<MaskRequest>)
    requires loaded.Some? ==> loaded.value.WellShaped()
    requires MaskFits(loaded, request)
    ensures Script(loaded, request, "my.map.png").written == []
    ensures Script(loaded, request, "my.map.png").outcome.Fail?
  {
  }

  /**
   * The stage order: the climatology is the time mean of the converted
   * values, in mm/day, and when a mask is asked for its hidden cells are
   * exactly the ones the realm rule picks (the collapse does not undo it).
   */
  lemma ClimatologyStages(f: Field, request: Option<MaskRequest>)
    requires f.WellShaped() && f.units == FluxUnits
    requires MaskFits(Some(f), request)
    ensures Climatology(Some(f), request).Success?
    ensures var clim := Climatology(Some(f), request).value;
            && clim.units == DailyUnits && clim.steps == 1 && clim.cells == f.cells
            && |clim.data| == f.cells
            && (forall j :: 0 <= j < f.cells ==>
                  clim.data[j] == Sum(SeriesAt(Scaled(f.data, SecondsPerDay), f.steps, f.cells, j))
                                  / (f.steps as real))
            && (request.Some? ==> clim.mask == HiddenCells(request.value.sftlf, request.value.realm))
            && (request.None? ==> clim.mask == Constant(f.cells, false))
  {
  }

  /** Units other than "kg m-2 s-1" stop the run before anything is averaged or written. */
  lemma WrongUnitsStopRun(f: Field, request: Option<MaskRequest>, outfile: string)
    requires f.WellShaped() && f.units != FluxUnits
    requires MaskFits(Some(f), request)
    ensures Script(Some(f), request, outfile) == Report(Fail(UnitsAssertion(f.units)), None, [])
  {
  }

  /** No sample of the requested month: the run fails and writes nothing. */
  lemma NoSampleStopsRun(request: Option<MaskRequest>, outfile: string)
    ensures Script(None, request, outfile) == Report(Fail(NothingExtracted), None, [])
  {
  }

  /**
   * A field of one constant value c kg m-2 s-1, unmasked, gives the
   * climatology of constant value 86400 c mm/day at every cell.
   */
  lemma ConstantClimatology(f: Field, c: real)
    requires f.WellShaped() && f.units == FluxUnits
    requires forall i :: 0 <= i < |f.data| ==> f.data[i] == c
    ensures Climatology(Some(f), None) ==
              Success(Field(Constant(f.cells, SecondsPerDay * c), DailyUnits,
                            Constant(f.cells, false), 1, f.cells, f.attributes))
  {
    var converted := Converted(f).value;
    TimeMeanOfConstant(converted.data, f.steps, f.cells, SecondsPerDay * c);
  }

  /** Two January samples on a 3 x 3 grid, all 1.0 kg m-2 s-1: 86400.0 mm/day everywhere. */
  lemma TwoJanuarySamples()
    ensures var f := Field(Constant(18, 1.0), FluxUnits, Constant(18, false), 2, 9, map[]);
            Climatology(Some(f), None) ==
              Success(Field(Constant(9, 86400.0), DailyUnits, Constant(9, false), 1, 9, map[]))
  {
    var f := Field(Constant(18, 1.0), FluxUnits, Constant(18, false), 2, 9, map[]);
    assert Tiled(18, 2, 9);
    ConstantClimatology(f, 1.0);
  }
}
