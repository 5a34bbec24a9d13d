/**
 * Logging and tracing options of the command line (src/commands/tracing.rs):
 * the four option enums with their case-insensitive parsing and their
 * display names, the choice of the log filter by verbosity, and whether a
 * trace exporter is set up at all.
 *
 * Installing subscribers and building the OpenTelemetry pipelines are not
 * part of this model; a filter is the directive string it is built from.
 */
module Tracing {
  import opened Wrappers

  /** `char::to_ascii_lowercase`: only `A`..`Z` change. */
  function LowerChar(c: char): (r: char)
    ensures 'A' <= c <= 'Z' ==> r as int == c as int + 32
    ensures !('A' <= c <= 'Z') ==> r == c
  {
    if 'A' <= c <= 'Z' then (c as int + 32) as char else c
  }

  /** `str::to_ascii_lowercase`. */
  function Lower(s: string): (r: string)
    ensures |r| == |s| && forall i :: 0 <= i < |s| ==> r[i] == LowerChar(s[i])
  {
    seq(|s|, i requires 0 <= i < |s| => LowerChar(s[i]))
  }

  predicate NoUpper(s: string)
  {
    forall i :: 0 <= i < |s| ==> !('A' <= s[i] <= 'Z')
  }

  /** A string without upper-case letters is its own lower case. */
  lemma LowerOfLower(s: string)
    requires NoUpper(s)
    ensures Lower(s) == s
  {
  }

  /** Lower-casing twice is lower-casing once. */
  lemma LowerIdempotent(s: string)
    ensures Lower(Lower(s)) == Lower(s)
  {
    assert NoUpper(Lower(s));
    LowerOfLower(Lower(s));
  }

  // ----- LogFormat -----

  datatype LogFormat = Full | Pretty | Json | Logfmt

  function LogFormatName(v: LogFormat): (s: string)
    ensures NoUpper(s)
  {
    match v
    case Full => "full"
    case Pretty => "pretty"
    case Json => "json"
    case Logfmt => "logfmt"
  }

  /** `LogFormat::from_str`: the lower-cased input must be one of the names. */
  function ParseLogFormat(s: string): (r: Result<LogFormat, string>)
    ensures r.Ok? ==> LogFormatName(r.value) == Lower(s)
    ensures r.Err? <==> Lower(s) !in {"full", "pretty", "json", "logfmt"}
    ensures r.Err? ==> r.error == "Invalid log format '" + s + "'. Valid options: full, pretty, json, logfmt"
  {
    match Lower(s)
    case "full" => Ok(Full)
    case "pretty" => Ok(Pretty)
    case "json" => Ok(Json)
    case "logfmt" => Ok(Logfmt)
    case _ => Err("Invalid log format '" + s + "'. Valid options: full, pretty, json, logfmt")
  }

  lemma LogFormatRoundTrip(v: LogFormat)
    ensures ParseLogFormat(LogFormatName(v)) == Ok(v)
  {
    LowerOfLower(LogFormatName(v));
  }

  lemma LogFormatCaseInsensitive(s: string)
    ensures ParseLogFormat(s).Ok? <==> ParseLogFormat(Lower(s)).Ok?
    ensures ParseLogFormat(s).Ok? ==> ParseLogFormat(s) == ParseLogFormat(Lower(s))
  {
    LowerIdempotent(s);
  }

  // ----- LogDestination -----

  datatype LogDestination = Stdout | Stderr

  function LogDestinationName(v: LogDestination): (s: string)
    ensures NoUpper(s)
  {
    match v
    case Stdout => "stdout"
    case Stderr => "stderr"
  }

  /** `LogDestination::from_str`: the lower-cased input must be one of the names. */
  function ParseLogDestination(s: string): (r: Result<LogDestination, string>)
    ensures r.Ok? ==> LogDestinationName(r.value) == Lower(s)
    ensures r.Err? <==> Lower(s) !in {"stdout", "stderr"}
    ensures r.Err? ==> r.error == "Invalid log destination '" + s + "'. Valid options: stdout, stderr"
  {
    match Lower(s)
    case "stdout" => Ok(Stdout)
    case "stderr" => Ok(Stderr)
    case _ => Err("Invalid log destination '" + s + "'. Valid options: stdout, stderr")
  }

  lemma LogDestinationRoundTrip(v: LogDestination)
    ensures ParseLogDestination(LogDestinationName(v)) == Ok(v)
  {
    LowerOfLower(LogDestinationName(v));
  }

  lemma LogDestinationCaseInsensitive(s: string)
    ensures ParseLogDestination(s).Ok? <==> ParseLogDestination(Lower(s)).Ok?
    ensures ParseLogDestination(s).Ok? ==> ParseLogDestination(s) == ParseLogDestination(Lower(s))
  {
    LowerIdempotent(s);
  }

  // ----- TracesExporter -----

  datatype TracesExporter = NoExporter | Jaeger | Otlp

  function TracesExporterName(v: TracesExporter): (s: string)
    ensures NoUpper(s)
  {
    match v
    case NoExporter => "none"
    case Jaeger => "jaeger"
    case Otlp => "otlp"
  }

  /** `TracesExporter::from_str`: the lower-cased input must be one of the names. */
  function ParseTracesExporter(s: string): (r: Result<TracesExporter, string>)
    ensures r.Ok? ==> TracesExporterName(r.value) == Lower(s)
    ensures r.Err? <==> Lower(s) !in {"none", "jaeger", "otlp"}
    ensures r.Err? ==> r.error == "Invalid traces exporter '" + s + "'. Valid options: none, jaeger, otlp"
  {
    match Lower(s)
    case "none" => Ok(NoExporter)
    case "jaeger" => Ok(Jaeger)
    case "otlp" => Ok(Otlp)
    case _ => Err("Invalid traces exporter '" + s + "'. Valid options: none, jaeger, otlp")
  }

  lemma TracesExporterRoundTrip(v: TracesExporter)
    ensures ParseTracesExporter(TracesExporterName(v)) == Ok(v)
  {
    LowerOfLower(TracesExporterName(v));
  }

  lemma TracesExporterCaseInsensitive(s: string)
    ensures ParseTracesExporter(s).Ok? <==> ParseTracesExporter(Lower(s)).Ok?
    ensures ParseTracesExporter(s).Ok? ==> ParseTracesExporter(s) == ParseTracesExporter(Lower(s))
  {
    LowerIdempotent(s);
  }

  // ----- TracesSampler -----

  datatype TracesSampler =
    | AlwaysOn | AlwaysOff | TraceIdRatio
    | ParentBasedAlwaysOn | ParentBasedAlwaysOff | ParentBasedTraceIdRatio

  function TracesSamplerName(v: TracesSampler): (s: string)
    ensures NoUpper(s)
  {
    match v
    case AlwaysOn => "always_on"
    case AlwaysOff => "always_off"
    case TraceIdRatio => "traceidratio"
    case ParentBasedAlwaysOn => "parentbased_always_on"
    case ParentBasedAlwaysOff => "parentbased_always_off"
    case ParentBasedTraceIdRatio => "parentbased_traceidratio"
  }

  const SamplerOptions := "always_on, always_off, traceidratio, parentbased_always_on, parentbased_always_off, parentbased_traceidratio"

  /** `TracesSampler::from_str`: the lower-cased input must be one of the names. */
  function ParseTracesSampler(s: string): (r: Result<TracesSampler, string>)
    ensures r.Ok? ==> TracesSamplerName(r.value) == Lower(s)
    ensures r.Err? <==> Lower(s) !in {"always_on", "always_off", "traceidratio", "parentbased_always_on",
                                      "parentbased_always_off", "parentbased_traceidratio"}
    ensures r.Err? ==> r.error == "Invalid traces sampler '" + s + "'. Valid options: " + SamplerOptions
  {
    match Lower(s)
    case "always_on" => Ok(AlwaysOn)
    case "always_off" => Ok(AlwaysOff)
    case "traceidratio" => Ok(TraceIdRatio)
    case "parentbased_always_on" => Ok(ParentBasedAlwaysOn)
    case "parentbased_always_off" => Ok(ParentBasedAlwaysOff)
    case "parentbased_traceidratio" => Ok(ParentBasedTraceIdRatio)
    case _ => Err("Invalid traces sampler '" + s + "'. Valid options: " + SamplerOptions)
  }

  lemma TracesSamplerRoundTrip(v: TracesSampler)
    ensures ParseTracesSampler(TracesSamplerName(v)) == Ok(v)
  {
    LowerOfLower(TracesSamplerName(v));
  }

  lemma TracesSamplerCaseInsensitive(s: string)
    ensures ParseTracesSampler(s).Ok? <==> ParseTracesSampler(Lower(s)).Ok?
    ensures ParseTracesSampler(s).Ok? ==> ParseTracesSampler(s) == ParseTracesSampler(Lower(s))
  {
    LowerIdempotent(s);
  }

  // ----- Verbosity -----

  /** The options of the `run` command this module reads. */
  datatype RunConfig = RunConfig(
    logVerboseCount: nat,
    logFilter: string,
    logFormat: LogFormat,
    logDestination: LogDestination,
    tracesExporter: TracesExporter,
    tracesSampler: TracesSampler,
    tracesSamplerArg: real,
    tracesFilter: Option<string>)

  const DebugFilter := "debug,hyper::proto::h1=info,h2=info"
  const TraceFilter := "trace,hyper::proto::h1=info,h2=info"

  /** `-v` given before and after the command: the larger count wins. */
  function EffectiveVerbosity(global: nat, config: RunConfig): (v: nat)
    ensures v >= global && v >= config.logVerboseCount
    ensures v == global || v == config.logVerboseCount
  {
    if global > config.logVerboseCount then global else config.logVerboseCount
  }

  /** The log filter directives for a verbosity, with `quiet` for no `-v` at all. */
  function FilterFor(verbosity: nat, quiet: string): (f: string)
  {
    if verbosity == 0 then quiet
    else if verbosity == 1 then "info"
    else if verbosity == 2 then DebugFilter
    else TraceFilter
  }

  /** `init_simple_logs`: warnings only without `-v`. */
  function SimpleLogFilter(verbosity: nat): (f: string)
    ensures verbosity == 0 ==> f == "warn"
    ensures verbosity == 1 ==> f == "info"
    ensures verbosity == 2 ==> f == DebugFilter
    ensures verbosity >= 3 ==> f == TraceFilter
  {
    FilterFor(verbosity, "warn")
  }

  /** `init_logs_and_tracing`: the configured filter without `-v`. */
  function LogsAndTracingFilter(global: nat, config: RunConfig): (f: string)
    ensures EffectiveVerbosity(global, config) == 0 ==> f == config.logFilter
    ensures EffectiveVerbosity(global, config) == 1 ==> f == "info"
    ensures EffectiveVerbosity(global, config) == 2 ==> f == DebugFilter
    ensures EffectiveVerbosity(global, config) >= 3 ==> f == TraceFilter
  {
    FilterFor(EffectiveVerbosity(global, config), config.logFilter)
  }

  /** The default level a filter starts with, by rank: warn, info, debug, trace. */
  function LevelRank(verbosity: nat): (r: nat)
    ensures r == if verbosity < 3 then verbosity else 3
  {
    if verbosity >= 3 then 3 else verbosity
  }

  /** More `-v` never selects a quieter filter, and from three on the filter is fixed. */
  lemma VerbosityMonotone(a: nat, b: nat, quiet: string)
    requires a <= b
    ensures LevelRank(a) <= LevelRank(b)
    ensures a >= 3 ==> FilterFor(a, quiet) == FilterFor(b, quiet) == TraceFilter
    ensures 1 <= a ==> (FilterFor(a, quiet) == FilterFor(b, quiet) <==> LevelRank(a) == LevelRank(b))
  {
  }

  // ----- Tracer construction -----

  /** `opentelemetry::sdk::trace::Sampler`. */
  datatype Sampler = SampleAlwaysOn | SampleAlwaysOff | TraceIdRatioBased(ratio: real) | ParentBased(root: Sampler)

  /** The pipeline `construct_opentelemetry_tracer` would install. */
  datatype TracerSetup = JaegerPipeline(sampler: Sampler) | OtlpPipeline(sampler: Sampler)

  /** The sampler for an option; `AlwaysOff` gives no tracer at all. */
  function SamplerFor(option: TracesSampler, arg: real): (r: Option<Sampler>)
    ensures r.None? <==> option == AlwaysOff
    ensures r.Some? ==> (r.value.ParentBased? <==> option in {ParentBasedAlwaysOn, ParentBasedAlwaysOff, ParentBasedTraceIdRatio})
  {
    match option
    case AlwaysOn => Some(SampleAlwaysOn)
    case AlwaysOff => None
    case TraceIdRatio => Some(TraceIdRatioBased(arg))
    case ParentBasedAlwaysOn => Some(ParentBased(SampleAlwaysOn))
    case ParentBasedAlwaysOff => Some(ParentBased(SampleAlwaysOff))
    case ParentBasedTraceIdRatio => Some(ParentBased(TraceIdRatioBased(arg)))
  }

  /**
   * `construct_opentelemetry_tracer`: no tracer when sampling is always off
   * or no exporter is chosen; otherwise the chosen exporter's pipeline with
   * the sampler.
   */
  function ConstructTracer(config: RunConfig): (r: Option<TracerSetup>)
    ensures r.None? <==> config.tracesSampler == AlwaysOff || config.tracesExporter == NoExporter
    ensures r.Some? ==> && (r.value.JaegerPipeline? <==> config.tracesExporter == Jaeger)
                        && Some(r.value.sampler) == SamplerFor(config.tracesSampler, config.tracesSamplerArg)
  {
    match SamplerFor(config.tracesSampler, config.tracesSamplerArg)
    case None => None
    case Some(sampler) =>
      match config.tracesExporter
      case Jaeger => Some(JaegerPipeline(sampler))
      case Otlp => Some(OtlpPipeline(sampler))
      case NoExporter => None
  }

  /** The traces layer: its filter and its tracer, both absent without a tracer. */
  function TracesLayer(config: RunConfig): (r: (Option<string>, Option<TracerSetup>))
    ensures r.1 == ConstructTracer(config)
    ensures r.0.Some? <==> ConstructTracer(config).Some? && config.tracesFilter.Some?
    ensures r.0.Some? ==> r.0 == config.tracesFilter
  {
    match ConstructTracer(config)
    case None => (None, None)
    case Some(tracer) => (config.tracesFilter, Some(tracer))
  }
}
