/**
 * Metric-target helpers of the scalers package: resolving a scaler's
 * configured metric-target type, and wrapping a reading into the target
 * record reported to the Kubernetes external-metrics API (autoscaling/v2beta2).
 */
module MetricTargets {
  import opened Wrappers

  /** Go's `int64`. */
  newtype int64 = x: int | -0x8000_0000_0000_0000 <= x < 0x8000_0000_0000_0000

  /** `v2beta2.MetricTargetType`; `Unset` is the empty string a config leaves behind. */
  datatype MetricTargetType = Unset | Value | AverageValue | Utilization

  /** The string each type stands for on the wire. */
  function Name(t: MetricTargetType): string {
    match t
    case Unset => ""
    case Value => "Value"
    case AverageValue => "AverageValue"
    case Utilization => "Utilization"
  }

  /** A type the external-metrics API accepts as a target. */
  predicate Reportable(t: MetricTargetType) {
    t == Value || t == AverageValue
  }

  /** The part of a scaler's configuration these helpers read. */
  datatype ScalerConfig = ScalerConfig(metricType: MetricTargetType)

  /** A configuration error naming the type that was refused. */
  datatype ConfigError = UnsupportedMetricType(rejected: MetricTargetType)

  /** Go's `(v2beta2.MetricTargetType, error)` pair. */
  datatype TypeResolution = TypeResolution(metricType: MetricTargetType, err: Option<ConfigError>)

  /**
   * Resolves the configured type: an unset type defaults to AverageValue,
   * Utilization is refused with an error and an empty type, and Value and
   * AverageValue pass through unchanged.
   */
  function GetMetricTargetType(config: ScalerConfig): (r: TypeResolution)
    ensures r.err.Some? <==> config.metricType == Utilization
    ensures r.err.Some? ==> r.metricType == Unset && r.err.value.rejected == config.metricType
    ensures r.err.None? ==> Reportable(r.metricType)
    ensures Reportable(config.metricType) ==> r.metricType == config.metricType
    ensures config.metricType == Unset ==> r.metricType == AverageValue
  {
    match config.metricType
    case Utilization => TypeResolution(Unset, Some(UnsupportedMetricType(Utilization)))
    case Unset => TypeResolution(AverageValue, None)
    case other => TypeResolution(other, None)
  }

  function Quote(s: string): string {
    "'" + s + "'"
  }

  /** `part` occurs in `s` starting at position `k`. */
  predicate OccursAt(s: string, part: string, k: int) {
    0 <= k <= |s| - |part| && s[k..k + |part|] == part
  }

  /** `strings.Contains`, the check applied to the error text. */
  predicate Contains(s: string, part: string) {
    exists k | 0 <= k <= |s| :: OccursAt(s, part, k)
  }

  /** The opening clause of the error text: the rejected type, quoted, declared unsupported. */
  function UnsupportedClause(t: MetricTargetType): string {
    Quote(Name(t)) + " metric type is unsupported for external metrics"
  }

  /**
   * The user-facing text of a configuration error: the rejected type, quoted
   * and declared unsupported, then the two accepted alternatives, quoted.
   */
  function Message(e: ConfigError): (m: string)
    ensures OccursAt(m, UnsupportedClause(e.rejected), 0)
    ensures Contains(m, "'Value'")
    ensures Contains(m, "'AverageValue'")
  {
    var head := UnsupportedClause(e.rejected);
    var value, average := Quote(Name(Value)), Quote(Name(AverageValue));
    var m := head + ", allowed values are " + value + " or " + average;
    assert OccursAt(m, head, 0);
    assert OccursAt(m, value, |head| + |", allowed values are "|);
    assert OccursAt(m, average, |m| - |average|);
    assert value == "'Value'" && average == "'AverageValue'";
    m
  }

  /** `v2beta2.MetricTarget`: a type and two optional quantities, `None` standing for a nil pointer. */
  datatype MetricTarget = MetricTarget(
    targetType: MetricTargetType,
    value: Option<int64>,
    averageValue: Option<int64>)

  /**
   * Wraps a reading: the payload field named by the type carries the reading,
   * the other stays empty. There is no error result.
   */
  function GetMetricTarget(metricType: MetricTargetType, metricValue: int64): (t: MetricTarget)
    ensures t.targetType == metricType
    ensures t.value.Some? <==> metricType == Value
    ensures t.averageValue.Some? <==> metricType == AverageValue
    ensures t.value.Some? ==> t.value.value == metricValue
    ensures t.averageValue.Some? ==> t.averageValue.value == metricValue
  {
    match metricType
    case AverageValue => MetricTarget(metricType, None, Some(metricValue))
    case Value => MetricTarget(metricType, Some(metricValue), None)
    case _ => MetricTarget(metricType, None, None)
  }

  /** Exactly one payload is populated, the one the type names, and it holds the reading. */
  predicate WellFormed(t: MetricTarget, reading: int64) {
    && Reportable(t.targetType)
    && (t.targetType == Value ==> t.value == Some(reading) && t.averageValue.None?)
    && (t.targetType == AverageValue ==> t.averageValue == Some(reading) && t.value.None?)
  }

  /**
   * Resolving Utilization fails, and the error text contains the whole sentence
   * the resolver's test looks for: 'Utilization' is unsupported, and the
   * allowed values are 'Value' or 'AverageValue'.
   */
  lemma UtilizationMessage(config: ScalerConfig)
    requires config.metricType == Utilization
    ensures GetMetricTargetType(config).err.Some?
    ensures Contains(Message(GetMetricTargetType(config).err.value),
      "'Utilization'" + " metric type is unsupported for external metrics"
      + ", allowed values are " + "'Value'" + " or " + "'AverageValue'")
  {
    var m := Message(GetMetricTargetType(config).err.value);
    assert Quote(Name(Utilization)) == "'Utilization'";
    assert Quote(Name(Value)) == "'Value'" && Quote(Name(AverageValue)) == "'AverageValue'";
    assert OccursAt(m, m, 0);
  }

  /** A resolved type is a fixed point: resolving it again changes nothing. */
  lemma ResolveIdempotent(config: ScalerConfig)
    requires GetMetricTargetType(config).err.None?
    ensures GetMetricTargetType(ScalerConfig(GetMetricTargetType(config).metricType))
      == GetMetricTargetType(config)
  {
  }

  /** Building from a reportable type yields a well-formed target. */
  lemma BuildWellFormed(metricType: MetricTargetType, reading: int64)
    requires Reportable(metricType)
    ensures WellFormed(GetMetricTarget(metricType, reading), reading)
  {
  }

  /** Whatever a successful resolution returns, the built target is well formed. */
  lemma ResolveThenBuild(config: ScalerConfig, reading: int64)
    requires GetMetricTargetType(config).err.None?
    ensures WellFormed(GetMetricTarget(GetMetricTargetType(config).metricType, reading), reading)
  {
  }

  /** The four rows of the resolver's table. */
  lemma GetMetricTargetTypeCases()
    ensures GetMetricTargetType(ScalerConfig(Utilization)) == TypeResolution(Unset, Some(UnsupportedMetricType(Utilization)))
    ensures GetMetricTargetType(ScalerConfig(AverageValue)) == TypeResolution(AverageValue, None)
    ensures GetMetricTargetType(ScalerConfig(Value)) == TypeResolution(Value, None)
    ensures GetMetricTargetType(ScalerConfig(Unset)) == TypeResolution(AverageValue, None)
  {
  }

  /** The two rows of the builder's table. */
  lemma GetMetricTargetCases()
    ensures GetMetricTarget(AverageValue, 10) == MetricTarget(AverageValue, None, Some(10))
    ensures GetMetricTarget(Value, 20) == MetricTarget(Value, Some(20), None)
  {
  }
}
