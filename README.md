# KEDA scaler metric helpers, in Dafny

This project models three helpers of KEDA's `pkg/scalers` package that deal
with metrics reported to the Kubernetes external-metrics API
(`autoscaling/v2beta2`):

- `GetMetricTargetType` resolves a scaler's configured metric-target type.
  An unset type defaults to `AverageValue`. `Value` and `AverageValue` pass
  through. `Utilization` is refused with a configuration error and an empty type.
- `GetMetricTarget` wraps an `int64` reading into a `MetricTarget`. The
  `Value` or `AverageValue` quantity is filled according to the type, and
  the other one is left nil.
- `RemoveIndexFromMetricName` strips the per-scaler prefix `s<index>-` from
  a reported metric name. It fails when the name has no `-`, when the part
  before the first `-` is not `s` followed by a non-empty digit string whose
  value is the given index.

The implementation file of these helpers is not part of this model. Their
behaviour is modelled from the table-driven tests in
`pkg/scalers/scaler_test.go`.

Files:

- `wrappers.dfy`: `Option` and `Result`.
- `decimal.dfy`: decimal rendering of an index (`%d`) and the digit parser, with the round trip between them.
- `metric_target.dfy`: the resolver and the builder.
- `metric_name.dfy`: the metric-name indexer, the first-`-` split it relies on, and its round trip.

## Model

| member | source | states |
|---|---|---|
| `MetricTargets.GetMetricTargetType` | pkg/scalers/scaler_test.go:12-57 | Fails exactly on `Utilization`, and then returns an empty type and an error carrying the rejected type. On success the type is always `Value` or `AverageValue`. A configured `Value`/`AverageValue` is kept, and an unset type becomes `AverageValue`. |
| `MetricTargets.GetMetricTargetTypeCases` | pkg/scalers/scaler_test.go:19-42 | The four rows of the resolver table: Utilization gives an empty type and an error; AverageValue, Value and unset give AverageValue, Value and AverageValue, with no error. |
| `MetricTargets.Message` | pkg/scalers/scaler_test.go:23 | The text of every configuration error opens with the quoted rejected type followed by " metric type is unsupported for external metrics", and contains `'Value'` and `'AverageValue'`. |
| `MetricTargets.UtilizationMessage` | pkg/scalers/scaler_test.go:19-24 | Resolving `Utilization` fails, and the error text contains the whole sentence the test checks with `Contains` at line 50: "'Utilization' metric type is unsupported for external metrics, allowed values are 'Value' or 'AverageValue'". |
| `MetricTargets.ResolveIdempotent` | pkg/scalers/scaler_test.go:25-42 | A successfully resolved type resolves to itself again, so resolution is a fixed point on its own output. |
| `MetricTargets.GetMetricTarget` | pkg/scalers/scaler_test.go:59-87 | The target keeps the given type. The `Value` quantity is present iff the type is `Value`, the `AverageValue` quantity is present iff the type is `AverageValue`, and a present quantity equals the reading. There is no error result. |
| `MetricTargets.GetMetricTargetCases` | pkg/scalers/scaler_test.go:66-77 | The two builder rows: (AverageValue, 10) fills only AverageValue with 10; (Value, 20) fills only Value with 20. |
| `MetricTargets.BuildWellFormed` | pkg/scalers/scaler_test.go:66-77 | For `Value` or `AverageValue`, exactly one payload is populated: the one the type names, holding the reading. |
| `MetricTargets.ResolveThenBuild` | pkg/scalers/scaler_test.go:19-77 | Building from any successfully resolved type yields a target with exactly one populated payload, holding the reading. |
| `MetricNames.FirstIndexOf` | pkg/scalers/scaler_test.go:103-105 | Returns none iff the character is absent; otherwise returns a position holding it with no earlier occurrence. |
| `MetricNames.SplitFirst` | pkg/scalers/scaler_test.go:103-105 | Fails iff the separator is absent; otherwise the name is head + separator + tail, and the head has no separator. |
| `MetricNames.SplitAfter` | pkg/scalers/scaler_test.go:96-99 | A name built as a separator-free head, the separator and any tail splits back into exactly that head and tail. |
| `MetricNames.RemoveIndexFromMetricName` | pkg/scalers/scaler_test.go:89-124 | A name without `-` fails with the missing-prefix error, and only such a name does. A name not starting with `s` fails, and so does any negative index. A success returns a proper suffix of the name. |
| `MetricNames.IndexedName` | pkg/scalers/scaler_test.go:97-101 | The name a scaler with index `i` reports for a base name splits at its first `-` into exactly `"s" + decimal(i)` and that base name. |
| `MetricNames.RoundTrip` | pkg/scalers/scaler_test.go:96-99 | For every index `i >= 0` and every base name, even one containing `-`, removing the index from `"s" + decimal(i) + "-" + name` returns `name`. |
| `MetricNames.WrongIndexFails` | pkg/scalers/scaler_test.go:100-101 | A name built with index `j` is refused for every index `i != j`. |
| `MetricNames.RemoveIndexCharacterization` | pkg/scalers/scaler_test.go:96-106 | Removal returns `base` iff the name is `"s" + digits + "-" + base` for a non-empty digit string that reads as the index. |
| `MetricNames.ProperInputCase` | pkg/scalers/scaler_test.go:97 | Index 0 and `"s0-metricName"` give `"metricName"`. |
| `MetricNames.MultiDigitIndexCase` | pkg/scalers/scaler_test.go:99 | Index 123 and `"s123-metricName"` give `"metricName"`. |
| `MetricNames.WrongIndexCase` | pkg/scalers/scaler_test.go:101 | Index 1 and `"s0-metricName"` fail with an incorrect-prefix error. |
| `MetricNames.MissingLetterCase` | pkg/scalers/scaler_test.go:102-103 | Index 0 and `"0-metricName"` fail with an incorrect-prefix error carrying the prefix `"0"`. |
| `MetricNames.LeadingZerosAccepted` | pkg/scalers/scaler_test.go:96-97 | Index 0 and `"s00-x"` give `"x"`: the model reads the prefix digits by value, a case the tests leave open. |
| `MetricNames.NoPrefixCase` | pkg/scalers/scaler_test.go:105 | Index 0 and `"metricName"` fail with the missing-prefix error. |
| `Decimal.Format` | pkg/scalers/scaler_test.go:97-99 | The decimal rendering of an index is a non-empty string of digits with no `-`, and it has no leading zero unless the index is 0. |
| `Decimal.Parse` | pkg/scalers/scaler_test.go:98-99 | Succeeds iff the string is a non-empty run of decimal digits. |
| `Decimal.DigitsValueFormat` | pkg/scalers/scaler_test.go:98-99 | The digits of any index, multi-digit ones included, read back as that index. |
| `Decimal.ParseFormat` | pkg/scalers/scaler_test.go:98-99 | Parsing the rendering of an index gives back the index. |

## Left out

- `GetAzureBlobListLength` (exercised in `pkg/scalers/azure/azure_blob_test.go`) is not modelled. It is a network client: it authenticates with the Azure SDK, pages through a blob listing and parses connection strings and base64 keys in library code that is not part of this model.
- `resource.Quantity` and its `DecimalSI` formatting: a quantity is modelled as the `int64` it was built from, and a nil quantity as `None`.
- `ScalerConfig` is reduced to its metric-type field. Other fields are not read by these helpers.
- `MetricTargetType` is a Go string type. The model admits only the four values the tests use: the empty string, `Value`, `AverageValue` and `Utilization`.
- `GetMetricTarget`: for `Utilization` or an unset type, the model fills neither payload. The tests pin down only `Value` and `AverageValue`. Callers are expected to pass the resolver's output, and `ResolveThenBuild` covers that composition.
- The exact text of the indexer's errors is not modelled: they are a datatype that says which check failed and, for a wrong prefix, carries that prefix.
- `RemoveIndexFromMetricName`: the index digits are read by a general digit parser, so the model accepts leading zeros: index 0 strips `"s00-x"` to `"x"` (`LeadingZerosAccepted`). The tests do not decide this case, and an implementation that compares the prefix with `"s" + decimal(index)` would refuse it. A sign character in the index segment is refused by the model; the tests do not decide that case either.
