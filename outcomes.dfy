/** The failures the pipeline can raise, and the result types that carry them. */
module Outcomes {

  /** Each exception the source can raise, named after what goes wrong. */
  datatype Error =
    | EmptyBenchmarks            // `bench_list[-1]` on an empty table (IndexError)
    | NoMatch(line: string)      // `re.search(...)` returned None, so `.group(1)` fails
    | UnknownDevice(name: string) // `bench_dict[name]` (KeyError): no fuzzy matching
    | ZeroMinimum                // `float(v) / float(min)` with min == 0 (ZeroDivisionError)
    | ToolNotFound               // the explicit `raise Exception(...)` when no tool was located

  datatype Result<+T> = Success(value: T) | Failure(error: Error)

  datatype Outcome = Pass | Fail(error: Error)

  datatype Option<+T> = None | Some(value: T)
}
