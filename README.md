# Historical contract sampling: a Dafny model

This project models the sampling utilities in `evm/src/samples/utils.rs`. They read a
contract's state over a range of past blocks and write the time series as CSV text.
There are three parts:

- **Value formatting** (`sol_value_to_string`), module `SolValues` in `sol_values.dfy`.
  A decoded ABI value (`DynSolValue`) is a finite tree: booleans, signed and unsigned
  integers, fixed byte words, addresses, function selectors, byte strings and strings
  at the leaves; arrays, fixed arrays and tuples inside. `Format` renders it.
  Arrays, fixed arrays and tuples fold their elements, writing `", "` before every
  element, the first one included.
- **CSV generation** (`generate_csv_from_timestamped_data`), module `Csv` in `csv.dfy`.
  `GenerateCsv` is the loop that appends one line per sample to a growing buffer.
  It is proved to build `CsvText`. A line is the block number in base 10, then
  `","` and the formatted value for each value, then `"\n"`.
- **Historical sampling** (`sample_historical_data`), module `Sampler` in `sampler.dfy`.
  `SampleHistoricalData` is the loop, proved equal to the specification function
  `SampleHistorical`. The node is passed in as a `Chain` of three oracles:
  - the latest block;
  - the contract's bytecode at a block;
  - the bound function's decoded result at a block.

  The sampler does these steps in order:
  1. It binds the function.
  2. It resolves the end block: `Number(n)` or `Latest`; any other tag is an error.
  3. It computes `(end - start) / interval` iterations, with truncating division.
  4. It visits `start + n * interval` for each iteration n.

  While its bytecode cache is empty, an iteration fetches the bytecode instead of calling
  the function. The iteration whose fetch first returns bytecode is therefore not sampled
  either, and neither is the start block. Every later iteration calls the function.
  A failed call is skipped or aborts the whole scan, depending on `ignore_reverts`.
  `Reference` describes the outcome without the loop. `ScanMatchesReference` proves the
  loop meets it, and the remaining lemmas derive the ordering, bounds, probing and abort
  properties from it.

`wrappers.dfy` holds the `Option` and `Result` types. `samples.dfy` holds `u64` and
`Sample`, the `(u64, Vec<DynSolValue>)` pair that the sampler produces and the CSV writer consumes.

The model keeps three behaviours of the code that a reader might expect to be otherwise:
- The code does not make one extra bytecode fetch per scan. It fetches in place of sampling
  on every iteration while the fetched bytecode is still empty.
- Composite values are rendered with a leading `", "`, not joined with separators between
  elements only.
- A zero interval is detected only after a `Latest` end block has been resolved
  through the node.

## Model

| member | source | states |
|---|---|---|
| `SolValues.Format` | evm/src/samples/utils.rs:20-38 | total on every value tree, since each recursive call is on a strictly smaller subtree; when every leaf renders on one line, the text holds no line break |
| `SolValues.FoldElements` | evm/src/samples/utils.rs:30-38 | the element fold is total, and its text holds no line break when no element's does |
| `SolValues.FoldIsPrefixed` | evm/src/samples/utils.rs:30-38 | the left fold equals the element-by-element reading: `", "` and the element's text, for each element in order |
| `SolValues.FormatComposite` | evm/src/samples/utils.rs:30-38 | an array, fixed array or tuple renders as the concatenation over its elements of `", "` plus the element's text; the empty one renders as `""` |
| `SolValues.FormatCompositeLeadingSeparator` | evm/src/samples/utils.rs:30-38 | a non-empty composite's text starts with `", "`, written before its first element too |
| `SolValues.FormatCompositeAppend` | evm/src/samples/utils.rs:30-38 | a composite whose elements are those of `v` followed by those of `w` renders as the text of `v` followed by the text of `w`, whatever kinds of composite the three are |
| `Csv.Decimal` | evm/src/samples/utils.rs:51 | the block number's text is a non-empty string of digits with no leading zero |
| `Csv.DecimalRoundTrip` | evm/src/samples/utils.rs:51 | the block number can be read back from its text |
| `Csv.GenerateCsv` | evm/src/samples/utils.rs:48-58 | the buffer built by the loop is `CsvText` of the samples: their lines, in order |
| `Csv.CsvAppend` | evm/src/samples/utils.rs:49-57 | the CSV of an empty list is `""`, and the CSV of `a + b` is the CSV of `a` followed by the CSV of `b` |
| `Csv.CsvAt` | evm/src/samples/utils.rs:50-55 | sample `i` is written as its own line, after the lines of the samples before it and before the lines of those after it |
| `Csv.FieldsAppend` | evm/src/samples/utils.rs:52-54 | the fields of `a + b` are those of `a` followed by those of `b` |
| `Csv.FieldsAt` | evm/src/samples/utils.rs:52-54 | value `i` of a line appears as `","` and its text, between the values before and after it |
| `Csv.LineHasOneNewline` | evm/src/samples/utils.rs:51-55 | when no value's text holds a line break, a line holds exactly one `'\n'`, as its last character |
| `Csv.CsvNewlineCount` | evm/src/samples/utils.rs:50-55 | when no formatted value holds a line break, the CSV holds exactly one `'\n'` per sample |
| `Csv.TwoSampleFixture` | evm/src/samples/utils.rs:48-58 | when unsigned values render in base 10, samples at blocks 100 and 200 holding the values 42 and 43 give `"100,42\n200,43\n"` |
| `Sampler.Schedule.Steps` | evm/src/samples/utils.rs:90 | the iteration count is the number of whole intervals that fit between start and end |
| `Sampler.Schedule.BlockAt` | evm/src/samples/utils.rs:90-104 | iteration `i` visits `start + i * interval`, and a whole interval still fits after it before the end block, so the sum never overflows u64 |
| `Sampler.BlockAtIncreasing` | evm/src/samples/utils.rs:90-104 | later iterations visit later blocks, at least one interval apart |
| `Sampler.RunStaysFailed` | evm/src/samples/utils.rs:92-108 | an error ends the loop: no later iteration changes the outcome |
| `Sampler.SampleHistoricalData` | evm/src/samples/utils.rs:60-112 | the loop with its result list, bytecode cache, `continue` after a fetch and early returns gives exactly `SampleHistorical` |
| `Sampler.FirstCodeProbe` | evm/src/samples/utils.rs:88-97 | locates the first iteration whose bytecode fetch does not return empty bytecode; every fetch before it returned empty bytecode |
| `Sampler.RunPrefix` | evm/src/samples/utils.rs:88-110 | after `k` iterations the state is one of the following: nothing yet while still probing; a transport error if the deciding fetch failed; `CallReverted` if a call failed and reverts are not ignored; otherwise the fetched bytecode and the successful calls so far |
| `Sampler.ScanMatchesReference` | evm/src/samples/utils.rs:69-111 | once the end block is resolved and the arithmetic is valid, the scan's outcome is the one `Reference` describes without a loop |
| `Sampler.SuccessesExactly` | evm/src/samples/utils.rs:98-104 | the kept samples are exactly those of the successful calls in the range: each comes from one, each one is kept, and their blocks strictly increase |
| `Sampler.SuccessesAllCalls` | evm/src/samples/utils.rs:103-104 | when every call succeeds, each iteration in the range yields one sample |
| `Sampler.ScanSamplesOnSchedule` | evm/src/samples/utils.rs:90-104 | every returned sample is a successful call of an iteration after probing ended; its block lies strictly above the start block and at least one interval below the end block, and block numbers strictly increase |
| `Sampler.ProbedBlocksNotSampled` | evm/src/samples/utils.rs:88-97 | every fetch before the deciding one found empty bytecode, and no block visited while probing, the start block included, appears in the result |
| `Sampler.FailedCallAborts` | evm/src/samples/utils.rs:105-108 | with reverts not ignored, one failed call after probing makes the scan fail with `CallReverted` and return no samples |
| `Sampler.AllCallsSampled` | evm/src/samples/utils.rs:103-111 | with reverts not ignored and every call succeeding, the scan returns exactly the samples of the calls after probing ended, in loop order, one per iteration |
| `Sampler.FailedCallsSkipped` | evm/src/samples/utils.rs:103-111 | with reverts ignored, the scan returns exactly the successful calls after probing ended, in loop order |
| `Sampler.ShortRangeIsEmpty` | evm/src/samples/utils.rs:90 | when no whole interval fits between start and end, the scan returns no samples |
| `Sampler.EndBlockResolution` | evm/src/samples/utils.rs:74-86 | `Number(n)` resolves to n; `Latest` resolves to the node's head, a failed head request ends the scan with a transport error and a head without a block is an error; any other tag fails before any fetch or call, whatever the node would answer |
| `Sampler.StepCountFailures` | evm/src/samples/utils.rs:90 | an end block below the start block fails, and so, after that check, does a zero interval; both happen before any fetch or call |

## Left out

- The text that the alloy primitives library gives for signed and unsigned 256-bit
  integers, fixed byte words, addresses, function selectors and the `{:X?}` form of
  byte strings. These are fields of a `Renderer` passed in, and every property holds for
  any choice of them. Booleans and strings are rendered concretely.
- The `eip712` `CustomStruct` arm of `sol_value_to_string`. It is compiled only under a
  feature flag and yields no string.
- The async runtime and the RPC transport. The node is replaced by the deterministic
  oracles of `Chain`. The model assumes the node answers the same question the same way
  during one scan.
- `contract.function(&function_name, args)`. The function name, the arguments and the
  ABI lookup are abstracted into the boolean `binds` and the `callAt` oracle.
- The kinds of call failure (revert, decoding error, transport error). The code treats
  them alike, and so does the model.
- The source's panics are modelled as error values in the order the code reaches them:
  - `expect` on a missing latest block;
  - u64 underflow of `end - start` in a debug build;
  - division by a zero interval.
- In a release build, `end - start` wraps around instead of panicking. That wrap-around
  is not modelled.
- The number of requests sent to the node is not counted. The model states which
  iterations fetch bytecode and which call the function, not how many messages this costs.
- `get_contract_from_abi` reads and parses a JSON file. File access and JSON parsing are
  not part of this model.
- `make_function_call` and `get_latest_block` are thin wrappers over the node's RPC.
- `fetch_pk` is not implemented in the source.
- `evm/src/main.rs` is process glue: it reads environment variables, builds the HTTP
  provider and writes the CSV file.
