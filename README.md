# calc: the command-line front end, modelled in Dafny

`calc` is a command-line arithmetic evaluator: `calc -o <op> -a <int> [-b <int>]` applies one of
six named operations (`add`, `sub`, `mul`, `div`, `pow`, `fact`) to signed 64-bit operands by
calling a checked arithmetic library (`mathlib`), prints the result, and exits with 0 (ok),
1 (usage error) or 2 (math error).

This project models the front end in `src/main.cpp`: the argument resolver and dispatcher that
`run` drives through the stages `parse` → `check` → `calc` → `print_result`, and which decides
the exit code.

- `wrappers.dfy` (`Wrappers`): `Option`, used for a C pointer that may be null and for a lookup that may fail.
- `ints.dfy` (`Ints`): the `std::int64_t` / `std::uint64_t` ranges and `static_cast<std::uint64_t>`.
- `mathlib.dfy` (`MathLib`): the library's result record (`ml_result`: error, kind, value) and an
  `Engine` value holding the six `ml_*` operations. The library's header and bodies are not part
  of this model, so every stage that calls it takes the `Engine` as a parameter.
- `operations.dfy` (`Operations`): the operation enum, the name table `kOps`, `parse_op` (a loop
  over the table) and `needs_b`.
- `decimal.dfy` (`Decimal`): `parse_i64`. It follows `strtoll` base 10 as section 7.22.1.4 of
  ISO/IEC 9899:2011 describes it: optional white space, an optional sign, the longest run of
  digits, and `ERANGE` outside the `long long` range. A number is accepted only when at least one
  character was converted, nothing follows it and it is in range. The file proves the accepted
  strings are exactly "white space, optional sign, digits" whose value fits in 64 bits, that the
  decimal rendering of every int64 value reads back as that value, and that the rendering of any
  integer outside that range is refused.
- `cli.dfy` (`Cli`): the `context` record; `parse` as a loop over the option tokens;
  `check`, `calc`, `print_math_err`, `print_result`; and `run`. Each imperative stage is a method
  proved against a specification function (`ParseSpec`, `CalcSpec`, `RunSpec`).
- `cli_properties.dfy` (`CliProperties`): properties that span several tokens or stages. Tokens
  are handled left to right, and a refused token stops the loop. A repeated option overwrites the
  earlier one. `-h` gives usage. The lemma `RunExitCodes` characterises each exit code, and input
  errors are decided before the library is called. Six concrete invocations are proved as well:
  `AddScenario`, `FactScenario`, `PowNegativeScenario`, `DivByZeroScenario`,
  `FactWithBScenario` and `UnknownOpScenario`.

The C++ `context` is a plain struct that `run` owns and passes by reference to `parse` and
`calc`. It is modelled as a datatype, and those two stages are methods that return the updated
record. Nothing else refers to the struct, so no aliasing is lost. `parse_op` and `parse_i64`
write through an `out` pointer. Their methods take the old `*out` value and return the written
one, and they state that it is unchanged on failure.

The option tokenizer `getopt_long` is abstracted as a sequence of `Token(flag, arg)` values.
`flag` is the character `getopt_long` returns: `'o'`, `'a'`, `'b'`, `'h'`, or `'?'` for an
unknown option or a missing argument. `arg` is `optarg`, and `None` stands for a null pointer.

Behaviour of `src/main.cpp` worth noting:

- `-h`/`--help` prints the help text and exits with 1 (usage), not 0 (`src/main.cpp:188-191`).
- Operands are 64-bit signed, read with `strtoll`. So leading white space and a leading `+` are
  accepted (`Decimal.ParseIgnoresSpacesAndPlus`).

## Model

| member | source | states |
|---|---|---|
| `Ints.ToU64` | src/main.cpp:249-253 | `static_cast<std::uint64_t>` yields the unsigned value congruent to its argument modulo 2^64; it is the identity on non-negative values and exceeds the int64 range for negative ones |
| `Operations.OpsListsNames` | src/main.cpp:46-53 | every `kOps` entry pairs an operation with its own name, and every operation other than `none` is in the table |
| `Operations.LookupFrom` | src/main.cpp:114-119 | scanning the table from index i finds an entry exactly when some later entry's name equals the string, and what it finds is a real operation listed under that name |
| `Operations.Lookup` | src/main.cpp:114-120 | the table scan of `parse_op` finds a string exactly when some `kOps` entry carries that name, and what it finds is a real operation listed under that name |
| `Operations.LookupName` | src/main.cpp:109-121 | looking up the name of any real operation gives back that operation |
| `Operations.LookupIffName` | src/main.cpp:109-121 | a name is found exactly when it is one of the six operation names (exact, case-sensitive match), and what is found carries that name |
| `Operations.ParseOp` | src/main.cpp:109-121 | `parse_op` returns true exactly when the string is non-null and in the table; on success it writes the matching operation, never `none`; given the name of any real operation it succeeds and writes that operation; on failure `*out` keeps its old value |
| `Operations.NeedsB` | src/main.cpp:83-86 | `needs_b` holds exactly for the named operations other than `fact` (add, sub, mul, div, pow); false for `fact` and `none` |
| `Decimal.SpacesEnd` | src/main.cpp:96 | the white-space prefix `strtoll` skips ends at the first non-space character |
| `Decimal.DigitsEnd` | src/main.cpp:96 | the digit run `strtoll` consumes is the longest one |
| `Decimal.ScanSubject` | src/main.cpp:96 | `strtoll`'s end index is within the string, is 0 (`end == s`) with value 0 when no digits were found, and otherwise lies just past the last digit of a maximal digit run |
| `Decimal.Parse` | src/main.cpp:88-107 | an accepted string is non-empty and ends in a digit (nothing trails the number) |
| `Decimal.ParseI64` | src/main.cpp:88-107 | `parse_i64` returns true exactly when the string is non-null and accepted; on success it writes the parsed value; on failure `*out` keeps its old value |
| `Decimal.ParseSound` | src/main.cpp:96-103 | every accepted string is white space, an optional sign and one or more digits, and its value is the signed value of those digits |
| `Decimal.ParseComplete` | src/main.cpp:96-103 | every string of that form is accepted exactly when its value is in the int64 range (`ERANGE` otherwise), and then it yields that value |
| `Decimal.NatDigits` | src/main.cpp:142-144 | the decimal rendering of a non-negative number is a non-empty digit string |
| `Decimal.NatDigitsValue` | src/main.cpp:142-144 | the digits rendered for n denote n |
| `Decimal.ParseRender` | src/main.cpp:88-107 | parsing `Render(v)`, the base-10 text `printf("%lld")` gives for v (src/main.cpp:142), of any integer v succeeds exactly when v is in the int64 range, and then yields v |
| `Decimal.ParseIgnoresSpacesAndPlus` | src/main.cpp:96 | leading white space and a `+` sign do not change what is parsed |
| `Cli.Step` | src/main.cpp:164-195 | one turn of the option loop continues exactly when the token is a known `-o` name or a valid `-a`/`-b` integer (`-h` and unknown options stop it), never yields math, and keeps `have_op ==> op != none` |
| `Cli.ParseSpec` | src/main.cpp:160-198 | the option loop never yields math; it yields ok exactly when every token is a known `-o` name or a valid `-a`/`-b` integer; it keeps `have_op ==> op != none` |
| `Cli.Parse` | src/main.cpp:150-199 | the imperative option loop leaves exactly the exit code and context that `ParseSpec` describes |
| `Cli.Check` | src/main.cpp:201-227 | usage exactly when the arity is wrong (missing op or a, b given to a unary op, b missing for a binary op), whatever the operands' signs; math exactly when the arity is right and pow has b < 0 or fact has a < 0; ok otherwise |
| `Cli.CheckOk` | src/main.cpp:203-226 | after a passed check on a context reachable from parse: `have_op`, `have_a`, `have_b == needs_b(op)`, `op != none`, pow has b >= 0 and fact has a >= 0, so the `uint64_t` casts keep the value |
| `Cli.CalcSpec` | src/main.cpp:229-263 | `calc` yields usage exactly for `none` and never math; it changes only `r`, which it sets to `Apply(ml, c)`, the `ml_*` call that the switch at src/main.cpp:231-255 selects; on usage nothing changes at all |
| `Cli.Calc` | src/main.cpp:229-263 | the imperative dispatch assigns `c.r` from the matching `ml_*` call and returns the code `CalcSpec` describes |
| `Cli.CalcAfterCheck` | src/main.cpp:248-253 | after a passed check `calc` succeeds, and `ml_pow`/`ml_fact` receive the operands exactly as parsed |
| `Cli.CalcIgnoresB` | src/main.cpp:231-255 | for an operation without a second operand, `calc`'s code and result do not depend on b |
| `Cli.PrintMathErr` | src/main.cpp:123-133 | every library error kind, division by zero, overflow or other, yields math |
| `Cli.PrintResult` | src/main.cpp:135-148 | ok exactly when the library result carries no error, math otherwise, never usage |
| `Cli.Run` | src/main.cpp:265-283 | `run`, starting from `Initial` (the default-initialised `context c {}`, src/main.cpp:28-39, 267), returns `Status` (the `static_cast<int>` of src/main.cpp:270-282: 0, 1, 2) of `RunSpec`: the first stage that fails, else `print_result` |
| `CliProperties.ParseSplit` | src/main.cpp:162-198 | parsing a concatenation parses the first part and continues with the second only if the first ended ok |
| `CliProperties.ParseStopsAtFirstRefused` | src/main.cpp:164-195 | the first refused token decides the outcome (usage), and later tokens are never looked at |
| `CliProperties.LastWith` | src/main.cpp:162 | the index found is the last token carrying the given option, or -1 when none does |
| `CliProperties.ParseLastOp` | src/main.cpp:164-171 | after a successful parse the operation is the one named by the last `-o`; without `-o` it is unchanged |
| `CliProperties.ParseLastA` | src/main.cpp:172-179 | after a successful parse `a` is the value of the last `-a`; without `-a` it is unchanged |
| `CliProperties.ParseLastB` | src/main.cpp:180-187 | after a successful parse `b` is the value of the last `-b`; without `-b` it is unchanged |
| `CliProperties.HelpIsUsage` | src/main.cpp:188-195 | `-h`, or any option other than `-o`/`-a`/`-b`, makes parse yield usage |
| `CliProperties.RunExitCodes` | src/main.cpp:265-283 | `RunSpec`, the outcome of `run`, yields usage exactly on a parse failure or arity error; math exactly on a domain error or a library error; ok exactly when the request is valid and the library reports no error |
| `CliProperties.InputErrorsBeforeEngine` | src/main.cpp:267-276 | when parse or check fails the outcome is not ok and does not depend on the library |
| `CliProperties.AddScenario` | src/main.cpp:265-283 | `-o add -a 2 -b 3` exits 0 when `ml_add(2, 3)` reports no error |
| `CliProperties.PowNegativeScenario` | src/main.cpp:218-221 | `-o pow -a 2 -b -1` exits with math whatever the library does |
| `CliProperties.DivByZeroScenario` | src/main.cpp:244-247 | `-o div -a 7 -b 0` exits with math when `ml_div(7, 0)` reports division by zero |
| `CliProperties.FactScenario` | src/main.cpp:265-283 | `-o fact -a 5` (the help text's example) exits 0 when `ml_fact(5)` reports no error |
| `CliProperties.FactWithBScenario` | src/main.cpp:208-212 | `-o fact -a 5 -b 1` exits with usage |
| `CliProperties.UnknownOpScenario` | src/main.cpp:164-169 | `-o xor -a 1` exits with usage |

## Left out

- `getopt_long` internals (`optarg`, `opterr`, `optind`, argv permutation, long-option matching): abstracted as the token sequence it yields.
- The bodies of `mathlib::ml_add`, `ml_sub`, `ml_mul`, `ml_div`, `ml_pow`, `ml_fact`, and the definition of `ml_result`: `mathlib.h` is not part of this model. The operations are parameters (`MathLib.Engine`), so only what `src/main.cpp` does with their arguments and results is proved.
- `MathLib.MlError`: the library's own error enumerators are unknown; `OtherError` stands for every enumerator other than `ok`, `div0` and `overflow`.
- `MathLib.ZeroResult`: the value-initialised `r {}` is taken to be error `ok`, kind `i64`, value 0. Nothing depends on this, because `calc` assigns `r` before `print_result` reads it.
- `printf`/`fprintf` output, the help text and the wording of error messages: output I/O; only the exit code is modelled. `Decimal.Render` models the digits of `%lld` only, to state the round trip.
- `errno` and locale handling in `strtoll`: `isspace` is the "C" locale's, and `ERANGE` is modelled as "the value is outside the int64 range". The clamped value `strtoll` returns on overflow is not modelled, because `parse_i64` discards it.
- C strings are modelled by their characters before the terminating NUL. An argv element cannot contain an embedded NUL, so that case is not modelled.
- The null `out` pointer checks of `parse_op` and `parse_i64`: every call site passes the address of a context field.
- `main`: a one-line wrapper around `run`.
