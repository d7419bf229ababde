# Hector component runtime: structured exceptions and the reference component

This project models two pieces of Hector's component runtime in Dafny and proves
properties of them.

- The structured exception record `h_exception` (`headers/h_exception.hpp`).
  This covers `extractFilename`, the `H_THROW`, `H_RETHROW` and `H_ASSERT` macros
  that fill the record at a raise site, and `operator<<`, which renders it.
- The reference component `DummyModelComponent`
  (`source/components/dummy_model_component.cpp`). It has three scalars (`slope`,
  `prevX`, `y`) and a time series `c`. Its string-keyed protocol is `setData`,
  `getData` and `sendMessage`, and `prepareToRun` checks that the required data
  has arrived.

Files:

- `wrappers.dfy`: `Option`.
- `decimal.dfy`: the text `std::ostream << int` writes for a line number
  (`IntToString`), and reading it back (`ParseInt`).
- `lexical_cast.dfy`: `ParseReal`, the conversion `boost::lexical_cast<double>`
  applies to a value string.
- `h_exception.dfy`: module `HExceptions`. The record, the raise helpers, the
  rendering and its inverse `Unrender`, and the platform-width finding below.
- `dummy_model_component.dfy`: module `DummyModel`. The component class, the
  message data, `unitval`, `tseries`, and three client methods that check the
  contracts compose.

A thrown `h_exception` is modelled as a returned value: `Failure(e)` for a call
that returns nothing, `Err(e)` for a call that returns a value. Each raise site's
`__func__`, `__FILE__` and `__LINE__` is passed in as a `Site`:

- the function's unqualified name;
- the file path the build gives `__FILE__`, which depends on how the compiler is
  invoked. The component takes it as a constructor argument and keeps it in the
  constant field `sourceFile`;
- the line where the macro starts.

Inputs from helpers whose source is not part of this model:

- `Core::undefinedIndex()` is `-1.0`.
- `M_GETDATA` is `"getData"` and `M_SETDATA` is `"setData"`.
- `DUMMY_COMPONENT_NAME` is `"dummy-component"`. `getComponentName()` returns it
  whatever the state (`GetComponentName`), and the unknown-variable message of
  `setData` is built from it, as line 125 does.
- A default-constructed `unitval` is `(0, U_UNDEFINED)`.
- `bad_lexical_cast::what()` is a fixed text (`BadLexicalCastWhat`).

The proofs need only that the two message constants differ. They never use the
particular value of any of these constants.

`tseries<double>` is a map from date to value plus its interpolation switch.
`set` inserts or overwrites a point, and `size` counts the keys.
`core.hpp`, `unitval.hpp`, `tseries.hpp` and the logger are not part of this model.

Behaviour of the source that a reader might not expect:

- `sendMessage` with `M_SETDATA` does nothing and returns a default `unitval`. The
  source has a TODO to route it to `setData`. So sending a `setData` message
  stores nothing.
- `setData("c", …)` does no date check. A "c" value sent without a date (the
  `undefinedIndex` sentinel) is stored at date `-1`.
- The component keeps no record of which stage (init, prepare, run, shut down)
  it is in. `prepareToRun` only checks the data and changes nothing.
- Every error is the one `h_exception` type. Callers can tell errors apart only
  by their message text.

## Model

| member | source | states |
|---|---|---|
| HExceptions.FindLastOf | headers/h_exception.hpp:39-40 | `find_last_of`: no index exactly when the character does not occur; otherwise the index of an occurrence with no occurrence after it |
| HExceptions.ExtractFilename | headers/h_exception.hpp:37-43 | the result is a suffix of the path, holds no '/', and holds no '\' when the path has no '/' |
| HExceptions.ExtractFilenameAfterSlash | headers/h_exception.hpp:39-41 | for `dir + "/" + name` with no '/' in `name`, the result is `name`, even when `name` holds a '\' |
| HExceptions.ExtractFilenameAfterBackslash | headers/h_exception.hpp:40-41 | with no '/' anywhere, for `dir + "\" + name` with no '\' in `name`, the result is `name` |
| HExceptions.ExtractFilenameNoSeparator | headers/h_exception.hpp:41-42 | a path with neither separator comes back unchanged |
| HExceptions.Throw | headers/h_exception.hpp:91-98 | H_THROW: message is `s`; function, full path and line come from the raise site; file is the basename of the full path |
| HExceptions.ThrowFileIsBasename | headers/h_exception.hpp:95-96 | a raised record's file is a tail of its full path and holds no '/' |
| HExceptions.Rethrow | headers/h_exception.hpp:105-112 | H_RETHROW: message is `s + " - " + original message`; function, file, full path and line all come from the new site |
| HExceptions.RootCauseSurvives | headers/h_exception.hpp:105-112 | after any number of nested rethrows the root message is the tail of the final message, and the site is the outermost rethrow's |
| HExceptions.Assert | headers/h_exception.hpp:78 | H_ASSERT: succeeds exactly when the condition holds; otherwise raises `"Assertion failed: " + s` at the site |
| HExceptions.Render | headers/h_exception.hpp:53-58 | `operator<<`: the text opens with the message line and ends with the line-number line, each followed by a line break |
| HExceptions.RenderRoundTrip | headers/h_exception.hpp:53-58 | for fields with no line break, the rendered text reads back as the same record: message, function, file and full path on a line each in that order, a blank line, then the line number |
| HExceptions.RenderInjective | headers/h_exception.hpp:53-58 | two records with line-free fields that render alike are equal |
| HExceptions.FindLastOfSize | headers/h_exception.hpp:39-40 | `find_last_of` as a `size_t`: `npos` exactly when the character is absent, otherwise the index of its last occurrence |
| HExceptions.ToULong | headers/h_exception.hpp:39 | storing a `size_t` in an `unsigned long` reduces it modulo the `unsigned long` range, as C++ converts to an unsigned type: it is kept when it fits, and a 32-bit `unsigned long` turns `npos` into 2^32-1 |
| HExceptions.ExtractFilenameAsWritten | headers/h_exception.hpp:37-43 | extractFilename with `pos` held in an `unsigned long` of a given width: always a suffix of the path (the `substr` start is in range) |
| HExceptions.ExtractFilenameLP64 | headers/h_exception.hpp:39-41 | where `unsigned long` is 64 bits, the code as written returns the same as ExtractFilename |
| HExceptions.ExtractFilenameLLP64 | headers/h_exception.hpp:39-41 | where `unsigned long` is 32 bits, any path without '/' comes back whole, '\' or not |
| HExceptions.ExtractFilenameLLP64Counterexample | headers/h_exception.hpp:39-41 | for `src\core.cpp` the basename is `core.cpp`, but the 32-bit build returns `src\core.cpp` |
| Decimal.IntToString | headers/h_exception.hpp:57 | `ostream << int`: a '-' exactly for a negative number, then at least one decimal digit, with a leading '0' only for zero |
| Decimal.IntToStringRoundTrip | headers/h_exception.hpp:57 | the rendered line number has no line break and reads back as the same integer |
| LexicalCast.ParseReal | source/components/dummy_model_component.cpp:118 | a conversion succeeds only on non-empty text |
| LexicalCast.ParseRealOfInt | source/components/dummy_model_component.cpp:118 | every integer's decimal text converts to that integer |
| DummyModel.TSeries.Set | source/components/dummy_model_component.cpp:123 | `c.set(date, v)`: the date now maps to `v`, the keys gain only that date, other points and the interpolation switch are kept |
| DummyModel.TSeries.Size | source/components/dummy_model_component.cpp:143 | `size()`: zero exactly when the series holds no point, the test prepareToRun makes |
| DummyModel.SetSize | source/components/dummy_model_component.cpp:122-123 | a set adds one point when the date is new and none otherwise, so the series never shrinks |
| DummyModel.DummyModelComponent.SetDataValue | source/components/dummy_model_component.cpp:115-131 | accepted exactly for "slope"/"y" without a date or "c" with any date, when the value converts, and then yields that value. Unknown name: "Unknown variable name while parsing dummy-component: " + name (line 125). Date given to "slope"/"y": "Assertion failed: date not allowed" (line 117/120), checked before conversion. Unconvertible value: "Could not convert var: " + name + ", value: " + text + ", exception: " + cast message (line 129) |
| DummyModel.DummyModelComponent.constructor | source/components/dummy_model_component.cpp:39-46 | slope, prevX and y start at the sentinel -1, c starts empty and interpolating; raises name the given source path |
| DummyModel.DummyModelComponent.GetY | source/components/dummy_model_component.cpp:66-68 | the value returned is the one getData reports, unitless, for "x" without a date |
| DummyModel.DummyModelComponent.GetData | source/components/dummy_model_component.cpp:163-176 | succeeds exactly for "x" without a date, returning y unitless. "x" with a date: "Assertion failed: Date not allowed for x" (line 169). Any other name: "Caller is requesting unknown variable: " + name (line 172) |
| DummyModel.DummyModelComponent.SendMessage | source/components/dummy_model_component.cpp:87-106 | M_GETDATA answers exactly as getData(datum, info.date); M_SETDATA returns a default unitval and reads no field; anything else raises "Caller sent unknown message: " + message (line 102); no state changes |
| DummyModel.DummyModelComponent.SetData | source/components/dummy_model_component.cpp:110-132 | fails exactly when SetDataValue fails, with its exception, and changes nothing. On success it updates only the named field: slope or y becomes the value, or c gains the point at the date. The other scalars, prevX and c otherwise stay unchanged, and c keeps interpolating |
| DummyModel.DummyModelComponent.PrepareToRun | source/components/dummy_model_component.cpp:136-145 | succeeds exactly when slope ≠ -1, y ≠ -1 and c has a point; otherwise raises "Assertion failed: " at the first failing check (line 141, 142 or 143) |
| DummyModel.DummyModelComponent.RunTimeStepCheck | source/components/dummy_model_component.cpp:149-153 | run's entry guard: passes exactly when runToDate - prevX > 0.1, else "Assertion failed: time step error" (line 153) |
| DummyModel.SetYThenGetX | source/components/dummy_model_component.cpp:119-121 | setting "y" from convertible text, then asking for "x", returns that value unitless |
| DummyModel.FreshComponentNotReady | source/components/dummy_model_component.cpp:136-145 | a newly constructed component fails prepareToRun at its first check (slope unset, line 141) |
| DummyModel.ReadyOnceAllSet | source/components/dummy_model_component.cpp:136-145 | after slope "2", y "0" and one point of c are set, prepareToRun succeeds |

## Left out

- `run`'s stepping loop (source/components/dummy_model_component.cpp:155-158) is not modelled. It accumulates `prevX += 0.1` in floating point, may step past `runToDate`, and reads `c` through `tseries::get` interpolation, which is not part of this model. Only its entry guard is modelled (`RunTimeStepCheck`).
- `init`, `shutDown` and every `H_LOG` call are not modelled. They open, write to and close the logger, an external output sink. They change no modelled field.
- `accept` is not modelled. It is a single call into a visitor whose source is not part of this model.
- `getC` is not modelled. It returns the series itself; in the model the field `c` is directly readable.
- The destructor is not modelled. It does nothing.
- C++ exception unwinding and the `throw (h_exception)` specifications are not modelled. A raise is a returned `Failure`/`Err` value.
- The capture of `__func__`/`__FILE__`/`__LINE__` is not modelled. These are passed in as a `Site`. For the two raises written over two lines (125-126 and 129-130), the line is taken as the first line.
- `LexicalCast.ParseReal`: this is a stand-in for `boost::lexical_cast<double>`. It accepts a sign, digits with an optional fraction, and an optional exponent, and it converts exactly to a real. It does not model `inf`/`nan` spellings or rounding to a `double`. Nor does it refuse a literal outside the `double` range, such as `"1e400"`: `lexical_cast` fails on it, so `setData` raises "Could not convert var: …" (source/components/dummy_model_component.cpp:129), while the model converts it and stores the value.
- Doubles are modelled as exact reals. The sentinel test `slope != -1` compares exactly, as the source's does. Text that converts to -1 therefore leaves a field looking unset.
- `unitval` arithmetic and units other than unitless/undefined are not modelled. They are not used by this component.
- `tseries::get` and interpolation queries are not modelled; only the interpolation switch is kept. The `message_data` fields other than `date` and `value_str` are not modelled. Neither is used by the modelled operations.

## Findings

| source | as written | input that shows it | evidently intended | confidence | as-written member | corrected member |
|---|---|---|---|---|---|---|
| headers/h_exception.hpp:39-41 | `find_last_of` returns a `size_t`, which is stored in an `unsigned long pos` and then compared to `npos`. Where `unsigned long` has 32 bits and `size_t` 64 (64-bit Windows), `npos` is truncated to 2^32-1. That value never equals `npos`, so the '\' search is skipped, and `pos+1` wraps to 0. | `src\core.cpp` on a 32-bit-`unsigned long` platform returns `src\core.cpp` (lemma `HExceptions.ExtractFilenameLLP64Counterexample`) | the text after the last '\' (`core.cpp`), as the `// win` comment says | not executed; medium (depends on the platform's data model) | HExceptions.ExtractFilenameAsWritten | HExceptions.ExtractFilename |
