# Brainrot interpreter, modelled in Dafny

A model of `main.py`, the interpreter for the "brainrot" esoteric language: a
program is a text file of one command per line, run against a single
unbounded integer accumulator. The model has two parts.

- **The line filter** `parse_lines` (module `LineFilter`). It numbers the raw lines
  from 1, trims them, drops blank lines and lines that start with `#`, cuts off
  inline `#` comments, and keeps the whole trimmed text as the command.
  Commands are not split into tokens, so `no cap` is one command.
- **The interpreter** `Interpreter`. Its state is the accumulator `acc`, the
  program counter `pc`, the loaded `lines`, the `loop_stack` of saved `pc`
  values, and the values `skibidi` has printed.
  - Module `Semantics` gives this as functions on a `State` value. `Exec` is
    `execute`, `Step` is one iteration of `run` with its "add 1 to `pc` only if
    the command left it unchanged" rule, and `Run` is `run` bounded by a number
    of iterations. `Run` tests the loop condition, and `Continue` is one pass
    through the loop body followed by the rest of the run.
  - Module `LoopScan` specifies the forward scan a skipped `vibe` makes:
    `Depth`, `IsMatch` and `ScanEnd`.
  - Module `Machine` has the class `Interpreter`. Its fields are updated in
    place, and the source's loops are kept: the `run` loop and the scan's
    `while` loop with its depth counter. `Execute`, `Step` and `Run` are proved
    equal to `Exec`, `Step` and `Run` of `Semantics`. `Load` is proved equal to
    `LineFilter.ParseLines`, and `SkipLoop` is proved to reach
    `LoopScan.ScanEnd`'s match.
  - Module `Properties` proves what the commands do, the loop-stack invariant,
    and facts about whole runs.
  - Module `Scenarios` proves what `Run` does on a few fixed programs.

Two behaviours come from the "did `pc` change" rule, and the model keeps both:

- A skipped `vibe` leaves `pc` on its matching `unvibe`. `run` then executes that
  `unvibe` instead of stepping over it. At top level this raises
  Unmatched `unvibe`; inside a running loop it pops the outer loop's entry.
- An empty loop body (`vibe` directly followed by `unvibe`) with a positive
  accumulator is left without popping its entry.

## Model

| member | source | states |
|---|---|---|
| LineFilter.SpaceEnd | main.py:6 | From index i, the result is the first index that is not whitespace (or the end), and everything between is whitespace. |
| LineFilter.ContentEnd | main.py:6 | Scanning back from index j, the result is just past the last non-whitespace character (or the lower bound), and everything after it up to j is whitespace. |
| LineFilter.SpaceEndUnique | main.py:6 | Those two properties determine `SpaceEnd` exactly. |
| LineFilter.ContentEndUnique | main.py:6 | Those two properties determine `ContentEnd` exactly. |
| LineFilter.Strip | main.py:6 | `str.strip()`: neither end of the result is whitespace. |
| LineFilter.StripSpan | main.py:6 | The input is whitespace, then the stripped text, then whitespace. |
| LineFilter.StripSkipsLeadingSpace | main.py:10 | Extra leading whitespace does not change what `strip()` returns, so cutting off the comment before or after stripping gives the same text. |
| LineFilter.BeforeHash | main.py:10 | `split('#', 1)[0]`: a prefix without `#`, which stops exactly at the first `#` when there is one. |
| LineFilter.CleanLine | main.py:6-12 | A kept command is non-empty, trimmed and contains no `#`. |
| LineFilter.CleanLineIsCodeBeforeComment | main.py:6-12 | What the filter keeps of a line equals the trimmed text before its first `#`, and the line is dropped exactly when that text is empty. |
| LineFilter.Numbered | main.py:5-13 | Each output entry carries its 1-based input position and the kept text at that position, and the numbers strictly increase. |
| LineFilter.NumberedKeepsEveryEntry | main.py:5-13 | Every kept input entry appears in the output under its own number. |
| LineFilter.ParseLines | main.py:4-13 | At most one output line per raw line; line numbers are in range and strictly increasing. |
| LineFilter.ParseLinesSound | main.py:4-13 | Each output line's command is exactly what the filter keeps of the raw line its number names, and it is non-empty, trimmed and free of `#`. |
| LineFilter.ParseLinesKeepsEveryCommand | main.py:4-13 | Every raw line the filter keeps appears in the output with its 1-based number. |
| LoopScan.Delta | main.py:74-77 | The depth counter goes up by 1 exactly on `vibe`, down by 1 exactly on `unvibe`, and is unchanged otherwise. |
| LoopScan.ScanEnd | main.py:69-79 | On success the result is the first later index where the counter reaches 0. On failure the counter stays non-zero up to the last line. |
| LoopScan.MatchIsScanEnd | main.py:69-79 | The match is unique: whenever an index is the first one where the counter balances, the scan finds exactly that index. |
| LoopScan.MatchIsUnvibe | main.py:71-77 | The scan always stops on an `unvibe` line. |
| LoopScan.NestedMatchInside | main.py:70-77 | Nested pairs are skipped whole. Every `vibe` strictly inside a matched range has its own match, and that match lies before the outer one. |
| Semantics.Halve | main.py:55-57 | `cringe` gives floor(acc/2), rounding toward minus infinity (2r ≤ acc < 2r+2), and leaves 0 at 0. |
| Properties.RunUnfold | main.py:35-42 | An iteration that raises nothing leaves the rest of the run to the state it produces. |
| Properties.RunRaises | main.py:35-42 | An iteration that raises ends the run with that error and the state at the raise. |
| Properties.StepMovesPc | main.py:39-42 | An iteration of `run` that raises nothing always changes `pc`. |
| Properties.ArithmeticStep | main.py:45-61 | `rizz` +1, `gyatt` −1, `drip` +5, `npc` −5, `yeet` doubles, `cringe` floor-halves, `no cap` sets 0. `loop_stack` and output are unchanged, and `pc` advances by exactly 1. |
| Properties.SusStep | main.py:62-65 | `sus` advances `pc` by exactly 2 when `acc == 0` (with no extra increment) and by 1 otherwise; nothing else changes. |
| Properties.SusPastEndHalts | main.py:62-65 | A skip past the last line ends `run` normally, with `pc` two past the `sus`. |
| Properties.SusIgnoresNextCommand | main.py:62-65 | With `acc == 0`, `sus X skibidi` prints 0 whatever X is, and continues after the `skibidi`. |
| Properties.VibeEnterStep | main.py:66-68 | A `vibe` with `acc > 0` pushes its own index onto `loop_stack`, and `pc` becomes `pc+1`. |
| Properties.VibeSkipStep | main.py:69-79 | A `vibe` with `acc <= 0` either moves `pc` to its match (strictly later, a valid index, an `unvibe`) and raises nothing, or raises Unmatched `vibe` with `pc` on the last line. It raises exactly when there is no match. |
| Properties.UnvibeStep | main.py:80-88 | With an empty `loop_stack`, `unvibe` raises. With `acc > 0` it sets `pc` to top+1 and keeps the stack; when top+1 is its own index, `run` adds 1 and the loop is left without a pop. With `acc <= 0` it pops exactly one entry and advances by 1. |
| Properties.SkipThenUnvibe | main.py:39-42 | After a skip the matching `unvibe` is executed next. With no open loop it raises Unmatched `unvibe`; otherwise it pops the outer loop's entry and steps past itself. |
| Properties.CommandKinds | main.py:44-92 | A command is one of the twelve `execute` recognises exactly when it is arithmetic or control, and no command is both. |
| Properties.ControlKeepsAcc | main.py:58-90 | `sus`, `vibe`, `unvibe`, `mid` and `skibidi` never change `acc`. |
| Properties.OnlySkibidiPrints | main.py:58-59 | Only `skibidi` produces output, and it appends exactly `acc`. |
| Properties.UnknownCommandRaises | main.py:91-92 | A command raises the unknown-command error exactly when it is not one of the twelve commands (so `no` or `cap` alone raises), and then the state is unchanged. |
| Properties.StepKeepsWellFormed | main.py:66-88 | Every iteration keeps the loop-stack invariant: each entry is the index of a `vibe` line, the entries increase from outer to inner, and all of them lie before `pc`. |
| Properties.JumpKeepsWellFormed | main.py:84-86 | Jumping back into the innermost loop's body keeps the invariant. |
| Properties.PopKeepsWellFormed | main.py:87-88 | Leaving the innermost loop by popping its entry keeps the invariant. |
| Properties.RunKeepsWellFormed | main.py:34-42 | A whole run, however it ends, keeps the loop-stack invariant. |
| Properties.RunFuelMonotone | main.py:34-42 | A run that ends within some number of iterations ends the same way with any larger bound. |
| Properties.StraightLineRun | main.py:34-61 | A stretch of arithmetic commands runs to the end of the program, and `acc` becomes the left fold of their effects. |
| Properties.ArithmeticRunStep | main.py:39-61 | An arithmetic line is one iteration of `run`: it applies the command's effect to `acc` and moves `pc` to the next line. |
| Properties.ArithmeticStretch | main.py:34-61 | A stretch of arithmetic lines up to index e takes one iteration per line, leaves `pc` at e, and `acc` becomes the left fold of their effects. |
| Properties.UnvibeRepeats | main.py:83-86 | An `unvibe` with `acc > 0`, whose loop body is not empty, takes one iteration to send `run` back to the line after its `vibe`. |
| Properties.UnvibeExits | main.py:83-88 | An `unvibe` with `acc <= 0` takes one iteration to pop its loop, and `run` goes on past it. |
| Properties.BodyThenUnvibe | main.py:34-61 | The body of a loop made of arithmetic lines that together take 1 off any accumulator runs in one iteration per line and leaves `pc` on the `unvibe` with `acc` 1 lower. |
| Properties.NextRound | main.py:80-86 | One round of such a loop, from the first line of its body with `acc > 1`, takes e − p iterations and comes back to the body with `acc` 1 lower. |
| Properties.LastRound | main.py:80-88 | The round with `acc = 1` takes e − p iterations, pops the loop and leaves `pc` past the `unvibe` with `acc = 0`. |
| Properties.DecrementingBody | main.py:66-88 | Such a running loop entered with `acc = k ≥ 1` repeats its body exactly k times in k·(e − p) iterations, then pops its entry and leaves `pc` past the `unvibe` with `acc = 0`. |
| Properties.DecrementingLoopRuns | main.py:66-88 | The same loop started at its `vibe` with `acc = k ≥ 1` takes k·(e − p) + 1 iterations and leaves the loop stack as it found it. |
| Properties.CountdownLoop | main.py:66-88 | `vibe gyatt unvibe` is such a loop: with `acc = k ≥ 1` it takes 2k+1 iterations and leaves `pc` past its `unvibe` with `acc = 0`. |
| Scenarios.CountdownPrintsZero | main.py:34-92 | `drip drip vibe gyatt unvibe skibidi` halts within any bound of at least 24 iterations, prints 0 and ends with `acc` 0. |
| Scenarios.SkipPrintsZero | main.py:60-65 | `no cap sus drip skibidi` prints 0, because the `drip` is skipped. |
| Scenarios.TopLevelSkipFails | main.py:69-82 | `vibe vibe unvibe unvibe` from a fresh interpreter: the scan skips the inner pair and lands on index 3, and the run then fails with Unmatched `unvibe`. |
| Scenarios.SkipInsideLoopPopsOuter | main.py:66-88 | In `rizz vibe gyatt vibe unvibe unvibe`, the skipped inner loop's `unvibe` pops the outer entry, so the outer `unvibe` then fails. |
| Scenarios.InnerSkipFromInnerVibe | main.py:69-88 | The same run from the inner `vibe`: skip to index 4, pop there, then fail at index 5 with an empty stack. |
| Scenarios.EmptyBodyKeepsEntry | main.py:84-86 | `rizz vibe unvibe` halts with `loop_stack` still holding the `vibe`'s index. |
| Scenarios.EndlessLoop | main.py:34-42 | `rizz vibe mid unvibe` never halts: every iteration bound runs out. |
| Scenarios.HalfOfNoCapIsUnknown | main.py:60-92 | `no` and `cap` on their own raise the unknown-command error. |
| Machine.Interpreter.constructor | main.py:19-24 | A fresh interpreter has `acc = 0`, `pc = 0`, no lines, an empty `loop_stack` and no output. |
| Machine.Interpreter.Load | main.py:32 | The program becomes the filtered lines of the raw text; nothing else changes. |
| Machine.Interpreter.Execute | main.py:44-92 | The fields after `execute(cmd)`, and the error it raises, are exactly those given by `Semantics.Exec`. |
| Machine.Interpreter.SkipLoop | main.py:69-79 | The scan loop reaches `ScanEnd`'s match, or raises Unmatched `vibe` with `pc` on the last line. `pc` only increases and never passes the last line, so the loop terminates. |
| Machine.Interpreter.Step | main.py:36-42 | One fetch/execute/increment iteration equals `Semantics.Step`. |
| Machine.Interpreter.Run | main.py:34-42 | The status and the fields at the end equal `Semantics.Run`. The loop-stack invariant holds at the end if it held at the start. |

## Left out

- Reading the file in `load` (main.py:26-31) is I/O, and so is its "Could not open file" error. `Load` takes the lines the file would yield.
- The command-line front end (main.py:94-107): argparse, printing errors to stderr, and the exit status.
- The debug trace (main.py:37-38) and the `debug` field: diagnostic output only.
- The text of the error messages. Only the kind of error is modelled. The messages report `pc`, not the source line number.
- Real stdout: `skibidi`'s `print` appends to the `output` field.
- `readlines` line splitting: `Load` takes the lines already split. Their line endings are whitespace, so the filter's `Strip` removes them.
- Whitespace is the fixed set of characters for which Python's `str.isspace()` holds, listed in `SpaceChars`. A Python built on a different Unicode version may differ.
- Machine.Interpreter.Run: it stops with `OutOfFuel` after `fuel` iterations, which `run` does not do, because a program can loop forever (`Scenarios.EndlessLoop`). For every run that ends, `Properties.RunFuelMonotone` shows that the bound does not change the result.
- Machine.Interpreter.Step: `run` (main.py:34-42) does its fetch, execute and increment inline. The model puts one iteration into `Step`, which `Run` calls.
