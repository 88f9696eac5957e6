# Random task generator — Dafny model

This project models the task generator of `rust-todo-list-mock-gen`
(`src/task.rs`): the `TaskStatus` enum and its random pick, the colour
palette and duration tables, the `Task` record and `Task::new_random_task`,
which builds one synthetic task for seeding fixtures or demo data.

The generator is pure once its effects are lifted out, so the model is a set
of functions and lemmas in three modules:

- `Wrappers` (`wrappers.dfy`): Rust's `Option`.
- `Text` (`text.dfy`): the standard-library string operations the generator
  uses — `join` for the task name and unsigned `to_string` for the colour
  field — each with its inverse (`Split`, `ParseDecimal`) and a round-trip
  lemma.
- `Tasks` (`task.dfy`): the enum, the tables, the record and the generator.

Every random draw (status integer, day count, duration index, colour index,
lorem word list), the clock (`now`, whole seconds), the fresh identifier and
the user `User::create_random_user` would produce (`fallback`) are
parameters of `Tasks.NewRandomTask`. The ranges `gen_range` draws from become
its precondition `DrawsInRange`. `User` is defined in `src/user.rs`, which is
not part of this model; it is the opaque type parameter `U`.

The status variant is spelled `NotNedeed`, as in the code.
The colour range `0..(PROJECT_COLORS.len() - 1)` is modelled as written: the
last palette entry can never be chosen, and the model proves so.

## Model

| member | source | states |
|---|---|---|
| `Tasks.StatusOrdinal` | src/task.rs:24-30 | every variant has a position below 4 in the enum declaration |
| `Tasks.StatusOfDraw` | src/task.rs:41-47 | a draw in 0..3 yields the variant at that position; 4 and every other value yield `ReadyToStart` |
| `Tasks.StatusDrawPreimage` | src/task.rs:41-47 | for draws in 0..=4, a status is drawn exactly by its own position, and `ReadyToStart` also by 4 |
| `Tasks.StatusDrawOnto` | src/task.rs:41-47 | every status is produced by some draw in 0..=4 |
| `Tasks.TimeOptionsPositive` | src/task.rs:64 | the table has 7 entries, each a positive `i32` of at most 7200 seconds |
| `Tasks.DurationOption` | src/task.rs:75-76 | an index in `0..7` is in bounds and picks one of the table's values, between 1600 and 7200 |
| `Tasks.DurationOptionOnto` | src/task.rs:64-76 | every table value is picked by some in-range index |
| `Tasks.ResolveUser` | src/task.rs:68-71 | the supplied user when there is one, the fallback only when there is none |
| `Tasks.AnchorDate` | src/task.rs:73-74 | the anchor is a whole number of days before `now`, that number is the draw, and it lies within `[now - 864000, now]` |
| `Tasks.ColorOfDraw` | src/task.rs:93-95 | an index from `0..(len - 1)` becomes one digit `'0'..'8'` that parses back to the index |
| `Tasks.PaletteEntryOfIndex` | src/task.rs:51-62 | the decimal text of every index below 10 reads back as the palette entry at that index |
| `Tasks.NewRandomTask` | src/task.rs:67-97 | user resolution, status from the draw, joined name, `finished - started = 2 * duration`, midpoint `days` days before `now`, `started < updated == finished`, time bounds, a one-digit colour naming any palette entry but the last |
| `Tasks.NameWords` | src/task.rs:85 | the name splits on spaces back into the 3 or 4 drawn words when no word holds a space |
| `Text.Join` | src/task.rs:85 | joining yields the empty string for no words, otherwise the words' total length plus one separator between each pair |
| `Text.Split` | src/task.rs:85 | splitting yields at least one piece and no piece holds the separator |
| `Text.JoinSplit` | src/task.rs:85 | joining the pieces of a split on the same separator rebuilds the original string |
| `Text.SplitWord` | src/task.rs:85 | a word without the separator splits into itself |
| `Text.SplitPrefix` | src/task.rs:85 | splitting peels a leading separator-free word off |
| `Text.SplitJoin` | src/task.rs:85 | splitting the join of separator-free words gives the words back |
| `Text.Digit` | src/task.rs:95 | a digit value becomes an ASCII digit whose value is that digit |
| `Text.DecimalString` | src/task.rs:95 | `to_string` gives non-empty ASCII digits, a leading `'0'` only for 0, one digit exactly below 10 |
| `Text.ParseDecimalString` | src/task.rs:95 | parsing the decimal text of `n` gives `n` |
| `Text.DecimalStringInjective` | src/task.rs:95 | distinct numbers have distinct decimal texts |

## Left out

- Random number generation (`rand::thread_rng`): draws are parameters with the ranges as preconditions; nothing about uniformity or the bias of the status draw toward `ReadyToStart` is stated.
- The clock (`Utc::now()`): `now` is a parameter in whole seconds; chrono's sub-second precision, calendar and time-zone semantics and its panic on out-of-range dates are not modelled, and `Duration::days` is 86400 seconds.
- `Uuid::new_v4()`: `id` is an opaque 128-bit parameter; its uniqueness across calls is probabilistic and not stated.
- The lorem word generator (`Words(3..5)`): the word list is a parameter of 3 or 4 words; its contents, and so whether a word may contain a space, are not known, which is why `Tasks.NameWords` requires space-free words.
- `User` and `User::create_random_user` live in `src/user.rs`, which is not part of this model: `User` is a type parameter and the created user is the `fallback` parameter.
- The serde `Serialize`/`Deserialize` derives and any JSON round-trip: macro-generated, not visible in the code.
- Integer widths: the draws and table values fit their Rust types (`i32`, `i64`, `usize`) by their ranges, so unbounded integers change nothing for them; timestamp overflow is excluded with the clock.
