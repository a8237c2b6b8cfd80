# Pokedex: TTL cache and REPL logic

This project models the two pieces of sequential logic in the Pokedex command-line client:

- The time-to-live cache of package `pokecache` (`internal/pokecache/main.go`) is a `Cache` class. Its entry map holds
  keys mapped to a value and the instant it was stored. `Add` inserts or overwrites an entry. `Get` is a plain lookup with no
  expiry check. `DeleteExpired` is one sweep: it removes every entry strictly older than the given duration. Instants and
  durations are integer clock ticks that the caller passes in.
- The REPL's decisions in `main.go` are modelled with I/O abstracted away:
  - tokenising a line (`cleanInput`) and choosing the command and its argument;
  - the cache-through fetch (`pokeRequest`);
  - the two-link paging state of `map` and `mapb` (class `Config`);
  - the insert decision of `catch` (class `Pokedex`).

  The network is a parameter `server: string -> Response`. The JSON decoder is a parameter `decode: Bytes -> Option<T>`.
  `rand.Intn` is a parameter `draw` with `0 <= draw(n) < n`.

Modules:
- `Wrappers`: `Option` and `Result`.
- `PokeCache`: the cache, its sweep function `Swept`, and lemmas about sweeps and batches of additions.
- `GoStrings`: the parts of Go's `strings` package that the REPL relies on. These are `TrimSpace`, with the Unicode
  White_Space set of `unicode.IsSpace`; `Split` on one space, with its inverse `Join`; and `ToLower` for every letter that Go lowers into ASCII.
- `Repl`: `cleanInput` as the loop `CleanInput`, proved against the function `CleanWords`; the command table; the
  dispatch rule.
- `Commands`: `pokeRequest`, `Config` with `map`/`mapb`, and `Pokedex` with `catch` and `inspect`.

## Model

| member | source | states |
|---|---|---|
| `PokeCache.Cache.constructor` | internal/pokecache/main.go:19-22 | A new cache has an empty entry map. |
| `PokeCache.Cache.Add` | internal/pokecache/main.go:29-37 | The key now maps to the value stamped with the call's instant. An earlier entry for the key is replaced. Every other key keeps its presence, value and timestamp. |
| `PokeCache.Cache.Get` | internal/pokecache/main.go:39-48 | Found exactly when the key is present, with the stored value. A miss yields the empty (nil) value. Nothing changes, so an entry past its TTL but not yet swept is still returned. |
| `PokeCache.Cache.DeleteExpired` | internal/pokecache/main.go:60-70 | The loop that deletes while iterating leaves exactly `Swept(old entries, now, ttl)`. |
| `PokeCache.SweepRule` | internal/pokecache/main.go:64-68 | A key survives a sweep exactly when it was present and `now - createdAt <= ttl`, so an entry aged exactly `ttl` survives. Survivors keep their entry. |
| `PokeCache.SweepOnlyRemoves` | internal/pokecache/main.go:65-68 | A sweep adds no key and changes no surviving entry. |
| `PokeCache.SweepIdempotent` | internal/pokecache/main.go:60-70 | A second sweep at the same instant changes nothing. |
| `PokeCache.SweepsCompose` | internal/pokecache/main.go:54-57 | Sweeps at increasing instants have the effect of the last one alone. |
| `PokeCache.SweepClearsOldBatch` | internal/pokecache/main.go:60-70 | If every entry was stored at `t0` and `now - t0 > ttl`, a sweep leaves an empty map. |
| `PokeCache.AddedAllRetrievable` | internal/pokecache/main_test.go:133-148 | Adding a batch of distinct keys one after another loses no update. Each key maps to its own value, stamped with the batch's instant. |
| `PokeCache.AddedAllKeepsOthers` | internal/pokecache/main.go:33 | Adding a batch leaves every key outside the batch present and unchanged. |
| `PokeCache.AddedAllKeys` | internal/pokecache/main.go:33-36 | After a batch of additions, the key set is the old keys plus exactly the batch's keys. |
| `PokeCache.AddedAllStamps` | internal/pokecache/main.go:33-36 | Adding a batch at `t` to entries all stamped `t` leaves every entry stamped `t`, even when keys repeat. |
| `PokeCache.BatchExpires` | internal/pokecache/main_test.go:178-210 | Keys added to a fresh cache at `t0` are all present. A sweep more than `ttl` after `t0` removes them all. |
| `GoStrings.LeadingSpace` | main.go:215 | The length of the longest all-white-space prefix: everything before it is white space, and the character at it is not. |
| `GoStrings.TrailingSpace` | main.go:215 | The length of the longest all-white-space suffix, with the symmetric guarantee. |
| `GoStrings.TrimSpace` | main.go:215 | The result has no white space at either end. It is empty exactly when the input is all white space. |
| `GoStrings.TrimSpaceMargins` | main.go:215 | The result is a contiguous slice of the input. Only white space lies before and after it. |
| `GoStrings.TrimSpaceUnique` | main.go:222 | Take any string `r` with no white space at either end, between two all-white-space margins. Its trim is `r`. So the trim is unique. |
| `GoStrings.TrimSpaceOfTrimmed` | main.go:222 | A string with no white space at either end is its own trim. |
| `GoStrings.TrimSpaceIdempotent` | main.go:222 | Trimming twice equals trimming once. |
| `GoStrings.Split` | main.go:217 | The input split on `' '` has at least one piece, and no piece contains a space. |
| `GoStrings.JoinSplit` | main.go:217 | Joining the pieces with single spaces gives back the input. |
| `GoStrings.SplitJoin` | main.go:217 | Joining space-free pieces with spaces and splitting the result gives back the pieces. So `Split` and `Join` are inverse. |
| `GoStrings.ToLower` | main.go:88 | The result has the input's length. Each `A`–`Z` becomes the matching `a`–`z`, KELVIN SIGN becomes `k` and U+0130 becomes `i`. Every other character is kept. No letter that lowers to ASCII remains. |
| `GoStrings.ToLowerIdempotent` | main.go:93 | Lower-casing is idempotent. |
| `Repl.CleanInput` | main.go:214-229 | The append loop returns exactly `CleanWords(text)`: the trimmed, non-empty pieces of the trimmed line split on spaces. |
| `Repl.NonEmptyTrimmedAppend` | main.go:221-226 | Filtering distributes over concatenation, so the words keep the order of their pieces. |
| `Repl.NonEmptyTrimmedMembers` | main.go:221-226 | A word is in the output exactly when it is non-empty and is the trim of some piece. Nothing else is returned. |
| `Repl.WordsAreTrimmed` | main.go:221-226 | Every returned word is non-empty and equal to its own trimmed form. |
| `Repl.CleanWordsEmpty` | main.go:214-228 | A line yields no words exactly when it is empty or all white space. |
| `Repl.DispatchWords` | main.go:86-94 | The dispatch rule panics exactly on an empty word list. A command runs only when the lower-cased first word is its name, and its argument is already lower case. The result is "unknown command" exactly when no command has the lower-cased first word as its name. |
| `Repl.KelvinSignSelectsPokedex` | main.go:88 | A first word spelled with KELVIN SIGN for the `K` of `POKEDEX` still runs `pokedex`, because Go lower-cases that sign to `k`. |
| `Repl.CommandTable` | main.go:33-74 | The command table finds a command exactly under its registered name. |
| `Repl.DispatchInvokes` | main.go:88-94 | A command runs exactly when the lower-cased first word is its name. Its argument is the lower-cased second word, or `""` for a one-word line. |
| `Repl.DispatchIgnoresExtraWords` | main.go:90-94 | Words after the second do not affect dispatch. |
| `Repl.BlankLinePanics` | main.go:86-88 | `ci[0]` is out of range exactly when the line is empty or all white space. |
| `Repl.GuardedDispatchSafe` | main.go:86-88 | With a guard against an empty word list, dispatch never panics and skips exactly the blank lines. It agrees with the unguarded rule on every other line. |
| `Commands.PokeRequest` | main.go:192-212 | Returns `Request(old entries, url, server)` and leaves the entries as `AfterRequest` says. A hit returns the cached bytes. A miss returns the fetched body and caches it, or returns the fetch's error. |
| `Commands.HitDoesNotFetch` | main.go:193-196 | On a hit, the result does not depend on the network and the cache is unchanged. |
| `Commands.SecondRequestHits` | main.go:204-211 | After a successful request the URL is cached. The next request for it returns the same bytes, whatever the network says. |
| `Commands.RequestTouchesOnlyItsUrl` | main.go:198-209 | A failed fetch or read leaves the cache unchanged. No entry under another key changes. |
| `Commands.Config.constructor` | main.go:76-78 | Both paging links start empty. |
| `Commands.Config.CommandMap` | main.go:137-164 | Fetches `next`, or the first page when `next` is empty. On success, `next` becomes the page's `next`. `previous` becomes the page's `previous`, or the first page when that is empty. On failure only the defaulting of `next` remains. Returns the listed names or the error. |
| `Commands.Config.CommandMapb` | main.go:166-190 | Fetches `previous`, or the first page when it is empty. On success, both links are copied verbatim from the page. On failure only the defaulting of `previous` remains. |
| `Commands.PagingSteps` | main.go:138-183 | After a successful `map`, the backward link is never empty. So the next `mapb` fetches the page's `previous` link, or the first page when the page had none. Repeating a failed `map` or `mapb` changes nothing more. |
| `Commands.Pokedex.constructor` | main.go:31 | The collection starts empty. |
| `Commands.Pokedex.Catch` | main.go:308-335 | A fetch or decode error leaves the collection unchanged and is reported. A non-positive base experience panics in `rand.Intn`, even for an already caught name. Otherwise the collection becomes `CatchDecision(old, name, pokemon, draw(baseExperience))`. |
| `Commands.CatchOnlyAdds` | main.go:322-333 | A throw adds only the thrown name and never changes a caught entry. An already caught name is untouched. A missing name is added exactly when the roll exceeds half the base experience, with integer division. |
| `Commands.CatchOdds` | main.go:323-333 | Take a name not yet caught and base experience `b`. Counted through `CatchDecision`, exactly `(b - 1) / 2` of the `b` possible rolls add the name. So a catch always succeeds with probability below one half, and a creature with base experience 1 or 2 can never be caught. |
| `Commands.Pokedex.Inspect` | main.go:337-338 | Finds a creature exactly when it was caught, with the recorded record. The collection is not modified. |

## Findings

| source | as written | input that shows it | evidently intended | confidence | as-written member | corrected member |
|---|---|---|---|---|---|---|
| main.go:86-88 | The REPL indexes `ci[0]` without checking that `cleanInput` returned any word. | An empty line, or a line of spaces: `cleanInput` returns no words and `ci[0]` panics, which ends the program. | Skip a line without words. | high (derived from the model; not executed) | `Repl.BlankLinePanics` | `Repl.GuardedDispatchSafe` |

## Left out

- The background sweeper `reapLoop` (internal/pokecache/main.go:50-58) is left out: its ticker, its goroutine and the `sync.Mutex` are concurrency and timer delivery. One sweep is the explicit `DeleteExpired(now, ttl)`. `SweepsCompose` states what a run of ticks amounts to.
- `NewCache` calls `reapLoop` synchronously (internal/pokecache/main.go:24), so as written it never returns and the REPL never starts. The constructor models the evident intent: it returns the empty cache (lines 20-22 and 26). Its duration argument only feeds `reapLoop`, so it is dropped.
- `time.Now()` is replaced by an integer instant that the caller passes in. Go's `time.Time.Sub` saturates at the limits of a 64-bit nanosecond `Duration`; the model uses unbounded integers, so that saturation is not modelled.
- Values are immutable byte sequences, so a caller that modifies a `[]byte` after `Add` or `Get` (Go slices alias) is not modelled.
- The concurrent writers of `TestConcurrentAccess` are reduced to sequential additions of distinct keys (`AddedAll`).
- `http.Get`, `io.ReadAll` and `json.Unmarshal` are foreign library calls. They are the `server` and `decode` parameters, and their errors are reduced to three kinds (`GetFailed`, `ReadFailed`, `DecodeFailed`). The response record shapes are reduced to the fields the logic reads (`Page`, `Pokemon`).
- `rand.Intn` is the `draw` parameter.
- The REPL loop, `bufio.Scanner`, printing and `os.Exit` are I/O. `commandExit` and `commandHelp` only print or exit. `commandList` prints in Go's unspecified map order. What a command would print is returned as its result instead.
- `commandExplore` only issues `pokeRequest` on a fixed URL prefix and prints the decoded names. It is not part of this model.
- `GoStrings.ToLower`: lowers only the ASCII capitals, KELVIN SIGN and U+0130, the only letters that Go's `strings.ToLower` maps into ASCII. Go also maps the other Unicode upper-case letters, always to non-ASCII letters. So the model picks the same command as Go for every first word. A non-ASCII second word can lower-case differently, and that changes the argument and the URL built from it.
- `GoStrings.TrimSpace`: strings are sequences of Unicode scalar values, so Go's handling of invalid UTF-8 bytes is not modelled.
