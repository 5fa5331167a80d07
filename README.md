# Bulk owner and credential update for Oracle data sources

This project models `update_site_data_sources_all.py`, an administration
script for Tableau Server. It signs in, fetches the site's users and data
sources, and looks up the new owner's user id. It then walks the data-source
list. For every source whose type is "oracle" (in any letter case) it sets a
new owner ("both" mode) and rewrites the first connection's username and
password, with the password embedded. Each change is committed through the
server's update calls, and the script reports how many sources it changed.

Module layout:

- `Results`: `Option` and `Result`.
- `Text`: the Python string operations the script relies on:
  - `str.isspace`, as the set of characters it accepts;
  - ASCII `lower`, specified character by character;
  - `strip`, with a soundness lemma for each of its two trims;
  - `split(" ")`, with `Join` as its inverse and both round trips proved.
- `UserId`: extracting the user id from a user's printed form.
  - The regular expression `<User\s[a-zA-Z0-9-]*\s` becomes a scanner.
  - `findall` is modelled with its leftmost-match rule.
  - Then come `strip`, `split(" ")` and element `[1]`.
  - The failure paths are the `IndexError`s: no match at all, whitespace
    other than a space after `<User`, or an empty id.
- `Owners`: the filter of site users by name, and the three-way branch on
  how many matched.
- `DataSources`: the records involved.
  - The functions that specify one loop pass:
    - `Rewire`: what happens to one source;
    - `Calls`: the remote calls issued;
    - `OracleCount`: the counter;
    - `Reach`: how far the loop gets before it meets a source without
      connections.
  - The lemmas about these functions.
- `Updater`: the two update loops.
  - Each loop is a method over an `array<DataSource>`.
  - `Server` is a class whose call log records each `update` /
    `update_connection` request.
  - Each loop is proved to leave the array equal to `After`, extend the log
    by `Log`, and return `Outcome`.
- `Script`: the run from the owner lookup to the report.
  - `Run` is the script as written.
  - `RunIntended` is the corrected run (see Findings).

Where the script's stated intent and its code disagree, the model follows the
code.

- The `--function` help at line 29 offers to change "just CONNection
  credentials". The banner at lines 147-149 and the loop at lines 150-171 do
  exactly that. The code never gets there: `new_owner` is only assigned in
  "both" mode (line 41), and the owner lookup at line 91 runs in both modes.
  - `Script.Run` models the code as written.
  - `Script.RunIntended` models the "conn" behaviour of lines 29 and 147-171.
- The comments at lines 127 and 157 say sources that "already belong to new
  owner" are skipped. The code never compares owners, and neither does the
  model.

## Model

| member | source | states |
|---|---|---|
| Text.IsSpace | update_site_data_sources_all.py:99 | The whitespace class: exactly the characters Python's `str.isspace` accepts, which are also what `\s` matches and what `strip()` removes (line 105). |
| Text.IsIdChar | update_site_data_sources_all.py:99 | The character class `[a-zA-Z0-9-]`. |
| Text.Lower | update_site_data_sources_all.py:128 | The lowered string has the same length, and each character is the original's lowered. |
| Text.TrimLeft | update_site_data_sources_all.py:105 | The left half of `strip()` is never longer than its input. What it removes is stated by `Text.TrimLeftSound`. |
| Text.TrimRight | update_site_data_sources_all.py:105 | The right half of `strip()` is never longer than its input. What it removes is stated by `Text.TrimRightSound`. |
| Text.Strip | update_site_data_sources_all.py:105 | `strip()` is the right trim of the left trim. By the two soundness lemmas it removes exactly the leading and the trailing whitespace. |
| Text.TrimLeftSound | update_site_data_sources_all.py:105 | The left trim is a suffix of the input. Everything removed is whitespace, and the result does not begin with whitespace. |
| Text.TrimRightSound | update_site_data_sources_all.py:105 | The right trim is a prefix of the input. Everything removed is whitespace, and the result does not end with whitespace. |
| Text.Split | update_site_data_sources_all.py:106 | `split` always yields at least one piece. |
| Text.SplitSound | update_site_data_sources_all.py:106 | No piece contains the separator, and joining the pieces with it gives back the input. |
| Text.SplitJoin | update_site_data_sources_all.py:106 | Splitting the join of separator-free pieces gives back those pieces. |
| Text.SplitFirstPiece | update_site_data_sources_all.py:106 | A separator-free head followed by the separator splits off as the first piece. |
| Text.SplitWithoutSep | update_site_data_sources_all.py:106 | A string without the separator splits into itself alone. |
| Text.IdCharIsNotSpace | update_site_data_sources_all.py:99 | No character of `[a-zA-Z0-9-]` matches `\s`. |
| UserId.InPattern | update_site_data_sources_all.py:99 | The language of `<User\s[a-zA-Z0-9-]*\s`: `<User`, one whitespace character, a run of id characters, one whitespace character. The scanner is proved against it by `UserId.MatchAtIsPattern`. |
| UserId.IdRunEnd | update_site_data_sources_all.py:99 | The greedy run of id characters from a position ends at the first non-id character, or at the end of the string. |
| UserId.MatchAt | update_site_data_sources_all.py:99 | A match at a position is at least seven characters long and ends inside the string. |
| UserId.MatchAtSound | update_site_data_sources_all.py:99 | Every match the scanner reports is a word of the pattern. |
| UserId.MatchAtComplete | update_site_data_sources_all.py:99 | Every word of the pattern at a position is the match the scanner reports there. |
| UserId.MatchAtIsPattern | update_site_data_sources_all.py:99 | The scanner matches exactly `s[p..e]` if and only if that slice is in the pattern's language. |
| UserId.FindAll | update_site_data_sources_all.py:102 | `findall` from a position: the non-overlapping matches, left to right. Its meaning is stated by `UserId.FindAllWords`, `UserId.FindAllEmpty` and `UserId.FindAllFirst`. |
| UserId.FindAllWords | update_site_data_sources_all.py:102 | Every element `findall` returns is a word of the pattern. |
| UserId.FindAllEmpty | update_site_data_sources_all.py:102 | `findall` returns nothing if and only if the pattern matches at no position. |
| UserId.FindAllFirst | update_site_data_sources_all.py:102 | Element `[0]` of `findall` is the match at the leftmost matching position. |
| UserId.LeftmostMatch | update_site_data_sources_all.py:102 | If the pattern matches somewhere, there is a leftmost matching position. |
| UserId.StripMatch | update_site_data_sources_all.py:105 | Stripping a match removes its final whitespace character. With an empty id it removes both separators and leaves `<User`. |
| UserId.MatchTokens | update_site_data_sources_all.py:105-106 | Splitting a stripped match on " " gives `[Tag]` when the id is empty. It gives `[Tag, id]` when the first separator is a space, and a single piece when it is other whitespace. |
| UserId.IdFromPatternWord | update_site_data_sources_all.py:105-106 | For one word of the pattern, `strip().split(" ")[1]` gives the id when a plain space follows `<User` and the id is non-empty, and an index error otherwise. |
| UserId.ExtractIsFirstWord | update_site_data_sources_all.py:102 | Extraction reads only the leftmost match. |
| UserId.ExtractFromFirstMatch | update_site_data_sources_all.py:99-106 | The leftmost match decides the result. It is the id between the separators when the first is a space and the id is non-empty, and an index error otherwise. |
| UserId.ExtractUserId | update_site_data_sources_all.py:102-106 | The no-match error occurs if and only if `findall` returns nothing. Every other failure is the missing second token of `split(" ")`. |
| UserId.IdFromMatch | update_site_data_sources_all.py:105-106 | Reading element `[1]` of the stripped, split match can fail only because there is no second token. |
| UserId.ExtractWithoutMatch | update_site_data_sources_all.py:102 | With no match, taking `[0]` is an index error. |
| UserId.ExtractedIdShape | update_site_data_sources_all.py:99-106 | An extracted id is non-empty and made only of `[a-zA-Z0-9-]`. |
| UserId.ExtractFromUserString | update_site_data_sources_all.py:99-106 | For a printed user that starts `<User <id> ` with a well-formed id, that id is extracted. |
| UserId.UserStringPattern | update_site_data_sources_all.py:99 | `<User <id> ` is in the pattern's language for every well-formed id. |
| Owners.Matching | update_site_data_sources_all.py:91 | The filter keeps exactly the users with the given name, and no more than there were. |
| Owners.MatchingCount | update_site_data_sources_all.py:91-97 | The length of the filtered list is the number of users with that name. |
| Owners.NameCountFront | update_site_data_sources_all.py:91 | The count splits as the first user plus the rest. |
| Owners.NameCountZero | update_site_data_sources_all.py:94 | The count is zero if and only if no user carries the name. |
| Owners.NameCountOne | update_site_data_sources_all.py:97 | The count is one if and only if user `i` is the only one with the name. |
| Owners.NameCountPositive | update_site_data_sources_all.py:97 | A user with the name makes the count positive. |
| Owners.ResolveOwner | update_site_data_sources_all.py:91-112 | The lookup reports "does not exist" if and only if no user has the name, and "multiple users" if and only if two or more do. It succeeds only when exactly one does. |
| Owners.ResolveOwnerNotFound | update_site_data_sources_all.py:91-96 | The lookup reports "does not exist" if and only if no site user has the name. |
| Owners.ResolveOwnerAmbiguous | update_site_data_sources_all.py:110-112 | The lookup reports "multiple users" if and only if two distinct users have the name. |
| Owners.ResolveOwnerUnique | update_site_data_sources_all.py:97-106 | With exactly one user of that name, the result is the id extraction on that user's printed form. |
| Owners.ResolveOwnerFound | update_site_data_sources_all.py:91-112 | A resolved id comes from the unique user with that name. |
| DataSources.IsOracle | update_site_data_sources_all.py:128 | The type test `datasource_type.lower() == "oracle"`. Its meaning letter by letter is stated by `DataSources.IsOracleCaseInsensitive`. |
| DataSources.IsOracleCaseInsensitive | update_site_data_sources_all.py:128 | A source counts as Oracle if and only if its type has six letters, each being the letter of "oracle" in either case. |
| DataSources.WithOwner | update_site_data_sources_all.py:130 | `ds.owner_id = new_owner_id` when an owner id is given, and the source unchanged otherwise. |
| DataSources.Recredential | update_site_data_sources_all.py:134-136 | The connection with the new username and password and `embed_password` set, and its other fields unchanged. |
| DataSources.Rewire | update_site_data_sources_all.py:128-139 | What one pass does to one source. Its effect field by field is stated by `DataSources.RewireFields`. |
| DataSources.RewireFields | update_site_data_sources_all.py:128-139 | A non-Oracle source is untouched. An Oracle source gets the new owner in "both" mode and keeps its name and type. Its first connection gets the new username and password with the password embedded, its server address is unchanged, and the other connections are unchanged. |
| DataSources.Reach | update_site_data_sources_all.py:125 | Every source before the stopping point has a connection, and the source at the stopping point has none. |
| DataSources.ReachAt | update_site_data_sources_all.py:125 | The loop stops exactly at the first source without connections, or at the end of the list. |
| DataSources.ReachBeyond | update_site_data_sources_all.py:125 | A source with a connection is passed when all the sources before it have connections. |
| DataSources.StepCalls | update_site_data_sources_all.py:131-139 | The calls one pass issues for one source. The count is stated by `DataSources.CallsCount`, and the content and order by `DataSources.CallsInListOrder` and `DataSources.CallsCoverOracles`. |
| DataSources.Calls | update_site_data_sources_all.py:124-139 | The calls of the first `k` passes, in order. Its properties are stated by `DataSources.CallsCount`, `DataSources.CallsInListOrder` and `DataSources.CallsCoverOracles`. |
| DataSources.OracleCount | update_site_data_sources_all.py:142 | The counter `i` after `k` passes. Its bounds are stated by `DataSources.OracleCountBounds`. |
| DataSources.Outcome | update_site_data_sources_all.py:125-143 | The loop's result: the Oracle count when every source has a connection, otherwise the index of the first source without one. `DataSources.OutcomeWhenConnected` states the first case. |
| DataSources.RewiredUpTo | update_site_data_sources_all.py:124-139 | The list after `k` passes keeps its length. Its contents are stated by `DataSources.RewiredUpToAt`. |
| DataSources.After | update_site_data_sources_all.py:124-139 | The list as the loop leaves it. Its contents are stated by `DataSources.AfterEffect`. |
| DataSources.Log | update_site_data_sources_all.py:124-139 | The calls the whole loop issues, up to the point where it stops. |
| DataSources.OracleCountBounds | update_site_data_sources_all.py:141-143 | The count is at most the number of sources visited. It equals that number if and only if all were Oracle, and is zero if and only if none was. |
| DataSources.CallsCount | update_site_data_sources_all.py:131-139 | Two calls are issued per Oracle source in "both" mode, and one per Oracle source in "conn" mode. |
| DataSources.CallsInListOrder | update_site_data_sources_all.py:124-139 | Every call is about a visited Oracle source, and calls are issued in list order. |
| DataSources.CallsCoverOracles | update_site_data_sources_all.py:128-139 | Every visited Oracle source gets an `update_connection` call with its rewritten connection. In "both" mode that call comes directly after its owner `update`. |
| DataSources.RewiredUpToAt | update_site_data_sources_all.py:124-139 | After `k` steps, sources before `k` are rewired and the rest are untouched. |
| DataSources.AfterEffect | update_site_data_sources_all.py:124-139 | The list keeps its length. Visited sources are rewired, while non-Oracle and unvisited sources stay as they were. |
| DataSources.LoopStep | update_site_data_sources_all.py:124-142 | One pass over source `k` rewires it, appends its calls and counts it if it is Oracle. |
| DataSources.OutcomeWhenConnected | update_site_data_sources_all.py:143 | If every source has a connection, the loop reports the number of Oracle sources. |
| Updater.Server.constructor | update_site_data_sources_all.py:57 | A new server has issued no calls. |
| Updater.Server.Update | update_site_data_sources_all.py:131 | `datasources.update` appends exactly one owner update to the call log. |
| Updater.Server.UpdateConnection | update_site_data_sources_all.py:139 | `datasources.update_connection` appends exactly one connection update to the call log. |
| Updater.UpdateOwnersAndConnections | update_site_data_sources_all.py:122-145 | The "both" loop leaves the list as `After`, issues the calls `Log` and reports `Outcome`. `Outcome` is the Oracle count, or the index of the first source without connections. |
| Updater.UpdateConnectionsOnly | update_site_data_sources_all.py:152-171 | The "conn" loop does the same with no owner change and no owner `update` call. |
| Script.ConnModeNeverUpdates | update_site_data_sources_all.py:91-96 | As written, a "conn" run always stops at the owner lookup, with a name error whenever the site has users. |
| Script.ConnModeCounterexample | update_site_data_sources_all.py:91-106 | For the site user `ana` printed `<User 42 name=ana>`, a "conn" run stops with a name error. The corrected lookup lets it continue, and a "both" lookup of `ana` resolves to "42". |
| Script.AnaResolves | update_site_data_sources_all.py:91-106 | A site with only the user `ana`, printed `<User 42 name=ana>`, resolves `ana` to "42". |
| Script.OwnerStage | update_site_data_sources_all.py:91-112 | The lookup lets a run continue if and only if the mode is "both" and the name resolves, and then with the resolved id. |
| Script.Report | update_site_data_sources_all.py:125-143 | A finished loop is reported as the changed count and the total. A source without connections is reported by its index. |
| Script.Run | update_site_data_sources_all.py:91-145 | A failed lookup changes nothing and issues no call. Otherwise the run is in "both" mode and the "both" loop runs with the resolved id, and its outcome is reported with the total. |
| Script.IntendedOwnerStage | update_site_data_sources_all.py:38-44 | Only "both" mode looks up an owner, with the same result as written. "conn" mode never fails here. |
| Script.RunIntended | update_site_data_sources_all.py:114-171 | The corrected run: "conn" mode runs the credential-only loop with no owner, and "both" mode is as written. |
| Script.SourceKinds | update_site_data_sources_all.py:128 | "oracle" passes the type test and "sqlserver" does not. |
| Script.TwoOfThree | update_site_data_sources_all.py:122-143 | Three connected sources of kinds Oracle, other, Oracle are all visited, and two are counted. |
| Script.ThreeSourcesTwoChanged | update_site_data_sources_all.py:122-169 | Sources typed oracle, sqlserver, oracle: two are changed by either loop, with or without a new owner. That takes four calls in the "both" loop and two in the "conn" loop. |

## Left out

- Command-line parsing and the interactive prompts: the mode, login and
  credentials are parameters of `Script.Run`.
- Sign-in, sign-out and the final `sys.exit(1)`: I/O against the server, with
  no model-relevant state.
- The user and data-source fetches, and their `populate_*` calls: the fetched
  lists are inputs.
  - `total_available` is an opaque number carried into the report.
  - Pagination is not modelled: only the first page is used, as in the script.
- Progress messages: only which message is reached is modelled (`Abort`,
  `RunResult`), not its wording.
- The `try`/`except: raise` blocks: they only re-raise, so an exception is an
  abort.
  - Server-side failures of `update` and `update_connection` are not
    modelled; each call is recorded and assumed to succeed.
- Object aliasing:
  - Data sources and connections are values that are replaced in the array.
  - The model assumes that `ds.connections[0]` returns the stored connection
    object, which the in-place edit at lines 134-136 relies on. Under that
    assumption, replacing the connection does what the in-place mutation
    does.
  - The SDK's internal state is not modelled.
- `datasource_type` being `None`, which would raise an `AttributeError`, is not
  modelled: the type is always a string.
- Text.Lower: lowers ASCII letters only, not Python's full Unicode `lower()`.
  The comparison with "oracle" can differ only for the two characters whose
  full lowercase is an ASCII letter: U+0130 (to "i" plus a combining dot) and
  U+212A, the Kelvin sign (to "k"). Neither can make a six-character type equal
  "oracle", which has neither letter, so the test agrees.
- The printed form of a user, `str(user)`, is an input string: the SDK's
  `__repr__` is not part of this model.

## Findings

| source | as written | input that shows it | evidently intended | confidence | as-written member | corrected member |
|---|---|---|---|---|---|---|
| update_site_data_sources_all.py:91 | The owner lookup runs in both modes, but `new_owner` is assigned only in "both" mode (line 41). A "conn" run therefore raises `NameError` at line 91, or exits with "does not exist" when the site has no users. The "conn" loop (lines 150-171) is never reached. | `--function conn` on a site with the user `ana`, printed `<User 42 name=ana>`, gives `Err(OwnerNameUnbound)` | "conn" mode skips the owner lookup and updates only the credentials of Oracle sources | not executed | Script.ConnModeCounterexample | Script.RunIntended |
