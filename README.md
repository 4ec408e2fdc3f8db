# valorant-tracker: the match and rank logic, modelled in Dafny

The tracker is a command-line client for a Valorant statistics web API. This
project models the deterministic part of it, `valorant-tracker.py`, with the
HTTP transport and the sleeps abstracted:

- **Scores** (`scores.dfy`): `rounds_information` (the winning side, or a
  draw, and both scores) and `convert_seconds` (`divmod(seconds, 60)`, with
  Python's floor semantics).
- **Parties** (`parties.dfy`): `get_party_players` (the players carrying one
  `party_id`, in list order) and the loop of `get_last_match` over
  `all_players` with its `processed_parties` set. The loop is the method
  `GroupParties`; what it reports is specified declaratively by `Reports`:
  a player without a `party_id` key yields nothing, a player whose id
  nobody else carries yields a "no party" report, and a shared id yields one
  party report at its first member.
- **RankRetry** (`rank_retry.dfy`): `last_match`, the loop of at most three
  requests. `responses[k]` is what the k-th request yields (an exception, or
  the response's `data` list); each `time.sleep(5)` is recorded as an entry
  of `sleeps`. The spec functions `ScanStep` and `AttemptStep` say what one
  attempt decides: return a value now, or sleep and retry.
- **MatchReport** (`match_report.dfy`): the flow of `get_last_match`, which
  summarises the first match of the response or reports that there is none.
- **Records** (`records.dfy`): the JSON records. A JSON member is a
  `Field`: key missing, `null`, or a value, because the code tells these
  apart (`'party_id' in player`, `player["puuid"]` raising `KeyError`,
  `player.get("currenttier_patched", ...)` returning `None` for `null`).

The model follows the code, including where it may surprise a reader:

- players without a `party_id` key are not reported at all, not even as "no party";
- the member list of a party includes the anchor player itself, first;
- the id of a one-member party is never added to `processed_parties`;
- `last_match` sleeps after every failed attempt, the third included, so a
  lookup that fails three times sleeps three times;
- a player without a `puuid` key raises `KeyError` inside the `try`, so that
  attempt is retried like a failed request;
- a `null` tier makes `last_match` return `None`, the same value as after
  exhausted retries;
- the requested puuid is `None` when `get_puiids` failed, and `None == None`
  holds in Python, so the scan then picks the first player whose puuid is
  `null`: the requested puuid is an `Option<string>` in the model.

## Model

| member | source | states |
|---|---|---|
| `Scores.RoundsInformation` | valorant-tracker.py:173-191 | the winner is DRAW iff the scores are equal, RED iff red won more rounds, BLUE iff blue won more; both scores are returned unchanged |
| `Scores.RoundsInformationSymmetric` | valorant-tracker.py:177-182 | exchanging the teams' rounds exchanges the winner (a draw stays a draw) and the two scores |
| `Scores.ConvertSeconds` | valorant-tracker.py:203-205 | minutes * 60 + seconds is the game length and 0 <= seconds < 60 (floor division, also for negative lengths) |
| `Scores.ConvertSecondsUnique` | valorant-tracker.py:203-205 | any split m * 60 + s of the length with 0 <= s < 60 is the one returned |
| `Scores.ConvertSecondsExamples` | valorant-tracker.py:203-205 | 125 seconds is 2 minutes 5 seconds; -1 second is -1 minutes 59 seconds |
| `Parties.PartyPlayers` | valorant-tracker.py:199-201 | `get_party_players`: the result is no longer than the list; which players it keeps, their order and their counts are stated by `Parties.PartyPlayersMembers`, `Parties.PartyPlayersIsSubsequence` and `Parties.PartyPlayersCount` |
| `Parties.PartyPlayersMembers` | valorant-tracker.py:199-201 | a player is in the result of `get_party_players` iff it is in the list and has a `party_id` equal to the given one; the result is no longer than the list |
| `Parties.PartyPlayersIsSubsequence` | valorant-tracker.py:199-201 | the result keeps the players in list order |
| `Parties.PartyPlayersCount` | valorant-tracker.py:199-201 | each player with the id occurs in the result as often as in the list, every other player zero times |
| `Parties.PartyPlayersAppend` | valorant-tracker.py:199-201 | filtering a concatenation concatenates the filtered parts |
| `Parties.FirstMemberHeadsParty` | valorant-tracker.py:105-111 | the first player carrying an id is the first entry of that party's member list, so the list includes the anchor |
| `Parties.TwoMembers` | valorant-tracker.py:199-201 | a member list of two or more comes from two distinct positions of the list carrying the id |
| `Parties.SharedMakesTwo` | valorant-tracker.py:199-201 | two positions carrying the same id give a member list of at least two |
| `Parties.InSharedIds` | valorant-tracker.py:104-117 | after n players the processed set holds an id iff two or more players carry it and one of the first n does |
| `Parties.SharedIdsGrow` | valorant-tracker.py:100-117 | the processed set only grows as the loop advances |
| `Parties.SharedIdsExactly` | valorant-tracker.py:104-117 | at the end the processed set holds exactly the ids carried by two or more players; one-member ids are never added |
| `Parties.NoSharedIdsIff` | valorant-tracker.py:119-121 | the processed set ends empty iff no two players carry the same `party_id` |
| `Parties.ReportAtCount` | valorant-tracker.py:104-114 | a player yields a party report for a shared id iff it is that id's first carrier; later carriers are skipped because the id is already processed |
| `Parties.PartyReportCountUpTo` | valorant-tracker.py:100-114 | when each player gives a party report for an id iff it is the player at index f, the reports for the first n players hold none before f and exactly one after |
| `Parties.PartyReportedOnce` | valorant-tracker.py:100-114 | every id carried by two or more players has exactly one party report, and it is anchored at the id's first carrier with all members in list order, anchor first |
| `Parties.ReportsPrefix` | valorant-tracker.py:100-117 | reports are only ever appended |
| `Parties.SingletonReported` | valorant-tracker.py:115-117 | a player whose id nobody else carries is reported with "no party" |
| `Parties.ReportsWellFormed` | valorant-tracker.py:104-117 | every report names a player of the list that has a `party_id`; a party report carries two or more members headed by the anchor, a "no party" report a player alone with its id |
| `Parties.MissingPartyIdNotReported` | valorant-tracker.py:104-117 | in any list, a player without a `party_id` key anchors no report and is a member of no party report |
| `Parties.NoPartyIdsNoReports` | valorant-tracker.py:104 | a list in which no player has a `party_id` key produces no report at all |
| `Parties.GroupingExample` | valorant-tracker.py:100-117 | players A, B in party p1 and C in p2 give the party (A, [A, B]) and then "no party" for C |
| `Parties.GroupParties` | valorant-tracker.py:100-121 | the loop emits exactly `Reports` of the list; its processed set holds exactly the ids carried by two or more players; the "no unique party IDs" flag is set iff no id is shared |
| `RankRetry.TierOf` | valorant-tracker.py:143 | `player.get("currenttier_patched", "Rank not available")`: "Rank not available" when the key is absent, the tier when present, and `None` exactly when the tier is `null` |
| `RankRetry.ScanFindsFirstMatch` | valorant-tracker.py:141-143 | when no player before it lacks the `puuid` key, the first player whose puuid matches (equal to the requested string, or `null` when the requested puuid is `None`) decides the attempt with its tier, "Rank not available" when the tier key is absent |
| `RankRetry.ScanNotFound` | valorant-tracker.py:141-149 | a match in which every player has a `puuid` key that does not match ends the lookup with "Player not found in the match data." and no retry |
| `RankRetry.ScanMissingKey` | valorant-tracker.py:141-157 | a player without a puuid key, reached before any match, makes the attempt fail and be retried |
| `RankRetry.RetryIff` | valorant-tracker.py:136-157 | a listed match leads to a retry iff the scan reaches a player without a puuid key before finding the requested one |
| `RankRetry.LastMatch` | valorant-tracker.py:126-160 | at most three attempts; every attempt before the last was retried; the first attempt that decides gives the result; after three retried attempts the result is `None`; one five-second sleep follows each retried attempt, the third included, and none follows the deciding one |
| `MatchReport.Summarize` | valorant-tracker.py:74-81 | match id, server, map and rounds played are the metadata members verbatim; the mode is the raw `mode_id`; the length is split into minutes and seconds with 0 <= seconds < 60; the winner is DRAW, RED or BLUE as the rounds won compare, with both scores unchanged |
| `MatchReport.GetLastMatch` | valorant-tracker.py:68-124 | no match data iff the `data` list is empty; otherwise the summary of the first match (metadata verbatim, length split as by `divmod`, winner and scores) and exactly the party reports and no-party flag of its players |

## Left out

- The HTTP calls (`requests.get`, `raise_for_status`, `.json()`): the transport is the parameter `responses` of `RankRetry.LastMatch` and `data` of `MatchReport.GetLastMatch`; `LastMatch` requires one response for each of the three requests it may make.
- `time.sleep`: recorded as an entry of `sleeps`, not waited out.
- All console output: the printed lines, `show_party_info`, the log messages of `last_match`, and the text `convert_seconds` builds from the minutes and seconds.
- `get_user_data`, `get_puiids`, `get_player_region` and `general_player_information`: thin wrappers around one request and printing.
- `get_current_rank`: calls `get_puiids`, `get_player_region` and `last_match`, then prints the rank, or a no-rank message when the result is falsy (so a `null` tier and exhausted retries print the same line); only the `last_match` part is modelled, as `RankRetry.LastMatch`.
- `get_player_level`: a single field read (`data["data"]["account_level"]`) whose value is only printed.
- `region_info`: a constant table of region names used only for printing.
- `print_menu`, `get_player_input`, `get_last_match_input` and `main`: the interactive menu and `input`.
- MatchReport.Summarize: the mode is the raw `mode_id`; the `str.capitalize` of valorant-tracker.py:78 is not modelled, because Python's Unicode case mapping has no counterpart here. `MatchReport.GetLastMatch` inherits this.
- MatchReport.Summarize: the `KeyError` that valorant-tracker.py:75-80 raise for a missing metadata member, and the one `rounds_information` (valorant-tracker.py:174-175) raises through line 81 for a missing `teams` entry, are not modelled; a match record always has these members.
- MatchReport.GetLastMatch: the exceptions `get_last_match` does not catch are not modelled: a failed request, a body that is not JSON, a match without `metadata`, `teams` or `players`, and a `KeyError` for any metadata member the summary reads (`matchid`, `cluster`, `map`, `mode_id`, `game_length`, `rounds_played`). A match record always has all of these, so the model always produces the full report where the code would stop partway.
- Parties.GroupParties: every player member that `show_party_info` reads for a reported player (`name`, `tag`, `character` and `stats` with `kills`, `deaths`, `assists`) is assumed present. The `KeyError` that would end the report at the first player missing one of them is not modelled.
- Scores and game lengths are integers; the comparisons of other JSON types Python would allow are not modelled.
