/**
 The rank lookup `last_match`: up to three requests for the player's most
 recent match, a five-second sleep after each request that fails or finds no
 match, and the rank tier of the requested player from the first match that
 arrives.

 The transport is a parameter: `responses[k]` is what the k-th request
 yields, and the sleeps are recorded rather than waited out.
 */
module RankRetry {
  import opened Records

  const MAX_ATTEMPTS: nat := 3
  const DELAY_SECONDS: nat := 5
  const RANK_NOT_AVAILABLE := "Rank not available"
  const PLAYER_NOT_FOUND := "Player not found in the match data."

  /**
   What one request yields: an exception (connection failure, an HTTP error
   status from `raise_for_status`, a body that is not JSON), or the parsed
   body's `data` list. A body without `data` is `Fetched([])`, as is an empty
   list; a match without `players.all_players` has `players == []`. A
   `players` or `all_players` that is present but `null` is not modelled:
   reading it raises, the `except` clause catches it and the attempt is
   retried, as for `Failed`.
   */
  datatype Response = Failed | Fetched(data: seq<MatchRecord>)

  /** What one pass of the loop decides: return this value now, or sleep and try again. */
  datatype Step = Return(value: Option<string>) | Retry

  /** `player.get("currenttier_patched", "Rank not available")`. */
  function TierOf(p: Player): (r: Option<string>)
    ensures r == None <==> p.tier.Null?
    ensures p.tier.Missing? ==> r == Some(RANK_NOT_AVAILABLE)
    ensures p.tier.Given? ==> r == Some(p.tier.value)
  {
    match p.tier
    case Missing => Some(RANK_NOT_AVAILABLE)
    case Null => None
    case Given(t) => Some(t)
  }

  /**
   `player["puuid"] == puuid` for a player that has the key. The requested
   puuid is `None` when the account lookup failed, and `None` equals a
   `null` puuid.
   */
  predicate Matches(id: Field<string>, puuid: Option<string>) {
    match id
    case Missing => false
    case Null => puuid.None?
    case Given(v) => puuid == Some(v)
  }

  /**
   The scan of the match's players for the requested puuid. Reading
   `player["puuid"]` of a player without that key raises `KeyError`, which
   the `except` clause handles like a failed request.
   */
  function ScanStep(players: seq<Player>, puuid: Option<string>): Step {
    if players == [] then Return(Some(PLAYER_NOT_FOUND))
    else if players[0].puuid.Missing? then Retry
    else if Matches(players[0].puuid, puuid) then Return(TierOf(players[0]))
    else ScanStep(players[1..], puuid)
  }

  /** The decision of the attempt that receives `response`. */
  function AttemptStep(response: Response, puuid: Option<string>): Step {
    match response
    case Failed => Retry
    case Fetched(data) => if data == [] then Retry else ScanStep(data[0].players, puuid)
  }

  /** The player has a readable puuid that is not the requested one. */
  predicate OtherPlayer(p: Player, puuid: Option<string>) {
    !p.puuid.Missing? && !Matches(p.puuid, puuid)
  }

  /** The first player with the requested puuid decides the attempt: its tier is returned. */
  lemma {:induction false} ScanFindsFirstMatch(players: seq<Player>, puuid: Option<string>, k: nat)
    requires k < |players| && Matches(players[k].puuid, puuid)
    requires forall j :: 0 <= j < k ==> OtherPlayer(players[j], puuid)
    ensures ScanStep(players, puuid) == Return(TierOf(players[k]))
  {
    if k > 0 {
      ScanFindsFirstMatch(players[1..], puuid, k - 1);
    }
  }

  /** A match whose every player has another puuid ends the lookup with "Player not found". */
  lemma {:induction false} ScanNotFound(players: seq<Player>, puuid: Option<string>)
    requires forall j :: 0 <= j < |players| ==> OtherPlayer(players[j], puuid)
    ensures ScanStep(players, puuid) == Return(Some(PLAYER_NOT_FOUND))
  {
    if players != [] {
      ScanNotFound(players[1..], puuid);
    }
  }

  /** A player without a puuid key before any match makes the attempt fail and be retried. */
  lemma {:induction false} ScanMissingKey(players: seq<Player>, puuid: Option<string>, k: nat)
    requires k < |players| && players[k].puuid.Missing?
    requires forall j :: 0 <= j < k ==> OtherPlayer(players[j], puuid)
    ensures ScanStep(players, puuid) == Retry
  {
    if k > 0 {
      ScanMissingKey(players[1..], puuid, k - 1);
    }
  }

  /** The scan ends in a retry exactly when it reaches a player without a puuid key before the requested one. */
  lemma {:induction false} RetryIff(players: seq<Player>, puuid: Option<string>)
    ensures ScanStep(players, puuid) == Retry
            <==> exists k :: 0 <= k < |players| && players[k].puuid.Missing?
                             && forall j :: 0 <= j < k ==> OtherPlayer(players[j], puuid)
  {
    if players != [] {
      RetryIff(players[1..], puuid);
      if ScanStep(players, puuid) == Retry {
        if !players[0].puuid.Missing? {
          var k :| 0 <= k < |players[1..]| && players[1..][k].puuid.Missing?
                   && forall j :: 0 <= j < k ==> OtherPlayer(players[1..][j], puuid);
          assert players[k + 1].puuid.Missing?;
          assert forall j :: 0 <= j < k + 1 ==> OtherPlayer(players[j], puuid) by {
            forall j | 0 < j < k + 1 ensures OtherPlayer(players[j], puuid) {
              assert players[j] == players[1..][j - 1];
            }
          }
        }
      } else {
        if k :| 0 <= k < |players| && players[k].puuid.Missing?
                && forall j :: 0 <= j < k ==> OtherPlayer(players[j], puuid) {
          ScanMissingKey(players, puuid, k);
        }
      }
    }
  }

  /**
   `last_match`: returns the value of the first attempt that decides, having
   slept after every attempt before it; after three retried attempts, each
   followed by a sleep, returns `None`.
   */
  method LastMatch(puuid: Option<string>, responses: seq<Response>) returns (rank: Option<string>, attempts: nat, sleeps: seq<nat>)
    requires |responses| >= MAX_ATTEMPTS
    ensures 1 <= attempts <= MAX_ATTEMPTS
    ensures forall k :: 0 <= k < attempts - 1 ==> AttemptStep(responses[k], puuid) == Retry
    ensures AttemptStep(responses[attempts - 1], puuid) == Retry
            ==> attempts == MAX_ATTEMPTS && rank == None
    ensures AttemptStep(responses[attempts - 1], puuid).Return?
            ==> rank == AttemptStep(responses[attempts - 1], puuid).value
    ensures |sleeps| == if AttemptStep(responses[attempts - 1], puuid) == Retry then attempts else attempts - 1
    ensures forall k :: 0 <= k < |sleeps| ==> sleeps[k] == DELAY_SECONDS
  {
    attempts, sleeps := 0, [];
    while attempts < MAX_ATTEMPTS
      invariant attempts <= MAX_ATTEMPTS
      invariant forall k :: 0 <= k < attempts ==> AttemptStep(responses[k], puuid) == Retry
      invariant |sleeps| == attempts
      invariant forall k :: 0 <= k < |sleeps| ==> sleeps[k] == DELAY_SECONDS
    {
      var response := responses[attempts];
      attempts := attempts + 1;
      if response.Fetched? && response.data != [] {
        var players := response.data[0].players;
        var i := 0;
        while i < |players| && !players[i].puuid.Missing?
          invariant i <= |players|
          invariant ScanStep(players[i..], puuid) == ScanStep(players, puuid)
        {
          if Matches(players[i].puuid, puuid) {
            rank := TierOf(players[i]);
            return;
          }
          assert players[i..][1..] == players[i + 1..];
          i := i + 1;
        }
        if i == |players| {
          rank := Some(PLAYER_NOT_FOUND);
          return;
        }
        // players[i] has no "puuid" key: the KeyError goes to the except clause
      }
      sleeps := sleeps + [DELAY_SECONDS];
    }
    rank := None;
  }

  /** The retry scenarios of the rank lookup, stated with the method's contract alone. */
  method RetryScenarios(me: Player, other: Player, anonymous: Player)
    requires me.puuid == Given("me") && me.tier == Given("Gold 2")
    requires other.puuid == Given("other")
    requires anonymous.puuid == Null && anonymous.tier == Given("Iron 1")
  {
    var meta := Metadata("m1", "London", "Ascent", "competitive", 1800, 24);
    var withMe := Fetched([MatchRecord(meta, 13, 11, [other, me])]);
    var withoutMe := Fetched([MatchRecord(meta, 13, 11, [other])]);
    var withAnonymous := Fetched([MatchRecord(meta, 13, 11, [other, anonymous, me])]);
    var id := Some("me");

    assert ScanStep([other, me], id) == Return(Some("Gold 2")) by {
      ScanFindsFirstMatch([other, me], id, 1);
    }
    assert ScanStep([other], id) == Return(Some(PLAYER_NOT_FOUND)) by {
      ScanNotFound([other], id);
    }
    assert ScanStep([other, anonymous, me], None) == Return(Some("Iron 1")) by {
      ScanFindsFirstMatch([other, anonymous, me], None, 1);
    }
    assert AttemptStep(withMe, id) == Return(Some("Gold 2"));
    assert AttemptStep(withoutMe, id) == Return(Some(PLAYER_NOT_FOUND));
    assert AttemptStep(Fetched([]), id) == Retry && AttemptStep(Failed, id) == Retry;

    // two empty answers, then the match: found on the third attempt after two sleeps
    var rank, attempts, sleeps := LastMatch(id, [Fetched([]), Fetched([]), withMe]);
    assert rank == Some("Gold 2") && attempts == 3 && sleeps == [5, 5];

    // the player is missing from the match: no retry
    var answers := [withoutMe, withMe, withMe];
    assert AttemptStep(answers[0], id).Return?;
    rank, attempts, sleeps := LastMatch(id, answers);
    assert rank == Some(PLAYER_NOT_FOUND) && attempts == 1 && sleeps == [];

    // every request fails: three attempts, a sleep after each of them
    rank, attempts, sleeps := LastMatch(id, [Failed, Failed, Failed]);
    assert rank == None && attempts == 3 && sleeps == [5, 5, 5];

    // the account lookup failed, so the requested puuid is None: a player whose puuid is null matches
    answers := [withAnonymous, Failed, Failed];
    assert AttemptStep(answers[0], None) == Return(Some("Iron 1"));
    rank, attempts, sleeps := LastMatch(None, answers);
    assert rank == Some("Iron 1") && attempts == 1 && sleeps == [];
  }
}
