/** The data model of the Wordle games-session program and the decision rules
    its coordinator relies on: validating the init message, building the empty
    session store, reading a Wordle reply (whose user, was the word guessed,
    what the user is told), classifying a session as waiting for a reply, and
    exporting the session store as a list of pairs. */
module GamesSessionIo {
  import opened Wrappers

  /** An actor address. The runtime's 32-byte id is modelled by a number, and
      the all-zero id by 0. */
  type ActorId = nat

  const ZeroActorId: ActorId := 0

  /** A message id; its default value is the all-zero id, modelled by 0. */
  type MessageId = nat

  const ZeroMessageId: MessageId := 0

  /** An unsigned 8-bit value (`u8`). */
  type Byte = x: int | 0 <= x < 256

  /** Letters in a Wordle word. */
  const WordLength := 5

  // ---------------------------------------------------------------------------
  // Init message and session store

  datatype GamesSessionInit = GamesSessionInit(wordleProgramId: ActorId)

  datatype InitError = InvalidWordleProgramId

  /** The init message is accepted exactly when it names a non-zero Wordle program. */
  function AssertValid(init: GamesSessionInit): (r: Outcome<InitError>)
    ensures r == Pass <==> init.wordleProgramId != ZeroActorId
    ensures r != Pass ==> r == Fail(InvalidWordleProgramId)
  {
    if init.wordleProgramId == ZeroActorId then Fail(InvalidWordleProgramId) else Pass
  }

  datatype GameStatus = Win | Lose

  /** A user's game as the coordinator sees it. */
  datatype SessionStatus =
    | Init
    | WaitUserInput
    | WaitWordleStartReply
    | WaitWordleCheckWordReply
    | ReplyReceived(event: WordleEvent)
    | GameOver(outcome: GameStatus)

  datatype SessionInfo = SessionInfo(
    sessionId: MessageId,
    originalMsgId: MessageId,
    sendToWordleMsgId: MessageId,
    tries: Byte,
    sessionStatus: SessionStatus)

  /** The record a fresh session starts from: all message ids zero, no tries,
      status `Init`; such a session is not waiting for the Wordle program. */
  function DefaultSessionInfo(): (d: SessionInfo)
    ensures d.tries == 0 && d.sessionStatus == Init
    ensures d.sessionId == d.originalMsgId == d.sendToWordleMsgId == ZeroMessageId
    ensures !IsWaitReplyStatus(d)
  {
    SessionInfo(ZeroMessageId, ZeroMessageId, ZeroMessageId, 0, Init)
  }

  /** A session waits for the Wordle program exactly in the two `Wait...Reply`
      states; in every other state it is not waiting. */
  function IsWaitReplyStatus(info: SessionInfo): (r: bool)
    ensures r <==> info.sessionStatus.WaitWordleCheckWordReply? || info.sessionStatus.WaitWordleStartReply?
    ensures info.sessionStatus.Init? || info.sessionStatus.WaitUserInput? ==> !r
    ensures info.sessionStatus.ReplyReceived? || info.sessionStatus.GameOver? ==> !r
  {
    match info.sessionStatus
    case WaitWordleCheckWordReply => true
    case WaitWordleStartReply => true
    case _ => false
  }

  /** The coordinator's whole state: the Wordle program it talks to and one
      session per user. */
  datatype GamesSession = GamesSession(wordleProgramId: ActorId, sessions: map<ActorId, SessionInfo>)

  function DefaultGamesSession(): GamesSession
  {
    GamesSession(ZeroActorId, map[])
  }

  /** The coordinator built from its init message: the given Wordle program and
      no sessions yet. */
  function FromInit(init: GamesSessionInit): (s: GamesSession)
    ensures s.wordleProgramId == init.wordleProgramId
    ensures s.sessions == map[]
  {
    DefaultGamesSession().(wordleProgramId := init.wordleProgramId)
  }

  /** A coordinator built from an accepted init message talks to a real
      (non-zero) Wordle program, holds no session, and exports an empty list. */
  lemma ValidInitGivesEmptyStore(init: GamesSessionInit)
    requires AssertValid(init) == Pass
    ensures FromInit(init).wordleProgramId != ZeroActorId
    ensures |FromInit(init).sessions| == 0
    ensures ToState(FromInit(init)) == GamesSessionState(init.wordleProgramId, [])
  {
  }

  // ---------------------------------------------------------------------------
  // Replies of the Wordle program and what the user is told

  datatype WordleEvent =
    | GameStarted(user: ActorId)
    | WordChecked(user: ActorId, correctPositions: seq<Byte>, containedInWord: seq<Byte>)

  /** The user a Wordle reply is about, whichever kind of reply it is. */
  function GetUser(e: WordleEvent): (u: ActorId)
    ensures e.GameStarted? ==> e == GameStarted(u)
    ensures e.WordChecked? ==> e == WordChecked(u, e.correctPositions, e.containedInWord)
  {
    match e
    case GameStarted(user) => user
    case WordChecked(user, _, _) => user
  }

  /** A checked word was guessed exactly when every letter position, in order
      from 0 to 4 and no other, is reported as an exact match. The letters
      found elsewhere in the word play no part. Undefined for `GameStarted`. */
  function HasGuessed(e: WordleEvent): (r: bool)
    requires e.WordChecked?
    ensures r <==> |e.correctPositions| == WordLength
                   && forall i :: 0 <= i < |e.correctPositions| ==> e.correctPositions[i] == i
  {
    e.correctPositions == [0, 1, 2, 3, 4]
  }

  /** The reply expected for the guess "house" (exact matches at 0, 1, 3 and 4,
      nothing contained) is no win and reaches the user unchanged; all five
      positions win; a list with all five positions out of order, or with one
      repeated, is no win. */
  lemma HasGuessedExamples(u: ActorId)
    ensures !HasGuessed(WordChecked(u, [0, 1, 3, 4], []))
    ensures ResponseFromEvent(WordChecked(u, [0, 1, 3, 4], [])) == CheckWordResult([0, 1, 3, 4], [])
    ensures HasGuessed(WordChecked(u, [0, 1, 2, 3, 4], []))
    ensures HasGuessed(WordChecked(u, [0, 1, 2, 3, 4], [0, 2]))
    ensures !HasGuessed(WordChecked(u, [4, 3, 2, 1, 0], []))
    ensures !HasGuessed(WordChecked(u, [0, 1, 2, 3, 4, 4], []))
  {
  }

  datatype GamesSessionResponse =
    | StartSuccess
    | CheckWordResult(correctPositions: seq<Byte>, containedInWord: seq<Byte>)
    | GameOver(status: GameStatus)

  /** What the user is told about a Wordle reply: a started game becomes
      `StartSuccess`, a checked word its two position lists unchanged. */
  function ResponseFromEvent(e: WordleEvent): (r: GamesSessionResponse)
    ensures e.GameStarted? <==> r == StartSuccess
    ensures e.WordChecked? <==> r.CheckWordResult?
    ensures e.WordChecked? ==> (r.correctPositions == e.correctPositions
                               && r.containedInWord == e.containedInWord)
    ensures !r.GameOver?
  {
    match e
    case GameStarted(_) => StartSuccess
    case WordChecked(_, correctPositions, containedInWord) =>
      CheckWordResult(correctPositions, containedInWord)
  }

  /** Rebuilds a Wordle reply about `user` from a response; a `GameOver`
      response comes from no reply. */
  function EventFromResponse(r: GamesSessionResponse, user: ActorId): Option<WordleEvent>
  {
    match r
    case StartSuccess => Some(GameStarted(user))
    case CheckWordResult(cp, cw) => Some(WordChecked(user, cp, cw))
    case GameOver(_) => None
  }

  /** The response drops the user and nothing else: with the user put back, the
      reply is recovered. */
  lemma ResponseKeepsAllButUser(e: WordleEvent)
    ensures EventFromResponse(ResponseFromEvent(e), GetUser(e)) == Some(e)
  {
  }

  /** Two replies give the same response exactly when they differ at most in
      their user. */
  lemma ResponseIgnoresOnlyUser(e1: WordleEvent, e2: WordleEvent)
    ensures ResponseFromEvent(e1) == ResponseFromEvent(e2) <==> e1.(user := e2.user) == e2
  {
  }

  // ---------------------------------------------------------------------------
  // Exported state

  datatype GamesSessionState = GamesSessionState(
    wordleProgramId: ActorId,
    gameSessions: seq<(ActorId, SessionInfo)>)

  /** `pairs` lists the entries of `m`: every pair is an entry of `m`, every
      entry of `m` is listed, and no user is listed twice. The order is free. */
  ghost predicate ListsMap(pairs: seq<(ActorId, SessionInfo)>, m: map<ActorId, SessionInfo>)
  {
    && (forall i :: 0 <= i < |pairs| ==> pairs[i].0 in m && m[pairs[i].0] == pairs[i].1)
    && (forall k :: k in m ==> (k, m[k]) in pairs)
    && (forall i, j :: 0 <= i < j < |pairs| ==> pairs[i].0 != pairs[j].0)
  }

  /** The entries of `m` in the order a hash-map iteration visits them; that
      order is not specified, so the next entry is any key still left. */
  ghost function Entries(m: map<ActorId, SessionInfo>): (pairs: seq<(ActorId, SessionInfo)>)
    ensures ListsMap(pairs, m)
    ensures |pairs| == |m|
    decreases |m|
  {
    if m == map[] then []
    else
      var k :| k in m;
      var tail := Entries(m - {k});
      ListsCons(tail, m, k);
      [(k, m[k])] + tail
  }

  /** Putting an entry in front of a listing of the rest of the map gives a
      listing of the whole map, one pair longer. */
  lemma ListsCons(tail: seq<(ActorId, SessionInfo)>, m: map<ActorId, SessionInfo>, k: ActorId)
    requires k in m && ListsMap(tail, m - {k}) && |tail| == |m - {k}|
    ensures ListsMap([(k, m[k])] + tail, m)
    ensures |[(k, m[k])] + tail| == |m|
  {
    var rest := m - {k};
    var pairs := [(k, m[k])] + tail;
    assert rest.Keys == m.Keys - {k};
    forall i | 0 <= i < |pairs|
      ensures pairs[i].0 in m && m[pairs[i].0] == pairs[i].1
    {
      if i > 0 { assert pairs[i] == tail[i - 1]; }
    }
    forall k' | k' in m
      ensures (k', m[k']) in pairs
    {
      if k' != k { assert (k', rest[k']) in tail; }
    }
    forall i, j | 0 <= i < j < |pairs|
      ensures pairs[i].0 != pairs[j].0
    {
      assert pairs[j] == tail[j - 1];
      if i > 0 { assert pairs[i] == tail[i - 1]; }
    }
  }

  /** The exported state: the same Wordle program and one pair per session. */
  ghost function ToState(s: GamesSession): (st: GamesSessionState)
    ensures st.wordleProgramId == s.wordleProgramId
    ensures ListsMap(st.gameSessions, s.sessions)
    ensures |st.gameSessions| == |s.sessions|
  {
    GamesSessionState(s.wordleProgramId, Entries(s.sessions))
  }

  /** Dropping the first pair of a listing of `m` leaves a listing of `m`
      without that user. */
  lemma ListsRest(pairs: seq<(ActorId, SessionInfo)>, m: map<ActorId, SessionInfo>)
    requires ListsMap(pairs, m) && pairs != []
    ensures pairs[0].0 in m && m[pairs[0].0] == pairs[0].1
    ensures ListsMap(pairs[1..], m - {pairs[0].0})
  {
  }

  /** Every listing of a map is exactly as long as the map has entries. */
  lemma {:induction false} ListingLength(pairs: seq<(ActorId, SessionInfo)>, m: map<ActorId, SessionInfo>)
    requires ListsMap(pairs, m)
    ensures |pairs| == |m|
  {
    if pairs == [] {
      assert m == map[];
    } else {
      var k := pairs[0].0;
      ListsRest(pairs, m);
      ListingLength(pairs[1..], m - {k});
      assert (m - {k}).Keys == m.Keys - {k};
    }
  }

  /** In a listing of `m`, each entry of `m` occurs once and nothing else occurs. */
  lemma {:induction false} ListingCounts(pairs: seq<(ActorId, SessionInfo)>, m: map<ActorId, SessionInfo>, e: (ActorId, SessionInfo))
    requires ListsMap(pairs, m)
    ensures multiset(pairs)[e] == if e.0 in m && m[e.0] == e.1 then 1 else 0
  {
    if pairs != [] {
      var k := pairs[0].0;
      ListsRest(pairs, m);
      ListingCounts(pairs[1..], m - {k}, e);
      assert pairs == [pairs[0]] + pairs[1..];
      assert multiset(pairs) == multiset{pairs[0]} + multiset(pairs[1..]);
    }
  }

  /** Two listings of the same map hold the same pairs, possibly in another
      order: the export promises the entries, not their order. */
  lemma ListingsArePermutations(p1: seq<(ActorId, SessionInfo)>, p2: seq<(ActorId, SessionInfo)>, m: map<ActorId, SessionInfo>)
    requires ListsMap(p1, m) && ListsMap(p2, m)
    ensures multiset(p1) == multiset(p2)
  {
    forall e | true
      ensures multiset(p1)[e] == multiset(p2)[e]
    {
      ListingCounts(p1, m, e);
      ListingCounts(p2, m, e);
    }
  }

  /** Collects a list of pairs into a map; a later pair for the same user wins. */
  function ToMap(pairs: seq<(ActorId, SessionInfo)>): map<ActorId, SessionInfo>
  {
    if pairs == [] then map[]
    else ToMap(pairs[..|pairs| - 1])[pairs[|pairs| - 1].0 := pairs[|pairs| - 1].1]
  }

  /** A listing loses nothing: collecting it back gives the map it lists. */
  lemma {:induction false} ListingRebuildsMap(pairs: seq<(ActorId, SessionInfo)>, m: map<ActorId, SessionInfo>)
    requires ListsMap(pairs, m)
    ensures ToMap(pairs) == m
  {
    if pairs == [] {
      ListingLength(pairs, m);
      assert m == map[];
    } else {
      var n := |pairs| - 1;
      var k := pairs[n].0;
      var front := pairs[..n];
      ListsLast(pairs, m);
      ListingRebuildsMap(front, m - {k});
      assert ToMap(pairs) == (m - {k})[k := m[k]];
    }
  }

  /** Dropping the last pair of a listing of `m` leaves a listing of `m`
      without that user. */
  lemma ListsLast(pairs: seq<(ActorId, SessionInfo)>, m: map<ActorId, SessionInfo>)
    requires ListsMap(pairs, m) && pairs != []
    ensures pairs[|pairs| - 1].0 in m && m[pairs[|pairs| - 1].0] == pairs[|pairs| - 1].1
    ensures ListsMap(pairs[..|pairs| - 1], m - {pairs[|pairs| - 1].0})
  {
  }

  /** The exported state determines the session store completely. */
  lemma StateRebuildsSessions(s: GamesSession)
    ensures ToMap(ToState(s).gameSessions) == s.sessions
  {
    ListingRebuildsMap(ToState(s).gameSessions, s.sessions);
  }
}
