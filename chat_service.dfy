/**
 * `ChatService`: the checks in front of the chat repository. The repository
 * (`T: ChatRepository`) and the user gRPC client are passed in as functions;
 * a trace records every call made to them, in order.
 */
module ChatService {
  import opened Wrappers
  import opened Uuids
  import opened Text
  import opened Models
  import opened ServiceErrors

  /** The repository as the service sees it: one function per trait method. */
  datatype Repository = Repository(
    getUserChats: Uuid -> Result<seq<Chat>, ServiceError>,
    getById: Uuid -> Result<Chat, ServiceError>,
    create: CreateChatDto -> Result<Chat, ServiceError>,
    addParticipant: (Uuid, Uuid) -> Result<(), ServiceError>,
    removeParticipant: (Uuid, Uuid) -> Result<(), ServiceError>,
    getChatParticipants: Uuid -> Result<seq<Uuid>, ServiceError>)

  /** A call to the user service or to the repository. */
  datatype Call =
    | LookupUser(user: Uuid)
    | RepoGetUserChats(user: Uuid)
    | RepoGetById(chat: Uuid)
    | RepoCreate(dto: CreateChatDto)
    | RepoAddParticipant(chat: Uuid, user: Uuid)
    | RepoRemoveParticipant(chat: Uuid, user: Uuid)
    | RepoGetChatParticipants(chat: Uuid)

  datatype Trace<T> = Trace(calls: seq<Call>, result: Result<T, ServiceError>)

  /** `parse_uuid`: a malformed id is always a 400. */
  function ParseUuid(s: string): (r: Result<Uuid, ServiceError>)
    ensures r.Ok? <==> Parse(s).Ok?
    ensures r.Ok? ==> r.value == Parse(s).value
    ensures r.Err? ==> r.error == BadRequest("Invalid UUID: " + Describe(Parse(s).error))
  {
    match Parse(s)
    case Ok(u) => Ok(u)
    case Err(e) => Err(BadRequest("Invalid UUID: " + Describe(e)))
  }

  /** Every id the service itself prints is accepted back. */
  lemma ParseUuidOfPrinted(u: Uuid)
    ensures ParseUuid(ToString(u)) == Ok(u)
  {
    ParseToString(u);
  }

  predicate Distinct<T(==)>(s: seq<T>)
  {
    forall i, j | 0 <= i < j < |s| :: s[i] != s[j]
  }

  function SetOf<T>(s: seq<T>): set<T>
  {
    set x | x in s
  }

  /** The size check `unique.len() < participants.len()` finds a duplicate exactly when there is one. */
  lemma {:induction false} DistinctIffFullSet<T>(s: seq<T>)
    ensures |SetOf(s)| <= |s|
    ensures |SetOf(s)| == |s| <==> Distinct(s)
  {
    if |s| > 0 {
      var t := s[..|s| - 1];
      var x := s[|s| - 1];
      DistinctIffFullSet(t);
      assert s == t + [x];
      assert SetOf(s) == SetOf(t) + {x};
      if x in SetOf(t) {
        assert SetOf(s) == SetOf(t);
        var i :| 0 <= i < |t| && t[i] == x;
        assert s[i] == s[|s| - 1];
      } else {
        assert Distinct(s) <==> Distinct(t) by {
          if Distinct(t) {
            forall i, j | 0 <= i < j < |s| ensures s[i] != s[j] {
              if j == |s| - 1 { assert s[i] == t[i]; }
              else { assert s[i] == t[i] && s[j] == t[j]; }
            }
          }
          if Distinct(s) {
            forall i, j | 0 <= i < j < |t| ensures t[i] != t[j] {
              assert s[i] == t[i] && s[j] == t[j];
            }
          }
        }
      }
    }
  }

  /**
   * `order` is an iteration order of the `HashSet` built from `ps`: each
   * distinct id once, in an order the model does not fix.
   */
  ghost predicate IsIterationOrder(order: seq<Uuid>, ps: seq<Uuid>)
  {
    Distinct(order) && forall u :: u in order <==> u in ps
  }

  /** Over distinct participants, the iteration order has one entry per participant. */
  lemma IterationOrderLength(order: seq<Uuid>, ps: seq<Uuid>)
    requires IsIterationOrder(order, ps) && Distinct(ps)
    ensures |order| == |ps|
  {
    DistinctIffFullSet(order);
    DistinctIffFullSet(ps);
    assert SetOf(order) == SetOf(ps);
  }

  function Lookups(order: seq<Uuid>): (calls: seq<Call>)
    ensures |calls| == |order|
    ensures forall i | 0 <= i < |order| :: calls[i] == LookupUser(order[i])
  {
    seq(|order|, i requires 0 <= i < |order| => LookupUser(order[i]))
  }

  /** The error text for the `idx`-th failed lookup, labelled with `participants[idx]`. */
  function FailureEntry(ps: seq<Uuid>, idx: nat, e: ServiceError): string
    requires idx < |ps|
  {
    "User " + ToString(ps[idx]) + " not found: " + Display(e)
  }

  /** The entries the loop over `user_checks` collects, for the results seen so far. */
  function FailureEntries<U>(ps: seq<Uuid>, checks: seq<Result<U, ServiceError>>): seq<string>
    requires |checks| <= |ps|
  {
    if |checks| == 0 then []
    else
      var last := |checks| - 1;
      FailureEntries(ps, checks[..last])
      + (if checks[last].Err? then [FailureEntry(ps, last, checks[last].error)] else [])
  }

  function CountFailures<U>(checks: seq<Result<U, ServiceError>>): nat
  {
    if |checks| == 0 then 0
    else CountFailures(checks[..|checks| - 1]) + (if checks[|checks| - 1].Err? then 1 else 0)
  }

  /** One entry per failed lookup; none exactly when every lookup succeeded. */
  lemma {:induction false} FailureEntriesCount<U>(ps: seq<Uuid>, checks: seq<Result<U, ServiceError>>)
    requires |checks| <= |ps|
    ensures |FailureEntries(ps, checks)| == CountFailures(checks)
    ensures FailureEntries(ps, checks) == [] <==> forall i | 0 <= i < |checks| :: checks[i].Ok?
  {
    if |checks| > 0 {
      var last := |checks| - 1;
      FailureEntriesCount(ps, checks[..last]);
      if forall i | 0 <= i < |checks| :: checks[i].Ok? {
        assert forall i | 0 <= i < last :: checks[..last][i] == checks[i];
      }
      if FailureEntries(ps, checks) == [] {
        forall i | 0 <= i < |checks| ensures checks[i].Ok? {
          if i < last { assert checks[..last][i] == checks[i]; }
        }
      }
    }
  }

  /**
   * `create`. `order` is the `HashSet`'s iteration order, `lookup` the gRPC
   * client; `join_all` asks about every distinct id before any result is
   * looked at.
   */
  method Create<U>(dto: CreateChatDto, order: seq<Uuid>, lookup: Uuid -> Result<U, ServiceError>, repo: Repository)
    returns (t: Trace<Chat>)
    requires IsIterationOrder(order, dto.participants)
    ensures dto.participants == [] ==>
              t == Trace([], Err(BadRequest("Chat must have at least one participant")))
    ensures dto.participants != [] && !Distinct(dto.participants) ==>
              t == Trace([], Err(BadRequest("Duplicate participants are not allowed")))
    ensures dto.participants != [] && Distinct(dto.participants) ==>
              |order| == |dto.participants|
              && var checks := seq(|order|, i requires 0 <= i < |order| => lookup(order[i]));
                 var failures := FailureEntries(dto.participants, checks);
                 if failures == [] then t == Trace(Lookups(order) + [RepoCreate(dto)], repo.create(dto))
                 else t == Trace(Lookups(order), Err(NotFound(Join(failures, "; "))))
    ensures RepoCreate(dto) in t.calls
            <==> dto.participants != [] && Distinct(dto.participants) && forall u | u in dto.participants :: lookup(u).Ok?
    ensures dto.participants != [] && Distinct(dto.participants) && (exists u | u in dto.participants :: lookup(u).Err?) ==>
              t.calls == Lookups(order) && t.result.Err? && t.result.error.statusCode == 404
  {
    var ps := dto.participants;
    if |ps| == 0 {
      return Trace([], Err(BadRequest("Chat must have at least one participant")));
    }
    var unique := SetOf(ps);
    DistinctIffFullSet(ps);
    if |unique| < |ps| {
      return Trace([], Err(BadRequest("Duplicate participants are not allowed")));
    }
    IterationOrderLength(order, ps);

    var calls := Lookups(order);
    var checks := seq(|order|, i requires 0 <= i < |order| => lookup(order[i]));

    var errors: seq<string> := [];
    var idx := 0;
    while idx < |checks|
      invariant 0 <= idx <= |checks|
      invariant errors == FailureEntries(ps, checks[..idx])
    {
      assert checks[..idx + 1][..idx] == checks[..idx];
      if checks[idx].Err? {
        var userUid := ps[idx];
        errors := errors + ["User " + ToString(userUid) + " not found: " + Display(checks[idx].error)];
      }
      idx := idx + 1;
    }
    assert checks[..idx] == checks;
    FailureEntriesCount(ps, checks);
    AllFoundIff(order, ps, lookup);
    if |errors| != 0 {
      assert RepoCreate(dto) !in calls;
      return Trace(calls, Err(NotFound(Join(errors, "; "))));
    }
    t := Trace(calls + [RepoCreate(dto)], repo.create(dto));
  }

  /** Every participant is found exactly when every collected result is a success. */
  lemma AllFoundIff<U>(order: seq<Uuid>, ps: seq<Uuid>, lookup: Uuid -> Result<U, ServiceError>)
    requires IsIterationOrder(order, ps)
    ensures var checks := seq(|order|, i requires 0 <= i < |order| => lookup(order[i]));
            (forall u | u in ps :: lookup(u).Ok?) <==> (forall i | 0 <= i < |checks| :: checks[i].Ok?)
  {
    var checks := seq(|order|, i requires 0 <= i < |order| => lookup(order[i]));
    if forall i | 0 <= i < |checks| :: checks[i].Ok? {
      forall u | u in ps ensures lookup(u).Ok? {
        var i :| 0 <= i < |order| && order[i] == u;
        assert checks[i] == lookup(u);
      }
    }
  }

  /**
   * The label is `participants[idx]`, not the id that was looked up: with
   * participants A, B iterated as B, A, a failure for B is reported as A.
   */
  lemma FailureLabelsByPosition(a: Uuid, b: Uuid, e: ServiceError, lookup: Uuid -> Result<(), ServiceError>)
    requires a != b && lookup(a) == Ok(()) && lookup(b) == Err(e)
    ensures IsIterationOrder([b, a], [a, b])
    ensures var order := [b, a];
            var checks := seq(|order|, i requires 0 <= i < |order| => lookup(order[i]));
            FailureEntries([a, b], checks) == ["User " + ToString(a) + " not found: " + e.message]
  {
    var order := [b, a];
    var checks := seq(|order|, i requires 0 <= i < |order| => lookup(order[i]));
    assert checks == [Err(e), Ok(())];
    assert checks[..1] == [Err(e)];
    assert checks[..1][..0] == [];
    assert FailureEntries([a, b], checks[..1]) == [FailureEntry([a, b], 0, e)];
  }

  /** `get_user_chats`. */
  function GetUserChats(userUid: string, repo: Repository): (t: Trace<seq<Chat>>)
    ensures ParseUuid(userUid).Err? ==> t == Trace([], Err(ParseUuid(userUid).error))
    ensures ParseUuid(userUid).Ok? ==>
              var u := ParseUuid(userUid).value; t == Trace([RepoGetUserChats(u)], repo.getUserChats(u))
  {
    match ParseUuid(userUid)
    case Err(e) => Trace([], Err(e))
    case Ok(u) => Trace([RepoGetUserChats(u)], repo.getUserChats(u))
  }

  /** `get_chat_by_uid`; it calls `get_by_uid`, which the repository trait names `get_by_id`. */
  function GetChatByUid(chatUid: string, repo: Repository): (t: Trace<Chat>)
    ensures ParseUuid(chatUid).Err? ==> t == Trace([], Err(ParseUuid(chatUid).error))
    ensures ParseUuid(chatUid).Ok? ==>
              var c := ParseUuid(chatUid).value; t == Trace([RepoGetById(c)], repo.getById(c))
  {
    match ParseUuid(chatUid)
    case Err(e) => Trace([], Err(e))
    case Ok(c) => Trace([RepoGetById(c)], repo.getById(c))
  }

  /**
   * `add_participant`: the user id is parsed before the chat id, and the user
   * must be found by the user service before the repository is called.
   */
  function AddParticipant<U>(chatUid: string, userUid: string,
                             lookup: Uuid -> Result<U, ServiceError>, repo: Repository): (t: Trace<()>)
    ensures Parse(userUid).Err? ==> t == Trace([], Err(ParseUuid(userUid).error))
    ensures Parse(userUid).Ok? && Parse(chatUid).Err? ==> t == Trace([], Err(ParseUuid(chatUid).error))
    ensures Parse(userUid).Ok? && Parse(chatUid).Ok? ==>
              var u := Parse(userUid).value;
              var c := Parse(chatUid).value;
              if lookup(u).Err? then
                t == Trace([LookupUser(u)], Err(NotFound("User " + ToString(u) + " not found: " + lookup(u).error.message)))
              else
                t == Trace([LookupUser(u), RepoAddParticipant(c, u)], repo.addParticipant(c, u))
  {
    match ParseUuid(userUid)
    case Err(e) => Trace([], Err(e))
    case Ok(u) =>
      match ParseUuid(chatUid)
      case Err(e) => Trace([], Err(e))
      case Ok(c) =>
        match lookup(u)
        case Err(e) => Trace([LookupUser(u)], Err(NotFound("User " + ToString(u) + " not found: " + Display(e))))
        case Ok(_) => Trace([LookupUser(u), RepoAddParticipant(c, u)], repo.addParticipant(c, u))
  }

  /** `remove_participant`: the chat id is parsed first, then the user id. */
  function RemoveParticipant(chatUid: string, userUid: string, repo: Repository): (t: Trace<()>)
    ensures Parse(chatUid).Err? ==> t == Trace([], Err(ParseUuid(chatUid).error))
    ensures Parse(chatUid).Ok? && Parse(userUid).Err? ==> t == Trace([], Err(ParseUuid(userUid).error))
    ensures Parse(chatUid).Ok? && Parse(userUid).Ok? ==>
              var c := Parse(chatUid).value;
              var u := Parse(userUid).value;
              t == Trace([RepoRemoveParticipant(c, u)], repo.removeParticipant(c, u))
  {
    match ParseUuid(chatUid)
    case Err(e) => Trace([], Err(e))
    case Ok(c) =>
      match ParseUuid(userUid)
      case Err(e) => Trace([], Err(e))
      case Ok(u) => Trace([RepoRemoveParticipant(c, u)], repo.removeParticipant(c, u))
  }

  /** `get_chat_participants`. */
  function GetChatParticipants(chatUid: string, repo: Repository): (t: Trace<seq<Uuid>>)
    ensures ParseUuid(chatUid).Err? ==> t == Trace([], Err(ParseUuid(chatUid).error))
    ensures ParseUuid(chatUid).Ok? ==>
              var c := ParseUuid(chatUid).value;
              t == Trace([RepoGetChatParticipants(c)], repo.getChatParticipants(c))
  {
    match ParseUuid(chatUid)
    case Err(e) => Trace([], Err(e))
    case Ok(c) => Trace([RepoGetChatParticipants(c)], repo.getChatParticipants(c))
  }

  /** A malformed id never reaches the user service or the repository, and is a 400. */
  lemma MalformedIdsCallNothing<U>(chatUid: string, userUid: string,
                                   lookup: Uuid -> Result<U, ServiceError>, repo: Repository)
    requires Parse(chatUid).Err? || Parse(userUid).Err?
    ensures AddParticipant(chatUid, userUid, lookup, repo).calls == []
    ensures AddParticipant(chatUid, userUid, lookup, repo).result.error.statusCode == 400
    ensures RemoveParticipant(chatUid, userUid, repo).calls == []
    ensures RemoveParticipant(chatUid, userUid, repo).result.error.statusCode == 400
  {
  }
}
