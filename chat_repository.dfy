/**
 * `PgChatRepository` over two abstract tables: the chats, keyed by uid, and
 * the membership rows, keyed by (chat, user). Each database round trip may
 * fail; `db(step)` is the error text the database reports at that step, if
 * any. A transaction works on a private copy of the tables that replaces
 * them only at `commit`.
 */
module ChatRepository {
  import opened Wrappers
  import opened Uuids
  import opened Models
  import opened ServiceErrors

  datatype DbStep =
    | SelectUserChats | SelectChat
    | BeginTx | InsertChat | InsertParticipant(user: Uuid) | CommitTx
    | SelectChatExists | SelectMembership | InsertMembership
    | DeleteMembership | SelectParticipants

  type Db = DbStep -> Option<string>

  /** What the hard-coded GET to the user service came back with. */
  datatype HttpOutcome = SendFailed(reason: string) | Response(status: int)

  /** `StatusCode::is_success`. */
  predicate IsSuccess(status: int)
  {
    200 <= status <= 299
  }

  predicate Confirmed(h: HttpOutcome)
  {
    h.Response? && IsSuccess(h.status)
  }

  /** The database's text for an insert whose key is already taken. */
  const UniqueViolation: string := "duplicate key value violates unique constraint"

  predicate HasKey(rows: set<ChatParticipant>, chatUid: Uuid, userUid: Uuid)
  {
    exists p | p in rows :: p.chatUid == chatUid && p.userUid == userUid
  }

  /** The (chat, user) key of the membership table is unique. */
  ghost predicate UniqueMembership(rows: set<ChatParticipant>)
  {
    forall p, q | p in rows && q in rows && p.chatUid == q.chatUid && p.userUid == q.userUid :: p == q
  }

  predicate Distinct<T(==)>(s: seq<T>)
  {
    forall i, j | 0 <= i < j < |s| :: s[i] != s[j]
  }

  /** Index of the first participant the user service does not confirm (|ps| if none). */
  function FirstUnconfirmed(ps: seq<Uuid>, check: Uuid -> HttpOutcome): (k: nat)
    ensures k <= |ps|
    ensures forall i | 0 <= i < k :: Confirmed(check(ps[i]))
    ensures k < |ps| ==> !Confirmed(check(ps[k]))
  {
    if |ps| == 0 then 0
    else if !Confirmed(check(ps[0])) then 0
    else 1 + FirstUnconfirmed(ps[1..], check)
  }

  /** Whether inserting `ps[j]` after `ps[..j]` fails: a repeated key, or a database error. */
  predicate InsertFails(ps: seq<Uuid>, j: nat, db: Db)
    requires j < |ps|
  {
    ps[j] in ps[..j] || db(InsertParticipant(ps[j])).Some?
  }

  function InsertError(ps: seq<Uuid>, j: nat, db: Db): string
    requires j < |ps| && InsertFails(ps, j, db)
  {
    if ps[j] in ps[..j] then UniqueViolation else db(InsertParticipant(ps[j])).value
  }

  /** Index of the first membership insert that fails (|ps| if none). */
  function FirstFailedInsert(ps: seq<Uuid>, db: Db): (k: nat)
    ensures k <= |ps|
    ensures forall i | 0 <= i < k :: !InsertFails(ps, i, db)
    ensures k < |ps| ==> InsertFails(ps, k, db)
  {
    FirstFailedInsertFrom(ps, 0, db)
  }

  function FirstFailedInsertFrom(ps: seq<Uuid>, i: nat, db: Db): (k: nat)
    requires i <= |ps|
    requires forall m | 0 <= m < i :: !InsertFails(ps, m, db)
    ensures i <= k <= |ps|
    ensures forall m | 0 <= m < k :: !InsertFails(ps, m, db)
    ensures k < |ps| ==> InsertFails(ps, k, db)
    decreases |ps| - i
  {
    if i == |ps| then i
    else if InsertFails(ps, i, db) then i
    else FirstFailedInsertFrom(ps, i + 1, db)
  }

  /** The membership rows `create` writes for a new chat. */
  function NewRows(chatUid: Uuid, ps: seq<Uuid>, now: Instant): set<ChatParticipant>
  {
    set u | u in ps :: ChatParticipant(chatUid, u, now)
  }

  /** What `create` returns, step by step: the first step that fails decides. */
  function CreateOutcome(chats: map<Uuid, Chat>, dto: CreateChatDto, chatUid: Uuid, now: Instant,
                         check: Uuid -> HttpOutcome, db: Db): Result<Chat, ServiceError>
  {
    var ps := dto.participants;
    if db(BeginTx).Some? then Err(InternalError("Transaction error: " + db(BeginTx).value))
    else if chatUid in chats then Err(InternalError("Error creating a chat room: " + UniqueViolation))
    else if db(InsertChat).Some? then Err(InternalError("Error creating a chat room: " + db(InsertChat).value))
    else
      var k := FirstUnconfirmed(ps, check);
      if k < |ps| then
        match check(ps[k])
        case SendFailed(e) => Err(InternalError("User service error: " + e))
        case Response(_) => Err(BadRequest("User with uid " + ToString(ps[k]) + " does not exist"))
      else
        var j := FirstFailedInsert(ps, db);
        if j < |ps| then Err(InternalError("Error adding participant " + ToString(ps[j]) + ": " + InsertError(ps, j, db)))
        else if db(CommitTx).Some? then Err(InternalError("Transaction commit error: " + db(CommitTx).value))
        else Ok(Chat(chatUid, dto.name, now, now))
  }

  /** The rows of a query result, in whatever order the database returns them. */
  method Enumerate<T>(s: set<T>) returns (r: seq<T>)
    ensures forall x :: x in r <==> x in s
    ensures Distinct(r)
  {
    var todo := s;
    r := [];
    while todo != {}
      invariant forall x :: x in s <==> x in todo || x in r
      invariant forall x | x in r :: x !in todo
      invariant Distinct(r)
      decreases |todo|
    {
      var x :| x in todo;
      r := r + [x];
      todo := todo - {x};
    }
  }

  lemma FirstFailedInsertIs(ps: seq<Uuid>, db: Db, i: nat)
    requires i < |ps|
    requires forall m | 0 <= m < i :: !InsertFails(ps, m, db)
    requires InsertFails(ps, i, db)
    ensures FirstFailedInsert(ps, db) == i
  {
  }

  class PgChatRepository {
    var chats: map<Uuid, Chat>
    var participants: set<ChatParticipant>

    /** Every chat is stored under its own uid, every row names a stored chat, and keys are unique. */
    ghost predicate Valid()
      reads this
    {
      && (forall c | c in chats :: chats[c].uid == c)
      && (forall p | p in participants :: p.chatUid in chats)
      && UniqueMembership(participants)
    }

    constructor ()
      ensures Valid() && chats == map[] && participants == {}
    {
      chats := map[];
      participants := {};
    }

    /** The uids of the chats `user` belongs to. */
    ghost function UserChatUids(user: Uuid): set<Uuid>
      reads this
    {
      set p | p in participants && p.userUid == user :: p.chatUid
    }

    /** The users who belong to `chatUid`. */
    ghost function Members(chatUid: Uuid): set<Uuid>
      reads this
    {
      set p | p in participants && p.chatUid == chatUid :: p.userUid
    }

    /** `get_user_chats`: each chat the user belongs to, once. */
    method GetUserChats(user: Uuid, db: Db) returns (r: Result<seq<Chat>, ServiceError>)
      requires Valid()
      ensures db(SelectUserChats).Some? ==> r == Err(InternalError("Database error: " + db(SelectUserChats).value))
      ensures db(SelectUserChats).None? ==> r.Ok?
      ensures r.Ok? ==> (forall c | c in r.value :: c.uid in UserChatUids(user) && chats[c.uid] == c)
      ensures r.Ok? ==> (forall u | u in UserChatUids(user) :: chats[u] in r.value)
      ensures r.Ok? ==> forall i, j | 0 <= i < j < |r.value| :: r.value[i].uid != r.value[j].uid
    {
      if db(SelectUserChats).Some? {
        return Err(InternalError("Database error: " + db(SelectUserChats).value));
      }
      var owned := set p | p in participants && p.userUid == user :: p.chatUid;
      var uids := Enumerate(owned);
      var table := chats;
      assert forall i | 0 <= i < |uids| :: uids[i] in table by {
        forall i | 0 <= i < |uids| ensures uids[i] in table {
          assert uids[i] in owned;
          var p :| p in participants && p.userUid == user && p.chatUid == uids[i];
        }
      }
      var out := seq(|uids|, i requires 0 <= i < |uids| && uids[i] in table => table[uids[i]]);
      assert forall i | 0 <= i < |out| :: out[i].uid == uids[i];
      r := Ok(out);
    }

    /** `get_by_id`. */
    method GetById(uid: Uuid, db: Db) returns (r: Result<Chat, ServiceError>)
      requires Valid()
      ensures db(SelectChat).Some? ==> r == Err(InternalError("Database error: " + db(SelectChat).value))
      ensures db(SelectChat).None? && uid in chats ==> r == Ok(chats[uid]) && r.value.uid == uid
      ensures db(SelectChat).None? && uid !in chats ==>
                r == Err(NotFound("Chat with uid " + ToString(uid) + " not found"))
    {
      if db(SelectChat).Some? {
        return Err(InternalError("Database error: " + db(SelectChat).value));
      }
      if uid in chats {
        r := Ok(chats[uid]);
      } else {
        r := Err(NotFound("Chat with uid " + ToString(uid) + " not found"));
      }
    }

    /**
     * `create`: inside one transaction, insert the chat row, ask the user
     * service about every listed participant, insert one membership row per
     * participant, then commit. `chatUid` is the freshly drawn `Uuid::new_v4`,
     * `now` the clock, `check` the user service's answer per participant.
     */
    method Create(dto: CreateChatDto, chatUid: Uuid, now: Instant, check: Uuid -> HttpOutcome, db: Db)
      returns (r: Result<Chat, ServiceError>)
      requires Valid()
      modifies this
      ensures Valid()
      ensures r == CreateOutcome(old(chats), dto, chatUid, now, check, db)
      ensures r.Err? ==> chats == old(chats) && participants == old(participants)
      ensures r.Ok? ==> r.value == Chat(chatUid, dto.name, now, now)
                        && chats == old(chats)[chatUid := r.value]
                        && participants == old(participants) + NewRows(chatUid, dto.participants, now)
    {
      var ps := dto.participants;
      if db(BeginTx).Some? {
        return Err(InternalError("Transaction error: " + db(BeginTx).value));
      }
      var txChats := chats;
      var txRows := participants;

      if chatUid in txChats {
        return Err(InternalError("Error creating a chat room: " + UniqueViolation));
      }
      if db(InsertChat).Some? {
        return Err(InternalError("Error creating a chat room: " + db(InsertChat).value));
      }
      var chat := Chat(chatUid, dto.name, now, now);
      txChats := txChats[chatUid := chat];

      var i := 0;
      while i < |ps|
        invariant 0 <= i <= |ps|
        invariant forall m | 0 <= m < i :: Confirmed(check(ps[m]))
      {
        match check(ps[i]) {
          case SendFailed(e) =>
            return Err(InternalError("User service error: " + e));
          case Response(status) =>
            if !IsSuccess(status) {
              return Err(BadRequest("User with uid " + ToString(ps[i]) + " does not exist"));
            }
        }
        i := i + 1;
      }
      assert FirstUnconfirmed(ps, check) == |ps|;

      i := 0;
      while i < |ps|
        invariant 0 <= i <= |ps|
        invariant forall m | 0 <= m < i :: !InsertFails(ps, m, db)
        invariant txRows == participants + NewRows(chatUid, ps[..i], now)
        invariant forall p | p in txRows :: p.chatUid in txChats
        invariant UniqueMembership(txRows)
        invariant forall p | p in txRows && p.chatUid == chatUid :: p.userUid in ps[..i]
      {
        var duplicate := HasKey(txRows, chatUid, ps[i]);
        assert duplicate <==> ps[i] in ps[..i] by {
          if ps[i] in ps[..i] {
            assert ChatParticipant(chatUid, ps[i], now) in NewRows(chatUid, ps[..i], now);
          }
        }
        if duplicate {
          FirstFailedInsertIs(ps, db, i);
          return Err(InternalError("Error adding participant " + ToString(ps[i]) + ": " + UniqueViolation));
        }
        if db(InsertParticipant(ps[i])).Some? {
          FirstFailedInsertIs(ps, db, i);
          return Err(InternalError("Error adding participant " + ToString(ps[i]) + ": "
                                   + db(InsertParticipant(ps[i])).value));
        }
        assert ps[..i + 1] == ps[..i] + [ps[i]];
        txRows := txRows + {ChatParticipant(chatUid, ps[i], now)};
        i := i + 1;
      }
      assert ps[..i] == ps;

      if db(CommitTx).Some? {
        return Err(InternalError("Transaction commit error: " + db(CommitTx).value));
      }
      chats, participants := txChats, txRows;
      r := Ok(chat);
    }

    /** `add_participant`: the chat must exist and the user must not already belong to it. */
    method AddParticipant(chatUid: Uuid, userUid: Uuid, now: Instant, db: Db)
      returns (r: Result<(), ServiceError>)
      requires Valid()
      modifies this
      ensures Valid()
      ensures chats == old(chats)
      ensures r.Err? ==> participants == old(participants)
      ensures r.Ok? <==> db(SelectChatExists).None? && chatUid in chats && db(SelectMembership).None?
                         && !HasKey(old(participants), chatUid, userUid) && db(InsertMembership).None?
      ensures r.Ok? ==> participants == old(participants) + {ChatParticipant(chatUid, userUid, now)}
      ensures db(SelectChatExists).Some? ==> r == Err(InternalError("Database error: " + db(SelectChatExists).value))
      ensures db(SelectChatExists).None? && chatUid !in chats ==>
                r == Err(NotFound("Chat with uid " + ToString(chatUid) + " not found"))
      ensures db(SelectChatExists).None? && chatUid in chats && db(SelectMembership).None?
              && HasKey(old(participants), chatUid, userUid) ==>
                r == Err(BadRequest("The user is already a member of the chat room"))
      ensures db(SelectChatExists).None? && chatUid in chats && db(SelectMembership).Some? ==>
                r == Err(InternalError("Database error: " + db(SelectMembership).value))
      ensures db(SelectChatExists).None? && chatUid in chats && db(SelectMembership).None?
              && !HasKey(old(participants), chatUid, userUid) && db(InsertMembership).Some? ==>
                r == Err(InternalError("Error adding a participant: " + db(InsertMembership).value))
    {
      if db(SelectChatExists).Some? {
        return Err(InternalError("Database error: " + db(SelectChatExists).value));
      }
      if chatUid !in chats {
        return Err(NotFound("Chat with uid " + ToString(chatUid) + " not found"));
      }
      if db(SelectMembership).Some? {
        return Err(InternalError("Database error: " + db(SelectMembership).value));
      }
      if HasKey(participants, chatUid, userUid) {
        return Err(BadRequest("The user is already a member of the chat room"));
      }
      if db(InsertMembership).Some? {
        return Err(InternalError("Error adding a participant: " + db(InsertMembership).value));
      }
      participants := participants + {ChatParticipant(chatUid, userUid, now)};
      r := Ok(());
    }

    /** `remove_participant`: delete the (chat, user) row; no row is a 404. */
    method RemoveParticipant(chatUid: Uuid, userUid: Uuid, db: Db) returns (r: Result<(), ServiceError>)
      requires Valid()
      modifies this
      ensures Valid()
      ensures chats == old(chats)
      ensures db(DeleteMembership).Some? ==>
                r == Err(InternalError("Participant deletion error " + db(DeleteMembership).value))
                && participants == old(participants)
      ensures db(DeleteMembership).None? && !HasKey(old(participants), chatUid, userUid) ==>
                r == Err(NotFound("Participant not found in chat")) && participants == old(participants)
      ensures db(DeleteMembership).None? && HasKey(old(participants), chatUid, userUid) ==> r == Ok(())
      ensures db(DeleteMembership).None? ==>
                participants == set p | p in old(participants) && !(p.chatUid == chatUid && p.userUid == userUid)
      ensures !HasKey(participants, chatUid, userUid) || r.Err?
    {
      if db(DeleteMembership).Some? {
        return Err(InternalError("Participant deletion error " + db(DeleteMembership).value));
      }
      var kept := set p | p in participants && !(p.chatUid == chatUid && p.userUid == userUid);
      var rowsAffected := |participants - kept|;
      assert HasKey(participants, chatUid, userUid) <==> rowsAffected > 0 by {
        if HasKey(participants, chatUid, userUid) {
          var p :| p in participants && p.chatUid == chatUid && p.userUid == userUid;
          assert p in participants - kept;
        } else {
          assert participants - kept == {};
        }
      }
      participants := kept;
      if rowsAffected == 0 {
        return Err(NotFound("Participant not found in chat"));
      }
      r := Ok(());
    }

    /** `get_chat_participants`: the users paired with the chat, each once. */
    method GetChatParticipants(chatUid: Uuid, db: Db) returns (r: Result<seq<Uuid>, ServiceError>)
      requires Valid()
      ensures db(SelectParticipants).Some? ==>
                r == Err(InternalError("Error fetching participants: " + db(SelectParticipants).value))
      ensures db(SelectParticipants).None? ==> r.Ok?
      ensures r.Ok? ==> (forall u :: u in r.value <==> u in Members(chatUid)) && Distinct(r.value)
    {
      if db(SelectParticipants).Some? {
        return Err(InternalError("Error fetching participants: " + db(SelectParticipants).value));
      }
      var out := Enumerate(set p | p in participants && p.chatUid == chatUid :: p.userUid);
      r := Ok(out);
    }
  }

  /** `create` adds exactly one row per distinct listed participant. */
  lemma NewRowsCount(chatUid: Uuid, ps: seq<Uuid>, now: Instant)
    requires Distinct(ps)
    ensures |NewRows(chatUid, ps, now)| == |ps|
  {
    NewRowsCountPrefix(chatUid, ps, now, |ps|);
    assert ps[..|ps|] == ps;
  }

  lemma {:induction false} NewRowsCountPrefix(chatUid: Uuid, ps: seq<Uuid>, now: Instant, n: nat)
    requires Distinct(ps) && n <= |ps|
    ensures |NewRows(chatUid, ps[..n], now)| == n
  {
    if n > 0 {
      NewRowsCountPrefix(chatUid, ps, now, n - 1);
      assert ps[..n] == ps[..n - 1] + [ps[n - 1]];
      assert NewRows(chatUid, ps[..n], now)
          == NewRows(chatUid, ps[..n - 1], now) + {ChatParticipant(chatUid, ps[n - 1], now)};
      assert ChatParticipant(chatUid, ps[n - 1], now) !in NewRows(chatUid, ps[..n - 1], now);
    }
  }

  /** No membership insert fails exactly when the participants are distinct and the database reports no error. */
  lemma InsertsSucceedIff(ps: seq<Uuid>, db: Db)
    ensures FirstFailedInsert(ps, db) == |ps|
            <==> Distinct(ps) && forall i | 0 <= i < |ps| :: db(InsertParticipant(ps[i])).None?
  {
    var k := FirstFailedInsert(ps, db);
    if k == |ps| {
      forall i, j | 0 <= i < j < |ps| ensures ps[i] != ps[j] {
        assert !InsertFails(ps, j, db);
        assert ps[i] == ps[..j][i];
      }
      assert Distinct(ps);
      forall i | 0 <= i < |ps| ensures db(InsertParticipant(ps[i])).None? {
        assert !InsertFails(ps, i, db);
      }
    } else {
      assert InsertFails(ps, k, db);
      if ps[k] in ps[..k] {
        var i :| 0 <= i < k && ps[i] == ps[k];
        assert !Distinct(ps);
      }
    }
  }

  /**
   * `create` succeeds exactly when every step does: the transaction opens, the
   * uid is new, the user service confirms every participant, nobody is listed
   * twice, no insert fails and the commit goes through.
   */
  lemma CreateSucceedsIff(chats: map<Uuid, Chat>, dto: CreateChatDto, chatUid: Uuid, now: Instant,
                          check: Uuid -> HttpOutcome, db: Db)
    ensures CreateOutcome(chats, dto, chatUid, now, check, db).Ok?
            <==> && db(BeginTx).None? && chatUid !in chats && db(InsertChat).None?
                 && (forall i | 0 <= i < |dto.participants| :: Confirmed(check(dto.participants[i])))
                 && Distinct(dto.participants)
                 && (forall i | 0 <= i < |dto.participants| :: db(InsertParticipant(dto.participants[i])).None?)
                 && db(CommitTx).None?
  {
    InsertsSucceedIff(dto.participants, db);
    var k := FirstUnconfirmed(dto.participants, check);
    if k < |dto.participants| {
      assert !Confirmed(check(dto.participants[k]));
    }
  }

  /**
   * The participant checks stop at the first participant the user service
   * answers with a non-success status: that one is named in a 400.
   */
  lemma CreateStopsAtFirstUnknownUser(chats: map<Uuid, Chat>, dto: CreateChatDto, chatUid: Uuid, now: Instant,
                                      check: Uuid -> HttpOutcome, db: Db, k: nat)
    requires db(BeginTx).None? && chatUid !in chats && db(InsertChat).None?
    requires k < |dto.participants|
    requires forall i | 0 <= i < k :: Confirmed(check(dto.participants[i]))
    requires check(dto.participants[k]).Response? && !IsSuccess(check(dto.participants[k]).status)
    ensures CreateOutcome(chats, dto, chatUid, now, check, db)
            == Err(BadRequest("User with uid " + ToString(dto.participants[k]) + " does not exist"))
  {
    var ps := dto.participants;
    var f := FirstUnconfirmed(ps, check);
    assert f == k;
  }
}
