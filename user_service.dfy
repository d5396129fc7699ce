/**
 * `UserService`: guard sequences in front of the user repository, with the
 * repository, the `validator` crate and argon2 passed in as functions.
 */
module UserService {
  import opened Wrappers
  import opened Uuids
  import opened Text
  import opened Models
  import opened ServiceErrors

  /** A call into the user repository. */
  datatype UserCall = FindById(uid: Uuid) | CreateUser(dto: UserDto)

  /** The repository calls a service operation made, in order, and what it returned. */
  datatype Trace<T> = Trace(calls: seq<UserCall>, result: Result<T, ServiceError>)

  /** `get_by_id`: the id must parse before the repository is asked. */
  function GetById(uid: string, find: Uuid -> Result<User, ServiceError>): (t: Trace<User>)
    ensures Parse(uid).Err? ==> t == Trace([], Err(BadRequest("Invalid UUID")))
    ensures Parse(uid).Ok? ==> t == Trace([FindById(Parse(uid).value)], find(Parse(uid).value))
  {
    match Parse(uid)
    case Err(_) => Trace([], Err(BadRequest("Invalid UUID")))
    case Ok(id) => Trace([FindById(id)], find(id))
  }

  const DuplicateKey: string := "duplicate key"

  /** The error `signup` returns for a failed insert: a duplicate key means the email is taken. */
  function RemapCreateError(e: ServiceError): (r: ServiceError)
    ensures Contains(e.message, DuplicateKey) ==> r == BadRequest("Email already exists")
    ensures !Contains(e.message, DuplicateKey) ==> r == e
  {
    if Contains(e.message, DuplicateKey) then BadRequest("Email already exists") else e
  }

  /** A database message containing "duplicate key" anywhere is reported as a taken email. */
  lemma DuplicateKeyAnywhere(prefix: string, suffix: string)
    ensures RemapCreateError(InternalError(prefix + DuplicateKey + suffix)) == BadRequest("Email already exists")
  {
    var s := prefix + DuplicateKey + suffix;
    assert s[|prefix|..|prefix| + |DuplicateKey|] == DuplicateKey;
    assert OccursAt(s, DuplicateKey, |prefix|);
    ContainsAt(s, DuplicateKey);
  }

  /** The first of signup's four guards that fails, in the order the source checks them. */
  function SignupGuard(dto: UserDto, validation: Result<(), string>): (r: Option<ServiceError>)
    ensures r.Some? ==> r.value.statusCode == 400
    ensures r.None? <==> validation.Ok? && dto.username != [] && '@' in dto.email
                         && Utf8Length(dto.password) >= 8
  {
    if validation.Err? then Some(BadRequest(validation.error))
    else if |dto.username| == 0 then Some(BadRequest("Username cannot be empty"))
    else if '@' !in dto.email then Some(BadRequest("Invalid email"))
    else if Utf8Length(dto.password) < 8 then Some(BadRequest("Password too short"))
    else None
  }

  /** `hash_password`, with argon2 (and its random salt) as the function `hash`. */
  function HashPassword(password: string, hash: string -> Result<string, string>): (r: Result<string, ServiceError>)
    ensures hash(password).Ok? ==> r == Ok(hash(password).value)
    ensures hash(password).Err? ==> r == Err(InternalError("Password hashing error: " + hash(password).error))
  {
    match hash(password)
    case Ok(h) => Ok(h)
    case Err(e) => Err(InternalError("Password hashing error: " + e))
  }

  /**
   * `signup`. `validation` is what `user_dto.validate()` returned (its error
   * printed as text); `hash` stands for argon2; `create` for the repository.
   */
  function Signup(dto: UserDto, validation: Result<(), string>,
                  hash: string -> Result<string, string>,
                  create: UserDto -> Result<User, ServiceError>): (t: Trace<User>)
    ensures |t.calls| <= 1
    ensures t.calls == [] ==> t.result.Err?
    ensures t.calls != [] ==> t.calls[0].CreateUser? && t.calls[0].dto.username == dto.username
                              && t.calls[0].dto.email == dto.email
    ensures t.result.Ok? ==> t.result == create(t.calls[0].dto)
  {
    var guard := SignupGuard(dto, validation);
    if guard.Some? then Trace([], Err(guard.value))
    else
      match HashPassword(dto.password, hash)
      case Err(e) => Trace([], Err(e))
      case Ok(passwordHash) =>
        var stored := UserDto(dto.username, dto.email, passwordHash);
        match create(stored)
        case Ok(user) => Trace([CreateUser(stored)], Ok(user))
        case Err(e) => Trace([CreateUser(stored)], Err(RemapCreateError(e)))
  }

  /** Every guard failure is a 400 and the repository is not called. */
  lemma SignupGuardsFirst(dto: UserDto, validation: Result<(), string>,
                          hash: string -> Result<string, string>,
                          create: UserDto -> Result<User, ServiceError>)
    requires validation.Err? || dto.username == [] || '@' !in dto.email || Utf8Length(dto.password) < 8
    ensures var t := Signup(dto, validation, hash, create);
            t.calls == [] && t.result.Err? && t.result.error.statusCode == 400
  {
  }

  /**
   * The guards are tried in order: validator, username, email, password.
   * `validation` is left free: the derived `validate()` of `UserDTO` already
   * demands what the next three guards check, but that is not modelled.
   */
  lemma SignupGuardOrder(dto: UserDto, validation: Result<(), string>)
    ensures validation.Err? ==> SignupGuard(dto, validation) == Some(BadRequest(validation.error))
    ensures validation.Ok? && dto.username == [] ==> SignupGuard(dto, validation) == Some(BadRequest("Username cannot be empty"))
    ensures validation.Ok? && dto.username != [] && '@' !in dto.email
            ==> SignupGuard(dto, validation) == Some(BadRequest("Invalid email"))
    ensures validation.Ok? && dto.username != [] && '@' in dto.email && Utf8Length(dto.password) < 8
            ==> SignupGuard(dto, validation) == Some(BadRequest("Password too short"))
  {
  }

  /**
   * When the repository is called, it is called once, with the username and
   * email unchanged and the password replaced by its hash; its errors are
   * remapped and its success passed through.
   */
  lemma SignupStoresHash(dto: UserDto, validation: Result<(), string>,
                         hash: string -> Result<string, string>,
                         create: UserDto -> Result<User, ServiceError>)
    ensures var t := Signup(dto, validation, hash, create);
            t.calls != [] <==> SignupGuard(dto, validation).None? && hash(dto.password).Ok?
    ensures var t := Signup(dto, validation, hash, create);
            t.calls != [] ==>
              var stored := UserDto(dto.username, dto.email, hash(dto.password).value);
              t.calls == [CreateUser(stored)]
              && (create(stored).Ok? ==> t.result == create(stored))
              && (create(stored).Err? ==> t.result == Err(RemapCreateError(create(stored).error)))
  {
  }

  /** `verify_password`, with argon2's hash parser and verifier as functions. */
  function VerifyPassword<H>(password: string, hashedPassword: string,
                             parseHash: string -> Result<H, string>,
                             verify: (string, H) -> Result<(), string>): (r: Result<(), ServiceError>)
    ensures parseHash(hashedPassword).Err? ==>
              r == Err(InternalError("Error parsing password hash: " + parseHash(hashedPassword).error))
    ensures parseHash(hashedPassword).Ok? && verify(password, parseHash(hashedPassword).value).Err? ==>
              r == Err(BadRequest("Incorrect email or password"))
    ensures r.Ok? <==> parseHash(hashedPassword).Ok? && verify(password, parseHash(hashedPassword).value).Ok?
  {
    match parseHash(hashedPassword)
    case Err(e) => Err(InternalError("Error parsing password hash: " + e))
    case Ok(h) =>
      match verify(password, h)
      case Ok(_) => Ok(())
      case Err(_) => Err(BadRequest("Incorrect email or password"))
  }
}
