/**
 * Conversions between users, their DTO and the registration request. The
 * text form of a registration instant is left abstract: a `Clock` gives the
 * current instant, the parser (which may reject its input) and the formatter.
 */
module UserMapper {
  import opened Common

  /** The state of a user account. `ACTIVE` is the default; the other
      states are not part of this model and are kept by name. */
  datatype UserState = Active | OtherState(name: string)

  /** A user; every field is nullable. */
  datatype User = User(
    id: Option<int>,
    email: Option<string>,
    firstName: Option<string>,
    lastName: Option<string>,
    registrationDate: Option<Instant>,
    state: Option<UserState>)

  /** A user as exchanged with clients; the registration date is text. */
  datatype UserDto = UserDto(
    id: Option<int>,
    firstName: Option<string>,
    lastName: Option<string>,
    email: Option<string>,
    registrationDate: Option<string>,
    state: Option<UserState>)

  /** A sign-up request: names and e-mail only. */
  datatype NewUserRequest = NewUserRequest(firstName: Option<string>, lastName: Option<string>, email: Option<string>)

  /** The current instant, and the conversions between instants and text. */
  datatype Clock = Clock(now: Instant, parse: string -> Option<Instant>, format: Instant -> string)

  /** `parseStringToInstant`: a null text is the current instant; other text
      is parsed, and text that does not parse is an error. */
  function ParseDate(text: Option<string>, clock: Clock): (r: Result<Instant>)
    ensures text.None? ==> r == Success(clock.now)
    ensures text.Some? && clock.parse(text.value).Some? ==> r == Success(clock.parse(text.value).value)
    ensures text.Some? && clock.parse(text.value).None? ==> r == Failure(InvalidDate(text.value))
  {
    match text
    case None => Success(clock.now)
    case Some(t) =>
      match clock.parse(t)
      case Some(instant) => Success(instant)
      case None => Failure(InvalidDate(t))
  }

  /** `parseInstantToString`: a null instant stays null. */
  function FormatDate(instant: Option<Instant>, clock: Clock): (r: Option<string>)
    ensures r.None? <==> instant.None?
    ensures instant.Some? ==> r == Some(clock.format(instant.value))
  {
    match instant
    case None => None
    case Some(i) => Some(clock.format(i))
  }

  /** `mapToModel(dto)`: id, e-mail and names are copied, a null state
      becomes `ACTIVE`, and the registration date is parsed (now when null);
      unparsable date text fails the whole mapping. */
  function MapToModel(dto: UserDto, clock: Clock): (r: Result<User>)
    ensures r.Failure? <==> ParseDate(dto.registrationDate, clock).Failure?
    ensures r.Success? ==>
              && r.value.id == dto.id && r.value.email == dto.email
              && r.value.firstName == dto.firstName && r.value.lastName == dto.lastName
              && r.value.state == Some(dto.state.GetOr(Active))
              && r.value.registrationDate == Some(ParseDate(dto.registrationDate, clock).value)
  {
    match ParseDate(dto.registrationDate, clock)
    case Failure(e) => Failure(e)
    case Success(instant) =>
      Success(User(dto.id, dto.email, dto.firstName, dto.lastName, Some(instant),
                   if dto.state.None? then Some(Active) else dto.state))
  }

  /** `mapToDto(user)`: id, names, e-mail and state are copied and the
      registration instant is formatted (null stays null). */
  function MapToDto(user: User, clock: Clock): (d: UserDto)
    ensures d.id == user.id && d.email == user.email && d.state == user.state
    ensures d.firstName == user.firstName && d.lastName == user.lastName
    ensures d.registrationDate == FormatDate(user.registrationDate, clock)
  {
    UserDto(user.id, user.firstName, user.lastName, user.email,
            FormatDate(user.registrationDate, clock), user.state)
  }

  /** `mapToModel(request)`: only e-mail and names are set; id,
      registration date and state stay null. */
  function MapRequestToModel(request: NewUserRequest): (u: User)
    ensures u.email == request.email
    ensures u.firstName == request.firstName && u.lastName == request.lastName
    ensures u.id.None? && u.registrationDate.None? && u.state.None?
  {
    User(None, request.email, request.firstName, request.lastName, None, None)
  }

  /** A DTO that maps to a user maps back with the same id, names, e-mail
      and (non-null) state; a null state comes back `ACTIVE`, and a null
      date comes back as the current instant's text. */
  lemma DtoRoundTrip(dto: UserDto, clock: Clock)
    requires MapToModel(dto, clock).Success?
    ensures var d := MapToDto(MapToModel(dto, clock).value, clock);
            && d.id == dto.id && d.email == dto.email
            && d.firstName == dto.firstName && d.lastName == dto.lastName
            && (dto.state.Some? ==> d.state == dto.state)
            && (dto.state.None? ==> d.state == Some(Active))
            && (dto.registrationDate.None? ==> d.registrationDate == Some(clock.format(clock.now)))
  {
  }

  /** Hypothetical: for a clock whose formatter gives back the text it
      parsed, a DTO with a state and a date comes back unchanged. The real
      parser and formatter never meet this (`ExactRoundTripNeverApplies`). */
  lemma DtoRoundTripExact(dto: UserDto, clock: Clock)
    requires dto.state.Some? && dto.registrationDate.Some?
    requires clock.parse(dto.registrationDate.value).Some?
    requires clock.format(clock.parse(dto.registrationDate.value).value) == dto.registrationDate.value
    ensures MapToModel(dto, clock).Success?
    ensures MapToDto(MapToModel(dto, clock).value, clock) == dto
  {
  }

  /** Hypothetical: for a clock whose parser reads back what its formatter
      writes, a user with every field set survives the trip through its DTO.
      The real pair does not (`DatedUserDoesNotRoundTrip`). */
  lemma UserRoundTrip(user: User, clock: Clock)
    requires user.state.Some? && user.registrationDate.Some?
    requires clock.parse(clock.format(user.registrationDate.value)) == Some(user.registrationDate.value)
    ensures MapToModel(MapToDto(user, clock), clock) == Success(user)
  {
  }

  /** What the service's own clock guarantees about its parser: ISO-8601
      instant text (parsed ignoring case) always holds the `T` that separates
      date and time. */
  ghost predicate IsoParser(clock: Clock) {
    forall t :: clock.parse(t).Some? ==> HasTimeSeparator(t)
  }

  /** Text holding the date-time separator `T`, in either case. */
  predicate HasTimeSeparator(t: string) {
    'T' in t || 't' in t
  }

  /** What the service's own clock guarantees about its formatter: the
      pattern `yyyy.MM.dd,hh:mm:ss` prints digits and punctuation only. */
  ghost predicate PatternFormatter(clock: Clock) {
    forall i :: !HasTimeSeparator(clock.format(i))
  }

  /** With the service's parser and formatter no date text comes back from
      the round trip unchanged, so the exact round trip above never applies. */
  lemma ExactRoundTripNeverApplies(text: string, clock: Clock)
    requires IsoParser(clock) && PatternFormatter(clock)
    ensures clock.parse(text).Some? ==> clock.format(clock.parse(text).value) != text
  {
    if clock.parse(text).Some? {
      var instant: Instant := clock.parse(text).value;
      assert !HasTimeSeparator(clock.format(instant));
    }
  }

  /** With the service's parser and formatter a user with a registration
      date does not survive the trip through its DTO: the formatted date is
      rejected when read back. */
  lemma DatedUserDoesNotRoundTrip(user: User, clock: Clock)
    requires IsoParser(clock) && PatternFormatter(clock)
    requires user.registrationDate.Some?
    ensures MapToModel(MapToDto(user, clock), clock)
            == Failure(InvalidDate(clock.format(user.registrationDate.value)))
  {
    var instant: Instant := user.registrationDate.value;
    assert !HasTimeSeparator(clock.format(instant));
  }

  /** A user made from a sign-up request has no date, so its DTO has none
      either, and mapping that DTO back stamps it with the current instant
      and makes it `ACTIVE`. */
  lemma SignUpGetsDefaults(request: NewUserRequest, clock: Clock)
    ensures var d := MapToDto(MapRequestToModel(request), clock);
            && d.registrationDate.None?
            && MapToModel(d, clock) == Success(MapRequestToModel(request).(registrationDate := Some(clock.now), state := Some(Active)))
  {
  }
}
