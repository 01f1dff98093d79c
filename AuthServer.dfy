/**
 * The pure decisions of app/utils/auth.server.ts: the user record that
 * register builds (max heart rate and the ten stored zone bounds), the
 * outcome of register and login, and the session guards getUserId and
 * requireUserId. Hashing, the database and the cookie store are parameters.
 */
module AuthServer {
  import opened JsBuiltins
  import opened HeartRate

  /** What the registration form hands to register, after validation. */
  datatype RegisterInput = RegisterInput(
    email: string, password: string, name: string, age: int, gender: string, height: real, weight: real)

  /** The heartRateZones row created with the user. */
  datatype HeartRateZonesRecord = HeartRateZonesRecord(
    zone1Min: int, zone1Max: int, zone2Min: int, zone2Max: int, zone3Min: int, zone3Max: int,
    zone4Min: int, zone4Max: int, zone5Min: int, zone5Max: int)
  {
    /** The ten stored bounds, zone1Min first. */
    function Bounds(): seq<int>
    {
      [zone1Min, zone1Max, zone2Min, zone2Max, zone3Min, zone3Max, zone4Min, zone4Max, zone5Min, zone5Max]
    }
  }

  /** The user row register creates. */
  datatype UserRecord = UserRecord(
    email: string, passwordHash: string, name: string, age: int, gender: string, height: real, weight: real,
    maxHeartRate: int, heartRateZones: HeartRateZonesRecord)

  /** What register and login return. */
  datatype AuthenticatedUser = AuthenticatedUser(id: string, email: string)

  /** The row the zone model describes: each zone's [min, max] from calculateAllHeartRateZones. */
  function ZonesRecordOf(zones: AllZones): HeartRateZonesRecord
  {
    HeartRateZonesRecord(
      zones.zone1.min, zones.zone1.max, zones.zone2.min, zones.zone2.max, zones.zone3.min,
      zones.zone3.max, zones.zone4.min, zones.zone4.max, zones.zone5.min, zones.zone5.max)
  }

  /**
   * The data register passes to prisma.user.create, with passwordHash what
   * bcrypt.hash returned. The max heart rate and the zone bounds are
   * computed inline, as the source does, with zone 5's max the max heart
   * rate itself; they agree with the zone model: the stored max heart rate
   * is calculateMaxHeartRate(age), and the stored bounds are exactly
   * calculateAllHeartRateZones of it.
   */
  function NewUserRecord(input: RegisterInput, passwordHash: string): (r: UserRecord)
    ensures r.email == input.email && r.passwordHash == passwordHash && r.age == input.age
    ensures r.name == input.name && r.gender == input.gender && r.height == input.height && r.weight == input.weight
    ensures r.maxHeartRate == MaxHeartRate(input.age)
    ensures r.heartRateZones == ZonesRecordOf(AllHeartRateZones(MaxHeartRate(input.age)))
  {
    var maxHeartRate := Round(211.0 - 0.64 * input.age as real);
    var m := maxHeartRate as real;
    assert HeartRateZone(maxHeartRate, 1) == ZoneRange(Round(m * 0.5), Round(m * 0.6));
    assert HeartRateZone(maxHeartRate, 2) == ZoneRange(Round(m * 0.6), Round(m * 0.7));
    assert HeartRateZone(maxHeartRate, 3) == ZoneRange(Round(m * 0.7), Round(m * 0.8));
    assert HeartRateZone(maxHeartRate, 4) == ZoneRange(Round(m * 0.8), Round(m * 0.9));
    assert HeartRateZone(maxHeartRate, 5).max == maxHeartRate;
    UserRecord(
      input.email, passwordHash, input.name, input.age, input.gender, input.height, input.weight,
      maxHeartRate,
      HeartRateZonesRecord(
        Round(m * 0.5), Round(m * 0.6), Round(m * 0.6), Round(m * 0.7), Round(m * 0.7),
        Round(m * 0.8), Round(m * 0.8), Round(m * 0.9), Round(m * 0.9), maxHeartRate))
  }

  /**
   * For the ages the form accepts, the stored bounds are contiguous (each
   * zone's max is the next zone's min), never decrease, and end at the max
   * heart rate, which lies in 147..205.
   */
  lemma RegisteredZonesContiguous(input: RegisterInput, passwordHash: string)
    requires 10 <= input.age <= 100
    ensures var r := NewUserRecord(input, passwordHash);
            var z := r.heartRateZones;
            && 147 <= r.maxHeartRate <= 205
            && z.zone1Max == z.zone2Min && z.zone2Max == z.zone3Min
            && z.zone3Max == z.zone4Min && z.zone4Max == z.zone5Min
            && z.zone5Max == r.maxHeartRate
            && forall i, j :: 0 <= i <= j < 10 ==> z.Bounds()[i] <= z.Bounds()[j]
  {
    var m := MaxHeartRate(input.age);
    MaxHeartRateForFormAges(input.age);
    AllZonesAscending(m);
    assert NewUserRecord(input, passwordHash).heartRateZones.Bounds() == AllHeartRateZones(m).Boundaries();
  }

  /**
   * register: the row to create, and the result it returns, which carries the
   * id the database assigned and the email it was given.
   */
  function Register(input: RegisterInput, passwordHash: string, newId: string): (r: (UserRecord, AuthenticatedUser))
    ensures r.0.email == r.1.email == input.email && r.1.id == newId
  {
    (NewUserRecord(input, passwordHash), AuthenticatedUser(newId, input.email))
  }

  /** A user row as findUnique returns it. */
  datatype StoredUser = StoredUser(id: string, email: string, passwordHash: string)

  /**
   * login: found is the user findUnique returned for the email, and
   * passwordMatches what bcrypt.compare said of the password against its hash.
   */
  function Login(email: string, found: Option<StoredUser>, passwordMatches: bool): (r: Option<AuthenticatedUser>)
    ensures r.Some? <==> found.Some? && passwordMatches
    ensures r.Some? ==> r.value == AuthenticatedUser(found.value.id, email)
  {
    match found
    case None => None
    case Some(user) => if !passwordMatches then None else Some(AuthenticatedUser(user.id, email))
  }

  /**
   * Logging in with the registered email and a password that matches the
   * stored hash yields exactly what register returned.
   */
  lemma LoginAfterRegister(input: RegisterInput, passwordHash: string, newId: string)
    ensures var (record, registered) := Register(input, passwordHash, newId);
            Login(input.email, Some(StoredUser(newId, record.email, record.passwordHash)), true) == Some(registered)
  {
  }

  /** What session.get("userId") holds: nothing, a string, or a value of another type. */
  datatype SessionValue = Unset | Text(text: string) | NonString

  /** getUserId: the session's userId when it is a non-empty string, otherwise null. */
  function GetUserId(v: SessionValue): (r: Option<string>)
    ensures r.Some? <==> v.Text? && v.text != ""
    ensures r.Some? ==> r.value == v.text
  {
    match v
    case Text(s) => if s == "" then None else Some(s)
    case _ => None
  }

  /** requireUserId either returns the user id or throws a redirect to the login page. */
  datatype Authorization = Authorized(userId: string) | RedirectToLogin(path: string, redirectTo: string)

  /** The login page the redirect goes to, with redirectTo as its query parameter. */
  const LoginPath: string := "/auth/login"

  /**
   * requireUserId: the same guard as getUserId. It lets a request through
   * exactly when getUserId finds a user, with the same id, and otherwise
   * redirects to the login page carrying redirectTo.
   */
  function RequireUserId(v: SessionValue, redirectTo: string): (r: Authorization)
    ensures r.Authorized? <==> GetUserId(v).Some?
    ensures r.Authorized? ==> r.userId == GetUserId(v).value
    ensures r.RedirectToLogin? ==> r.path == LoginPath && r.redirectTo == redirectTo
  {
    match v
    case Text(s) => if s == "" then RedirectToLogin(LoginPath, redirectTo) else Authorized(s)
    case _ => RedirectToLogin(LoginPath, redirectTo)
  }

  /** What createUserSession answers: the session to commit and the redirect target. */
  datatype SessionRedirect = SessionRedirect(session: SessionValue, location: string)

  /** createUserSession: store the user id in the session and redirect to redirectTo. */
  function CreateUserSession(userId: string, redirectTo: string): (r: SessionRedirect)
    ensures r.location == redirectTo
    ensures GetUserId(r.session) == if userId == "" then None else Some(userId)
  {
    SessionRedirect(Text(userId), redirectTo)
  }

  /** A request carrying the session createUserSession made for a non-empty id passes requireUserId as that user. */
  lemma SessionAuthorizesItsUser(userId: string, redirectTo: string, nextRedirectTo: string)
    requires userId != ""
    ensures RequireUserId(CreateUserSession(userId, redirectTo).session, nextRedirectTo) == Authorized(userId)
  {
  }
}
