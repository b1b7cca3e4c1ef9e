/**
 The password manager (core/auth/auth.go): three role passwords, sessions, approval requests and the
 throttle on failed logins.  Times are milliseconds of a clock that never goes back; random tokens and
 request identifiers are arguments.
 */
module Auth {
  import opened Prelude
  import opened Times

  const MAX_SESSIONS := 4096
  const MAX_FAILURES := 4096
  const MAX_REQUESTS := 256
  const MAX_PENDING := 16
  const ATTEMPTS := 5
  const MINUTE := 60000
  const SESSION_LIFE := 86400000

  datatype Role = NoRole | ViewRole | StandardRole | AdminRole

  datatype Session = Session(role: Role, client: string, expires: int)

  datatype Status = Pending | Approved | Rejected | Lapsed

  datatype Request = Request(client: string, created: int, status: Status, role: Role, token: string)

  datatype Failures = Failures(count: nat, started: int, blockedUntil: int)

  datatype Manager = Manager(
    view: string, standard: string, admin: string,
    sessions: map<string, Session>,
    requests: map<string, Request>,
    failures: map<string, Failures>)

  // ---------------------------------------------------------------- what each call does

  predicate Distinct(v: string, s: string, a: string) {
    !(v != "" && (v == s || v == a)) && !(s != "" && s == a)
  }

  function PasswordOf(m: Manager, role: Role): string {
    match role
    case NoRole => ""
    case ViewRole => m.view
    case StandardRole => m.standard
    case AdminRole => m.admin
  }

  /** The order of comparison of the source. */
  function Compare(m: Manager, pwd: string): Role {
    if pwd == "" then NoRole
    else if pwd == m.admin then AdminRole
    else if pwd == m.standard then StandardRole
    else if pwd == m.view then ViewRole
    else NoRole
  }

  function Aged(r: Request, now: int): Request {
    if r.status == Pending && now - r.created >= MINUTE then r.(status := Lapsed) else r
  }

  function Cleaned(m: Manager, now: int): Manager {
    m.(sessions := map t | t in m.sessions && now < m.sessions[t].expires :: m.sessions[t],
       requests := map id | id in m.requests && now - m.requests[id].created <= 5 * MINUTE :: Aged(m.requests[id], now),
       failures := map k | k in m.failures
                           && (now - m.failures[k].started <= 2 * MINUTE || now < m.failures[k].blockedUntil)
                   :: m.failures[k])
  }

  function Issued(m: Manager, token: string, role: Role, client: string, now: int): Manager {
    m.(sessions := m.sessions[token := Session(role, client, now + SESSION_LIFE)])
  }

  datatype Verdict = Refused | Wrong | Accepted(role: Role, token: Option<string>)

  /** The record an attempt is counted in: a new one, which blocks nothing, a restarted one, or the present one. */
  function Window(m: Manager, key: string, now: int): Failures {
    if key !in m.failures then Failures(0, now, now)
    else if now - m.failures[key].started >= MINUTE then Failures(0, now, m.failures[key].blockedUntil)
    else m.failures[key]
  }

  function Counted(f: Failures, now: int): Failures {
    Failures(f.count + 1, f.started, if f.count + 1 >= ATTEMPTS then now + MINUTE else f.blockedUntil)
  }

  // The next four are applied after a clean-up.

  function Login(m: Manager, pwd: string, key: string, token: string, now: int): (Manager, Verdict) {
    if key in m.failures && now < m.failures[key].blockedUntil then (m, Refused)
    else if key !in m.failures && |m.failures| >= MAX_FAILURES then (m, Refused)
    else
      var role := Compare(m, pwd);
      if role == NoRole then (m.(failures := m.failures[key := Counted(Window(m, key, now), now)]), Wrong)
      else
        var m' := m.(failures := m.failures - {key});
        if |m.sessions| >= MAX_SESSIONS then (m', Accepted(role, None))
        else (Issued(m', token, role, key, now), Accepted(role, Some(token)))
  }

  predicate AcceptablePasswords(v: string, s: string, a: string) {
    |v| <= 64 && |s| <= 64 && |a| <= 64 && Distinct(v, s, a)
  }

  function WithPasswords(m: Manager, v: string, s: string, a: string): Manager {
    if AcceptablePasswords(v, s, a) then m.(view := v, standard := s, admin := a, sessions := map[]) else m
  }

  predicate ClashesWith(m: Manager, role: Role, pwd: string) {
    pwd != "" && exists r | r in [ViewRole, StandardRole, AdminRole] :: r != role && PasswordOf(m, r) == pwd
  }

  function WithPassword(m: Manager, role: Role, pwd: string): Manager {
    if |pwd| > 64 || role == NoRole || ClashesWith(m, role, pwd) then m
    else
      m.(view := if role == ViewRole then pwd else m.view,
         standard := if role == StandardRole then pwd else m.standard,
         admin := if role == AdminRole then pwd else m.admin,
         sessions := map t | t in m.sessions && m.sessions[t].role != role :: m.sessions[t])
  }

  type Requests = map<string, Request>

  function PendingIn(requests: Requests): set<string> {
    set id | id in requests && requests[id].status == Pending
  }

  function WithRequest(m: Manager, client: string, id: string, now: int): Manager {
    if (exists p | p in PendingIn(m.requests) :: m.requests[p].client == client)
       || |PendingIn(m.requests)| >= MAX_PENDING || |m.requests| >= MAX_REQUESTS then m
    else m.(requests := m.requests[id := Request(client, now, Pending, NoRole, "")])
  }

  function WithApproval(m: Manager, id: string, role: Role, token: string, now: int): Manager {
    if id !in PendingIn(m.requests) || |m.sessions| >= MAX_SESSIONS then m
    else
      var r := m.requests[id];
      Issued(m, token, role, r.client, now).(
        requests := m.requests[id := r.(status := Approved, role := role, token := token)])
  }

  function WithRejection(m: Manager, id: string): Manager {
    if id !in PendingIn(m.requests) then m
    else m.(requests := m.requests[id := m.requests[id].(status := Rejected)])
  }

  function WithPoll(m: Manager, id: string, now: int): Manager {
    if id in PendingIn(m.requests) && now - m.requests[id].created > MINUTE
    then m.(requests := m.requests[id := m.requests[id].(status := Lapsed)])
    else m
  }

  /** A random password of six digits. */
  type Pin = s: string | |s| == 6 witness "000000"

  /** The first draw that is neither of two passwords, and what is left to draw; None while the program still draws. */
  function NextPin(draws: seq<Pin>, x: string, y: string): Option<(string, seq<Pin>)> {
    if draws == [] then None
    else if draws[0] != x && draws[0] != y then Some((draws[0], draws[1..]))
    else NextPin(draws[1..], x, y)
  }

  function PinFor(given: string, draws: seq<Pin>, x: string, y: string): Option<(string, seq<Pin>)> {
    if given == "" then NextPin(draws, x, y) else Some((given, draws))
  }

  /** Every empty password is replaced by a draw that differs from the other two. */
  function UniquePins(v: string, s: string, a: string, draws: seq<Pin>): Option<(string, string, string)> {
    var first := PinFor(v, draws, s, a);
    if first.None? then None
    else
      var second := PinFor(s, first.value.1, first.value.0, a);
      if second.None? then None
      else
        var third := PinFor(a, second.value.1, first.value.0, second.value.0);
        if third.None? then None else Some((first.value.0, second.value.0, third.value.0))
  }

  function WithPins(m: Manager, v: string, s: string, a: string, draws: seq<Pin>): Manager {
    var pins := UniquePins(v, s, a, draws);
    if !AcceptablePasswords(v, s, a) || pins.None? then m
    else WithPasswords(m, pins.value.0, pins.value.1, pins.value.2)
  }

  /** Every public operation; request identifiers are random, so a new one is not in use. */
  datatype Event =
    | Attempt(pwd: string, key: string, token: string)
    | ApplyPasswords(v: string, s: string, a: string)
    | SetPassword(role: Role, pwd: string)
    | CreateRequest(client: string, id: string)
    | Approve(id: string, role: Role, token: string)
    | Reject(id: string)
    | Poll(id: string)
    | InitPasswords(v: string, s: string, a: string, draws: seq<Pin>)  // all empty: three new passwords
    | Cleanup
    | Revoke(tokens: set<string>)

  function Step(m: Manager, ev: Event, now: int): Manager {
    match ev
    case Attempt(pwd, key, token) => Login(Cleaned(m, now), pwd, key, token, now).0
    case ApplyPasswords(v, s, a) => WithPasswords(m, v, s, a)
    case SetPassword(role, pwd) => WithPassword(m, role, pwd)
    case CreateRequest(client, id) => if id in m.requests then m else WithRequest(Cleaned(m, now), client, id, now)
    case Approve(id, role, token) => if role == NoRole then m else WithApproval(Cleaned(m, now), id, role, token, now)
    case Reject(id) => WithRejection(Cleaned(m, now), id)
    case Poll(id) => WithPoll(Cleaned(m, now), id, now)
    case InitPasswords(v, s, a, draws) => WithPins(m, v, s, a, draws)
    case Cleanup => Cleaned(m, now)
    case Revoke(tokens) => m.(sessions := m.sessions - tokens)
  }

  // ---------------------------------------------------------------- invariants of every operation

  ghost predicate Inv(m: Manager) {
    && Distinct(m.view, m.standard, m.admin)
    && |m.sessions| <= MAX_SESSIONS && |m.failures| <= MAX_FAILURES && |m.requests| <= MAX_REQUESTS
    && Queue(m.requests)
  }

  /** At most sixteen requests wait, from sixteen different clients. */
  ghost predicate Queue(requests: Requests) {
    && |PendingIn(requests)| <= MAX_PENDING
    && forall i, j | i in PendingIn(requests) && j in PendingIn(requests) && i != j ::
         requests[i].client != requests[j].client
  }

  lemma SubmapSize<T, U>(a: map<T, U>, b: map<T, U>)
    requires a.Keys <= b.Keys
    ensures |a| <= |b|
  {
    SubsetSize(a.Keys, b.Keys);
    assert |a| == |a.Keys| && |b| == |b.Keys|;
  }

  lemma CleaningKeepsInv(m: Manager, now: int)
    requires Inv(m)
    ensures Inv(Cleaned(m, now)) && PendingIn(Cleaned(m, now).requests) <= PendingIn(m.requests)
  {
    var c := Cleaned(m, now);
    SubmapSize(c.sessions, m.sessions);
    SubmapSize(c.requests, m.requests);
    SubmapSize(c.failures, m.failures);
    SubsetSize(PendingIn(c.requests), PendingIn(m.requests));
  }

  /** Nonempty passwords differ, so whichever is compared first, the role is the only one that matches. */
  lemma OneRoleMatches(m: Manager, pwd: string)
    requires Inv(m)
    ensures forall role | role != NoRole :: Compare(m, pwd) == role <==> pwd != "" && pwd == PasswordOf(m, role)
  {
  }

  lemma PutSize<T, U>(a: map<T, U>, k: T, v: U)
    ensures |a[k := v]| == if k in a then |a| else |a| + 1
  {
    assert a[k := v].Keys == a.Keys + {k};
    assert |a| == |a.Keys| && |a[k := v]| == |a[k := v].Keys|;
  }

  /** A login changes nothing but sessions and records. */
  lemma LoginFrame(m: Manager, pwd: string, key: string, token: string, now: int)
    ensures var m' := Login(m, pwd, key, token, now).0; m' == m.(sessions := m'.sessions, failures := m'.failures)
  {
  }

  lemma LoginFailures(m: Manager, pwd: string, key: string, token: string, now: int)
    requires |m.failures| <= MAX_FAILURES
    ensures |Login(m, pwd, key, token, now).0.failures| <= MAX_FAILURES
  {
    var failures := Login(m, pwd, key, token, now).0.failures;
    assert failures == m.failures || failures == m.failures - {key}
        || (failures == m.failures[key := Counted(Window(m, key, now), now)]
            && (key in m.failures || |m.failures| < MAX_FAILURES));
    SubmapSize(m.failures - {key}, m.failures);
    PutSize(m.failures, key, Counted(Window(m, key, now), now));
  }

  lemma LoginSessions(m: Manager, pwd: string, key: string, token: string, now: int)
    requires |m.sessions| <= MAX_SESSIONS
    ensures |Login(m, pwd, key, token, now).0.sessions| <= MAX_SESSIONS
  {
    PutSize(m.sessions, token, Session(Compare(m, pwd), key, now + SESSION_LIFE));
  }

  lemma LoginKeepsInv(m: Manager, pwd: string, key: string, token: string, now: int)
    requires Inv(m)
    ensures Inv(Login(m, pwd, key, token, now).0)
  {
    LoginFrame(m, pwd, key, token, now);
    LoginFailures(m, pwd, key, token, now);
    LoginSessions(m, pwd, key, token, now);
  }

  lemma QueueGrows(requests: Requests, id: string, r: Request)
    requires Queue(requests) && id !in requests && |PendingIn(requests)| < MAX_PENDING
    requires r.status == Pending && forall p | p in PendingIn(requests) :: requests[p].client != r.client
    ensures Queue(requests[id := r])
  {
    assert PendingIn(requests[id := r]) == PendingIn(requests) + {id};
  }

  lemma QueueShrinks(requests: Requests, id: string, r: Request)
    requires Queue(requests) && id in PendingIn(requests) && r.status != Pending
    ensures Queue(requests[id := r])
  {
    assert PendingIn(requests[id := r]) == PendingIn(requests) - {id};
  }

  lemma RequestKeepsInv(m: Manager, client: string, id: string, now: int)
    requires Inv(m) && id !in m.requests
    ensures Inv(WithRequest(m, client, id, now))
  {
    if WithRequest(m, client, id, now) != m {
      QueueGrows(m.requests, id, Request(client, now, Pending, NoRole, ""));
    }
  }

  lemma DecisionKeepsInv(m: Manager, id: string, role: Role, token: string, now: int)
    requires Inv(m)
    ensures Inv(WithApproval(m, id, role, token, now)) && Inv(WithRejection(m, id)) && Inv(WithPoll(m, id, now))
  {
    if id in PendingIn(m.requests) {
      QueueShrinks(m.requests, id, m.requests[id].(status := Lapsed));
      QueueShrinks(m.requests, id, m.requests[id].(status := Approved, role := role, token := token));
      QueueShrinks(m.requests, id, m.requests[id].(status := Rejected));
    }
  }

  lemma PasswordsKeepInv(m: Manager, ev: Event, now: int)
    requires Inv(m) && (ev.ApplyPasswords? || ev.SetPassword? || ev.Revoke?)
    ensures Inv(Step(m, ev, now))
  {
    SubmapSize(Step(m, ev, now).sessions, m.sessions);
    if ev.SetPassword? {
      SetPasswordKeepsDistinct(m, ev.role, ev.pwd);
    }
  }

  lemma StepKeepsInv(m: Manager, ev: Event, now: int)
    requires Inv(m)
    ensures Inv(Step(m, ev, now))
  {
    CleaningKeepsInv(m, now);
    match ev
    case Attempt(pwd, key, token) => LoginKeepsInv(Cleaned(m, now), pwd, key, token, now);
    case CreateRequest(client, id) =>
      if id !in m.requests { RequestKeepsInv(Cleaned(m, now), client, id, now); }
    case Approve(id, role, token) => DecisionKeepsInv(Cleaned(m, now), id, role, token, now);
    case Reject(id) => DecisionKeepsInv(Cleaned(m, now), id, NoRole, "", now);
    case Poll(id) => DecisionKeepsInv(Cleaned(m, now), id, NoRole, "", now);
    case InitPasswords(v, s, a, draws) =>
      if UniquePins(v, s, a, draws).Some? && AcceptablePasswords(v, s, a) { PinsDiffer(v, s, a, draws); }
    case Cleanup =>
    case _ => PasswordsKeepInv(m, ev, now);
  }

  lemma {:induction false} NextPinDiffers(draws: seq<Pin>, x: string, y: string)
    ensures var r := NextPin(draws, x, y); r.Some? ==> r.value.0 != x && r.value.0 != y && |r.value.0| == 6
  {
    if draws == [] {
    } else {
      NextPinDiffers(draws[1..], x, y);
    }
  }

  /** Passwords that were chosen stay, drawn ones fill the gaps, and all three are nonempty and different. */
  lemma PinsDiffer(v: string, s: string, a: string, draws: seq<Pin>)
    requires AcceptablePasswords(v, s, a) && UniquePins(v, s, a, draws).Some?
    ensures var (v', s', a') := UniquePins(v, s, a, draws).value;
      && AcceptablePasswords(v', s', a') && v' != "" && s' != "" && a' != ""
      && (v != "" ==> v' == v) && (s != "" ==> s' == s) && (a != "" ==> a' == a)
  {
    var (v', r1) := PinFor(v, draws, s, a).value;
    NextPinDiffers(draws, s, a);
    var (s', r2) := PinFor(s, r1, v', a).value;
    NextPinDiffers(r1, v', a);
    NextPinDiffers(r2, v', s');
  }

  lemma SetPasswordKeepsDistinct(m: Manager, role: Role, pwd: string)
    requires Distinct(m.view, m.standard, m.admin)
    ensures var m' := WithPassword(m, role, pwd); Distinct(m'.view, m'.standard, m'.admin)
  {
    var m' := WithPassword(m, role, pwd);
    if m' != m && pwd != "" {
      forall r | r in [ViewRole, StandardRole, AdminRole] && r != role ensures PasswordOf(m, r) != pwd {}
      assert ViewRole in [ViewRole, StandardRole, AdminRole];
      assert StandardRole in [ViewRole, StandardRole, AdminRole];
      assert AdminRole in [ViewRole, StandardRole, AdminRole];
    }
  }

  /** What a request may become: a decided one stays as it is, and nobody changes whose it is. */
  predicate Settles(r: Request, r': Request) {
    (r.status != Pending ==> r' == r) && r'.client == r.client && r'.created == r.created
  }

  lemma CleaningSettles(m: Manager, now: int, id: string)
    requires id in Cleaned(m, now).requests
    ensures id in m.requests && Settles(m.requests[id], Cleaned(m, now).requests[id])
  {
    assert Cleaned(m, now).requests[id] == Aged(m.requests[id], now);
  }

  lemma LoginSettles(m: Manager, pwd: string, key: string, token: string, now: int)
    ensures Login(m, pwd, key, token, now).0.requests == m.requests
  {
    LoginFrame(m, pwd, key, token, now);
  }

  lemma CreationSettles(m: Manager, client: string, fresh': string, now: int, id: string)
    requires id in m.requests && id != fresh'
    ensures id in WithRequest(m, client, fresh', now).requests
    ensures WithRequest(m, client, fresh', now).requests[id] == m.requests[id]
  {
  }

  lemma ApprovalSettles(m: Manager, other: string, role: Role, token: string, now: int, id: string)
    requires id in m.requests
    ensures id in WithApproval(m, other, role, token, now).requests
    ensures Settles(m.requests[id], WithApproval(m, other, role, token, now).requests[id])
  {
  }

  lemma RejectionSettles(m: Manager, other: string, id: string)
    requires id in m.requests
    ensures id in WithRejection(m, other).requests
    ensures Settles(m.requests[id], WithRejection(m, other).requests[id])
  {
  }

  /** A poll never lapses a request by itself: the clean-up before it has lapsed all that are a minute old. */
  lemma PollOnlyCleans(m: Manager, id: string, now: int)
    ensures Step(m, Poll(id), now) == Cleaned(m, now)
  {
    var c := Cleaned(m, now);
    if id in c.requests { assert c.requests[id] == Aged(m.requests[id], now); }
  }

  lemma PollSettles(m: Manager, other: string, now: int, id: string)
    requires id in m.requests
    ensures id in WithPoll(m, other, now).requests
    ensures Settles(m.requests[id], WithPoll(m, other, now).requests[id])
  {
  }

  /** A decided request keeps its decision, and the token it was decided with, for as long as it is remembered. */
  lemma DecisionsAreFinal(m: Manager, ev: Event, now: int, id: string)
    requires id in m.requests && id in Step(m, ev, now).requests
    ensures Settles(m.requests[id], Step(m, ev, now).requests[id])
  {
    var c := Cleaned(m, now);
    if id in c.requests { CleaningSettles(m, now, id); }
    match ev
    case Attempt(pwd, key, token) => LoginSettles(c, pwd, key, token, now);
    case CreateRequest(client, other) =>
      if other !in m.requests && id in c.requests { CreationSettles(c, client, other, now, id); }
    case Approve(other, role, token) =>
      if role != NoRole && id in c.requests { ApprovalSettles(c, other, role, token, now, id); }
    case Reject(other) =>
      if id in c.requests { RejectionSettles(c, other, id); }
    case Poll(other) =>
      if id in c.requests { PollSettles(c, other, now, id); }
    case _ =>
  }

  // ---------------------------------------------------------------- the throttle

  /** An operation and the time of it. */
  type Timed = (Event, int)

  ghost predicate Ordered(events: seq<Timed>) {
    forall i, j | 0 <= i < j < |events| :: events[i].1 <= events[j].1
  }

  function Run(m: Manager, events: seq<Timed>): Manager {
    if events == [] then m
    else
      var k := |events| - 1;
      Step(Run(m, events[..k]), events[k].0, events[k].1)
  }

  /** Wrong passwords compared for one key since its last successful login, by time. */
  function Wrongs(m: Manager, events: seq<Timed>, key: string): seq<int> {
    if events == [] then []
    else
      var k := |events| - 1;
      Noted(Run(m, events[..k]), events[k], key, Wrongs(m, events[..k], key))
  }

  function Noted(m: Manager, e: Timed, key: string, wrongs: seq<int>): seq<int> {
    if !e.0.Attempt? || e.0.key != key then wrongs
    else
      match Login(Cleaned(m, e.1), e.0.pwd, key, e.0.token, e.1).1
      case Refused => wrongs
      case Wrong => wrongs + [e.1]
      case Accepted(_, _) => []
  }

  /** How many fall in the minute that starts at `a`, its end excluded. */
  function Within(times: seq<int>, a: int): nat {
    Between(times, a, a + MINUTE)
  }

  function RecordOf(m: Manager, key: string): Option<Failures> {
    if key in m.failures then Some(m.failures[key]) else None
  }

  /** What the record of a key can look like at a moment. */
  predicate Sane(record: Option<Failures>, now: int) {
    match record
    case None => true
    case Some(f) =>
      && 1 <= f.count <= ATTEMPTS && f.started <= now
      && (f.count < ATTEMPTS ==> f.blockedUntil <= f.started)
      && (f.count == ATTEMPTS ==> f.started + MINUTE <= f.blockedUntil)
  }

  /** How many more wrong passwords can be compared before `end`, at most a minute away. */
  function Left(record: Option<Failures>, now: int, end: int): int {
    match record
    case None => ATTEMPTS
    case Some(f) =>
      if f.blockedUntil >= end then 0
      else if now - f.started >= MINUTE || f.count == ATTEMPTS then ATTEMPTS
      else if f.started + MINUTE >= end then ATTEMPTS - f.count
      else 2 * ATTEMPTS - 1 - f.count
  }

  function WindowOf(record: Option<Failures>, now: int): Failures {
    match record
    case None => Failures(0, now, now)
    case Some(f) => if now - f.started >= MINUTE then Failures(0, now, f.blockedUntil) else f
  }

  /** Waiting, and forgetting a record that is two minutes old, give no one an attempt. */
  lemma TimePasses(m: Manager, key: string, now: int, later: int, end: int)
    requires Sane(RecordOf(m, key), now) && now <= later < end
    ensures Sane(RecordOf(m, key), later) && Sane(RecordOf(Cleaned(m, later), key), later)
    ensures Left(RecordOf(m, key), later, end) <= Left(RecordOf(m, key), now, end)
    ensures Left(RecordOf(Cleaned(m, later), key), later, end) <= Left(RecordOf(m, key), now, end)
  {
  }

  /** A wrong password uses up one attempt. */
  lemma WrongSpends(record: Option<Failures>, now: int, end: int)
    requires Sane(record, now) && now < end <= now + MINUTE
    requires record.Some? ==> now >= record.value.blockedUntil
    ensures var after := Some(Counted(WindowOf(record, now), now));
      Sane(after, now) && Left(after, now, end) + 1 <= Left(record, now, end)
  {
  }

  /** What a login leaves of the record it is counted in. */
  lemma LoginRecord(m: Manager, pwd: string, key: string, token: string, now: int)
    ensures var (m', verdict) := Login(m, pwd, key, token, now);
      match verdict
      case Refused => m' == m
      case Wrong =>
        && RecordOf(m', key) == Some(Counted(WindowOf(RecordOf(m, key), now), now))
        && (key in m.failures ==> now >= m.failures[key].blockedUntil)
      case Accepted(_, _) => RecordOf(m', key) == None
  {
  }

  /** Attempts used so far and attempts left, within a bound. */
  ghost predicate Budget(record: Option<Failures>, now: int, end: int, wrongs: seq<int>, bound: int) {
    Sane(record, now) && |wrongs| + Left(record, now, end) <= bound
  }

  lemma AttemptSpends(m: Manager, e: Timed, key: string, now: int, end: int, wrongs: seq<int>, bound: int)
    requires Budget(RecordOf(m, key), now, end, wrongs, bound) && ATTEMPTS <= bound
    requires now <= e.1 < end <= e.1 + MINUTE && e.0.Attempt? && e.0.key == key
    ensures Budget(RecordOf(Step(m, e.0, e.1), key), e.1, end, Noted(m, e, key, wrongs), bound)
  {
    var c := Cleaned(m, e.1);
    TimePasses(m, key, now, e.1, end);
    LoginRecord(c, e.0.pwd, key, e.0.token, e.1);
    match Login(c, e.0.pwd, key, e.0.token, e.1).1
    case Refused =>
    case Wrong => WrongSpends(RecordOf(c, key), e.1, end);
    case Accepted(_, _) =>
  }

  lemma StepSpends(m: Manager, e: Timed, key: string, now: int, end: int, wrongs: seq<int>, bound: int)
    requires Budget(RecordOf(m, key), now, end, wrongs, bound) && ATTEMPTS <= bound && now <= e.1 < end <= e.1 + MINUTE
    ensures Budget(RecordOf(Step(m, e.0, e.1), key), e.1, end, Noted(m, e, key, wrongs), bound)
  {
    if e.0.Attempt? && e.0.key == key {
      AttemptSpends(m, e, key, now, end, wrongs, bound);
    } else {
      TimePasses(m, key, now, e.1, end);
      OthersLeaveRecord(m, e, key);
    }
  }

  lemma OthersLeaveRecord(m: Manager, e: Timed, key: string)
    requires !(e.0.Attempt? && e.0.key == key)
    ensures var r := RecordOf(Step(m, e.0, e.1), key); r == RecordOf(m, key) || r == RecordOf(Cleaned(m, e.1), key)
  {
    var c := Cleaned(m, e.1);
    match e.0
    case Attempt(pwd, other, token) => OtherLogin(c, pwd, other, token, e.1, key);
    case CreateRequest(_, _) => RequestsLeaveFailures(c, e.0, e.1);
    case Approve(_, _, _) => RequestsLeaveFailures(c, e.0, e.1);
    case Reject(_) => RequestsLeaveFailures(c, e.0, e.1);
    case Poll(_) => RequestsLeaveFailures(c, e.0, e.1);
    case _ => PasswordsLeaveFailures(m, e.0, e.1);
  }

  lemma RequestsLeaveFailures(c: Manager, ev: Event, now: int)
    ensures ev.CreateRequest? ==> WithRequest(c, ev.client, ev.id, now).failures == c.failures
    ensures ev.Approve? ==> WithApproval(c, ev.id, ev.role, ev.token, now).failures == c.failures
    ensures ev.Reject? ==> WithRejection(c, ev.id).failures == c.failures
    ensures ev.Poll? ==> WithPoll(c, ev.id, now).failures == c.failures
  {
  }

  lemma PasswordsLeaveFailures(m: Manager, ev: Event, now: int)
    ensures ev.ApplyPasswords? || ev.SetPassword? || ev.InitPasswords? || ev.Revoke? ==>
      Step(m, ev, now).failures == m.failures
  {
  }

  lemma OtherLogin(m: Manager, pwd: string, other: string, token: string, now: int, key: string)
    requires other != key
    ensures RecordOf(Login(m, pwd, other, token, now).0, key) == RecordOf(m, key)
  {
  }

  // ---------------------------------------------------------------- one minute

  /** Operations of the minute that starts at `a`, its end excluded. */
  ghost predicate InMinute(events: seq<Timed>, a: int) {
    Ordered(events) && forall e | e in events :: a <= e.1 < a + MINUTE
  }

  /** The window of the record began less than a minute before `a` and has room left. */
  predicate Roomy(record: Option<Failures>, a: int) {
    record.Some? && a - MINUTE < record.value.started < a && record.value.count <= ATTEMPTS - 2
  }

  /** The most wrong passwords of one minute: the rest of an old window and a whole new one, or one window. */
  function Room(record: Option<Failures>, a: int): int {
    if Roomy(record, a) then 2 * ATTEMPTS - 1 - record.value.count else ATTEMPTS
  }

  lemma RoomSuffices(record: Option<Failures>, a: int)
    requires Sane(record, a)
    ensures Budget(record, a, a + MINUTE, [], Room(record, a)) && ATTEMPTS <= Room(record, a)
  {
  }

  lemma {:induction false} RunSpends(m: Manager, events: seq<Timed>, key: string, a: int, bound: int)
    requires Budget(RecordOf(m, key), a, a + MINUTE, [], bound) && ATTEMPTS <= bound && InMinute(events, a)
    ensures var now := if events == [] then a else events[|events| - 1].1;
      Budget(RecordOf(Run(m, events), key), now, a + MINUTE, Wrongs(m, events, key), bound)
  {
    if events == [] {
    } else {
      var before, e := events[..|events| - 1], events[|events| - 1];
      assert e in events && forall x | x in before :: x in events;
      RunSpends(m, before, key, a, bound);
      var now: int := if before == [] then a else before[|before| - 1].1;
      StepSpends(Run(m, before), e, key, now, a + MINUTE, Wrongs(m, before, key), bound);
    }
  }

  /** All times are at most `a`. */
  ghost predicate Before(events: seq<Timed>, a: int) {
    Ordered(events) && forall e | e in events :: e.1 <= a
  }

  lemma {:induction false} RunStaysSane(m: Manager, events: seq<Timed>, key: string, a: int)
    requires m.failures == map[] && Before(events, a)
    ensures Sane(RecordOf(Run(m, events), key), a)
  {
    if events == [] {
    } else {
      var k := |events| - 1;
      var e, before := events[k], Run(m, events[..k]);
      assert e in events && forall x | x in events[..k] :: x in events;
      RunStaysSane(m, events[..k], key, e.1);
      var bound := Room(RecordOf(before, key), e.1);
      StepSpends(before, e, key, e.1, e.1 + MINUTE, [], bound);
      TimeKeepsSane(RecordOf(Run(m, events), key), e.1, a);
    }
  }

  lemma TimeKeepsSane(record: Option<Failures>, now: int, later: int)
    requires Sane(record, now) && now <= later
    ensures Sane(record, later)
  {
  }

  // The bound is met: wrong passwords until one is left in the old window, and five when it ends.

  function Failing(times: seq<int>, key: string): (events: seq<Timed>)
    ensures |events| == |times| && forall i | 0 <= i < |times| :: events[i] == (Attempt("", key, ""), times[i])
  {
    seq(|times|, i requires 0 <= i < |times| => (Attempt("", key, ""), times[i]))
  }

  function Same(t: int, k: nat): (times: seq<int>)
    ensures |times| == k && forall i | 0 <= i < k :: times[i] == t
  {
    seq(k, _ => t)
  }

  lemma FailOnce(m: Manager, before: seq<Timed>, key: string, t: int)
    requires var r := RecordOf(Run(m, before), key);
      r.Some? ==> r.value.blockedUntil <= t <= r.value.started + 2 * MINUTE
    requires key !in Run(m, before).failures ==> Run(m, before).failures == map[]
    ensures var all := before + Failing([t], key);
      && RecordOf(Run(m, all), key) == Some(Counted(WindowOf(RecordOf(Run(m, before), key), t), t))
      && Wrongs(m, all, key) == Wrongs(m, before, key) + [t]
  {
    var all, n := before + Failing([t], key), Run(m, before);
    assert all[..|all| - 1] == before && all[|all| - 1] == (Attempt("", key, ""), t);
    var c := Cleaned(n, t);
    assert RecordOf(c, key) == RecordOf(n, key);
    assert key !in c.failures ==> c.failures == map[];
    LoginRecord(c, "", key, "", t);
  }

  /** A record after `k` more failures at moment `t` of its window. */
  function Later(f: Failures, t: int, k: nat): Failures {
    Failures(f.count + k, f.started, if k > 0 && f.count + k >= ATTEMPTS then t + MINUTE else f.blockedUntil)
  }

  lemma OneLater(f: Failures, t: int, k: nat)
    requires 0 <= t - f.started < MINUTE && f.count + k < ATTEMPTS
    ensures Counted(WindowOf(Some(Later(f, t, k)), t), t) == Later(f, t, k + 1)
  {
  }

  /** `k` more failures at one moment of an open window that has room for them. */
  lemma {:induction false} FailOften(m: Manager, before: seq<Timed>, key: string, t: int, k: nat, f: Failures)
    requires RecordOf(Run(m, before), key) == Some(f) && f.blockedUntil <= t && 0 <= t - f.started < MINUTE
    requires f.count + k <= ATTEMPTS
    ensures RecordOf(Run(m, before + Failing(Same(t, k), key)), key) == Some(Later(f, t, k))
    ensures Wrongs(m, before + Failing(Same(t, k), key), key) == Wrongs(m, before, key) + Same(t, k)
  {
    if k == 0 {
      assert before + Failing(Same(t, 0), key) == before;
      assert Wrongs(m, before, key) + Same(t, 0) == Wrongs(m, before, key);
    } else {
      var fewer := before + Failing(Same(t, k - 1), key);
      FailOften(m, before, key, t, k - 1, f);
      FailOnce(m, fewer, key, t);
      OneLater(f, t, k - 1);
      SameGrows(before, Wrongs(m, before, key), key, t, k - 1);
    }
  }

  lemma SameGrows(before: seq<Timed>, wrongs: seq<int>, key: string, t: int, k: nat)
    ensures before + Failing(Same(t, k), key) + Failing([t], key) == before + Failing(Same(t, k + 1), key)
    ensures wrongs + Same(t, k) + [t] == wrongs + Same(t, k + 1)
  {
  }

  function FillTimes(f: Failures, a: int): seq<int>
    requires f.count < ATTEMPTS
  {
    Same(a, ATTEMPTS - 1 - f.count) + [f.started + MINUTE] + Same(f.started + MINUTE, ATTEMPTS - 1)
  }

  lemma FailingAppend(before: seq<Timed>, x: seq<int>, y: seq<int>, key: string)
    ensures before + Failing(x + y, key) == before + Failing(x, key) + Failing(y, key)
  {
  }

  /** The window runs out, and a new one begins at its end. */
  lemma NewWindow(m: Manager, before: seq<Timed>, key: string, f: Failures, next: int, w: seq<int>)
    requires RecordOf(Run(m, before), key) == Some(f) && f.blockedUntil <= f.started && next == f.started + MINUTE
    requires Wrongs(m, before, key) == w
    ensures var all := before + Failing([next], key) + Failing(Same(next, ATTEMPTS - 1), key);
      Wrongs(m, all, key) == w + [next] + Same(next, ATTEMPTS - 1)
  {
    FailOnce(m, before, key, next);
    FailOften(m, before + Failing([next], key), key, next, ATTEMPTS - 1, Failures(1, next, f.blockedUntil));
  }

  lemma FillsParts(m: Manager, before: seq<Timed>, key: string, a: int, f: Failures)
    requires RecordOf(Run(m, before), key) == Some(f) && Sane(Some(f), a) && Roomy(Some(f), a)
    ensures var k, next := ATTEMPTS - 1 - f.count, f.started + MINUTE;
      var all := before + Failing(Same(a, k), key) + Failing([next], key) + Failing(Same(next, ATTEMPTS - 1), key);
      Wrongs(m, all, key) == Wrongs(m, before, key) + Same(a, k) + [next] + Same(next, ATTEMPTS - 1)
  {
    var k, next := ATTEMPTS - 1 - f.count, f.started + MINUTE;
    var w := Wrongs(m, before, key) + Same(a, k);
    FailsUp(m, before, key, a, f, k);
    NewWindow(m, before + Failing(Same(a, k), key), key, Failures(ATTEMPTS - 1, f.started, f.blockedUntil), next, w);
  }

  lemma Fills(m: Manager, before: seq<Timed>, key: string, a: int, f: Failures)
    requires RecordOf(Run(m, before), key) == Some(f) && Sane(Some(f), a) && Roomy(Some(f), a)
    ensures Wrongs(m, before + Failing(FillTimes(f, a), key), key) == Wrongs(m, before, key) + FillTimes(f, a)
  {
    FillsParts(m, before, key, a, f);
    FillSplits(before, Wrongs(m, before, key), key, a, f);
  }

  /** The old window but for one. */
  lemma FailsUp(m: Manager, before: seq<Timed>, key: string, a: int, f: Failures, k: nat)
    requires RecordOf(Run(m, before), key) == Some(f) && f.count + k == ATTEMPTS - 1
    requires f.blockedUntil <= a && 0 <= a - f.started < MINUTE
    ensures RecordOf(Run(m, before + Failing(Same(a, k), key)), key)
         == Some(Failures(ATTEMPTS - 1, f.started, f.blockedUntil))
    ensures Wrongs(m, before + Failing(Same(a, k), key), key) == Wrongs(m, before, key) + Same(a, k)
  {
    assert Later(f, a, k) == Failures(ATTEMPTS - 1, f.started, f.blockedUntil);
    FailOften(m, before, key, a, k, f);
  }

  lemma FillSplits(before: seq<Timed>, wrongs: seq<int>, key: string, a: int, f: Failures)
    requires f.count < ATTEMPTS
    ensures var k, next := ATTEMPTS - 1 - f.count, f.started + MINUTE;
      && before + Failing(FillTimes(f, a), key)
         == before + Failing(Same(a, k), key) + Failing([next], key) + Failing(Same(next, ATTEMPTS - 1), key)
      && wrongs + FillTimes(f, a) == wrongs + Same(a, k) + [next] + Same(next, ATTEMPTS - 1)
  {
    var k, next := ATTEMPTS - 1 - f.count, f.started + MINUTE;
    FailingAppend(before, Same(a, k) + [next], Same(next, ATTEMPTS - 1), key);
    FailingAppend(before, Same(a, k), [next], key);
  }

  lemma FillsMinute(f: Failures, a: int, key: string)
    requires Sane(Some(f), a) && Roomy(Some(f), a)
    ensures InMinute(Failing(FillTimes(f, a), key), a)
  {
    var times, events := FillTimes(f, a), Failing(FillTimes(f, a), key);
    assert forall i | 0 <= i < |times| :: times[i] == a || times[i] == f.started + MINUTE;
    forall e | e in events ensures a <= e.1 < a + MINUTE {
      var i :| 0 <= i < |events| && events[i] == e;
      assert events[i].1 == times[i];
    }
    assert forall i, j | 0 <= i < j < |times| :: times[i] <= times[j];
  }

  lemma MinuteBounded(n: Manager, after: seq<Timed>, key: string, a: int)
    requires Sane(RecordOf(n, key), a) && InMinute(after, a)
    ensures |Wrongs(n, after, key)| <= Room(RecordOf(n, key), a)
  {
    var r := RecordOf(n, key);
    RoomSuffices(r, a);
    RunSpends(n, after, key, a, Room(r, a));
    var now: int := if after == [] then a else after[|after| - 1].1;
    LeftIsNatural(RecordOf(Run(n, after), key), now, a + MINUTE);
  }

  lemma MinuteFilled(n: Manager, key: string, a: int) returns (after: seq<Timed>)
    requires Sane(RecordOf(n, key), a) && Roomy(RecordOf(n, key), a)
    ensures InMinute(after, a) && |Wrongs(n, after, key)| == Room(RecordOf(n, key), a)
  {
    var f := RecordOf(n, key).value;
    after := Failing(FillTimes(f, a), key);
    FillsMinute(f, a, key);
    Fills(n, [], key, a, f);
    assert [] + after == after;
  }

  /**
   The throttle over every run, whatever other keys, clean-ups and password changes do.  How many wrong passwords
   can be compared for a key in the minute that starts at `a`, without a success among them, can be told from the
   key's record at `a`: the promised five, unless the record's window began before `a`, less than a minute ago, and
   counts at most three; then all the rest of it but one, and five more.
   */
  lemma MinuteExactly(m: Manager, before: seq<Timed>, key: string, a: int)
    requires m.failures == map[] && Before(before, a)
    ensures var n := Run(m, before); var r := RecordOf(n, key);
      && (forall after | InMinute(after, a) :: |Wrongs(n, after, key)| <= Room(r, a))
      && ((exists after :: InMinute(after, a) && |Wrongs(n, after, key)| > ATTEMPTS) <==> Roomy(r, a))
      && (Roomy(r, a) ==> exists after :: InMinute(after, a) && |Wrongs(n, after, key)| == Room(r, a))
  {
    var n := Run(m, before);
    RunStaysSane(m, before, key, a);
    forall after: seq<Timed> | InMinute(after, a) ensures |Wrongs(n, after, key)| <= Room(RecordOf(n, key), a) {
      MinuteBounded(n, after, key, a);
    }
    if Roomy(RecordOf(n, key), a) {
      var after := MinuteFilled(n, key, a);
      assert InMinute(after, a) && |Wrongs(n, after, key)| > ATTEMPTS;
    }
  }

  lemma LeftIsNatural(record: Option<Failures>, now: int, end: int)
    requires Sane(record, now)
    ensures Left(record, now, end) >= 0
  {
  }

  // ---------------------------------------------------------------- every minute of a run

  lemma {:induction false} RunAppend(m: Manager, a: seq<Timed>, b: seq<Timed>)
    ensures Run(m, a + b) == Run(Run(m, a), b)
  {
    if b == [] {
      assert a + b == a;
    } else {
      assert (a + b)[..|a + b| - 1] == a + b[..|b| - 1];
      RunAppend(m, a, b[..|b| - 1]);
    }
  }

  lemma {:induction false} WrongsAreEarlier(m: Manager, events: seq<Timed>, key: string, a: int)
    requires forall e | e in events :: e.1 < a
    ensures Within(Wrongs(m, events, key), a) == 0
  {
    if events == [] {
    } else {
      var k := |events| - 1;
      assert events[k] in events && forall e | e in events[..k] :: e in events;
      WrongsAreEarlier(m, events[..k], key, a);
      Appended(Wrongs(m, events[..k], key), events[k].1, a, a + MINUTE);
    }
  }

  lemma WrongsStep(m: Manager, before: seq<Timed>, e: Timed, key: string)
    ensures Run(m, before + [e]) == Step(Run(m, before), e.0, e.1)
    ensures Wrongs(m, before + [e], key) == Noted(Run(m, before), e, key, Wrongs(m, before, key))
  {
    var all := before + [e];
    assert all[..|all| - 1] == before;
  }

  lemma NotedWithin(m: Manager, e: Timed, key: string, all: seq<int>, recent: seq<int>, a: int)
    requires Within(all, a) <= |recent|
    ensures Within(Noted(m, e, key, all), a) <= |Noted(m, e, key, recent)|
  {
    Appended(all, e.1, a, a + MINUTE);
  }

  /** One more event, counted in the whole run and from `a` on. */
  lemma OneMoreWithin(m: Manager, before: seq<Timed>, after: seq<Timed>, e: Timed, key: string, a: int)
    requires Within(Wrongs(m, before + after, key), a) <= |Wrongs(Run(m, before), after, key)|
    ensures Within(Wrongs(m, before + after + [e], key), a) <= |Wrongs(Run(m, before), after + [e], key)|
  {
    var n := Run(m, before);
    WrongsStep(m, before + after, e, key);
    WrongsStep(n, after, e, key);
    RunAppend(m, before, after);
    NotedWithin(Run(n, after), e, key, Wrongs(m, before + after, key), Wrongs(n, after, key), a);
  }

  /** What was compared since `a` is counted from the state at `a` on. */
  lemma {:induction false} WithinFrom(m: Manager, before: seq<Timed>, after: seq<Timed>, key: string, a: int)
    requires forall e | e in before :: e.1 < a
    ensures Within(Wrongs(m, before + after, key), a) <= |Wrongs(Run(m, before), after, key)|
  {
    if after == [] {
      assert before + after == before;
      WrongsAreEarlier(m, before, key, a);
    } else {
      var init, e := after[..|after| - 1], after[|after| - 1];
      WithinFrom(m, before, init, key, a);
      OneMoreWithin(m, before, init, e, key, a);
      LastApart(before, after);
      LastApart([], after);
      assert [] + after == after && [] + init == init;
    }
  }

  lemma OneLaterWithin(m: Manager, before: seq<Timed>, e: Timed, key: string, a: int)
    requires e.1 >= a + MINUTE
    ensures Within(Wrongs(m, before + [e], key), a) <= Within(Wrongs(m, before, key), a)
  {
    WrongsStep(m, before, e, key);
    Appended(Wrongs(m, before, key), e.1, a, a + MINUTE);
  }

  /** What comes after the minute does not count in it. */
  lemma {:induction false} WithinUntil(m: Manager, before: seq<Timed>, after: seq<Timed>, key: string, a: int)
    requires forall e | e in after :: e.1 >= a + MINUTE
    ensures Within(Wrongs(m, before + after, key), a) <= Within(Wrongs(m, before, key), a)
  {
    if after == [] {
      assert before + after == before;
    } else {
      var init, e := after[..|after| - 1], after[|after| - 1];
      assert e in after && forall x | x in init :: x in after;
      WithinUntil(m, before, init, key, a);
      OneLaterWithin(m, before + init, e, key, a);
      LastApart(before, after);
    }
  }

  /** Where the first event at or after `t` stands. */
  lemma {:induction false} CutAt(events: seq<Timed>, t: int) returns (i: nat)
    requires Ordered(events)
    ensures i <= |events|
    ensures (forall j | 0 <= j < i :: events[j].1 < t) && forall j | i <= j < |events| :: events[j].1 >= t
  {
    if events == [] || events[0].1 >= t {
      i := 0;
    } else {
      assert Ordered(events[1..]);
      i := CutAt(events[1..], t);
      i := i + 1;
    }
  }

  lemma SplitMinute(events: seq<Timed>, a: int) returns (before: seq<Timed>, during: seq<Timed>, after: seq<Timed>)
    requires Ordered(events)
    ensures events == before + during + after && Before(before, a) && InMinute(during, a)
    ensures (forall e | e in before :: e.1 < a) && forall e | e in after :: e.1 >= a + MINUTE
  {
    var i := CutAt(events, a);
    before, after := events[..i], events[i..];
    assert Ordered(after);
    var j := CutAt(after, a + MINUTE);
    during, after := after[..j], after[j..];
  }

  /**
   So over every run any half-open minute without a successful login for a key sees at most eight wrong passwords
   compared for it, and the record of the key never counts more than five.
   */
  lemma ThrottleBound(m: Manager, events: seq<Timed>, key: string, a: int)
    requires m.failures == map[] && Ordered(events)
    ensures Within(Wrongs(m, events, key), a) <= 8
    ensures key in Run(m, events).failures ==> Run(m, events).failures[key].count <= ATTEMPTS
  {
    var before, during, after := SplitMinute(events, a);
    WithinUntil(m, before + during, after, key, a);
    WithinFrom(m, before, during, key, a);
    RunStaysSane(m, before, key, a);
    MinuteBounded(Run(m, before), during, key, a);
    if events != [] { RunStaysSane(m, events, key, events[|events| - 1].1); }
  }

  const LATE: seq<int> := [0, 59999, 59999, 59999, 60000, 60000, 60000, 60000, 60000]

  lemma {:induction false} LateWithin(k: nat)
    requires k <= |LATE|
    ensures Within(LATE[..k], 59999) == if k == 0 then 0 else k - 1
  {
    if k == 0 {
    } else {
      LateWithin(k - 1);
      assert LATE[..k][..k - 1] == LATE[..k - 1];
    }
  }

  /** Eight are reached: one failure opens a window, three come late in it and five right after it. */
  lemma ThrottleBoundIsReached(m: Manager, key: string)
    requires m.failures == map[]
    ensures Ordered(Failing(LATE, key)) && Within(Wrongs(m, Failing(LATE, key), key), 59999) == 8
  {
    var one, f := Failing([0], key), Failures(1, 0, 0);
    FailOnce(m, [], key, 0);
    assert [] + one == one && [] + [0] == [0];
    Fills(m, one, key, 59999, f);
    LateIsFilled(key);
    LateWithin(|LATE|);
    assert LATE[..|LATE|] == LATE;
  }

  lemma LateIsFilled(key: string)
    ensures var times := FillTimes(Failures(1, 0, 0), 59999);
      [0] + times == LATE && Failing([0], key) + Failing(times, key) == Failing(LATE, key)
    ensures Ordered(Failing(LATE, key))
  {
    var times := FillTimes(Failures(1, 0, 0), 59999);
    assert [0] + times == LATE;
    assert forall i, j | 0 <= i < j < |LATE| :: LATE[i] <= LATE[j];
  }

  // ---------------------------------------------------------------- what a session grants

  /** The password opens a session of its role, for the key that used it, for a day. */
  ghost predicate OpenedByPassword(m: Manager, ev: Event, now: int, token: string, session: Session) {
    && ev.Attempt? && ev.token == token && session.role != NoRole
    && ev.pwd != "" && ev.pwd == PasswordOf(m, session.role)
    && session.client == ev.key && session.expires == now + 24 * 60 * MINUTE
  }

  /** The host approved a request that was waiting, with that role. */
  ghost predicate OpenedByApproval(m: Manager, ev: Event, now: int, token: string, session: Session) {
    && ev.Approve? && ev.token == token && session.role == ev.role != NoRole
    && ev.id in m.requests && m.requests[ev.id].status == Pending && now - m.requests[ev.id].created < MINUTE
    && session.client == m.requests[ev.id].client && session.expires == now + 24 * 60 * MINUTE
  }

  ghost predicate OpenedBy(m: Manager, ev: Event, now: int, token: string, session: Session) {
    OpenedByPassword(m, ev, now, token, session) || OpenedByApproval(m, ev, now, token, session)
  }

  /** The event leaves the session and the password of its role alone. */
  ghost predicate Spares(m: Manager, ev: Event, now: int, token: string) {
    var m' := Step(m, ev, now);
    && token in m.sessions && token in m'.sessions && m'.sessions[token] == m.sessions[token]
    && PasswordOf(m', m.sessions[token].role) == PasswordOf(m, m.sessions[token].role)
    && (ev.Revoke? ==> token !in ev.tokens)
  }

  lemma LoginOpens(m: Manager, ev: Event, now: int, token: string)
    requires ev.Attempt? && token in Step(m, ev, now).sessions
    ensures Spares(m, ev, now, token) || OpenedByPassword(m, ev, now, token, Step(m, ev, now).sessions[token])
  {
    LoginFrame(Cleaned(m, now), ev.pwd, ev.key, ev.token, now);
  }

  lemma ApprovalOpens(m: Manager, ev: Event, now: int, token: string)
    requires ev.Approve? && token in Step(m, ev, now).sessions
    ensures Spares(m, ev, now, token) || OpenedByApproval(m, ev, now, token, Step(m, ev, now).sessions[token])
  {
    var c := Cleaned(m, now);
    if ev.role != NoRole && ev.id in PendingIn(c.requests) {
      assert c.requests[ev.id] == Aged(m.requests[ev.id], now);
    }
  }

  lemma PasswordsEnd(m: Manager, ev: Event, now: int, token: string)
    requires ev.ApplyPasswords? || ev.SetPassword? || ev.InitPasswords? || ev.Revoke?
    requires token in Step(m, ev, now).sessions
    ensures Spares(m, ev, now, token)
  {
  }

  lemma RequestsSpare(m: Manager, ev: Event, now: int, token: string)
    requires ev.CreateRequest? || ev.Reject? || ev.Poll? || ev.Cleanup?
    requires token in Step(m, ev, now).sessions
    ensures Spares(m, ev, now, token)
  {
  }

  /** After every operation each session was there before, under an unchanged password, or has just been opened. */
  lemma SessionsAreEarned(m: Manager, ev: Event, now: int, token: string)
    requires token in Step(m, ev, now).sessions
    ensures Spares(m, ev, now, token) || OpenedBy(m, ev, now, token, Step(m, ev, now).sessions[token])
  {
    match ev
    case Attempt(_, _, _) => LoginOpens(m, ev, now, token);
    case Approve(_, _, _) => ApprovalOpens(m, ev, now, token);
    case CreateRequest(_, _) => RequestsSpare(m, ev, now, token);
    case Reject(_) => RequestsSpare(m, ev, now, token);
    case Poll(_) => RequestsSpare(m, ev, now, token);
    case Cleanup => RequestsSpare(m, ev, now, token);
    case _ => PasswordsEnd(m, ev, now, token);
  }

  /** The event neither changes the password of a role nor revokes a token. */
  ghost predicate Respects(m: Manager, e: Timed, token: string, role: Role) {
    && PasswordOf(Step(m, e.0, e.1), role) == PasswordOf(m, role)
    && (e.0.Revoke? ==> token !in e.0.tokens)
  }

  /** Some event opened the session, and every event since then has respected it. */
  ghost predicate Earned(m: Manager, events: seq<Timed>, token: string, session: Session) {
    events != [] &&
      var before, e := events[..|events| - 1], events[|events| - 1];
      || OpenedBy(Run(m, before), e.0, e.1, token, session)
      || (Earned(m, before, token, session) && Respects(Run(m, before), e, token, session.role))
  }

  /**
   Over every run from no sessions: each session that is present was opened by an attempt with the password that its
   role had at that moment, or by the approval of a waiting request with that role; since then its role's password
   has stayed the same and nobody revoked it.
   */
  lemma {:induction false} EverySessionIsEarned(m: Manager, events: seq<Timed>, token: string)
    requires m.sessions == map[] && token in Run(m, events).sessions
    ensures Earned(m, events, token, Run(m, events).sessions[token])
  {
    if events == [] {
    } else {
      var before, e := events[..|events| - 1], events[|events| - 1];
      SessionsAreEarned(Run(m, before), e.0, e.1, token);
      if Spares(Run(m, before), e.0, e.1, token) { EverySessionIsEarned(m, before, token); }
    }
  }

  /** A failed login is over its limit, or its key is one too many to remember. */
  ghost predicate Throttled(m: Manager, key: string, now: int) {
    var c := Cleaned(m, now);
    if key in c.failures then now < c.failures[key].blockedUntil else |c.failures| >= MAX_FAILURES
  }

  /** A role's password opens a session of that role whenever its key is not throttled and there is room. */
  lemma PasswordOpens(m: Manager, role: Role, key: string, token: string, now: int)
    requires Distinct(m.view, m.standard, m.admin) && role != NoRole && PasswordOf(m, role) != ""
    requires !Throttled(m, key, now) && |Cleaned(m, now).sessions| < MAX_SESSIONS
    ensures var m' := Step(m, Attempt(PasswordOf(m, role), key, token), now);
      && token in m'.sessions && m'.sessions[token] == Session(role, key, now + 24 * 60 * MINUTE)
      && key !in m'.failures
      && forall t | t in m.sessions && t != token && now < m.sessions[t].expires ::
           t in m'.sessions && m'.sessions[t] == m.sessions[t]
  {
    var c := Cleaned(m, now);
    MatchedLogin(c, role, key, token, now);
  }

  lemma MatchedLogin(m: Manager, role: Role, key: string, token: string, now: int)
    requires Distinct(m.view, m.standard, m.admin) && role != NoRole && PasswordOf(m, role) != ""
    requires if key in m.failures then now >= m.failures[key].blockedUntil else |m.failures| < MAX_FAILURES
    requires |m.sessions| < MAX_SESSIONS
    ensures Login(m, PasswordOf(m, role), key, token, now)
         == (m.(failures := m.failures - {key},
                sessions := m.sessions[token := Session(role, key, now + SESSION_LIFE)]),
             Accepted(role, Some(token)))
  {
    assert Compare(m, PasswordOf(m, role)) == role;
  }

  // ---------------------------------------------------------------- what each operation changes

  /** New passwords are those given, role by role, and end all sessions; refused ones change nothing. */
  lemma ApplyExactly(m: Manager, v: string, s: string, a: string, now: int)
    ensures var m' := Step(m, ApplyPasswords(v, s, a), now);
      if |v| <= 64 && |s| <= 64 && |a| <= 64 && (v == "" || (v != s && v != a)) && (s == "" || s != a) then
        && PasswordOf(m', ViewRole) == v && PasswordOf(m', StandardRole) == s && PasswordOf(m', AdminRole) == a
        && m'.sessions == map[] && m'.requests == m.requests && m'.failures == m.failures
      else m' == m
  {
  }

  /** One new password changes one role and ends just its sessions; refused, it changes nothing. */
  lemma SetExactly(m: Manager, role: Role, pwd: string, now: int)
    requires role != NoRole
    ensures var m' := Step(m, SetPassword(role, pwd), now);
      var clash := pwd != "" && exists r :: r != NoRole && r != role && PasswordOf(m, r) == pwd;
      if |pwd| <= 64 && !clash then
        && PasswordOf(m', role) == pwd && (forall r | r != role :: PasswordOf(m', r) == PasswordOf(m, r))
        && (forall t :: t in m'.sessions <==> t in m.sessions && m.sessions[t].role != role)
        && (forall t | t in m'.sessions :: m'.sessions[t] == m.sessions[t])
        && m'.requests == m.requests && m'.failures == m.failures
      else m' == m
  {
    assert forall r :: r != NoRole ==> r in [ViewRole, StandardRole, AdminRole] by {
      assert ViewRole in [ViewRole, StandardRole, AdminRole] && StandardRole in [ViewRole, StandardRole, AdminRole];
      assert AdminRole in [ViewRole, StandardRole, AdminRole];
    }
  }

  /** A clean-up removes just what has run out, and lapses just the requests that waited for a minute. */
  lemma CleaningExactly(m: Manager, now: int)
    ensures var m' := Step(m, Cleanup, now);
      && (forall t :: t in m'.sessions <==> t in m.sessions && now < m.sessions[t].expires)
      && (forall id :: id in m'.requests <==> id in m.requests && now - m.requests[id].created <= 5 * MINUTE)
      && (forall k :: k in m'.failures <==>
            k in m.failures && (now - m.failures[k].started <= 2 * MINUTE || now < m.failures[k].blockedUntil))
      && (forall id | id in m'.requests :: var r := m.requests[id];
            m'.requests[id] == if r.status == Pending && now - r.created >= MINUTE then r.(status := Lapsed) else r)
      && m'.view == m.view && m'.standard == m.standard && m'.admin == m.admin
  {
  }

  /** The request waits: it is at most a minute old and undecided. */
  predicate Waits(m: Manager, id: string, now: int) {
    id in m.requests && m.requests[id].status == Pending && now - m.requests[id].created < MINUTE
  }

  /** A decision decides a waiting request as it says, and opens a session for an approval. */
  lemma DecidedExactly(m: Manager, id: string, role: Role, token: string, now: int)
    requires Waits(m, id, now)
    ensures var m' := Step(m, Reject(id), now);
      id in m'.requests && m'.requests[id] == m.requests[id].(status := Rejected)
      && forall t | t in m'.sessions :: t in m.sessions
    ensures role != NoRole && |Cleaned(m, now).sessions| < MAX_SESSIONS ==>
      var m' := Step(m, Approve(id, role, token), now);
      && id in m'.requests && m'.requests[id] == m.requests[id].(status := Approved, role := role, token := token)
      && token in m'.sessions && m'.sessions[token] == Session(role, m.requests[id].client, now + 24 * 60 * MINUTE)
  {
    assert Cleaned(m, now).requests[id] == m.requests[id];
  }

  /** A new request waits from now on, unless its client has one waiting or too many are remembered. */
  lemma RequestedExactly(m: Manager, client: string, id: string, now: int)
    requires id !in m.requests
    ensures var m', c := Step(m, CreateRequest(client, id), now), Cleaned(m, now);
      var refused := (exists p :: Waits(m, p, now) && m.requests[p].client == client)
                     || |PendingIn(c.requests)| >= MAX_PENDING || |c.requests| >= MAX_REQUESTS;
      && (id in m'.requests <==> !refused)
      && (!refused ==> m'.requests[id] == Request(client, now, Pending, NoRole, "") && Waits(m', id, now))
      && (forall p | p in c.requests :: p in m'.requests && m'.requests[p] == c.requests[p])
  {
    var c := Cleaned(m, now);
    assert forall p | p in c.requests :: c.requests[p] == Aged(m.requests[p], now);
    assert forall p :: p in PendingIn(c.requests) <==> Waits(m, p, now);
  }

  // ---------------------------------------------------------------- the source's own form

  class AuthManager {
    var viewPwd: string
    var standardPwd: string
    var adminPwd: string
    var sessions: map<string, Session>
    var requests: map<string, Request>
    var failures: map<string, Failures>

    function View(): Manager
      reads this
    {
      Manager(viewPwd, standardPwd, adminPwd, sessions, requests, failures)
    }

    /** Three random passwords that differ. */
    constructor (v: string, s: string, a: string)
      requires Distinct(v, s, a)
      ensures View() == Manager(v, s, a, map[], map[], map[]) && Inv(View())
    {
      viewPwd, standardPwd, adminPwd := v, s, a;
      sessions, requests, failures := map[], map[], map[];
      new;
      assert PendingIn(requests) == {};
    }

    method DropSessions(now: int)
      modifies this`sessions
      ensures sessions == Cleaned(old(View()), now).sessions
    {
      var left := sessions.Keys;
      while left != {}
        invariant left <= old(sessions).Keys
        invariant sessions == map t | t in old(sessions)
            && (t in left || now < old(sessions)[t].expires) :: old(sessions)[t]
        decreases left
      {
        var t :| t in left;
        if !(now < sessions[t].expires) {
          sessions := sessions - {t};
        }
        left := left - {t};
      }
    }

    method AgeRequests(now: int)
      modifies this`requests
      ensures requests == Cleaned(old(View()), now).requests
    {
      var left := requests.Keys;
      while left != {}
        invariant left <= old(requests).Keys
        invariant requests.Keys == set id | id in old(requests)
                                           && (id in left || now - old(requests)[id].created <= 5 * MINUTE)
        invariant forall id | id in requests ::
                    requests[id] == if id in left then old(requests)[id] else Aged(old(requests)[id], now)
        decreases left
      {
        var id :| id in left;
        var r := requests[id];
        if r.status == Pending && now - r.created >= MINUTE {
          requests := requests[id := r.(status := Lapsed)];
        }
        if now - r.created > 5 * MINUTE {
          requests := requests - {id};
        }
        left := left - {id};
      }
    }

    method DropFailures(now: int)
      modifies this`failures
      ensures failures == Cleaned(old(View()), now).failures
    {
      var left := failures.Keys;
      while left != {}
        invariant left <= old(failures).Keys
        invariant failures == map k | k in old(failures)
                                      && ( || k in left || now - old(failures)[k].started <= 2 * MINUTE
                                           || now < old(failures)[k].blockedUntil) :: old(failures)[k]
        decreases left
      {
        var k :| k in left;
        var f := failures[k];
        if now - f.started > 2 * MINUTE && !(now < f.blockedUntil) {
          failures := failures - {k};
        }
        left := left - {k};
      }
    }

    method CleanupLocked(now: int)
      modifies this
      ensures View() == Cleaned(old(View()), now)
    {
      DropSessions(now);
      AgeRequests(now);
      DropFailures(now);
    }

    method AuthenticateByPassword(pwd: string, key: string, token: string, now: int) returns (v: Verdict)
      modifies this
      ensures (View(), v) == Login(Cleaned(old(View()), now), pwd, key, token, now)
    {
      CleanupLocked(now);
      if key in failures && now < failures[key].blockedUntil {
        return Refused;
      }
      if key !in failures && |failures| >= MAX_FAILURES {
        return Refused;
      }
      var f := if key in failures then failures[key] else Failures(0, now, now);
      if now - f.started >= MINUTE {
        f := f.(started := now, count := 0);
      }
      var role := Compare(View(), pwd);
      if role == NoRole {
        f := f.(count := f.count + 1);
        if f.count >= ATTEMPTS {
          f := f.(blockedUntil := now + MINUTE);
        }
        failures := failures[key := f];
        return Wrong;
      }
      failures := failures - {key};
      if |sessions| >= MAX_SESSIONS {
        return Accepted(role, None);
      }
      sessions := sessions[token := Session(role, key, now + SESSION_LIFE)];
      return Accepted(role, Some(token));
    }

    method ApplyPasswords(v: string, s: string, a: string) returns (ok: bool)
      modifies this
      ensures View() == WithPasswords(old(View()), v, s, a)
      ensures ok == AcceptablePasswords(v, s, a)
    {
      if |v| > 64 || |s| > 64 || |a| > 64 {
        return false;
      }
      if (v != "" && (v == s || v == a)) || (s != "" && s == a) {
        return false;
      }
      viewPwd, standardPwd, adminPwd := v, s, a;
      sessions := map[];
      return true;
    }

    static method DrawPin(given: string, draws: seq<Pin>, x: string, y: string)
      returns (r: Option<(string, seq<Pin>)>)
      ensures r == PinFor(given, draws, x, y)
    {
      if given != "" {
        return Some((given, draws));
      }
      var left := draws;
      while left != []
        invariant NextPin(draws, x, y) == NextPin(left, x, y)
        decreases |left|
      {
        if left[0] != x && left[0] != y {
          return Some((left[0], left[1..]));
        }
        left := left[1..];
      }
      return None;
    }

    static method DrawPins(v: string, s: string, a: string, draws: seq<Pin>)
      returns (pins: Option<(string, string, string)>)
      ensures pins == UniquePins(v, s, a, draws)
    {
      var first := DrawPin(v, draws, s, a);
      if first.None? {
        return None;
      }
      var second := DrawPin(s, first.value.1, first.value.0, a);
      if second.None? {
        return None;
      }
      var third := DrawPin(a, second.value.1, first.value.0, second.value.0);
      if third.None? {
        return None;
      }
      return Some((first.value.0, second.value.0, third.value.0));
    }

    method InitPasswords(v: string, s: string, a: string, draws: seq<Pin>) returns (ok: bool)
      modifies this
      ensures View() == WithPins(old(View()), v, s, a, draws)
      ensures ok <==> AcceptablePasswords(v, s, a) && UniquePins(v, s, a, draws).Some?
    {
      if |v| > 64 || |s| > 64 || |a| > 64 {
        return false;
      }
      if (v != "" && (v == s || v == a)) || (s != "" && s == a) {
        return false;
      }
      var pins := DrawPins(v, s, a, draws);
      if pins.None? {
        return false;
      }
      PinsDiffer(v, s, a, draws);
      ok := ApplyPasswords(pins.value.0, pins.value.1, pins.value.2);
    }

    method SetPassword(role: Role, pwd: string) returns (ok: bool)
      modifies this
      ensures View() == WithPassword(old(View()), role, pwd)
      ensures ok == (|pwd| <= 64 && role != NoRole && !ClashesWith(old(View()), role, pwd))
    {
      if |pwd| > 64 || role == NoRole {
        return false;
      }
      var roles := [ViewRole, StandardRole, AdminRole];
      for i := 0 to 3
        invariant forall j | 0 <= j < i :: !(roles[j] != role && pwd != "" && PasswordOf(View(), roles[j]) == pwd)
      {
        if roles[i] != role && pwd != "" && PasswordOf(View(), roles[i]) == pwd {
          return false;
        }
      }
      if role == ViewRole {
        viewPwd := pwd;
      } else if role == StandardRole {
        standardPwd := pwd;
      } else {
        adminPwd := pwd;
      }
      EndSessions(role);
      return true;
    }

    /** The loop over the sessions of one role. */
    method EndSessions(role: Role)
      modifies this`sessions
      ensures sessions == map t | t in old(sessions) && old(sessions)[t].role != role :: old(sessions)[t]
    {
      var left := sessions.Keys;
      while left != {}
        invariant left <= old(sessions).Keys
        invariant sessions == map t | t in old(sessions)
            && (t in left || old(sessions)[t].role != role) :: old(sessions)[t]
        decreases left
      {
        var t :| t in left;
        if sessions[t].role == role {
          sessions := sessions - {t};
        }
        left := left - {t};
      }
    }

    /** A waiting request of this client, or all that wait. */
    method ScanPending(client: string) returns (found: Option<string>, pending: set<string>)
      ensures found.Some? ==> found.value in PendingIn(requests) && requests[found.value].client == client
      ensures found.None? ==> pending == PendingIn(requests) && forall p | p in pending :: requests[p].client != client
    {
      pending, found := {}, None;
      var left := requests.Keys;
      while left != {}
        invariant left <= requests.Keys
        invariant pending == set p | p in PendingIn(requests) && p !in left
        invariant forall p | p in pending :: requests[p].client != client
        decreases left
      {
        var p :| p in left;
        if requests[p].status == Pending {
          if requests[p].client == client {
            return Some(p), pending;
          }
          pending := pending + {p};
        }
        left := left - {p};
      }
    }

    /** The identifier of the request now waiting for this client, if one is; `id` is a fresh random value. */
    method CreateRequest(client: string, id: string, now: int) returns (found: Option<string>)
      requires id !in requests
      modifies this
      ensures View() == WithRequest(Cleaned(old(View()), now), client, id, now)
      ensures found.Some? ==> found.value in PendingIn(requests) && requests[found.value].client == client
      ensures found.None? ==> View() == Cleaned(old(View()), now)
    {
      CleanupLocked(now);
      var known, pending := ScanPending(client);
      if known.Some? {
        return known;
      }
      if |pending| >= MAX_PENDING || |requests| >= MAX_REQUESTS {
        return None;
      }
      requests := requests[id := Request(client, now, Pending, NoRole, "")];
      return Some(id);
    }

    method ApproveRequest(id: string, role: Role, token: string, now: int) returns (ok: bool)
      modifies this
      ensures View() == Step(old(View()), Approve(id, role, token), now)
      ensures var c := Cleaned(old(View()), now);
        ok <==> role != NoRole && id in PendingIn(c.requests) && |c.sessions| < MAX_SESSIONS
    {
      if role == NoRole {
        return false;
      }
      CleanupLocked(now);
      if id !in requests || requests[id].status != Pending {
        return false;
      }
      if |sessions| >= MAX_SESSIONS {
        return false;
      }
      sessions := sessions[token := Session(role, requests[id].client, now + SESSION_LIFE)];
      requests := requests[id := requests[id].(status := Approved, role := role, token := token)];
      return true;
    }

    method RejectRequest(id: string, now: int) returns (ok: bool)
      modifies this
      ensures View() == WithRejection(Cleaned(old(View()), now), id)
      ensures ok <==> id in PendingIn(Cleaned(old(View()), now).requests)
    {
      CleanupLocked(now);
      if id !in requests || requests[id].status != Pending {
        return false;
      }
      requests := requests[id := requests[id].(status := Rejected)];
      return true;
    }

    method GetRequestStatus(id: string, now: int) returns (r: Option<Request>)
      modifies this
      ensures View() == Step(old(View()), Poll(id), now)
      ensures r == if id in requests then Some(requests[id]) else None
    {
      CleanupLocked(now);
      if id !in requests {
        return None;
      }
      LapseIfOld(id, now);
      return Some(requests[id]);
    }

    method LapseIfOld(id: string, now: int)
      requires id in requests
      modifies this`requests
      ensures View() == WithPoll(old(View()), id, now)
    {
      if requests[id].status == Pending && now - requests[id].created > MINUTE {
        requests := requests[id := requests[id].(status := Lapsed)];
      }
    }

    method RevokeToken(token: string)
      modifies this
      ensures View() == old(View()).(sessions := old(sessions) - {token})
    {
      sessions := sessions - {token};
    }
  }
}
