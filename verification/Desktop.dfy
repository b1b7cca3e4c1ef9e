/**
 The desktop hub (core/desktop/hub.go, core/desktop/security.go, core/desktop/native.go,
 core/input/input.go): many viewers, one of whom may inject input under a lease of two seconds.

 Every change of the controller happens under the input lock, so each operation is one atomic step.
 Session tokens come from the password manager; they may disappear at any moment.
 */
module Desktop {
  import opened Prelude

  type Id = nat

  const VIEW := 1
  const STANDARD := 2
  const ADMIN := 3
  const LEASE := 2000

  datatype Session = Session(role: int, expires: int)

  datatype Member = Member(token: string, role: int, authed: bool)

  datatype Input = Key(vk: int) | Button(button: int)

  /** Who pressed a tracked input, and under which tenure; the code tracks only that it is pressed. */
  datatype Press = Press(client: Id, tenure: nat)

  datatype Hub = Hub(
    sessions: map<string, Session>,
    issued: set<string>,       // every token there has been
    info: map<Id, Member>,     // every client there has been
    clients: set<Id>,          // those registered
    controller: Option<Id>,
    expiry: int,
    tenure: nat,               // how often control has been taken
    held: map<Input, Press>)

  const EMPTY := Hub(map[], {}, map[], {}, None, 0, 0, map[])

  datatype What = Move | Wheel | Text | Down(input: Input) | Up(input: Input)

  datatype Injection = Injection(client: Id, token: string, what: What)

  datatype Command =
    | AuthToken(token: string)
    | AuthLogin(token: string, role: int, expires: int)  // a password that matched, with the token issued for it
    | MouseMove
    | MouseButton(button: int, down: bool)
    | MouseWheel
    | KeyPress(vk: int, down: bool)
    | TypeText
    | Paste
    | SpecialKey(name: string)
    | ImageUpload(enabled: bool)
    | SwitchMonitor
    | TakeControl
    | ReleaseAllKeys
    | ReleaseControl
    | Other

  /** Clock, local activity, and whether each call to the system injected anything. */
  datatype Env = Env(now: int, local: bool, took: seq<bool>)

  function MemberOf(h: Hub, c: Id): Member {
    if c in h.info then h.info[c] else Member("", 0, false)
  }

  predicate Live(h: Hub, token: string, now: int) {
    token in h.sessions && now <= h.sessions[token].expires
  }

  predicate Valid(h: Hub, c: Id, now: int) {
    var m := MemberOf(h, c);
    m.authed && c in h.clients && Live(h, m.token, now) && h.sessions[m.token].role == m.role >= VIEW
  }

  predicate IsController(h: Hub, c: Id, now: int) {
    h.controller == Some(c) && now < h.expiry && Valid(h, c, now)
  }

  function Released(h: Hub): Hub {
    h.(held := map[])
  }

  function Free(h: Hub): Hub {
    h.(controller := None, expiry := 0, held := map[])
  }

  function Taken(h: Hub, c: Id, now: int): Hub {
    h.(controller := Some(c), expiry := now + LEASE, tenure := h.tenure + 1, held := map[])
  }

  datatype Decision = Granted | Denied | LocalActive

  function TryAcquire(h: Hub, c: Id, e: Env): (Hub, Decision) {
    if MemberOf(h, c).role < STANDARD || !Valid(h, c, e.now) then (h, Denied)
    else if e.local then (h, LocalActive)
    else if h.controller.None? || e.now > h.expiry then (Taken(h, c, e.now), Granted)
    else if h.controller == Some(c) then (h.(expiry := e.now + LEASE), Granted)
    else if MemberOf(h, c).role >= ADMIN && MemberOf(h, h.controller.value).role < ADMIN then
      (Taken(h, c, e.now), Granted)
    else (h, Denied)
  }

  // ---------------------------------------------------------------- input

  function Took(e: Env, i: nat): bool {
    i < |e.took| && e.took[i]
  }

  function Pressed(h: Hub, c: Id, input: Input, down: bool): Hub {
    h.(held := if down then h.held[input := Press(c, h.tenure)] else h.held - {input})
  }

  /** A list of key events, each of which the system may refuse. */
  function SendKeys(h: Hub, c: Id, keys: seq<(int, bool)>, took: seq<bool>): (Hub, seq<Injection>)
    decreases |keys|
  {
    if keys == [] then (h, [])
    else
      var (vk, down) := keys[0];
      var ok := took != [] && took[0];
      var rest := if took == [] then [] else took[1..];
      var one := if ok
        then [Injection(c, MemberOf(h, c).token, if down then Down(Key(vk)) else Up(Key(vk)))] else [];
      var (h', more) := SendKeys(if ok then Pressed(h, c, Key(vk), down) else h, c, keys[1..], rest);
      (h', one + more)
  }

  lemma SendKeysHead(h: Hub, c: Id, keys: seq<(int, bool)>, took: seq<bool>, log: seq<Injection>)
    requires keys != []
    ensures var (vk, down) := keys[0]; var ok := took != [] && took[0];
      var one := if ok then [Injection(c, MemberOf(h, c).token, if down then Down(Key(vk)) else Up(Key(vk)))] else [];
      var rest := SendKeys(if ok then Pressed(h, c, Key(vk), down) else h, c, keys[1..], if took == [] then []
          else took[1..]);
      SendKeys(h, c, keys, took).0 == rest.0 && log + SendKeys(h, c, keys, took).1 == log + one + rest.1
  {
  }

  const PASTE_KEYS: seq<(int, bool)> := [(0x11, true), (0x56, true), (0x56, false), (0x11, false)]

  const ALT_TAB: seq<(int, bool)> := [(0x12, true), (0x09, true), (0x09, false), (0x12, false)]

  function SpecialKeys(name: string): seq<(int, bool)> {
    match name
    case "win" => [(0x5B, true), (0x5B, false)]
    case "win_d" => [(0x5B, true), (0x44, true), (0x44, false), (0x5B, false)]
    case "alt_tab" => ALT_TAB
    case "ctrl_shift_esc" =>
      [(0x11, true), (0x10, true), (0x1B, true), (0x1B, false), (0x10, false), (0x11, false)]
    case _ => []
  }

  predicate AnyOf(pressed: set<Input>, vk: int, keys: seq<int>) {
    exists k | k in keys :: k == vk || Key(k) in pressed
  }

  /** The guard on a Standard user's key: would it complete a restricted combination? */
  predicate Blocked(pressed: set<Input>, vk: int, down: bool) {
    down &&
      var ctrl := AnyOf(pressed, vk, [0x11, 0xA2, 0xA3]);
      var shift := AnyOf(pressed, vk, [0x10, 0xA0, 0xA1]);
      var alt := AnyOf(pressed, vk, [0x12, 0xA4, 0xA5]);
      (ctrl && shift && AnyOf(pressed, vk, [0x1B])) || (ctrl && alt && AnyOf(pressed, vk, [0x2E]))
  }

  // ---------------------------------------------------------------- commands

  /** The role a command asks of its sender before it may even apply for control. */
  function RoleNeeded(cmd: Command): int {
    match cmd
    case SpecialKey(name) => if name == "ctrl_shift_esc" then ADMIN else STANDARD
    case TakeControl => 0
    case SwitchMonitor => 0
    case _ => STANDARD
  }

  predicate Applies(h: Hub, c: Id, cmd: Command, e: Env) {
    match cmd
    case AuthToken(_) => false
    case AuthLogin(_, _, _) => false
    case ReleaseAllKeys => false
    case ReleaseControl => false
    case Other => false
    case SpecialKey(name) => name != "ctrl_alt_del"
    case ImageUpload(enabled) => enabled && !e.local && MemberOf(h, c).role >= STANDARD && IsController(h, c, e.now)
    case _ => true
  }

  /** What a command does once its sender is the controller. */
  function Inject(h: Hub, c: Id, cmd: Command, e: Env): (Hub, seq<Injection>) {
    var token := MemberOf(h, c).token;
    match cmd
    case MouseMove => (h, if Took(e, 0) then [Injection(c, token, Move)] else [])
    case MouseWheel => (h, if Took(e, 0) then [Injection(c, token, Wheel)] else [])
    case TypeText => (h, if Took(e, 0) then [Injection(c, token, Text)] else [])
    case MouseButton(button, down) =>
      if 0 <= button <= 2 && Took(e, 0) then
        (Pressed(h, c, Button(button), down),
            [Injection(c, token, if down then Down(Button(button)) else Up(Button(button)))])
      else (h, [])
    case KeyPress(vk, down) =>
      if MemberOf(h, c).role < ADMIN && Blocked(h.held.Keys, vk, down) then (h, [])
      else SendKeys(h, c, [(vk, down)], e.took)
    case Paste => SendKeys(h, c, PASTE_KEYS, e.took)
    case SpecialKey(name) => SendKeys(h, c, SpecialKeys(name), e.took)
    case _ => (h, [])
  }

  function Admitted(h: Hub, c: Id, cmd: Command, now: int): Hub {
    match cmd
    case AuthToken(token) =>
      if token != "" && Live(h, token, now) then h.(info := h.info[c := Member(token, h.sessions[token].role, true)])
          else h
    case AuthLogin(token, role, expires) =>
      if token in h.issued || token == "" then h  // tokens are never issued twice
      else h.(sessions := h.sessions[token := Session(role, expires)], issued := h.issued + {token},
              info := h.info[c := Member(token, role, true)])
    case _ => h
  }

  function Execute(h: Hub, c: Id, cmd: Command, e: Env): (Hub, seq<Injection>) {
    var m := MemberOf(h, c);
    if c !in h.info || (m.authed && !Valid(h, c, e.now)) then (h, [])
    else if !m.authed then (Admitted(h, c, cmd, e.now), [])
    else if cmd == ReleaseAllKeys then
      (if m.role >= STANDARD && IsController(h, c, e.now) then Released(h) else h, [])
    else if cmd == ReleaseControl then (if h.controller == Some(c) then Free(h) else h, [])
    else if m.role < RoleNeeded(cmd) || !Applies(h, c, cmd, e) then (h, [])
    else
      var (h', decision) := TryAcquire(h, c, e);
      if decision == Granted then Inject(h', c, cmd, e) else (h', [])
  }

  // ---------------------------------------------------------------- the other operations

  function Unregistered(h: Hub, c: Id): Hub {
    if c !in h.clients then h
    else
      var h' := h.(clients := h.clients - {c});
      if h.controller == Some(c) then Free(h') else h'
  }

  function Kicked(h: Hub): Hub {
    Free(h.(clients := {}))
  }

  function Expired(h: Hub, now: int, local: bool): Hub {
    if h.controller.Some? && (now > h.expiry || !Valid(h, h.controller.value, now) || local) then Free(h) else h
  }

  function Regranted(h: Hub, c: Id, token: string, now: int): Hub {
    if !Live(h, token, now) || c !in h.clients then h
    else
      var h' := if h.controller == Some(c) then Free(h) else h;
      var old' := MemberOf(h, c).token;
      h'.(sessions := if old' != "" && old' != token then h.sessions - {old'} else h.sessions,
          info := h.info[c := Member(token, h.sessions[token].role, true)])
  }

  datatype Event =
    | Attach(c: Id)
    | Execution(c: Id, cmd: Command, e: Env)
    | Detach(c: Id)
    | KickAll
    | Expire(now: int, local: bool)
    | Grant(c: Id, token: string, now: int)
    | ReleaseInputs                      // capture recovery and the physical-input watcher
    | Issue(token: string, role: int, expires: int)
    | Drop(tokens: set<string>)          // revocation, password changes, clean-up

  function Step(h: Hub, ev: Event): (Hub, seq<Injection>) {
    match ev
    case Attach(c) =>
      (if c in h.info then h else h.(info := h.info[c := Member("", 0, false)], clients := h.clients + {c}), [])
    case Execution(c, cmd, e) => Execute(h, c, cmd, e)
    case Detach(c) => (Unregistered(h, c), [])
    case KickAll => (Kicked(h), [])
    case Expire(now, local) => (Expired(h, now, local), [])
    case Grant(c, token, now) => (Regranted(h, c, token, now), [])
    case ReleaseInputs => (Released(h), [])
    case Issue(token, role, expires) =>
      (if token in h.issued || token == "" then h
       else h.(sessions := h.sessions[token := Session(role, expires)], issued := h.issued + {token}), [])
    case Drop(tokens) => (h.(sessions := h.sessions - tokens), [])
  }

  /** The hub after a run, and everything injected on the way. */
  function Run(h: Hub, events: seq<Event>): (Hub, seq<Injection>)
    decreases |events|
  {
    if events == [] then (h, [])
    else
      var (h', one) := Step(h, events[0]);
      var (h'', more) := Run(h', events[1..]);
      (h'', one + more)
  }

  // ---------------------------------------------------------------- held inputs

  ghost predicate Inv(h: Hub) {
    && h.clients <= h.info.Keys && h.sessions.Keys <= h.issued && "" !in h.issued
    && (h.controller.Some? ==> h.controller.value in h.info)
    && (forall i | i in h.held :: h.controller == Some(h.held[i].client) && h.held[i].tenure == h.tenure)
  }

  lemma PressKeepsInv(h: Hub, c: Id, input: Input, down: bool)
    requires Inv(h) && h.controller == Some(c)
    ensures Inv(Pressed(h, c, input, down))
  {
  }

  /** Key events change nothing but what is held, and only in their sender's name. */
  lemma {:induction false} KeysAreOwn(h: Hub, c: Id, keys: seq<(int, bool)>, took: seq<bool>)
    requires Inv(h) && h.controller == Some(c)
    ensures var (h', log) := SendKeys(h, c, keys, took);
      && Inv(h') && h' == h.(held := h'.held)
      && forall x | x in log :: x.client == c && x.token == MemberOf(h, c).token
    decreases |keys|
  {
    if keys == [] {
    } else {
      var (vk, down) := keys[0];
      var ok := took != [] && took[0];
      PressKeepsInv(h, c, Key(vk), down);
      var h1 := if ok then Pressed(h, c, Key(vk), down) else h;
      assert h1 == h.(held := h1.held);
      KeysAreOwn(h1, c, keys[1..], if took == [] then [] else took[1..]);
    }
  }

  lemma InjectKeepsInv(h: Hub, c: Id, cmd: Command, e: Env)
    requires Inv(h) && h.controller == Some(c)
    ensures var (h', log) := Inject(h, c, cmd, e);
      && Inv(h') && h' == h.(held := h'.held)
      && forall x | x in log :: x.client == c && x.token == MemberOf(h, c).token
  {
    match cmd
    case KeyPress(vk, down) => KeysAreOwn(h, c, [(vk, down)], e.took);
    case Paste => KeysAreOwn(h, c, PASTE_KEYS, e.took);
    case SpecialKey(name) => KeysAreOwn(h, c, SpecialKeys(name), e.took);
    case MouseButton(button, down) => PressKeepsInv(h, c, Button(button), down);
    case _ =>
  }

  /** Control is granted exactly to a live, authorised sender whose turn it is, or who may push the holder aside. */
  lemma GrantedExactly(h: Hub, c: Id, e: Env)
    ensures TryAcquire(h, c, e).1 == Granted
      <==> && MemberOf(h, c).role >= STANDARD && Valid(h, c, e.now) && !e.local
           && ( || h.controller.None? || e.now > h.expiry || h.controller == Some(c)
                || (MemberOf(h, c).role >= ADMIN && MemberOf(h, h.controller.value).role < ADMIN))
    ensures TryAcquire(h, c, e).1 == Granted ==> TryAcquire(h, c, e).0.controller == Some(c)
    ensures TryAcquire(h, c, e).1 != Granted ==> TryAcquire(h, c, e).0 == h
    ensures Inv(h) ==> Inv(TryAcquire(h, c, e).0)
  {
  }

  lemma ExecuteKeepsInv(h: Hub, c: Id, cmd: Command, e: Env)
    requires Inv(h)
    ensures Inv(Execute(h, c, cmd, e).0)
  {
    GrantedExactly(h, c, e);
    var (h', decision) := TryAcquire(h, c, e);
    if decision == Granted {
      InjectKeepsInv(h', c, cmd, e);
    }
  }

  lemma StepKeepsInv(h: Hub, ev: Event)
    requires Inv(h)
    ensures Inv(Step(h, ev).0)
  {
    if ev.Execution? {
      ExecuteKeepsInv(h, ev.c, ev.cmd, ev.e);
    }
  }

  lemma {:induction false} RunKeepsInv(h: Hub, events: seq<Event>)
    requires Inv(h)
    ensures Inv(Run(h, events).0)
    decreases |events|
  {
    if events == [] {
    } else {
      StepKeepsInv(h, events[0]);
      RunKeepsInv(Step(h, events[0]).0, events[1..]);
    }
  }

  /**
   After every run: nobody in control means nothing is held down, and every key or button that is held was
   pressed by the present controller since control last changed hands.
   */
  lemma HeldByController(events: seq<Event>)
    ensures var h := Run(EMPTY, events).0;
      && (h.controller.None? ==> h.held == map[])
      && forall i | i in h.held :: h.controller == Some(h.held[i].client) && h.held[i].tenure == h.tenure
  {
    RunKeepsInv(EMPTY, events);
    var h := Run(EMPTY, events).0;
    if h.controller.None? {
      assert forall i :: i !in h.held;
    }
  }

  // ---------------------------------------------------------------- who may inject

  /** The standing every injection needs at the moment its command applies for control. */
  ghost predicate Entitled(h: Hub, c: Id, e: Env) {
    c in h.clients && MemberOf(h, c).authed && MemberOf(h, c).role >= STANDARD
    && Live(h, MemberOf(h, c).token, e.now) && !e.local
  }

  lemma InjectionsAreEntitled(h: Hub, ev: Event)
    requires Inv(h)
    ensures var (h', log) := Step(h, ev);
      log != [] ==>
        && ev.Execution? && Entitled(h, ev.c, ev.e)
        && TryAcquire(h, ev.c, ev.e).0.controller == Some(ev.c) == h'.controller
        && forall x | x in log :: x.client == ev.c && x.token == MemberOf(h, ev.c).token
  {
    if ev.Execution? {
      GrantedExactly(h, ev.c, ev.e);
      var (h', decision) := TryAcquire(h, ev.c, ev.e);
      if decision == Granted {
        InjectKeepsInv(h', ev.c, ev.cmd, ev.e);
      }
    }
  }

  /** A client taken off the register is never put back, so it never injects again. */
  lemma {:induction false} GoneNeverInjects(h: Hub, events: seq<Event>, c: Id)
    requires Inv(h) && c in h.info && c !in h.clients
    ensures forall x | x in Run(h, events).1 :: x.client != c
    decreases |events|
  {
    if events == [] {
    } else {
      var h' := Step(h, events[0]).0;
      StepKeepsInv(h, events[0]);
      InjectionsAreEntitled(h, events[0]);
      StaysGone(h, events[0], c);
      GoneNeverInjects(h', events[1..], c);
    }
  }

  lemma StaysGone(h: Hub, ev: Event, c: Id)
    requires Inv(h) && c in h.info && c !in h.clients
    ensures c in Step(h, ev).0.info && c !in Step(h, ev).0.clients
  {
    if ev.Execution? {
      ExecuteKeepsRegister(h, ev.c, ev.cmd, ev.e);
    }
  }

  lemma AcquireKeepsRegister(h: Hub, c: Id, e: Env)
    ensures TryAcquire(h, c, e).0.clients == h.clients && TryAcquire(h, c, e).0.info == h.info
  {
  }

  lemma ExecuteKeepsRegister(h: Hub, c: Id, cmd: Command, e: Env)
    requires Inv(h)
    ensures var h' := Execute(h, c, cmd, e).0; h'.clients == h.clients && h.info.Keys <= h'.info.Keys
  {
    if TryAcquire(h, c, e).1 == Granted {
      AcquireKeepsRegister(h, c, e);
      InjectKeepsRegister(TryAcquire(h, c, e).0, c, cmd, e);
    }
  }

  /** Whatever happens after everyone was kicked, none of those who were there injects again. */
  lemma KickedNeverInject(before: seq<Event>, after: seq<Event>, c: Id)
    requires c in Run(EMPTY, before).0.info
    ensures var h := Kicked(Run(EMPTY, before).0);
      h.held == map[] && h.controller == None && forall x | x in Run(h, after).1 :: x.client != c
  {
    RunKeepsInv(EMPTY, before);
    StepKeepsInv(Run(EMPTY, before).0, KickAll);
    GoneNeverInjects(Kicked(Run(EMPTY, before).0), after, c);
  }

  /** A token that has died stays dead. */
  lemma {:induction false} DeadNeverInjects(h: Hub, events: seq<Event>, token: string)
    requires Inv(h) && token in h.issued && token !in h.sessions
    ensures forall x | x in Run(h, events).1 :: x.token != token
    decreases |events|
  {
    if events == [] {
    } else {
      StepKeepsInv(h, events[0]);
      InjectionsAreEntitled(h, events[0]);
      StaysDead(h, events[0], token);
      DeadNeverInjects(Step(h, events[0]).0, events[1..], token);
    }
  }

  lemma StaysDead(h: Hub, ev: Event, token: string)
    requires Inv(h) && token in h.issued && token !in h.sessions
    ensures token in Step(h, ev).0.issued && token !in Step(h, ev).0.sessions
  {
    if ev.Execution? && TryAcquire(h, ev.c, ev.e).1 == Granted {
      AcquireKeepsTokens(h, ev.c, ev.e);
      InjectKeepsRegister(TryAcquire(h, ev.c, ev.e).0, ev.c, ev.cmd, ev.e);
    }
  }

  lemma AcquireKeepsTokens(h: Hub, c: Id, e: Env)
    ensures TryAcquire(h, c, e).0.issued == h.issued && TryAcquire(h, c, e).0.sessions == h.sessions
  {
  }

  /** After a revocation of everything, whoever injects does so under a token issued later. */
  lemma RevokedNeverInject(before: seq<Event>, after: seq<Event>)
    ensures var h := Run(EMPTY, before).0; var h' := Step(h, Drop(h.sessions.Keys)).0;
      forall x | x in Run(h', after).1 :: x.token !in h.issued
  {
    RunKeepsInv(EMPTY, before);
    var h := Run(EMPTY, before).0;
    var h' := Step(h, Drop(h.sessions.Keys)).0;
    StepKeepsInv(h, Drop(h.sessions.Keys));
    forall x, token | x in Run(h', after).1 && token in h.issued ensures x.token != token {
      DeadNeverInjects(h', after, token);
    }
  }

  // ---------------------------------------------------------------- who displaces whom

  /** While a lease runs, control passes from one client to another only from below Admin to an Admin. */
  lemma LeaseRespected(h: Hub, ev: Event)
    requires Inv(h) && h.controller.Some?
    ensures var h' := Step(h, ev).0;
      h'.controller.Some? && h'.controller != h.controller ==>
        && ev.Execution? && h'.controller == Some(ev.c) && Entitled(h, ev.c, ev.e)
        && (ev.e.now > h.expiry
            || (MemberOf(h, ev.c).role >= ADMIN && MemberOf(h, h.controller.value).role < ADMIN))
  {
    if ev.Execution? {
      GrantedExactly(h, ev.c, ev.e);
      var (h', decision) := TryAcquire(h, ev.c, ev.e);
      if decision == Granted {
        InjectKeepsInv(h', ev.c, ev.cmd, ev.e);
      }
    }
  }

  // ---------------------------------------------------------------- restricted combinations

  function HeldKeys(h: Hub): set<int> {
    set i | i in h.held && i.Key? :: i.vk
  }

  ghost predicate Restricted(keys: set<int>) {
    && keys * {0x11, 0xA2, 0xA3} != {}
    && ( || (keys * {0x10, 0xA0, 0xA1} != {} && 0x1B in keys)
         || (keys * {0x12, 0xA4, 0xA5} != {} && 0x2E in keys))
  }

  lemma AnyOfMeaning(h: Hub, vk: int, keys: seq<int>)
    ensures AnyOf(h.held.Keys, vk, keys) <==> exists k :: k in keys && k in HeldKeys(h) + {vk}
  {
    if AnyOf(h.held.Keys, vk, keys) {
      var k :| k in keys && (k == vk || Key(k) in h.held.Keys);
      assert Key(k).vk == k;
      assert k in HeldKeys(h) + {vk};
    }
  }

  /** In whatever order the keys come, the guard stops exactly the press that completes a combination. */
  lemma BlockedExactly(h: Hub, vk: int)
    ensures Blocked(h.held.Keys, vk, true) <==> Restricted(HeldKeys(h) + {vk})
  {
    var all := HeldKeys(h) + {vk};
    AnyOfMeaning(h, vk, [0x11, 0xA2, 0xA3]);
    AnyOfMeaning(h, vk, [0x10, 0xA0, 0xA1]);
    AnyOfMeaning(h, vk, [0x12, 0xA4, 0xA5]);
    AnyOfMeaning(h, vk, [0x1B]);
    AnyOfMeaning(h, vk, [0x2E]);
    Meets(all, 0x11, 0xA2, 0xA3);
    Meets(all, 0x10, 0xA0, 0xA1);
    Meets(all, 0x12, 0xA4, 0xA5);
  }

  lemma Meets(keys: set<int>, a: int, b: int, c: int)
    ensures keys * {a, b, c} != {} <==> exists k :: k in [a, b, c] && k in keys
  {
    if keys * {a, b, c} != {} {
      var k :| k in keys * {a, b, c};
      assert k in [a, b, c];
    }
    if exists k :: k in [a, b, c] && k in keys {
      var k :| k in [a, b, c] && k in keys;
      assert k in keys * {a, b, c};
    }
  }

  lemma OneKey(h: Hub, c: Id, vk: int, down: bool, took: seq<bool>)
    ensures SendKeys(h, c, [(vk, down)], took).0
         == if took != [] && took[0] then Pressed(h, c, Key(vk), down) else h
  {
    assert [(vk, down)][1..] == [];
  }

  /** No key command of a Standard user leaves a restricted combination held that was not held before. */
  lemma KeyCommandStaysUnrestricted(h: Hub, c: Id, vk: int, down: bool, e: Env)
    requires MemberOf(h, c).role < ADMIN && !Restricted(HeldKeys(h))
    ensures !Restricted(HeldKeys(Execute(h, c, KeyPress(vk, down), e).0))
  {
    var (h', decision) := TryAcquire(h, c, e);
    if decision == Granted {
      assert HeldKeys(h') <= HeldKeys(h);
      var h'' := Inject(h', c, KeyPress(vk, down), e).0;
      OneKey(h', c, vk, down, e.took);
      if h''.held != h'.held {
        assert h'' == Pressed(h', c, Key(vk), down);
        if down {
          BlockedExactly(h', vk);
          assert HeldKeys(h'') == HeldKeys(h') + {vk};
        } else {
          assert HeldKeys(h'') <= HeldKeys(h);
        }
      }
    }
  }

  // ---------------------------------------------------------------- combinations held during a command

  /** The command gets as far as its injections. */
  predicate Reaches(h: Hub, c: Id, cmd: Command, e: Env) {
    && c in h.info && MemberOf(h, c).authed && Valid(h, c, e.now)
    && cmd != ReleaseAllKeys && cmd != ReleaseControl
    && MemberOf(h, c).role >= RoleNeeded(cmd) && Applies(h, c, cmd, e)
    && TryAcquire(h, c, e).1 == Granted
  }

  /** The key events a command tries, once its sender has control. */
  function KeyEvents(h: Hub, c: Id, cmd: Command): seq<(int, bool)> {
    match cmd
    case KeyPress(vk, down) => if MemberOf(h, c).role < ADMIN && Blocked(h.held.Keys, vk, down) then []
        else [(vk, down)]
    case Paste => PASTE_KEYS
    case SpecialKey(name) => SpecialKeys(name)
    case _ => []
  }

  function AfterKey(h: Hub, c: Id, key: (int, bool), took: seq<bool>): Hub {
    if took != [] && took[0] then Pressed(h, c, Key(key.0), key.1) else h
  }

  function Rest(took: seq<bool>): seq<bool> {
    if took == [] then [] else took[1..]
  }

  /** The hub before the first of some key events, between each two, and after the last. */
  function Moments(h: Hub, c: Id, keys: seq<(int, bool)>, took: seq<bool>): (moments: seq<Hub>)
    ensures |moments| == |keys| + 1
    decreases |keys|
  {
    [h] + if keys == [] then [] else Moments(AfterKey(h, c, keys[0], took), c, keys[1..], Rest(took))
  }

  /** The same, once the sender has control. */
  ghost predicate ExposedAt(h: Hub, c: Id, cmd: Command, e: Env) {
    exists m :: m in Moments(h, c, KeyEvents(h, c, cmd), e.took) && Restricted(HeldKeys(m))
  }

  /** A restricted combination is held at some moment of a command. */
  ghost predicate Exposed(h: Hub, c: Id, cmd: Command, e: Env) {
    Reaches(h, c, cmd, e) && ExposedAt(TryAcquire(h, c, e).0, c, cmd, e)
  }

  /** The last moment of a command is the hub it leaves, as far as keys are concerned. */
  lemma {:induction false} MomentsEnd(h: Hub, c: Id, keys: seq<(int, bool)>, took: seq<bool>)
    ensures SendKeys(h, c, keys, took).0 == Moments(h, c, keys, took)[|keys|]
    decreases |keys|
  {
    if keys == [] {
    } else {
      MomentsEnd(AfterKey(h, c, keys[0], took), c, keys[1..], Rest(took));
    }
  }

  lemma InjectionEnds(h: Hub, c: Id, cmd: Command, e: Env)
    ensures var keys := KeyEvents(h, c, cmd);
      HeldKeys(Inject(h, c, cmd, e).0) == HeldKeys(Moments(h, c, keys, e.took)[|keys|])
  {
    MomentsEnd(h, c, KeyEvents(h, c, cmd), e.took);
    match cmd
    case MouseButton(button, down) => ButtonIsNoKey(h, c, button, down);
    case _ =>
  }

  lemma ReachedInjects(h: Hub, c: Id, cmd: Command, e: Env)
    requires Reaches(h, c, cmd, e)
    ensures Execute(h, c, cmd, e) == Inject(TryAcquire(h, c, e).0, c, cmd, e)
  {
  }

  lemma ExecutionEnds(h: Hub, c: Id, cmd: Command, e: Env)
    requires Reaches(h, c, cmd, e)
    ensures var h' := TryAcquire(h, c, e).0; var keys := KeyEvents(h', c, cmd);
      HeldKeys(Execute(h, c, cmd, e).0) == HeldKeys(Moments(h', c, keys, e.took)[|keys|])
  {
    ReachedInjects(h, c, cmd, e);
    InjectionEnds(TryAcquire(h, c, e).0, c, cmd, e);
  }

  lemma ButtonIsNoKey(h: Hub, c: Id, button: int, down: bool)
    ensures HeldKeys(Pressed(h, c, Button(button), down)) == HeldKeys(h)
  {
  }

  const RELEVANT: set<int> := {0x10, 0xA0, 0xA1, 0x11, 0xA2, 0xA3, 0x12, 0xA4, 0xA5, 0x1B, 0x2E}

  lemma RestrictedGrows(a: set<int>, b: set<int>)
    requires Restricted(a) && a * RELEVANT <= b
    ensures Restricted(b)
  {
    var ctrl :| ctrl in a * {0x11, 0xA2, 0xA3};
    assert ctrl in b * {0x11, 0xA2, 0xA3};
    if a * {0x10, 0xA0, 0xA1} != {} && 0x1B in a {
      var shift :| shift in a * {0x10, 0xA0, 0xA1};
      assert shift in b * {0x10, 0xA0, 0xA1} && 0x1B in b;
    } else {
      var alt :| alt in a * {0x12, 0xA4, 0xA5};
      assert alt in b * {0x12, 0xA4, 0xA5} && 0x2E in b;
    }
  }

  lemma KeyMoves(h: Hub, c: Id, vk: int, down: bool)
    ensures HeldKeys(Pressed(h, c, Key(vk), down)) == if down then HeldKeys(h) + {vk} else HeldKeys(h) - {vk}
  {
    var h' := Pressed(h, c, Key(vk), down);
    forall k ensures k in HeldKeys(h') <==> if down then k in HeldKeys(h) || k == vk else k in HeldKeys(h) && k != vk {
      assert Key(k).vk == k;
    }
  }

  /** Releases, and keys that are part of no combination. */
  predicate Harmless(keys: seq<(int, bool)>) {
    forall i | 0 <= i < |keys| :: !keys[i].1 || keys[i].0 !in RELEVANT
  }

  /** Harmless events never complete a combination. */
  lemma {:induction false} HarmlessMoments(h: Hub, c: Id, keys: seq<(int, bool)>, took: seq<bool>)
    requires Harmless(keys)
    ensures (exists m :: m in Moments(h, c, keys, took) && Restricted(HeldKeys(m))) <==> Restricted(HeldKeys(h))
    decreases |keys|
  {
    var all := Moments(h, c, keys, took);
    assert all[0] == h;
    if keys == [] {
    } else {
      var h' := AfterKey(h, c, keys[0], took);
      HarmlessMoments(h', c, keys[1..], Rest(took));
      KeyMoves(h, c, keys[0].0, keys[0].1);
      if Restricted(HeldKeys(h')) { RestrictedGrows(HeldKeys(h'), HeldKeys(h)); }
    }
  }

  lemma FirstMoments(h: Hub, c: Id, keys: seq<(int, bool)>, took: seq<bool>)
    requires keys != [] && keys[0].1 && Harmless(keys[1..])
    ensures (exists m :: m in Moments(h, c, keys, took) && Restricted(HeldKeys(m)))
       <==> Restricted(HeldKeys(h)) || (took != [] && took[0] && Restricted(HeldKeys(h) + {keys[0].0}))
  {
    var all, h' := Moments(h, c, keys, took), AfterKey(h, c, keys[0], took);
    assert all[0] == h;
    HarmlessMoments(h', c, keys[1..], Rest(took));
    KeyMoves(h, c, keys[0].0, true);
  }

  /** The modifier that a composite command presses first. */
  function Modifier(cmd: Command): Option<int> {
    match cmd
    case Paste => Some(0x11)
    case SpecialKey(name) => if name == "alt_tab" then Some(0x12) else None
    case _ => None
  }

  /** What a Standard sender holds becomes a restricted combination with the modifier the command adds. */
  ghost predicate Completes(h: Hub, c: Id, cmd: Command, e: Env) {
    Modifier(cmd).Some? && Took(e, 0) && Restricted(HeldKeys(h) + {Modifier(cmd).value})
  }

  /** A command that starts with its modifier and goes on harmlessly. */
  lemma CompositeMoments(h: Hub, c: Id, cmd: Command, e: Env, keys: seq<(int, bool)>)
    requires KeyEvents(h, c, cmd) == keys && keys != [] && keys[0].1 && Harmless(keys[1..])
    requires Modifier(cmd) == Some(keys[0].0)
    ensures ExposedAt(h, c, cmd, e) <==> Restricted(HeldKeys(h)) || Completes(h, c, cmd, e)
  {
    FirstMoments(h, c, keys, e.took);
  }

  lemma PasteMoments(h: Hub, c: Id, e: Env)
    ensures ExposedAt(h, c, Paste, e) <==> Restricted(HeldKeys(h)) || Completes(h, c, Paste, e)
  {
    CompositesAreHarmless();
    CompositeMoments(h, c, Paste, e, PASTE_KEYS);
  }

  lemma SwitchMoments(h: Hub, c: Id, e: Env)
    ensures ExposedAt(h, c, SpecialKey("alt_tab"), e)
       <==> Restricted(HeldKeys(h)) || Completes(h, c, SpecialKey("alt_tab"), e)
  {
    CompositesAreHarmless();
    CompositeMoments(h, c, SpecialKey("alt_tab"), e, ALT_TAB);
  }

  lemma SpecialMoments(h: Hub, c: Id, name: string, e: Env)
    requires name != "ctrl_shift_esc" && name != "alt_tab"
    ensures ExposedAt(h, c, SpecialKey(name), e) <==> Restricted(HeldKeys(h))
  {
    CompositesAreHarmless();
    HarmlessMoments(h, c, SpecialKeys(name), e.took);
  }

  lemma OtherMoments(h: Hub, c: Id, cmd: Command, e: Env)
    requires !cmd.KeyPress? && !cmd.Paste? && !cmd.SpecialKey?
    ensures ExposedAt(h, c, cmd, e) <==> Restricted(HeldKeys(h)) || Completes(h, c, cmd, e)
  {
    HarmlessMoments(h, c, [], e.took);
  }

  lemma CommandMoments(h: Hub, c: Id, cmd: Command, e: Env)
    requires MemberOf(h, c).role < ADMIN && cmd != SpecialKey("ctrl_shift_esc")
    ensures ExposedAt(h, c, cmd, e) <==> Restricted(HeldKeys(h)) || Completes(h, c, cmd, e)
  {
    match cmd
    case KeyPress(vk, down) => KeyMoments(h, c, vk, down, e);
    case Paste => PasteMoments(h, c, e);
    case SpecialKey(name) => if name == "alt_tab" { SwitchMoments(h, c, e); } else { SpecialMoments(h, c, name, e); }
    case _ => OtherMoments(h, c, cmd, e);
  }

  /** But for its first event a composite command is harmless. */
  lemma CompositesAreHarmless()
    ensures Harmless(PASTE_KEYS[1..]) && Harmless(ALT_TAB[1..])
    ensures forall name | name != "alt_tab" && name != "ctrl_shift_esc" :: Harmless(SpecialKeys(name))
  {
  }

  /** The guard sees to it that a key command completes nothing. */
  lemma KeyMoments(h: Hub, c: Id, vk: int, down: bool, e: Env)
    requires MemberOf(h, c).role < ADMIN
    ensures ExposedAt(h, c, KeyPress(vk, down), e) <==> Restricted(HeldKeys(h))
  {
    var keys := KeyEvents(h, c, KeyPress(vk, down));
    if keys != [] && down {
      FirstMoments(h, c, keys, e.took);
      BlockedExactly(h, vk);
    } else {
      HarmlessMoments(h, c, keys, e.took);
    }
  }

  lemma NothingFromEmpty(vk: int)
    ensures !Restricted({}) && !Restricted({} + {vk})
  {
  }

  /**
   At some moment of a Standard sender's command a restricted combination is held exactly when the command gets
   control, the sender had control already, and what it held was such a combination or becomes one with the
   modifier that a paste or a window switch presses without asking the guard.
   */
  lemma ExposedExactly(h: Hub, c: Id, cmd: Command, e: Env)
    requires MemberOf(h, c).role < ADMIN
    ensures Exposed(h, c, cmd, e)
       <==> Reaches(h, c, cmd, e) && h.controller == Some(c) && e.now <= h.expiry
            && (Restricted(HeldKeys(h)) || Completes(h, c, cmd, e))
  {
    if Reaches(h, c, cmd, e) {
      var h' := TryAcquire(h, c, e).0;
      CommandMoments(h', c, cmd, e);
      if h.controller == Some(c) && e.now <= h.expiry {
        assert h'.held == h.held;
      } else {
        assert HeldKeys(h') == {};
        NothingFromEmpty(0);
        if Modifier(cmd).Some? { NothingFromEmpty(Modifier(cmd).value); }
      }
    }
  }

  // Over whole runs.

  ghost predicate Standard(h: Hub, ev: Event) {
    ev.Execution? && MemberOf(h, ev.c).role < ADMIN
  }

  /** Somewhere in a run a restricted combination is held during a Standard sender's command. */
  ghost predicate ExposedIn(h: Hub, events: seq<Event>)
    decreases |events|
  {
    events != [] &&
      (|| (Standard(h, events[0]) && Exposed(h, events[0].c, events[0].cmd, events[0].e))
       || ExposedIn(Step(h, events[0]).0, events[1..]))
  }

  /** Somewhere in a run a Standard controller pastes, or switches windows, while it holds the rest of a combination. */
  ghost predicate CompletedIn(h: Hub, events: seq<Event>)
    decreases |events|
  {
    events != [] &&
      (|| (Standard(h, events[0]) && CompletedBy(h, events[0].c, events[0].cmd, events[0].e))
       || CompletedIn(Step(h, events[0]).0, events[1..]))
  }

  ghost predicate CompletedBy(h: Hub, c: Id, cmd: Command, e: Env) {
    Reaches(h, c, cmd, e) && h.controller == Some(c) && e.now <= h.expiry && Completes(h, c, cmd, e)
  }

  /** Whoever is in control has authenticated, and holds no combination unless it is an Admin. */
  ghost predicate Proper(h: Hub) {
    h.controller.Some? ==>
      && MemberOf(h, h.controller.value).authed
      && (MemberOf(h, h.controller.value).role < ADMIN ==> !Restricted(HeldKeys(h)))
  }

  lemma ReachedStaysProper(h: Hub, c: Id, cmd: Command, e: Env)
    requires Proper(h) && Reaches(h, c, cmd, e)
    requires MemberOf(h, c).role < ADMIN ==> !Exposed(h, c, cmd, e)
    ensures Proper(Execute(h, c, cmd, e).0)
  {
    var h' := TryAcquire(h, c, e).0;
    var keys := KeyEvents(h', c, cmd);
    ExecutionEnds(h, c, cmd, e);
    assert Moments(h', c, keys, e.took)[|keys|] in Moments(h', c, keys, e.took);
    InjectKeepsRegister(h', c, cmd, e);
  }

  lemma {:induction false} KeysKeepRegister(h: Hub, c: Id, keys: seq<(int, bool)>, took: seq<bool>)
    ensures var h' := SendKeys(h, c, keys, took).0; h' == h.(held := h'.held)
    decreases |keys|
  {
    if keys == [] {
    } else {
      KeysKeepRegister(AfterKey(h, c, keys[0], took), c, keys[1..], Rest(took));
    }
  }

  lemma InjectKeepsRegister(h: Hub, c: Id, cmd: Command, e: Env)
    ensures var h' := Inject(h, c, cmd, e).0; h' == h.(held := h'.held)
  {
    KeysKeepRegister(h, c, KeyEvents(h, c, cmd), e.took);
  }

  lemma StepStaysProper(h: Hub, ev: Event)
    requires Proper(h) && (Standard(h, ev) ==> !Exposed(h, ev.c, ev.cmd, ev.e))
    ensures Proper(Step(h, ev).0)
  {
    match ev
    case Execution(c, cmd, e) =>
      if Reaches(h, c, cmd, e) {
        ReachedStaysProper(h, c, cmd, e);
      } else if cmd == ReleaseAllKeys {
        NothingFromEmpty(0);
        assert HeldKeys(Released(h)) == {};
      }
    case ReleaseInputs =>
      NothingFromEmpty(0);
      assert HeldKeys(Released(h)) == {};
    case _ =>
  }

  /**
   Over every run: a restricted combination is held during some command of a Standard sender if and only if some
   Standard controller pastes, or switches windows, while it holds the rest of one.
   */
  lemma {:induction false} StandardExposedExactly(h: Hub, events: seq<Event>)
    requires Proper(h)
    ensures ExposedIn(h, events) <==> CompletedIn(h, events)
    decreases |events|
  {
    if events == [] {
    } else {
      var ev := events[0];
      if Standard(h, ev) { ExposedExactly(h, ev.c, ev.cmd, ev.e); }
      if Standard(h, ev) && Exposed(h, ev.c, ev.cmd, ev.e) {
      } else {
        StepStaysProper(h, ev);
        StandardExposedExactly(Step(h, ev).0, events[1..]);
      }
    }
  }

  /** A Standard user presses Alt and Delete, which the guard lets through, and pastes. */
  function AltDelete(): seq<Event> {
    [Attach(1), Issue("t", STANDARD, 1000), Execution(1, AuthToken("t"), Env(0, false, [])),
     Execution(1, KeyPress(0x12, true), Env(0, false, [true])),
         Execution(1, KeyPress(0x2E, true), Env(0, false, [true]))]
  }

  const FOUR_TAKEN := Env(0, false, [true, true, true, true])

  const SIGNED_IN := Hub(map["t" := Session(STANDARD, 1000)], {"t"}, map[1 := Member("t", STANDARD, true)], {1}, None,
      0, 0, map[])
  const WITH_ALT := SIGNED_IN.(controller := Some(1), expiry := LEASE, tenure := 1,
      held := map[Key(0x12) := Press(1, 1)])
  const WITH_BOTH := WITH_ALT.(held := map[Key(0x12) := Press(1, 1), Key(0x2E) := Press(1, 1)])

  lemma SigningIn()
    ensures Step(Step(Step(EMPTY, AltDelete()[0]).0, AltDelete()[1]).0, AltDelete()[2]).0 == SIGNED_IN
  {
  }

  lemma FirstKey()
    ensures Execute(SIGNED_IN, 1, KeyPress(0x12, true), Env(0, false, [true])).0 == WITH_ALT
  {
    OneKey(Taken(SIGNED_IN, 1, 0), 1, 0x12, true, [true]);
  }

  lemma SecondKey()
    ensures Execute(WITH_ALT, 1, KeyPress(0x2E, true), Env(0, false, [true])).0 == WITH_BOTH
  {
    assert HeldKeys(WITH_ALT) == {0x12} by { assert Key(0x12).vk == 0x12; }
    BlockedExactly(WITH_ALT, 0x2E);
    OneKey(WITH_ALT, 1, 0x2E, true, [true]);
  }

  lemma AltDeleteRuns()
    ensures Run(EMPTY, AltDelete()).0 == WITH_BOTH
  {
    SigningIn();
    FirstKey();
    SecondKey();
  }

  lemma BothHeld()
    ensures HeldKeys(WITH_BOTH) == {0x12, 0x2E}
  {
    assert Key(0x12).vk == 0x12 && Key(0x2E).vk == 0x2E;
  }

  /** What the guard refuses in every order of key commands comes about through a paste, and is gone after it. */
  lemma PasteCompletesCombination()
    ensures var h := Run(EMPTY, AltDelete()).0;
      && MemberOf(h, 1).role == STANDARD && !Restricted(HeldKeys(h))
      && Exposed(h, 1, Paste, FOUR_TAKEN) && !Restricted(HeldKeys(Execute(h, 1, Paste, FOUR_TAKEN).0))
  {
    AltDeleteRuns();
    BothHeld();
    ExposedExactly(WITH_BOTH, 1, Paste, FOUR_TAKEN);
    var all := {0x12, 0x2E} + {0x11};
    assert 0x11 in all * {0x11, 0xA2, 0xA3} && 0x12 in all * {0x12, 0xA4, 0xA5};
    assert !Restricted({0x12, 0x2E});
  }

  // ---------------------------------------------------------------- what a command injects

  /** There is such a button, and a Standard user's key completes no restricted combination. */
  ghost predicate Permitted(h: Hub, c: Id, input: Input, down: bool) {
    match input
    case Button(button) => 0 <= button <= 2
    case Key(vk) => MemberOf(h, c).role >= ADMIN || !down || !Restricted(HeldKeys(h) + {vk})
  }

  /** What holds after an input was pressed or released, or left as it was. */
  ghost predicate HeldAs(before: Hub, after: Hub, c: Id, input: Input, injected: bool, down: bool) {
    && (forall i | i != input :: (i in after.held <==> i in before.held)
                                 && (i in before.held ==> after.held[i] == before.held[i]))
    && (injected ==> (input in after.held <==> down)
                     && (down ==> after.held[input] == Press(c, before.tenure)))
    && (!injected ==> after.held == before.held)
  }

  /** One injection, by the sender and under its token, of exactly what the command says; or none. */
  predicate LogIs(h: Hub, c: Id, log: seq<Injection>, injected: bool, what: What) {
    log == if injected then [Injection(c, MemberOf(h, c).token, what)] else []
  }

  /** The sender's turn has come: control is free, or lapsed, or its own, or an Admin takes it from somebody below. */
  predicate HasTurn(h: Hub, c: Id, now: int) {
    || h.controller.None? || now > h.expiry || h.controller == Some(c)
    || (MemberOf(h, c).role >= ADMIN && MemberOf(h, h.controller.value).role < ADMIN)
  }

  /** An input command gets as far as its injections exactly when its sender is entitled and has its turn. */
  lemma ReachesExactly(h: Hub, c: Id, cmd: Command, e: Env)
    requires Inv(h) && MemberOf(h, c).authed && Valid(h, c, e.now)
    requires cmd.MouseMove? || cmd.MouseButton? || cmd.MouseWheel? || cmd.KeyPress? || cmd.TypeText? || cmd.Paste?
          || (cmd.SpecialKey? && cmd.name != "ctrl_alt_del")
    ensures Reaches(h, c, cmd, e)
       <==> Entitled(h, c, e) && HasTurn(h, c, e.now)
            && (cmd == SpecialKey("ctrl_shift_esc") ==> MemberOf(h, c).role >= ADMIN)
  {
    GrantedExactly(h, c, e);
  }

  /**
   A button command injects exactly when it gets control, there is such a button and the system takes the event; it
   injects a press of that button as a press and a release as a release, and the button is held accordingly.
   */
  lemma ButtonExactly(h: Hub, c: Id, button: int, down: bool, e: Env)
    ensures var cmd, before := MouseButton(button, down), TryAcquire(h, c, e).0;
      var (after, log) := Execute(h, c, cmd, e);
      var injected := Reaches(h, c, cmd, e) && Took(e, 0) && Permitted(before, c, Button(button), down);
      && LogIs(h, c, log, injected, if down then Down(Button(button)) else Up(Button(button)))
      && (Reaches(h, c, cmd, e) ==> HeldAs(before, after, c, Button(button), injected, down))
  {
    AcquireExactly(h, c, e);
  }

  /** A key command likewise, when a Standard sender's key completes no restricted combination. */
  lemma KeyExactly(h: Hub, c: Id, vk: int, down: bool, e: Env)
    ensures var cmd, before := KeyPress(vk, down), TryAcquire(h, c, e).0;
      var (after, log) := Execute(h, c, cmd, e);
      var injected := Reaches(h, c, cmd, e) && Took(e, 0) && Permitted(before, c, Key(vk), down);
      && LogIs(h, c, log, injected, if down then Down(Key(vk)) else Up(Key(vk)))
      && (Reaches(h, c, cmd, e) ==> HeldAs(before, after, c, Key(vk), injected, down))
  {
    var before := TryAcquire(h, c, e).0;
    AcquireExactly(h, c, e);
    BlockedExactly(before, vk);
    if Reaches(h, c, KeyPress(vk, down), e) {
      OneKeyLogged(before, c, vk, down, e.took);
    }
  }

  lemma OneKeyLogged(h: Hub, c: Id, vk: int, down: bool, took: seq<bool>)
    ensures var (after, log) := SendKeys(h, c, [(vk, down)], took); var injected := took != [] && took[0];
      && LogIs(h, c, log, injected, if down then Down(Key(vk)) else Up(Key(vk)))
      && HeldAs(h, after, c, Key(vk), injected, down)
  {
    OneKey(h, c, vk, down, took);
    assert [(vk, down)][1..] == [];
  }

  /** Moves, wheels and text inject their own kind, when they get control and the system takes it, and hold nothing. */
  lemma PointerExactly(h: Hub, c: Id, cmd: Command, e: Env)
    requires cmd.MouseMove? || cmd.MouseWheel? || cmd.TypeText?
    ensures var before := TryAcquire(h, c, e).0; var (after, log) := Execute(h, c, cmd, e);
      && LogIs(h, c, log, Reaches(h, c, cmd, e) && Took(e, 0),
               if cmd.MouseMove? then Move else if cmd.MouseWheel? then Wheel else Text)
      && (Reaches(h, c, cmd, e) ==> after == before)
  {
    AcquireExactly(h, c, e);
  }

  /** A paste that the system takes is Ctrl, V, and both up again. */
  lemma PasteExactly(h: Hub, c: Id, e: Env)
    requires Reaches(h, c, Paste, e) && e.took == [true, true, true, true]
    ensures var (after, log) := Execute(h, c, Paste, e); var t := MemberOf(h, c).token;
      && log == [Injection(c, t, Down(Key(0x11))), Injection(c, t, Down(Key(0x56))),
                 Injection(c, t, Up(Key(0x56))), Injection(c, t, Up(Key(0x11)))]
      && after.held == TryAcquire(h, c, e).0.held - {Key(0x11), Key(0x56)}
  {
    var before := TryAcquire(h, c, e).0;
    AcquireExactly(h, c, e);
    FourKeys(before, c, 0x11, 0x56, e.took);
  }

  lemma FourKeys(h: Hub, c: Id, outer: int, inner: int, took: seq<bool>)
    requires took == [true, true, true, true] && outer != inner
    ensures var keys := [(outer, true), (inner, true), (inner, false), (outer, false)];
      var (after, log) := SendKeys(h, c, keys, took); var t := MemberOf(h, c).token;
      && log == [Injection(c, t, Down(Key(outer))), Injection(c, t, Down(Key(inner))),
                 Injection(c, t, Up(Key(inner))), Injection(c, t, Up(Key(outer)))]
      && after == h.(held := h.held - {Key(outer), Key(inner)})
  {
    var keys := [(outer, true), (inner, true), (inner, false), (outer, false)];
    var h1 := Pressed(h, c, Key(outer), true);
    var h2 := Pressed(h1, c, Key(inner), true);
    var h3 := Pressed(h2, c, Key(inner), false);
    var h4 := Pressed(h3, c, Key(outer), false);
    assert keys[3..] == [keys[3]] && took[3..] == [true];
    OneKeyLogged(h3, c, outer, false, took[3..]);
    SendKeysHead(h2, c, keys[2..], took[2..], []);
    SendKeysHead(h1, c, keys[1..], took[1..], []);
    SendKeysHead(h, c, keys, took, []);
    assert h4.held == h.held - {Key(outer), Key(inner)};
  }

  /** The task manager's keys are for an Admin. */
  lemma TaskManagerIsForAdmin(h: Hub, c: Id, e: Env)
    ensures Execute(h, c, SpecialKey("ctrl_shift_esc"), e).1 != [] ==> MemberOf(h, c).role >= ADMIN
  {
  }

  // ---------------------------------------------------------------- what each operation changes

  /** Whoever gets control has it for the whole lease; held inputs stay only with a controller that renews in time. */
  lemma AcquireExactly(h: Hub, c: Id, e: Env)
    ensures var (h', decision) := TryAcquire(h, c, e);
      && h'.info == h.info && h'.clients == h.clients && h'.sessions == h.sessions && h'.issued == h.issued
      && (decision == Granted ==>
            && (forall t | e.now <= t < e.now + LEASE && Valid(h, c, t) :: IsController(h', c, t))
            && h'.expiry == e.now + LEASE
            && h'.held == if h.controller == Some(c) && e.now <= h.expiry then h.held else map[])
      && (decision != Granted ==> h' == h)
  {
  }

  /** After the regular check a controller remains only with a running lease, a valid session and a quiet desk. */
  lemma ExpiryExactly(h: Hub, now: int, local: bool)
    ensures var h' := Step(h, Expire(now, local)).0;
      && (h'.controller.Some? ==> h' == h && now <= h.expiry && Valid(h, h.controller.value, now) && !local)
      && (h.controller.Some? && now <= h.expiry && Valid(h, h.controller.value, now) && !local ==> h' == h)
      && (h'.controller != h.controller ==> h'.held == map[] && h'.info == h.info && h'.clients == h.clients)
  {
  }

  /** A client that leaves is off the register and out of control; nobody else notices. */
  lemma DetachExactly(h: Hub, c: Id)
    ensures var h' := Step(h, Detach(c)).0;
      && h'.clients == h.clients - {c} && h'.info == h.info && h'.sessions == h.sessions
      && (c in h.clients ==> h'.controller != Some(c) && (h.controller == Some(c) ==> h'.held == map[]))
      && (h.controller != Some(c) ==> h'.controller == h.controller && h'.held == h.held && h'.expiry == h.expiry)
  {
  }

  /** Giving up control frees it, and only the controller can; releasing all keys is for the controller too. */
  lemma ReleaseExactly(h: Hub, c: Id, e: Env)
    requires c in h.info && MemberOf(h, c).authed && Valid(h, c, e.now)
    ensures var h' := Execute(h, c, ReleaseControl, e).0;
      if h.controller == Some(c) then h'.controller == None && h'.held == map[] else h' == h
    ensures var h' := Execute(h, c, ReleaseAllKeys, e).0;
      && h'.controller == h.controller
      && h'.held == if MemberOf(h, c).role >= STANDARD && IsController(h, c, e.now) then map[] else h.held
  {
  }

  /** A live token or a matched password authenticates its sender with the role it stands for, and nothing else does. */
  lemma AuthenticatedExactly(h: Hub, c: Id, cmd: Command, e: Env)
    requires c in h.info && !MemberOf(h, c).authed
    ensures var h' := Execute(h, c, cmd, e).0;
      && (cmd.AuthToken? && cmd.token != "" && cmd.token in h.sessions && e.now <= h.sessions[cmd.token].expires ==>
            MemberOf(h', c) == Member(cmd.token, h.sessions[cmd.token].role, true) && h'.sessions == h.sessions)
      && (cmd.AuthLogin? && cmd.token != "" && cmd.token !in h.issued ==>
            && MemberOf(h', c) == Member(cmd.token, cmd.role, true)
            && h'.sessions == h.sessions[cmd.token := Session(cmd.role, cmd.expires)])
      && (MemberOf(h', c).authed ==>
            && (cmd.AuthToken? || cmd.AuthLogin?) && cmd.token != "" && cmd.token in h'.sessions
            && (cmd.AuthToken? ==> Live(h, cmd.token, e.now)) && (cmd.AuthLogin? ==> cmd.token !in h.issued))
      && forall d | d != c :: MemberOf(h', d) == MemberOf(h, d)
  {
  }

  /** A new grant puts its client under the new token and role, out of control, and ends the session it had before. */
  lemma RegrantExactly(h: Hub, c: Id, token: string, now: int)
    requires Inv(h)
    ensures var h' := Step(h, Grant(c, token, now)).0; var had := MemberOf(h, c).token;
      if c in h.clients && Live(h, token, now) then
        && MemberOf(h', c) == Member(token, h.sessions[token].role, true) && Live(h', token, now)
        && (had != token ==> had !in h'.sessions)
        && (forall t | t in h.sessions && t != had :: t in h'.sessions && h'.sessions[t] == h.sessions[t])
        && h'.controller != Some(c) && (h.controller == Some(c) ==> h'.held == map[])
        && (h.controller != Some(c) ==> h'.controller == h.controller && h'.held == h.held)
      else h' == h
  {
  }

  /** Revocation ends just the sessions it names. */
  lemma DropExactly(h: Hub, tokens: set<string>)
    ensures var h' := Step(h, Drop(tokens)).0;
      && (forall t :: t in h'.sessions <==> t in h.sessions && t !in tokens)
      && (forall t | t in h'.sessions :: h'.sessions[t] == h.sessions[t])
      && h' == h.(sessions := h'.sessions)
  {
  }

  // ---------------------------------------------------------------- the source's own form

  /** A list with each element of a set once and nothing else. */
  ghost predicate Once(events: seq<Input>, inputs: set<Input>) {
    && (forall i :: i in events <==> i in inputs)
    && (forall i, j | 0 <= i < j < |events| :: events[i] != events[j])
  }

  class InputController {
    var pressed: set<Input>
    ghost var held: map<Input, Press>

    ghost predicate Valid()
      reads this
    {
      held.Keys == pressed
    }

    constructor ()
      ensures Valid() && held == map[]
    {
      pressed, held := {}, map[];
    }

    /** One release event for each of some inputs, in any order. */
    static method UpEvents(inputs: set<Input>) returns (events: seq<Input>)
      ensures Once(events, inputs)
    {
      events := [];
      var left := inputs;
      while left != {}
        invariant left <= inputs && Once(events, inputs - left)
        decreases left
      {
        var i :| i in left;
        assert forall k | 0 <= k < |events| :: events[k] in events;
        events, left := events + [i], left - {i};
      }
    }

    /**
     Every key and then every button that is tracked is released once; the tracking is dropped whether or not the
     system accepts the releases.
     */
    method ReleaseAllKeys() returns (events: seq<Input>)
      modifies this
      ensures Valid() && held == map[]
      ensures Once(events, old(pressed))
      ensures forall i, j | 0 <= i < j < |events| && events[i].Button? :: events[j].Button?
    {
      var isKey := set i | i in pressed && i.Key?;
      var keys := UpEvents(isKey);
      var buttons := UpEvents(pressed - isKey);
      events := keys + buttons;
      assert forall k | 0 <= k < |keys| :: keys[k] in keys;
      assert forall k | 0 <= k < |buttons| :: buttons[k] in buttons;
      pressed, held := {}, map[];
    }

    method Send(input: Input, isDown: bool, took: bool, ghost press: Press)
      requires Valid()
      modifies this
      ensures Valid()
      ensures held == if !took then old(held) else if isDown then old(held)[input := press] else old(held) - {input}
    {
      if took {
        if isDown {
          pressed, held := pressed + {input}, held[input := press];
        } else {
          pressed, held := pressed - {input}, held - {input};
        }
      }
    }
  }

  class StreamHub {
    const inputCtrl: InputController
    var sessions: map<string, Session>
    var info: map<Id, Member>
    var clients: set<Id>
    var currentController: Option<Id>
    var controllerExpiry: int
    ghost var issued: set<string>
    ghost var tenure: nat

    ghost function View(): Hub
      reads this, inputCtrl
    {
      Hub(sessions, issued, info, clients, currentController, controllerExpiry, tenure, inputCtrl.held)
    }

    constructor (inputCtrl: InputController)
      requires inputCtrl.Valid() && inputCtrl.held == map[]
      ensures View() == EMPTY && this.inputCtrl == inputCtrl
    {
      this.inputCtrl := inputCtrl;
      sessions, info, clients := map[], map[], {};
      currentController, controllerExpiry, issued, tenure := None, 0, {}, 0;
    }

    function Known(c: Id): Member
      reads this
    {
      if c in info then info[c] else Member("", 0, false)
    }

    predicate ValidLocked(c: Id, now: int)
      reads this, inputCtrl
      ensures ValidLocked(c, now) == Valid(View(), c, now)
    {
      var m := Known(c);
      m.authed && c in clients && m.token in sessions && now <= sessions[m.token].expires
      && sessions[m.token].role == m.role && m.role >= VIEW
    }

    method TryAcquireControl(c: Id, e: Env) returns (d: Decision)
      modifies this, inputCtrl
      requires inputCtrl.Valid()
      ensures inputCtrl.Valid()
      ensures (View(), d) == TryAcquire(old(View()), c, e)
    {
      if Known(c).role < STANDARD || !ValidLocked(c, e.now) {
        return Denied;
      }
      if e.local {
        return LocalActive;
      }
      if currentController.None? || e.now > controllerExpiry {
        Take(c, e.now);
        return Granted;
      }
      if currentController == Some(c) {
        controllerExpiry := e.now + LEASE;
        return Granted;
      }
      if Known(c).role >= ADMIN && Known(currentController.value).role < ADMIN {
        Take(c, e.now);
        return Granted;
      }
      return Denied;
    }

    method Take(c: Id, now: int)
      modifies this, inputCtrl
      ensures inputCtrl.Valid() && View() == Taken(old(View()), c, now)
    {
      var _ := inputCtrl.ReleaseAllKeys();
      currentController, controllerExpiry := Some(c), now + LEASE;
      tenure := tenure + 1;
    }

    method GiveUpControl()
      modifies this, inputCtrl
      ensures inputCtrl.Valid() && View() == Free(old(View()))
    {
      var _ := inputCtrl.ReleaseAllKeys();
      currentController, controllerExpiry := None, 0;
    }

    method ReleaseControl(c: Id)
      requires inputCtrl.Valid()
      modifies this, inputCtrl
      ensures inputCtrl.Valid()
      ensures View() == if old(currentController) == Some(c) then Free(old(View())) else old(View())
    {
      if currentController == Some(c) {
        GiveUpControl();
      }
    }

    method UnregisterClient(c: Id)
      requires inputCtrl.Valid()
      modifies this, inputCtrl
      ensures inputCtrl.Valid() && View() == Unregistered(old(View()), c)
    {
      if c !in clients {
        return;
      }
      clients := clients - {c};
      var wasController := currentController == Some(c);
      if wasController {
        currentController, controllerExpiry := None, 0;
      }
      if wasController {
        var _ := inputCtrl.ReleaseAllKeys();
      }
    }

    method KickAllClients() returns (rejected: set<Id>)
      modifies this, inputCtrl
      ensures inputCtrl.Valid() && View() == Kicked(old(View()))
      ensures rejected == old(clients)
    {
      rejected := {};
      while clients != {}
        invariant rejected + clients == old(clients)
        invariant View() == old(View()).(clients := clients)
        decreases clients
      {
        var c :| c in clients;
        rejected, clients := rejected + {c}, clients - {c};
      }
      currentController, controllerExpiry := None, 0;
      var _ := inputCtrl.ReleaseAllKeys();
    }

    method ExpireControl(now: int, local: bool)
      requires inputCtrl.Valid()
      modifies this, inputCtrl
      ensures inputCtrl.Valid() && View() == Expired(old(View()), now, local)
    {
      if currentController.Some? {
        var valid := ValidLocked(currentController.value, now);
        if now > controllerExpiry || !valid || local {
          GiveUpControl();
        }
      }
    }

    method GrantToken(c: Id, token: string, now: int) returns (ok: bool)
      requires inputCtrl.Valid()
      modifies this, inputCtrl
      ensures inputCtrl.Valid() && View() == Regranted(old(View()), c, token, now)
      ensures ok == (Live(old(View()), token, now) && c in old(clients))
    {
      if token !in sessions || now > sessions[token].expires {
        return false;
      }
      var role := sessions[token].role;
      if c !in clients {
        return false;
      }
      if currentController == Some(c) {
        GiveUpControl();
      }
      var old' := Known(c).token;
      if old' != "" && old' != token {
        sessions := sessions - {old'};
      }
      info := info[c := Member(token, role, true)];
      return true;
    }

    /** One key event; the log is what the system was handed. */
    method PressOne(c: Id, vk: int, down: bool, ok: bool) returns (log: seq<Injection>)
      requires inputCtrl.Valid()
      modifies inputCtrl
      ensures inputCtrl.Valid()
      ensures View() == if ok then Pressed(old(View()), c, Key(vk), down) else old(View())
      ensures log == if ok then [Injection(c, Known(c).token, if down then Down(Key(vk)) else Up(Key(vk)))] else []
    {
      inputCtrl.Send(Key(vk), down, ok, Press(c, tenure));
      log := if ok then [Injection(c, Known(c).token, if down then Down(Key(vk)) else Up(Key(vk)))] else [];
    }

    /** Key events in turn. */
    method PressAll(c: Id, keys: seq<(int, bool)>, took: seq<bool>) returns (log: seq<Injection>)
      requires inputCtrl.Valid()
      modifies inputCtrl
      ensures inputCtrl.Valid()
      ensures (View(), log) == SendKeys(old(View()), c, keys, took)
    {
      log := [];
      var left, fate := keys, took;
      ghost var all := SendKeys(View(), c, keys, took);
      while left != []
        invariant inputCtrl.Valid() && View() == old(View()).(held := inputCtrl.held)
        invariant SendKeys(View(), c, left, fate).0 == all.0 && log + SendKeys(View(), c, left, fate).1 == all.1
        decreases |left|
      {
        SendKeysHead(View(), c, left, fate, log);
        var one := PressOne(c, left[0].0, left[0].1, fate != [] && fate[0]);
        left, fate := left[1..], if fate == [] then [] else fate[1..];
        log := log + one;
      }
      assert log + [] == log;
    }

    method InjectCommand(c: Id, cmd: Command, e: Env) returns (log: seq<Injection>)
      requires inputCtrl.Valid()
      modifies inputCtrl
      ensures inputCtrl.Valid()
      ensures (View(), log) == Inject(old(View()), c, cmd, e)
    {
      var token := Known(c).token;
      log := [];
      match cmd {
        case MouseMove => if Took(e, 0) { log := [Injection(c, token, Move)]; }
        case MouseWheel => if Took(e, 0) { log := [Injection(c, token, Wheel)]; }
        case TypeText => if Took(e, 0) { log := [Injection(c, token, Text)]; }
        case MouseButton(button, down) =>
          if 0 <= button <= 2 && Took(e, 0) {
            inputCtrl.Send(Button(button), down, true, Press(c, tenure));
            log := [Injection(c, token, if down then Down(Button(button)) else Up(Button(button)))];
          }
        case KeyPress(vk, down) =>
          if Known(c).role < ADMIN && Blocked(inputCtrl.pressed, vk, down) {
            return;
          }
          log := PressAll(c, [(vk, down)], e.took);
        case Paste => log := PressAll(c, PASTE_KEYS, e.took);
        case SpecialKey(name) => log := PressAll(c, SpecialKeys(name), e.took);
        case _ =>
      }
    }

    /** A token issued for a matched password is a fresh random value. */
    method Authenticate(c: Id, cmd: Command, now: int)
      requires inputCtrl.Valid()
      requires cmd.AuthLogin? ==> cmd.token !in issued && cmd.token != ""
      modifies this
      ensures inputCtrl.Valid() && View() == Admitted(old(View()), c, cmd, now)
    {
      match cmd {
        case AuthToken(token) =>
          if token != "" && token in sessions && now <= sessions[token].expires {
            info := info[c := Member(token, sessions[token].role, true)];
          }
        case AuthLogin(token, role, expires) =>
          sessions, issued := sessions[token := Session(role, expires)], issued + {token};
          info := info[c := Member(token, role, true)];
        case _ =>
      }
    }

    method HandleClientCommand(c: Id, cmd: Command, e: Env) returns (log: seq<Injection>)
      requires inputCtrl.Valid() && c in info
      requires cmd.AuthLogin? ==> cmd.token !in issued && cmd.token != ""
      modifies this, inputCtrl
      ensures inputCtrl.Valid()
      ensures (View(), log) == Execute(old(View()), c, cmd, e)
    {
      var m, valid := Known(c), ValidLocked(c, e.now);
      log := [];
      if m.authed && !valid {
        return;
      }
      if !m.authed {
        Authenticate(c, cmd, e.now);
        return;
      }
      match cmd {
        case ReleaseAllKeys =>
          if m.role >= STANDARD && currentController == Some(c) && e.now < controllerExpiry {
            var _ := inputCtrl.ReleaseAllKeys();
          }
        case ReleaseControl => ReleaseControl(c);
        case _ => log := Operate(c, cmd, e);
      }
    }

    predicate CanApply(c: Id, cmd: Command, e: Env)
      reads this, inputCtrl
      ensures CanApply(c, cmd, e) == Applies(View(), c, cmd, e)
    {
      match cmd
      case SpecialKey(name) => name != "ctrl_alt_del"
      case ImageUpload(enabled) =>
        enabled && !e.local && Known(c).role >= STANDARD
        && currentController == Some(c) && e.now < controllerExpiry && ValidLocked(c, e.now)
      case _ => !cmd.AuthToken? && !cmd.AuthLogin? && !cmd.ReleaseAllKeys? && !cmd.ReleaseControl? && !cmd.Other?
    }

    /** Commands that need control: the role filter, the application for control, the injection. */
    method Operate(c: Id, cmd: Command, e: Env) returns (log: seq<Injection>)
      requires inputCtrl.Valid() && c in info && info[c].authed && ValidLocked(c, e.now)
      requires !cmd.ReleaseAllKeys? && !cmd.ReleaseControl?
      modifies this, inputCtrl
      ensures inputCtrl.Valid()
      ensures (View(), log) == Execute(old(View()), c, cmd, e)
    {
      log := [];
      if info[c].role < RoleNeeded(cmd) || !CanApply(c, cmd, e) {
        return;
      }
      var d := TryAcquireControl(c, e);
      if d == Granted {
        log := InjectCommand(c, cmd, e);
      }
    }
  }
}
