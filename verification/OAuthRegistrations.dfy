/** Dynamic client registration: the budget of an initial access token, and the limit of an
    open issuer. */
module OAuthRegistrations {
  import opened Common
  import opened Uuid
  import opened OAuthRecords
  import opened OAuthSpec
  import opened OAuthProtocol
  import opened OAuthPreservation
  import opened OAuthRegistry

  // ----- the budget of an initial access token -----

  /** The event registers a client against initial access token `t`. */
  predicate Registers(sys: System, e: Event, t: Id) {
    && e.AdminEvent? && e.op.CreateClientOp? && e.op.initialId == t && t != NO_ID && Unminted(sys.minted, Draws(e.op))
    && CreateClient(sys.store, e.op.client, t, e.op.at, e.commits).reply.Ok?
  }

  function Registrations(sys: System, events: seq<Event>, t: Id): nat
    decreases |events|
  {
    if events == [] then 0
    else (if Registers(sys, events[0], t) then 1 else 0) + Registrations(Apply(sys, events[0]), events[1..], t)
  }

  /** The token has `spent` registrations more than before, still within its limit. */
  predicate Spent(c: Config, d: Config, t: Id, spent: nat)
    requires t in c.initialTokens
  {
    && t in d.initialTokens
    && d.initialTokens[t].maxRegistrations == c.initialTokens[t].maxRegistrations
    && d.initialTokens[t].registrations == c.initialTokens[t].registrations + spent
    && (spent > 0 ==> d.initialTokens[t].registrations <= d.initialTokens[t].maxRegistrations)
  }

  lemma RegistrationSpends(s: State, client: Client, initialId: Id, at: Time, commits: bool, t: Id)
    requires t in s.config.initialTokens
    ensures var a := CreateClient(s, client, initialId, at, commits);
      Spent(s.config, a.state.config, t, if a.reply.Ok? && initialId == t && t != NO_ID then 1 else 0)
  {
  }

  lemma OtherOpSpendsNothing(s: State, op: AdminOp, commits: bool, t: Id)
    requires t in s.config.initialTokens && !op.CreateClientOp?
    ensures Spent(s.config, Administer(s, op, commits).config, t, 0)
  {
  }

  lemma StepSpendsNothing(s: State, call: Call, env: Env)
    ensures Advance(s, call, env).state.config.initialTokens == s.config.initialTokens
  {
    if !call.Refetching? {
      ConfigUntouched(s, call, env);
    }
  }

  lemma AdminSpends(sys: System, op: AdminOp, commits: bool, t: Id)
    requires t in sys.store.config.initialTokens
    ensures var e := AdminEvent(op, commits);
      Spent(sys.store.config, Apply(sys, e).store.config, t, if Registers(sys, e, t) then 1 else 0)
  {
    if op.CreateClientOp? {
      RegistrationSpends(sys.store, op.client, op.initialId, op.at, commits, t);
    } else {
      OtherOpSpendsNothing(sys.store, op, commits, t);
    }
  }

  lemma EventSpends(sys: System, e: Event, t: Id)
    requires t in sys.store.config.initialTokens
    ensures Spent(sys.store.config, Apply(sys, e).store.config, t, if Registers(sys, e, t) then 1 else 0)
  {
    match e
    case AdminEvent(op, commits) => AdminSpends(sys, op, commits, t);
    case StepEvent(c, env) =>
      if c in sys.calls {
        StepSpendsNothing(sys.store, sys.calls[c], env);
      }
    case _ =>
  }

  /** Over every run a token's count is what it was plus the registrations made with it, and
      these never exceed what was left of its budget. */
  lemma {:induction false} BudgetIsKept(sys: System, events: seq<Event>, t: Id)
    requires t in sys.store.config.initialTokens
    ensures Spent(sys.store.config, Run(sys, events).store.config, t, Registrations(sys, events, t))
    ensures var token := sys.store.config.initialTokens[t];
      token.registrations <= token.maxRegistrations ==>
        Registrations(sys, events, t) <= token.maxRegistrations - token.registrations
    decreases |events|
  {
    if events != [] {
      EventSpends(sys, events[0], t);
      BudgetIsKept(Apply(sys, events[0]), events[1..], t);
    }
  }

  predicate WithinBudget(c: Config) {
    forall t | t in c.initialTokens :: 0 <= c.initialTokens[t].registrations <= c.initialTokens[t].maxRegistrations
  }

  /** A token comes into being unspent, with a positive budget. */
  lemma NewTokenIsUnspent(s: State, op: AdminOp, commits: bool, t: Id)
    requires t !in s.config.initialTokens && t in Administer(s, op, commits).config.initialTokens
    ensures var token := Administer(s, op, commits).config.initialTokens[t];
      token.registrations == 0 && token.maxRegistrations >= 1
  {
    assert op.CreateInitialTokenOp?;
  }

  lemma EventWithinBudget(sys: System, e: Event)
    requires WithinBudget(sys.store.config)
    ensures WithinBudget(Apply(sys, e).store.config)
  {
    var c, d := sys.store.config, Apply(sys, e).store.config;
    forall t | t in d.initialTokens ensures 0 <= d.initialTokens[t].registrations <= d.initialTokens[t].maxRegistrations {
      if t in c.initialTokens {
        EventSpends(sys, e, t);
      } else if e.AdminEvent? {
        NewTokenIsUnspent(sys.store, e.op, e.commits, t);
      } else if e.StepEvent? && e.callId in sys.calls {
        StepSpendsNothing(sys.store, sys.calls[e.callId], e.env);
      }
    }
  }

  lemma {:induction false} RunWithinBudget(sys: System, events: seq<Event>)
    requires WithinBudget(sys.store.config)
    ensures WithinBudget(Run(sys, events).store.config)
    decreases |events|
  {
    if events != [] {
      EventWithinBudget(sys, events[0]);
      RunWithinBudget(Apply(sys, events[0]), events[1..]);
    }
  }

  /** In every reachable state no initial access token has registered beyond its budget. */
  lemma ReachableWithinBudget(sys: System)
    requires Reachable(sys)
    ensures WithinBudget(sys.store.config)
  {
    var events: seq<Event> :| sys == Run(INITIAL, events);
    RunWithinBudget(INITIAL, events);
  }

  /** A registration needs a stored token of the client's issuer that is neither revoked nor
      expired nor spent, and stores the client. */
  lemma RegistrationNeeds(sys: System, e: Event, t: Id)
    requires Registers(sys, e, t)
    ensures var c, d := sys.store.config, Apply(sys, e).store.config;
      && t in c.initialTokens && c.initialTokens[t].issuerId == e.op.client.issuerId && c.initialTokens[t].revokedAt.None?
      && e.op.at < c.initialTokens[t].expiresAt && c.initialTokens[t].registrations < c.initialTokens[t].maxRegistrations
      && e.op.client.id in d.clients && d.clients[e.op.client.id] == e.op.client
  {
  }

  predicate InitialRevoked(c: Config, t: Id) {
    t in c.initialTokens && c.initialTokens[t].revokedAt.Some?
  }

  lemma AdminKeepsInitialRevoked(s: State, op: AdminOp, commits: bool, t: Id)
    requires InitialRevoked(s.config, t)
    ensures InitialRevoked(Administer(s, op, commits).config, t)
  {
  }

  lemma EventKeepsInitialRevoked(sys: System, e: Event, t: Id)
    requires InitialRevoked(sys.store.config, t)
    ensures InitialRevoked(Apply(sys, e).store.config, t)
  {
    match e
    case AdminEvent(op, commits) => AdminKeepsInitialRevoked(sys.store, op, commits, t);
    case StepEvent(c, env) => if c in sys.calls { StepSpendsNothing(sys.store, sys.calls[c], env); }
    case _ =>
  }

  lemma {:induction false} RevokedRegistersNothing(sys: System, events: seq<Event>, t: Id)
    requires InitialRevoked(sys.store.config, t)
    ensures Registrations(sys, events, t) == 0
    decreases |events|
  {
    if events != [] {
      if Registers(sys, events[0], t) {
        RegistrationNeeds(sys, events[0], t);
      }
      EventKeepsInitialRevoked(sys, events[0], t);
      RevokedRegistersNothing(Apply(sys, events[0]), events[1..], t);
    }
  }

  /** Once an initial access token is revoked, no client is registered with it in any
      continuation. */
  lemma RevocationEndsRegistration(sys: System, t: Id, at: Time, events: seq<Event>)
    requires t in sys.store.config.initialTokens
    ensures Registrations(Apply(sys, AdminEvent(RevokeInitialTokenOp(t, at), true)), events, t) == 0
  {
    RevokedRegistersNothing(Apply(sys, AdminEvent(RevokeInitialTokenOp(t, at), true)), events, t);
  }

  // ----- the limit of an open issuer -----

  predicate Open(c: Config, issuerId: Id) {
    issuerId in c.issuers && c.issuers[issuerId].dcrMode.DcrOpen?
  }

  function Active(c: Config, issuerId: Id): nat {
    |ActiveDcrClients(c, issuerId)|
  }

  predicate Exceeded(c: Config, issuerId: Id)
    requires issuerId in c.issuers
  {
    Active(c, issuerId) > c.issuers[issuerId].dcrOpenLimit
  }

  /** Enabling a disabled dynamic client again, with the limit already reached. */
  predicate Reenables(c: Config, e: Event, issuerId: Id)
    requires issuerId in c.issuers
  {
    && e.AdminEvent? && e.commits && e.op.SetClientDisabledOp? && !e.op.disabled && e.op.id in c.clients
    && c.clients[e.op.id].issuerId == issuerId && c.clients[e.op.id].source.Dcr? && c.clients[e.op.id].disabledAt.Some?
    && Active(c, issuerId) == c.issuers[issuerId].dcrOpenLimit
  }

  /** Updating the issuer with a limit below what is active. */
  predicate Lowers(c: Config, e: Event, issuerId: Id)
    requires issuerId in c.issuers
  {
    && e.AdminEvent? && e.commits && e.op.UpdateIssuerOp? && e.op.issuer.id == issuerId
    && c.issuers[issuerId].url == e.op.issuer.url && e.op.issuer.dcrOpenLimit < Active(c, issuerId)
  }

  lemma FewerElements(a: set<Id>, b: set<Id>)
    requires a <= b
    ensures |a| <= |b|
  {
    assert b == a + (b - a);
  }

  lemma RegistrationWithinLimit(s: State, client: Client, initialId: Id, at: Time, commits: bool, issuerId: Id)
    requires Open(s.config, issuerId) && !Exceeded(s.config, issuerId)
    ensures var d := CreateClient(s, client, initialId, at, commits).state.config;
      d.issuers == s.config.issuers && !Exceeded(d, issuerId)
  {
    var c, d := s.config, CreateClient(s, client, initialId, at, commits).state.config;
    if d != c {
      if client.issuerId == issuerId && client.source.Dcr? {
        FewerElements(ActiveDcrClients(d, issuerId), ActiveDcrClients(c, issuerId) + {client.id});
      } else {
        FewerElements(ActiveDcrClients(d, issuerId), ActiveDcrClients(c, issuerId));
      }
    }
  }

  lemma ReenablingCounts(s: State, id: Id, disabled: bool, at: Time, commits: bool, issuerId: Id)
    requires issuerId in s.config.issuers && !Exceeded(s.config, issuerId)
    ensures var d := SetClientDisabled(s, id, disabled, at, commits).state.config;
      d.issuers == s.config.issuers &&
      (Exceeded(d, issuerId) <==> Reenables(s.config, AdminEvent(SetClientDisabledOp(id, disabled, at), commits), issuerId))
  {
    var c, d := s.config, SetClientDisabled(s, id, disabled, at, commits).state.config;
    if id in c.clients && commits {
      var before, after := ActiveDcrClients(c, issuerId), ActiveDcrClients(d, issuerId);
      if !disabled && c.clients[id].issuerId == issuerId && c.clients[id].source.Dcr? && c.clients[id].disabledAt.Some? {
        assert after == before + {id};
      } else {
        FewerElements(after, before);
      }
    }
  }

  lemma RefetchWithinLimit(s: State, client: Client, commits: bool, issuerId: Id)
    requires issuerId in s.config.issuers && !Exceeded(s.config, issuerId) && client.source.Cimd?
    ensures var d := UpsertCimdClient(s, client, commits).state.config;
      d.issuers == s.config.issuers && !Exceeded(d, issuerId)
  {
    var d := UpsertCimdClient(s, client, commits).state.config;
    FewerElements(ActiveDcrClients(d, issuerId), ActiveDcrClients(s.config, issuerId));
  }

  lemma OtherOpWithinLimit(s: State, op: AdminOp, commits: bool, issuerId: Id)
    requires issuerId in s.config.issuers && !Exceeded(s.config, issuerId)
    requires !op.CreateClientOp? && !op.SetClientDisabledOp? && !op.UpdateIssuerOp?
    ensures var d := Administer(s, op, commits).config; issuerId in d.issuers && !Exceeded(d, issuerId)
  {
    var d := Administer(s, op, commits).config;
    FewerElements(ActiveDcrClients(d, issuerId), ActiveDcrClients(s.config, issuerId));
  }

  lemma UpdateWithinLimit(s: State, issuer: Issuer, commits: bool, issuerId: Id)
    requires issuerId in s.config.issuers && !Exceeded(s.config, issuerId)
    ensures var d := UpdateIssuer(s, issuer, commits).state.config;
      issuerId in d.issuers &&
      (Exceeded(d, issuerId) <==> Lowers(s.config, AdminEvent(UpdateIssuerOp(issuer), commits), issuerId))
  {
    var c, d := s.config, UpdateIssuer(s, issuer, commits).state.config;
    assert ActiveDcrClients(d, issuerId) == ActiveDcrClients(c, issuerId);
  }

  lemma AdminLimitIff(sys: System, op: AdminOp, commits: bool, issuerId: Id)
    requires Open(sys.store.config, issuerId) && !Exceeded(sys.store.config, issuerId)
    ensures var c, d, e := sys.store.config, Apply(sys, AdminEvent(op, commits)).store.config, AdminEvent(op, commits);
      issuerId in d.issuers && (Exceeded(d, issuerId) <==> Reenables(c, e, issuerId) || Lowers(c, e, issuerId))
  {
    if op.CreateClientOp? {
      RegistrationWithinLimit(sys.store, op.client, op.initialId, op.at, commits, issuerId);
    } else if op.SetClientDisabledOp? {
      ReenablingCounts(sys.store, op.id, op.disabled, op.at, commits, issuerId);
    } else if op.UpdateIssuerOp? {
      UpdateWithinLimit(sys.store, op.issuer, commits, issuerId);
    } else {
      OtherOpWithinLimit(sys.store, op, commits, issuerId);
    }
  }

  /** Refetches under way store metadata-document clients. */
  predicate RefetchesAreCimd(calls: map<CallId, Call>) {
    forall c | c in calls :: calls[c].Refetching? ==> calls[c].client.source.Cimd?
  }

  lemma ApplyKeepsCimd(sys: System, e: Event)
    requires RefetchesAreCimd(sys.calls)
    ensures RefetchesAreCimd(Apply(sys, e).calls)
  {
    if e.StepEvent? && e.callId in sys.calls && Advance(sys.store, sys.calls[e.callId], e.env).call.Refetching? {
      OnlyResolvingRefetches(sys.store, sys.calls[e.callId], e.env);
    }
  }

  lemma {:induction false} RunKeepsCimd(sys: System, events: seq<Event>)
    requires RefetchesAreCimd(sys.calls)
    ensures RefetchesAreCimd(Run(sys, events).calls)
    decreases |events|
  {
    if events != [] {
      ApplyKeepsCimd(sys, events[0]);
      RunKeepsCimd(Apply(sys, events[0]), events[1..]);
    }
  }

  lemma LimitStep(sys: System, e: Event, issuerId: Id)
    requires Open(sys.store.config, issuerId) && !Exceeded(sys.store.config, issuerId) && RefetchesAreCimd(sys.calls)
    ensures var c, d := sys.store.config, Apply(sys, e).store.config;
      issuerId in d.issuers && (Exceeded(d, issuerId) <==> Reenables(c, e, issuerId) || Lowers(c, e, issuerId))
  {
    match e
    case AdminEvent(op, commits) => AdminLimitIff(sys, op, commits, issuerId);
    case StepEvent(i, env) =>
      if i in sys.calls {
        if sys.calls[i].Refetching? {
          RefetchStep(sys, i, env);
          RefetchWithinLimit(sys.store, sys.calls[i].client, env.commits, issuerId);
        } else {
          ConfigUntouched(sys.store, sys.calls[i], env);
        }
      }
    case _ =>
  }

  /** While an issuer is open and within its limit, an event takes it beyond the limit
      exactly if it enables a disabled dynamic client again at the limit, which is not
      counted against it, or lowers the limit. */
  lemma LimitExceededIff(sys: System, e: Event, issuerId: Id)
    requires Reachable(sys) && Open(sys.store.config, issuerId) && !Exceeded(sys.store.config, issuerId)
    ensures var c, d := sys.store.config, Apply(sys, e).store.config;
      issuerId in d.issuers && (Exceeded(d, issuerId) <==> Reenables(c, e, issuerId) || Lowers(c, e, issuerId))
  {
    var events: seq<Event> :| sys == Run(INITIAL, events);
    RunKeepsCimd(INITIAL, events);
    LimitStep(sys, e, issuerId);
  }

  /** The issuer stays open through a run, and no event re-enables at the limit or lowers it. */
  predicate Undisturbed(sys: System, events: seq<Event>, issuerId: Id)
    decreases |events|
  {
    && Open(sys.store.config, issuerId)
    && (events == [] ||
        (!Reenables(sys.store.config, events[0], issuerId) && !Lowers(sys.store.config, events[0], issuerId) &&
         Undisturbed(Apply(sys, events[0]), events[1..], issuerId)))
  }

  lemma {:induction false} RunWithinLimit(sys: System, events: seq<Event>, issuerId: Id)
    requires Undisturbed(sys, events, issuerId) && !Exceeded(sys.store.config, issuerId) && RefetchesAreCimd(sys.calls)
    ensures issuerId in Run(sys, events).store.config.issuers && !Exceeded(Run(sys, events).store.config, issuerId)
    decreases |events|
  {
    if events != [] {
      LimitStep(sys, events[0], issuerId);
      ApplyKeepsCimd(sys, events[0]);
      RunWithinLimit(Apply(sys, events[0]), events[1..], issuerId);
    }
  }

  /** So over every such run the active dynamic clients stay within the limit. */
  lemma LimitIsKept(sys: System, events: seq<Event>, issuerId: Id)
    requires Reachable(sys) && Undisturbed(sys, events, issuerId) && !Exceeded(sys.store.config, issuerId)
    ensures issuerId in Run(sys, events).store.config.issuers && !Exceeded(Run(sys, events).store.config, issuerId)
  {
    var before: seq<Event> :| sys == Run(INITIAL, before);
    RunKeepsCimd(INITIAL, before);
    RunWithinLimit(sys, events, issuerId);
  }
}
