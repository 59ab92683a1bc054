/**
 The two-party protocol: a relying party and the server over a network that may lose, delay or
 reorder messages, with concurrent browser requests, and every other client, user and
 administrator acting on the server in between. The relying party never presents a refresh token
 twice, so the server's reuse detection never fires against it.
 */
module Protocol {
  import opened Schema
  import opened TokenPolicy
  import opened Tokens
  import opened Invariants
  import opened Machine
  import opened RelyingParty
  import TokenProofs
  import Sessions
  import Accounts
  import Authorization
  import Logouts
  import Cleanup
  import Reuse
  import Revocation

  /** A refresh response on its way back to the handler that made the claim. */
  datatype Answer = Answer(claim: Claim, tokens: TokenSet)

  datatype World = World(
    server: State,
    jar: Jar,
    requests: set<Claim>,      // refresh requests sent and not yet received
    answers: set<Answer>,      // refresh responses sent and not yet received
    logins: set<TokenSet>,     // code exchange responses not yet stored
    presented: seq<string>,    // every refresh token the relying party has ever sent, in order
    processed: set<string>)    // those the server has received

  /** One move. The relying party reads its own clock, `now`. */
  datatype Move =
    | Elsewhere(tick: Tick)
    | Browse(now: Time, id: string)
    | Visit(now: Time, id: string, csrf: string)
    | StartLogin(now: Time, id: string, attempt: Attempt)
    | AbandonLogin(now: Time, id: string, pending: Option<Attempt>)
    | Redeem(x: ExchangeInput, draws: CodeDraws, idToken: string)
    | StoreLogin(now: Time, id: string, pending: Option<Attempt>, identity: string, tokens: TokenSet, newId: string,
                 csrf: string)
    | SendRefresh(now: Time, id: string, csrf: string)
    | Receive(claim: Claim, refreshDraws: RefreshDraws)
    | StoreAnswer(now: Time, answer: Answer)
    | GiveUp(now: Time, claim: Claim)
    | AskLogout(now: Time, id: string, idToken: string, csrf: string, state: string)
    | LoggedOut(now: Time, id: string, state: string)

  /** The relying party's authenticated identity at the server. */
  datatype Party = Party(settings: Settings, caller: Caller)

  /** Only the relying party itself refreshes with its own credentials. */
  predicate Impersonates(p: Party, e: Event) {
    e.TokenRefreshed? && e.refresh.caller.id == p.caller.id
  }

  function Received(r: Response, idToken: string): TokenSet {
    TokenSet(r.access.jti, if r.refresh.Some? then r.refresh.value else "", idToken, r.scopes)
  }

  /** The server receives one refresh request: it may rotate, refuse or, were the token consumed, detect reuse. */
  ghost function Handle(p: Party, w: World, token: string, d: RefreshDraws): (State, RefreshOutcome) {
    var digest := DigestPresented(token);
    if digest.None? then (w.server, Refused(InvalidGrant))
    else
      var result := Refresh(w.server.db, p.settings.config, RefreshInput(digest.value, p.caller, None), d,
                            w.server.clock);
      (w.server.(db := result.0), result.1)
  }

  ghost function Next(p: Party, w: World, m: Move): World {
    match m
    case Elsewhere(tick) =>
      if Impersonates(p, tick.event) then w else w.(server := Step(p.settings, w.server, tick))
    case Browse(now, id) => w.(jar := Get(w.jar, id, now))
    case Visit(now, id, csrf) => w.(jar := Create(w.jar, id, csrf, now).0)
    case StartLogin(now, id, attempt) => w.(jar := BeginAuthorization(w.jar, id, attempt, now).0)
    case AbandonLogin(now, id, pending) => w.(jar := ClearPending(w.jar, id, pending, now).0)
    case Redeem(x, draws, idToken) =>
      var result := Exchange(w.server.db, p.settings.config, x.(caller := p.caller), draws, w.server.clock);
      var after := w.(server := w.server.(db := result.0));
      if result.1.Issued? then after.(logins := w.logins + {Received(result.1.response, idToken)}) else after
    case StoreLogin(now, id, pending, identity, tokens, newId, csrf) =>
      if tokens in w.logins then
        w.(jar := Complete(w.jar, id, pending, identity, tokens, newId, csrf, now).0, logins := w.logins - {tokens})
      else w
    case SendRefresh(now, id, csrf) =>
      var (jar, claim) := ClaimRefresh(w.jar, id, csrf, now);
      if claim.None? then w.(jar := jar)
      else w.(jar := jar, requests := w.requests + {claim.value}, presented := w.presented + [claim.value.token])
    case Receive(claim, d) =>
      if claim !in w.requests then w
      else
        var (server, outcome) := Handle(p, w, claim.token, d);
        var after := w.(server := server, requests := w.requests - {claim}, processed := w.processed + {claim.token});
        if outcome.Rotated? then after.(answers := w.answers + {Answer(claim, Received(outcome.response, ""))})
        else after
    case StoreAnswer(now, answer) =>
      if answer in w.answers then
        w.(jar := ReplaceRefresh(w.jar, answer.claim, answer.tokens, now).0, answers := w.answers - {answer})
      else w
    case GiveUp(now, claim) => w.(jar := FailRefresh(w.jar, claim, now).0)
    case AskLogout(now, id, idToken, csrf, state) => w.(jar := BeginLogout(w.jar, id, idToken, csrf, state, now).0)
    case LoggedOut(now, id, state) => w.(jar := FinishLogout(w.jar, id, state, now).0)
  }

  ghost function Play(p: Party, w: World, moves: seq<Move>): World
    decreases |moves|
  {
    if moves == [] then w else Play(p, Next(p, w, moves[0]), moves[1..])
  }

  const OPENING: World := World(START, Jar(map[], 0), {}, {}, {}, [], {})

  // ----- The invariant -----

  /** A session that could present its token now. */
  predicate Idle(s: BrowserSession) {
    s.refreshInFlight == 0 && s.tokens.refresh != ""
  }

  /** The server has stored this token's digest. */
  ghost predicate Known(db: Db, token: string) {
    HashRefresh(token) in db.usedHashes
  }

  /** Every token in play was issued by the server. */
  ghost predicate AllKnown(w: World) {
    && (forall id :: id in w.jar.sessions && Idle(w.jar.sessions[id]) ==>
          Known(w.server.db, w.jar.sessions[id].tokens.refresh))
    && (forall a :: a in w.answers && a.tokens.refresh != "" ==> Known(w.server.db, a.tokens.refresh))
    && (forall t :: t in w.logins && t.refresh != "" ==> Known(w.server.db, t.refresh))
    && (forall i :: 0 <= i < |w.presented| ==> Known(w.server.db, w.presented[i]))
  }

  /** Idle sessions hold different tokens, none of them presented. */
  ghost predicate JarUnspent(jar: Jar, presented: seq<string>) {
    && (forall id :: id in jar.sessions && Idle(jar.sessions[id]) ==> jar.sessions[id].tokens.refresh !in presented)
    && (forall i, j ::
          i in jar.sessions && j in jar.sessions && Idle(jar.sessions[i]) && Idle(jar.sessions[j]) &&
          jar.sessions[i].tokens.refresh == jar.sessions[j].tokens.refresh
          ==> i == j)
  }

  /** So do responses on their way, and they differ from what the sessions hold. */
  ghost predicate MailUnspent(jar: Jar, answers: set<Answer>, logins: set<TokenSet>, presented: seq<string>) {
    && (forall a :: a in answers && a.tokens.refresh != "" ==> a.tokens.refresh !in presented)
    && (forall t :: t in logins && t.refresh != "" ==> t.refresh !in presented)
    && (forall a, b ::
          a in answers && b in answers && a.tokens.refresh != "" && a.tokens.refresh == b.tokens.refresh ==> a == b)
    && (forall t, u :: t in logins && u in logins && t.refresh != "" && t.refresh == u.refresh ==> t == u)
    && (forall a, t :: a in answers && t in logins && a.tokens.refresh != "" ==> a.tokens.refresh != t.refresh)
    && (forall i, a :: i in jar.sessions && a in answers && Idle(jar.sessions[i]) ==>
          jar.sessions[i].tokens.refresh != a.tokens.refresh)
    && (forall i, t :: i in jar.sessions && t in logins && Idle(jar.sessions[i]) ==>
          jar.sessions[i].tokens.refresh != t.refresh)
  }

  predicate NoRepeats(presented: seq<string>) {
    forall i, j :: 0 <= i < j < |presented| ==> presented[i] != presented[j]
  }

  /** Requests still under way carry presented tokens the server has not received, each once. */
  ghost predicate Underway(requests: set<Claim>, presented: seq<string>, processed: set<string>) {
    && (forall c :: c in requests ==> c.token in presented && c.token !in processed)
    && (forall c, d :: c in requests && d in requests && c.token == d.token ==> c == d)
    && (forall t :: t in processed ==> t in presented)
  }

  predicate OwnedBy(db: Db, g: Id, client: Id)
    requires g in db.generations
  {
    db.generations[g].family in db.families && db.families[db.generations[g].family].client == client
  }

  /** A consumed generation of the relying party's families was consumed by one of its own requests. */
  ghost predicate ConsumedByUs(db: Db, client: Id, processed: set<string>) {
    forall g :: g in db.generations && db.generations[g].consumedAt.Some? && OwnedBy(db, g, client) ==>
      exists t :: t in processed && HashRefresh(t) == db.generations[g].hash
  }

  ghost predicate Sound(p: Party, w: World) {
    && Good(w.server)
    && AllKnown(w)
    && JarUnspent(w.jar, w.presented)
    && MailUnspent(w.jar, w.answers, w.logins, w.presented)
    && NoRepeats(w.presented)
    && Underway(w.requests, w.presented, w.processed)
    && ConsumedByUs(w.server.db, p.caller.id, w.processed)
  }

  // ----- The server's side -----

  lemma RefreshConsumes(db: Db, c: Config, x: RefreshInput, d: RefreshDraws, now: Time, g: Id)
    requires Inv(db, now)
    requires var after := Refresh(db, c, x, d, now).0; g in after.generations && after.generations[g].consumedAt.Some?
    ensures g in db.generations
    ensures db.generations[g].consumedAt.Some? || (db.generations[g].hash == x.hash && OwnedBy(db, g, x.caller.id))
    ensures Refresh(db, c, x, d, now).0.generations[g].hash == db.generations[g].hash
  {
    hide Inv, SelectScopes, MintRefresh, ValidRefreshMinted, RefreshMintedFresh;
    if Refresh(db, c, x, d, now).1.Rotated? {
      var presented, scopes, m := TokenProofs.RotationOf(db, c, x, d, now);
    } else {
      hide RefreshLocked;
      Reuse.OnlyRotationConsumes(db, c, x, d, now);
    }
  }

  lemma ExchangeConsumes(db: Db, c: Config, x: ExchangeInput, d: CodeDraws, now: Time, g: Id)
    requires var after := Exchange(db, c, x, d, now).0; g in after.generations && after.generations[g].consumedAt.Some?
    ensures g in db.generations && db.generations[g].consumedAt.Some?
    ensures Exchange(db, c, x, d, now).0.generations[g] == db.generations[g]
  {
    hide ExchangeLocked, CodeAuthorized, Mint, ValidMinted, MintedFresh;
    if Exchange(db, c, x, d, now).1.Issued? {
      var m := TokenProofs.MintedFor(db, c, x, d, now);
    }
  }

  lemma CleaningConsumes(db: Db, table: Table, chosen: set<Id>, cutoff: Time, now: Time, g: Id)
    requires g in Clean(db, table, chosen, cutoff, now).generations
    ensures g in db.generations && Clean(db, table, chosen, cutoff, now).generations[g] == db.generations[g]
  {
    hide Cleanup.DeleteCodes, Cleanup.DeleteAccesses, Cleanup.DeleteFamilies, Cleanup.DeleteSessions;
    hide Cleanup.DeleteLogouts, Cleanup.DeleteTransactions, Cleanup.GenerationsRetired;
  }

  /** A generation becomes consumed only by a refresh with the credentials of the client that owns it. */
  lemma ConsumersOwn(s: Settings, db: Db, e: Event, now: Time, g: Id)
    requires Inv(db, now)
    requires var after := Apply(s, db, e, now); g in after.generations && after.generations[g].consumedAt.Some?
    ensures g in db.generations && Apply(s, db, e, now).generations[g].hash == db.generations[g].hash
    ensures db.generations[g].consumedAt.Some? ||
            (e.TokenRefreshed? && e.refresh.hash == db.generations[g].hash && OwnedBy(db, g, e.refresh.caller.id))
  {
    hide Inv, Accounts.CreateUser, Accounts.UpdateUser, Accounts.CreateClient, Accounts.UpdateClient,
         Accounts.RevokeGrant;
    hide Authorization.Begin, Authorization.Terminate, Authorization.Deny, Authorization.Issue;
    hide Exchange, Refresh, RevokeToken, Sessions.Login, Sessions.Register, Sessions.Touch, Sessions.RevokeSession;
    hide Sessions.RevokeSessionByHash, Sessions.RevokeOthers, Sessions.RevokeAll, Logouts.Start, Logouts.Bind,
         Logouts.Complete;
    hide Clean;
    if e.TokenRefreshed? {
      RefreshConsumes(db, s.config, e.refresh, e.refreshDraws, now, g);
    } else if e.CodeExchanged? {
      ExchangeConsumes(db, s.config, e.exchange, e.codeDraws, now, g);
    } else if e.Cleaned? {
      CleaningConsumes(db, e.table, e.chosen, now - e.retention, now, g);
    } else {
      Reuse.OthersLeaveGenerations(s, db, e, now);
    }
  }

  /** Families keep their client. */
  lemma OwnerStays(db: Db, after: Db, g: Id, client: Id, now: Time)
    requires Inv(db, now) && Stable(db, after)
    requires g in db.generations && g in after.generations && OwnedBy(after, g, client)
    ensures OwnedBy(db, g, client)
  {
    hide Inv, UsersStable, ClientsStable, GrantsStable, TransactionsStable, CodesStable;
    hide AccessesStable, SessionsStable, LogoutsStable;
    TokenProofs.GenerationRowOk(db, g, now);
  }

  lemma ElsewhereConsumes(p: Party, w: World, tick: Tick)
    requires Good(w.server) && !Impersonates(p, tick.event) && ConsumedByUs(w.server.db, p.caller.id, w.processed)
    ensures ConsumedByUs(Step(p.settings, w.server, tick).db, p.caller.id, w.processed)
  {
    hide Inv, Stable, Apply, OwnedBy;
    var db, now := w.server.db, w.server.clock + tick.elapsed;
    var after := Apply(p.settings, db, tick.event, now);
    TimePasses(db, w.server.clock, now);
    StepKeeps(p.settings, db, tick.event, now);
    forall g | g in after.generations && after.generations[g].consumedAt.Some? && OwnedBy(after, g, p.caller.id)
      ensures exists t :: t in w.processed && HashRefresh(t) == after.generations[g].hash
    {
      ConsumersOwn(p.settings, db, tick.event, now, g);
      OwnerStays(db, after, g, p.caller.id, now);
      if db.generations[g].consumedAt.None? { SameOwner(db, g, p.caller.id, tick.event.refresh.caller.id); }
    }
  }

  lemma SameOwner(db: Db, g: Id, a: Id, b: Id)
    requires g in db.generations && OwnedBy(db, g, a) && OwnedBy(db, g, b)
    ensures a == b
  {
  }

  lemma HashesGrow(db: Db, after: Db)
    requires Stable(db, after)
    ensures db.usedHashes <= after.usedHashes
  {
  }

  lemma ElsewhereSound(p: Party, w: World, tick: Tick)
    requires Sound(p, w)
    ensures Sound(p, Next(p, w, Elsewhere(tick)))
  {
    hide Inv, Stable, Apply, JarUnspent, MailUnspent, NoRepeats, Underway, ConsumedByUs;
    if !Impersonates(p, tick.event) {
      TickKeeps(p.settings, w.server, tick);
      ElsewhereConsumes(p, w, tick);
      HashesGrow(w.server.db, Step(p.settings, w.server, tick).db);
    }
  }

  // ----- The relying party's side -----

  /** Every idle session of one store is idle, with the same token, in another. */
  ghost predicate IdleWithin(after: Jar, before: Jar) {
    forall id :: id in after.sessions && Idle(after.sessions[id]) ==>
      id in before.sessions && Idle(before.sessions[id]) &&
      after.sessions[id].tokens.refresh == before.sessions[id].tokens.refresh
  }

  lemma WithinSound(p: Party, w: World, after: Jar)
    requires Sound(p, w) && IdleWithin(after, w.jar)
    ensures Sound(p, w.(jar := after))
  {
    hide Good, NoRepeats, Underway, ConsumedByUs;
  }

  // The operations that hand out and take in no token.

  lemma QuietBrowsing(j: Jar, id: string, csrf: string, now: Time)
    ensures IdleWithin(Get(j, id, now), j) && IdleWithin(Create(j, id, csrf, now).0, j)
  {
    hide Prune;
  }

  lemma QuietLogin(j: Jar, id: string, attempt: Attempt, now: Time)
    ensures IdleWithin(BeginAuthorization(j, id, attempt, now).0, j)
  {
    hide Prune;
  }

  lemma QuietClear(j: Jar, id: string, pending: Option<Attempt>, now: Time)
    ensures IdleWithin(ClearPending(j, id, pending, now).0, j)
  {
    hide Prune;
  }

  lemma QuietFail(j: Jar, c: Claim, now: Time)
    ensures IdleWithin(FailRefresh(j, c, now).0, j)
  {
    hide Prune;
  }

  lemma QuietLogout(j: Jar, id: string, idToken: string, csrf: string, state: string, now: Time)
    ensures IdleWithin(BeginLogout(j, id, idToken, csrf, state, now).0, j)
  {
    hide Prune;
  }

  lemma QuietFinish(j: Jar, id: string, state: string, now: Time)
    ensures IdleWithin(FinishLogout(j, id, state, now).0, j)
  {
    hide Prune;
  }

  /** A claim takes the token of an idle session, which then is no longer idle. */
  lemma ClaimFacts(j: Jar, id: string, csrf: string, now: Time)
    ensures var (after, claim) := ClaimRefresh(j, id, csrf, now);
      && IdleWithin(after, j)
      && (claim.Some? ==>
            && id in j.sessions && Idle(j.sessions[id]) && j.sessions[id].tokens.refresh == claim.value.token
            && id in after.sessions && !Idle(after.sessions[id]))
  {
    hide Prune;
  }

  /** Claiming presents a token that was never presented before. */
  lemma SendSound(p: Party, w: World, now: Time, id: string, csrf: string)
    requires Sound(p, w)
    ensures Sound(p, Next(p, w, SendRefresh(now, id, csrf)))
  {
    hide Good, ConsumedByUs, ClaimRefresh, JarUnspent, MailUnspent, Underway, NoRepeats, IdleWithin, Known;
    var (jar, claim) := ClaimRefresh(w.jar, id, csrf, now);
    ClaimFacts(w.jar, id, csrf, now);
    if claim.None? {
      WithinSound(p, w, jar);
    } else {
      var token := claim.value.token;
      IdleIsUnspent(w.jar, w.presented, id);
      SendUnspent(w, jar, id, token);
      SendUnderway(w, claim.value);
      PresentedKnown(w, jar, token, w.requests + {claim.value});
    }
  }

  lemma IdleIsUnspent(jar: Jar, presented: seq<string>, id: string)
    requires JarUnspent(jar, presented) && id in jar.sessions && Idle(jar.sessions[id])
    ensures jar.sessions[id].tokens.refresh !in presented
  {
  }

  lemma SendUnspent(w: World, jar: Jar, id: string, token: string)
    requires JarUnspent(w.jar, w.presented) && MailUnspent(w.jar, w.answers, w.logins, w.presented)
    requires id in w.jar.sessions && Idle(w.jar.sessions[id]) && w.jar.sessions[id].tokens.refresh == token
    requires IdleWithin(jar, w.jar) && (id in jar.sessions ==> !Idle(jar.sessions[id]))
    ensures JarUnspent(jar, w.presented + [token]) && MailUnspent(jar, w.answers, w.logins, w.presented + [token])
  {
  }

  lemma SendUnderway(w: World, claim: Claim)
    requires Underway(w.requests, w.presented, w.processed) && NoRepeats(w.presented) && claim.token !in w.presented
    ensures Underway(w.requests + {claim}, w.presented + [claim.token], w.processed)
    ensures NoRepeats(w.presented + [claim.token])
  {
    var after := w.presented + [claim.token];
    assert forall t :: t in w.presented ==> t in after;
    assert after[|w.presented|] == claim.token;
  }

  lemma PresentedKnown(w: World, jar: Jar, token: string, requests: set<Claim>)
    requires AllKnown(w) && Known(w.server.db, token) && IdleWithin(jar, w.jar)
    ensures AllKnown(w.(jar := jar, presented := w.presented + [token], requests := requests))
  {
  }

  // ----- Storing what arrives -----

  lemma ReplaceFacts(j: Jar, c: Claim, tokens: TokenSet, now: Time)
    ensures var after := ReplaceRefresh(j, c, tokens, now).0;
      forall id :: id in after.sessions && Idle(after.sessions[id]) ==>
        || (id in j.sessions && Idle(j.sessions[id]) &&
            after.sessions[id].tokens.refresh == j.sessions[id].tokens.refresh)
        || (id == c.session && after.sessions[id].tokens.refresh == tokens.refresh && tokens.refresh != "")
  {
    hide Prune;
  }

  lemma CompleteFacts(j: Jar, id: string, pending: Option<Attempt>, identity: string, tokens: TokenSet, newId: string,
                      csrf: string, now: Time)
    ensures var after := Complete(j, id, pending, identity, tokens, newId, csrf, now).0;
      forall k :: k in after.sessions && Idle(after.sessions[k]) ==>
        || (k in j.sessions && Idle(j.sessions[k]) && after.sessions[k].tokens.refresh == j.sessions[k].tokens.refresh)
        || (k == newId && after.sessions[k].tokens.refresh == tokens.refresh && tokens.refresh != "")
  {
    hide Prune;
  }

  /** Every idle session keeps its token, except that one may have taken in `token`. */
  ghost predicate TookIn(after: Jar, before: Jar, at: string, token: string) {
    forall id :: id in after.sessions && Idle(after.sessions[id]) ==>
      || (id in before.sessions && Idle(before.sessions[id]) &&
          after.sessions[id].tokens.refresh == before.sessions[id].tokens.refresh)
      || (id == at && after.sessions[id].tokens.refresh == token && token != "")
  }

  lemma AnswerStored(w: World, after: Jar, a: Answer)
    requires JarUnspent(w.jar, w.presented) && MailUnspent(w.jar, w.answers, w.logins, w.presented)
    requires a in w.answers && TookIn(after, w.jar, a.claim.session, a.tokens.refresh)
    ensures JarUnspent(after, w.presented) && MailUnspent(after, w.answers - {a}, w.logins, w.presented)
  {
  }

  lemma LoginStored(w: World, after: Jar, t: TokenSet, at: string)
    requires JarUnspent(w.jar, w.presented) && MailUnspent(w.jar, w.answers, w.logins, w.presented)
    requires t in w.logins && TookIn(after, w.jar, at, t.refresh)
    ensures JarUnspent(after, w.presented) && MailUnspent(after, w.answers, w.logins - {t}, w.presented)
  {
  }

  lemma StoredKnown(w: World, after: Jar, answers: set<Answer>, logins: set<TokenSet>, at: string, token: string)
    requires AllKnown(w) && TookIn(after, w.jar, at, token) && (token != "" ==> Known(w.server.db, token))
    requires answers <= w.answers && logins <= w.logins
    ensures AllKnown(w.(jar := after, answers := answers, logins := logins))
  {
  }

  lemma StoreAnswerSound(p: Party, w: World, now: Time, a: Answer)
    requires Sound(p, w)
    ensures Sound(p, Next(p, w, StoreAnswer(now, a)))
  {
    hide Good, ConsumedByUs, ReplaceRefresh, JarUnspent, MailUnspent, Underway, NoRepeats, Known;
    if a in w.answers {
      var after := ReplaceRefresh(w.jar, a.claim, a.tokens, now).0;
      ReplaceFacts(w.jar, a.claim, a.tokens, now);
      AnswerStored(w, after, a);
      StoredKnown(w, after, w.answers - {a}, w.logins, a.claim.session, a.tokens.refresh);
    }
  }

  lemma StoreLoginSound(p: Party, w: World, now: Time, id: string, pending: Option<Attempt>, identity: string,
                        tokens: TokenSet, newId: string, csrf: string)
    requires Sound(p, w)
    ensures Sound(p, Next(p, w, StoreLogin(now, id, pending, identity, tokens, newId, csrf)))
  {
    hide Good, ConsumedByUs, Complete, JarUnspent, MailUnspent, Underway, NoRepeats, Known;
    if tokens in w.logins {
      var after := Complete(w.jar, id, pending, identity, tokens, newId, csrf, now).0;
      CompleteFacts(w.jar, id, pending, identity, tokens, newId, csrf, now);
      LoginStored(w, after, tokens, newId);
      StoredKnown(w, after, w.answers, w.logins - {tokens}, newId, tokens.refresh);
    }
  }

  // ----- What the server hands out -----

  /** A token whose digest was not stored before is nowhere in play. */
  ghost predicate Novel(w: World, token: string) {
    token != "" ==>
      && (forall id :: id in w.jar.sessions && Idle(w.jar.sessions[id]) ==> w.jar.sessions[id].tokens.refresh != token)
      && (forall a :: a in w.answers ==> a.tokens.refresh != token)
      && (forall t :: t in w.logins ==> t.refresh != token)
      && token !in w.presented
  }

  lemma UnstoredIsNovel(w: World, token: string)
    requires AllKnown(w) && (token != "" ==> HashRefresh(token) !in w.server.db.usedHashes)
    ensures Novel(w, token)
  {
    hide HashRefresh;
  }

  /** A new refresh token's digest is stored with it and was not stored before. */
  lemma RotationIsNew(db: Db, c: Config, x: RefreshInput, d: RefreshDraws, now: Time)
    requires Refresh(db, c, x, d, now).1.Rotated?
    ensures var (after, outcome) := Refresh(db, c, x, d, now);
      var token := Received(outcome.response, "").refresh;
      HashRefresh(token) !in db.usedHashes && HashRefresh(token) in after.usedHashes
  {
    hide Refresh, FamilyAuthorized, SelectScopes, ValidRefreshMinted, HashRefresh, HashJti, RefreshToken;
    var g, scopes, m := TokenProofs.RotationOf(db, c, x, d, now);
  }

  lemma ExchangeIsNew(db: Db, c: Config, x: ExchangeInput, d: CodeDraws, now: Time, idToken: string)
    requires Exchange(db, c, x, d, now).1.Issued?
    ensures var (after, outcome) := Exchange(db, c, x, d, now);
      var token := Received(outcome.response, idToken).refresh;
      token != "" ==> HashRefresh(token) !in db.usedHashes && HashRefresh(token) in after.usedHashes
  {
    hide Exchange, CodeAuthorized, ValidMinted, HashRefresh, HashJti, RefreshToken, ClaimsFor;
    var m := TokenProofs.MintedFor(db, c, x, d, now);
  }

  lemma MailGrows(w: World, a: Option<Answer>, t: Option<TokenSet>)
    requires MailUnspent(w.jar, w.answers, w.logins, w.presented)
    requires a.Some? ==> t.None? && Novel(w, a.value.tokens.refresh)
    requires t.Some? ==> Novel(w, t.value.refresh)
    ensures MailUnspent(w.jar, if a.Some? then w.answers + {a.value} else w.answers,
                        if t.Some? then w.logins + {t.value} else w.logins, w.presented)
  {
  }

  lemma RedeemSound(p: Party, w: World, x: ExchangeInput, d: CodeDraws, idToken: string)
    requires Sound(p, w)
    ensures Sound(p, Next(p, w, Redeem(x, d, idToken)))
  {
    hide Stable, Inv, Exchange, JarUnspent, MailUnspent, Underway, NoRepeats, ConsumedByUs, Novel;
    var y := x.(caller := p.caller);
    var result := Exchange(w.server.db, p.settings.config, y, d, w.server.clock);
    TokenProofs.ExchangeKeeps(w.server.db, p.settings.config, y, d, w.server.clock);
    HashesGrow(w.server.db, result.0);
    RedeemConsumes(p, w, y, d);
    if result.1.Issued? {
      var tokens := Received(result.1.response, idToken);
      ExchangeIsNew(w.server.db, p.settings.config, y, d, w.server.clock, idToken);
      UnstoredIsNovel(w, tokens.refresh);
      MailGrows(w, None, Some(tokens));
    }
  }

  lemma RedeemConsumes(p: Party, w: World, x: ExchangeInput, d: CodeDraws)
    requires Good(w.server) && ConsumedByUs(w.server.db, p.caller.id, w.processed)
    ensures ConsumedByUs(Exchange(w.server.db, p.settings.config, x, d, w.server.clock).0, p.caller.id, w.processed)
  {
    hide Inv, Stable, Exchange, OwnedBy;
    var db := w.server.db;
    var after := Exchange(db, p.settings.config, x, d, w.server.clock).0;
    TokenProofs.ExchangeKeeps(db, p.settings.config, x, d, w.server.clock);
    forall g | g in after.generations && after.generations[g].consumedAt.Some? && OwnedBy(after, g, p.caller.id)
      ensures exists t :: t in w.processed && HashRefresh(t) == after.generations[g].hash
    {
      ExchangeConsumes(db, p.settings.config, x, d, w.server.clock, g);
      OwnerStays(db, after, g, p.caller.id, w.server.clock);
    }
  }

  lemma HandleConsumes(p: Party, w: World, token: string, d: RefreshDraws)
    requires Good(w.server) && ConsumedByUs(w.server.db, p.caller.id, w.processed)
    ensures ConsumedByUs(Handle(p, w, token, d).0.db, p.caller.id, w.processed + {token})
  {
    hide Inv, Stable, Refresh, OwnedBy;
    var digest := DigestPresented(token);
    var db := w.server.db;
    if digest.Some? {
      DigestIsHash(token);
      var x := RefreshInput(digest.value, p.caller, None);
      var after := Refresh(db, p.settings.config, x, d, w.server.clock).0;
      TokenProofs.RefreshKeeps(db, p.settings.config, x, d, w.server.clock);
      forall g | g in after.generations && after.generations[g].consumedAt.Some? && OwnedBy(after, g, p.caller.id)
        ensures exists t :: t in w.processed + {token} && HashRefresh(t) == after.generations[g].hash
      {
        RefreshConsumes(db, p.settings.config, x, d, w.server.clock, g);
        OwnerStays(db, after, g, p.caller.id, w.server.clock);
        if db.generations[g].consumedAt.None? { assert token in w.processed + {token}; }
      }
    }
  }

  lemma DigestIsHash(token: string)
    ensures DigestPresented(token).Some? ==> DigestPresented(token).value == HashRefresh(token)
  {
  }

  lemma HandleKeeps(p: Party, w: World, token: string, d: RefreshDraws)
    requires Good(w.server)
    ensures var (server, outcome) := Handle(p, w, token, d);
      && Good(server) && server.clock == w.server.clock && w.server.db.usedHashes <= server.db.usedHashes
      && (outcome.Rotated? ==> HashRefresh(Received(outcome.response, "").refresh) !in w.server.db.usedHashes &&
                               HashRefresh(Received(outcome.response, "").refresh) in server.db.usedHashes)
  {
    hide Inv, Stable, Refresh, HashRefresh, Received, DigestPresented;
    var digest := DigestPresented(token);
    if digest.Some? {
      var x := RefreshInput(digest.value, p.caller, None);
      TokenProofs.RefreshKeeps(w.server.db, p.settings.config, x, d, w.server.clock);
      HashesGrow(w.server.db, Refresh(w.server.db, p.settings.config, x, d, w.server.clock).0);
      if Refresh(w.server.db, p.settings.config, x, d, w.server.clock).1.Rotated? {
        RotationIsNew(w.server.db, p.settings.config, x, d, w.server.clock);
      }
    }
  }

  lemma ReceivedUnderway(w: World, claim: Claim)
    requires Underway(w.requests, w.presented, w.processed) && claim in w.requests
    ensures Underway(w.requests - {claim}, w.presented, w.processed + {claim.token})
  {
  }

  lemma ReceiveSound(p: Party, w: World, claim: Claim, d: RefreshDraws)
    requires Sound(p, w)
    ensures Sound(p, Next(p, w, Receive(claim, d)))
  {
    hide Good, Handle, JarUnspent, MailUnspent, Underway, NoRepeats, ConsumedByUs, Novel, Received, HashRefresh;
    if claim in w.requests {
      var (server, outcome) := Handle(p, w, claim.token, d);
      HandleKeeps(p, w, claim.token, d);
      HandleConsumes(p, w, claim.token, d);
      ReceivedUnderway(w, claim);
      if outcome.Rotated? {
        var answer := Answer(claim, Received(outcome.response, ""));
        UnstoredIsNovel(w, answer.tokens.refresh);
        MailGrows(w, Some(answer), None);
      }
    }
  }

  // ----- Whole plays -----

  lemma MoveSound(p: Party, w: World, m: Move)
    requires Sound(p, w)
    ensures Sound(p, Next(p, w, m))
  {
    hide Sound, IdleWithin, Get, Create, BeginAuthorization, ClearPending, FailRefresh, BeginLogout, FinishLogout;
    hide Complete, ReplaceRefresh, ClaimRefresh, Handle, Exchange, Step;
    match m
    case Elsewhere(tick) => ElsewhereSound(p, w, tick);
    case Browse(now, id) =>
      QuietBrowsing(w.jar, id, "", now);
      WithinSound(p, w, Get(w.jar, id, now));
    case Visit(now, id, csrf) =>
      QuietBrowsing(w.jar, id, csrf, now);
      WithinSound(p, w, Create(w.jar, id, csrf, now).0);
    case StartLogin(now, id, attempt) =>
      QuietLogin(w.jar, id, attempt, now);
      WithinSound(p, w, BeginAuthorization(w.jar, id, attempt, now).0);
    case AbandonLogin(now, id, pending) =>
      QuietClear(w.jar, id, pending, now);
      WithinSound(p, w, ClearPending(w.jar, id, pending, now).0);
    case Redeem(x, d, idToken) => RedeemSound(p, w, x, d, idToken);
    case StoreLogin(now, id, pending, identity, tokens, newId, csrf) =>
      StoreLoginSound(p, w, now, id, pending, identity, tokens, newId, csrf);
    case SendRefresh(now, id, csrf) => SendSound(p, w, now, id, csrf);
    case Receive(claim, d) => ReceiveSound(p, w, claim, d);
    case StoreAnswer(now, answer) => StoreAnswerSound(p, w, now, answer);
    case GiveUp(now, claim) =>
      QuietFail(w.jar, claim, now);
      WithinSound(p, w, FailRefresh(w.jar, claim, now).0);
    case AskLogout(now, id, idToken, csrf, state) =>
      QuietLogout(w.jar, id, idToken, csrf, state, now);
      WithinSound(p, w, BeginLogout(w.jar, id, idToken, csrf, state, now).0);
    case LoggedOut(now, id, state) =>
      QuietFinish(w.jar, id, state, now);
      WithinSound(p, w, FinishLogout(w.jar, id, state, now).0);
  }

  lemma {:induction false} PlaySound(p: Party, w: World, moves: seq<Move>)
    requires Sound(p, w)
    ensures Sound(p, Play(p, w, moves))
    decreases |moves|
  {
    hide Sound, Next;
    if moves != [] {
      MoveSound(p, w, moves[0]);
      PlaySound(p, Next(p, w, moves[0]), moves[1..]);
    }
  }

  lemma OpeningSound(p: Party)
    ensures Sound(p, OPENING)
  {
    EmptyIsOk(1);
  }

  /** In every play the relying party presents no refresh token twice. */
  lemma NeverPresentsTwice(p: Party, moves: seq<Move>)
    ensures NoRepeats(Play(p, OPENING, moves).presented)
  {
    hide Next;
    OpeningSound(p);
    PlaySound(p, OPENING, moves);
  }

  lemma FirstPresentation(p: Party, w: World, claim: Claim, d: RefreshDraws)
    requires Sound(p, w) && claim in w.requests
    ensures !Handle(p, w, claim.token, d).1.Reused?
  {
    hide Good, AllKnown, JarUnspent, MailUnspent, NoRepeats, MintRefresh, ValidRefreshMinted, RefreshMintedFresh,
         SelectScopes;
    hide StoreRotation, Revocation.Cascade, DigestPresented, HashRefresh;
    DigestIsHash(claim.token);
    if Handle(p, w, claim.token, d).1.Reused? {
      var db := w.server.db;
      var g := FindGeneration(db.generations, HashRefresh(claim.token)).value;
      assert OwnedBy(db, g, p.caller.id);
      var t :| t in w.processed && HashRefresh(t) == db.generations[g].hash;
      HashRefreshInjective(t, claim.token);
    }
  }

  /** So reuse detection never fires against it: no request it sends can find a consumed generation. */
  lemma ReuseNeverFires(p: Party, moves: seq<Move>, claim: Claim, d: RefreshDraws)
    requires claim in Play(p, OPENING, moves).requests
    ensures !Handle(p, Play(p, OPENING, moves), claim.token, d).1.Reused?
  {
    hide Next, Handle, Sound;
    OpeningSound(p);
    PlaySound(p, OPENING, moves);
    FirstPresentation(p, Play(p, OPENING, moves), claim, d);
  }
}
