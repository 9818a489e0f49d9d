/** The authorization server's stored rows and what one request does to them. */
module OAuthModel {
  import opened Text

  type Time = int

  const SCOPE := "sizing"
  const DAY: Time := 86400
  const ACCESS_TOKEN_SECONDS: Time := 3600
  const REFRESH_TOKEN_DAYS: Time := 30
  const CODE_SECONDS: Time := 600

  /** A parsed redirect URI. */
  datatype Uri = Uri(scheme: string, host: string, port: Option<nat>, path: string, query: string)

  predicate IsLoopback(u: Uri) {
    u.scheme == "http" && Lower(u.host) in {"localhost", "127.0.0.1", "::1"}
  }

  /** Exact match, except that loopback URIs match on any port. */
  predicate RedirectMatches(registered: Uri, requested: Uri) {
    || registered == requested
    || (IsLoopback(registered) && IsLoopback(requested)
        && registered.scheme == requested.scheme && Lower(registered.host) == Lower(requested.host)
        && PathOrRoot(registered) == PathOrRoot(requested) && registered.query == requested.query)
  }

  function PathOrRoot(u: Uri): string {
    if u.path == "" then "/" else u.path
  }

  /** A PKCE challenge is the S256 digest of some verifier, or other text. */
  datatype Challenge = S256Of(verifier: string) | OtherText(text: string)

  function ChallengeLength(c: Challenge): nat {
    match c
    case S256Of(_) => 43
    case OtherText(t) => |t|
  }

  predicate PkceOk(verifier: Option<string>, challenge: Challenge) {
    && verifier.Some? && 43 <= |verifier.value| <= 128
    && (forall i :: 0 <= i < |verifier.value| ==> verifier.value[i] < 128 as char)
    && challenge == S256Of(verifier.value)
  }

  /** What a request presents: the random value made for a row, or a guess. */
  datatype Secret = CodeOf(id: nat) | AccessOf(id: nat) | RefreshOf(id: nat) | Guess(text: string)

  datatype Kind = Dcr | Cimd | Static

  datatype Client = Client(kind: Kind, secret: Option<string>, redirects: seq<Uri>, created: Time,
                           lastUsed: Option<Time>)

  datatype Code = Code(client: string, user: nat, redirect: Uri, scope: seq<string>, challenge: Challenge,
                       resource: string, expires: Time, used: Option<Time>)

  /** A grant's row: its access and refresh secrets share it, and its family is the id of the code it stems from. */
  datatype Token = Token(family: nat, client: string, user: nat, scope: seq<string>, resource: string,
                         accessExpires: Time, refreshExpires: Time, rotated: Option<Time>, revoked: Option<Time>,
                         lastUsed: Option<Time>)

  datatype Db = Db(next: nat, codes: map<nat, Code>, tokens: map<nat, Token>, clients: map<string, Client>,
                   users: map<nat, bool>)

  datatype Reply = Refused(error: string) | CodeIssued(code: nat) | TokenIssued(token: nat) | Accepted(user: nat) | Done

  function RStripSlash(s: string): string {
    if s != "" && s[|s|-1] == '/' then RStripSlash(s[..|s|-1]) else s
  }

  predicate WordsWithin(a: seq<string>, b: seq<string>) {
    forall i :: 0 <= i < |a| ==> a[i] in b
  }

  /** The account exists and is neither disabled nor blocked. */
  predicate UserOk(db: Db, user: nat) {
    user in db.users && db.users[user]
  }

  /** Confidential clients must also show their secret. */
  predicate ClientOk(db: Db, client: string, secret: Option<string>) {
    client in db.clients && (db.clients[client].secret.Some? ==> secret == db.clients[client].secret)
  }

  predicate ResourceOk(resource: Option<string>, here: string) {
    resource.Some? && resource.value != "" ==> RStripSlash(resource.value) == here
  }

  function Touched(db: Db, client: string, now: Time): map<string, Client>
    requires client in db.clients
  {
    db.clients[client := db.clients[client].(lastUsed := Some(now))]
  }

  function RevokeFamily(tokens: map<nat, Token>, family: nat, now: Time): map<nat, Token> {
    map id | id in tokens ::
      if tokens[id].family == family && tokens[id].revoked.None? then tokens[id].(revoked := Some(now)) else tokens[id]
  }

  // ── consent ───────────────────────────────────────────────────────────────

  datatype Consent = Consent(client: string, redirect: Option<Uri>, scope: seq<string>, challenge: Challenge,
                             resource: Option<string>, here: string, user: nat, allow: bool)

  /** The redirect URI an authorize request resolves to. */
  function ResolveRedirect(registered: seq<Uri>, requested: Option<Uri>): Option<Uri> {
    match requested
    case Some(u) => if exists i :: 0 <= i < |registered| && RedirectMatches(registered[i], u) then Some(u) else None
    case None => if |registered| == 1 && !IsLoopback(registered[0]) then Some(registered[0]) else None
  }

  function Decide(db: Db, q: Consent, now: Time): (Db, Reply) {
    if q.client !in db.clients then (db, Refused("invalid_client"))
    else
      var redirect := ResolveRedirect(db.clients[q.client].redirects, q.redirect);
      if redirect.None? || !(43 <= ChallengeLength(q.challenge) <= 128) then (db, Refused("invalid_request"))
      else if !WordsWithin(q.scope, [SCOPE]) then (db, Refused("invalid_scope"))
      else if !ResourceOk(q.resource, q.here) then (db, Refused("invalid_target"))
      else if !q.allow then (db, Refused("access_denied"))
      else
        var code := Code(q.client, q.user, redirect.value, q.scope, q.challenge, q.here, now + CODE_SECONDS, None);
        (db.(next := db.next + 1, codes := db.codes[db.next := code], clients := Touched(db, q.client, now)),
         CodeIssued(db.next))
  }

  // ── the token endpoint ────────────────────────────────────────────────────

  function Issue(db: Db, client: string, user: nat, scope: seq<string>, resource: string, family: nat,
                 now: Time): (Db, Reply)
    requires client in db.clients
  {
    var row := Token(family, client, user, scope, resource, now + ACCESS_TOKEN_SECONDS,
                     now + REFRESH_TOKEN_DAYS * DAY, None, None, None);
    (db.(next := db.next + 1, tokens := db.tokens[db.next := row], clients := Touched(db, client, now)),
     TokenIssued(db.next))
  }

  datatype Exchange = Exchange(client: string, secret: Option<string>, resource: Option<string>, here: string,
                               code: Secret, redirect: Option<Uri>, verifier: Option<string>)

  function ExchangeCode(db: Db, q: Exchange, now: Time): (Db, Reply) {
    if !ClientOk(db, q.client, q.secret) then (db, Refused("invalid_client"))
    else if !ResourceOk(q.resource, q.here) then (db, Refused("invalid_target"))
    else if !(q.code.CodeOf? && q.code.id in db.codes) || db.codes[q.code.id].client != q.client
      then (db, Refused("invalid_grant"))
    else
      var id, row := q.code.id, db.codes[q.code.id];
      if row.used.Some? then (db.(tokens := RevokeFamily(db.tokens, id, now)), Refused("invalid_grant"))
      else if row.expires < now then (db, Refused("invalid_grant"))
      else if q.redirect.Some? && q.redirect.value != row.redirect then (db, Refused("invalid_grant"))
      else if !PkceOk(q.verifier, row.challenge) then (db, Refused("invalid_grant"))
      else
        var spent := db.(codes := db.codes[id := row.(used := Some(now))]);
        Issue(spent, q.client, row.user, row.scope, if row.resource != "" then row.resource else q.here, id, now)
  }

  datatype Refresh = Refresh(client: string, secret: Option<string>, resource: Option<string>, here: string,
                             refresh: Secret, scope: Option<seq<string>>)

  function RefreshToken(db: Db, q: Refresh, now: Time): (Db, Reply) {
    if !ClientOk(db, q.client, q.secret) then (db, Refused("invalid_client"))
    else if !ResourceOk(q.resource, q.here) then (db, Refused("invalid_target"))
    else if !(q.refresh.RefreshOf? && q.refresh.id in db.tokens) || db.tokens[q.refresh.id].client != q.client
      then (db, Refused("invalid_grant"))
    else
      var id, row := q.refresh.id, db.tokens[q.refresh.id];
      if row.rotated.Some? then (db.(tokens := RevokeFamily(db.tokens, row.family, now)), Refused("invalid_grant"))
      else if row.revoked.Some? || row.refreshExpires < now then (db, Refused("invalid_grant"))
      else if !UserOk(db, row.user)
        then (db.(tokens := RevokeFamily(db.tokens, row.family, now)), Refused("invalid_grant"))
      else
        var scope := q.scope.GetOr(row.scope);
        if !WordsWithin(scope, row.scope) then (db, Refused("invalid_scope"))
        else
          var spent := db.(tokens := db.tokens[id := row.(rotated := Some(now), revoked := Some(now))]);
          Issue(spent, q.client, row.user, scope, row.resource, row.family, now)
  }

  // ── revocation and the bearer check ───────────────────────────────────────

  /** The row of an access or refresh secret. */
  function RowOf(tokens: map<nat, Token>, s: Secret): Option<nat> {
    if (s.AccessOf? || s.RefreshOf?) && s.id in tokens then Some(s.id) else None
  }

  function Revoke(db: Db, client: string, secret: Option<string>, token: Secret, now: Time): (Db, Reply) {
    if !ClientOk(db, client, secret) then (db, Refused("invalid_client"))
    else
      var row := RowOf(db.tokens, token);
      if row.Some? && db.tokens[row.value].client == client
      then (db.(tokens := RevokeFamily(db.tokens, db.tokens[row.value].family, now)), Done)
      else (db, Done)
  }

  function RevokeConnection(db: Db, user: nat, family: nat, now: Time): (Db, Reply) {
    if exists id :: id in db.tokens && db.tokens[id].family == family && db.tokens[id].user == user
    then (db.(tokens := RevokeFamily(db.tokens, family, now)), Done)
    else (db, Refused("not_found"))
  }

  function Bearer(db: Db, access: Secret, here: string, now: Time): (Db, Reply) {
    if !(access.AccessOf? && access.id in db.tokens) then (db, Refused("invalid_token"))
    else
      var row := db.tokens[access.id];
      if row.revoked.Some? || row.accessExpires < now || RStripSlash(row.resource) != here
      then (db, Refused("invalid_token"))
      else if SCOPE !in row.scope then (db, Refused("insufficient_scope"))
      else if !UserOk(db, row.user) then (db, Refused("invalid_token"))
      else (db.(tokens := db.tokens[access.id := row.(lastUsed := Some(now))]), Accepted(row.user))
  }

  // ── housekeeping ──────────────────────────────────────────────────────────

  predicate CodeStale(c: Code, now: Time) {
    c.expires < now - DAY
  }

  predicate TokenStale(t: Token, now: Time) {
    (t.revoked.Some? && t.revoked.value < now - 7 * DAY) || t.refreshExpires < now - 7 * DAY
  }

  predicate ClientStale(c: Client, live: bool, now: Time) {
    && c.kind == Dcr && c.created < now - 30 * DAY && !live
    && (c.lastUsed.None? || c.lastUsed.value < now - 30 * DAY)
  }

  function LiveClients(tokens: map<nat, Token>): set<string> {
    set id | id in tokens :: tokens[id].client
  }

  function Purge(db: Db, now: Time): Db {
    var codes := map id | id in db.codes && !CodeStale(db.codes[id], now) :: db.codes[id];
    var tokens := map id | id in db.tokens && !TokenStale(db.tokens[id], now) :: db.tokens[id];
    var live := LiveClients(tokens);
    var clients := map c | c in db.clients && !ClientStale(db.clients[c], c in live, now) :: db.clients[c];
    Db(db.next, codes, tokens, clients, db.users)
  }
}
