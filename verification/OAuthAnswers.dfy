/** Which answer a request gets, and all that it leaves in the store. */
module OAuthAnswers {
  import opened Text
  import opened OAuthModel
  import opened OAuthSafety
  import opened OAuthLineage
  import opened OAuthGrants

  predicate Known(db: Db, client: string, secret: Option<string>) {
    client in db.clients && SecretShown(db, client, secret)
  }

  /** The store but for its client's mark of use. */
  predicate MarkedUsed(db: Db, after: Db, client: string, now: Time) {
    && client in db.clients && after.clients.Keys == db.clients.Keys && after.users == db.users
    && after.clients[client].lastUsed == Some(now)
    && after.clients[client].(lastUsed := db.clients[client].lastUsed) == db.clients[client]
    && forall c :: c in db.clients && c != client ==> after.clients[c] == db.clients[c]
  }

  /** The family's live rows are revoked now; every other row is as it was. */
  predicate FamilyRevoked(before: map<nat, Token>, after: map<nat, Token>, family: nat, now: Time) {
    && after.Keys == before.Keys
    && forall id :: id in before ==>
         if before[id].family == family && before[id].revoked.None?
         then after[id].revoked == Some(now) && after[id].(revoked := None) == before[id]
         else after[id] == before[id]
  }

  /** All that changes is that a family is revoked. */
  predicate OnlyRevokes(db: Db, after: Db, family: nat, now: Time) {
    FamilyRevoked(db.tokens, after.tokens, family, now) && after.(tokens := db.tokens) == db
  }

  lemma RevokedRows(db: Db, family: nat, now: Time)
    ensures OnlyRevokes(db, db.(tokens := RevokeFamily(db.tokens, family, now)), family, now)
  {
  }

  // ── consent ───────────────────────────────────────────────────────────────

  /** An authorize request resolves to exactly the addresses its client may name. */
  lemma ResolvedExactly(registered: seq<Uri>, requested: Option<Uri>, address: Uri)
    ensures ResolveRedirect(registered, requested) == Some(address) <==> ResolvesTo(registered, requested, address)
  {
    ResolvedIs(registered, requested);
    if requested.Some? && ResolvesTo(registered, requested, address) {
      var r :| r in registered && (r == address || LoopbackTwin(r, address));
      var i :| 0 <= i < |registered| && registered[i] == r;
      assert RedirectMatches(registered[i], requested.value);
    }
  }

  predicate Resolvable(registered: seq<Uri>, requested: Option<Uri>) {
    if requested.Some? then ResolvesTo(registered, requested, requested.value)
    else registered != [] && ResolvesTo(registered, requested, registered[0])
  }

  /** A digest, which is 43 characters long, or text of 43 to 128. */
  predicate ChallengeFits(c: Challenge) {
    c.S256Of? || 43 <= |c.text| <= 128
  }

  /** A code is issued exactly for a known client, an address it may name, a challenge of the right length, no scope but
      "sizing", this resource, and an allowed request; otherwise the first thing missing is named and nothing changes. */
  lemma ConsentAnswered(db: Db, q: Consent, now: Time)
    ensures var (after, reply) := Decide(db, q, now);
            if q.client !in db.clients then after == db && reply == Refused("invalid_client")
            else if !Resolvable(db.clients[q.client].redirects, q.redirect)
              then after == db && reply == Refused("invalid_request")
            else if !ChallengeFits(q.challenge) then after == db && reply == Refused("invalid_request")
            else if exists w :: w in q.scope && w != "sizing" then after == db && reply == Refused("invalid_scope")
            else if !ResourceFits(q.resource, q.here) then after == db && reply == Refused("invalid_target")
            else if !q.allow then after == db && reply == Refused("access_denied")
            else reply == CodeIssued(db.next) && CodeAdded(db, after, q, now)
  {
    if q.client in db.clients {
      var registered := db.clients[q.client].redirects;
      ResolvedIs(registered, q.redirect);
      if q.redirect.Some? {
        ResolvedExactly(registered, q.redirect, q.redirect.value);
      } else if registered != [] {
        ResolvedExactly(registered, q.redirect, registered[0]);
      }
      ScopeIs(q.scope);
    }
  }

  lemma ScopeIs(scope: seq<string>)
    ensures WordsWithin(scope, ["sizing"]) <==> forall w :: w in scope ==> w == "sizing"
  {
    if WordsWithin(scope, ["sizing"]) {
      forall w | w in scope ensures w == "sizing" {
        var i :| 0 <= i < |scope| && scope[i] == w;
      }
    }
    forall i | 0 <= i < |scope| ensures scope[i] in scope {}
  }

  /** One new code under the next number, good for ten minutes. */
  predicate CodeAdded(db: Db, after: Db, q: Consent, now: Time) {
    && after.next == db.next + 1 && after.tokens == db.tokens && MarkedUsed(db, after, q.client, now)
    && after.codes.Keys == db.codes.Keys + {db.next}
    && (forall id :: id in db.codes && id != db.next ==> after.codes[id] == db.codes[id])
    && var c := after.codes[db.next];
    && c.client == q.client && c.user == q.user && c.scope == q.scope && c.challenge == q.challenge
    && c.resource == q.here && c.expires == now + 600 && c.used.None?
  }

  // ── the token endpoint ────────────────────────────────────────────────────

  /** One new row under the next number. */
  predicate RowAdded(db: Db, after: Db, client: string, now: Time) {
    && after.next == db.next + 1 && db.next in after.tokens && MarkedUsed(db, after, client, now)
    && after.tokens.Keys == db.tokens.Keys + {db.next}
  }

  /** An exchange: a client that does not show itself, then another resource, is named; a used code of the client's own
      revokes the family and nothing else; any other refusal changes nothing; a redeemed code is marked. */
  lemma ExchangeAnswered(db: Db, x: Exchange, now: Time)
    ensures var (after, reply) := ExchangeCode(db, x, now);
            if !Known(db, x.client, x.secret) then after == db && reply == Refused("invalid_client")
            else if !ResourceFits(x.resource, x.here) then after == db && reply == Refused("invalid_target")
            else if Replayed(db, x) then OnlyRevokes(db, after, x.code.id, now) && reply == Refused("invalid_grant")
            else if !reply.TokenIssued? then after == db && reply == Refused("invalid_grant")
            else && reply == TokenIssued(db.next) && RowAdded(db, after, x.client, now)
                 && x.code.CodeOf? && x.code.id in db.codes && after.codes.Keys == db.codes.Keys
                 && after.codes[x.code.id] == db.codes[x.code.id].(used := Some(now))
                 && (forall id :: id in db.codes && id != x.code.id ==> after.codes[id] == db.codes[id])
                 && (forall id :: id in db.tokens && id != db.next ==> after.tokens[id] == db.tokens[id])
  {
    if Replayed(db, x) {
      RevokedRows(db, x.code.id, now);
    }
  }

  /** The client's own code, used before. */
  predicate Replayed(db: Db, x: Exchange) {
    x.code.CodeOf? && x.code.id in db.codes && db.codes[x.code.id].client == x.client && db.codes[x.code.id].used.Some?
  }

  /** The row a refresh presents, if it is the client's own. */
  predicate Presents(db: Db, r: Refresh, id: nat) {
    r.refresh == RefreshOf(id) && id in db.tokens && db.tokens[id].client == r.client
  }

  predicate WellShown(db: Db, r: Refresh) {
    Known(db, r.client, r.secret) && ResourceFits(r.resource, r.here)
  }

  /** A refresh that is neither known nor for this resource is named so; a rotated token, or an inactive account,
      revokes the family; a wider scope is named; any other refusal changes nothing; a refreshed row is spent. */
  lemma RefreshAnswered(db: Db, r: Refresh, id: nat, now: Time)
    requires Presents(db, r, id) && WellShown(db, r)
    ensures var (after, reply) := RefreshToken(db, r, now); var t := db.tokens[id];
            if t.rotated.Some? then OnlyRevokes(db, after, t.family, now) && reply == Refused("invalid_grant")
            else if t.revoked.Some? || now > t.refreshExpires then after == db && reply == Refused("invalid_grant")
            else if !Active(db, t.user) then OnlyRevokes(db, after, t.family, now) && reply == Refused("invalid_grant")
            else if r.scope.Some? && exists w :: w in r.scope.value && w !in t.scope
              then after == db && reply == Refused("invalid_scope")
            else && reply == TokenIssued(db.next) && RowAdded(db, after, r.client, now) && after.codes == db.codes
                 && (id != db.next ==> after.tokens[id] == t.(rotated := Some(now), revoked := Some(now)))
                 && (forall j :: j in db.tokens && j != id && j != db.next ==> after.tokens[j] == db.tokens[j])
  {
    RevokedRows(db, db.tokens[id].family, now);
    if r.scope.Some? {
      forall i | 0 <= i < |r.scope.value| ensures r.scope.value[i] in r.scope.value {}
    }
  }

  lemma RefreshRefused(db: Db, r: Refresh, now: Time)
    requires !WellShown(db, r) || !(r.refresh.RefreshOf? && Presents(db, r, r.refresh.id))
    ensures var (after, reply) := RefreshToken(db, r, now);
            && after == db
            && reply == Refused(if !Known(db, r.client, r.secret) then "invalid_client"
                                else if !ResourceFits(r.resource, r.here) then "invalid_target" else "invalid_grant")
  {
  }

  // ── revocation and the bearer check ───────────────────────────────────────

  /** Revoking takes the family of the client's own token, given either secret; any other token is answered alike. */
  lemma RevokeAnswered(db: Db, client: string, secret: Option<string>, token: Secret, now: Time)
    ensures var (after, reply) := Revoke(db, client, secret, token, now);
            if !Known(db, client, secret) then after == db && reply == Refused("invalid_client")
            else if (token.AccessOf? || token.RefreshOf?) && token.id in db.tokens && db.tokens[token.id].client == client
            then OnlyRevokes(db, after, db.tokens[token.id].family, now) && reply == Done
            else after == db && reply == Done
  {
    if (token.AccessOf? || token.RefreshOf?) && token.id in db.tokens {
      RevokedRows(db, db.tokens[token.id].family, now);
    }
  }

  /** A user removes exactly a connection of their own; nobody else's changes. */
  lemma RemoveAnswered(db: Db, user: nat, family: nat, now: Time)
    ensures var (after, reply) := RevokeConnection(db, user, family, now);
            if exists id :: id in db.tokens && db.tokens[id].family == family && db.tokens[id].user == user
            then OnlyRevokes(db, after, family, now) && reply == Done
            else after == db && reply == Refused("not_found")
  {
    RevokedRows(db, family, now);
  }

  /** A token good in all but its scope is told so; any other refusal is one and the same. A refusal changes nothing and
      an accepted token is marked with the time. */
  lemma BearerAnswered(db: Db, access: Secret, here: string, now: Time)
    ensures var (after, reply) := Bearer(db, access, here, now);
            if !(&& access.AccessOf? && access.id in db.tokens && db.tokens[access.id].revoked.None?
                 && now <= db.tokens[access.id].accessExpires && RStripSlash(db.tokens[access.id].resource) == here)
            then after == db && reply == Refused("invalid_token")
            else if "sizing" !in db.tokens[access.id].scope then after == db && reply == Refused("insufficient_scope")
            else if !Active(db, db.tokens[access.id].user) then after == db && reply == Refused("invalid_token")
            else && reply == Accepted(db.tokens[access.id].user) && after.(tokens := db.tokens) == db
                 && after.tokens.Keys == db.tokens.Keys
                 && after.tokens[access.id] == db.tokens[access.id].(lastUsed := Some(now))
                 && forall id :: id in db.tokens && id != access.id ==> after.tokens[id] == db.tokens[id]
  {
  }

  // ── housekeeping ──────────────────────────────────────────────────────────

  /** A code is kept until a day after it expires; a token until seven days after it is revoked or its refresh expires;
      a client that registered itself for thirty days after it registered, and after it was last used, and while a kept
      token names it. */
  lemma PurgedExactly(db: Db, now: Time)
    ensures var after := Purge(db, now); var day := 24 * 3600;
            && after.next == db.next && after.users == db.users
            && (forall id :: id in after.codes <==> id in db.codes && db.codes[id].expires >= now - day)
            && (forall id :: id in after.codes ==> after.codes[id] == db.codes[id])
            && (forall id :: id in after.tokens <==>
                  && id in db.tokens && db.tokens[id].refreshExpires >= now - 7 * day
                  && (db.tokens[id].revoked.Some? ==> db.tokens[id].revoked.value >= now - 7 * day))
            && (forall id :: id in after.tokens ==> after.tokens[id] == db.tokens[id])
            && (forall c :: c in after.clients <==>
                  && c in db.clients
                  && (|| db.clients[c].kind != Dcr || db.clients[c].created >= now - 30 * day
                      || (db.clients[c].lastUsed.Some? && db.clients[c].lastUsed.value >= now - 30 * day)
                      || exists id :: id in after.tokens && after.tokens[id].client == c))
            && (forall c :: c in after.clients ==> after.clients[c] == db.clients[c])
  {
    var after := Purge(db, now);
    forall c
      ensures c in LiveClients(after.tokens) <==> exists id :: id in after.tokens && after.tokens[id].client == c
    {}
  }

  /** A new client is stored as it registers; a client known by its metadata has its addresses read again; any other
      keeps what it registered. */
  lemma RegistrationKept(db: Db, id: string, kind: Kind, key: Option<string>, redirects: seq<Uri>, now: Time)
    ensures var after := Register(db, id, kind, key, redirects, now);
            && after.(clients := db.clients) == db && after.clients.Keys == db.clients.Keys + {id}
            && (forall c :: c in db.clients && c != id ==> after.clients[c] == db.clients[c])
            && var now' := after.clients[id];
            if id !in db.clients
            then && now'.kind == kind && now'.secret == key && now'.redirects == redirects && now'.created == now
                 && now'.lastUsed.None?
            else && now'.redirects == (if db.clients[id].kind == Cimd then redirects else db.clients[id].redirects)
                 && now'.(redirects := []) == db.clients[id].(redirects := [])
  {
  }
}
