/** The request handlers, updating the stored rows in place. */
module OAuthServer {
  import opened Text
  import opened OAuthModel
  import opened OAuthSafety

  class Server {
    var next: nat
    var codes: map<nat, Code>
    var tokens: map<nat, Token>
    var clients: map<string, Client>
    var users: map<nat, bool>

    function View(): Db
      reads this
    {
      Db(next, codes, tokens, clients, users)
    }

    constructor ()
      ensures View() == START
    {
      next, codes, tokens, clients, users := 0, map[], map[], map[], map[];
    }

    /** The consent form's answer: a code, bound to what was asked. */
    method AuthorizeDecide(q: Consent, now: Time) returns (r: Reply)
      modifies this
      ensures (View(), r) == Decide(old(View()), q, now)
    {
      if q.client !in clients {
        return Refused("invalid_client");
      }
      var redirect := ResolveRedirect(clients[q.client].redirects, q.redirect);
      if redirect.None? {
        return Refused("invalid_request");
      }
      if !(43 <= ChallengeLength(q.challenge) <= 128) {
        return Refused("invalid_request");
      }
      if !WordsWithin(q.scope, [SCOPE]) {
        return Refused("invalid_scope");
      }
      if !ResourceOk(q.resource, q.here) {
        return Refused("invalid_target");
      }
      if !q.allow {
        return Refused("access_denied");
      }
      codes := codes[next := Code(q.client, q.user, redirect.value, q.scope, q.challenge, q.here,
                                 now + CODE_SECONDS, None)];
      clients := clients[q.client := clients[q.client].(lastUsed := Some(now))];
      r := CodeIssued(next);
      next := next + 1;
    }

    method IssueRow(client: string, user: nat, scope: seq<string>, resource: string, family: nat, now: Time)
      returns (r: Reply)
      requires client in clients
      modifies this
      ensures (View(), r) == Issue(old(View()), client, user, scope, resource, family, now)
    {
      tokens := tokens[next := Token(family, client, user, scope, resource, now + ACCESS_TOKEN_SECONDS,
                                     now + REFRESH_TOKEN_DAYS * DAY, None, None, None)];
      clients := clients[client := clients[client].(lastUsed := Some(now))];
      r := TokenIssued(next);
      next := next + 1;
    }

    /** Stamp every unrevoked row of the family. */
    method RevokeRows(family: nat, now: Time)
      modifies this`tokens
      ensures tokens == RevokeFamily(old(tokens), family, now)
    {
      var rest := tokens.Keys;
      while rest != {}
        invariant rest <= tokens.Keys == old(tokens).Keys
        invariant forall id :: id in tokens ==>
          tokens[id] == (if id in rest then old(tokens)[id] else RevokeFamily(old(tokens), family, now)[id])
        decreases rest
      {
        var id :| id in rest;
        if tokens[id].family == family && tokens[id].revoked.None? {
          tokens := tokens[id := tokens[id].(revoked := Some(now))];
        }
        rest := rest - {id};
      }
    }

    /** The token endpoint, given a code. */
    method TokenByCode(q: Exchange, now: Time) returns (r: Reply)
      modifies this
      ensures (View(), r) == ExchangeCode(old(View()), q, now)
    {
      if !ClientOk(View(), q.client, q.secret) {
        return Refused("invalid_client");
      }
      if !ResourceOk(q.resource, q.here) {
        return Refused("invalid_target");
      }
      if !q.code.CodeOf? || q.code.id !in codes || codes[q.code.id].client != q.client {
        return Refused("invalid_grant");
      }
      var id := q.code.id;
      var row := codes[id];
      if row.used.Some? {
        RevokeRows(id, now);  // replay
        return Refused("invalid_grant");
      }
      if row.expires < now {
        return Refused("invalid_grant");
      }
      if q.redirect.Some? && q.redirect.value != row.redirect {
        return Refused("invalid_grant");
      }
      if !PkceOk(q.verifier, row.challenge) {
        return Refused("invalid_grant");
      }
      codes := codes[id := row.(used := Some(now))];
      r := IssueRow(q.client, row.user, row.scope, if row.resource != "" then row.resource else q.here, id, now);
    }

    /** The token endpoint, given a refresh secret. */
    method TokenByRefresh(q: Refresh, now: Time) returns (r: Reply)
      modifies this
      ensures (View(), r) == RefreshToken(old(View()), q, now)
    {
      if !ClientOk(View(), q.client, q.secret) {
        return Refused("invalid_client");
      }
      if !ResourceOk(q.resource, q.here) {
        return Refused("invalid_target");
      }
      if !q.refresh.RefreshOf? || q.refresh.id !in tokens || tokens[q.refresh.id].client != q.client {
        return Refused("invalid_grant");
      }
      var id := q.refresh.id;
      var row := tokens[id];
      if row.rotated.Some? {
        RevokeRows(row.family, now);  // seen before
        return Refused("invalid_grant");
      }
      if row.revoked.Some? || row.refreshExpires < now {
        return Refused("invalid_grant");
      }
      if !UserOk(View(), row.user) {
        RevokeRows(row.family, now);
        return Refused("invalid_grant");
      }
      var scope := if q.scope.Some? then q.scope.value else row.scope;
      if !WordsWithin(scope, row.scope) {
        return Refused("invalid_scope");
      }
      tokens := tokens[id := row.(rotated := Some(now), revoked := Some(now))];
      r := IssueRow(q.client, row.user, scope, row.resource, row.family, now);
    }

    method RevokeToken(client: string, secret: Option<string>, token: Secret, now: Time) returns (r: Reply)
      modifies this
      ensures (View(), r) == Revoke(old(View()), client, secret, token, now)
    {
      if !ClientOk(View(), client, secret) {
        return Refused("invalid_client");
      }
      var row := RowOf(tokens, token);
      if row.Some? && tokens[row.value].client == client {
        RevokeRows(tokens[row.value].family, now);
      }
      r := Done;
    }

    method RemoveConnection(user: nat, family: nat, now: Time) returns (r: Reply)
      modifies this
      ensures (View(), r) == RevokeConnection(old(View()), user, family, now)
    {
      if !exists id :: id in tokens && tokens[id].family == family && tokens[id].user == user {
        return Refused("not_found");
      }
      RevokeRows(family, now);
      r := Done;
    }

    method UserForRequest(access: Secret, here: string, now: Time) returns (r: Reply)
      modifies this
      ensures (View(), r) == Bearer(old(View()), access, here, now)
    {
      if !access.AccessOf? || access.id !in tokens {
        return Refused("invalid_token");
      }
      var row := tokens[access.id];
      if row.revoked.Some? {
        return Refused("invalid_token");
      }
      if row.accessExpires < now {
        return Refused("invalid_token");
      }
      if RStripSlash(row.resource) != here {
        return Refused("invalid_token");
      }
      if SCOPE !in row.scope {
        return Refused("insufficient_scope");
      }
      if !UserOk(View(), row.user) {
        return Refused("invalid_token");
      }
      tokens := tokens[access.id := row.(lastUsed := Some(now))];
      r := Accepted(row.user);
    }

    /** Forgets stale codes, stale tokens and idle clients. */
    method PurgeExpired(now: Time)
      modifies this
      ensures View() == Purge(old(View()), now)
    {
      codes := map id | id in codes && !CodeStale(codes[id], now) :: codes[id];
      tokens := map id | id in tokens && !TokenStale(tokens[id], now) :: tokens[id];
      var live := LiveClients(tokens);
      ghost var before := clients;
      var rest := clients.Keys;
      while rest != {}
        invariant rest <= before.Keys
        invariant clients == map c | c in before && (c in rest || !ClientStale(before[c], c in live, now)) :: before[c]
        invariant codes == Purge(old(View()), now).codes && tokens == Purge(old(View()), now).tokens
        invariant next == old(next) && users == old(users)
        decreases rest
      {
        var c :| c in rest;
        if ClientStale(clients[c], c in live, now) {
          clients := clients - {c};
        }
        rest := rest - {c};
      }
    }
  }
}
