/** When a proper request succeeds, and for how long: over every run of the server. */
module OAuthGrants {
  import opened Text
  import opened OAuthModel
  import opened OAuthSafety
  import opened OAuthLineage

  /** The store before the n-th request of the run. */
  function At(run: seq<Event>, n: nat): Db
    requires n <= |run|
  {
    Run(START, run[..n])
  }

  function Answer(run: seq<Event>, n: nat): Reply
    requires n < |run|
  {
    Apply(At(run, n), run[n].step, run[n].at).1
  }

  lemma NextAt(run: seq<Event>, n: nat)
    requires n < |run|
    ensures At(run, n + 1) == Apply(At(run, n), run[n].step, run[n].at).0
  {
    assert run[..n+1][..n] == run[..n];
  }

  lemma LastAt(run: seq<Event>)
    ensures At(run, |run|) == Run(START, run)
  {
    assert run[..|run|] == run;
  }

  // ── what requests must show ───────────────────────────────────────────────

  /** The client's secret, if it has one. */
  predicate SecretShown(db: Db, client: string, secret: Option<string>) {
    client in db.clients && db.clients[client].secret.Some? ==> secret == db.clients[client].secret
  }

  /** No resource, or this server's own, with or without slashes at its end. */
  predicate ResourceFits(resource: Option<string>, here: string) {
    resource.None? || resource.value == "" || RStripSlash(resource.value) == here
  }

  predicate VerifierFits(verifier: Option<string>, challenge: Challenge) {
    && verifier.Some? && challenge == S256Of(verifier.value) && 43 <= |verifier.value| <= 128
    && forall i :: 0 <= i < |verifier.value| ==> verifier.value[i] < 128 as char
  }

  /** The slashes at the end are gone, and nothing else. */
  lemma {:induction false} SlashesGone(s: string)
    ensures RStripSlash(s) <= s && forall i :: |RStripSlash(s)| <= i < |s| ==> s[i] == '/'
    ensures RStripSlash(s) != "" ==> RStripSlash(s)[|RStripSlash(s)|-1] != '/'
  {
    if s != "" && s[|s|-1] == '/' {
      SlashesGone(s[..|s|-1]);
    }
  }

  // ── the life of a code ────────────────────────────────────────────────────

  /** The i-th request was a consent, and answered with this code. */
  predicate Consents(run: seq<Event>, i: nat, code: nat) {
    i < |run| && run[i].step.Consented? && Answer(run, i) == CodeIssued(code)
  }

  /** The address the code was bound to: the one requested, else the client's only one. */
  function BoundTo(run: seq<Event>, i: nat, code: nat): Option<Uri>
    requires Consents(run, i, code)
  {
    var q := run[i].step.consent;
    if q.redirect.Some? then q.redirect
    else if q.client in At(run, i).clients && At(run, i).clients[q.client].redirects != []
    then Some(At(run, i).clients[q.client].redirects[0]) else None
  }

  function Unused(c: Code): Code {
    c.(used := None)
  }

  /** The row a consent stores. */
  predicate Bound(run: seq<Event>, i: nat, code: nat, c: Code)
    requires Consents(run, i, code)
  {
    var q := run[i].step.consent;
    && BoundTo(run, i, code) == Some(c.redirect)
    && c.client == q.client && c.user == q.user && c.scope == q.scope && c.challenge == q.challenge
    && c.resource == q.here && c.expires == run[i].at + 600 && c.used.None?
  }

  lemma CodeStored(run: seq<Event>, i: nat, code: nat) returns (c: Code)
    requires Consents(run, i, code)
    ensures Bound(run, i, code, c) && StoredAs(run, i + 1, code, c)
  {
    NextAt(run, i);
    c := At(run, i + 1).codes[code];
  }

  /** Wherever the code is stored later, only its use differs. */
  predicate SameCode(db: Db, code: nat, c: Code) {
    code < db.next && (code in db.codes ==> Unused(db.codes[code]) == c)
  }

  lemma SameCodeStays(db: Db, step: Step, now: Time, code: nat, c: Code)
    requires SameCode(db, code, c)
    ensures SameCode(Apply(db, step, now).0, code, c)
  {
  }

  /** The code's row before the n-th request. */
  predicate StoredAs(run: seq<Event>, n: nat, code: nat, c: Code)
    requires n <= |run|
  {
    code < At(run, n).next && code in At(run, n).codes && At(run, n).codes[code] == c
  }

  predicate RedeemedAt(run: seq<Event>, n: nat, code: nat)
    requires n < |run|
  {
    Redeems(At(run, n), run[n], code)
  }

  lemma UnusedKept(db: Db, e: Event, code: nat)
    requires code in db.codes && code < db.next && db.codes[code].used.None? && db.codes[code].expires >= e.at
    ensures var after := Apply(db, e.step, e.at).0;
            if Redeems(db, e, code) then Spent(after, code)
            else code in after.codes && after.codes[code] == db.codes[code] && code < after.next
  {
  }

  /** A request leaves an unused code that is still good, or redeems it. */
  lemma UnusedStays(run: seq<Event>, n: nat, code: nat, c: Code)
    requires n < |run| && StoredAs(run, n, code, c) && c.used.None? && c.expires >= run[n].at
    ensures if RedeemedAt(run, n, code) then Spent(At(run, n + 1), code) else StoredAs(run, n + 1, code, c)
  {
    UnusedKept(At(run, n), run[n], code);
    NextAt(run, n);
  }

  lemma SpentRemains(run: seq<Event>, n: nat, code: nat)
    requires n < |run| && Spent(At(run, n), code)
    ensures Spent(At(run, n + 1), code)
  {
    NextAt(run, n);
    SpentStays(At(run, n), run[n].step, run[n].at, code);
  }

  lemma RedeemedIsSpent(run: seq<Event>, n: nat, code: nat, c: Code)
    requires n < |run| && RedeemedAt(run, n, code) && SameCode(At(run, n), code, c)
    ensures Spent(At(run, n + 1), code)
  {
    NextAt(run, n);
  }

  lemma {:induction false} CodeAt(run: seq<Event>, i: nat, code: nat, c: Code, n: nat)
    requires i <= n <= |run| && StoredAs(run, i, code, c) && c.used.None?
    ensures SameCode(At(run, n), code, c)
  {
    if n > i {
      CodeAt(run, i, code, c, n - 1);
      NextAt(run, n - 1);
      SameCodeStays(At(run, n - 1), run[n-1].step, run[n-1].at, code, c);
    }
  }

  /** Some request from the i-th up to the n-th redeemed the code. */
  ghost predicate Redeemed(run: seq<Event>, i: nat, code: nat, n: nat)
    requires n <= |run|
  {
    exists j: nat {:trigger RedeemedAt(run, j, code)} :: i <= j < n && RedeemedAt(run, j, code)
  }

  lemma {:induction false} UnusedAt(run: seq<Event>, i: nat, code: nat, c: Code, n: nat)
    requires i <= n <= |run| && StoredAs(run, i, code, c) && c.used.None?
    requires forall j: nat {:trigger RedeemedAt(run, j, code)} :: i <= j < n ==> !RedeemedAt(run, j, code)
    requires forall j :: i <= j < n ==> run[j].at <= c.expires
    ensures StoredAs(run, n, code, c)
  {
    if n > i {
      UnusedAt(run, i, code, c, n - 1);
      UnusedStays(run, n - 1, code, c);
      assert !RedeemedAt(run, n - 1, code);
    }
  }

  lemma {:induction false} SpentAt(run: seq<Event>, j: nat, code: nat, n: nat)
    requires j < n <= |run| && Spent(At(run, j + 1), code)
    ensures Spent(At(run, n), code)
  {
    if n > j + 1 {
      SpentAt(run, j, code, n - 1);
      SpentRemains(run, n - 1, code);
    }
  }

  /** The client of a code still good is registered. */
  lemma ClientStays(run: seq<Event>, from: Time, code: nat, now: Time)
    requires Timed(run, from) && Last(run, from) <= now
    requires code in Run(START, run).codes && Run(START, run).codes[code].expires >= now
    ensures Run(START, run).codes[code].client in Run(START, run).clients
  {
    StartInv(from);
    RunInv(START, from, run);
    assert CodeOk(Run(START, run), code, Last(run, from));
  }

  /** A code is redeemed exactly by its own client, authenticated, for this resource, within ten minutes, once, from the
      address it was bound to if any is named, with the verifier. */
  lemma CodeRedeemedExactly(run: seq<Event>, from: Time, i: nat, code: nat, x: Exchange, now: Time)
    requires Timed(run, from) && Last(run, from) <= now && Consents(run, i, code) && x.code == CodeOf(code)
    ensures var q, db := run[i].step.consent, Run(START, run);
            ExchangeCode(db, x, now).1.TokenIssued?
            <==> && x.client == q.client && SecretShown(db, x.client, x.secret) && ResourceFits(x.resource, x.here)
                 && now <= run[i].at + 600 && !Redeemed(run, i + 1, code, |run|)
                 && (x.redirect.None? || x.redirect == BoundTo(run, i, code)) && VerifierFits(x.verifier, q.challenge)
  {
    var c := CodeStored(run, i, code);
    CodeState(run, from, i, code, c, now);
    RedeemsNow(Run(START, run), x, code, c, now);
  }

  /** The code's row after the run: gone or used once redeemed, and as stored while it is good. */
  lemma CodeState(run: seq<Event>, from: Time, i: nat, code: nat, c: Code, now: Time)
    requires Timed(run, from) && Last(run, from) <= now && i < |run| && StoredAs(run, i + 1, code, c) && c.used.None?
    ensures var db := Run(START, run);
            && SameCode(db, code, c) && (Redeemed(run, i + 1, code, |run|) ==> Spent(db, code))
            && (!Redeemed(run, i + 1, code, |run|) && now <= c.expires ==>
                  code in db.codes && db.codes[code] == c && c.client in db.clients)
  {
    LastAt(run);
    CodeAt(run, i + 1, code, c, |run|);
    if Redeemed(run, i + 1, code, |run|) {
      CodeIsSpent(run, i + 1, code, c);
    } else if now <= c.expires {
      CodeIsGood(run, from, i + 1, code, c, now);
    }
  }

  lemma CodeIsSpent(run: seq<Event>, i: nat, code: nat, c: Code)
    requires i <= |run| && StoredAs(run, i, code, c) && c.used.None? && Redeemed(run, i, code, |run|)
    ensures Spent(At(run, |run|), code)
  {
    var j: nat :| i <= j < |run| && RedeemedAt(run, j, code);
    CodeAt(run, i, code, c, j);
    RedeemedIsSpent(run, j, code, c);
    SpentAt(run, j, code, |run|);
  }

  lemma CodeIsGood(run: seq<Event>, from: Time, i: nat, code: nat, c: Code, now: Time)
    requires Timed(run, from) && Last(run, from) <= now <= c.expires
    requires i <= |run| && StoredAs(run, i, code, c) && c.used.None? && !Redeemed(run, i, code, |run|)
    ensures StoredAs(run, |run|, code, c) && c.client in At(run, |run|).clients
  {
    forall j | i <= j < |run| ensures run[j].at <= c.expires {
      assert run[j].at <= run[|run|-1].at;
    }
    UnusedAt(run, i, code, c, |run|);
    LastAt(run);
    ClientStays(run, from, code, now);
  }

  lemma RedeemsNow(db: Db, x: Exchange, code: nat, c: Code, now: Time)
    requires x.code == CodeOf(code) && SameCode(db, code, c) && c.used.None?
    ensures ExchangeCode(db, x, now).1.TokenIssued? ==>
              code in db.codes && db.codes[code].used.None? && now <= c.expires
    ensures code in db.codes && db.codes[code] == c && now <= c.expires && c.client in db.clients ==>
              (ExchangeCode(db, x, now).1.TokenIssued?
               <==> && x.client == c.client && SecretShown(db, x.client, x.secret) && ResourceFits(x.resource, x.here)
                    && (x.redirect.None? || x.redirect.value == c.redirect) && VerifierFits(x.verifier, c.challenge))
  {
  }

  /** The token carries what was consented to, for an hour and thirty days. */
  lemma RedeemedGrant(run: seq<Event>, i: nat, code: nat, x: Exchange, now: Time)
    requires Consents(run, i, code) && x.code == CodeOf(code)
    requires ExchangeCode(Run(START, run), x, now).1.TokenIssued?
    ensures var q, (after, reply) := run[i].step.consent, ExchangeCode(Run(START, run), x, now);
            && reply.token in after.tokens && var t := after.tokens[reply.token];
            && t.family == code && t.client == q.client && t.user == q.user && t.scope == q.scope
            && t.resource == (if q.here != "" then q.here else x.here) && t.rotated.None? && t.revoked.None?
            && t.accessExpires == now + 3600 && t.refreshExpires == now + 30 * 24 * 3600
  {
    var c := CodeStored(run, i, code);
    LastAt(run);
    CodeAt(run, i + 1, code, c, |run|);
  }

  // ── the life of a token ───────────────────────────────────────────────────

  /** The k-th request issued this token. */
  predicate Issues(run: seq<Event>, k: nat, id: nat) {
    k < |run| && Answer(run, k) == TokenIssued(id)
  }

  predicate SameRow(db: Db, id: nat, t: Token) {
    id < db.next && (id in db.tokens ==> SameGrant(db.tokens[id], t))
  }

  lemma IssuesRow(db: Db, e: Event, id: nat)
    requires Apply(db, e.step, e.at).1 == TokenIssued(id)
    ensures var after := Apply(db, e.step, e.at).0;
            && id in after.tokens && id < after.next && var t := after.tokens[id];
            && t.accessExpires == e.at + 3600 && t.refreshExpires == e.at + 30 * 24 * 3600
            && t.rotated.None? && t.revoked.None?
  {
  }

  lemma ExchangeKeepsRow(db: Db, q: Exchange, now: Time, id: nat, t: Token)
    requires SameRow(db, id, t)
    ensures SameRow(ExchangeCode(db, q, now).0, id, t)
  {
  }

  lemma RefreshKeepsRow(db: Db, q: Refresh, now: Time, id: nat, t: Token)
    requires SameRow(db, id, t)
    ensures SameRow(RefreshToken(db, q, now).0, id, t)
  {
  }

  lemma RowStays(db: Db, e: Event, id: nat, t: Token)
    requires SameRow(db, id, t)
    ensures SameRow(Apply(db, e.step, e.at).0, id, t)
  {
    match e.step
    case Exchanged(q) => ExchangeKeepsRow(db, q, e.at, id, t);
    case Refreshed(q) => RefreshKeepsRow(db, q, e.at, id, t);
    case _ =>
  }

  lemma RowIsIssued(db: Db, e: Event, id: nat)
    requires id in Apply(db, e.step, e.at).0.tokens && id !in db.tokens
    ensures Apply(db, e.step, e.at).1 == TokenIssued(id)
  {
  }

  /** The grant a request issued. */
  function Grant(run: seq<Event>, k: nat, id: nat): (t: Token)
    requires Issues(run, k, id)
    ensures t.accessExpires == run[k].at + 3600 && t.refreshExpires == run[k].at + 30 * 24 * 3600
    ensures t.rotated.None? && t.revoked.None? && SameRow(At(run, k + 1), id, t)
  {
    NextAt(run, k);
    IssuesRow(At(run, k), run[k], id);
    At(run, k + 1).tokens[id]
  }

  lemma {:induction false} RowAt(run: seq<Event>, k: nat, id: nat, t: Token, n: nat)
    requires k <= n <= |run| && SameRow(At(run, k), id, t)
    ensures SameRow(At(run, n), id, t)
  {
    if n > k {
      RowAt(run, k, id, t, n - 1);
      NextAt(run, n - 1);
      RowStays(At(run, n - 1), run[n-1], id, t);
    }
  }

  lemma RowNow(run: seq<Event>, k: nat, id: nat)
    requires Issues(run, k, id)
    ensures SameRow(Run(START, run), id, Grant(run, k, id))
  {
    RowAt(run, k + 1, id, Grant(run, k, id), |run|);
    LastAt(run);
  }

  lemma {:induction false} IssueFound(run: seq<Event>, id: nat, n: nat) returns (k: nat)
    requires n <= |run| && id in At(run, n).tokens
    ensures k < n && Issues(run, k, id)
  {
    assert run[..0] == [];
    if n == 0 {
      assert false;
    } else {
      NextAt(run, n - 1);
      if id in At(run, n - 1).tokens {
        k := IssueFound(run, id, n - 1);
      } else {
        RowIsIssued(At(run, n - 1), run[n-1], id);
        k := n - 1;
      }
    }
  }

  predicate Active(db: Db, user: nat) {
    user in db.users && db.users[user]
  }

  /** An access token is accepted exactly while it is stored and not revoked, for an hour from its issue, for its own
      resource, with the scope, while its account is active; the account is that of the grant. */
  lemma BearerExactly(run: seq<Event>, k: nat, id: nat, here: string, now: Time)
    requires Issues(run, k, id)
    ensures var db, t := Run(START, run), Grant(run, k, id);
            && (Bearer(db, AccessOf(id), here, now).1.Accepted?
                <==> && id in db.tokens && db.tokens[id].revoked.None? && now <= run[k].at + 3600
                     && RStripSlash(t.resource) == here && "sizing" in t.scope && Active(db, t.user))
            && (Bearer(db, AccessOf(id), here, now).1.Accepted? ==>
                  Bearer(db, AccessOf(id), here, now).1.user == t.user)
  {
    RowNow(run, k, id);
  }

  /** In every run an accepted access token was issued an hour before at most. */
  lemma AcceptedIsRecent(run: seq<Event>, access: Secret, here: string, now: Time) returns (k: nat)
    requires Bearer(Run(START, run), access, here, now).1.Accepted?
    ensures access.AccessOf? && Issues(run, k, access.id) && now <= run[k].at + 3600
  {
    LastAt(run);
    k := IssueFound(run, access.id, |run|);
    BearerExactly(run, k, access.id, here, now);
  }

  /** The rows of a run's tokens name registered clients. */
  lemma TokenClient(run: seq<Event>, from: Time, id: nat)
    requires Timed(run, from) && id in Run(START, run).tokens
    ensures Run(START, run).tokens[id].client in Run(START, run).clients
  {
    StartInv(from);
    RunInv(START, from, run);
    assert TokenOk(Run(START, run), id, Last(run, from));
  }

  lemma RefreshesNow(db: Db, id: nat, t: Token, r: Refresh, now: Time)
    requires r.refresh == RefreshOf(id) && SameRow(db, id, t)
    requires id in db.tokens ==> db.tokens[id].client in db.clients
    ensures RefreshToken(db, r, now).1.TokenIssued?
            <==> && id in db.tokens && db.tokens[id].rotated.None? && db.tokens[id].revoked.None?
                 && r.client == t.client && SecretShown(db, r.client, r.secret) && ResourceFits(r.resource, r.here)
                 && now <= t.refreshExpires && Active(db, t.user)
                 && (r.scope.None? || forall w :: w in r.scope.value ==> w in t.scope)
  {
    if r.scope.Some? {
      forall i | 0 <= i < |r.scope.value| ensures r.scope.value[i] in r.scope.value {}
    }
  }

  /** A refresh token is rotated exactly by its own client, authenticated, for this resource, while it is stored and
      neither rotated nor revoked, within thirty days, for an active account and no wider a scope. */
  lemma RefreshExactly(run: seq<Event>, from: Time, k: nat, id: nat, r: Refresh, now: Time)
    requires Timed(run, from) && Issues(run, k, id) && r.refresh == RefreshOf(id)
    ensures var db, t := Run(START, run), Grant(run, k, id);
            RefreshToken(db, r, now).1.TokenIssued?
            <==> && id in db.tokens && db.tokens[id].rotated.None? && db.tokens[id].revoked.None?
                 && r.client == t.client && SecretShown(db, r.client, r.secret) && ResourceFits(r.resource, r.here)
                 && now <= run[k].at + 30 * 24 * 3600 && Active(db, t.user)
                 && (r.scope.None? || forall w :: w in r.scope.value ==> w in t.scope)
  {
    RowNow(run, k, id);
    if id in Run(START, run).tokens {
      TokenClient(run, from, id);
    }
    RefreshesNow(Run(START, run), id, Grant(run, k, id), r, now);
  }

  /** The new token carries the old grant with the scope asked for, for an hour and thirty days more; the old one is
      spent. */
  lemma RefreshedGrant(run: seq<Event>, k: nat, id: nat, r: Refresh, now: Time)
    requires Issues(run, k, id) && r.refresh == RefreshOf(id) && RefreshToken(Run(START, run), r, now).1.TokenIssued?
    ensures var (after, reply) := RefreshToken(Run(START, run), r, now); var t := Grant(run, k, id);
            && id in after.tokens && reply.token in after.tokens && reply.token != id
            && after.tokens[id].rotated == Some(now) && after.tokens[id].revoked == Some(now)
            && var u := after.tokens[reply.token];
            && u.family == t.family && u.client == t.client && u.user == t.user && u.resource == t.resource
            && u.scope == (if r.scope.Some? then r.scope.value else t.scope) && u.rotated.None? && u.revoked.None?
            && u.accessExpires == now + 3600 && u.refreshExpires == now + 30 * 24 * 3600
  {
    RowNow(run, k, id);
  }
}
