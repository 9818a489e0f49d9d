/** Runs of the authorization server, and what every run keeps. */
module OAuthSafety {
  import opened Text
  import opened OAuthModel

  datatype Step =
    | Consented(consent: Consent)
    | Exchanged(exchange: Exchange)
    | Refreshed(refresh: Refresh)
    | Revoked(client: string, secret: Option<string>, token: Secret)
    | Disconnected(user: nat, family: nat)
    | Checked(access: Secret, here: string)
    | Purged
    | Registered(id: string, kind: Kind, key: Option<string>, redirects: seq<Uri>)
    | UserSet(account: nat, ok: bool)

  function Register(db: Db, id: string, kind: Kind, key: Option<string>, redirects: seq<Uri>, now: Time): Db {
    if id !in db.clients then db.(clients := db.clients[id := Client(kind, key, redirects, now, None)])
    else if db.clients[id].kind == Cimd then db.(clients := db.clients[id := db.clients[id].(redirects := redirects)])
    else db
  }

  /** One request, handled as one atomic step. */
  function Apply(db: Db, step: Step, now: Time): (Db, Reply) {
    match step
    case Consented(q) => Decide(db, q, now)
    case Exchanged(q) => ExchangeCode(db, q, now)
    case Refreshed(q) => RefreshToken(db, q, now)
    case Revoked(client, secret, token) => Revoke(db, client, secret, token, now)
    case Disconnected(user, family) => RevokeConnection(db, user, family, now)
    case Checked(access, here) => Bearer(db, access, here, now)
    case Purged => (Purge(db, now), Done)
    case Registered(id, kind, key, redirects) => (Register(db, id, kind, key, redirects, now), Done)
    case UserSet(account, ok) => (db.(users := db.users[account := ok]), Done)
  }

  // ── the invariant ─────────────────────────────────────────────────────────

  /** The code can never be exchanged again: used, or gone. */
  predicate Spent(db: Db, code: nat) {
    code < db.next && (code in db.codes ==> db.codes[code].used.Some?)
  }

  predicate TokenOk(db: Db, id: nat, now: Time)
    requires id in db.tokens
  {
    var t := db.tokens[id];
    && id < db.next && Spent(db, t.family)
    && t.accessExpires <= t.refreshExpires
    && (t.rotated.Some? ==> t.revoked.Some?)
    && t.client in db.clients
  }

  predicate OneLive(db: Db, i: nat, j: nat)
    requires i in db.tokens && j in db.tokens
  {
    db.tokens[i].family == db.tokens[j].family && db.tokens[i].revoked.None? && db.tokens[j].revoked.None? ==> i == j
  }

  /** A code still good keeps its client from being purged. */
  predicate CodeOk(db: Db, id: nat, now: Time)
    requires id in db.codes
  {
    var c := db.codes[id];
    && id < db.next
    && (c.expires >= now ==> c.client in db.clients && db.clients[c.client].lastUsed.Some?
                             && db.clients[c.client].lastUsed.value >= c.expires - CODE_SECONDS)
  }

  ghost predicate Inv(db: Db, now: Time) {
    && (forall id {:trigger TokenOk(db, id, now)} :: id in db.tokens ==> TokenOk(db, id, now))
    && (forall i, j {:trigger OneLive(db, i, j)} :: i in db.tokens && j in db.tokens ==> OneLive(db, i, j))
    && (forall id {:trigger CodeOk(db, id, now)} :: id in db.codes ==> CodeOk(db, id, now))
    && (forall c :: c in db.clients && db.clients[c].lastUsed.Some? ==> db.clients[c].lastUsed.value <= now)
  }

  const START := Db(0, map[], map[], map[], map[])

  lemma StartInv(now: Time)
    ensures Inv(START, now)
  {
  }

  lemma LaterInv(db: Db, now: Time, later: Time)
    requires Inv(db, now) && now <= later
    ensures Inv(db, later)
  {
    forall id {:trigger TokenOk(db, id, later)} | id in db.tokens ensures TokenOk(db, id, later) {
      assert TokenOk(db, id, now);
    }
    forall id {:trigger CodeOk(db, id, later)} | id in db.codes ensures CodeOk(db, id, later) {
      assert CodeOk(db, id, now);
    }
  }

  lemma RevokeFamilyInv(db: Db, family: nat, now: Time)
    requires Inv(db, now)
    ensures Inv(db.(tokens := RevokeFamily(db.tokens, family, now)), now)
  {
    var after := db.(tokens := RevokeFamily(db.tokens, family, now));
    forall id {:trigger TokenOk(after, id, now)} | id in after.tokens ensures TokenOk(after, id, now) {
      assert TokenOk(db, id, now);
    }
    forall i, j {:trigger OneLive(after, i, j)} | i in after.tokens && j in after.tokens ensures OneLive(after, i, j) {
      assert OneLive(db, i, j);
    }
    forall id {:trigger CodeOk(after, id, now)} | id in after.codes ensures CodeOk(after, id, now) {
      assert CodeOk(db, id, now);
    }
  }

  lemma DecideInv(db: Db, q: Consent, now: Time)
    requires Inv(db, now)
    ensures Inv(Decide(db, q, now).0, now)
  {
    var after := Decide(db, q, now).0;
    if after != db {
      forall id {:trigger TokenOk(after, id, now)} | id in after.tokens ensures TokenOk(after, id, now) {
        assert TokenOk(db, id, now);
      }
      forall i, j {:trigger OneLive(after, i, j)} | i in after.tokens && j in after.tokens
        ensures OneLive(after, i, j)
      {
        assert OneLive(db, i, j);
      }
      forall id {:trigger CodeOk(after, id, now)} | id in after.codes ensures CodeOk(after, id, now) {
        if id in db.codes && id != db.next { assert CodeOk(db, id, now); }
      }
    }
  }

  /** Issuing keeps the invariant when the family has no live row left. */
  lemma IssueInv(db: Db, client: string, user: nat, scope: seq<string>, resource: string, family: nat, now: Time)
    requires Inv(db, now) && client in db.clients && Spent(db, family)
    requires forall id :: id in db.tokens && db.tokens[id].family == family ==> db.tokens[id].revoked.Some?
    ensures Inv(Issue(db, client, user, scope, resource, family, now).0, now)
  {
    var after := Issue(db, client, user, scope, resource, family, now).0;
    forall id {:trigger TokenOk(after, id, now)} | id in after.tokens ensures TokenOk(after, id, now) {
      if id in db.tokens { assert TokenOk(db, id, now); }
    }
    forall i, j {:trigger OneLive(after, i, j)} | i in after.tokens && j in after.tokens ensures OneLive(after, i, j) {
      if i in db.tokens { assert TokenOk(db, i, now); }
      if j in db.tokens { assert TokenOk(db, j, now); }
      if i != db.next && j != db.next { assert OneLive(db, i, j); }
    }
    forall id {:trigger CodeOk(after, id, now)} | id in after.codes ensures CodeOk(after, id, now) {
      assert CodeOk(db, id, now);
    }
  }

  lemma ExchangeInv(db: Db, q: Exchange, now: Time)
    requires Inv(db, now)
    ensures Inv(ExchangeCode(db, q, now).0, now)
  {
    if ExchangeCode(db, q, now).1.TokenIssued? {
      var id, row := q.code.id, db.codes[q.code.id];
      var spent := db.(codes := db.codes[id := row.(used := Some(now))]);
      assert CodeOk(db, id, now);
      forall t {:trigger TokenOk(spent, t, now)} | t in spent.tokens ensures TokenOk(spent, t, now) {
        assert TokenOk(db, t, now);
      }
      forall i, j {:trigger OneLive(spent, i, j)} | i in spent.tokens && j in spent.tokens
        ensures OneLive(spent, i, j)
      {
        assert OneLive(db, i, j);
      }
      forall c {:trigger CodeOk(spent, c, now)} | c in spent.codes ensures CodeOk(spent, c, now) {
        assert CodeOk(db, c, now);
      }
      forall t | t in spent.tokens ensures spent.tokens[t].family != id {
        assert TokenOk(db, t, now);
      }
      IssueInv(spent, q.client, row.user, row.scope, if row.resource != "" then row.resource else q.here, id, now);
    } else if ExchangeCode(db, q, now).0 != db {
      RevokeFamilyInv(db, q.code.id, now);
    }
  }

  lemma RefreshInv(db: Db, q: Refresh, now: Time)
    requires Inv(db, now)
    ensures Inv(RefreshToken(db, q, now).0, now)
  {
    if RefreshToken(db, q, now).1.TokenIssued? {
      var id, row := q.refresh.id, db.tokens[q.refresh.id];
      var spent := db.(tokens := db.tokens[id := row.(rotated := Some(now), revoked := Some(now))]);
      assert TokenOk(db, id, now);
      forall t {:trigger TokenOk(spent, t, now)} | t in spent.tokens ensures TokenOk(spent, t, now) {
        assert TokenOk(db, t, now);
      }
      forall i, j {:trigger OneLive(spent, i, j)} | i in spent.tokens && j in spent.tokens
        ensures OneLive(spent, i, j)
      {
        assert OneLive(db, i, j);
      }
      forall c {:trigger CodeOk(spent, c, now)} | c in spent.codes ensures CodeOk(spent, c, now) {
        assert CodeOk(db, c, now);
      }
      forall t | t in spent.tokens && spent.tokens[t].family == row.family ensures spent.tokens[t].revoked.Some? {
        assert OneLive(db, id, t);
      }
      IssueInv(spent, q.client, row.user, q.scope.GetOr(row.scope), row.resource, row.family, now);
    } else if RefreshToken(db, q, now).0 != db {
      RevokeFamilyInv(db, db.tokens[q.refresh.id].family, now);
    }
  }

  lemma BearerInv(db: Db, access: Secret, here: string, now: Time)
    requires Inv(db, now)
    ensures Inv(Bearer(db, access, here, now).0, now)
  {
    var after := Bearer(db, access, here, now).0;
    forall id {:trigger TokenOk(after, id, now)} | id in after.tokens ensures TokenOk(after, id, now) {
      assert TokenOk(db, id, now);
    }
    forall i, j {:trigger OneLive(after, i, j)} | i in after.tokens && j in after.tokens ensures OneLive(after, i, j) {
      assert OneLive(db, i, j);
    }
    forall id {:trigger CodeOk(after, id, now)} | id in after.codes ensures CodeOk(after, id, now) {
      assert CodeOk(db, id, now);
    }
  }

  lemma PurgeInv(db: Db, now: Time)
    requires Inv(db, now)
    ensures Inv(Purge(db, now), now)
  {
    var after := Purge(db, now);
    forall id {:trigger TokenOk(after, id, now)} | id in after.tokens ensures TokenOk(after, id, now) {
      assert TokenOk(db, id, now);
      assert after.tokens[id].client in LiveClients(after.tokens);
    }
    forall i, j {:trigger OneLive(after, i, j)} | i in after.tokens && j in after.tokens ensures OneLive(after, i, j) {
      assert OneLive(db, i, j);
    }
    forall id {:trigger CodeOk(after, id, now)} | id in after.codes ensures CodeOk(after, id, now) {
      assert CodeOk(db, id, now);
    }
  }

  lemma RegisterInv(db: Db, id: string, kind: Kind, key: Option<string>, redirects: seq<Uri>, now: Time)
    requires Inv(db, now)
    ensures Inv(Register(db, id, kind, key, redirects, now), now)
  {
    var after := Register(db, id, kind, key, redirects, now);
    forall t {:trigger TokenOk(after, t, now)} | t in after.tokens ensures TokenOk(after, t, now) {
      assert TokenOk(db, t, now);
    }
    forall i, j {:trigger OneLive(after, i, j)} | i in after.tokens && j in after.tokens ensures OneLive(after, i, j) {
      assert OneLive(db, i, j);
    }
    forall c {:trigger CodeOk(after, c, now)} | c in after.codes ensures CodeOk(after, c, now) {
      assert CodeOk(db, c, now);
    }
  }

  /** Every request keeps the invariant. */
  lemma StepInv(db: Db, step: Step, before: Time, now: Time)
    requires Inv(db, before) && before <= now
    ensures Inv(Apply(db, step, now).0, now)
  {
    LaterInv(db, before, now);
    match step
    case Consented(q) => DecideInv(db, q, now);
    case Exchanged(q) => ExchangeInv(db, q, now);
    case Refreshed(q) => RefreshInv(db, q, now);
    case Revoked(client, secret, token) =>
      if RowOf(db.tokens, token).Some? {
        RevokeFamilyInv(db, db.tokens[RowOf(db.tokens, token).value].family, now);
      }
    case Disconnected(user, family) => RevokeFamilyInv(db, family, now);
    case Checked(access, here) => BearerInv(db, access, here, now);
    case Purged => PurgeInv(db, now);
    case Registered(id, kind, key, redirects) => RegisterInv(db, id, kind, key, redirects, now);
    case UserSet(account, ok) =>
      var after := db.(users := db.users[account := ok]);
      forall t {:trigger TokenOk(after, t, now)} | t in after.tokens ensures TokenOk(after, t, now) {
        assert TokenOk(db, t, now);
      }
      forall i, j {:trigger OneLive(after, i, j)} | i in after.tokens && j in after.tokens
        ensures OneLive(after, i, j)
      {
        assert OneLive(db, i, j);
      }
      forall c {:trigger CodeOk(after, c, now)} | c in after.codes ensures CodeOk(after, c, now) {
        assert CodeOk(db, c, now);
      }
  }

  // ── runs ──────────────────────────────────────────────────────────────────

  datatype Event = Event(step: Step, at: Time)

  /** The clock never runs backwards. */
  predicate Timed(run: seq<Event>, from: Time) {
    forall i :: 0 <= i < |run| ==> from <= run[i].at && forall j :: 0 <= j < i ==> run[j].at <= run[i].at
  }

  function Run(db: Db, run: seq<Event>): Db {
    if run == [] then db
    else var e := run[|run|-1]; Apply(Run(db, run[..|run|-1]), e.step, e.at).0
  }

  function Last(run: seq<Event>, from: Time): Time {
    if run == [] then from else run[|run|-1].at
  }

  lemma {:induction false} RunInv(db: Db, from: Time, run: seq<Event>)
    requires Inv(db, from) && Timed(run, from)
    ensures Inv(Run(db, run), Last(run, from))
  {
    if run != [] {
      var n := |run| - 1;
      RunInv(db, from, run[..n]);
      StepInv(Run(db, run[..n]), run[n].step, Last(run[..n], from), run[n].at);
    }
  }

  /** An access token a bearer check would take; a refresh token a refresh would take. */
  predicate AccessAcceptable(db: Db, id: nat, here: string, now: Time) {
    Bearer(db, AccessOf(id), here, now).1.Accepted?
  }

  ghost predicate RefreshAcceptable(db: Db, id: nat, now: Time) {
    exists q: Refresh :: q.refresh == RefreshOf(id) && RefreshToken(db, q, now).1.TokenIssued?
  }

  /** In every reachable state, a family has at most one token a client can use. */
  lemma OneUsableToken(run: seq<Event>, from: Time, i: nat, j: nat, here: string, now: Time)
    requires Timed(run, from)
    requires var db := Run(START, run); i in db.tokens && j in db.tokens && db.tokens[i].family == db.tokens[j].family
    ensures var db := Run(START, run);
            && (AccessAcceptable(db, i, here, now) && AccessAcceptable(db, j, here, now) ==> i == j)
            && (RefreshAcceptable(db, i, now) && RefreshAcceptable(db, j, now) ==> i == j)
  {
    StartInv(from);
    RunInv(START, from, run);
    assert OneLive(Run(START, run), i, j);
  }

  // ── a code is redeemed once ───────────────────────────────────────────────

  predicate Redeems(db: Db, e: Event, code: nat) {
    e.step.Exchanged? && e.step.exchange.code == CodeOf(code) && Apply(db, e.step, e.at).1.TokenIssued?
  }

  lemma SpentStays(db: Db, step: Step, now: Time, code: nat)
    requires Spent(db, code)
    ensures Spent(Apply(db, step, now).0, code)
  {
  }

  lemma {:induction false} SpentForever(db: Db, run: seq<Event>, code: nat)
    requires Spent(db, code)
    ensures Spent(Run(db, run), code)
  {
    if run != [] {
      var n := |run| - 1;
      SpentForever(db, run[..n], code);
      SpentStays(Run(db, run[..n]), run[n].step, run[n].at, code);
    }
  }

  lemma {:induction false} RunSplit(db: Db, run: seq<Event>, n: nat)
    requires n <= |run|
    ensures Run(db, run) == Run(Run(db, run[..n]), run[n..])
    decreases |run| - n
  {
    if n == |run| {
      assert run[..n] == run;
    } else {
      RunSplitLast(db, run, n);
    }
  }

  lemma {:induction false} RunSplitLast(db: Db, run: seq<Event>, n: nat)
    requires n < |run|
    ensures Run(db, run) == Run(Run(db, run[..n]), run[n..])
    decreases |run|
  {
    var m := |run| - 1;
    assert run[n..][..m-n] == run[n..m] && run[..m][n..] == run[n..m] && run[..m][..n] == run[..n];
    if n < m {
      RunSplitLast(db, run[..m], n);
    }
  }

  /** No run redeems one code at two of its steps. */
  lemma CodeRedeemedOnce(db: Db, from: Time, run: seq<Event>, i: nat, j: nat, code: nat)
    requires Inv(db, from) && Timed(run, from) && i < |run| && j < |run|
    requires Redeems(Run(db, run[..i]), run[i], code) && Redeems(Run(db, run[..j]), run[j], code)
    ensures i == j
  {
    if i < j {
      RedeemedThenSpent(db, from, run, i, j, code);
    } else if j < i {
      RedeemedThenSpent(db, from, run, j, i, code);
    }
  }

  lemma RedeemedThenSpent(db: Db, from: Time, run: seq<Event>, i: nat, j: nat, code: nat)
    requires Inv(db, from) && Timed(run, from) && i < j < |run|
    requires Redeems(Run(db, run[..i]), run[i], code)
    ensures !Redeems(Run(db, run[..j]), run[j], code)
  {
    var at := Run(db, run[..i]);
    RunInv(db, from, run[..i]);
    assert CodeOk(at, code, Last(run[..i], from));
    assert run[..i+1][..i] == run[..i];
    assert Spent(Run(db, run[..i+1]), code);
    RunSplit(db, run[..j], i + 1);
    assert run[..j][..i+1] == run[..i+1];
    SpentForever(Run(db, run[..i+1]), run[..j][i+1..], code);
  }

  // ── a revoked family stays dead ───────────────────────────────────────────

  /** No row of the family is live and its code can make no more. */
  ghost predicate Dead(db: Db, family: nat) {
    Spent(db, family) && forall id :: id in db.tokens && db.tokens[id].family == family ==> db.tokens[id].revoked.Some?
  }

  lemma DeadStays(db: Db, step: Step, before: Time, now: Time, family: nat)
    requires Inv(db, before) && before <= now && Dead(db, family)
    ensures Dead(Apply(db, step, now).0, family)
  {
    SpentStays(db, step, now, family);
  }

  lemma {:induction false} DeadForever(db: Db, from: Time, run: seq<Event>, family: nat)
    requires Inv(db, from) && Timed(run, from) && Dead(db, family)
    ensures Dead(Run(db, run), family)
  {
    if run != [] {
      var n := |run| - 1;
      DeadForever(db, from, run[..n], family);
      RunInv(db, from, run[..n]);
      DeadStays(Run(db, run[..n]), run[n].step, Last(run[..n], from), run[n].at, family);
    }
  }

  /** After a family dies, no later step of any run accepts one of its tokens. */
  lemma DeadNeverAccepted(db: Db, from: Time, run: seq<Event>, id: nat, here: string, now: Time)
    requires Inv(db, from) && Timed(run, from)
    requires var after := Run(db, run); id in after.tokens && Dead(db, after.tokens[id].family)
    ensures !AccessAcceptable(Run(db, run), id, here, now) && !RefreshAcceptable(Run(db, run), id, now)
  {
    DeadForever(db, from, run, Run(db, run).tokens[id].family);
  }

  /** Replaying a used code that is still stored kills its family. */
  lemma ReplayKills(db: Db, before: Time, q: Exchange, now: Time)
    requires Inv(db, before) && before <= now
    requires ClientOk(db, q.client, q.secret) && ResourceOk(q.resource, q.here)
    requires q.code.CodeOf? && q.code.id in db.codes && db.codes[q.code.id].client == q.client
    requires db.codes[q.code.id].used.Some?
    ensures Dead(ExchangeCode(db, q, now).0, q.code.id)
  {
    assert CodeOk(db, q.code.id, before);
  }

  /** So does presenting a rotated refresh token that is still stored. */
  lemma ReuseKills(db: Db, before: Time, q: Refresh, now: Time)
    requires Inv(db, before) && before <= now
    requires ClientOk(db, q.client, q.secret) && ResourceOk(q.resource, q.here)
    requires q.refresh.RefreshOf? && q.refresh.id in db.tokens && db.tokens[q.refresh.id].client == q.client
    requires db.tokens[q.refresh.id].rotated.Some?
    ensures Dead(RefreshToken(db, q, now).0, db.tokens[q.refresh.id].family)
  {
    assert TokenOk(db, q.refresh.id, before);
  }

  /** A revoke request kills the family of its token exactly when the token is
      stored and the caller is its own client (or the family was dead already). */
  lemma RevokeKills(db: Db, before: Time, client: string, secret: Option<string>, token: Secret, now: Time, id: nat)
    requires Inv(db, before) && before <= now && id in db.tokens
    requires token == AccessOf(id) || token == RefreshOf(id)
    ensures Dead(Revoke(db, client, secret, token, now).0, db.tokens[id].family)
            <==> Dead(db, db.tokens[id].family) || (ClientOk(db, client, secret) && db.tokens[id].client == client)
  {
    assert TokenOk(db, id, before);
  }

  /** Removing a connection kills it, for its own user only. */
  lemma DisconnectKills(db: Db, before: Time, user: nat, family: nat, now: Time)
    requires Inv(db, before) && before <= now
    ensures RevokeConnection(db, user, family, now).1.Done? ==> Dead(RevokeConnection(db, user, family, now).0, family)
    ensures RevokeConnection(db, user, family, now).1.Done?
            <==> exists id :: id in db.tokens && db.tokens[id].family == family && db.tokens[id].user == user
  {
    if id :| id in db.tokens && db.tokens[id].family == family && db.tokens[id].user == user {
      assert TokenOk(db, id, before);
    }
  }

  // ── the purge is invisible to the next request ────────────────────────────

  lemma ClientKept(db: Db, id: nat, before: Time, t: Time)
    requires Inv(db, before) && before <= t && id in db.tokens && !TokenStale(db.tokens[id], t)
    ensures db.tokens[id].client in Purge(db, t).clients
    ensures Purge(db, t).clients[db.tokens[id].client] == db.clients[db.tokens[id].client]
  {
    assert TokenOk(db, id, before);
    var after := Purge(db, t);
    assert id in after.tokens;
    assert after.tokens[id].client in LiveClients(after.tokens);
  }

  lemma CodeClientKept(db: Db, id: nat, before: Time, t: Time, now: Time)
    requires Inv(db, before) && before <= t <= now && id in db.codes && db.codes[id].expires >= now
    ensures id in Purge(db, t).codes && Purge(db, t).codes[id] == db.codes[id]
    ensures db.codes[id].client in Purge(db, t).clients
    ensures Purge(db, t).clients[db.codes[id].client] == db.clients[db.codes[id].client]
  {
    assert CodeOk(db, id, before);
  }

  /** A purge changes no later code exchange, refresh or bearer check: each
      succeeds exactly when it would have, with the same row or the same user. */
  lemma PurgeInvisible(db: Db, before: Time, t: Time, now: Time, x: Exchange, r: Refresh, access: Secret, here: string)
    requires Inv(db, before) && before <= t <= now
    ensures ExchangeCode(db, x, now).1.TokenIssued? <==> ExchangeCode(Purge(db, t), x, now).1.TokenIssued?
    ensures RefreshToken(db, r, now).1.TokenIssued? <==> RefreshToken(Purge(db, t), r, now).1.TokenIssued?
    ensures Bearer(db, access, here, now).1.Accepted? <==> Bearer(Purge(db, t), access, here, now).1.Accepted?
    ensures Bearer(db, access, here, now).1.Accepted? ==>
              Bearer(db, access, here, now).1 == Bearer(Purge(db, t), access, here, now).1
  {
    PurgeExchange(db, before, t, now, x);
    PurgeRefresh(db, before, t, now, r);
    PurgeBearer(db, before, t, now, access, here);
  }

  lemma PurgeExchange(db: Db, before: Time, t: Time, now: Time, x: Exchange)
    requires Inv(db, before) && before <= t <= now
    ensures ExchangeCode(db, x, now).1.TokenIssued? <==> ExchangeCode(Purge(db, t), x, now).1.TokenIssued?
    ensures ExchangeCode(db, x, now).1.TokenIssued? ==>
              var id := db.next;
              ExchangeCode(db, x, now).0.tokens[id] == ExchangeCode(Purge(db, t), x, now).0.tokens[id]
  {
    if x.code.CodeOf? && x.code.id in db.codes && db.codes[x.code.id].expires >= now {
      CodeClientKept(db, x.code.id, before, t, now);
    }
  }

  lemma PurgeRefresh(db: Db, before: Time, t: Time, now: Time, r: Refresh)
    requires Inv(db, before) && before <= t <= now
    ensures RefreshToken(db, r, now).1.TokenIssued? <==> RefreshToken(Purge(db, t), r, now).1.TokenIssued?
    ensures RefreshToken(db, r, now).1.TokenIssued? ==>
              var id := db.next;
              RefreshToken(db, r, now).0.tokens[id] == RefreshToken(Purge(db, t), r, now).0.tokens[id]
  {
    if r.refresh.RefreshOf? && r.refresh.id in db.tokens && !TokenStale(db.tokens[r.refresh.id], t) {
      ClientKept(db, r.refresh.id, before, t);
    }
  }

  lemma PurgeBearer(db: Db, before: Time, t: Time, now: Time, access: Secret, here: string)
    requires Inv(db, before) && before <= t <= now
    ensures Bearer(db, access, here, now).1.Accepted? <==> Bearer(Purge(db, t), access, here, now).1.Accepted?
    ensures Bearer(db, access, here, now).1.Accepted? ==>
              Bearer(db, access, here, now).1 == Bearer(Purge(db, t), access, here, now).1
  {
    if access.AccessOf? && access.id in db.tokens {
      assert TokenOk(db, access.id, before);
    }
  }

  /** What a purge does forget: a replay kills a live family only while the used
      code's row is stored, that is until a day after the code expired. */
  lemma ReplayKillsWhileStored(db: Db, before: Time, t: Time, now: Time, q: Exchange)
    requires Inv(db, before) && before <= t <= now
    requires q.code.CodeOf? && q.code.id in db.codes && db.codes[q.code.id].used.Some?
    requires db.codes[q.code.id].client == q.client
    requires ClientOk(Purge(db, t), q.client, q.secret) && ResourceOk(q.resource, q.here)
    requires !Dead(Purge(db, t), q.code.id)
    ensures Dead(ExchangeCode(Purge(db, t), q, now).0, q.code.id) <==> db.codes[q.code.id].expires >= t - DAY
  {
    PurgeInv2(db, before, t);
    assert CodeOk(db, q.code.id, before);
    if db.codes[q.code.id].expires >= t - DAY {
      ReplayKills(Purge(db, t), t, q, now);
    }
  }

  lemma PurgeInv2(db: Db, before: Time, t: Time)
    requires Inv(db, before) && before <= t
    ensures Inv(Purge(db, t), t)
  {
    LaterInv(db, before, t);
    PurgeInv(db, t);
  }
}
