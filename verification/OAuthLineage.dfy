/** Where an accepted token comes from: consent, code, and a chain of rotations. */
module OAuthLineage {
  import opened Text
  import opened OAuthModel
  import opened OAuthSafety

  /** What was asked and answered so far; the server itself forgets rows. */
  datatype Hist = Hist(consents: map<nat, Answered>, exchanges: map<nat, Exchange>, issued: map<nat, Token>,
                       parent: map<nat, Option<nat>>)

  /** A consent that was answered with a code: the addresses its client had registered, and the one the code was bound
      to. */
  datatype Answered = Answered(consent: Consent, registered: seq<Uri>, address: Uri)

  function Track(h: Hist, db: Db, step: Step, now: Time): Hist {
    var (after, reply) := Apply(db, step, now);
    match step
    case Consented(q) =>
      if reply.CodeIssued? && q.client in db.clients && reply.code in after.codes
      then h.(consents := h.consents[reply.code :=
                Answered(q, db.clients[q.client].redirects, after.codes[reply.code].redirect)])
      else h
    case Exchanged(q) =>
      if reply.TokenIssued? && reply.token in after.tokens && q.code.CodeOf?
      then h.(issued := h.issued[reply.token := after.tokens[reply.token]],
              parent := h.parent[reply.token := None],
              exchanges := h.exchanges[q.code.id := q])
      else h
    case Refreshed(q) =>
      if reply.TokenIssued? && reply.token in after.tokens && q.refresh.RefreshOf?
      then h.(issued := h.issued[reply.token := after.tokens[reply.token]],
              parent := h.parent[reply.token := Some(q.refresh.id)])
      else h
    case _ => h
  }

  /** Loopback addresses that differ in the port at most. */
  predicate LoopbackTwin(x: Uri, y: Uri) {
    && x.scheme == "http" && y.scheme == "http" && Lower(x.host) == Lower(y.host)
    && Lower(x.host) in {"localhost", "127.0.0.1", "::1"}
    && (if x.path == "" then "/" else x.path) == (if y.path == "" then "/" else y.path) && x.query == y.query
  }

  /** The address is the requested one, which the client registered up to a loopback port; with none requested it is the
      client's only one, and no loopback address. */
  predicate ResolvesTo(registered: seq<Uri>, requested: Option<Uri>, address: Uri) {
    if requested.Some?
    then address == requested.value && exists r :: r in registered && (r == address || LoopbackTwin(r, address))
    else registered == [address] && !LoopbackTwin(address, address)
  }

  predicate CodeMatches(c: Code, a: Answered) {
    var q := a.consent;
    && q.allow && c.client == q.client && c.user == q.user && c.scope == q.scope
    && c.challenge == q.challenge && c.resource == q.here
    && c.redirect == a.address && ResolvesTo(a.registered, q.redirect, a.address)
  }

  /** A row differs from the one issued in its three time stamps only. */
  predicate SameGrant(t: Token, u: Token) {
    && t.family == u.family && t.client == u.client && t.user == u.user && t.scope == u.scope
    && t.resource == u.resource && t.accessExpires == u.accessExpires && t.refreshExpires == u.refreshExpires
  }

  /** The first token of a family carries exactly what was consented to; its exchange proved possession of the verifier
      and named the consented address, if any. */
  predicate FromConsent(h: Hist, id: nat)
    requires id in h.issued
  {
    var t := h.issued[id];
    && t.family in h.consents && t.family in h.exchanges
    && var a, x := h.consents[t.family], h.exchanges[t.family];
    && var q := a.consent;
    && q.allow && t.user == q.user && t.client == q.client && t.scope == q.scope
    && (q.here != "" ==> t.resource == q.here)
    && x.client == q.client && x.code == CodeOf(t.family) && PkceOk(x.verifier, q.challenge)
    && (x.redirect.None? || x.redirect.value == a.address) && ResolvesTo(a.registered, q.redirect, a.address)
  }

  /** A rotation keeps user, client, family and resource, and never widens scope. */
  predicate FromParent(h: Hist, id: nat, p: nat)
    requires id in h.issued
  {
    && p < id && p in h.issued
    && var t, u := h.issued[id], h.issued[p];
    && t.family == u.family && t.user == u.user && t.client == u.client && t.resource == u.resource
    && WordsWithin(t.scope, u.scope)
  }

  predicate LinkOk(h: Hist, id: nat) {
    && id in h.issued && id in h.parent
    && match h.parent[id]
       case None => FromConsent(h, id)
       case Some(p) => FromParent(h, id, p)
  }

  predicate CodeTracked(db: Db, h: Hist, id: nat) {
    id in db.codes && id in h.consents && CodeMatches(db.codes[id], h.consents[id])
    && (db.codes[id].used.None? ==> forall t :: t in h.issued ==> h.issued[t].family != id)
  }

  predicate TokenTracked(db: Db, h: Hist, id: nat) {
    id in db.tokens && id in h.issued && SameGrant(db.tokens[id], h.issued[id])
  }

  ghost predicate Tracked(db: Db, h: Hist) {
    && (forall id :: id in h.issued || id in h.consents ==> id < db.next)
    && (forall id :: id in h.issued ==> h.issued[id].family < db.next)
    && (forall id {:trigger CodeTracked(db, h, id)} :: id in db.codes ==> CodeTracked(db, h, id))
    && (forall id {:trigger TokenTracked(db, h, id)} :: id in db.tokens ==> TokenTracked(db, h, id))
    && (forall id {:trigger LinkOk(h, id)} :: id in h.issued ==> LinkOk(h, id))
  }

  const NO_HISTORY := Hist(map[], map[], map[], map[])

  lemma ResolvedIs(registered: seq<Uri>, requested: Option<Uri>)
    ensures var u := ResolveRedirect(registered, requested); u.Some? ==> ResolvesTo(registered, requested, u.value)
  {
    if requested.Some? && exists i :: 0 <= i < |registered| && RedirectMatches(registered[i], requested.value) {
      var i :| 0 <= i < |registered| && RedirectMatches(registered[i], requested.value);
      assert registered[i] in registered;
    }
  }

  lemma ConsentTracked(db: Db, h: Hist, q: Consent, now: Time)
    requires Tracked(db, h)
    ensures Tracked(Decide(db, q, now).0, Track(h, db, Consented(q), now))
  {
    if Decide(db, q, now).1.CodeIssued? {
      var registered := db.clients[q.client].redirects;
      ResolvedIs(registered, q.redirect);
      var after := Decide(db, q, now).0;
      AnsweredTracked(db, h, after, after.codes[db.next], Answered(q, registered, after.codes[db.next].redirect));
    }
  }

  lemma AnsweredTracked(db: Db, h: Hist, after: Db, code: Code, a: Answered)
    requires Tracked(db, h) && CodeMatches(code, a) && after.next == db.next + 1
    requires after.codes == db.codes[db.next := code] && after.tokens == db.tokens
    ensures Tracked(after, h.(consents := h.consents[db.next := a]))
  {
    var h' := h.(consents := h.consents[db.next := a]);
    forall id {:trigger CodeTracked(after, h', id)} | id in after.codes ensures CodeTracked(after, h', id) {
      if id != db.next { assert CodeTracked(db, h, id); }
    }
    forall id {:trigger TokenTracked(after, h', id)} | id in after.tokens ensures TokenTracked(after, h', id) {
      assert TokenTracked(db, h, id);
    }
    forall id {:trigger LinkOk(h', id)} | id in h'.issued ensures LinkOk(h', id) {
      assert LinkOk(h, id);
    }
  }

  /** No new row: codes at most get used, tokens at most get stamped, rows may go. */
  ghost predicate OnlyMarked(db: Db, after: Db) {
    && db.next <= after.next
    && (forall id :: id in after.codes ==> id in db.codes && CodeMarked(db.codes[id], after.codes[id]))
    && (forall id :: id in after.tokens ==> id in db.tokens && SameGrant(after.tokens[id], db.tokens[id]))
  }

  predicate CodeMarked(was: Code, c: Code) {
    c.(used := None) == was.(used := None) && (c.used.None? ==> was.used.None?)
  }

  lemma RevokedMarked(db: Db, family: nat, now: Time)
    ensures OnlyMarked(db, db) && OnlyMarked(db, db.(tokens := RevokeFamily(db.tokens, family, now)))
  {
  }

  lemma MarkedTracked(db: Db, after: Db, h: Hist)
    requires Tracked(db, h) && OnlyMarked(db, after)
    ensures Tracked(after, h)
  {
    forall id {:trigger CodeTracked(after, h, id)} | id in after.codes ensures CodeTracked(after, h, id) {
      assert CodeTracked(db, h, id);
    }
    forall id {:trigger TokenTracked(after, h, id)} | id in after.tokens ensures TokenTracked(after, h, id) {
      assert TokenTracked(db, h, id);
    }
  }

  lemma ExchangeTracked(db: Db, h: Hist, q: Exchange, now: Time)
    requires Tracked(db, h)
    ensures Tracked(ExchangeCode(db, q, now).0, Track(h, db, Exchanged(q), now))
  {
    if ExchangeCode(db, q, now).1.TokenIssued? {
      RedemptionTracked(db, h, q, now);
    } else {
      assert OnlyMarked(db, ExchangeCode(db, q, now).0);
      MarkedTracked(db, ExchangeCode(db, q, now).0, h);
    }
  }

  lemma RedemptionTracked(db: Db, h: Hist, q: Exchange, now: Time)
    requires Tracked(db, h) && ExchangeCode(db, q, now).1.TokenIssued?
    ensures Tracked(ExchangeCode(db, q, now).0, Track(h, db, Exchanged(q), now))
  {
    var after, h' := ExchangeCode(db, q, now).0, Track(h, db, Exchanged(q), now);
    var c := q.code.id;
    assert CodeTracked(db, h, c);
    var row := after.tokens[db.next];
    assert h' == h.(issued := h.issued[db.next := row], parent := h.parent[db.next := None],
                    exchanges := h.exchanges[c := q]);
    assert after.tokens == db.tokens[db.next := row] && row.family == c;
    assert after.codes == db.codes[c := db.codes[c].(used := Some(now))];
    RedeemedTracked(db, h, after, h', c, row);
    assert FromConsent(h', db.next);
  }

  /** One code is spent on one token: everything else stays tracked. */
  lemma RedeemedTracked(db: Db, h: Hist, after: Db, h': Hist, c: nat, row: Token)
    requires Tracked(db, h) && CodeTracked(db, h, c) && db.codes[c].used.None? && after.next == db.next + 1
    requires row.family == c && after.tokens == db.tokens[db.next := row]
    requires after.codes.Keys == db.codes.Keys && CodeMarked(db.codes[c], after.codes[c]) && after.codes[c].used.Some?
    requires forall id :: id in db.codes && id != c ==> after.codes[id] == db.codes[id]
    requires h'.consents == h.consents && h'.issued == h.issued[db.next := row]
    requires h'.parent == h.parent[db.next := None]
    requires c in h'.exchanges
    requires forall v :: v in h.exchanges && v != c ==> v in h'.exchanges && h'.exchanges[v] == h.exchanges[v]
    ensures FromConsent(h', db.next) ==> Tracked(after, h')
  {
    forall id {:trigger CodeTracked(after, h', id)} | id in after.codes ensures CodeTracked(after, h', id) {
      assert CodeTracked(db, h, id);
    }
    forall id {:trigger TokenTracked(after, h', id)} | id in after.tokens ensures TokenTracked(after, h', id) {
      if id in db.tokens { assert TokenTracked(db, h, id); }
    }
    if FromConsent(h', db.next) {
      forall id {:trigger LinkOk(h', id)} | id in h'.issued ensures LinkOk(h', id) {
        if id in h.issued { assert LinkOk(h, id); }
      }
    }
  }

  lemma RefreshTracked(db: Db, h: Hist, q: Refresh, now: Time)
    requires Tracked(db, h)
    ensures Tracked(RefreshToken(db, q, now).0, Track(h, db, Refreshed(q), now))
  {
    if RefreshToken(db, q, now).1.TokenIssued? {
      RotationTracked(db, h, q, now);
    } else {
      RevokedMarked(db, if q.refresh.RefreshOf? && q.refresh.id in db.tokens then db.tokens[q.refresh.id].family else 0,
                    now);
      MarkedTracked(db, RefreshToken(db, q, now).0, h);
    }
  }

  lemma RotationTracked(db: Db, h: Hist, q: Refresh, now: Time)
    requires Tracked(db, h) && RefreshToken(db, q, now).1.TokenIssued?
    ensures Tracked(RefreshToken(db, q, now).0, Track(h, db, Refreshed(q), now))
  {
    var after := RefreshToken(db, q, now).0;
    var h' := Track(h, db, Refreshed(q), now);
    var p := q.refresh.id;
    assert TokenTracked(db, h, p);
    var row := after.tokens[db.next];
    assert h' == h.(issued := h.issued[db.next := row], parent := h.parent[db.next := Some(p)]);
    assert after.codes == db.codes && row.family == db.tokens[p].family;
    forall id {:trigger CodeTracked(after, h', id)} | id in after.codes ensures CodeTracked(after, h', id) {
      assert CodeTracked(db, h, id);
      assert h.issued[p].family == row.family;
    }
    forall id {:trigger TokenTracked(after, h', id)} | id in after.tokens ensures TokenTracked(after, h', id) {
      if id in db.tokens { assert TokenTracked(db, h, id); }
    }
    forall id {:trigger LinkOk(h', id)} | id in h'.issued ensures LinkOk(h', id) {
      if id == db.next {
        assert FromParent(h', id, p);
      } else {
        assert LinkOk(h, id);
      }
    }
  }

  lemma OtherTracked(db: Db, h: Hist, step: Step, now: Time)
    requires Tracked(db, h) && !step.Consented? && !step.Exchanged? && !step.Refreshed?
    ensures Tracked(Apply(db, step, now).0, h)
  {
    assert OnlyMarked(db, Apply(db, step, now).0);
    MarkedTracked(db, Apply(db, step, now).0, h);
  }

  function History(db: Db, h: Hist, run: seq<Event>): Hist {
    if run == [] then h
    else
      var n := |run| - 1;
      Track(History(db, h, run[..n]), Run(db, run[..n]), run[n].step, run[n].at)
  }

  lemma {:induction false} RunTracked(db: Db, h: Hist, run: seq<Event>)
    requires Tracked(db, h)
    ensures Tracked(Run(db, run), History(db, h, run))
  {
    if run != [] {
      var n := |run| - 1;
      RunTracked(db, h, run[..n]);
      var db1, h1 := Run(db, run[..n]), History(db, h, run[..n]);
      match run[n].step
      case Consented(q) => ConsentTracked(db1, h1, q, run[n].at);
      case Exchanged(q) => ExchangeTracked(db1, h1, q, run[n].at);
      case Refreshed(q) => RefreshTracked(db1, h1, q, run[n].at);
      case _ => OtherTracked(db1, h1, run[n].step, run[n].at);
    }
  }

  /** The token and the rotations before it, back to the first of the family. */
  ghost function Ancestors(h: Hist, id: nat): seq<nat>
    requires forall t :: t in h.issued ==> LinkOk(h, t)
    requires id in h.issued
    decreases id
  {
    assert LinkOk(h, id);
    match h.parent[id]
    case None => [id]
    case Some(p) => [id] + Ancestors(h, p)
  }

  ghost predicate Descends(h: Hist, id: nat)
    requires forall t :: t in h.issued ==> LinkOk(h, t)
    requires id in h.issued
  {
    IsChain(h, id, Ancestors(h, id))
  }

  ghost predicate IsChain(h: Hist, id: nat, chain: seq<nat>)
    requires id in h.issued
  {
    && |chain| > 0 && chain[0] == id && (forall i :: 0 <= i < |chain| ==> chain[i] in h.issued)
    && FromConsent(h, chain[|chain|-1])
    && (forall i :: 0 <= i < |chain| - 1 ==> FromParent(h, chain[i], chain[i+1]))
    && forall i :: 0 <= i < |chain| ==> Within(h.issued[id], h.issued[chain[i]])
  }

  lemma ChainPush(h: Hist, id: nat, p: nat, rest: seq<nat>)
    requires id in h.issued && p in h.issued && FromParent(h, id, p) && IsChain(h, p, rest)
    ensures IsChain(h, id, [id] + rest)
  {
    var chain := [id] + rest;
    forall i | 0 <= i < |chain| ensures chain[i] in h.issued && Within(h.issued[id], h.issued[chain[i]]) {
      if i > 0 {
        WithinTrans(h.issued[id], h.issued[p], h.issued[rest[i-1]]);
      }
    }
    forall i | 0 <= i < |chain| - 1 ensures FromParent(h, chain[i], chain[i+1]) {
      if i > 0 {
        assert FromParent(h, rest[i-1], rest[i]);
      }
    }
  }

  /** The same grant, with no wider a scope. */
  predicate Within(t: Token, above: Token) {
    && WordsWithin(t.scope, above.scope)
    && above.family == t.family && above.user == t.user && above.client == t.client && above.resource == t.resource
  }

  lemma WithinTrans(t: Token, u: Token, v: Token)
    requires Within(t, u) && Within(u, v)
    ensures Within(t, v)
  {
  }

  lemma {:induction false} IssuedDescends(h: Hist, id: nat)
    requires forall t :: t in h.issued ==> LinkOk(h, t)
    requires id in h.issued
    ensures Descends(h, id)
    decreases id
  {
    assert LinkOk(h, id);
    if h.parent[id].Some? {
      var p := h.parent[id].value;
      IssuedDescends(h, p);
      assert p in h.issued && FromParent(h, id, p);
      ChainPush(h, id, p, Ancestors(h, p));
    }
  }

  /** The grant rests on a consent of its own user for its own client and resource, answered at an address the client
      had registered and exchanged from that address, and its scope is no wider than the consented one. */
  predicate RestsOnConsent(h: Hist, t: Token) {
    && t.family in h.consents && t.family in h.exchanges
    && var a, x := h.consents[t.family], h.exchanges[t.family];
    && var q := a.consent;
    && (x.redirect.None? || x.redirect.value == a.address) && ResolvesTo(a.registered, q.redirect, a.address)
    && q.allow && q.user == t.user && q.client == t.client && (q.here != "" ==> q.here == t.resource)
    && WordsWithin(t.scope, q.scope)
  }

  lemma DescendsToConsent(h: Hist, id: nat)
    requires (forall t :: t in h.issued ==> LinkOk(h, t)) && id in h.issued && Descends(h, id)
    ensures RestsOnConsent(h, h.issued[id])
  {
    var chain := Ancestors(h, id);
    assert FromConsent(h, chain[|chain|-1]) && Within(h.issued[id], h.issued[chain[|chain|-1]]);
  }

  /** In every run, an accepted bearer token descends through one code and a
      chain of rotations from a consent by the same user to the same client for
      the same resource; no ancestor has a narrower scope. */
  lemma BearerDescends(run: seq<Event>, access: Secret, here: string, now: Time)
    requires Bearer(Run(START, run), access, here, now).1.Accepted?
    ensures var h := History(START, NO_HISTORY, run);
            && (forall t :: t in h.issued ==> LinkOk(h, t))
            && access.AccessOf? && access.id in h.issued && Descends(h, access.id)
            && var t := h.issued[access.id];
            && RStripSlash(t.resource) == here && SCOPE in t.scope
            && Bearer(Run(START, run), access, here, now).1 == Accepted(t.user)
            && RestsOnConsent(h, t)
  {
    RunTracked(START, NO_HISTORY, run);
    var db, h := Run(START, run), History(START, NO_HISTORY, run);
    assert TokenTracked(db, h, access.id);
    forall t | t in h.issued ensures LinkOk(h, t) {}
    IssuedDescends(h, access.id);
    DescendsToConsent(h, access.id);
  }
}
