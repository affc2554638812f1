/**
 * MCP credentials and the sessions cached for them
 * (src/storage/credentialStore.ts, src/storage/gatewaySettingsRepo.ts,
 * src/promptql/promptqlAdapter.ts: session, invalidate, and the ordering of
 * the admin routes in src/http/adminApi.ts). Tokens stand for their
 * decrypted values.
 */
module Credentials {
  import opened Common

  datatype Role = ShopperRole | PaRole

  datatype Identity = ClientIdentity | ShopperIdentity(shopperId: string, role: Role)

  datatype Row = Row(shopperId: string, role: Role, token: string, active: bool)

  predicate ActiveFor(row: Row, shopperId: string, role: Role) {
    row.active && row.shopperId == shopperId && row.role == role
  }

  /** Position of the first active row of the pair, or |rows|. */
  function FindActive(rows: seq<Row>, shopperId: string, role: Role): (n: nat)
    ensures n <= |rows|
    ensures n < |rows| ==> ActiveFor(rows[n], shopperId, role)
    ensures forall i | 0 <= i < n :: !ActiveFor(rows[i], shopperId, role)
  {
    if rows == [] then 0
    else if ActiveFor(rows[0], shopperId, role) then 0
    else 1 + FindActive(rows[1..], shopperId, role)
  }

  function TokenOf(rows: seq<Row>, shopperId: string, role: Role): Option<string> {
    var n := FindActive(rows, shopperId, role);
    if n < |rows| then Some(rows[n].token) else None
  }

  /** Each shopper and role has at most one active credential. */
  ghost predicate OneActive(rows: seq<Row>) {
    forall i, j | 0 <= i < j < |rows| && rows[i].active && rows[j].active ::
      rows[i].shopperId != rows[j].shopperId || rows[i].role != rows[j].role
  }

  /** UPDATE … SET status = 'revoked' for the pair's active rows. */
  function RevokeAll(rows: seq<Row>, shopperId: string, role: Role): (r: seq<Row>)
    ensures |r| == |rows|
    ensures forall i | 0 <= i < |rows| ::
              r[i] == if ActiveFor(rows[i], shopperId, role) then rows[i].(active := false) else rows[i]
  {
    if rows == [] then []
    else [if ActiveFor(rows[0], shopperId, role) then rows[0].(active := false) else rows[0]] + RevokeAll(rows[1..], shopperId, role)
  }

  function WithActive(rows: seq<Row>, shopperId: string, role: Role, token: string): seq<Row> {
    RevokeAll(rows, shopperId, role) + [Row(shopperId, role, token, true)]
  }

  function WithoutActive(rows: seq<Row>, shopperId: string, role: Role): seq<Row> {
    var n := FindActive(rows, shopperId, role);
    if n < |rows| then rows[n := rows[n].(active := false)] else rows
  }

  lemma FoundIs(rows: seq<Row>, shopperId: string, role: Role, n: nat)
    requires OneActive(rows) && n < |rows| && ActiveFor(rows[n], shopperId, role)
    ensures FindActive(rows, shopperId, role) == n
  {
  }

  lemma NoneFound(rows: seq<Row>, shopperId: string, role: Role)
    requires forall i | 0 <= i < |rows| :: !ActiveFor(rows[i], shopperId, role)
    ensures TokenOf(rows, shopperId, role) == None
  {
  }

  /** Rows that agree on a pair's active entries have the same token for it. */
  lemma SameToken(a: seq<Row>, b: seq<Row>, shopperId: string, role: Role)
    requires |a| <= |b| && OneActive(b)
    requires forall i | 0 <= i < |a| :: ActiveFor(a[i], shopperId, role) ==> b[i] == a[i]
    requires forall i | 0 <= i < |b| && ActiveFor(b[i], shopperId, role) :: i < |a| && a[i] == b[i]
    ensures TokenOf(b, shopperId, role) == TokenOf(a, shopperId, role)
  {
    var n := FindActive(a, shopperId, role);
    if n < |a| {
      FoundIs(b, shopperId, role, n);
    } else {
      NoneFound(b, shopperId, role);
    }
  }

  /** Setting a credential makes it the only active one of its pair and touches no other pair. */
  lemma SetActiveIsExact(rows: seq<Row>, shopperId: string, role: Role, token: string, s: string, r: Role)
    requires OneActive(rows)
    ensures var rows' := WithActive(rows, shopperId, role, token);
            && OneActive(rows')
            && TokenOf(rows', s, r) == if s == shopperId && r == role then Some(token) else TokenOf(rows, s, r)
  {
    var rows' := WithActive(rows, shopperId, role, token);
    assert OneActive(rows');
    if s == shopperId && r == role {
      FoundIs(rows', s, r, |rows|);
    } else {
      SameToken(rows, rows', s, r);
    }
  }

  /** Revoking the first active row revokes the pair, since there is only one. */
  lemma RevokeIsExact(rows: seq<Row>, shopperId: string, role: Role, s: string, r: Role)
    requires OneActive(rows)
    ensures var rows' := WithoutActive(rows, shopperId, role);
            && OneActive(rows')
            && TokenOf(rows', s, r) == if s == shopperId && r == role then None else TokenOf(rows, s, r)
  {
    var rows' := WithoutActive(rows, shopperId, role);
    var n := FindActive(rows, shopperId, role);
    if s == shopperId && r == role {
      forall i | 0 <= i < |rows'| ensures !ActiveFor(rows'[i], s, r) {
        if ActiveFor(rows[i], s, r) { FoundIs(rows, s, r, i); }
      }
      NoneFound(rows', s, r);
    } else {
      SameToken(rows, rows', s, r);
    }
  }

  /** Two active rows of one pair would survive a revocation: the invariant is what makes it complete. */
  lemma TwoActiveSurviveRevoke(shopperId: string, role: Role, a: string, b: string)
    ensures var rows := [Row(shopperId, role, a, true), Row(shopperId, role, b, true)];
            !OneActive(rows) && TokenOf(WithoutActive(rows, shopperId, role), shopperId, role) == Some(b)
  {
    var rows := [Row(shopperId, role, a, true), Row(shopperId, role, b, true)];
    assert FindActive(rows, shopperId, role) == 0;
    var after := WithoutActive(rows, shopperId, role);
    assert after[1] == rows[1] && !after[0].active && rows[0].active && rows[1].active;
    assert FindActive(after, shopperId, role) == 1;
  }

  // ------------------------------------------------------------------
  // The gateway: tables, cache, admin routes
  // ------------------------------------------------------------------

  datatype Looked = Session(token: string) | NoCredential | NoEndpoint

  class Gateway {
    const endpointConfigured: bool
    var credentials: seq<Row>
    var clientToken: Option<string>
    /** The adapter's cached sessions, each with the token it was opened with. */
    var sessions: map<Identity, string>

    function Current(id: Identity): Option<string>
      reads this
    {
      match id
      case ClientIdentity => clientToken
      case ShopperIdentity(s, r) => TokenOf(credentials, s, r)
    }

    /** Every cached session carries its identity's current token. */
    ghost predicate Agrees()
      reads this
    {
      forall id | id in sessions :: Current(id) == Some(sessions[id])
    }

    ghost predicate Valid()
      reads this
    {
      OneActive(credentials) && Agrees()
    }

    constructor (endpointConfigured: bool)
      ensures Valid() && credentials == [] && clientToken == None && sessions == map[]
    {
      this.endpointConfigured := endpointConfigured;
      credentials, clientToken, sessions := [], None, map[];
    }

    /** Drop a cached session. */
    method Invalidate(id: Identity)
      modifies this`sessions
      ensures sessions == old(sessions) - {id}
    {
      sessions := sessions - {id};
    }

    /** Revoke, then insert, in one transaction. */
    method SetActive(shopperId: string, role: Role, token: string)
      requires OneActive(credentials)
      modifies this`credentials
      ensures OneActive(credentials) && credentials == WithActive(old(credentials), shopperId, role, token)
      ensures forall s, r :: TokenOf(credentials, s, r) ==
                if s == shopperId && r == role then Some(token) else TokenOf(old(credentials), s, r)
    {
      forall s, r ensures TokenOf(WithActive(credentials, shopperId, role, token), s, r) ==
                          if s == shopperId && r == role then Some(token) else TokenOf(credentials, s, r) {
        SetActiveIsExact(credentials, shopperId, role, token, s, r);
      }
      SetActiveIsExact(credentials, shopperId, role, token, shopperId, role);
      credentials := RevokeAll(credentials, shopperId, role) + [Row(shopperId, role, token, true)];
    }

    method RevokeActive(shopperId: string, role: Role) returns (revoked: bool)
      requires OneActive(credentials)
      modifies this`credentials
      ensures OneActive(credentials)
      ensures revoked <==> TokenOf(old(credentials), shopperId, role).Some?
      ensures forall s, r :: TokenOf(credentials, s, r) ==
                if s == shopperId && r == role then None else TokenOf(old(credentials), s, r)
    {
      forall s, r ensures TokenOf(WithoutActive(credentials, shopperId, role), s, r) ==
                          if s == shopperId && r == role then None else TokenOf(credentials, s, r) {
        RevokeIsExact(credentials, shopperId, role, s, r);
      }
      RevokeIsExact(credentials, shopperId, role, shopperId, role);
      var n := FindActive(credentials, shopperId, role);
      revoked := n < |credentials|;
      if revoked {
        credentials := credentials[n := credentials[n].(active := false)];
      }
    }

    /** POST /setup */
    method Setup(token: string)
      requires Valid()
      modifies this`clientToken, this`sessions
      ensures Valid() && Current(ClientIdentity) == Some(token) && sessions == old(sessions) - {ClientIdentity}
    {
      clientToken := Some(token);
      Invalidate(ClientIdentity);
    }

    method SetBoth(shopperId: string, token: string, paToken: string)
      requires OneActive(credentials)
      modifies this`credentials
      ensures OneActive(credentials)
      ensures forall s, r :: TokenOf(credentials, s, r) ==
                if s == shopperId then Some(match r case ShopperRole => token case PaRole => paToken) else TokenOf(old(credentials), s, r)
    {
      SetActive(shopperId, ShopperRole, token);
      SetActive(shopperId, PaRole, paToken);
    }

    /** POST /shoppers, also for a shopper already registered. */
    method Register(shopperId: string, token: string, paToken: string)
      requires Valid()
      modifies this`credentials, this`sessions
      ensures Valid()
      ensures TokenOf(credentials, shopperId, ShopperRole) == Some(token) && TokenOf(credentials, shopperId, PaRole) == Some(paToken)
      ensures forall s, r | s != shopperId :: TokenOf(credentials, s, r) == TokenOf(old(credentials), s, r)
      ensures sessions == old(sessions) - {ShopperIdentity(shopperId, ShopperRole), ShopperIdentity(shopperId, PaRole)}
    {
      SetBoth(shopperId, token, paToken);
      InvalidateBoth(shopperId);
    }

    method InvalidateBoth(shopperId: string)
      modifies this`sessions
      ensures sessions == old(sessions) - {ShopperIdentity(shopperId, ShopperRole), ShopperIdentity(shopperId, PaRole)}
    {
      Invalidate(ShopperIdentity(shopperId, ShopperRole));
      Invalidate(ShopperIdentity(shopperId, PaRole));
    }

    /** POST /shoppers/:id/credential/rotate */
    method Rotate(shopperId: string, role: Role, token: string)
      requires Valid()
      modifies this`credentials, this`sessions
      ensures Valid() && TokenOf(credentials, shopperId, role) == Some(token)
      ensures forall s, r | !(s == shopperId && r == role) :: TokenOf(credentials, s, r) == TokenOf(old(credentials), s, r)
      ensures sessions == old(sessions) - {ShopperIdentity(shopperId, role)}
    {
      SetActive(shopperId, role, token);
      Invalidate(ShopperIdentity(shopperId, role));
    }

    /** POST /shoppers/:id/credential/revoke */
    method Revoke(shopperId: string, role: Role) returns (revoked: bool)
      requires Valid()
      modifies this`credentials, this`sessions
      ensures Valid() && TokenOf(credentials, shopperId, role) == None
      ensures revoked <==> TokenOf(old(credentials), shopperId, role).Some?
      ensures forall s, r | !(s == shopperId && r == role) :: TokenOf(credentials, s, r) == TokenOf(old(credentials), s, r)
      ensures sessions == old(sessions) - {ShopperIdentity(shopperId, role)}
    {
      revoked := RevokeActive(shopperId, role);
      Invalidate(ShopperIdentity(shopperId, role));
    }

    /** Every lookup checks revocation; a session handed out carries the current token. */
    method Lookup(id: Identity) returns (r: Looked)
      requires Valid()
      modifies this`sessions
      ensures Valid()
      ensures r.Session? ==> Current(id) == Some(r.token)
      ensures r.NoCredential? <==> Current(id).None? || Current(id).value == ""
      ensures r.NoEndpoint? <==> Current(id).Some? && Current(id).value != "" && !endpointConfigured && id !in old(sessions)
      ensures id in sessions <==> r.Session?
      ensures forall other | other != id :: other in sessions <==> other in old(sessions)
    {
      var token := Current(id);
      if token.None? || token.value == "" {
        sessions := sessions - {id};
        return NoCredential;
      }
      if id in sessions { return Session(sessions[id]); }
      if !endpointConfigured { return NoEndpoint; }
      sessions := sessions[id := token.value];
      r := Session(token.value);
    }
  }
}
