/**
 Refresh-token families as atomic steps over the token table. A row is named by its token, as
 hashes identify plaintexts; fresh tokens and family ids are counted up. Any clock reading may
 come with any step.
 */
module RefreshTokens {
  import opened Common

  const DAY := 86400
  const TOKEN_TTL := 30 * DAY

  datatype Row = Row(
    user: nat, family: nat, previous: Option<nat>, expires: int, used: Option<int>, revoked: Option<int>)

  datatype Table = Table(rows: map<nat, Row>, nextToken: nat, nextFamily: nat)

  datatype TokenError = NotFound | Reused | Revoked | Expired

  datatype Grant = Grant(token: nat, user: nat)

  datatype Step =
    | MintToken(user: nat, now: int)
    | RotateToken(token: nat, now: int)
    | RevokeToken(token: nat, now: int)
    | RevokeAllOf(user: nat, now: int)
    | CleanUp(now: int)

  // ---- the steps ----

  function Mint(t: Table, user: nat, now: int): Table {
    Table(t.rows[t.nextToken := Row(user, t.nextFamily, None, now + TOKEN_TTL, None, None)],
          t.nextToken + 1, t.nextFamily + 1)
  }

  /** Stamps `revoked` on the rows that are selected and not revoked yet. */
  function Stamped(rows: map<nat, Row>, select: Row -> bool, now: int): map<nat, Row> {
    map x | x in rows :: if select(rows[x]) && rows[x].revoked.None? then rows[x].(revoked := Some(now)) else rows[x]
  }

  function OfFamily(family: nat): Row -> bool {
    (row: Row) => row.family == family
  }

  function OfUser(user: nat): Row -> bool {
    (row: Row) => row.user == user
  }

  /** The guards in order: unknown, already used, revoked, expired. */
  function Verdict(t: Table, token: nat, now: int): Result<Grant, TokenError> {
    if token !in t.rows then Err(NotFound)
    else if t.rows[token].used.Some? then Err(Reused)
    else if t.rows[token].revoked.Some? then Err(Revoked)
    else if now > t.rows[token].expires then Err(Expired)
    else Ok(Grant(t.nextToken, t.rows[token].user))
  }

  function Rotate(t: Table, token: nat, now: int): Table {
    match Verdict(t, token, now)
    case Err(Reused) => t.(rows := Stamped(t.rows, OfFamily(t.rows[token].family), now))
    case Err(_) => t
    case Ok(grant) =>
      var row := t.rows[token];
      var child := Row(row.user, row.family, Some(token), now + TOKEN_TTL, None, None);
      t.(rows := t.rows[token := row.(used := Some(now))][grant.token := child], nextToken := t.nextToken + 1)
  }

  function Revoke(t: Table, token: nat, now: int): Table {
    if token in t.rows && t.rows[token].revoked.None?
    then t.(rows := t.rows[token := t.rows[token].(revoked := Some(now))])
    else t
  }

  function RevokeAll(t: Table, user: nat, now: int): Table {
    t.(rows := Stamped(t.rows, OfUser(user), now))
  }

  predicate Stale(row: Row, now: int) {
    row.expires < now - 7 * DAY || (row.revoked.Some? && row.revoked.value < now - 30 * DAY)
  }

  /** Deletes stale rows; a child that loses its parent keeps a null link. */
  function Cleanup(t: Table, now: int): Table {
    t.(rows := map x | x in t.rows && !Stale(t.rows[x], now) ::
         var row := t.rows[x];
         if row.previous.Some? && row.previous.value in t.rows && Stale(t.rows[row.previous.value], now)
         then row.(previous := None) else row)
  }

  function TakeStep(t: Table, step: Step): Table {
    match step
    case MintToken(user, now) => Mint(t, user, now)
    case RotateToken(token, now) => Rotate(t, token, now)
    case RevokeToken(token, now) => Revoke(t, token, now)
    case RevokeAllOf(user, now) => RevokeAll(t, user, now)
    case CleanUp(now) => Cleanup(t, now)
  }

  function Run(t: Table, steps: seq<Step>): Table {
    if steps == [] then t else TakeStep(Run(t, steps[..|steps| - 1]), steps[|steps| - 1])
  }

  const EmptyTable := Table(map[], 0, 0)

  // ---- the shape of a family ----

  /** Every id in the table was handed out before. */
  ghost predicate Issued(t: Table) {
    forall x :: x in t.rows ==> x < t.nextToken && t.rows[x].family < t.nextFamily
  }

  ghost predicate OneOwner(rows: map<nat, Row>) {
    forall x, y :: x in rows && y in rows && rows[x].family == rows[y].family ==> rows[x].user == rows[y].user
  }

  ghost predicate OneTip(rows: map<nat, Row>) {
    forall x, y :: x in rows && y in rows && rows[x].used.None? && rows[y].used.None? ==>
      rows[x].family == rows[y].family ==> x == y
  }

  ghost predicate OneChild(rows: map<nat, Row>) {
    forall x, y :: x in rows && y in rows && rows[x].previous.Some? && rows[x].previous == rows[y].previous ==> x == y
  }

  /** A parent link names a used row of the same family. */
  ghost predicate Linked(rows: map<nat, Row>) {
    forall x :: x in rows && rows[x].previous.Some? ==>
      var p := rows[x].previous.value; p in rows && rows[p].used.Some? && rows[p].family == rows[x].family
  }

  ghost predicate Sound(t: Table) {
    Issued(t) && OneOwner(t.rows) && OneTip(t.rows) && OneChild(t.rows) && Linked(t.rows)
  }

  lemma MintKeepsSound(t: Table, user: nat, now: int)
    requires Sound(t)
    ensures Sound(Mint(t, user, now))
  {
  }

  lemma StampKeepsSound(t: Table, select: Row -> bool, now: int)
    requires Sound(t)
    ensures Sound(t.(rows := Stamped(t.rows, select, now)))
  {
  }

  lemma ExchangeKeepsTip(t: Table, token: nat, now: int)
    requires Sound(t) && Verdict(t, token, now).Ok?
    ensures OneTip(Rotate(t, token, now).rows)
  {
  }

  lemma ExchangeKeepsLinks(t: Table, token: nat, now: int)
    requires Sound(t) && Verdict(t, token, now).Ok?
    ensures OneChild(Rotate(t, token, now).rows) && Linked(Rotate(t, token, now).rows)
  {
  }

  lemma RotateKeepsSound(t: Table, token: nat, now: int)
    requires Sound(t)
    ensures Sound(Rotate(t, token, now))
  {
    match Verdict(t, token, now)
    case Err(Reused) => StampKeepsSound(t, OfFamily(t.rows[token].family), now);
    case Err(_) =>
    case Ok(grant) =>
      ExchangeKeepsTip(t, token, now);
      ExchangeKeepsLinks(t, token, now);
  }

  lemma CleanupKeepsSound(t: Table, now: int)
    requires Sound(t)
    ensures Sound(Cleanup(t, now))
  {
  }

  lemma StepKeepsSound(t: Table, step: Step)
    requires Sound(t)
    ensures Sound(TakeStep(t, step))
  {
    match step
    case MintToken(user, now) => MintKeepsSound(t, user, now);
    case RotateToken(token, now) => RotateKeepsSound(t, token, now);
    case RevokeToken(token, now) =>
    case RevokeAllOf(user, now) => StampKeepsSound(t, OfUser(user), now);
    case CleanUp(now) => CleanupKeepsSound(t, now);
  }

  /** In every run each family has one user and at most one unused row, and no row has two children. */
  lemma {:induction false} EveryRunIsSound(steps: seq<Step>)
    ensures Sound(Run(EmptyTable, steps))
  {
    if steps != [] {
      EveryRunIsSound(steps[..|steps| - 1]);
      StepKeepsSound(Run(EmptyTable, steps[..|steps| - 1]), steps[|steps| - 1]);
    }
  }

  // ---- rotations ----

  predicate Rotates(t: Table, step: Step, token: nat) {
    step.RotateToken? && step.token == token && Verdict(t, token, step.now).Ok?
  }

  /** How often the token was exchanged successfully. */
  function Rotations(t: Table, steps: seq<Step>, token: nat): nat {
    if steps == [] then 0
    else
      var before := steps[..|steps| - 1];
      Rotations(t, before, token) + if Rotates(Run(t, before), steps[|steps| - 1], token) then 1 else 0
  }

  /** The token was issued, and its row is used or gone. */
  ghost predicate Spent(t: Table, token: nat) {
    token < t.nextToken && (token in t.rows ==> t.rows[token].used.Some?)
  }

  /** No token is ever exchanged twice. */
  lemma {:induction false} RotatesAtMostOnce(steps: seq<Step>, token: nat)
    ensures Rotations(EmptyTable, steps, token) <= 1
    ensures Rotations(EmptyTable, steps, token) == 1 ==> Spent(Run(EmptyTable, steps), token)
  {
    if steps != [] {
      var before := steps[..|steps| - 1];
      RotatesAtMostOnce(before, token);
      EveryRunIsSound(before);
      if Spent(Run(EmptyTable, before), token) || Rotates(Run(EmptyTable, before), steps[|steps| - 1], token) {
        SpentStaysSpent(Run(EmptyTable, before), steps[|steps| - 1], token);
      }
    }
  }

  lemma SpentStaysSpent(t: Table, step: Step, token: nat)
    requires Issued(t) && (Spent(t, token) || Rotates(t, step, token))
    ensures Spent(TakeStep(t, step), token)
    ensures Spent(t, token) ==> !Rotates(t, step, token)
  {
  }

  /** A rotation hands the family on: the old token now counts as reused, the new one works for a full lifetime. */
  lemma ExchangeHandsOver(t: Table, token: nat, now: int, later: int)
    requires Issued(t) && Verdict(t, token, now).Ok?
    ensures var t', grant := Rotate(t, token, now), Verdict(t, token, now).value;
            && grant.user == t.rows[token].user && Verdict(t', token, later) == Err(Reused)
            && (if later <= now + TOKEN_TTL then Verdict(t', grant.token, later).Ok? &&
                Verdict(t', grant.token, later).value.user == grant.user
                else Verdict(t', grant.token, later) == Err(Expired))
  {
    assert token != t.nextToken;
  }

  // ---- ended families ----

  /** No row of the family is both unused and unrevoked. */
  ghost predicate Ended(t: Table, family: nat) {
    forall x :: x in t.rows && t.rows[x].family == family ==> t.rows[x].used.Some? || t.rows[x].revoked.Some?
  }

  lemma StepKeepsEnded(t: Table, step: Step, family: nat)
    requires Ended(t, family) && family < t.nextFamily
    ensures Ended(TakeStep(t, step), family) && family < TakeStep(t, step).nextFamily
  {
  }

  lemma {:induction false} EndedForever(t: Table, steps: seq<Step>, family: nat)
    requires Ended(t, family) && family < t.nextFamily
    ensures Ended(Run(t, steps), family)
    ensures family < Run(t, steps).nextFamily
  {
    if steps != [] {
      EndedForever(t, steps[..|steps| - 1], family);
      StepKeepsEnded(Run(t, steps[..|steps| - 1]), steps[|steps| - 1], family);
    }
  }

  /** In an ended family every rotation is refused, now and after any further steps. */
  lemma EndedFamilyRotatesNever(t: Table, steps: seq<Step>, token: nat, now: int, family: nat)
    requires Ended(t, family) && family < t.nextFamily
    requires token in Run(t, steps).rows && Run(t, steps).rows[token].family == family
    ensures Verdict(Run(t, steps), token, now).Err?
  {
    EndedForever(t, steps, family);
  }

  /**
   Presenting a used token revokes every row of its family, whatever else holds of the token,
   and no rotation in that family succeeds after any continuation.
   */
  lemma ReuseEndsFamily(t: Table, token: nat, now: int, steps: seq<Step>, other: nat, later: int)
    requires Issued(t) && token in t.rows && t.rows[token].used.Some?
    ensures Verdict(t, token, now) == Err(Reused)
    ensures var family, t' := t.rows[token].family, Rotate(t, token, now);
            && (forall x :: x in t'.rows && t'.rows[x].family == family ==> t'.rows[x].revoked.Some?)
            && (other in Run(t', steps).rows && Run(t', steps).rows[other].family == family ==>
                  Verdict(Run(t', steps), other, later).Err?)
  {
    var family, t' := t.rows[token].family, Rotate(t, token, now);
    if other in Run(t', steps).rows && Run(t', steps).rows[other].family == family {
      EndedFamilyRotatesNever(t', steps, other, later, family);
    }
  }

  /** Logging out with one token ends its family exactly when that token was the unused one or the family had ended. */
  lemma LogoutEndsFamilyIff(t: Table, token: nat, now: int)
    requires Sound(t) && token in t.rows
    ensures Ended(Revoke(t, token, now), t.rows[token].family) <==>
            t.rows[token].used.None? || Ended(t, t.rows[token].family)
  {
    var family, t' := t.rows[token].family, Revoke(t, token, now);
    if t.rows[token].used.Some? && !Ended(t, family) {
      var x :| x in t.rows && t.rows[x].family == family && t.rows[x].used.None? && t.rows[x].revoked.None?;
      assert t'.rows[x] == t.rows[x];
    }
  }

  /** Logging out with a token that was rotated away leaves its successor working. */
  lemma LogoutWithUsedToken(user: nat)
    ensures var t := Revoke(Rotate(Mint(EmptyTable, user, 0), 0, 1), 0, 2);
            Verdict(t, 1, 3) == Ok(Grant(2, user))
  {
    var minted := Mint(EmptyTable, user, 0);
    assert Verdict(minted, 0, 1) == Ok(Grant(1, user));
    var rotated := Rotate(minted, 0, 1);
    assert rotated.rows[1] == Row(user, 0, Some(0), 1 + TOKEN_TTL, None, None);
  }

  /** Logging out everywhere: no token the user held can be exchanged again, nor any token descended from it. */
  lemma LogoutAllEndsSessions(t: Table, user: nat, now: int, token: nat, steps: seq<Step>, other: nat, later: int)
    requires Sound(t) && token in t.rows && t.rows[token].user == user
    ensures var t' := Run(RevokeAll(t, user, now), steps);
            other in t'.rows && t'.rows[other].family == t.rows[token].family ==> Verdict(t', other, later).Err?
  {
    var t', family := RevokeAll(t, user, now), t.rows[token].family;
    if other in Run(t', steps).rows && Run(t', steps).rows[other].family == family {
      EndedFamilyRotatesNever(t', steps, other, later, family);
    }
  }

  /** A used token is recognised for as long as cleanup keeps its row. */
  lemma ReuseIsSeenUntilCleanup(t: Table, token: nat, step: Step)
    requires Issued(t) && token in t.rows && t.rows[token].used.Some?
    ensures token in TakeStep(t, step).rows <==> !(step.CleanUp? && Stale(t.rows[token], step.now))
    ensures token in TakeStep(t, step).rows ==> TakeStep(t, step).rows[token].used.Some?
  {
  }

  // ---- who is not concerned ----

  /** A minted token works for one lifetime, for the user it was minted for. */
  lemma MintWorks(t: Table, user: nat, now: int, later: int)
    ensures var t' := Mint(t, user, now);
            if later <= now + 30 * DAY then Verdict(t', t.nextToken, later) == Ok(Grant(t'.nextToken, user))
            else Verdict(t', t.nextToken, later) == Err(Expired)
  {
  }

  /** The step is about this token: it exchanges or revokes it, revokes its family or user, or finds its row stale. */
  predicate Concerns(t: Table, step: Step, token: nat)
    requires token in t.rows
  {
    var row := t.rows[token];
    match step
    case MintToken(_, _) => false
    case RotateToken(other, now) =>
      if other in t.rows && t.rows[other].used.Some? then t.rows[other].family == row.family && row.revoked.None?
      else other == token && row.revoked.None? && now <= row.expires
    case RevokeToken(other, _) => other == token && row.revoked.None?
    case RevokeAllOf(user, _) => user == row.user && row.revoked.None?
    case CleanUp(now) => row.expires + 7 * DAY < now || (row.revoked.Some? && row.revoked.value + 30 * DAY < now)
  }

  /** The row is there as it was, except that a cleanup may have cleared its parent link. */
  ghost predicate Untouched(t: Table, t': Table, token: nat)
    requires token in t.rows
  {
    token in t'.rows && t'.rows[token].(previous := None) == t.rows[token].(previous := None)
  }

  /** A step changes a row exactly when it concerns its token; nobody else's tokens are touched. */
  lemma StepTouchesIff(t: Table, step: Step, token: nat)
    requires Issued(t) && token in t.rows
    ensures Untouched(t, TakeStep(t, step), token) <==> !Concerns(t, step, token)
  {
  }

  /** The same answer, except for the number of the token that would come next. */
  predicate SameAnswer(a: Result<Grant, TokenError>, b: Result<Grant, TokenError>) {
    if a.Ok? then b.Ok? && a.value.user == b.value.user else a == b
  }

  ghost predicate NeverConcerned(t: Table, steps: seq<Step>, token: nat) {
    steps == [] ||
    var before := steps[..|steps| - 1];
    && NeverConcerned(t, before, token)
    && token in Run(t, before).rows && !Concerns(Run(t, before), steps[|steps| - 1], token)
  }

  lemma StepKeepsIssued(t: Table, step: Step)
    requires Issued(t)
    ensures Issued(TakeStep(t, step))
  {
  }

  /** Whatever the steps of others are, a token that none of them concerns is answered as before. */
  lemma {:induction false} UnconcernedTokenStays(t: Table, steps: seq<Step>, token: nat, later: int)
    requires Issued(t) && token in t.rows && NeverConcerned(t, steps, token)
    ensures Issued(Run(t, steps)) && Untouched(t, Run(t, steps), token)
    ensures SameAnswer(Verdict(Run(t, steps), token, later), Verdict(t, token, later))
  {
    if steps != [] {
      var before := steps[..|steps| - 1];
      UnconcernedTokenStays(t, before, token, later);
      StepTouchesIff(Run(t, before), steps[|steps| - 1], token);
      StepKeepsIssued(Run(t, before), steps[|steps| - 1]);
    }
  }

  /**
   Logging one user out everywhere leaves every other user logged in; so does a reuse in one family
   for the others.
   */
  lemma OthersStayLoggedIn(t: Table, token: nat, user: nat, reused: nat, now: int, later: int)
    requires token in t.rows
    ensures t.rows[token].user != user ==>
              && token in RevokeAll(t, user, now).rows && RevokeAll(t, user, now).rows[token] == t.rows[token]
              && Verdict(RevokeAll(t, user, now), token, later) == Verdict(t, token, later)
    ensures reused in t.rows && t.rows[reused].used.Some? && t.rows[reused].family != t.rows[token].family ==>
              && token in Rotate(t, reused, now).rows && Rotate(t, reused, now).rows[token] == t.rows[token]
              && Verdict(Rotate(t, reused, now), token, later) == Verdict(t, token, later)
  {
  }

  /** The token is answered as revoked, or as reused, until a cleanup a week after its expiry or 30 days from `now`. */
  ghost predicate RevokedAt(t: Table, t': Table, token: nat, now: int, at: int, later: int)
    requires token in t.rows
  {
    && Verdict(t', token, later) == Err(if t.rows[token].used.Some? then Reused else Revoked)
    && (token in Cleanup(t', at).rows <==> at <= t.rows[token].expires + 7 * DAY && at <= now + 30 * DAY)
  }

  /** A revocation of any kind, of a row that was not revoked before, also outlasts the token's expiry. */
  lemma RevocationLasts(t: Table, token: nat, reused: nat, now: int, at: int, later: int)
    requires token in t.rows && t.rows[token].revoked.None?
    ensures RevokedAt(t, Revoke(t, token, now), token, now, at, later)
    ensures RevokedAt(t, RevokeAll(t, t.rows[token].user, now), token, now, at, later)
    ensures reused in t.rows && t.rows[reused].used.Some? && t.rows[reused].family == t.rows[token].family ==>
              RevokedAt(t, Rotate(t, reused, now), token, now, at, later)
  {
  }

  // ---- the table ----

  class TokenStore {
    var rows: map<nat, Row>
    var nextToken: nat
    var nextFamily: nat

    ghost function View(): Table
      reads this
    {
      Table(rows, nextToken, nextFamily)
    }

    constructor ()
      ensures View() == EmptyTable
    {
      rows, nextToken, nextFamily := map[], 0, 0;
    }

    method MintRefreshToken(user: nat, now: int) returns (token: nat)
      requires Issued(View())
      modifies this
      ensures token == old(nextToken) && token !in old(rows)
      ensures View() == Mint(old(View()), user, now)
    {
      token := nextToken;
      rows := rows[token := Row(user, nextFamily, None, now + TOKEN_TTL, None, None)];
      nextToken, nextFamily := nextToken + 1, nextFamily + 1;
    }

    method RotateRefreshToken(token: nat, now: int) returns (r: Result<Grant, TokenError>)
      requires Issued(View())
      modifies this`rows, this`nextToken
      ensures r == Verdict(old(View()), token, now)
      ensures View() == Rotate(old(View()), token, now)
      ensures r.Ok? ==> r.value.token !in old(rows)
    {
      if token !in rows {
        return Err(NotFound);
      }
      var row := rows[token];
      if row.used.Some? {
        rows := map x | x in rows :: if rows[x].family == row.family && rows[x].revoked.None?
                                     then rows[x].(revoked := Some(now)) else rows[x];
        return Err(Reused);
      }
      if row.revoked.Some? {
        return Err(Revoked);
      }
      if now > row.expires {
        return Err(Expired);
      }
      rows := rows[token := row.(used := Some(now))];
      var child := nextToken;
      rows := rows[child := Row(row.user, row.family, Some(token), now + TOKEN_TTL, None, None)];
      nextToken := nextToken + 1;
      return Ok(Grant(child, row.user));
    }

    method RevokeRefreshToken(token: nat, now: int)
      modifies this`rows
      ensures View() == Revoke(old(View()), token, now)
    {
      if token in rows && rows[token].revoked.None? {
        rows := rows[token := rows[token].(revoked := Some(now))];
      }
    }

    /** Returns how many rows it stamped. */
    method RevokeAllUserTokens(user: nat, now: int) returns (n: nat)
      modifies this`rows
      ensures View() == RevokeAll(old(View()), user, now)
      ensures rows.Keys == old(rows.Keys)
      ensures forall x :: x in old(rows) && old(rows)[x].user != user ==> rows[x] == old(rows)[x]
      ensures n == |set x | x in old(rows) && old(rows)[x].user == user && old(rows)[x].revoked.None?|
    {
      var hit := set x | x in rows && rows[x].user == user && rows[x].revoked.None?;
      rows := map x | x in rows :: if x in hit then rows[x].(revoked := Some(now)) else rows[x];
      n := |hit|;
    }

    method CleanupRefreshTokens(now: int)
      modifies this`rows
      ensures View() == Cleanup(old(View()), now)
    {
      var gone := set x | x in rows &&
          (rows[x].expires < now - 7 * DAY || (rows[x].revoked.Some? && rows[x].revoked.value < now - 30 * DAY));
      rows := map x | x in rows && x !in gone ::
        if rows[x].previous.Some? && rows[x].previous.value in gone then rows[x].(previous := None) else rows[x];
    }
  }
}
