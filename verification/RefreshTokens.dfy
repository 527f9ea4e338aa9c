/** Refresh-token rotation and reuse detection. A token stands for its hash; the random `jti`
    makes every issued token new, and a token row is identified by its token. */
module RefreshTokens {
  import opened Rows

  /** The signed contents of a refresh token: its owner and when its signature expires. */
  datatype Token = Token(jti: Id, user: Id, exp: int)

  /** The stored tokens with their `expiresAt`, and every token ever handed out. */
  datatype TokenDb = TokenDb(rows: map<Token, int>, issued: set<Token>)

  datatype Answer = Accepted | Refused

  function OfUser(db: TokenDb, user: Id): set<Token> {
    set t | t in db.rows && t.user == user
  }

  function Revoke(db: TokenDb, user: Id): TokenDb {
    db.(rows := map t | t in db.rows && t.user != user :: db.rows[t])
  }

  function Remove(db: TokenDb, t: Token): TokenDb {
    db.(rows := db.rows - {t})
  }

  function Issue(db: TokenDb, t: Token, expiresAt: int): TokenDb {
    TokenDb(db.rows[t := expiresAt], db.issued + {t})
  }

  datatype Op =
    | Login(token: Token, expiresAt: int)
    | Refresh(token: Token, replacement: Token, expiresAt: int, now: int)
    | Logout(user: Id, token: Token)
    | LogoutAll(user: Id)
    | CleanupExpired(now: int)

  /** The strategy's lookup followed by the rotation, as one step. */
  function RefreshOnce(db: TokenDb, t: Token, replacement: Token, expiresAt: int, now: int): (TokenDb, Answer) {
    if t.exp <= now then (db, Refused)
    else if t !in db.rows then (Revoke(db, t.user), Refused)
    else if db.rows[t] < now then (Remove(db, t), Refused)
    else (Issue(Remove(db, t), replacement, expiresAt), Accepted)
  }

  function Do(db: TokenDb, op: Op): TokenDb {
    match op
    case Login(t, expiresAt) => Issue(db, t, expiresAt)
    case Refresh(t, replacement, expiresAt, now) => RefreshOnce(db, t, replacement, expiresAt, now).0
    case Logout(user, t) => if t.user == user then Remove(db, t) else db
    case LogoutAll(user) => Revoke(db, user)
    case CleanupExpired(now) => db.(rows := map t | t in db.rows && db.rows[t] >= now :: db.rows[t])
  }

  /** Tokens handed out are new, and a rotation stays with its user. */
  predicate FreshFor(db: TokenDb, op: Op) {
    match op
    case Login(t, _) => t !in db.issued
    case Refresh(t, replacement, _, _) => replacement !in db.issued && replacement.user == t.user
    case _ => true
  }

  function DoAll(db: TokenDb, ops: seq<Op>): TokenDb {
    if ops == [] then db else Do(DoAll(db, ops[..|ops| - 1]), ops[|ops| - 1])
  }

  predicate AllFresh(db: TokenDb, ops: seq<Op>) {
    ops == [] || (AllFresh(db, ops[..|ops| - 1]) && FreshFor(DoAll(db, ops[..|ops| - 1]), ops[|ops| - 1]))
  }

  predicate Known(db: TokenDb) {
    db.rows.Keys <= db.issued
  }

  lemma {:induction false} GoneStaysGone(db: TokenDb, ops: seq<Op>, t: Token)
    requires Known(db) && AllFresh(db, ops) && t in db.issued && t !in db.rows
    ensures t in DoAll(db, ops).issued && t !in DoAll(db, ops).rows && Known(DoAll(db, ops))
  {
    if ops == [] {
    } else {
      GoneStaysGone(db, ops[..|ops| - 1], t);
    }
  }

  // ---- One rotation ----

  /** A rotation swaps one token of the user for a new one: the user's live-token count stays,
      nobody else's tokens change, and the old token is gone. */
  lemma RotationKeepsCount(db: TokenDb, t: Token, replacement: Token, expiresAt: int, now: int)
    requires Known(db) && FreshFor(db, Refresh(t, replacement, expiresAt, now))
    requires RefreshOnce(db, t, replacement, expiresAt, now).1 == Accepted
    ensures var db' := RefreshOnce(db, t, replacement, expiresAt, now).0;
            |OfUser(db', t.user)| == |OfUser(db, t.user)| && t !in db'.rows && replacement in db'.rows &&
            forall u :: u != t.user ==> OfUser(db', u) == OfUser(db, u)
  {
    var db' := RefreshOnce(db, t, replacement, expiresAt, now).0;
    assert OfUser(db', t.user) == (OfUser(db, t.user) - {t}) + {replacement};
  }

  /** Presenting a token that is no longer stored, with its signature still valid, empties its
      user's tokens; after that no token issued before is ever accepted again. */
  lemma ReuseRevokesForGood(db: TokenDb, t: Token, r: Token, e: int, now: int, ops: seq<Op>, old1: Token, r1: Token,
      e1: int, now1: int)
    requires Known(db) && t !in db.rows && now < t.exp
    requires var db' := RefreshOnce(db, t, r, e, now).0; AllFresh(db', ops)
    requires old1 in db.issued && old1.user == t.user
    ensures OfUser(RefreshOnce(db, t, r, e, now).0, t.user) == {}
    ensures RefreshOnce(DoAll(RefreshOnce(db, t, r, e, now).0, ops), old1, r1, e1, now1).1 == Refused
  {
    var db' := RefreshOnce(db, t, r, e, now).0;
    GoneStaysGone(db', ops, old1);
  }

  // ---- How long a token is good ----

  /** What ends a stored token: it is presented itself, a consumed token of its user is, its user logs
      out, or a cleanup finds it expired. */
  predicate Ends(db: TokenDb, op: Op, t: Token)
    requires t in db.rows
  {
    match op
    case Login(_, _) => false
    case Refresh(p, _, _, now) => now < p.exp && (p == t || (p.user == t.user && p !in db.rows))
    case Logout(user, p) => p == t && user == t.user
    case LogoutAll(user) => user == t.user
    case CleanupExpired(now) => db.rows[t] < now
  }

  ghost predicate EndsAt(db: TokenDb, ops: seq<Op>, i: nat, t: Token)
    requires i < |ops|
  {
    var now := DoAll(db, ops[..i]);
    t in now.rows && Ends(now, ops[i], t)
  }

  ghost predicate EndedIn(db: TokenDb, ops: seq<Op>, t: Token) {
    exists i :: 0 <= i < |ops| && EndsAt(db, ops, i, t)
  }

  lemma OneOpMore(db: TokenDb, ops: seq<Op>, t: Token)
    requires ops != []
    ensures EndedIn(db, ops, t) <==> EndedIn(db, ops[..|ops| - 1], t) || EndsAt(db, ops, |ops| - 1, t)
  {
    hide Ends, DoAll;
    var init := ops[..|ops| - 1];
    forall i | 0 <= i < |init|
      ensures EndsAt(db, ops, i, t) <==> EndsAt(db, init, i, t)
    {
      assert init[..i] == ops[..i];
    }
  }

  /** Over every run a stored token stays, with its expiry, if and only if nothing ends it. */
  lemma {:induction false} StaysIff(db: TokenDb, ops: seq<Op>, t: Token)
    requires Known(db) && t in db.rows && AllFresh(db, ops)
    ensures t in DoAll(db, ops).issued
    ensures t in DoAll(db, ops).rows <==> !EndedIn(db, ops, t)
    ensures t in DoAll(db, ops).rows ==> DoAll(db, ops).rows[t] == db.rows[t]
  {
    if ops == [] {
    } else {
      hide EndedIn;
      StaysIff(db, ops[..|ops| - 1], t);
      OneOpMore(db, ops, t);
    }
  }

  /** So a token just issued is exchanged at any later time if and only if neither its signature nor
      its row has expired and nothing has ended it. */
  lemma GoodUntilEnded(db: TokenDb, t: Token, expiresAt: int, ops: seq<Op>, r: Token, e: int, now: int)
    requires Known(db) && AllFresh(Issue(db, t, expiresAt), ops)
    ensures var db0 := Issue(db, t, expiresAt);
            RefreshOnce(DoAll(db0, ops), t, r, e, now).1 == Accepted <==>
            now < t.exp && now <= expiresAt && !EndedIn(db0, ops, t)
  {
    hide EndedIn;
    StaysIff(Issue(db, t, expiresAt), ops, t);
  }

  // ---- The service ----

  class TokenStore {
    var rows: map<Token, int>
    ghost var issued: set<Token>

    ghost function Snapshot(): TokenDb
      reads this
    {
      TokenDb(rows, issued)
    }

    constructor ()
      ensures Snapshot() == TokenDb(map[], {})
    {
      rows, issued := map[], {};
    }

    method GenerateTokens(t: Token, expiresAt: int)
      modifies this
      ensures Snapshot() == Issue(old(Snapshot()), t, expiresAt)
    {
      rows := rows[t := expiresAt];
      issued := issued + {t};
    }

    /** DELETE WHERE userId. */
    method DeleteOfUser(user: Id)
      modifies this`rows
      ensures Snapshot() == Revoke(old(Snapshot()), user)
    {
      rows := map t | t in rows && t.user != user :: rows[t];
    }

    /** JwtRefreshStrategy.validate. */
    method Validate(t: Token, now: int) returns (answer: Answer)
      modifies this`rows
      ensures answer == Accepted <==> now < t.exp && t in old(rows) && now <= old(rows)[t]
      ensures Snapshot() == if t.exp <= now || answer == Accepted then old(Snapshot())
                            else if t !in old(rows) then Revoke(old(Snapshot()), t.user)
                            else Remove(old(Snapshot()), t)
    {
      if t.exp <= now { return Refused; }
      if t !in rows {
        DeleteOfUser(t.user);
        return Refused;
      }
      if rows[t] < now {
        rows := rows - {t};
        return Refused;
      }
      return Accepted;
    }

    /** The guarded endpoint: validate, then AuthService.refreshTokens. */
    method RefreshTokens(t: Token, replacement: Token, expiresAt: int, now: int) returns (answer: Answer)
      modifies this
      ensures (Snapshot(), answer) == RefreshOnce(old(Snapshot()), t, replacement, expiresAt, now)
      ensures answer == Accepted <==> now < t.exp && t in old(rows) && now <= old(rows)[t]
      ensures answer == Accepted ==> rows == (old(rows) - {t})[replacement := expiresAt]
      ensures answer == Refused && now < t.exp ==>
                rows == if t in old(rows) then old(rows) - {t}
                        else map x | x in old(rows) && x.user != t.user :: old(rows)[x]
      ensures answer == Refused && t.exp <= now ==> rows == old(rows)
    {
      answer := Validate(t, now);
      if answer == Accepted {
        rows := rows - {t};
        GenerateTokens(replacement, expiresAt);
      }
    }

    method Logout(user: Id, t: Token)
      modifies this`rows
      ensures Snapshot() == Do(old(Snapshot()), Op.Logout(user, t))
    {
      if t.user == user { rows := rows - {t}; }
    }

    method CleanupExpiredTokens(now: int)
      modifies this`rows
      ensures Snapshot() == Do(old(Snapshot()), CleanupExpired(now))
    {
      rows := map t | t in rows && rows[t] >= now :: rows[t];
    }
  }

  // ---- Overlapping refreshes ----

  /** A refresh request between its separate database calls. */
  datatype Session = Presented(t: Token) | Validated(t: Token) | Found(t: Token) | Deleted(t: Token)

  datatype Sys = Sys(db: TokenDb, sessions: map<Id, Session>)

  datatype Act =
    | Begin(sid: Id, token: Token)
    | Advance(sid: Id, now: int, replacement: Token, expiresAt: int)
    | Other(op: Op)

  predicate CanAct(s: Sys, a: Act) {
    match a
    case Begin(sid, t) => sid !in s.sessions
    case Advance(sid, _, replacement, _) =>
      sid in s.sessions &&
      (s.sessions[sid].Deleted? ==> replacement !in s.db.issued && replacement.user == s.sessions[sid].t.user)
    case Other(op) => FreshFor(s.db, op)
  }

  function DoAct(s: Sys, a: Act): Sys {
    match a
    case Begin(sid, t) => s.(sessions := s.sessions[sid := Presented(t)])
    case Other(op) => s.(db := Do(s.db, op))
    case Advance(sid, now, replacement, expiresAt) =>
      if sid !in s.sessions then s
      else
        var ended := s.sessions - {sid};
        match s.sessions[sid]
        case Presented(t) =>
          if t.exp <= now then s.(sessions := ended)
          else if t !in s.db.rows then Sys(Revoke(s.db, t.user), ended)
          else if s.db.rows[t] < now then Sys(Remove(s.db, t), ended)
          else s.(sessions := s.sessions[sid := Validated(t)])
        case Validated(t) =>
          if t !in s.db.rows then s.(sessions := ended) else s.(sessions := s.sessions[sid := Found(t)])
        case Found(t) =>
          // deleting a row that is already gone throws
          if t !in s.db.rows then s.(sessions := ended)
          else Sys(Remove(s.db, t), s.sessions[sid := Deleted(t)])
        case Deleted(t) => Sys(Issue(s.db, replacement, expiresAt), ended)
  }

  function DoActs(s: Sys, acts: seq<Act>): Sys {
    if acts == [] then s else DoAct(DoActs(s, acts[..|acts| - 1]), acts[|acts| - 1])
  }

  predicate CanActs(s: Sys, acts: seq<Act>) {
    acts == [] || (CanActs(s, acts[..|acts| - 1]) && CanAct(DoActs(s, acts[..|acts| - 1]), acts[|acts| - 1]))
  }

  /** A request that nothing overlaps does in its separate calls what the one step does. */
  lemma AloneIsAtomic(s: Sys, sid: Id, t: Token, replacement: Token, expiresAt: int, now: int)
    requires sid !in s.sessions
    ensures var go := Advance(sid, now, replacement, expiresAt);
            var s1 := DoAct(DoAct(s, Begin(sid, t)), go);
            var s4 := DoAct(DoAct(DoAct(s1, go), go), go);
            s4.db == RefreshOnce(s.db, t, replacement, expiresAt, now).0 && s4.sessions == s.sessions
  {
  }

  /** The token a step exchanges: its row is deleted, and a replacement will be issued. */
  function Exchanged(s: Sys, a: Act): Option<Token> {
    if a.Advance? && a.sid in s.sessions && s.sessions[a.sid].Found? && s.sessions[a.sid].t in s.db.rows
    then Some(s.sessions[a.sid].t) else None
  }

  lemma ActKeepsGone(s: Sys, a: Act, t: Token)
    requires Known(s.db) && CanAct(s, a)
    ensures Known(DoAct(s, a).db)
    ensures t in s.db.issued && t !in s.db.rows ==> t in DoAct(s, a).db.issued && t !in DoAct(s, a).db.rows
  {
  }

  lemma {:induction false} ExchangedIsGone(s: Sys, acts: seq<Act>, i: nat, t: Token)
    requires Known(s.db) && CanActs(s, acts) && i < |acts| && Exchanged(DoActs(s, acts[..i]), acts[i]) == Some(t)
    ensures t in DoActs(s, acts).db.issued && t !in DoActs(s, acts).db.rows && Known(DoActs(s, acts).db)
  {
    var n := |acts| - 1;
    ActsKeepKnown(s, acts[..n]);
    ActKeepsGone(DoActs(s, acts[..n]), acts[n], t);
    if i < n {
      assert acts[..n][..i] == acts[..i];
      ExchangedIsGone(s, acts[..n], i, t);
    }
  }

  lemma {:induction false} ActsKeepKnown(s: Sys, acts: seq<Act>)
    requires Known(s.db) && CanActs(s, acts)
    ensures Known(DoActs(s, acts).db)
  {
    if acts == [] {
    } else {
      ActsKeepKnown(s, acts[..|acts| - 1]);
      ActKeepsGone(DoActs(s, acts[..|acts| - 1]), acts[|acts| - 1], Token(0, 0, 0));
    }
  }

  /** In any interleaving of the finds and deletes of overlapping refreshes, a token is exchanged
      at most once. */
  lemma {:induction false} ExchangedOnce(s: Sys, acts: seq<Act>, i: nat, j: nat)
    requires Known(s.db) && CanActs(s, acts) && i < j < |acts|
    requires Exchanged(DoActs(s, acts[..i]), acts[i]).Some?
    ensures Exchanged(DoActs(s, acts[..i]), acts[i]) != Exchanged(DoActs(s, acts[..j]), acts[j])
  {
    var n := |acts| - 1;
    if j == n {
      assert acts[..n][..i] == acts[..i];
      ExchangedIsGone(s, acts[..n], i, Exchanged(DoActs(s, acts[..i]), acts[i]).value);
    } else {
      assert acts[..n][..i] == acts[..i] && acts[..n][..j] == acts[..j];
      ExchangedOnce(s, acts[..n], i, j);
    }
  }

  // ---- Revocation among overlapping refreshes ----

  lemma {:induction false} GoneInAnyOrder(s: Sys, acts: seq<Act>, t: Token)
    requires Known(s.db) && CanActs(s, acts) && t in s.db.issued && t !in s.db.rows
    ensures t in DoActs(s, acts).db.issued && t !in DoActs(s, acts).db.rows && Known(DoActs(s, acts).db)
  {
    hide DoAct, CanAct;
    if acts == [] {
    } else {
      var init := acts[..|acts| - 1];
      GoneInAnyOrder(s, init, t);
      ActKeepsGone(DoActs(s, init), acts[|acts| - 1], t);
    }
  }

  lemma {:induction false} ActsPrefix(s: Sys, acts: seq<Act>, i: nat)
    requires CanActs(s, acts) && i <= |acts|
    ensures CanActs(s, acts[..i])
  {
    hide CanAct, DoAct;
    if i == |acts| {
      assert acts[..i] == acts;
    } else {
      ActsPrefix(s, acts[..|acts| - 1], i);
      assert acts[..|acts| - 1][..i] == acts[..i];
    }
  }

  /** The strategy finds no row for a token whose signature is still valid, and deletes all tokens of
      its user. */
  predicate RevokesOf(s: Sys, a: Act, user: Id) {
    a.Advance? && a.sid in s.sessions && s.sessions[a.sid].Presented? &&
    s.sessions[a.sid].t.user == user && a.now < s.sessions[a.sid].t.exp && s.sessions[a.sid].t !in s.db.rows
  }

  /** After a reuse revocation, in any interleaving, no token issued to the user before is ever stored
      or exchanged again. */
  lemma RevokedForGood(s: Sys, a: Act, user: Id, acts: seq<Act>, i: nat, before: Token)
    requires Known(s.db) && CanAct(s, a) && RevokesOf(s, a, user) && CanActs(DoAct(s, a), acts)
    requires before in s.db.issued && before.user == user && i < |acts|
    ensures OfUser(DoAct(s, a).db, user) == {}
    ensures before !in DoActs(DoAct(s, a), acts[..i]).db.rows
    ensures Exchanged(DoActs(DoAct(s, a), acts[..i]), acts[i]) != Some(before)
  {
    hide CanAct, CanActs, DoActs;
    ActKeepsGone(s, a, before);
    assert OfUser(DoAct(s, a).db, user) == {} && before in DoAct(s, a).db.issued;
    ActsPrefix(DoAct(s, a), acts, i);
    GoneInAnyOrder(DoAct(s, a), acts[..i], before);
  }

  predicate LogsIn(a: Act, user: Id) {
    a.Other? && a.op.Login? && a.op.token.user == user
  }

  /** A rotation of one of the user's tokens that has deleted the old row and not stored the new one. */
  predicate MidRotation(s: Sys, sid: Id, user: Id) {
    sid in s.sessions && s.sessions[sid].Deleted? && s.sessions[sid].t.user == user
  }

  /** The user has no tokens, and the only rotations under way are those that were so at s0. */
  ghost predicate Quiet(s0: Sys, s: Sys, user: Id) {
    OfUser(s.db, user) == {} && forall sid :: MidRotation(s, sid, user) ==> MidRotation(s0, sid, user)
  }

  lemma StaysQuiet(s0: Sys, s: Sys, a: Act, user: Id)
    requires Quiet(s0, s, user) && CanAct(s, a) && !LogsIn(a, user) && !(a.Advance? && MidRotation(s, a.sid, user))
    ensures Quiet(s0, DoAct(s, a), user)
  {
    var s' := DoAct(s, a);
    assert forall t :: t in s.db.rows ==> t.user != user by {
      assert forall t :: t in s.db.rows && t.user == user ==> t in OfUser(s.db, user);
    }
    assert forall t :: t in s'.db.rows ==> t.user != user;
  }

  lemma {:induction false} FirstDisturbed(s: Sys, acts: seq<Act>, user: Id) returns (i: nat)
    requires CanActs(s, acts) && OfUser(s.db, user) == {} && !Quiet(s, DoActs(s, acts), user)
    ensures i < |acts|
    ensures LogsIn(acts[i], user) || (acts[i].Advance? && MidRotation(s, acts[i].sid, user))
  {
    hide CanAct, DoAct, MidRotation, OfUser;
    if acts == [] {
      assert false;
    } else {
      var init, a := acts[..|acts| - 1], acts[|acts| - 1];
      if Quiet(s, DoActs(s, init), user) {
        i := |acts| - 1;
        if !LogsIn(a, user) && !(a.Advance? && MidRotation(DoActs(s, init), a.sid, user)) {
          StaysQuiet(s, DoActs(s, init), a, user);
        }
      } else {
        i := FirstDisturbed(s, init, user);
      }
    }
  }

  /** A user without tokens gets one again only by logging in, or from a rotation that was already
      half done. */
  lemma RevivedBy(s: Sys, acts: seq<Act>, user: Id) returns (i: nat)
    requires CanActs(s, acts) && OfUser(s.db, user) == {} && OfUser(DoActs(s, acts).db, user) != {}
    ensures i < |acts|
    ensures LogsIn(acts[i], user) || (acts[i].Advance? && MidRotation(s, acts[i].sid, user))
  {
    i := FirstDisturbed(s, acts, user);
  }

  lemma {:induction false} UnusedJti(ts: set<Token>) returns (n: Id)
    ensures forall t :: t in ts ==> t.jti < n
  {
    if ts == {} {
      n := 0;
    } else {
      var t :| t in ts;
      var m := UnusedJti(ts - {t});
      n := if t.jti < m then m else t.jti + 1;
      assert forall u :: u in ts ==> u == t || u in ts - {t};
    }
  }

  ghost predicate Revives(s: Sys, user: Id) {
    exists acts :: CanActs(s, acts) && (forall a :: a in acts ==> !LogsIn(a, user)) &&
        OfUser(DoActs(s, acts).db, user) != {}
  }

  /** After a revocation the user can have tokens again without logging in if and only if a rotation
      of one of the user's tokens was half done at that moment. */
  lemma RevivesIff(s: Sys, user: Id)
    requires OfUser(s.db, user) == {}
    ensures Revives(s, user) <==> exists sid :: MidRotation(s, sid, user)
  {
    if sid :| MidRotation(s, sid, user) {
      var jti := UnusedJti(s.db.issued);
      var next := Token(jti, user, 0);
      var a := Advance(sid, 0, next, 0);
      assert [a][..0] == [] && CanActs(s, []) && DoActs(s, []) == s;
      assert CanActs(s, [a]) && DoActs(s, [a]) == DoAct(s, a);
      assert next in OfUser(DoAct(s, a).db, user);
    }
    if Revives(s, user) {
      var acts :| CanActs(s, acts) && (forall a :: a in acts ==> !LogsIn(a, user)) &&
          OfUser(DoActs(s, acts).db, user) != {};
      var i := RevivedBy(s, acts, user);
      assert acts[i] in acts;
    }
  }
}
