/** Refresh-token rotation: every refresh replaces the token, and presenting a replaced token again
    revokes everything the user holds. Each method is one transaction on locked rows. */
module RefreshTokens {
  import opened Common

  /** A presented token: its claims, and whether signature and type are right. `exp` is whole seconds. */
  datatype Raw = Raw(id: int, user: int, exp: int, genuine: bool)

  /** The stored hash identifies the raw token it was made from, so the row keeps that token itself. */
  datatype Token = Token(user: int, raw: Raw, expiresAt: int, revokedAt: Option<int>, replacedBy: Option<int>)

  datatype User = User(active: bool, password: int)

  datatype Db = Db(users: map<int, User>, tokens: map<int, Token>)

  datatype Result = Issued(token: Raw) | InvalidToken | InvalidCredentials | Done | WrongPassword | PasswordUnchanged

  datatype Command =
    | Register(user: int, password: int)
    | SetActive(user: int, active: bool)
    | Login(user: int, password: int, at: int, newId: int)
    | Refresh(raw: Raw, at: int, newId: int)
    | Logout(raw: Raw, at: int)
    | ChangePassword(user: int, current: int, new': int, at: int)

  predicate Decodes(raw: Raw, at: int) {
    raw.genuine && raw.exp * SECOND > at
  }

  function RawOf(id: int, user: int, expiresAt: int): Raw {
    Raw(id, user, expiresAt / SECOND, true)
  }

  function NewToken(user: int, at: int, ttl: nat, id: int): Token {
    Token(user, RawOf(id, user, at + ttl), at + ttl, None, None)
  }

  predicate Stored(tokens: map<int, Token>, raw: Raw) {
    raw.id in tokens && tokens[raw.id].user == raw.user && tokens[raw.id].raw == raw
  }

  function RevokeAllActive(tokens: map<int, Token>, user: int, at: int): map<int, Token> {
    map id | id in tokens ::
      if tokens[id].user == user && tokens[id].revokedAt.None? then tokens[id].(revokedAt := Some(at)) else tokens[id]
  }

  predicate Usable(db: Db, raw: Raw, at: int) {
    && Decodes(raw, at) && Stored(db.tokens, raw) && db.tokens[raw.id].expiresAt > at
    && db.tokens[raw.id].revokedAt.None?
    && raw.user in db.users && db.users[raw.user].active
  }

  /** A live token that was already exchanged: proof that two parties hold it. */
  predicate Replayed(db: Db, raw: Raw, at: int) {
    && Decodes(raw, at) && Stored(db.tokens, raw) && db.tokens[raw.id].expiresAt > at
    && db.tokens[raw.id].revokedAt.Some? && db.tokens[raw.id].replacedBy.Some?
  }

  function Perform(db: Db, command: Command, ttl: nat): (Db, Result) {
    match command
    case Register(user, password) =>
      if user in db.users then (db, InvalidCredentials)
      else (db.(users := db.users[user := User(true, password)]), Done)
    case SetActive(user, active) =>
      if user !in db.users then (db, InvalidCredentials)
      else (db.(users := db.users[user := db.users[user].(active := active)]), Done)
    case Login(user, password, at, newId) =>
      if user !in db.users || db.users[user].password != password || !db.users[user].active || newId in db.tokens
      then (db, InvalidCredentials)
      else (db.(tokens := db.tokens[newId := NewToken(user, at, ttl, newId)]),
            Issued(NewToken(user, at, ttl, newId).raw))
    case Refresh(raw, at, newId) =>
      if Replayed(db, raw, at) then (db.(tokens := RevokeAllActive(db.tokens, raw.user, at)), InvalidToken)
      else if !Usable(db, raw, at) || newId in db.tokens then (db, InvalidToken)
      else
        (db.(tokens := db.tokens[newId := NewToken(raw.user, at, ttl, newId)]
         [raw.id := db.tokens[raw.id].(revokedAt := Some(at), replacedBy := Some(newId))]),
         Issued(NewToken(raw.user, at, ttl, newId).raw))
    case Logout(raw, at) =>
      if !Decodes(raw, at) || !Stored(db.tokens, raw) then (db, InvalidToken)
      else if db.tokens[raw.id].revokedAt.Some? then (db, Done)
      else (db.(tokens := db.tokens[raw.id := db.tokens[raw.id].(revokedAt := Some(at))]), Done)
    case ChangePassword(user, current, new', at) =>
      if user !in db.users || db.users[user].password != current then (db, WrongPassword)
      else if current == new' then (db, PasswordUnchanged)
      else (Db(db.users[user := db.users[user].(password := new')], RevokeAllActive(db.tokens, user, at)), Done)
  }

  class AuthService {
    const ttl: nat
    var users: map<int, User>
    var tokens: map<int, Token>

    function Rows(): Db
      reads this
    {
      Db(users, tokens)
    }

    constructor (ttl: nat)
      ensures Rows() == Db(map[], map[]) && this.ttl == ttl
    {
      this.ttl := ttl;
      users, tokens := map[], map[];
    }

    /** Adds the row of a fresh refresh token. */
    method IssuePair(user: int, at: int, newId: int) returns (raw: Raw)
      requires newId !in tokens
      modifies this`tokens
      ensures tokens == old(tokens)[newId := NewToken(user, at, ttl, newId)]
              && raw == NewToken(user, at, ttl, newId).raw
    {
      raw := Raw(newId, user, (at + ttl) / SECOND, true);
      tokens := tokens[newId := Token(user, raw, at + ttl, None, None)];
    }

    method LogIn(user: int, password: int, at: int, newId: int) returns (r: Result)
      modifies this
      ensures (Rows(), r) == Perform(old(Rows()), Login(user, password, at, newId), ttl)
      ensures r.Issued? <==>
              && user in old(users) && old(users)[user].password == password && old(users)[user].active
              && newId !in old(tokens)
      ensures r.Issued? ==>
                && users == old(users) && tokens == old(tokens)[newId := tokens[newId]]
                && tokens[newId].user == user && tokens[newId].raw == r.token && tokens[newId].expiresAt == at + ttl
                && tokens[newId].revokedAt == None && tokens[newId].replacedBy == None
      ensures !r.Issued? ==> r == InvalidCredentials && users == old(users) && tokens == old(tokens)
    {
      if user !in users { return InvalidCredentials; }
      if password != users[user].password || !users[user].active { return InvalidCredentials; }
      if newId in tokens { return InvalidCredentials; }
      var raw := IssuePair(user, at, newId);
      r := Issued(raw);
    }

    method RefreshPair(raw: Raw, at: int, newId: int) returns (r: Result)
      modifies this
      ensures (Rows(), r) == Perform(old(Rows()), Refresh(raw, at, newId), ttl)
      ensures r.Issued? <==>
              && raw.genuine && at < raw.exp * SECOND && newId !in old(tokens)
              && raw.id in old(tokens) && old(tokens)[raw.id].raw == raw && old(tokens)[raw.id].user == raw.user
              && at < old(tokens)[raw.id].expiresAt && old(tokens)[raw.id].revokedAt == None
              && raw.user in old(users) && old(users)[raw.user].active
      ensures r.Issued? ==>
                && tokens[newId].user == raw.user && tokens[newId].raw == r.token && tokens[newId].expiresAt == at + ttl
                && tokens[newId].revokedAt == None && tokens[newId].replacedBy == None
                && tokens[raw.id].revokedAt == Some(at) && tokens[raw.id].replacedBy == Some(newId)
      ensures !r.Issued? ==> r == InvalidToken
    {
      if !raw.genuine || raw.exp * SECOND <= at { return InvalidToken; }
      if raw.id !in tokens || tokens[raw.id].user != raw.user || tokens[raw.id].raw != raw
         || tokens[raw.id].expiresAt <= at {
        return InvalidToken;
      }
      var stored := tokens[raw.id];
      if stored.revokedAt.Some? {
        if stored.replacedBy.Some? {
          tokens := RevokeAllActive(tokens, stored.user, at);
        }
        return InvalidToken;
      }
      if stored.user !in users || !users[stored.user].active { return InvalidToken; }
      if newId in tokens { return InvalidToken; }
      var replacement := IssuePair(stored.user, at, newId);
      stored := stored.(revokedAt := Some(at));
      stored := stored.(replacedBy := Some(replacement.id));
      tokens := tokens[raw.id := stored];
      r := Issued(replacement);
    }

    method LogOut(raw: Raw, at: int) returns (r: Result)
      modifies this`tokens
      ensures (Rows(), r) == Perform(old(Rows()), Logout(raw, at), ttl)
      ensures r == Done <==>
              && raw.genuine && at < raw.exp * SECOND
              && raw.id in old(tokens) && old(tokens)[raw.id].raw == raw && old(tokens)[raw.id].user == raw.user
      ensures r == Done ==> tokens[raw.id].revokedAt != None
      ensures r != Done ==> r == InvalidToken && tokens == old(tokens)
    {
      if !raw.genuine || raw.exp * SECOND <= at { return InvalidToken; }
      if raw.id !in tokens || tokens[raw.id].user != raw.user || tokens[raw.id].raw != raw { return InvalidToken; }
      if tokens[raw.id].revokedAt.None? {
        tokens := tokens[raw.id := tokens[raw.id].(revokedAt := Some(at))];
      }
      r := Done;
    }

    method ChangeUserPassword(user: int, current: int, new': int, at: int) returns (r: Result)
      modifies this
      ensures (Rows(), r) == Perform(old(Rows()), ChangePassword(user, current, new', at), ttl)
      ensures r == WrongPassword <==> user !in old(users) || old(users)[user].password != current
      ensures r == PasswordUnchanged <==> user in old(users) && old(users)[user].password == current == new'
      ensures r == Done <==> user in old(users) && old(users)[user].password == current != new'
      ensures r == Done ==> users[user].password == new'
                            && forall id :: id in tokens && tokens[id].user == user ==> tokens[id].revokedAt != None
      ensures r != Done ==> users == old(users) && tokens == old(tokens)
    {
      if user !in users { return WrongPassword; }
      if current != users[user].password { return WrongPassword; }
      if new' == users[user].password { return PasswordUnchanged; }
      users := users[user := users[user].(password := new')];
      tokens := RevokeAllActive(tokens, user, at);
      r := Done;
    }
  }

  // ---- exactly when, and what is written, by columns ---------------------------------------------------

  /** Row `id` is fresh: the user's, good for `ttl` from `at`, and its raw token carries that in whole seconds. */
  predicate FreshRow(tokens: map<int, Token>, id: int, user: int, raw: Raw, at: int, ttl: nat) {
    && id in tokens && tokens[id].user == user && tokens[id].raw == raw && tokens[id].expiresAt == at + ttl
    && tokens[id].revokedAt == None && tokens[id].replacedBy == None
    && raw.id == id && raw.user == user && raw.genuine && raw.exp == (at + ttl) / SECOND
  }

  lemma LoginIssuesExactlyWhen(db: Db, user: int, password: int, at: int, newId: int, ttl: nat)
    ensures var (after, r) := Perform(db, Login(user, password, at, newId), ttl);
            && (r.Issued? <==>
                user in db.users && db.users[user].password == password && db.users[user].active && newId !in db.tokens)
            && (r.Issued? ==>
                  && after.users == db.users && FreshRow(after.tokens, newId, user, r.token, at, ttl)
                  && after.tokens == db.tokens[newId := after.tokens[newId]])
            && (!r.Issued? ==> r == InvalidCredentials && after == db)
  {
  }

  /** A refresh that issues changes the old row's two columns and adds the new one. One that does not changes
      nothing, but for a replay: a token that is right and in time, and was exchanged. */
  lemma RefreshIssuesExactlyWhen(db: Db, raw: Raw, at: int, newId: int, ttl: nat)
    ensures var (after, r) := Perform(db, Refresh(raw, at, newId), ttl);
            var known := && raw.genuine && at < raw.exp * SECOND
                         && raw.id in db.tokens && db.tokens[raw.id].raw == raw && db.tokens[raw.id].user == raw.user
                         && at < db.tokens[raw.id].expiresAt;
            && after.users == db.users
            && (r.Issued? <==>
                && known && db.tokens[raw.id].revokedAt == None && newId !in db.tokens
                && raw.user in db.users && db.users[raw.user].active)
            && (r.Issued? ==>
                  && FreshRow(after.tokens, newId, raw.user, r.token, at, ttl)
                  && raw.id in after.tokens && after.tokens[raw.id].revokedAt == Some(at)
                  && after.tokens[raw.id].replacedBy == Some(newId)
                  && after.tokens[raw.id].expiresAt == db.tokens[raw.id].expiresAt && after.tokens[raw.id].raw == raw
                  && after.tokens[raw.id].user == raw.user
                  && forall id :: id != newId && id != raw.id ==>
                                    && (id in after.tokens <==> id in db.tokens)
                                    && (id in db.tokens ==> after.tokens[id] == db.tokens[id]))
            && (!r.Issued? ==>
                  && r == InvalidToken && after.tokens.Keys == db.tokens.Keys
                  && var replay := known && db.tokens[raw.id].revokedAt != None && db.tokens[raw.id].replacedBy != None;
                  forall id :: id in db.tokens ==>
                                 after.tokens[id] == if replay && db.tokens[id].user == raw.user
                                                        && db.tokens[id].revokedAt == None
                                 then db.tokens[id].(revokedAt := Some(at)) else db.tokens[id])
  {
  }

  lemma LogoutEndsExactlyWhen(db: Db, raw: Raw, at: int, ttl: nat)
    ensures var (after, r) := Perform(db, Logout(raw, at), ttl);
            && after.users == db.users && after.tokens.Keys == db.tokens.Keys
            && (r == Done <==>
                && raw.genuine && at < raw.exp * SECOND
                && raw.id in db.tokens && db.tokens[raw.id].raw == raw && db.tokens[raw.id].user == raw.user)
            && (r != Done ==> r == InvalidToken)
            && forall id :: id in db.tokens ==>
                              after.tokens[id] == if r == Done && id == raw.id && db.tokens[id].revokedAt == None
                              then db.tokens[id].(revokedAt := Some(at)) else db.tokens[id]
  {
  }

  lemma PasswordChangesExactlyWhen(db: Db, user: int, current: int, new': int, at: int, ttl: nat)
    ensures var (after, r) := Perform(db, ChangePassword(user, current, new', at), ttl);
            && (r == WrongPassword <==> user !in db.users || db.users[user].password != current)
            && (r == PasswordUnchanged <==> user in db.users && db.users[user].password == current == new')
            && (r == Done <==> user in db.users && db.users[user].password == current != new')
            && (r != Done ==> after == db)
            && (r == Done ==>
                  && after.users.Keys == db.users.Keys && after.tokens.Keys == db.tokens.Keys
                  && (forall u :: u in db.users ==>
                                    && after.users[u].active == db.users[u].active
                                    && after.users[u].password == if u == user then new' else db.users[u].password)
                  && forall id :: id in db.tokens ==>
                                    after.tokens[id] == if db.tokens[id].user == user && db.tokens[id].revokedAt == None
                                    then db.tokens[id].(revokedAt := Some(at)) else db.tokens[id])
  {
  }

  /** A token is revoked only by its own exchange or logout, or, with all others of its user, by a replay or a
      change of password. */
  lemma RevokedOnlyBy(db: Db, command: Command, ttl: nat, id: int)
    requires id in db.tokens && db.tokens[id].revokedAt == None
    ensures var (after, r) := Perform(db, command, ttl);
            id in after.tokens && after.tokens[id].revokedAt != None ==>
              || (command.Refresh? && r.Issued? && command.raw.id == id)
              || (command.Refresh? && r == InvalidToken && command.raw.user == db.tokens[id].user
                  && command.raw.id in db.tokens && db.tokens[command.raw.id].replacedBy != None)
              || (command.Logout? && r == Done && command.raw.id == id)
              || (command.ChangePassword? && r == Done && command.user == db.tokens[id].user)
  {
  }

  /** Accounts appear active with their password; the password changes by its owner's command alone. */
  lemma AccountsChangeOnlyBy(db: Db, command: Command, ttl: nat, user: int)
    ensures var after := Perform(db, command, ttl).0;
            && (user in after.users <==> user in db.users || (command.Register? && command.user == user))
            && (user in after.users && user !in db.users ==> after.users[user] == User(true, command.password))
            && ((command.Register? && command.user == user) ==>
                  Perform(db, command, ttl).1 == if user in db.users then InvalidCredentials else Done)
            && ((command.SetActive? && command.user == user) ==>
                  Perform(db, command, ttl).1 == if user in db.users then Done else InvalidCredentials)
            && (user in db.users ==>
                  && (after.users[user].password != db.users[user].password ==>
                        command.ChangePassword? && command.user == user && command.current == db.users[user].password)
                  && after.users[user].active == (if command.SetActive? && command.user == user then command.active
                                                  else db.users[user].active))
  {
  }

  // ---- whole runs --------------------------------------------------------------------------------

  /** Where a token stands: which login it descends from, how many exchanges ago, and from which token. */
  datatype Place = Place(login: nat, depth: nat, parent: Option<int>)

  /** `places`, the number of logins and the exchanged tokens in order are history. */
  datatype World = World(db: Db, places: map<int, Place>, logins: nat, refreshed: seq<int>)

  const EMPTY := World(Db(map[], map[]), map[], 0, [])

  function Apply(w: World, command: Command, ttl: nat): World {
    var (db, result) := Perform(w.db, command, ttl);
    if command.Login? && result.Issued? then
      World(db, w.places[command.newId := Place(w.logins, 0, None)], w.logins + 1, w.refreshed)
    else if command.Refresh? && result.Issued? && command.raw.id in w.places then
      var from := w.places[command.raw.id];
      World(db, w.places[command.newId := Place(from.login, from.depth + 1, Some(command.raw.id))], w.logins,
            w.refreshed + [command.raw.id])
    else w.(db := db)
  }

  function Run(w: World, commands: seq<Command>, ttl: nat): World
    decreases |commands|
  {
    if commands == [] then w else Run(Apply(w, commands[0], ttl), commands[1..], ttl)
  }

  /** A token's row agrees with its place: a replaced token is revoked and its replacement is the next
      one down the same login's chain and of the same user; every token below the top is the
      replacement of its parent. */
  predicate RowFits(w: World, id: int)
    requires id in w.db.tokens && w.places.Keys == w.db.tokens.Keys
  {
    var row, place := w.db.tokens[id], w.places[id];
    && place.login < w.logins
    && row.raw == RawOf(id, row.user, row.expiresAt)
    && (row.replacedBy.Some? ==>
          && row.revokedAt.Some?
          && row.replacedBy.value in w.db.tokens
          && w.places[row.replacedBy.value] == Place(place.login, place.depth + 1, Some(id))
          && w.db.tokens[row.replacedBy.value].user == row.user)
    && (place.depth == 0 <==> place.parent.None?)
    && (place.parent.Some? ==>
          place.parent.value in w.db.tokens && w.db.tokens[place.parent.value].replacedBy == Some(id))
  }

  ghost predicate Rows(w: World) {
    && w.places.Keys == w.db.tokens.Keys
    && forall id {:trigger RowFits(w, id)} | id in w.db.tokens :: RowFits(w, id)
  }

  /** One token per login and depth; all but the deepest are replaced. */
  predicate InLine(w: World, a: int, b: int)
    requires a in w.db.tokens && b in w.db.tokens && w.places.Keys == w.db.tokens.Keys
  {
    a != b && w.places[a].login == w.places[b].login ==>
      && w.places[a].depth != w.places[b].depth
      && (w.places[a].depth < w.places[b].depth ==> w.db.tokens[a].replacedBy.Some?)
  }

  ghost predicate Lines(w: World)
    requires w.places.Keys == w.db.tokens.Keys
  {
    forall a, b {:trigger InLine(w, a, b)} | a in w.db.tokens && b in w.db.tokens :: InLine(w, a, b)
  }

  ghost predicate Exchanges(w: World) {
    && (forall i, j :: 0 <= i < j < |w.refreshed| ==> w.refreshed[i] != w.refreshed[j])
    && (forall id :: id in w.refreshed <==> id in w.db.tokens && w.db.tokens[id].replacedBy.Some?)
  }

  ghost predicate Sound(w: World) {
    Rows(w) && Lines(w) && Exchanges(w)
  }

  /** Tokens stay, with all but their revocation and replacement, and these are never taken back. */
  ghost predicate Extends(w: World, t: World) {
    && w.places.Keys == w.db.tokens.Keys && t.places.Keys == t.db.tokens.Keys && w.logins <= t.logins
    && forall id {:trigger Kept(w, t, id)} | id in w.db.tokens :: Kept(w, t, id)
  }

  predicate Kept(w: World, t: World, id: int)
    requires id in w.db.tokens && w.places.Keys == w.db.tokens.Keys && t.places.Keys == t.db.tokens.Keys
  {
    id in t.db.tokens && t.places[id] == w.places[id] && Continues(w.db.tokens[id], t.db.tokens[id])
  }

  predicate Continues(a: Token, b: Token) {
    && b.user == a.user && b.raw == a.raw && b.expiresAt == a.expiresAt
    && (a.revokedAt.Some? ==> b.revokedAt.Some?)
    && (a.replacedBy.Some? ==> b.replacedBy == a.replacedBy)
  }

  lemma RowStillFits(w: World, t: World, id: int)
    requires Extends(w, t) && id in w.db.tokens && id in t.db.tokens && RowFits(w, id)
    requires t.db.tokens[id].replacedBy == w.db.tokens[id].replacedBy
    ensures RowFits(t, id)
  {
    var row, place := w.db.tokens[id], w.places[id];
    assert Kept(w, t, id);
    assert place.parent.Some? ==> Kept(w, t, place.parent.value);
    assert row.replacedBy.Some? ==> Kept(w, t, row.replacedBy.value);
  }

  lemma StillInLine(w: World, t: World, a: int, b: int)
    requires Extends(w, t) && a in w.db.tokens && b in w.db.tokens && InLine(w, a, b)
    ensures a in t.db.tokens && b in t.db.tokens && InLine(t, a, b)
  {
    assert Kept(w, t, a) && Kept(w, t, b);
  }

  /** Rows are kept but for revocations, which are never taken back. */
  predicate OnlyRevokes(a: map<int, Token>, b: map<int, Token>) {
    && a.Keys == b.Keys
    && forall id | id in a ::
         && b[id] == a[id].(revokedAt := b[id].revokedAt)
         && (a[id].revokedAt.Some? ==> b[id].revokedAt == a[id].revokedAt)
  }

  lemma RevokingExtends(w: World, t: World)
    requires Rows(w) && OnlyRevokes(w.db.tokens, t.db.tokens) && t == w.(db := t.db)
    ensures Extends(w, t) && forall id | id in w.db.tokens :: t.db.tokens[id].replacedBy == w.db.tokens[id].replacedBy
    ensures forall id :: id in w.db.tokens <==> id in t.db.tokens
  {
    assert forall id :: id in w.db.tokens <==> id in w.db.tokens.Keys;
    assert forall id :: id in t.db.tokens <==> id in t.db.tokens.Keys;
  }

  lemma RevokingKeepsSound(w: World, t: World)
    requires Sound(w) && OnlyRevokes(w.db.tokens, t.db.tokens) && t == w.(db := t.db)
    ensures Sound(t)
  {
    hide OnlyRevokes, RowFits, InLine, Continues;
    RevokingExtends(w, t);
    forall id | id in t.db.tokens ensures RowFits(t, id) {
      assert RowFits(w, id);
      RowStillFits(w, t, id);
    }
    forall a, b | a in t.db.tokens && b in t.db.tokens ensures InLine(t, a, b) {
      assert InLine(w, a, b);
      StillInLine(w, t, a, b);
    }
  }

  /** The world after a login that issued token `id`. */
  function LoggedIn(w: World, id: int, token: Token): World {
    World(w.db.(tokens := w.db.tokens[id := token]), w.places[id := Place(w.logins, 0, None)], w.logins + 1,
          w.refreshed)
  }

  lemma LoginExtends(w: World, id: int, token: Token)
    requires Rows(w) && id !in w.db.tokens
    ensures Extends(w, LoggedIn(w, id, token))
  {
  }

  lemma LoginLines(w: World, id: int, token: Token, a: int, b: int)
    requires Rows(w) && Lines(w) && id !in w.db.tokens
    requires a in LoggedIn(w, id, token).db.tokens && b in LoggedIn(w, id, token).db.tokens
    ensures w.places[id := Place(w.logins, 0, None)].Keys == LoggedIn(w, id, token).db.tokens.Keys
    ensures InLine(LoggedIn(w, id, token), a, b)
  {
    if a != id && b != id {
      LoginExtends(w, id, token);
      assert InLine(w, a, b);
      StillInLine(w, LoggedIn(w, id, token), a, b);
    } else {
      assert a != id ==> RowFits(w, a);
      assert b != id ==> RowFits(w, b);
    }
  }

  lemma LoginKeepsSound(w: World, id: int, token: Token)
    requires Sound(w) && id !in w.db.tokens
    requires token.raw == RawOf(id, token.user, token.expiresAt) && token.replacedBy.None?
    ensures Sound(LoggedIn(w, id, token))
  {
    var t := LoggedIn(w, id, token);
    LoginExtends(w, id, token);
    forall x | x in t.db.tokens ensures RowFits(t, x) {
      if x != id {
        assert RowFits(w, x);
        RowStillFits(w, t, x);
      }
    }
    forall a, b | a in t.db.tokens && b in t.db.tokens ensures InLine(t, a, b) {
      LoginLines(w, id, token, a, b);
    }
  }

  /** An unrevoked token is the deepest of its login. */
  lemma UnrevokedIsLast(w: World, id: int)
    requires Rows(w) && Lines(w) && id in w.db.tokens && w.db.tokens[id].revokedAt.None?
    ensures w.db.tokens[id].replacedBy.None?
    ensures forall a :: a in w.db.tokens && a != id && w.places[a].login == w.places[id].login ==>
                          w.places[a].depth < w.places[id].depth
  {
    assert RowFits(w, id);
    forall a | a in w.db.tokens && a != id && w.places[a].login == w.places[id].login
      ensures w.places[a].depth < w.places[id].depth
    {
      assert InLine(w, id, a);
    }
  }

  /** The world after token `id` was exchanged for token `next`. */
  function Exchanged(w: World, id: int, at: int, next: int, token: Token): World
    requires id in w.db.tokens && id in w.places
  {
    World(w.db.(tokens := w.db.tokens[next := token]
          [id := w.db.tokens[id].(revokedAt := Some(at), replacedBy := Some(next))]),
          w.places[next := Place(w.places[id].login, w.places[id].depth + 1, Some(id))], w.logins, w.refreshed + [id])
  }

  /** An unrevoked token and a fresh one of the same user. */
  ghost predicate Exchangeable(w: World, id: int, next: int, token: Token) {
    && id in w.db.tokens && next !in w.db.tokens
    && w.db.tokens[id].revokedAt.None?
    && token.user == w.db.tokens[id].user && token.replacedBy.None?
    && token.raw == RawOf(next, token.user, token.expiresAt)
  }

  lemma ExchangeExtends(w: World, id: int, at: int, next: int, token: Token)
    requires Rows(w) && Lines(w) && Exchangeable(w, id, next, token)
    ensures Extends(w, Exchanged(w, id, at, next, token))
  {
    UnrevokedIsLast(w, id);
  }

  lemma ExchangeLines(w: World, t: World, id: int, at: int, next: int, token: Token, a: int, b: int)
    requires Rows(w) && Lines(w) && Exchangeable(w, id, next, token) && t == Exchanged(w, id, at, next, token)
    requires Extends(w, t) && a in t.db.tokens && b in t.db.tokens
    ensures InLine(t, a, b)
  {
    UnrevokedIsLast(w, id);
    if a != next && b != next {
      assert InLine(w, a, b);
      StillInLine(w, t, a, b);
    } else if b == next && a != next && a != id {
      assert InLine(w, a, id);
    }
  }

  lemma ExchangeRows(w: World, t: World, id: int, at: int, next: int, token: Token, x: int)
    requires Rows(w) && Lines(w) && Exchangeable(w, id, next, token) && t == Exchanged(w, id, at, next, token)
    requires Extends(w, t) && x in t.db.tokens
    ensures RowFits(t, x)
  {
    assert RowFits(w, id);
    if x != next && x != id {
      assert RowFits(w, x);
      RowStillFits(w, t, x);
    }
  }

  lemma ExchangeKeepsExchanges(w: World, id: int, at: int, next: int, token: Token)
    requires Rows(w) && Lines(w) && Exchanges(w) && Exchangeable(w, id, next, token)
    ensures Exchanges(Exchanged(w, id, at, next, token))
  {
    UnrevokedIsLast(w, id);
    assert id !in w.refreshed;
  }

  lemma ExchangeKeepsSound(w: World, t: World, id: int, at: int, next: int, token: Token)
    requires Sound(w) && Exchangeable(w, id, next, token) && t == Exchanged(w, id, at, next, token)
    ensures Sound(t)
  {
    hide RowFits, InLine, Exchanged, Exchangeable, Exchanges, Extends;
    ExchangeExtends(w, id, at, next, token);
    assert t.places.Keys == t.db.tokens.Keys by {
      SameKeys(w, t);
    }
    forall x | x in t.db.tokens ensures RowFits(t, x) {
      ExchangeRows(w, t, id, at, next, token, x);
    }
    forall a, b | a in t.db.tokens && b in t.db.tokens ensures InLine(t, a, b) {
      ExchangeLines(w, t, id, at, next, token, a, b);
    }
    ExchangeKeepsExchanges(w, id, at, next, token);
  }

  lemma SameKeys(w: World, t: World)
    requires Extends(w, t)
    ensures t.places.Keys == t.db.tokens.Keys
  {
  }

  predicate Issues(w: World, command: Command, ttl: nat) {
    Perform(w.db, command, ttl).1.Issued?
  }

  lemma LoginIsLoggedIn(w: World, command: Command, ttl: nat)
    requires command.Login? && Issues(w, command, ttl)
    ensures command.newId !in w.db.tokens
    ensures Apply(w, command, ttl) == LoggedIn(w, command.newId, NewToken(command.user, command.at, ttl, command.newId))
  {
  }

  lemma RefreshIsExchanged(w: World, command: Command, ttl: nat)
    requires command.Refresh? && Issues(w, command, ttl) && w.places.Keys == w.db.tokens.Keys
    ensures var token := NewToken(command.raw.user, command.at, ttl, command.newId);
            && Exchangeable(w, command.raw.id, command.newId, token)
            && Apply(w, command, ttl) == Exchanged(w, command.raw.id, command.at, command.newId, token)
  {
  }

  lemma OtherOnlyRevokes(w: World, command: Command, ttl: nat)
    requires !Issues(w, command, ttl)
    ensures var t := Apply(w, command, ttl); OnlyRevokes(w.db.tokens, t.db.tokens) && t == w.(db := t.db)
  {
  }

  lemma OnlyThoseIssue(w: World, command: Command, ttl: nat)
    requires Issues(w, command, ttl)
    ensures command.Login? || command.Refresh?
  {
  }

  lemma CommandKeepsSound(w: World, command: Command, ttl: nat)
    requires Sound(w)
    ensures Sound(Apply(w, command, ttl))
  {
    hide Apply, LoggedIn, Exchanged, Issues, Lines, Exchanges, Exchangeable, OnlyRevokes;
    if !Issues(w, command, ttl) {
      OtherOnlyRevokes(w, command, ttl);
      RevokingKeepsSound(w, Apply(w, command, ttl));
    } else if command.Login? {
      LoginIsLoggedIn(w, command, ttl);
      LoginKeepsSound(w, command.newId, NewToken(command.user, command.at, ttl, command.newId));
    } else {
      OnlyThoseIssue(w, command, ttl);
      RefreshIsExchanged(w, command, ttl);
      var token := NewToken(command.raw.user, command.at, ttl, command.newId);
      ExchangeKeepsSound(w, Apply(w, command, ttl), command.raw.id, command.at, command.newId, token);
    }
  }

  lemma {:induction false} RunKeepsSound(w: World, commands: seq<Command>, ttl: nat)
    requires Sound(w)
    ensures Sound(Run(w, commands, ttl))
    decreases |commands|
  {
    if commands != [] {
      CommandKeepsSound(w, commands[0], ttl);
      RunKeepsSound(Apply(w, commands[0], ttl), commands[1..], ttl);
    }
  }

  /** In every run: no refresh token is exchanged twice; the replacement links form one chain per login,
      disjoint and within one user, going strictly down; and a login's unrevoked token, if any, is
      single and the deepest. */
  lemma ChainsOfEveryRun(commands: seq<Command>, ttl: nat)
    ensures var w := Run(EMPTY, commands, ttl);
            && Sound(w)
            && (forall i, j :: 0 <= i < j < |w.refreshed| ==> w.refreshed[i] != w.refreshed[j])
            && (forall a, b :: a in w.db.tokens && b in w.db.tokens && a != b
                               && w.places[a].login == w.places[b].login && w.db.tokens[a].revokedAt.None? ==>
                                 w.places[b].depth < w.places[a].depth && w.db.tokens[b].revokedAt.Some?)
            && (forall a, b :: a in w.db.tokens && b in w.db.tokens && a != b && w.db.tokens[a].replacedBy.Some? ==>
                                 w.db.tokens[a].replacedBy != w.db.tokens[b].replacedBy)
  {
    RunKeepsSound(EMPTY, commands, ttl);
    var w := Run(EMPTY, commands, ttl);
    forall a, b | a in w.db.tokens && b in w.db.tokens && a != b
      ensures w.places[a].login == w.places[b].login && w.db.tokens[a].revokedAt.None? ==>
                w.places[b].depth < w.places[a].depth && w.db.tokens[b].revokedAt.Some?
      ensures w.db.tokens[a].replacedBy.Some? ==> w.db.tokens[a].replacedBy != w.db.tokens[b].replacedBy
    {
      assert RowFits(w, a) && RowFits(w, b);
      if w.db.tokens[a].revokedAt.None? {
        UnrevokedIsLast(w, a);
        assert InLine(w, b, a);
      }
    }
  }

  // ---- replay ------------------------------------------------------------------------------------

  /** Of the first `n` logins of the user no unrevoked token is left. */
  ghost predicate Dead(w: World, user: int, n: nat)
    requires w.places.Keys == w.db.tokens.Keys
  {
    && n <= w.logins
    && forall id :: id in w.db.tokens && w.db.tokens[id].user == user && w.places[id].login < n ==>
                      w.db.tokens[id].revokedAt.Some?
  }

  /** Tokens stay, with their user and place. */
  ghost predicate Grows(w: World, t: World) {
    forall id :: id in w.db.tokens && id in w.places ==>
                   && id in t.db.tokens && id in t.places
                   && t.db.tokens[id].user == w.db.tokens[id].user && t.places[id] == w.places[id]
  }

  lemma CommandGrows(w: World, command: Command, ttl: nat)
    requires Rows(w)
    ensures Grows(w, Apply(w, command, ttl))
  {
  }

  lemma CommandKeepsDead(w: World, command: Command, ttl: nat, user: int, n: nat)
    requires Sound(w) && Dead(w, user, n)
    ensures var t := Apply(w, command, ttl);
            Sound(t) && Dead(t, user, n) && Grows(w, t)
  {
    CommandKeepsSound(w, command, ttl);
    CommandGrows(w, command, ttl);
    if command.Refresh? && Perform(w.db, command, ttl).1.Issued? {
      assert RowFits(w, command.raw.id);
    }
  }

  lemma {:induction false} RunKeepsDead(w: World, commands: seq<Command>, ttl: nat, user: int, n: nat)
    requires Sound(w) && Dead(w, user, n)
    ensures var t := Run(w, commands, ttl);
            Sound(t) && Dead(t, user, n) && Grows(w, t)
    decreases |commands|
  {
    if commands != [] {
      CommandKeepsDead(w, commands[0], ttl, user, n);
      RunKeepsDead(Apply(w, commands[0], ttl), commands[1..], ttl, user, n);
    }
  }

  /** None of the tokens issued to the user up to `w` works in `t`, and one that does descends from a
      login made since. */
  ghost predicate LockedOut(w: World, t: World, user: int) {
    && (forall shown: Raw, when: int :: shown.id in w.db.tokens && w.db.tokens[shown.id].user == user ==>
                                          !Usable(t.db, shown, when))
    && (forall shown: Raw, when: int :: shown.user == user && Usable(t.db, shown, when) ==>
                                          shown.id in t.places && t.places[shown.id].login >= w.logins)
  }

  lemma RevokedPastLocksOut(w: World, v: World, user: int, at: int, later: seq<Command>, ttl: nat)
    requires Sound(w) && v == w.(db := v.db)
    requires v.db.tokens == RevokeAllActive(w.db.tokens, user, at)
    ensures LockedOut(w, Run(v, later, ttl), user)
  {
    RevokingKeepsSound(w, v);
    RunKeepsDead(v, later, ttl, user, w.logins);
    forall shown: Raw | shown.id in w.db.tokens ensures w.places[shown.id].login < w.logins {
      assert RowFits(w, shown.id);
    }
  }

  /** After a replaced, unexpired token is presented again: every token issued to that user before is
      refused from then on, whatever else happens, and a token of that user that still works belongs to
      a login made afterwards. */
  lemma ReplayRevokesForGood(before: seq<Command>, raw: Raw, at: int, newId: int, later: seq<Command>, ttl: nat)
    requires Replayed(Run(EMPTY, before, ttl).db, raw, at)
    ensures var w := Run(EMPTY, before, ttl);
            LockedOut(w, Run(Apply(w, Refresh(raw, at, newId), ttl), later, ttl), raw.user)
  {
    RunKeepsSound(EMPTY, before, ttl);
    var w := Run(EMPTY, before, ttl);
    RevokedPastLocksOut(w, Apply(w, Refresh(raw, at, newId), ttl), raw.user, at, later, ttl);
  }

  /** Changing the password has the same effect. */
  lemma PasswordChangeRevokesForGood(before: seq<Command>, user: int, current: int, new': int, at: int,
                                     later: seq<Command>, ttl: nat)
    requires Perform(Run(EMPTY, before, ttl).db, ChangePassword(user, current, new', at), ttl).1 == Done
    ensures var w := Run(EMPTY, before, ttl);
            LockedOut(w, Run(Apply(w, ChangePassword(user, current, new', at), ttl), later, ttl), user)
  {
    RunKeepsSound(EMPTY, before, ttl);
    var w := Run(EMPTY, before, ttl);
    RevokedPastLocksOut(w, Apply(w, ChangePassword(user, current, new', at), ttl), user, at, later, ttl);
  }

  // ---- how long a token is good for ----------------------------------------------------------------

  lemma OneCommand(w: World, command: Command, more: seq<Command>, ttl: nat)
    ensures Run(w, [command] + more, ttl) == Run(Apply(w, command, ttl), more, ttl) && Run(w, [], ttl) == w
  {
    assert ([command] + more)[1..] == more;
  }

  /** An active user who logs in and refreshes in time has one good token, the second, and the first is on record
      as exchanged for it. */
  lemma LoginAndRefreshGoThrough(w: World, user: int, at: int, id: int, later: int, next: int, ttl: nat)
    requires w.places.Keys == w.db.tokens.Keys
    requires user in w.db.users && w.db.users[user].active
    requires id !in w.db.tokens && next !in w.db.tokens && id != next && later < (at + ttl) / SECOND * SECOND
    ensures var login := Login(user, w.db.users[user].password, at, id);
            var refresh := Refresh(Raw(id, user, (at + ttl) / SECOND, true), later, next);
            var t := Run(w, [login, refresh], ttl);
            && t.db.tokens.Keys == w.db.tokens.Keys + {id, next}
            && t.db.tokens[id].revokedAt == Some(later) && t.db.tokens[id].replacedBy == Some(next)
            && t.db.tokens[next].user == user && t.db.tokens[next].revokedAt == None
            && t.db.tokens[next].expiresAt == later + ttl
            && t.refreshed == w.refreshed + [id] && t.logins == w.logins + 1
  {
    var login := Login(user, w.db.users[user].password, at, id);
    var refresh := Refresh(Raw(id, user, (at + ttl) / SECOND, true), later, next);
    OneCommand(w, login, [refresh], ttl);
    OneCommand(Apply(w, login, ttl), refresh, [], ttl);
    hide Run;
  }

  predicate SameToken(a: Token, b: Token) {
    b.user == a.user && b.raw == a.raw && b.expiresAt == a.expiresAt
  }

  lemma CommandKeepsToken(w: World, command: Command, ttl: nat, id: int)
    requires id in w.db.tokens
    ensures id in Apply(w, command, ttl).db.tokens && SameToken(w.db.tokens[id], Apply(w, command, ttl).db.tokens[id])
  {
  }

  lemma {:induction false} RunKeepsToken(w: World, commands: seq<Command>, ttl: nat, id: int)
    requires id in w.db.tokens
    ensures id in Run(w, commands, ttl).db.tokens && SameToken(w.db.tokens[id], Run(w, commands, ttl).db.tokens[id])
    decreases |commands|
  {
    hide Apply;
    if commands != [] {
      CommandKeepsToken(w, commands[0], ttl, id);
      RunKeepsToken(Apply(w, commands[0], ttl), commands[1..], ttl, id);
    }
  }

  /** A token issued by a login or an exchange can be exchanged, whatever happened since, exactly as long as its
      lifetime lasts in whole seconds, it is not revoked, and its user is active. */
  lemma IssuedIsGoodUntilItExpires(w: World, issue: Command, later: seq<Command>, when: int, next: int, ttl: nat)
    requires issue.Login? || issue.Refresh?
    requires Perform(w.db, issue, ttl).1.Issued?
    requires next !in Run(Apply(w, issue, ttl), later, ttl).db.tokens
    ensures var user := if issue.Login? then issue.user else issue.raw.user;
            var db := Run(Apply(w, issue, ttl), later, ttl).db;
            && issue.newId in db.tokens
            && (Perform(db, Refresh(Perform(w.db, issue, ttl).1.token, when, next), ttl).1.Issued? <==>
                && when < (issue.at + ttl) / SECOND * SECOND
                && db.tokens[issue.newId].revokedAt == None && user in db.users && db.users[user].active)
  {
    if issue.Login? {
      LoginIssuesExactlyWhen(w.db, issue.user, issue.password, issue.at, issue.newId, ttl);
    } else {
      RefreshIssuesExactlyWhen(w.db, issue.raw, issue.at, issue.newId, ttl);
    }
    var v, raw := Apply(w, issue, ttl), Perform(w.db, issue, ttl).1.token;
    assert v.db == Perform(w.db, issue, ttl).0;
    hide Perform, Apply, Run;
    RunKeepsToken(v, later, ttl, issue.newId);
    RefreshIssuesExactlyWhen(Run(v, later, ttl).db, raw, when, next, ttl);
  }
}
