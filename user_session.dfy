/**
 * The client session: the access token kept in the device's secure storage, the token and
 * player record held in memory, and the `players` table rows they are looked up in.
 * Decoding the base64 JSON payload of a token is an input function `decodeSub` that gives
 * the payload's `sub` claim, or nothing when decoding throws or the claim is missing.
 */
module UserSession {
  import opened Common

  /** A `players` row as far as the session uses it. */
  datatype Player = Player(id: string, codename: Option<string>)

  /** The outcome of `select('*').eq('id', id).single()`. */
  datatype Fetched = Found(player: Player) | NotFound | FetchError

  // ---------------------------------------------------------------------------
  // getUserIdFromJWT
  // ---------------------------------------------------------------------------

  /** The position of the first '.', or the length when there is none. */
  function IndexOfDot(s: string): (k: nat)
    ensures k <= |s|
    ensures forall i :: 0 <= i < k ==> s[i] != '.'
    ensures k < |s| ==> s[k] == '.'
  {
    if s == [] || s[0] == '.' then 0 else 1 + IndexOfDot(s[1..])
  }

  /** `token.split('.')[1]`: the text between the first and the second dot, if there is a dot. */
  function SecondSegment(token: string): (seg: Option<string>)
    ensures seg.None? <==> '.' !in token
    ensures seg.Some? ==> '.' !in seg.value
  {
    var i := IndexOfDot(token);
    if i == |token| then None
    else
      var rest := token[i + 1..];
      Some(rest[..IndexOfDot(rest)])
  }

  /** Of a token `header.payload.signature` (or `header.payload`) the payload is the second segment. */
  lemma JwtPayloadIsSecondSegment(header: string, payload: string, tail: string)
    requires '.' !in header && '.' !in payload
    requires tail == [] || tail[0] == '.'
    ensures SecondSegment(header + "." + payload + tail) == Some(payload)
  {
    var token := header + "." + payload + tail;
    assert token == header + ("." + payload + tail);
    IndexOfDotAfterPrefix(header, "." + payload + tail);
    var rest := token[|header| + 1..];
    assert rest == payload + tail;
    IndexOfDotAfterPrefix(payload, tail);
    assert rest[..|payload|] == payload;
  }

  lemma {:induction false} IndexOfDotAfterPrefix(prefix: string, s: string)
    requires '.' !in prefix && (s == [] || s[0] == '.')
    ensures IndexOfDot(prefix + s) == |prefix|
  {
    if prefix != [] {
      assert (prefix + s)[1..] == prefix[1..] + s;
      IndexOfDotAfterPrefix(prefix[1..], s);
    }
  }

  /** `getUserIdFromJWT`: the `sub` claim of the second segment, or null on any failure. */
  function UserIdFromJwt(token: string, decodeSub: string -> Option<string>): (id: Option<string>)
    ensures '.' !in token ==> id == None
    ensures '.' in token ==> id == decodeSub(SecondSegment(token).value)
  {
    match SecondSegment(token)
    case None => None
    case Some(payload) => decodeSub(payload)
  }

  /** `codename || 'Agent'`: the codename stored for a new player, never empty. */
  function StoredCodename(codename: Option<string>): (name: string)
    ensures name != ""
    ensures Truthy(codename) ==> name == codename.value
    ensures !Truthy(codename) ==> name == "Agent"
  {
    if Truthy(codename) then codename.value else "Agent"
  }

  /** The `players` table, keyed by id. */
  class PlayerStore {
    var rows: map<string, Player>

    constructor (rows: map<string, Player>)
      ensures this.rows == rows
    {
      this.rows := rows;
    }

    /** A lookup by id; `fails` stands for any error other than "no row" (PGRST116). */
    method FetchById(id: string, fails: bool) returns (r: Fetched)
      ensures r == if fails then FetchError else if id in rows then Found(rows[id]) else NotFound
    {
      if fails {
        r := FetchError;
      } else if id in rows {
        r := Found(rows[id]);
      } else {
        r := NotFound;
      }
    }

    /** Inserts a row; `fails` stands for an error returned by the store. */
    method Insert(p: Player, fails: bool) returns (ok: bool)
      modifies this
      ensures ok == !fails
      ensures rows == if ok then old(rows)[p.id := p] else old(rows)
    {
      ok := !fails;
      if ok {
        rows := rows[p.id := p];
      }
    }
  }

  class Session {
    /** The secure-storage entry `access_token`. */
    var storedToken: Option<string>
    var token: Option<string>
    var authUser: Option<Player>
    var loading: bool
    const decodeSub: string -> Option<string>

    /** A token in memory is the stored one, and a player is only ever held with a token. */
    ghost predicate Valid()
      reads this
    {
      (token.Some? ==> token == storedToken) && (authUser.Some? ==> token.Some?)
    }

    constructor (storedToken: Option<string>, decodeSub: string -> Option<string>)
      ensures Valid()
      ensures this.storedToken == storedToken && this.decodeSub == decodeSub
      ensures token == None && authUser == None && loading
    {
      this.storedToken := storedToken;
      this.decodeSub := decodeSub;
      token := None;
      authUser := None;
      loading := true;
    }

    /** The user id `init` works with: from a non-empty stored token whose `sub` is non-empty. */
    function InitUserId(): Option<string>
      reads this
    {
      if !Truthy(storedToken) then None
      else
        var id := UserIdFromJwt(storedToken.value, decodeSub);
        if Truthy(id) then id else None
    }

    /**
     * `init`: with a usable stored token whose player row is found, the token and the row are
     * taken over; on every other path they stay as they were. Loading ends on every path and
     * nothing is written.
     */
    method Init(players: PlayerStore, fetchFails: bool)
      requires Valid()
      modifies this
      ensures Valid() && !loading
      ensures storedToken == old(storedToken)
      ensures var id := InitUserId();
        if id.Some? && !fetchFails && id.value in players.rows
        then token == storedToken && authUser == Some(players.rows[id.value])
        else token == old(token) && authUser == old(authUser)
    {
      if !Truthy(storedToken) {
        loading := false;
        return;
      }
      var userId := UserIdFromJwt(storedToken.value, decodeSub);
      if !Truthy(userId) {
        loading := false;
        return;
      }
      var fetched := players.FetchById(userId.value, fetchFails);
      if fetched.Found? {
        token := storedToken;
        authUser := Some(fetched.player);
      }
      loading := false;
    }

    /**
     * `signIn`: the token is stored and held first, whatever follows. With a usable user id
     * an existing row becomes the player; a missing row is created with codename
     * `codename || 'Agent'` and the player becomes `{id, codename}` with the raw codename;
     * any other fetch error, or an insert error, leaves the player as it was.
     */
    method SignIn(players: PlayerStore, accessToken: string, codename: Option<string>,
                  fetchFails: bool, insertFails: bool)
      modifies this, players
      ensures Valid()
      ensures storedToken == Some(accessToken) && token == Some(accessToken)
      ensures loading == old(loading)
      ensures var id := UserIdFromJwt(accessToken, decodeSub);
        if !Truthy(id) || fetchFails then
          authUser == old(authUser) && players.rows == old(players.rows)
        else if id.value in old(players.rows) then
          authUser == Some(old(players.rows)[id.value]) && players.rows == old(players.rows)
        else if insertFails then
          authUser == old(authUser) && players.rows == old(players.rows)
        else
          authUser == Some(Player(id.value, codename))
          && players.rows == old(players.rows)[id.value := Player(id.value, Some(StoredCodename(codename)))]
    {
      storedToken := Some(accessToken);
      token := Some(accessToken);

      var userId := UserIdFromJwt(accessToken, decodeSub);
      if !Truthy(userId) {
        return;
      }

      var fetched := players.FetchById(userId.value, fetchFails);
      match fetched {
        case NotFound =>
          var ok := players.Insert(Player(userId.value, Some(StoredCodename(codename))), insertFails);
          if ok {
            authUser := Some(Player(userId.value, codename));
          }
        case FetchError =>
        case Found(p) =>
          authUser := Some(p);
      }
    }

    /** `signOut`: the stored token, the token and the player are all cleared. */
    method SignOut()
      modifies this
      ensures Valid()
      ensures storedToken == None && token == None && authUser == None
      ensures loading == old(loading)
    {
      storedToken := None;
      token := None;
      authUser := None;
    }
  }
}
