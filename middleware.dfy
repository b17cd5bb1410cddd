/**
 * `AuthMiddleware`: the `Authorization` header must be "Bearer <token>",
 * the token must look like `generateToken`'s output, and its uuid part must
 * name a user. The user lookup is `First` over the table's rows; the
 * context keys it sets are the fields of the `Authenticated` result.
 */
module Middleware {
  import opened Wrappers
  import opened GoStrings
  import opened Users
  import opened Auth

  datatype AuthResult = Rejected(error: string) | Authenticated(userId: nat, user: User)

  /** The uuid part of a bearer token: the third '_'-separated part, once the prefix and part count check out. */
  function TokenUuid(token: string): (r: Option<string>)
    ensures r.Some? ==> TokenPrefix <= token && |Split(token, '_')| >= 4 && r.value == Split(token, '_')[2]
  {
    if !(TokenPrefix <= token) then None
    else
      var parts := Split(token, '_');
      if |parts| < 4 then None else Some(parts[2])
  }

  /**
   * The middleware's verdict for a request with this header: a user of the
   * table with `userID` its id, or one of the five refusals.
   */
  function Authenticate(header: string, rows: seq<User>): (r: AuthResult)
    ensures r.Authenticated? ==> r.user in rows && r.userId == r.user.id && "Bearer " <= header
    ensures r.Rejected? ==> r.error in {"authorization_header_missing", "authorization_header_invalid",
      "invalid_token_format", "invalid_token_structure", "invalid_token_user_not_found"}
    ensures header == "" ==> r == Rejected("authorization_header_missing")
  {
    if header == "" then Rejected("authorization_header_missing")
    else
      var parts := Split(header, ' ');
      if |parts| != 2 || parts[0] != "Bearer" then Rejected("authorization_header_invalid")
      else
        JoinPair(parts, ' ');
        var token := parts[1];
        if !(TokenPrefix <= token) then Rejected("invalid_token_format")
        else if |Split(token, '_')| < 4 then Rejected("invalid_token_structure")
        else
          match First(rows, UuidIs(Split(token, '_')[2]))
          case None => Rejected("invalid_token_user_not_found")
          case Some(u) => Authenticated(u.id, u)
  }

  /** A success names the user whose uuid is the token's uuid part, behind the header "Bearer " + token. */
  lemma AuthenticatedUserOwnsToken(header: string, rows: seq<User>)
    ensures var r := Authenticate(header, rows);
      r.Authenticated? ==>
        && r.user in rows && r.userId == r.user.id
        && header == "Bearer " + Split(header, ' ')[1]
        && TokenUuid(Split(header, ' ')[1]) == Some(r.user.uuid)
  {
    var parts := Split(header, ' ');
    if Authenticate(header, rows).Authenticated? {
      JoinPair(parts, ' ');
    }
  }

  /** Joining two parts puts one separator between them. */
  lemma JoinPair(parts: seq<string>, sep: char)
    requires |parts| == 2
    ensures Join(parts, sep) == parts[0] + [sep] + parts[1]
  {
    assert parts[1..] == [parts[1]];
  }

  /** Every refusal is a 401 with one of the five error texts. */
  lemma RejectionReasons(header: string, rows: seq<User>)
    ensures var r := Authenticate(header, rows);
      r.Rejected? ==> r.error in {"authorization_header_missing", "authorization_header_invalid",
        "invalid_token_format", "invalid_token_structure", "invalid_token_user_not_found"}
  {
  }

  /** A generated token splits into "mock", "token", then the parts of uuid + "_" + the random part. */
  lemma TokenSplit(uuid: string, random: Hex32)
    ensures Split(GenerateToken(uuid, random), '_') == ["mock", "token"] + Split(uuid + "_" + random, '_')
  {
    TokenShape(uuid, random);
    SplitTwo("mock", "token", uuid + "_" + random, '_');
  }

  /** The prefix "mock_token_" is "mock", '_', "token", '_'. */
  lemma TokenShape(uuid: string, random: Hex32)
    ensures GenerateToken(uuid, random) == "mock" + ['_'] + ("token" + ['_'] + (uuid + "_" + random))
  {
  }

  /** The random part of a token holds no '_', so it is one part. */
  lemma RandomIsOnePart(random: Hex32)
    ensures Split(random, '_') == [random]
  {
    assert '_' !in random by {
      assert forall i :: 0 <= i < |random| ==> IsLowerHexDigit(random[i]);
    }
  }

  /** The token `generateToken` builds splits back into "mock", "token", the uuid and the random part. */
  lemma TokenParts(uuid: string, random: Hex32)
    requires '_' !in uuid
    ensures Split(GenerateToken(uuid, random), '_') == ["mock", "token", uuid, random]
  {
    TokenSplit(uuid, random);
    SplitCons(uuid, random, '_');
    RandomIsOnePart(random);
  }

  /** For a uuid without '_', the uuid read back from a generated token is that uuid. */
  lemma TokenUuidRoundTrip(uuid: string, random: Hex32)
    requires '_' !in uuid
    ensures TokenUuid(GenerateToken(uuid, random)) == Some(uuid)
  {
    TokenParts(uuid, random);
  }

  /** A uuid holding '_' is misread: only its part before the first '_' is looked up. */
  lemma UnderscoreUuidMisread(head: string, rest: string, random: Hex32)
    requires '_' !in head && '_' !in rest
    ensures TokenUuid(GenerateToken(head + "_" + rest, random)) == Some(head)
  {
    TokenSplit(head + "_" + rest, random);
    Underscored(head, rest, random);
    SplitCons(head, rest + ['_'] + random, '_');
    SplitCons(rest, random, '_');
    RandomIsOnePart(random);
  }

  /** Regrouping three parts joined by '_' around the first separator. */
  lemma Underscored(a: string, b: string, c: string)
    ensures a + "_" + b + "_" + c == a + ['_'] + (b + ['_'] + c)
  {
  }

  /** The header "Bearer " + a token from `generateToken` lets the token's owner in. */
  lemma SessionTokenAuthenticates(rows: seq<User>, k: nat, random: Hex32)
    requires Unique(rows) && k < |rows|
    requires forall i :: 0 <= i < |rows[k].uuid| ==> IsLowerHexDigit(rows[k].uuid[i])
    ensures Authenticate("Bearer " + GenerateToken(rows[k].uuid, random), rows) == Authenticated(rows[k].id, rows[k])
  {
    var uuid := rows[k].uuid;
    var token := GenerateToken(uuid, random);
    assert '_' !in uuid && ' ' !in uuid by {
      forall i | 0 <= i < |uuid|
        ensures uuid[i] != '_' && uuid[i] != ' '
      {
        assert IsLowerHexDigit(uuid[i]);
      }
    }
    assert ' ' !in random by {
      assert forall i :: 0 <= i < |random| ==> IsLowerHexDigit(random[i]);
    }
    assert ' ' !in token by {
      assert token == TokenPrefix + uuid + "_" + random;
      assert ' ' !in TokenPrefix;
    }
    var header := ["Bearer", token];
    assert Join(header[1..], ' ') == token;
    assert Join(header, ' ') == "Bearer " + token;
    SplitJoin(header, ' ');
    TokenParts(uuid, random);
    UuidFindsRow(rows, k);
  }

  /** A header with two spaces after "Bearer" splits into three parts and is refused. */
  lemma ExtraSpaceRejected(token: string, rows: seq<User>)
    requires ' ' !in token
    ensures Authenticate("Bearer  " + token, rows) == Rejected("authorization_header_invalid")
  {
    var parts := ["Bearer", "", token];
    assert Join(parts[2..], ' ') == token;
    assert Join(parts[1..], ' ') == [' '] + token;
    assert Join(parts, ' ') == "Bearer  " + token;
    SplitJoin(parts, ' ');
  }
}
