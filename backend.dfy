/** The token lifecycle of app.py: the process-wide `access_token` / `token_expiry`
    globals, `get_oauth_token`, which reuses or renews them, and `fetch_data`, which
    obtains a token and then performs one GET.

    Time is a parameter (integer seconds since any fixed origin). The credential
    exchange and the GET are parameters too: `ExchangeReply` is what the token
    endpoint answered to the one POST a renewal sends, `Wire` what the data API
    answered to the GET. A "None" token is written as the empty string: the code
    only ever tests it for truth, and both are false. */
module Backend {

  import opened Wrappers
  import opened Upstream

  /** Seconds taken off `expires_in` so that a token is renewed before it lapses. */
  const SafetyMargin := 60
  /** Lifetime assumed when the token endpoint leaves `expires_in` out. */
  const DefaultExpiresIn := 3600

  /** The answer to one client-credentials POST. `receivedAt` is the clock reading
      taken once the answer has been read (app.py reads the clock a second time
      there, after the POST and the JSON decoding); the new expiry counts from it. */
  datatype ExchangeReply =
    | TokenResponse(status: int, accessToken: Option<string>, expiresIn: Option<int>, text: string, receivedAt: int)
    | TokenTransportError(message: string)

  /** The exception `get_oauth_token` raises: the upstream status (none for a transport
      failure) and the response text or error message. */
  datatype AuthError = AuthError(status: Option<int>, detail: string)

  /** The two globals. */
  datatype TokenState = TokenState(accessToken: string, tokenExpiry: int)

  /** One call of `get_oauth_token`: the globals afterwards, what it returned or raised,
      and whether it sent the credential exchange. */
  datatype TokenStep = TokenStep(next: TokenState, token: Result<string, AuthError>, exchanged: bool)

  /** One call of `fetch_data`: the globals afterwards, the `(payload, status)` pair or
      the exception that escaped, and whether the GET was issued. */
  datatype FetchStep<T> = FetchStep(next: TokenState, reply: Result<Reply<T>, AuthError>, requested: bool)

  /** The globals at import time: no token, expiry equal to the start time. */
  function Initial(startedAt: int): TokenState {
    TokenState("", startedAt)
  }

  /** The reuse test of `get_oauth_token`: a token is stored and has not yet expired. */
  predicate Reusable(s: TokenState, now: int) {
    s.accessToken != "" && now < s.tokenExpiry
  }

  /** `get_oauth_token` as a function of the globals, the clock and the exchange answer. */
  function GetToken(s: TokenState, now: int, reply: ExchangeReply): TokenStep {
    if Reusable(s, now) then TokenStep(s, Success(s.accessToken), false)
    else match reply
      case TokenResponse(status, token, expiresIn, text, receivedAt) =>
        if status == StatusOk then
          var stored := if token.Some? then token.value else "";
          var lifetime := if expiresIn.Some? then expiresIn.value else DefaultExpiresIn;
          TokenStep(TokenState(stored, receivedAt + lifetime - SafetyMargin), Success(stored), true)
        else TokenStep(s, Failure(AuthError(Some(status), text)), true)
      case TokenTransportError(message) => TokenStep(s, Failure(AuthError(None, message)), true)
  }

  /** `fetch_data` as a function: the token step, then either the "no token" envelope or
      the normalised answer to the GET. An exception from the token step is not caught. */
  function Fetch<T>(s: TokenState, now: int, reply: ExchangeReply, wire: Wire<T>): FetchStep<T> {
    var step := GetToken(s, now, reply);
    match step.token
    case Failure(e) => FetchStep(step.next, Failure(e), false)
    case Success(token) =>
      if token == "" then FetchStep(step.next, Success(Reply(ErrorEnvelope(NoTokenMessage), InternalServerError)), false)
      else FetchStep(step.next, Success(Normalize(wire)), true)
  }

  /** A stored token that has not expired is handed out again, with no exchange and no
      change to the globals. */
  lemma ReusedWhileUnexpired(s: TokenState, now: int, reply: ExchangeReply)
    requires s.accessToken != "" && now < s.tokenExpiry
    ensures GetToken(s, now, reply) == TokenStep(s, Success(s.accessToken), false)
  {
  }

  /** No token is stored at start-up, so the first call always exchanges credentials. */
  lemma FirstCallExchanges(startedAt: int, now: int, reply: ExchangeReply)
    ensures GetToken(Initial(startedAt), now, reply).exchanged
  {
  }

  /** A successful exchange stores the new token with expiry `expires_in - 60` seconds
      after the answer arrived (`expires_in` defaulting to 3600) and returns exactly
      the stored token. */
  lemma RenewalStoresToken(s: TokenState, now: int, reply: ExchangeReply)
    requires !Reusable(s, now)
    requires reply.TokenResponse? && reply.status == StatusOk
    ensures var step := GetToken(s, now, reply);
      && step.exchanged
      && step.next.tokenExpiry == reply.receivedAt + (if reply.expiresIn.Some? then reply.expiresIn.value else 3600) - 60
      && step.token == Success(step.next.accessToken)
      && (reply.accessToken.Some? ==> step.next.accessToken == reply.accessToken.value)
  {
  }

  /** A failed exchange raises and leaves both globals as they were. */
  lemma FailedRenewalKeepsState(s: TokenState, now: int, reply: ExchangeReply)
    requires !Reusable(s, now)
    requires reply.TokenTransportError? || reply.status != StatusOk
    ensures var step := GetToken(s, now, reply);
      step.exchanged && step.token.Failure? && step.next == s
  {
  }

  /** After a renewal whose answer arrived at time `r` and stored a token with lifetime
      `e`, a later call exchanges again exactly when at least `e - 60` seconds have
      passed since `r`. */
  lemma RenewedAgainOnlyAfterLifetime(s: TokenState, t: int, reply: ExchangeReply, now: int, later: ExchangeReply)
    requires !Reusable(s, t)
    requires reply.TokenResponse? && reply.status == StatusOk
    requires reply.accessToken.Some? && reply.accessToken.value != ""
    ensures var e := if reply.expiresIn.Some? then reply.expiresIn.value else DefaultExpiresIn;
      GetToken(GetToken(s, t, reply).next, now, later).exchanged <==> now >= reply.receivedAt + e - SafetyMargin
  {
  }

  /** One call to `get_oauth_token` in a sequence of calls: its clock reading and the
      answer the exchange would get if it were sent. */
  datatype Call = Call(now: int, reply: ExchangeReply)

  /** The globals after a sequence of calls, and how many of them exchanged credentials. */
  function Replay(s: TokenState, calls: seq<Call>): (TokenState, nat)
    decreases |calls|
  {
    if calls == [] then (s, 0)
    else
      var step := GetToken(s, calls[0].now, calls[0].reply);
      var rest := Replay(step.next, calls[1..]);
      (rest.0, rest.1 + if step.exchanged then 1 else 0)
  }

  /** However many calls arrive before the stored token expires, none of them exchanges
      credentials and the globals do not change. */
  lemma {:induction false} NoExchangeBeforeExpiry(s: TokenState, calls: seq<Call>)
    decreases |calls|
    requires s.accessToken != ""
    requires forall i :: 0 <= i < |calls| ==> calls[i].now < s.tokenExpiry
    ensures Replay(s, calls) == (s, 0)
  {
    if calls != [] {
      NoExchangeBeforeExpiry(s, calls[1..]);
    }
  }

  /** Once a renewal has stored a non-empty token from an answer that arrived at time
      `r`, every further call made before `r + expires_in - 60` reuses it: the whole
      run exchanges exactly once. */
  lemma {:induction false} OneExchangePerLifetime(s: TokenState, first: Call, calls: seq<Call>)
    requires !Reusable(s, first.now)
    requires first.reply.TokenResponse? && first.reply.status == StatusOk
    requires first.reply.accessToken.Some? && first.reply.accessToken.value != ""
    requires forall i :: 0 <= i < |calls| ==> calls[i].now < first.reply.receivedAt + (if first.reply.expiresIn.Some? then first.reply.expiresIn.value else DefaultExpiresIn) - SafetyMargin
    ensures Replay(s, [first] + calls).1 == 1
  {
    var renewed := GetToken(s, first.now, first.reply).next;
    assert ([first] + calls)[1..] == calls;
    NoExchangeBeforeExpiry(renewed, calls);
  }

  /** `fetch_data` either lets the exchange's exception escape (without sending the GET,
      the globals untouched) or returns a `(payload, status)` pair; with no token it
      answers 500 without sending the GET; a failed GET becomes an error envelope with
      status 500; an answered GET is passed through with its own status. */
  lemma FetchShape<T>(s: TokenState, now: int, reply: ExchangeReply, wire: Wire<T>)
    ensures var f := Fetch(s, now, reply, wire);
      && (f.reply.Failure? ==> !f.requested && f.next == s)
      && (f.reply.Success? && f.next.accessToken == "" ==>
            !f.requested && f.reply.value == Reply(ErrorEnvelope(NoTokenMessage), 500))
      && (f.reply.Success? && f.next.accessToken != "" ==> f.requested && f.reply.value == Normalize(wire))
      && (f.requested && wire.Failed? ==> f.reply.value.status == 500 && f.reply.value.body.ErrorEnvelope?)
      && (f.requested && wire.Responded? ==> f.reply.value == Reply(Data(wire.payload), wire.status))
  {
  }

  /** The globals of app.py and the two functions that use them. */
  class TokenBroker {
    var accessToken: string
    var tokenExpiry: int

    function State(): TokenState
      reads this
    {
      TokenState(accessToken, tokenExpiry)
    }

    /** Module import: `access_token = None`, `token_expiry = now`. */
    constructor (startedAt: int)
      ensures State() == Initial(startedAt)
    {
      accessToken := "";
      tokenExpiry := startedAt;
    }

    /** `get_oauth_token`. */
    method GetOAuthToken(now: int, reply: ExchangeReply) returns (token: Result<string, AuthError>, exchanged: bool)
      modifies this
      ensures TokenStep(State(), token, exchanged) == GetToken(old(State()), now, reply)
    {
      if accessToken != "" && now < tokenExpiry {
        return Success(accessToken), false;
      }
      exchanged := true;
      match reply
      case TokenResponse(status, newToken, expiresIn, text, receivedAt) =>
        if status == StatusOk {
          accessToken := if newToken.Some? then newToken.value else "";
          var lifetime := if expiresIn.Some? then expiresIn.value else DefaultExpiresIn;
          tokenExpiry := receivedAt + lifetime - SafetyMargin;
          token := Success(accessToken);
        } else {
          token := Failure(AuthError(Some(status), text));
        }
      case TokenTransportError(message) =>
        token := Failure(AuthError(None, message));
    }

    /** `fetch_data(url)`, where `wire` is what the GET would answer if it were sent. */
    method FetchData<T>(now: int, reply: ExchangeReply, wire: Wire<T>) returns (r: Result<Reply<T>, AuthError>, requested: bool)
      modifies this
      ensures FetchStep(State(), r, requested) == Fetch(old(State()), now, reply, wire)
    {
      var token, _ := GetOAuthToken(now, reply);
      if token.Failure? {
        return Failure(token.error), false;
      }
      if token.value == "" {
        return Success(Reply(ErrorEnvelope(NoTokenMessage), InternalServerError)), false;
      }
      r := Success(Normalize(wire));
      requested := true;
    }
  }
}
