/** The client's authentication state (frontend/src/shared/auth/AuthContext.jsx):
    the access token held in component state, mirrored from the token store,
    and the three operations that change both. */
module AuthContext {
  import opened Wrappers
  import opened Json
  import opened HttpPipeline

  const LogoutPath: string := "/auth/logout"

  /** The body `authApi.logout(refreshToken)` posts. */
  function LogoutOptions(rt: string): Options {
    Options("POST", Some(JObj(map["refreshToken" := JStr(rt)])), false)
  }

  class AuthProvider {
    const storage: TokenStorage
    var accessToken: Option<string>

    /** The state starts from what the store holds. */
    constructor (storage0: TokenStorage)
      ensures storage == storage0 && accessToken == storage0.access
    {
      storage := storage0;
      accessToken := storage0.access;
    }

    /** `Boolean(accessToken)`: an empty token is not a session. */
    function IsAuthenticated(): (b: bool)
      reads this
      ensures b <==> accessToken.Some? && accessToken.value != ""
      ensures b ==> accessToken.Some?
    {
      Present(accessToken)
    }

    method SetTokens(at: Option<string>, rt: Option<string>)
      modifies storage, this
      ensures storage.access == at && storage.refresh == rt && accessToken == at
      ensures IsAuthenticated() <==> Present(at)
    {
      storage.SetTokens(at, rt);
      accessToken := at;
    }

    /** Forgets the session locally; no request is sent (there is no network here). */
    method ClearLocal()
      modifies storage, this
      ensures storage.access == None && storage.refresh == None && accessToken == None
      ensures !IsAuthenticated()
    {
      storage.Clear();
      accessToken := None;
    }

    /** `logout`: tells the server only when a refresh token is held, and
        clears the local session on every exit path, also when the server
        call fails (the `finally` block). The failure, if any, is returned. */
    method Logout(net: Network, base: string) returns (outcome: Result<Unit, Failure>)
      modifies storage, this, net
      ensures storage.access == None && storage.refresh == None && accessToken == None
      ensures !IsAuthenticated()
      ensures Present(old(storage.refresh)) ==>
                net.sent == old(net.sent) + [RequestFor(base, LogoutPath, LogoutOptions(old(storage.refresh).value), old(storage.access))]
                && net.replies == Rest(old(net.replies))
                && (outcome.Failure? <==> Settle(Next(old(net.replies))).Failure?)
      ensures !Present(old(storage.refresh)) ==>
                net.sent == old(net.sent) && net.replies == old(net.replies) && outcome == Success(Unit)
    {
      var refreshToken := storage.refresh;
      outcome := Success(Unit);
      if Present(refreshToken) {
        var r := RawFetch(net, storage, base, LogoutPath, LogoutOptions(refreshToken.value));
        if r.Failure? {
          outcome := Failure(r.error);
        }
      }
      storage.Clear();
      accessToken := None;
    }
  }
}
