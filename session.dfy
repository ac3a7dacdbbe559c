/** How the pieces meet at run time: the token `login` signs
    (controllers/userController.js) is what the middleware
    (middlewares/authMiddleware.js) later verifies, and the identity it
    derives is the caller of the product handlers
    (controllers/produitController.js). */
module Session {
  import opened Common
  import opened AuthMiddleware
  import Accounts
  import Catalogue

  /** What `jwt.verify` returns, within the token's lifetime, for a token signed
      from these claims: the user id and e-mail, and no role. */
  function PayloadOf(claims: Accounts.SessionClaims): (p: Payload)
    ensures p.userId == Some(claims.userId) && p.email == Some(claims.email) && p.role == None
  {
    Payload(Some(claims.userId), Some(claims.email), None)
  }

  /** A token from a successful login, presented as `Bearer <token>` while it
      verifies, authenticates as the logged-in user with the default role
      "user"; an account with an empty e-mail gets a token the middleware
      refuses with 400. */
  lemma LoginTokenAuthenticates(t: Accounts.Tables, email: string, password: string, hash: string -> string,
                                token: string, verify: string -> VerifyResult)
    requires Accounts.Login(t, email, password, hash).status == Ok
    requires token != "" && ' ' !in token
    requires verify(token) == Decoded(PayloadOf(Accounts.Login(t, email, password, hash).body.claims))
    ensures var id := Accounts.Login(t, email, password, hash).body.claims.userId;
      && (email != "" ==> Authenticate(Some(Scheme + " " + token), verify) == Next(Identity(id, email, DefaultRole)))
      && (email == "" ==> Authenticate(Some(Scheme + " " + token), verify) == Reject(BadRequest))
  {
    BearerTokenIsVerified(token, "", verify);
  }

  /** A caller authenticated by such a token is never an administrator of
      either kind: it reads only products it owns (whose owner still exists)
      and changes or deletes only products it owns. */
  lemma LoginSessionOwnsOnly(t: Accounts.Tables, email: string, password: string, hash: string -> string,
                             token: string, verify: string -> VerifyResult,
                             product: Catalogue.Product, ownerFound: bool, userId: Id)
    requires Accounts.Login(t, email, password, hash).status == Ok
    requires token != "" && ' ' !in token
    requires verify(token) == Decoded(PayloadOf(Accounts.Login(t, email, password, hash).body.claims))
    requires Authenticate(Some(Scheme + " " + token), verify).Next?
    ensures var id := Accounts.Login(t, email, password, hash).body.claims.userId;
      var caller := Catalogue.CallerOf(Authenticate(Some(Scheme + " " + token), verify).user);
      && (Catalogue.CanRead(caller, product, ownerFound) <==> ownerFound && product.user == id)
      && (Catalogue.CanModify(caller, product) <==> product.user == id)
      && (Catalogue.CanList(caller, userId) <==> userId == id)
  {
    LoginTokenAuthenticates(t, email, password, hash, token, verify);
  }
}
