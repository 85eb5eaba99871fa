/**
 * Requesting a password reset: the user's earlier recovery tokens are
 * replaced by a single new one that expires an hour later, and the answer
 * is 201 whatever happens, so the answer never reveals whether the address
 * is registered.
 */
module PasswordRecovery {
  import opened Outcomes
  import opened Schema
  import opened Seqs

  /** One hour, in milliseconds. */
  const RecoverTokenLifetime: int := 1000 * 60 * 60

  /** The awaited step that throws, if any; the handler catches every exception. */
  datatype RecoverFault = NoFault | LookupThrows | DeleteThrows | CreateThrows | SendThrows

  /** The new store, the response status, and the link handed to the mailer, if it got that far. */
  datatype RecoverOutcome = RecoverOutcome(db: Db, status: int, link: Option<string>)

  function RecoverLink(frontendUrl: string, code: string): string {
    frontendUrl + "/auth/reset-password?code=" + code
  }

  function RecoverTokenOf(userId: string): Token -> bool {
    (t: Token) => t.userId == userId && t.tokenType == PasswordRecover
  }

  function NotRecoverTokenOf(userId: string): Token -> bool {
    (t: Token) => !(t.userId == userId && t.tokenType == PasswordRecover)
  }

  /**
   * Handles a reset request for `email` at time `now` (milliseconds);
   * `tokenId` is the key the store assigns to the new token and `fault` the
   * step that throws, if any.
   */
  function RequestPasswordRecover(db: Db, email: string, now: int, tokenId: string, frontendUrl: string, fault: RecoverFault): (r: RecoverOutcome)
    requires Valid(db)
    requires forall t :: t in db.tokens ==> t.id != tokenId
    ensures r.status == 201
    ensures r.db == db.(tokens := r.db.tokens)
    ensures (forall u :: u in db.users ==> u.email != email) ==> r.db == db && r.link.None?
    ensures forall t :: t in r.db.tokens ==>
              || t in db.tokens
              || exists u :: u in db.users && u.email == email && t == Token(tokenId, PasswordRecover, u.id, now + RecoverTokenLifetime)
    ensures r.link.None? ==> forall t :: t in r.db.tokens ==> t in db.tokens
    ensures forall u, t :: u in db.users && u.email == email && t in db.tokens && !(t.userId == u.id && t.tokenType == PasswordRecover) ==>
              t in r.db.tokens
    ensures fault == LookupThrows || fault == DeleteThrows ==> r.db == db && r.link.None?
    ensures forall u :: u in db.users && u.email == email && fault == CreateThrows ==>
              Filter(r.db.tokens, RecoverTokenOf(u.id)) == [] && r.link.None?
    ensures forall u :: u in db.users && u.email == email && (fault == NoFault || fault == SendThrows) ==>
              && Filter(r.db.tokens, RecoverTokenOf(u.id)) == [Token(tokenId, PasswordRecover, u.id, now + RecoverTokenLifetime)]
              && r.link == Some(RecoverLink(frontendUrl, tokenId))
  {
    if fault == LookupThrows then RecoverOutcome(db, 201, None)
    else
      match UserByEmail(db, email)
      case None => RecoverOutcome(db, 201, None)
      case Some(user) =>
        if fault == DeleteThrows then RecoverOutcome(db, 201, None)
        else
          var kept := Filter(db.tokens, NotRecoverTokenOf(user.id));
          if fault == CreateThrows then
            FilterNone(kept, RecoverTokenOf(user.id));
            RecoverOutcome(db.(tokens := kept), 201, None)
          else
            var token := Token(tokenId, PasswordRecover, user.id, now + RecoverTokenLifetime);
            RotationLeavesOneToken(kept, token, user.id);
            RecoverOutcome(db.(tokens := kept + [token]), 201, Some(RecoverLink(frontendUrl, tokenId)))
  }

  /** After dropping a user's recovery tokens and adding one, that one is all the user holds. */
  lemma RotationLeavesOneToken(kept: seq<Token>, token: Token, userId: string)
    requires forall t :: t in kept ==> !RecoverTokenOf(userId)(t)
    requires RecoverTokenOf(userId)(token)
    ensures Filter(kept + [token], RecoverTokenOf(userId)) == [token]
  {
    FilterAppend(kept, [token], RecoverTokenOf(userId));
    FilterNone(kept, RecoverTokenOf(userId));
    assert Filter([token], RecoverTokenOf(userId)) == [token] by {
      assert [token][1..] == [];
    }
  }

  /** A reset request keeps every table's unique keys unique. */
  lemma RecoverPreservesValid(db: Db, email: string, now: int, tokenId: string, frontendUrl: string, fault: RecoverFault)
    requires Valid(db)
    requires forall t :: t in db.tokens ==> t.id != tokenId
    ensures Valid(RequestPasswordRecover(db, email, now, tokenId, frontendUrl, fault).db)
  {
    var r := RequestPasswordRecover(db, email, now, tokenId, frontendUrl, fault);
    if r.db.tokens != db.tokens {
      var user :| user in db.users && user.email == email;
      var kept := Filter(db.tokens, NotRecoverTokenOf(user.id));
      FilterKeepsKeysDistinct(db.tokens, NotRecoverTokenOf(user.id), TokenId);
      if r.db.tokens != kept {
        AppendKeepsKeysDistinct(kept, [Token(tokenId, PasswordRecover, user.id, now + RecoverTokenLifetime)], TokenId);
      }
    }
  }
}
