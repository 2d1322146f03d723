/** `register`: a check that all fields are given, a lookup by e-mail, then an insert. */
module AuthController {
  import opened Wrappers
  import opened Models
  import Text
  import Store
  import Protect

  datatype RegisterReply =
    | Rejected(status: nat, message: string)
    | Created(status: nat, user: User)
      /** `User.create` failed validation (an e-mail the format check refuses); the error
          goes to the error handler. */
    | ServerError

  /** The e-mail as the `lowercase` setter stores it and as the query compares it. */
  function StoredEmail(email: string): (r: string)
    ensures |r| == |email|
  {
    Text.ToLower(email)
  }

  /** A second registration with the same e-mail, in any letter case, is refused, so the
      stored e-mails stay distinct. `isEmail` is the format validator on the stored value;
      password hashing is not part of this model. */
  method Register(db: Store.Db, name: Option<string>, email: Option<string>, password: Option<string>,
                  isEmail: string -> bool, now: nat)
    returns (reply: RegisterReply)
    requires db.Valid()
    modifies db`users
    ensures db.Valid()
    ensures !(Protect.Truthy(name) && Protect.Truthy(email) && Protect.Truthy(password)) ==>
      reply == Rejected(400, "All fields are required") && db.users == old(db.users)
    ensures Protect.Truthy(name) && Protect.Truthy(email) && Protect.Truthy(password) ==>
      && (StoredEmail(email.value) in Store.Emails(old(db.users)) ==>
            reply == Rejected(400, "User already exists") && db.users == old(db.users))
      && (StoredEmail(email.value) !in Store.Emails(old(db.users)) && !isEmail(StoredEmail(email.value)) ==>
            reply == ServerError && db.users == old(db.users))
      && (StoredEmail(email.value) !in Store.Emails(old(db.users)) && isEmail(StoredEmail(email.value)) ==>
            && reply.Created? && reply.status == 201
            && db.users == old(db.users) + [reply.user]
            && reply.user.id !in Store.UserIds(old(db.users))
            && reply.user.name == name && reply.user.email == StoredEmail(email.value)
            && reply.user.password == password.value
            && reply.user.userName.None? && reply.user.avatar.None? && reply.user.refreshToken.None?
            && reply.user.createdAt == now && reply.user.updatedAt == now)
    ensures reply.Created? <==> db.users != old(db.users)
  {
    if !(Protect.Truthy(name) && Protect.Truthy(email) && Protect.Truthy(password)) {
      return Rejected(400, "All fields are required");
    }
    var stored := StoredEmail(email.value);
    if stored in Store.Emails(db.users) {
      return Rejected(400, "User already exists");
    }
    if !isEmail(stored) {
      return ServerError;
    }
    var id := Store.FreshId(Store.UserIds(db.users));
    var user := User(id, name, None, stored, password.value, None, None, now, now);
    db.InsertUser(user);
    reply := Created(201, user);
  }

  /** The stored form of an e-mail does not depend on the case of its ASCII letters. */
  lemma StoredEmailIgnoresCase(email: string)
    ensures StoredEmail(Text.ToUpper(email)) == StoredEmail(email)
  {
    var shouted := Text.ToUpper(email);
    forall i | 0 <= i < |email| ensures Text.ToLower(shouted)[i] == Text.ToLower(email)[i] {
      assert shouted[i] == Text.UpperChar(email[i]);
    }
  }

  /** Registering again with the same e-mail written in other capitals is refused. */
  method RegisterTwice(name: string, email: string, password: string) returns (first: RegisterReply, second: RegisterReply)
    requires name != "" && email != "" && password != ""
    ensures first.Created?
    ensures second == Rejected(400, "User already exists")
  {
    var db := new Store.Db();
    var accept := (e: string) => true;
    first := Register(db, Some(name), Some(email), Some(password), accept, 0);
    var shouted := Text.ToUpper(email);
    StoredEmailIgnoresCase(email);
    assert Store.Emails(db.users)[|db.users| - 1] == StoredEmail(email);
    second := Register(db, Some(name), Some(shouted), Some(password), accept, 1);
  }
}
