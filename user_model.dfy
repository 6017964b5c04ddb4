/**
 * The User record of the Sequelize model: required name, unique e-mail and
 * password columns, the `beforeCreate` hook that replaces the plaintext with
 * its hash, and `matchPassword`. bcrypt's `hash` and `compare` are
 * uninterpreted: they enter as function parameters.
 */
module UserModel {

  const NameWidth: nat := 100
  const EmailWidth: nat := 255
  const PasswordWidth: nat := 255

  /** A stored user; `password` holds whatever the hook stored (the hash). */
  datatype User = User(id: nat, name: string, email: string, password: string)

  /** What the database accepts for the columns of a row. */
  predicate FitsColumns(u: User) {
    |u.name| <= NameWidth && |u.email| <= EmailWidth && |u.password| <= PasswordWidth
  }

  /** No two distinct users share an e-mail. */
  ghost predicate EmailsUnique(users: map<nat, User>) {
    forall i, j :: i in users && j in users && i != j ==> users[i].email != users[j].email
  }

  predicate EmailTaken(users: map<nat, User>, email: string) {
    exists id :: id in users && users[id].email == email
  }

  /** The `beforeCreate` hook: the password attribute is overwritten by `hash` of itself, nothing else changes. */
  function BeforeCreate(u: User, hash: string -> string): (r: User)
    ensures r.id == u.id && r.name == u.name && r.email == u.email
    ensures r.password == hash(u.password)
  {
    u.(password := hash(u.password))
  }

  /** `matchPassword(p)`: bcrypt's comparison of `p` against the stored hash. */
  predicate MatchPassword(u: User, entered: string, compare: (string, string) -> bool) {
    compare(entered, u.password)
  }

  /**
   * With bcrypt's contract (`compare(p, h)` holds exactly when `h` is the hash
   * of `p`) and a hash that tells passwords apart, a user created through the
   * hook matches its registered plaintext and nothing else.
   */
  lemma HookThenMatch(u: User, entered: string, hash: string -> string, compare: (string, string) -> bool)
    requires forall p, h :: compare(p, h) <==> h == hash(p)
    requires forall p, q :: hash(p) == hash(q) ==> p == q
    ensures MatchPassword(BeforeCreate(u, hash), entered, compare) <==> entered == u.password
  {
  }
}
