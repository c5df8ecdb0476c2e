/** The credential table and the operations on it: `SeedDatabaseAsync`, which
    inserts a default credential only into an empty table, and
    `CredentialService`, whose constructor creates and seeds the table, whose
    `SaveCredentialsAsync` overwrites the first row or inserts one, and whose
    `GetCredentialsAsync` returns the first row, if any. The table is a
    sequence of rows in the order the store returns them. */
module Credentials {
  import opened Wrappers

  datatype Credential = Credential(Username: string, Password: string)

  type Table = seq<Credential>

  /** `SeedDatabaseAsync`: adds `default` when the table has no row, and
      otherwise leaves it alone. */
  function Seed(t: Table, default: Credential): (r: Table)
    ensures |r| > 0
    ensures |t| == 0 ==> r == [default]
    ensures |t| > 0 ==> r == t
  {
    if |t| == 0 then t + [default] else t
  }

  /** `SaveCredentialsAsync`: the first row, if there is one, takes the new
      user name and password; otherwise a row is added. */
  function Save(t: Table, username: string, password: string): (r: Table)
    ensures |r| == if |t| == 0 then 1 else |t|
    ensures r[0] == Credential(username, password)
    ensures r[1..] == if |t| == 0 then [] else t[1..]
  {
    if |t| > 0 then t[0 := Credential(username, password)]
    else t + [Credential(username, password)]
  }

  /** `GetCredentialsAsync`: the first row, or nothing for an empty table. */
  function Get(t: Table): (r: Option<Credential>)
    ensures r.None? <==> |t| == 0
    ensures r.Some? ==> r.value == t[0]
  {
    if |t| == 0 then None else Some(t[0])
  }

  /** The table after the constructor: `EnsureCreated` yields the existing
      table, or an empty one when the database did not exist, and the seed
      runs on it. */
  function Open(existing: Option<Table>, default: Credential): (r: Table)
    ensures |r| > 0
    ensures existing.None? ==> r == [default]
    ensures existing.Some? ==> r == Seed(existing.value, default)
    ensures existing.Some? && |existing.value| > 0 ==> r == existing.value
  {
    var t := if existing.Some? then existing.value else [];
    Seed(t, default)
  }

  /** Reading right after saving returns what was saved. */
  lemma GetAfterSave(t: Table, username: string, password: string)
    ensures Get(Save(t, username, password)) == Some(Credential(username, password))
  {
  }

  /** Saving the same credential twice leaves the table as saving it once. */
  lemma SaveIsIdempotent(t: Table, username: string, password: string)
    ensures Save(Save(t, username, password), username, password) == Save(t, username, password)
  {
  }

  /** A later save replaces an earlier one completely. */
  lemma LastSaveWins(t: Table, u1: string, p1: string, u2: string, p2: string)
    ensures Save(Save(t, u1, p1), u2, p2) == Save(t, u2, p2)
  {
  }

  /** Saving changes at most the first row: every other row keeps its place
      and contents. */
  lemma SaveKeepsOtherRows(t: Table, username: string, password: string, i: int)
    requires 0 < i < |t|
    ensures Save(t, username, password)[i] == t[i]
  {
  }

  /** Seeding twice is seeding once. */
  lemma SeedIsIdempotent(t: Table, default: Credential)
    ensures Seed(Seed(t, default), default) == Seed(t, default)
  {
  }

  /** A saved credential survives a later seed: seeding never overwrites. */
  lemma SeedKeepsSaved(t: Table, username: string, password: string, default: Credential)
    ensures Get(Seed(Save(t, username, password), default)) == Some(Credential(username, password))
  {
  }

  /** After construction there is always a credential to read: the seeded
      default when the table was empty, otherwise the first existing row. */
  lemma ServiceAlwaysHasCredential(existing: Option<Table>, default: Credential)
    ensures Get(Open(existing, default)).Some?
    ensures existing.None? || existing.value == [] ==> Get(Open(existing, default)) == Some(default)
    ensures existing.Some? && existing.value != [] ==> Get(Open(existing, default)) == Some(existing.value[0])
  {
  }
}
