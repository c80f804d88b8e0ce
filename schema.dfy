/**
 * The persistent rows behind the RBAC layer (users, roles, permissions and
 * the two many-to-many edges) and the unique-column lookup the database
 * offers on them. A table is the sequence of its rows in insertion order.
 */
module Schema {
  import opened Wrappers

  /** Primary keys are database-generated strings. */
  type Id = string

  datatype Permission = Permission(id: Id, name: string, description: Option<string>)

  /** `permissions` holds the ids of the connected Permission rows. */
  datatype Role = Role(id: Id, name: string, description: Option<string>, permissions: set<Id>)

  /** `password` is the stored digest; `roles` holds the ids of the connected Role rows. */
  datatype User = User(id: Id, email: string, password: string, createdAt: nat, updatedAt: nat, roles: set<Id>)

  function PermissionId(p: Permission): string { p.id }
  function PermissionName(p: Permission): string { p.name }
  function RoleId(r: Role): string { r.id }
  function RoleName(r: Role): string { r.name }
  function UserId(u: User): string { u.id }
  function UserEmail(u: User): string { u.email }

  /**
   * `findUnique` on a column: the index of the first row whose `key` is `k`,
   * or None when no row has it.
   */
  function Find<T>(rows: seq<T>, key: T -> string, k: string): (r: Option<nat>)
    ensures r.Some? ==> r.value < |rows| && key(rows[r.value]) == k
    ensures r.Some? ==> forall j :: 0 <= j < r.value ==> key(rows[j]) != k
    ensures r.None? <==> forall j :: 0 <= j < |rows| ==> key(rows[j]) != k
  {
    if |rows| == 0 then None
    else if key(rows[0]) == k then Some(0)
    else match Find(rows[1..], key, k)
      case None => None
      case Some(i) => Some(i + 1)
  }

  /** No two rows share a value of the `key` column (a unique constraint). */
  ghost predicate Unique<T>(rows: seq<T>, key: T -> string)
  {
    forall i, j :: 0 <= i < |rows| && 0 <= j < |rows| && key(rows[i]) == key(rows[j]) ==> i == j
  }

  /** No two users share an email or an id. */
  ghost predicate UniqueUsers(users: seq<User>)
  {
    Unique(users, UserEmail) && Unique(users, UserId)
  }

  /** Some row has `k` in its `key` column. */
  ghost predicate Present<T>(rows: seq<T>, key: T -> string, k: string)
  {
    exists i :: 0 <= i < |rows| && key(rows[i]) == k
  }

  /** Under a unique constraint, the row with key `k` is the one at index `i`. */
  lemma FindUnique<T>(rows: seq<T>, key: T -> string, k: string, i: nat)
    requires Unique(rows, key) && i < |rows| && key(rows[i]) == k
    ensures Find(rows, key, k) == Some(i)
  {
  }

  /** Appending rows leaves the answer the same for a key already present. */
  lemma {:induction false} FindAppend<T>(rows: seq<T>, more: seq<T>, key: T -> string, k: string)
    ensures Find(rows, key, k).Some? ==> Find(rows + more, key, k) == Find(rows, key, k)
    ensures Find(rows, key, k).None? ==>
      match Find(more, key, k)
      case None => Find(rows + more, key, k).None?
      case Some(j) => Find(rows + more, key, k) == Some(|rows| + j)
  {
    if |rows| > 0 {
      assert (rows + more)[1..] == rows[1..] + more;
      FindAppend(rows[1..], more, key, k);
    } else {
      assert rows + more == more;
    }
  }

  /** `b` is `a` with rows appended. */
  ghost predicate Grows<T>(a: seq<T>, b: seq<T>)
  {
    |a| <= |b| && b[..|a|] == a
  }

  lemma GrowsTransitive<T>(a: seq<T>, b: seq<T>, c: seq<T>)
    requires Grows(a, b) && Grows(b, c)
    ensures Grows(a, c)
  {
    assert c[..|a|] == c[..|b|][..|a|];
  }

  /** A key found in a table is found at the same row once rows are appended. */
  lemma FindGrows<T>(rows: seq<T>, longer: seq<T>, key: T -> string, k: string)
    requires Grows(rows, longer) && Find(rows, key, k).Some?
    ensures Find(longer, key, k) == Find(rows, key, k)
    ensures longer[Find(longer, key, k).value] == rows[Find(rows, key, k).value]
  {
    assert longer == rows + longer[|rows|..];
    FindAppend(rows, longer[|rows|..], key, k);
  }

  /** Lookups depend only on the looked-up column. */
  lemma {:induction false} FindSameKeys<T>(a: seq<T>, b: seq<T>, key: T -> string, k: string)
    requires |a| == |b| && forall i :: 0 <= i < |a| ==> key(a[i]) == key(b[i])
    ensures Find(a, key, k) == Find(b, key, k)
  {
    if |a| > 0 {
      FindSameKeys(a[1..], b[1..], key, k);
    }
  }

  lemma UniqueSameKeys<T>(a: seq<T>, b: seq<T>, key: T -> string)
    requires |a| == |b| && forall i :: 0 <= i < |a| ==> key(a[i]) == key(b[i])
    requires Unique(a, key)
    ensures Unique(b, key)
  {
  }

  /** Appending a row whose key is new keeps the column unique. */
  lemma UniqueAppend<T>(rows: seq<T>, key: T -> string, row: T)
    requires Unique(rows, key) && !Present(rows, key, key(row))
    ensures Unique(rows + [row], key)
  {
    var all := rows + [row];
    forall i, j | 0 <= i < |all| && 0 <= j < |all| && key(all[i]) == key(all[j])
      ensures i == j
    {
      if i < |rows| && j < |rows| {
        assert key(rows[i]) == key(rows[j]);
      }
    }
  }

  lemma PresentAppend<T>(rows: seq<T>, key: T -> string, row: T, k: string)
    ensures Present(rows + [row], key, k) <==> Present(rows, key, k) || key(row) == k
  {
    if Present(rows, key, k) {
      var i :| 0 <= i < |rows| && key(rows[i]) == k;
      assert key((rows + [row])[i]) == k;
    }
    if key(row) == k {
      assert key((rows + [row])[|rows|]) == k;
    }
  }

  lemma PresentGrows<T>(rows: seq<T>, longer: seq<T>, key: T -> string, k: string)
    requires Grows(rows, longer) && Present(rows, key, k)
    ensures Present(longer, key, k)
  {
    var i :| 0 <= i < |rows| && key(rows[i]) == k;
    assert longer[i] == rows[i];
  }
}
