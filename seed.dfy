/** Initial data (src/lib/seed.ts): three accounts created only when the
    users collection is empty. A store failure part-way is caught and
    swallowed, leaving the accounts created before it. */
module Seed {
  import opened Common
  import opened Store

  const AdminPassword := "admin123"
  const JuanPassword := "juan123"
  const MariaPassword := "maria123"

  /** The three accounts, in creation order, with hashed passwords. */
  function SeedDrafts(hash: string -> string): (r: seq<UserDraft>)
    ensures |r| == 3
  {
    [ UserDraft("Admin", "Sistema", "admin@eventos.com", "123456789", "Servicios", Admin, hash(AdminPassword), true),
      UserDraft("Juan", "Pérez", "juan@eventos.com", "987654321", "Educación", Colaborador, hash(JuanPassword), true),
      UserDraft("María", "González", "maria@eventos.com", "555666777", "Salud", Colaborador, hash(MariaPassword), false) ]
  }

  function SeedRecords(hash: string -> string, s1: Stamp, s2: Stamp, s3: Stamp): (r: seq<User>)
    ensures |r| == 3
    ensures DraftOfUser(r[0]) == SeedDrafts(hash)[0] && DraftOfUser(r[1]) == SeedDrafts(hash)[1]
    ensures DraftOfUser(r[2]) == SeedDrafts(hash)[2]
  {
    var d := SeedDrafts(hash);
    [NewUser(d[0], s1), NewUser(d[1], s2), NewUser(d[2], s3)]
  }

  /** The users collection after seeding. `created` counts the createUser
      calls that completed before the store failed (3 or more: none failed). */
  function Seeded(users: seq<User>, hash: string -> string, s1: Stamp, s2: Stamp, s3: Stamp, created: nat): (r: seq<User>)
    ensures users != [] ==> r == users
    ensures users == [] && created >= 3 ==> r == SeedRecords(hash, s1, s2, s3)
    ensures users == [] ==> |r| <= 3 && IsPrefixOf(r, SeedRecords(hash, s1, s2, s3))
  {
    if users != [] then users
    else SeedRecords(hash, s1, s2, s3)[..if created < 3 then created else 3]
  }

  predicate IsPrefixOf<T(==)>(a: seq<T>, b: seq<T>) {
    |a| <= |b| && b[..|a|] == a
  }

  /** seedDatabase. */
  method SeedDatabase(db: Database, hash: string -> string, s1: Stamp, s2: Stamp, s3: Stamp, created: nat)
    modifies db
    ensures db.Snapshot() == old(db.Snapshot()).(users := Seeded(old(db.Users()), hash, s1, s2, s3, created))
  {
    var users := db.GetUsers();
    if |users| == 0 {
      var d := SeedDrafts(hash);
      if created == 0 { return; }
      var _ := db.CreateUser(d[0], s1);
      if created == 1 { return; }
      var _ := db.CreateUser(d[1], s2);
      if created == 2 { return; }
      var _ := db.CreateUser(d[2], s3);
    }
  }

  /** Seeding a second time changes nothing, whatever its clock readings. */
  lemma SeedIdempotent(users: seq<User>, hash: string -> string, s1: Stamp, s2: Stamp, s3: Stamp, t1: Stamp, t2: Stamp, t3: Stamp, created: nat)
    requires created >= 1
    ensures var once := Seeded(users, hash, s1, s2, s3, created);
            Seeded(once, hash, t1, t2, t3, 3) == once
  {
  }

  /** A failure after the first account leaves a partial set that later runs
      never complete, because the collection is no longer empty. */
  lemma SeedPartialIsFinal(hash: string -> string, s1: Stamp, s2: Stamp, s3: Stamp, t1: Stamp, t2: Stamp, t3: Stamp)
    ensures var partial := Seeded([], hash, s1, s2, s3, 1);
            |partial| == 1 && Seeded(partial, hash, t1, t2, t3, 3) == partial
  {
  }

  /** Exactly one seeded account is an administrator, the first. */
  lemma SeedOneAdmin(hash: string -> string)
    ensures forall i :: 0 <= i < 3 ==> (SeedDrafts(hash)[i].rol == Admin <==> i == 0)
    ensures |Filter(SeedDrafts(hash), (d: UserDraft) => d.rol == Admin)| == 1
  {
    var d := SeedDrafts(hash);
    var p := (x: UserDraft) => x.rol == Admin;
    assert d[1..][1..][1..] == [];
    assert Filter(d[1..][1..], p) == [];
    assert Filter(d[1..], p) == [];
  }

  /** The administrator and Juan are approved; María is pending. */
  lemma SeedApprovals(hash: string -> string)
    ensures SeedDrafts(hash)[0].aprobado && SeedDrafts(hash)[1].aprobado && !SeedDrafts(hash)[2].aprobado
  {
  }

  /** The seeded emails are pairwise distinct. */
  lemma SeedEmailsDistinct(hash: string -> string)
    ensures forall i, j :: 0 <= i < j < 3 ==> SeedDrafts(hash)[i].email != SeedDrafts(hash)[j].email
  {
  }
}
