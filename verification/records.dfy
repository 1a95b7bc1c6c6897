/** The project record as the API and the JSON file hold it, the row shape of
    the hosted `projects` table, the renaming between the two, and whether a
    hosted-database client exists at all. */
module Records {
  import opened Wrappers
  import opened Text

  /** A portfolio entry. `createdAt`/`updatedAt` are ISO-8601 timestamps,
      carried as opaque strings. */
  datatype Project = Project(
    id: string,
    title: string,
    category: string,
    description: string,
    completion: string,
    details: seq<string>,
    images: seq<string>,
    createdAt: string,
    updatedAt: string)

  /** A row of the hosted table; the two timestamp columns are named
      `created_at` and `updated_at` there. */
  datatype DatabaseProject = DatabaseProject(
    id: string,
    title: string,
    category: string,
    description: string,
    completion: string,
    details: seq<string>,
    images: seq<string>,
    created_at: string,
    updated_at: string)

  /** `formatProject`: the row in API shape. Every field is carried over; only
      the two timestamp names change. */
  function FormatProject(row: DatabaseProject): (p: Project)
    ensures p.id == row.id && p.title == row.title && p.category == row.category
    ensures p.description == row.description && p.completion == row.completion
    ensures p.details == row.details && p.images == row.images
    ensures p.createdAt == row.created_at && p.updatedAt == row.updated_at
  {
    Project(row.id, row.title, row.category, row.description, row.completion,
            row.details, row.images, row.created_at, row.updated_at)
  }

  /** The row a record is stored as in the hosted table. */
  function ToDatabaseProject(p: Project): (row: DatabaseProject)
    ensures FormatProject(row) == p
  {
    DatabaseProject(p.id, p.title, p.category, p.description, p.completion,
                    p.details, p.images, p.createdAt, p.updatedAt)
  }

  /** No row is lost or merged by the renaming: it is a bijection. */
  lemma FormatProjectInjective(a: DatabaseProject, b: DatabaseProject)
    ensures FormatProject(a) == FormatProject(b) <==> a == b
  {
  }

  lemma FormatProjectRoundTrip(row: DatabaseProject)
    ensures ToDatabaseProject(FormatProject(row)) == row
  {
  }

  // ---------------------------------------------------------------------------
  // Details filter, shared by the admin form and the create handler

  /** `details.filter(d => d.trim() !== '')`: the entries with a non-whitespace
      character, in their original order. */
  function NonBlank(details: seq<string>): (kept: seq<string>)
    ensures |kept| <= |details|
    ensures forall i | 0 <= i < |kept| :: Trim(kept[i]) != ""
    decreases |details|
  {
    if details == [] then []
    else (if Trim(details[0]) != "" then [details[0]] else []) + NonBlank(details[1..])
  }

  /** The filter works entry by entry: it commutes with concatenation, so the
      order of what it keeps is the input's order. */
  lemma {:induction false} NonBlankAppend(a: seq<string>, b: seq<string>)
    ensures NonBlank(a + b) == NonBlank(a) + NonBlank(b)
    decreases |a|
  {
    if a == [] {
      assert a + b == b;
    } else {
      assert (a + b)[0] == a[0] && (a + b)[1..] == a[1..] + b;
      NonBlankAppend(a[1..], b);
    }
  }

  /** An entry is kept exactly when it is in the input and is not blank. */
  lemma {:induction false} NonBlankMembers(details: seq<string>, d: string)
    ensures d in NonBlank(details) <==> d in details && Trim(d) != ""
    decreases |details|
  {
    if details != [] {
      NonBlankMembers(details[1..], d);
      assert details == [details[0]] + details[1..];
    }
  }

  /** Filtering already-filtered details changes nothing. */
  lemma {:induction false} NonBlankIdempotent(details: seq<string>)
    ensures NonBlank(NonBlank(details)) == NonBlank(details)
    decreases |details|
  {
    if details != [] {
      NonBlankIdempotent(details[1..]);
      var head := if Trim(details[0]) != "" then [details[0]] else [];
      NonBlankAppend(head, NonBlank(details[1..]));
    }
  }

  /** The filter is the identity exactly on lists without blank entries. */
  lemma {:induction false} NonBlankFixpoint(details: seq<string>)
    ensures NonBlank(details) == details <==> forall i | 0 <= i < |details| :: Trim(details[i]) != ""
    decreases |details|
  {
    if details != [] {
      NonBlankFixpoint(details[1..]);
      if Trim(details[0]) == "" {
        assert |NonBlank(details)| < |details|;
      } else {
        assert details == [details[0]] + details[1..];
        if forall i | 0 <= i < |details| :: Trim(details[i]) != "" {
          assert forall i | 0 <= i < |details[1..]| :: Trim(details[1..][i]) != "" by {
            forall i | 0 <= i < |details[1..]| ensures Trim(details[1..][i]) != "" {
              assert details[1..][i] == details[i + 1];
            }
          }
        } else {
          var i :| 0 <= i < |details| && Trim(details[i]) == "";
          assert details[1..][i - 1] == details[i];
        }
      }
    }
  }

  /** `["Good work", "  ", ""]` keeps only `"Good work"`. */
  lemma NonBlankExample()
    ensures NonBlank(["Good work", "  ", ""]) == ["Good work"]
  {
    assert Trim("  ") == "";
    assert Trim("Good work") != "" by {
      TrimEmptyIffBlank("Good work");
      assert !IsSpace("Good work"[0]);
    }
  }

  // ---------------------------------------------------------------------------
  // Hosted database configuration

  /** An environment variable is truthy when it is set and not empty. */
  predicate Truthy(v: Option<string>) {
    v.Some? && v.value != ""
  }

  /** The two environment variables the client is built from. */
  datatype SupabaseEnv = SupabaseEnv(url: Option<string>, anonKey: Option<string>)

  /** What the client is created with. */
  datatype Client = Client(url: string, anonKey: string)

  /** The module-level `supabase` constant: a client when both the URL and the
      key are non-empty, `null` otherwise. */
  function SupabaseClient(env: SupabaseEnv): (client: Option<Client>)
    ensures client.Some? <==> Truthy(env.url) && Truthy(env.anonKey)
    ensures client.Some? ==> client.value == Client(env.url.value, env.anonKey.value)
  {
    if Truthy(env.url) && Truthy(env.anonKey) then Some(Client(env.url.value, env.anonKey.value))
    else None
  }

  /** `isSupabaseConfigured()` */
  predicate IsSupabaseConfigured(env: SupabaseEnv) {
    SupabaseClient(env).Some? && Truthy(env.url) && Truthy(env.anonKey)
  }

  /** The configuration test and the client's existence always agree, and
      both hold exactly when both variables are non-empty. */
  lemma ConfiguredIffClient(env: SupabaseEnv)
    ensures IsSupabaseConfigured(env) <==> SupabaseClient(env).Some?
    ensures IsSupabaseConfigured(env) <==> (Truthy(env.url) && Truthy(env.anonKey))
  {
  }
}
