/**
 * The first backend's choice of database: a PostgreSQL URL from the environment,
 * forced onto the asyncpg driver, or an in-memory SQLite database. The two
 * environment variables are parameters, `None` when unset.
 */
module DatabaseUrl {
  import opened Wrappers
  import opened Text

  const SqliteMemory: string := "sqlite+aiosqlite:///:memory:"
  const AsyncpgScheme: string := "postgresql+asyncpg://"

  /** `DATABASE_URL` is set and non-empty and `DATABASE_TYPE` (default "sqlite"),
      lowercased, is "postgresql". */
  predicate UsesPostgres(databaseUrl: Option<string>, databaseType: Option<string>)
  {
    databaseUrl.Some? && databaseUrl.value != "" && Lower(databaseType.GetOr("sqlite")) == "postgresql"
  }

  /** A URL on the plain PostgreSQL schemes is moved onto the asyncpg driver, keeping
      everything after the scheme; any other URL is kept. */
  function WithAsyncpg(url: string): (r: string)
    ensures StartsWith(url, "postgresql://") ==> r == AsyncpgScheme + url[13..]
    ensures !StartsWith(url, "postgresql://") && StartsWith(url, "postgres://") ==> r == AsyncpgScheme + url[11..]
    ensures !StartsWith(url, "postgresql://") && !StartsWith(url, "postgres://") ==> r == url
  {
    if StartsWith(url, "postgresql://") then AsyncpgScheme + url[13..]
    else if StartsWith(url, "postgres://") then AsyncpgScheme + url[11..]
    else url
  }

  /** `get_database_url`. */
  function GetDatabaseUrl(databaseUrl: Option<string>, databaseType: Option<string>): (r: string)
    ensures UsesPostgres(databaseUrl, databaseType) ==> r == WithAsyncpg(databaseUrl.value)
    ensures !UsesPostgres(databaseUrl, databaseType) ==> r == SqliteMemory
  {
    if UsesPostgres(databaseUrl, databaseType) then WithAsyncpg(databaseUrl.value) else SqliteMemory
  }

  /** A rewritten URL starts with the asyncpg scheme, which is neither of the plain
      schemes, so the rewrite never applies twice. */
  lemma AsyncpgNotPlain(rest: string)
    ensures !StartsWith(AsyncpgScheme + rest, "postgresql://")
    ensures !StartsWith(AsyncpgScheme + rest, "postgres://")
  {
    var s := AsyncpgScheme + rest;
    assert s[10] == '+';
    assert s[8] == 'q';
  }

  /** The driver rewrite is idempotent. */
  lemma WithAsyncpgIdempotent(url: string)
    ensures WithAsyncpg(WithAsyncpg(url)) == WithAsyncpg(url)
  {
    if StartsWith(url, "postgresql://") {
      AsyncpgNotPlain(url[13..]);
    } else if StartsWith(url, "postgres://") {
      AsyncpgNotPlain(url[11..]);
    }
  }

  /** Feeding the chosen URL back in as `DATABASE_URL` with the same type chooses it
      again: in the SQLite case the SQLite URL is kept as it is. */
  lemma GetDatabaseUrlStable(databaseUrl: Option<string>, databaseType: Option<string>)
    ensures GetDatabaseUrl(Some(GetDatabaseUrl(databaseUrl, databaseType)), databaseType)
            == GetDatabaseUrl(databaseUrl, databaseType)
  {
    var r := GetDatabaseUrl(databaseUrl, databaseType);
    if UsesPostgres(databaseUrl, databaseType) {
      WithAsyncpgIdempotent(databaseUrl.value);
      assert r != "" by {
        if !StartsWith(databaseUrl.value, "postgresql://") && !StartsWith(databaseUrl.value, "postgres://") {
          assert r == databaseUrl.value;
        }
      }
      assert UsesPostgres(Some(r), databaseType);
    } else {
      SqliteKept(databaseType);
    }
  }

  lemma SqliteKept(databaseType: Option<string>)
    ensures GetDatabaseUrl(Some(SqliteMemory), databaseType) == SqliteMemory
  {
    assert SqliteMemory[0] == 's';
  }

  /** A URL on either plain scheme, in the PostgreSQL configuration, comes out on the
      asyncpg driver with the same host part. */
  lemma PlainSchemesRewritten(rest: string, databaseType: Option<string>)
    requires Lower(databaseType.GetOr("sqlite")) == "postgresql"
    ensures GetDatabaseUrl(Some("postgresql://" + rest), databaseType) == AsyncpgScheme + rest
    ensures GetDatabaseUrl(Some("postgres://" + rest), databaseType) == AsyncpgScheme + rest
  {
    var a := "postgresql://" + rest;
    var b := "postgres://" + rest;
    assert a[..13] == "postgresql://" && a[13..] == rest;
    assert b[..11] == "postgres://" && b[11..] == rest;
    assert b[8] == ':';
  }
}
